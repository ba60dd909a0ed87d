/**
 * routes/projects.py: projects of a (client, contract) pair whose spent hours are the
 * rounded sum of the billed time of the matching tasks.
 */
module Projects {
  import opened Values
  import opened Text
  import opened ObjectIds
  import opened Http
  import opened Store

  const ErrTokenAbsent := HttpError(401, "Token ausente.")
  const ErrTokenInvalid := HttpError(401, "Token inválido.")
  const ErrProjectExists := HttpError(400, "Projeto já existe para este cliente e contrato.")
  const ErrProjectNotFound := HttpError(404, "Projeto não encontrado.")

  /** This router's own token check: it answers the `sub` claim unchecked (null when absent). */
  function ProjectsCaller(h: Headers, decode: Decoder): (r: Result<Value>)
    ensures r.Err? ==> r.error.status == 401
    ensures r.Ok? <==> BearerToken(h).Some? && decode(BearerToken(h).value).Some?
    ensures r.Ok? ==> r.value == Get(decode(BearerToken(h).value).value, "sub", Null)
  {
    match BearerToken(h)
    case None => Err(ErrTokenAbsent)
    case Some(token) =>
      match decode(token)
      case None => Err(ErrTokenInvalid)
      case Some(payload) => Ok(Get(payload, "sub", Null))
  }

  // ---------------------------------------------------------------------------
  // Hours

  /**
   * time_to_hours: "H:M" as H + M/60, where the text splits on ':' into exactly two integer
   * literals (either may carry a sign); anything else, including a value that is not a
   * string, counts as 0.
   */
  function TimeToHours(v: Value): (r: real)
    ensures !v.Str? ==> r == 0.0
    ensures r != 0.0 ==> exists a, b ::
      && ':' !in a && ':' !in b && v.s == a + [':'] + b
      && ParseInt(a).Some? && ParseInt(b).Some?
      && r == ParseInt(a).value as real + ParseInt(b).value as real / 60.0
  {
    if !v.Str? then 0.0
    else
      var parts := Split(v.s, ':');
      if |parts| != 2 then 0.0
      else
        match (ParseInt(parts[0]), ParseInt(parts[1]))
        case (Some(h), Some(m)) =>
          TwoPieces(v.s, ':');
          h as real + m as real / 60.0
        case _ => 0.0
  }

  /** A text that splits into two pieces is the two pieces around the one separator. */
  lemma TwoPieces(s: string, sep: char)
    requires |Split(s, sep)| == 2
    ensures var parts := Split(s, sep);
      sep !in parts[0] && sep !in parts[1] && s == parts[0] + [sep] + parts[1]
  {
    var parts := Split(s, sep);
    JoinSplit(s, sep);
    SplitPiecesNoSep(s, sep);
    assert Join(parts[1..], sep) == parts[1];
  }

  lemma ShowIntHasNoColon(i: int)
    ensures ':' !in ShowInt(i)
  {
    var digits := ShowNat(if i < 0 then -i else i);
    assert forall k :: 0 <= k < |digits| ==> digits[k] != ':';
  }

  /** Reading back any rendered "H:M" gives H + M/60 (the parse inverts the rendering). */
  lemma TimeToHoursRoundTrip(h: int, m: int)
    ensures TimeToHours(Str(ShowInt(h) + ":" + ShowInt(m))) == h as real + m as real / 60.0
  {
    ShowIntHasNoColon(h);
    ShowIntHasNoColon(m);
    SplitTwo(ShowInt(h), ShowInt(m), ':');
    assert ShowInt(h) + ":" + ShowInt(m) == ShowInt(h) + [':'] + ShowInt(m);
    ParseShowInt(h);
    ParseShowInt(m);
  }

  /** A text without exactly one ':' counts as no time at all. */
  lemma TimeToHoursNeedsOneColon(s: string)
    requires ':' !in s
    ensures TimeToHours(Str(s)) == 0.0
  {
    SplitNoSep(s, ':');
  }

  /** A text with exactly one ':' reads its two sides as integers, or counts as 0 when either is not one. */
  lemma TimeToHoursParts(a: string, b: string)
    requires ':' !in a && ':' !in b
    ensures ParseInt(a).Some? && ParseInt(b).Some? ==>
      TimeToHours(Str(a + [':'] + b)) == ParseInt(a).value as real + ParseInt(b).value as real / 60.0
    ensures ParseInt(a).None? || ParseInt(b).None? ==> TimeToHours(Str(a + [':'] + b)) == 0.0
  {
    SplitTwo(a, b, ':');
  }

  /** "02:30" is two and a half hours. */
  lemma TimeToHoursExample()
    ensures TimeToHours(Str("02:30")) == 2.5
  {
    assert DigitsValue("02") == 2 && DigitsValue("30") == 30;
    assert ParseInt("02") == Some(2) && ParseInt("30") == Some(30);
    TimeToHoursParts("02", "30");
    assert "02:30" == "02" + [':'] + "30";
  }

  /** Billed times of "02:30" and "01:15" make 3.75 hours. */
  lemma HoursSumExample()
    ensures Round2(TimeToHours(Str("02:30")) + TimeToHours(Str("01:15"))) == 3.75
  {
    TimeToHoursExample();
    QuarterPastOne();
    assert (3.75 * 100.0 + 0.5).Floor == 375;
  }

  /** "01:15" is an hour and a quarter. */
  lemma QuarterPastOne()
    ensures TimeToHours(Str("01:15")) == 1.25
  {
    assert DigitsValue("01") == 1 && DigitsValue("15") == 15;
    assert ParseInt("01") == Some(1) && ParseInt("15") == Some(15);
    TimeToHoursParts("01", "15");
    assert "01:15" == "01" + [':'] + "15";
  }

  /** Texts that are not "H:M" count as no time. */
  lemma MalformedTimeExamples()
    ensures TimeToHours(Str("abc")) == 0.0 && TimeToHours(Str("1:2:3")) == 0.0 && TimeToHours(Str("1:xx")) == 0.0
  {
    TimeToHoursNeedsOneColon("abc");
    TwoColonsExample();
    assert ParseInt("xx").None?;
    TimeToHoursParts("1", "xx");
    assert "1:xx" == "1" + [':'] + "xx";
  }

  /** "1:2:3" splits into three pieces and so counts as no time. */
  lemma TwoColonsExample()
    ensures |Split("1:2:3", ':')| == 3
    ensures TimeToHours(Str("1:2:3")) == 0.0
  {
    SplitAt("1", "2:3", ':');
    SplitTwo("2", "3", ':');
    assert "1:2:3" == "1" + [':'] + ("2" + [':'] + "3");
  }

  /** `round(x, 2)`: the nearest multiple of 0.01. Sums of whole minutes in hours never fall
      exactly halfway between two hundredths, so the rounding rule for ties does not arise. */
  /** A whole number of hundredths. */
  predicate WholeHundredths(r: real) {
    (r * 100.0).Floor as real == r * 100.0
  }

  function Round2(x: real): (r: real)
    ensures WholeHundredths(r)
    ensures -0.005 < r - x <= 0.005
  {
    var n := (x * 100.0 + 0.5).Floor;
    assert (n as real / 100.0) * 100.0 == n as real;
    n as real / 100.0
  }

  /** A value already in hundredths is left as it is: rounding twice is rounding once. */
  lemma Round2Idempotent(x: real)
    ensures Round2(Round2(x)) == Round2(x)
  {
    var n := (x * 100.0 + 0.5).Floor;
    var y := Round2(x);
    assert y * 100.0 == n as real;
    assert (y * 100.0 + 0.5).Floor == n;
  }

  /** The billed time of a task; a task without `tempo_faturado` counts as "00:00". */
  function BilledHours(task: Doc): real {
    TimeToHours(Get(task, "tempo_faturado", Str("00:00")))
  }

  /** The unrounded total of the billed time of `tasks`. */
  function SumHours(tasks: seq<Row>): (r: real)
    ensures |tasks| == 1 ==> r == BilledHours(tasks[0].1)
  {
    if tasks == [] then 0.0 else SumHours(tasks[..|tasks| - 1]) + BilledHours(tasks[|tasks| - 1].1)
  }

  /** A total of times none of which is negative is not negative; with no billed time at all it is 0. */
  lemma {:induction false} SumHoursSign(tasks: seq<Row>)
    ensures (forall i :: 0 <= i < |tasks| ==> BilledHours(tasks[i].1) >= 0.0) ==> SumHours(tasks) >= 0.0
    ensures (forall i :: 0 <= i < |tasks| ==> BilledHours(tasks[i].1) == 0.0) ==> SumHours(tasks) == 0.0
  {
    if tasks != [] {
      var init := tasks[..|tasks| - 1];
      SumHoursSign(init);
      assert forall i :: 0 <= i < |init| ==> init[i] == tasks[i];
    }
  }

  lemma {:induction false} SumHoursAppend(a: seq<Row>, b: seq<Row>)
    ensures SumHours(a + b) == SumHours(a) + SumHours(b)
    decreases |b|
  {
    if b == [] {
      assert a + b == a;
    } else {
      assert (a + b)[..|a + b| - 1] == a + b[..|b| - 1];
      SumHoursAppend(a, b[..|b| - 1]);
    }
  }

  function HoursFilter(cliente: Value, contrato: Value): map<string, Value> {
    map["cliente" := cliente, "contrato" := contrato]
  }

  /** The hours a project of (cliente, contrato) has spent. */
  function ProjectHours(tasks: Table, cliente: Value, contrato: Value): (r: real)
    ensures WholeHundredths(r)
    ensures (forall id :: id in tasks.rows ==>
      Get(tasks.rows[id], "cliente", Null) != cliente || Get(tasks.rows[id], "contrato", Null) != contrato) ==> r == 0.0
  {
    var found := FindEq(tasks, HoursFilter(cliente, contrato));
    NoTasksNoneFound(tasks, cliente, contrato);
    var total := SumHours(found);
    assert found == [] ==> total == 0.0;
    Round2Zero();
    Round2(total)
  }

  /** No time rounds to no time. */
  lemma Round2Zero()
    ensures Round2(0.0) == 0.0
  {
    assert (0.0 * 100.0 + 0.5).Floor == 0;
  }

  /** When no stored task has the pair, the hours query finds nothing. */
  lemma NoTasksNoneFound(tasks: Table, cliente: Value, contrato: Value)
    ensures (forall id :: id in tasks.rows ==>
      Get(tasks.rows[id], "cliente", Null) != cliente || Get(tasks.rows[id], "contrato", Null) != contrato) ==>
      FindEq(tasks, HoursFilter(cliente, contrato)) == []
  {
    var found := FindEq(tasks, HoursFilter(cliente, contrato));
    if found != [] {
      assert found[0] in found;
      SelectSpec(tasks.order, tasks.rows, EqFilter(HoursFilter(cliente, contrato)), NoRegex, found[0]);
      HoursFilterMatches(cliente, contrato, found[0].1);
    }
  }

  /** The hours query matches exactly the tasks of that client and contract, a missing field counting as null. */
  lemma HoursFilterMatches(cliente: Value, contrato: Value, d: Doc)
    ensures Matches(EqFilter(HoursFilter(cliente, contrato)), d, NoRegex) <==>
      Get(d, "cliente", Null) == cliente && Get(d, "contrato", Null) == contrato
  {
    var f := EqFilter(HoursFilter(cliente, contrato));
    assert "cliente" in f && "contrato" in f;
  }

  /** A new task of the same client and contract adds exactly its billed time to the unrounded total;
      a task of any other pair leaves it alone. */
  lemma SumHoursAfterNewTask(tasks: Table, id: Oid, task: Doc, cliente: Value, contrato: Value)
    requires Valid(tasks) && id !in tasks.rows
    ensures var f := HoursFilter(cliente, contrato);
      SumHours(FindEq(Insert(tasks, id, task), f)) ==
        SumHours(FindEq(tasks, f)) +
          (if Get(task, "cliente", Null) == cliente && Get(task, "contrato", Null) == contrato then BilledHours(task) else 0.0)
  {
    var f := HoursFilter(cliente, contrato);
    FindAfterInsert(tasks, id, task, EqFilter(f), NoRegex);
    var matched := Matches(EqFilter(f), task, NoRegex);
    HoursFilterMatches(cliente, contrato, task);
    SumHoursAppend(FindEq(tasks, f), if matched then [(id, task)] else []);
    if matched {
      assert SumHours([(id, task)]) == SumHours([]) + BilledHours(task) by {
        assert [(id, task)][..0] == [];
      }
    }
  }

  /** calcular_horas_gastas: the loop over the matching tasks, rounded at the end. */
  method CalcularHorasGastas(cliente: Value, contrato: Value, tasks: Collection) returns (horas: real)
    ensures horas == ProjectHours(tasks.View(), cliente, contrato)
  {
    var tarefas := tasks.FindAll(HoursFilter(cliente, contrato));
    var total := 0.0;
    var i := 0;
    while i < |tarefas|
      invariant 0 <= i <= |tarefas|
      invariant total == SumHours(tarefas[..i])
    {
      assert tarefas[..i + 1][..i] == tarefas[..i];
      var tempo := Get(tarefas[i].1, "tempo_faturado", Str("00:00"));
      total := total + TimeToHours(tempo);
      i := i + 1;
    }
    assert tarefas[..i] == tarefas;
    horas := Round2(total);
  }

  // ---------------------------------------------------------------------------
  // Projects

  /** The fields of a project body (`ProjectBase`). */
  predicate IsProjectBody(d: Doc) {
    && d.Keys == {"cliente", "contrato", "descricao", "horas_contratadas", "horas_gastas"}
    && d["cliente"].Str? && d["contrato"].Str?
  }

  /** The identity of a project: its client, contract and description (`find_one` equality,
      where a missing field reads as null). */
  function ProjectKey(d: Doc): (Value, Value, Value) {
    (Get(d, "cliente", Null), Get(d, "contrato", Null), Get(d, "descricao", Null))
  }

  function KeyFilter(d: Doc): map<string, Value> {
    map["cliente" := Get(d, "cliente", Null), "contrato" := Get(d, "contrato", Null), "descricao" := Get(d, "descricao", Null)]
  }

  lemma KeyFilterMatches(body: Doc, d: Doc)
    ensures Matches(EqFilter(KeyFilter(body)), d, NoRegex) <==> ProjectKey(d) == ProjectKey(body)
  {
    var f := EqFilter(KeyFilter(body));
    assert "cliente" in f && "contrato" in f && "descricao" in f;
  }

  /** No two projects share client, contract and description. */
  ghost predicate UniqueKeys(projects: Table) {
    forall a, b :: a in projects.rows && b in projects.rows && a != b ==> ProjectKey(projects.rows[a]) != ProjectKey(projects.rows[b])
  }

  /** The record create_project stores: the body with the computed hours. */
  function NewProject(body: Doc, hours: real): Doc {
    body["horas_gastas" := Num(hours)]
  }

  /** create_project keeps projects unique: it inserts only when no project has the body's key,
      and the stored record keeps that key. */
  lemma CreateKeepsUnique(projects: Table, body: Doc, hours: real, id: Oid)
    requires Valid(projects) && UniqueKeys(projects) && id !in projects.rows
    requires FindOne(projects, KeyFilter(body)).None?
    ensures UniqueKeys(Insert(projects, id, NewProject(body, hours)))
  {
    FindSpec(projects, EqFilter(KeyFilter(body)), NoRegex);
    var after := Insert(projects, id, NewProject(body, hours));
    forall a | a in projects.rows ensures ProjectKey(projects.rows[a]) != ProjectKey(NewProject(body, hours)) {
      assert FindEq(projects, KeyFilter(body)) == [];
      assert (a, projects.rows[a]) !in FindEq(projects, KeyFilter(body));
      KeyFilterMatches(body, projects.rows[a]);
    }
  }

  /** create_project, once the caller is known: 400 when a project with the same key exists;
      otherwise the body is stored with the spent hours of its tasks. */
  method CreateProject(h: Headers, body: Doc, cfg: Config, projects: Collection, tasks: Collection, newId: Oid)
    returns (r: Result<Doc>)
    requires IsProjectBody(body)
    requires projects != tasks && newId !in projects.rows
    modifies projects
    ensures ProjectsCaller(h, cfg.decode).Err? ==>
      r == Err(ProjectsCaller(h, cfg.decode).error) && projects.View() == old(projects.View())
    ensures ProjectsCaller(h, cfg.decode).Ok? && FindOne(old(projects.View()), KeyFilter(body)).Some? ==>
      r == Err(ErrProjectExists) && projects.View() == old(projects.View())
    ensures ProjectsCaller(h, cfg.decode).Ok? && FindOne(old(projects.View()), KeyFilter(body)).None? ==>
      var stored := NewProject(body, ProjectHours(tasks.View(), body["cliente"], body["contrato"]));
      && projects.View() == Insert(old(projects.View()), newId, stored)
      && r == Ok(WithId((newId, stored)))
  {
    var user := ProjectsCaller(h, cfg.decode);
    if user.Err? {
      return Err(user.error);
    }
    var existente := projects.FindOneMatching(map["cliente" := body["cliente"], "contrato" := body["contrato"], "descricao" := body["descricao"]]);
    if existente.Some? {
      return Err(ErrProjectExists);
    }
    var horasGastas := CalcularHorasGastas(body["cliente"], body["contrato"], tasks);
    var newProject := body["horas_gastas" := Num(horasGastas)];
    projects.InsertOne(newId, newProject);
    r := Ok(WithId((newId, newProject)));
  }

  /** list_projects: every project, in natural order, with its `id`. */
  method ListProjects(h: Headers, cfg: Config, projects: Collection) returns (r: Result<seq<Doc>>)
    ensures ProjectsCaller(h, cfg.decode).Err? ==> r == Err(ProjectsCaller(h, cfg.decode).error)
    ensures ProjectsCaller(h, cfg.decode).Ok? ==>
      var all := Find(projects.View(), map[], NoRegex);
      r.Ok? && |r.value| == |all| && forall i :: 0 <= i < |all| ==> r.value[i] == WithId(all[i])
  {
    var user := ProjectsCaller(h, cfg.decode);
    if user.Err? {
      return Err(user.error);
    }
    var found := projects.FindAll(map[]);
    assert EqFilter(map[]) == map[];
    var out: seq<Doc> := [];
    var i := 0;
    while i < |found|
      invariant 0 <= i <= |found|
      invariant |out| == i && forall k :: 0 <= k < i ==> out[k] == WithId(found[k])
    {
      out := out + [WithId(found[i])];
      i := i + 1;
    }
    r := Ok(out);
  }

  /** Every listed project is a stored one shown with its `id` and without `_id`, and every stored project is listed. */
  lemma ListedProjectsSpec(projects: Table)
    requires Valid(projects)
    ensures var all := Find(projects, map[], NoRegex);
      && (forall id :: id in projects.rows ==> (id, projects.rows[id]) in all)
      && (forall r :: r in all ==> r.0 in projects.rows && r.1 == projects.rows[r.0])
      && (forall i :: 0 <= i < |all| ==> "_id" !in WithId(all[i]) && WithId(all[i])["id"] == Str(all[i].0))
  {
    FindSpec(projects, map[], NoRegex);
    var all := Find(projects, map[], NoRegex);
    forall i | 0 <= i < |all| ensures "_id" !in WithId(all[i]) {
      assert all[i] in all;
    }
  }

  /** The project after update_project_hours: its spent hours recomputed from the tasks of its pair. */
  function RefreshHours(projects: Table, tasks: Table, id: Oid): (r: Table)
    requires id in projects.rows && "cliente" in projects.rows[id] && "contrato" in projects.rows[id]
    ensures r.order == projects.order && r.rows.Keys == projects.rows.Keys
    ensures forall other :: other in projects.rows && other != id ==> r.rows[other] == projects.rows[other]
    ensures r.rows[id].Keys == projects.rows[id].Keys + {"horas_gastas"}
    ensures forall k :: k in projects.rows[id] && k != "horas_gastas" ==> r.rows[id][k] == projects.rows[id][k]
    ensures r.rows[id]["horas_gastas"] ==
      Num(ProjectHours(tasks, projects.rows[id]["cliente"], projects.rows[id]["contrato"]))
  {
    var p := projects.rows[id];
    var hours := Num(ProjectHours(tasks, p["cliente"], p["contrato"]));
    assert p + map["horas_gastas" := hours] == p["horas_gastas" := hours];
    SetFields(projects, id, map["horas_gastas" := hours])
  }

  /** Refreshing twice with the same tasks is refreshing once. */
  lemma RefreshIdempotent(projects: Table, tasks: Table, id: Oid)
    requires id in projects.rows && "cliente" in projects.rows[id] && "contrato" in projects.rows[id]
    ensures var once := RefreshHours(projects, tasks, id);
      RefreshHours(once, tasks, id) == once
  {
    var once := RefreshHours(projects, tasks, id);
    var p := projects.rows[id];
    assert once.rows[id]["cliente"] == p["cliente"] && once.rows[id]["contrato"] == p["contrato"];
    var upd := map["horas_gastas" := Num(ProjectHours(tasks, p["cliente"], p["contrato"]))];
    assert once.rows[id] + upd == once.rows[id];
  }

  /** A project just created already holds the hours a refresh would compute: refreshing it
      changes nothing while the tasks stay the same. */
  lemma CreatedProjectIsFresh(projects: Table, tasks: Table, body: Doc, id: Oid)
    requires IsProjectBody(body) && id !in projects.rows
    ensures var created := Insert(projects, id, NewProject(body, ProjectHours(tasks, body["cliente"], body["contrato"])));
      RefreshHours(created, tasks, id) == created
  {
    var stored := NewProject(body, ProjectHours(tasks, body["cliente"], body["contrato"]));
    var created := Insert(projects, id, stored);
    var upd := map["horas_gastas" := Num(ProjectHours(tasks, body["cliente"], body["contrato"]))];
    assert created.rows[id] + upd == created.rows[id];
    assert created.rows[id := created.rows[id] + upd] == created.rows;
  }

  /**
   * update_project_hours: a malformed id raises InvalidId (500), an unknown one is 404, a
   * record without `cliente` or `contrato` raises KeyError (500); otherwise the project's
   * hours are recomputed and the updated project is answered.
   */
  method UpdateProjectHours(h: Headers, projectId: string, cfg: Config, projects: Collection, tasks: Collection)
    returns (r: Result<Doc>)
    requires projects != tasks
    modifies projects
    ensures r.Err? ==> projects.View() == old(projects.View())
    ensures ProjectsCaller(h, cfg.decode).Err? ==> r == Err(ProjectsCaller(h, cfg.decode).error)
    ensures ProjectsCaller(h, cfg.decode).Ok? && ParseObjectId(projectId).None? ==> r == Err(InternalError)
    ensures ProjectsCaller(h, cfg.decode).Ok? && ParseObjectId(projectId).Some? && ParseObjectId(projectId).value !in old(projects.rows) ==>
      r == Err(ErrProjectNotFound)
    ensures r.Ok? <==>
      && ProjectsCaller(h, cfg.decode).Ok?
      && ParseObjectId(projectId).Some?
      && ParseObjectId(projectId).value in old(projects.rows)
      && "cliente" in old(projects.rows)[ParseObjectId(projectId).value]
      && "contrato" in old(projects.rows)[ParseObjectId(projectId).value]
    ensures r.Ok? ==>
      var id := ParseObjectId(projectId).value;
      && projects.View() == RefreshHours(old(projects.View()), tasks.View(), id)
      && r.value == WithId((id, projects.rows[id]))
  {
    var user := ProjectsCaller(h, cfg.decode);
    if user.Err? {
      return Err(user.error);
    }
    var objId := ParseObjectId(projectId);
    if objId.None? {
      return Err(InternalError);
    }
    var project := projects.FindOneById(objId.value, map[]);
    if project.None? {
      return Err(ErrProjectNotFound);
    }
    if "cliente" !in project.value || "contrato" !in project.value {
      return Err(InternalError);
    }
    var cliente := project.value["cliente"];
    var contrato := project.value["contrato"];
    var novasHoras := CalcularHorasGastas(cliente, contrato, tasks);
    ghost var before := projects.View();
    projects.UpdateOne(objId.value, map["horas_gastas" := Num(novasHoras)]);
    var shown := project.value["horas_gastas" := Num(novasHoras)];
    assert project.value + map["horas_gastas" := Num(novasHoras)] == shown;
    assert projects.View() == RefreshHours(before, tasks.View(), objId.value);
    r := Ok(WithId((objId.value, shown)));
  }
}
