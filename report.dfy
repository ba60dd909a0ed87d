/**
 * The monthly activity report of routes/tasks.py (`GET /tasks/atividade`): every task of
 * every user whose `data` falls in the requested month, for administrators only, ordered
 * by (username, date).
 */
module TaskReport {
  import opened Values
  import opened StringOrder
  import opened Http
  import opened Store
  import opened Dates
  import Sorting
  import Tasks
  import ObjectIds

  const ErrAdminOnly := HttpError(403, "Acesso negado — apenas administradores podem ver todas as atividades.")

  /**
   * The report's own token check: a bearer token that decodes, whose `role` (default "user")
   * is "admin". Unlike the shared dependencies it does not look at `sub`.
   */
  function AdminCheck(h: Headers, decode: Decoder): (r: Result<Claims>)
    ensures BearerToken(h).None? ==> r == Err(Tasks.ErrTokenMissing)
    ensures BearerToken(h).Some? && decode(BearerToken(h).value).None? ==> r == Err(Tasks.ErrTokenInvalid)
    ensures r.Ok? <==>
      && BearerToken(h).Some?
      && decode(BearerToken(h).value).Some?
      && Get(decode(BearerToken(h).value).value, "role", Str("user")) == Str("admin")
    ensures r.Err? && r.error.status != 401 ==> r == Err(ErrAdminOnly)
  {
    match BearerToken(h)
    case None => Err(Tasks.ErrTokenMissing)
    case Some(token) =>
      match decode(token)
      case None => Err(Tasks.ErrTokenInvalid)
      case Some(payload) =>
        var role := Get(payload, "role", Str("user"));
        if role != Str("admin") then Err(ErrAdminOnly) else Ok(payload)
  }

  /** A token carrying only `role: "admin"` opens the report but no route guarded by the
      shared dependency, which demands a truthy `sub`. */
  lemma AdminCheckIgnoresSub(h: Headers, decode: Decoder)
    requires BearerToken(h).Some? && decode(BearerToken(h).value) == Some(map["role" := Str("admin")])
    ensures AdminCheck(h, decode).Ok?
    ensures Tasks.GetCurrentUserFull(h, decode) == Err(Tasks.ErrTokenWithoutUser)
  {
  }

  /** One line of the report. */
  datatype ActivityRow = ActivityRow(username: Value, cliente: Value, contrato: Value, data: string, tempoAtividade: Value)

  /** What one task contributes: nothing, a line, or the TypeError `strptime` raises on a
      truthy `data` that is not a string. */
  datatype Step = Skip | Keep(row: ActivityRow) | Fail

  function Examine(task: Doc, mes: int): (r: Step)
    ensures r.Keep? ==> ParseDate(r.row.data).Some? && ParseDate(r.row.data).value.month == mes
  {
    var dataStr := Get(task, "data", Null);
    if !Truthy(dataStr) then Skip
    else if !dataStr.Str? then Fail
    else
      match ParseDate(dataStr.s)
      case None => Skip
      case Some(d) =>
        if d.month != mes then Skip
        else
          RenderParse(d);
          Keep(ActivityRow(Get(task, "username", Null), Get(task, "cliente", Null), Get(task, "contrato", Null),
                              Render(d), Get(task, "tempo_atividade", Null)))
  }

  /** A line is kept exactly for a string `data` in one of the three formats whose month is `mes`;
      it carries the task's own fields and the date rewritten as YYYY-MM-DD. */
  lemma ExamineSpec(task: Doc, mes: int)
    ensures Examine(task, mes).Fail? <==> "data" in task && Truthy(task["data"]) && !task["data"].Str?
    ensures Examine(task, mes).Keep? <==>
      "data" in task && task["data"].Str? && ParseDate(task["data"].s).Some? && ParseDate(task["data"].s).value.month == mes
    ensures Examine(task, mes).Keep? ==>
      var row := Examine(task, mes).row;
      && row.username == Get(task, "username", Null)
      && row.cliente == Get(task, "cliente", Null)
      && row.contrato == Get(task, "contrato", Null)
      && row.tempoAtividade == Get(task, "tempo_atividade", Null)
      && ParseDate(row.data) == ParseDate(task["data"].s)
      && |row.data| == 10
  {
    var dataStr := Get(task, "data", Null);
    if !Truthy(dataStr) || !dataStr.Str? {
      assert !Examine(task, mes).Keep?;
    } else if ParseDate(dataStr.s).None? {
      assert Examine(task, mes) == Skip;
    } else {
      var d := ParseDate(dataStr.s).value;
      assert Examine(task, mes) == if d.month != mes then Skip else
        Keep(ActivityRow(Get(task, "username", Null), Get(task, "cliente", Null), Get(task, "contrato", Null),
                         Render(d), Get(task, "tempo_atividade", Null)));
      RenderParse(d);
      RenderShape(d);
    }
  }

  /** Examine for one month, as a value the collection loop can be given. */
  function Examiner(mes: int): Doc -> Step {
    task => Examine(task, mes)
  }

  /** The loop over all tasks, in natural order; the first `Fail` aborts it. */
  function Collect(tasks: seq<Row>, step: Doc -> Step): (r: Result<seq<ActivityRow>>)
    ensures r.Ok? ==> |r.value| <= |tasks|
    ensures r.Err? ==> r.error == InternalError
  {
    if tasks == [] then Ok([])
    else
      match Collect(tasks[..|tasks| - 1], step)
      case Err(e) => Err(e)
      case Ok(rows) =>
        match step(tasks[|tasks| - 1].1)
        case Skip => Ok(rows)
        case Keep(row) => Ok(rows + [row])
        case Fail => Err(InternalError)
  }

  /** The collection fails exactly when some task fails, and always with a 500. */
  lemma {:induction false} CollectFails(tasks: seq<Row>, step: Doc -> Step)
    ensures Collect(tasks, step).Err? <==> exists k :: 0 <= k < |tasks| && step(tasks[k].1).Fail?
    ensures Collect(tasks, step).Err? ==> Collect(tasks, step).error == InternalError
  {
    if tasks != [] {
      var init := tasks[..|tasks| - 1];
      CollectFails(init, step);
      if exists k :: 0 <= k < |init| && step(init[k].1).Fail? {
        var k :| 0 <= k < |init| && step(init[k].1).Fail?;
        assert tasks[k] == init[k];
      }
      if exists k :: 0 <= k < |tasks| && step(tasks[k].1).Fail? {
        var k :| 0 <= k < |tasks| && step(tasks[k].1).Fail?;
        if k < |init| {
          assert tasks[k] == init[k];
        }
      }
    }
  }

  /** Every collected line is the line of some task. */
  lemma {:induction false} CollectSound(tasks: seq<Row>, step: Doc -> Step)
    ensures Collect(tasks, step).Ok? ==>
      forall row :: row in Collect(tasks, step).value ==> exists k :: 0 <= k < |tasks| && step(tasks[k].1) == Keep(row)
  {
    if tasks != [] {
      var init := tasks[..|tasks| - 1];
      CollectSound(init, step);
      if Collect(tasks, step).Ok? {
        forall row | row in Collect(tasks, step).value
          ensures exists k :: 0 <= k < |tasks| && step(tasks[k].1) == Keep(row)
        {
          if row in Collect(init, step).value {
            var k :| 0 <= k < |init| && step(init[k].1) == Keep(row);
            assert tasks[k] == init[k];
          } else {
            assert step(tasks[|tasks| - 1].1) == Keep(row);
          }
        }
      }
    }
  }

  /** Every task's line is collected. */
  lemma {:induction false} CollectComplete(tasks: seq<Row>, step: Doc -> Step)
    ensures Collect(tasks, step).Ok? ==>
      forall k :: 0 <= k < |tasks| && step(tasks[k].1).Keep? ==> step(tasks[k].1).row in Collect(tasks, step).value
  {
    if tasks != [] {
      var init := tasks[..|tasks| - 1];
      CollectComplete(init, step);
      if Collect(tasks, step).Ok? {
        forall k | 0 <= k < |tasks| && step(tasks[k].1).Keep?
          ensures step(tasks[k].1).row in Collect(tasks, step).value
        {
          if k < |init| {
            assert tasks[k] == init[k];
          }
        }
      }
    }
  }

  /** One more task extends the collection by its step. */
  lemma CollectStep(tasks: seq<Row>, i: nat, step: Doc -> Step)
    requires i < |tasks| && Collect(tasks[..i], step).Ok?
    ensures Collect(tasks[..i + 1], step) ==
      match step(tasks[i].1)
      case Skip => Collect(tasks[..i], step)
      case Keep(row) => Ok(Collect(tasks[..i], step).value + [row])
      case Fail => Err(InternalError)
  {
    assert tasks[..i + 1][..i] == tasks[..i];
  }

  /** Once the loop has failed, later tasks change nothing: the exception ends it. */
  lemma {:induction false} CollectErrSticks(tasks: seq<Row>, n: nat, step: Doc -> Step)
    requires n <= |tasks| && Collect(tasks[..n], step).Err?
    ensures Collect(tasks, step) == Collect(tasks[..n], step)
    decreases |tasks| - n
  {
    if n < |tasks| {
      assert tasks[..n + 1][..n] == tasks[..n];
      CollectErrSticks(tasks, n + 1, step);
    } else {
      assert tasks[..n] == tasks;
    }
  }

  // ---------------------------------------------------------------------------
  // Ordering by (username, data)

  /** Values Python can order against each other: None alone, numbers with booleans, strings, datetimes. */
  function TypeClass(v: Value): nat {
    match v
    case Null => 0
    case Num(_) => 1
    case Bool(_) => 1
    case Str(_) => 2
    case Time(_) => 3
  }

  function Numeric(v: Value): real
    requires v.Num? || v.Bool?
  {
    if v.Num? then v.n else if v.b then 1.0 else 0.0
  }

  /** Python `==` between two usernames. */
  predicate PyEq(a: Value, b: Value) {
    TypeClass(a) == TypeClass(b) &&
    match a
    case Null => true
    case Num(_) => Numeric(a) == Numeric(b)
    case Bool(_) => Numeric(a) == Numeric(b)
    case Str(s) => s == b.s
    case Time(t) => t == b.seconds
  }

  /** Python `<` between two usernames of one class (across classes Python raises instead;
      the class rank only keeps the order total). */
  predicate PyLt(a: Value, b: Value) {
    if TypeClass(a) != TypeClass(b) then TypeClass(a) < TypeClass(b)
    else match a
      case Null => false
      case Num(_) => Numeric(a) < Numeric(b)
      case Bool(_) => Numeric(a) < Numeric(b)
      case Str(s) => StrLt(s, b.s)
      case Time(t) => t < b.seconds
  }

  /** Python's `<` on the sort keys `(username, data)`. */
  predicate KeyLt(a: ActivityRow, b: ActivityRow) {
    if PyEq(a.username, b.username) then StrLt(a.data, b.data) else PyLt(a.username, b.username)
  }

  /** "a may stay before b": b's key is not smaller. */
  predicate RowLe(a: ActivityRow, b: ActivityRow) {
    !KeyLt(b, a)
  }

  lemma KeyLtAsymmetric(a: ActivityRow, b: ActivityRow)
    ensures !(KeyLt(a, b) && KeyLt(b, a))
  {
    if PyEq(a.username, b.username) {
      assert PyEq(b.username, a.username);
      if StrLt(a.data, b.data) && StrLt(b.data, a.data) {
        StrLeAntisymmetric(a.data, b.data);
      }
    } else if TypeClass(a.username) == TypeClass(b.username) && a.username.Str? {
      if StrLt(a.username.s, b.username.s) && StrLt(b.username.s, a.username.s) {
        StrLeAntisymmetric(a.username.s, b.username.s);
      }
    }
  }

  lemma RowLeTotal()
    ensures Sorting.Total(RowLe)
  {
    forall a: ActivityRow, b: ActivityRow ensures RowLe(a, b) || RowLe(b, a) {
      KeyLtAsymmetric(a, b);
    }
  }

  /** Two usernames are equal, or one is smaller, and never two of these at once. */
  lemma PyTrichotomy(u: Value, v: Value)
    ensures PyLt(u, v) || PyEq(u, v) || PyLt(v, u)
    ensures PyEq(u, v) ==> !PyLt(u, v) && !PyLt(v, u) && PyEq(v, u)
    ensures !(PyLt(u, v) && PyLt(v, u))
  {
    if TypeClass(u) == TypeClass(v) && u.Str? {
      StrLeTotal(u.s, v.s);
      if StrLe(u.s, v.s) && StrLe(v.s, u.s) {
        StrLeAntisymmetric(u.s, v.s);
      }
    }
  }

  /** `<` on usernames is transitive, and equal usernames may replace each other on either side. */
  lemma PyLtTransitive(u: Value, v: Value, w: Value)
    ensures PyLt(u, v) && PyLt(v, w) ==> PyLt(u, w)
    ensures PyEq(u, v) && PyLt(v, w) ==> PyLt(u, w)
    ensures PyLt(u, v) && PyEq(v, w) ==> PyLt(u, w)
  {
    if TypeClass(u) == TypeClass(v) == TypeClass(w) && u.Str? {
      if StrLe(u.s, v.s) && StrLe(v.s, w.s) {
        StrLeTransitive(u.s, v.s, w.s);
        if u.s == w.s {
          StrLeAntisymmetric(u.s, v.s);
        }
      }
    }
  }

  /** The key order is a strict weak order: if `c` sorts before `a`, any `b` sorts after `c` or before `a`. */
  lemma KeyLtNegTransitive(a: ActivityRow, b: ActivityRow, c: ActivityRow)
    requires KeyLt(c, a)
    ensures KeyLt(b, a) || KeyLt(c, b)
  {
    var ua, ub, uc := a.username, b.username, c.username;
    PyTrichotomy(ub, ua);
    PyTrichotomy(uc, ub);
    PyTrichotomy(uc, ua);
    if PyLt(ub, ua) || PyLt(uc, ub) {
    } else if PyLt(ua, ub) {
      PyLtTransitive(ua, ub, uc);
      PyTrichotomy(ua, uc);
      PyLtTransitive(uc, ua, ub);
    } else if PyLt(ub, uc) {
      PyLtTransitive(ua, ub, uc);
      PyTrichotomy(ua, ub);
      PyTrichotomy(ua, uc);
    } else {
      StrLeTotal(b.data, a.data);
      StrLeTotal(c.data, b.data);
      if StrLe(a.data, b.data) && StrLe(b.data, c.data) {
        StrLeTransitive(a.data, b.data, c.data);
        if StrLe(c.data, a.data) {
          StrLeAntisymmetric(a.data, c.data);
        }
      }
    }
  }

  /** "May stay before" is transitive, so the sorted report is ordered pair by pair. */
  lemma RowLeTransitive()
    ensures Sorting.Transitive(RowLe)
  {
    forall a: ActivityRow, b: ActivityRow, c: ActivityRow | RowLe(a, b) && RowLe(b, c) ensures RowLe(a, c) {
      if KeyLt(c, a) {
        KeyLtNegTransitive(a, b, c);
      }
    }
  }

  /** Every username can be ordered against every other: otherwise `list.sort` raises TypeError,
      since any comparison sort must compare some pair of different classes to order them. */
  predicate Comparable(rows: seq<ActivityRow>) {
    forall i, j :: 0 <= i < |rows| && 0 <= j < |rows| ==> TypeClass(rows[i].username) == TypeClass(rows[j].username)
  }

  /** get_atividade: the whole report, or the error it answers. */
  function Report(h: Headers, decode: Decoder, tasks: Table, mes: int): (r: Result<seq<ActivityRow>>)
    ensures r.Ok? ==> AdminCheck(h, decode).Ok?
    ensures r.Err? ==> r.error == InternalError || AdminCheck(h, decode) == Err(r.error)
  {
    match AdminCheck(h, decode)
    case Err(e) => Err(e)
    case Ok(_) =>
      match Collect(Find(tasks, map[], NoRegex), Examiner(mes))
      case Err(e) => Err(e)
      case Ok(rows) => if Comparable(rows) then Ok(Sorting.Sort(rows, RowLe)) else Err(InternalError)
  }

  /** Only administrators get the report, and a task with a truthy non-string `data` turns it into a 500. */
  lemma ReportErrors(h: Headers, decode: Decoder, tasks: Table, mes: int)
    requires Valid(tasks)
    ensures AdminCheck(h, decode).Err? ==> Report(h, decode, tasks, mes) == Err(AdminCheck(h, decode).error)
    ensures AdminCheck(h, decode).Ok? && (exists id :: id in tasks.rows && Examine(tasks.rows[id], mes).Fail?) ==>
      Report(h, decode, tasks, mes) == Err(InternalError)
    ensures Report(h, decode, tasks, mes).Ok? ==> AdminCheck(h, decode).Ok?
  {
    if AdminCheck(h, decode).Ok? && exists id :: id in tasks.rows && Examine(tasks.rows[id], mes).Fail? {
      var id :| id in tasks.rows && Examine(tasks.rows[id], mes).Fail?;
      StoredFailureFails(tasks, mes, id);
    }
  }

  /** One stored task whose `data` makes `strptime` raise makes the whole collection fail. */
  lemma StoredFailureFails(tasks: Table, mes: int, id: ObjectIds.Oid)
    requires Valid(tasks) && id in tasks.rows && Examine(tasks.rows[id], mes).Fail?
    ensures Collect(Find(tasks, map[], NoRegex), Examiner(mes)) == Err(InternalError)
  {
    var all := Find(tasks, map[], NoRegex);
    CollectFails(all, Examiner(mes));
    var k := StoredIsFound(tasks, id);
    assert Examiner(mes)(all[k].1).Fail?;
  }

  /** The lines whose sort key `(username, data)` equals that of `x`, as Python compares keys. */
  function SameKey(x: ActivityRow): ActivityRow -> bool {
    (row: ActivityRow) => PyEq(row.username, x.username) && row.data == x.data
  }

  /** Lines with equal keys may stay in either order, so a stable sort leaves them as they are. */
  lemma SameKeyRowLe(x: ActivityRow)
    ensures forall a, b :: SameKey(x)(a) && SameKey(x)(b) ==> RowLe(a, b)
  {
    forall a, b | SameKey(x)(a) && SameKey(x)(b) ensures RowLe(a, b) {
      assert PyEq(b.username, a.username);
    }
  }

  /**
   * The lines are ordered by username and, within one username, by date text; lines with
   * equal keys keep the order in which their tasks are stored (`list.sort` is stable).
   */
  lemma ReportOrder(h: Headers, decode: Decoder, tasks: Table, mes: int)
    ensures var r := Report(h, decode, tasks, mes);
      r.Ok? ==>
        && Sorting.SortedBy(r.value, RowLe)
        && (forall i, j :: 0 <= i < j < |r.value| ==> RowLe(r.value[i], r.value[j]))
        && (forall i :: 0 < i < |r.value| && PyEq(r.value[i - 1].username, r.value[i].username) ==>
              StrLe(r.value[i - 1].data, r.value[i].data))
        && (forall x :: Sorting.Filter(r.value, SameKey(x)) ==
              Sorting.Filter(Collect(Find(tasks, map[], NoRegex), Examiner(mes)).value, SameKey(x)))
  {
    var r := Report(h, decode, tasks, mes);
    if r.Ok? {
      var rows := Collect(Find(tasks, map[], NoRegex), Examiner(mes)).value;
      forall x ensures Sorting.Filter(Sorting.Sort(rows, RowLe), SameKey(x)) == Sorting.Filter(rows, SameKey(x)) {
        SameKeyRowLe(x);
        Sorting.SortStable(rows, RowLe, SameKey(x));
      }
      RowLeTotal();
      Sorting.SortSorted(rows, RowLe);
      var sorted := Sorting.Sort(rows, RowLe);
      RowLeTransitive();
      Sorting.SortedAll(sorted, RowLe);
      forall i | 0 < i < |sorted| && PyEq(sorted[i - 1].username, sorted[i].username)
        ensures StrLe(sorted[i - 1].data, sorted[i].data)
      {
        assert RowLe(sorted[i - 1], sorted[i]);
        assert PyEq(sorted[i].username, sorted[i - 1].username);
        StrLeTotal(sorted[i - 1].data, sorted[i].data);
      }
    }
  }

  /** Every line collected from the whole collection is the line of a stored task. */
  lemma CollectedAreStored(tasks: Table, mes: int)
    requires Valid(tasks)
    ensures var c := Collect(Find(tasks, map[], NoRegex), Examiner(mes));
      c.Ok? ==> forall row :: row in c.value ==> exists id :: id in tasks.rows && Examine(tasks.rows[id], mes) == Keep(row)
  {
    var all := Find(tasks, map[], NoRegex);
    var c := Collect(all, Examiner(mes));
    CollectSound(all, Examiner(mes));
    if c.Ok? {
      forall row | row in c.value
        ensures exists id :: id in tasks.rows && Examine(tasks.rows[id], mes) == Keep(row)
      {
        var k :| 0 <= k < |all| && Examiner(mes)(all[k].1) == Keep(row);
        FoundIsStored(tasks, k);
      }
    }
  }

  /** Every stored task the month filter keeps has its line collected. */
  lemma StoredAreCollected(tasks: Table, mes: int)
    requires Valid(tasks)
    ensures var c := Collect(Find(tasks, map[], NoRegex), Examiner(mes));
      c.Ok? ==> forall id :: id in tasks.rows && Examine(tasks.rows[id], mes).Keep? ==> Examine(tasks.rows[id], mes).row in c.value
  {
    var all := Find(tasks, map[], NoRegex);
    var c := Collect(all, Examiner(mes));
    CollectComplete(all, Examiner(mes));
    if c.Ok? {
      forall id | id in tasks.rows && Examine(tasks.rows[id], mes).Keep?
        ensures Examine(tasks.rows[id], mes).row in c.value
      {
        var k := StoredIsFound(tasks, id);
        assert Examiner(mes)(all[k].1).Keep?;
      }
    }
  }

  /** The k-th record of the unfiltered listing is stored under its identifier. */
  lemma FoundIsStored(tasks: Table, k: int)
    requires Valid(tasks) && 0 <= k < |Find(tasks, map[], NoRegex)|
    ensures var r := Find(tasks, map[], NoRegex)[k]; r.0 in tasks.rows && r.1 == tasks.rows[r.0]
  {
    FindSpec(tasks, map[], NoRegex);
    assert Find(tasks, map[], NoRegex)[k] in Find(tasks, map[], NoRegex);
  }

  /** Every stored record appears in the unfiltered listing. */
  lemma StoredIsFound(tasks: Table, id: ObjectIds.Oid) returns (k: int)
    requires Valid(tasks) && id in tasks.rows
    ensures 0 <= k < |Find(tasks, map[], NoRegex)| && Find(tasks, map[], NoRegex)[k] == (id, tasks.rows[id])
  {
    FindSpec(tasks, map[], NoRegex);
    assert Matches(map[], tasks.rows[id], NoRegex);
    assert (id, tasks.rows[id]) in Find(tasks, map[], NoRegex);
    k :| 0 <= k < |Find(tasks, map[], NoRegex)| && Find(tasks, map[], NoRegex)[k] == (id, tasks.rows[id]);
  }

  // ---------------------------------------------------------------------------
  // Counting lines

  /** How many of `tasks` take a step satisfying `q`. */
  function CountSteps(tasks: seq<Row>, step: Doc -> Step, q: Step -> bool): nat {
    if tasks == [] then 0
    else CountSteps(tasks[..|tasks| - 1], step, q) + (if q(step(tasks[|tasks| - 1].1)) then 1 else 0)
  }

  function KeepsRow(x: ActivityRow): Step -> bool {
    (st: Step) => st == Keep(x)
  }

  function Keeps(): Step -> bool {
    (st: Step) => st.Keep?
  }

  /** A successful collection holds each line as many times as tasks produce it, and one line per kept task. */
  lemma {:induction false} CollectCount(tasks: seq<Row>, step: Doc -> Step, x: ActivityRow)
    requires Collect(tasks, step).Ok?
    ensures multiset(Collect(tasks, step).value)[x] == CountSteps(tasks, step, KeepsRow(x))
    ensures |Collect(tasks, step).value| == CountSteps(tasks, step, Keeps())
  {
    if tasks != [] {
      var init := tasks[..|tasks| - 1];
      assert Collect(init, step).Ok?;
      CollectCount(init, step, x);
    }
  }

  /** Counting the steps of the records `find({})` yields is counting the stored identifiers. */
  lemma {:induction false} SelectSteps(ids: seq<ObjectIds.Oid>, rows: map<ObjectIds.Oid, Doc>, step: Doc -> Step, q: Step -> bool)
    requires Distinct(ids)
    ensures CountSteps(Select(ids, rows, map[], NoRegex), step, q) == |StepIds(ids, rows, step, q)|
  {
    if ids != [] {
      DistinctTail(ids);
      NotInTail(ids);
      SelectSteps(ids[1..], rows, step, q);
      var rest := Select(ids[1..], rows, map[], NoRegex);
      if ids[0] in rows {
        assert Matches(map[], rows[ids[0]], NoRegex);
        CountStepsCons((ids[0], rows[ids[0]]), rest, step, q);
      }
      StepIdsCons(ids, rows, step, q);
    }
  }

  lemma {:induction false} CountStepsCons(r: Row, tasks: seq<Row>, step: Doc -> Step, q: Step -> bool)
    ensures CountSteps([r] + tasks, step, q) == (if q(step(r.1)) then 1 else 0) + CountSteps(tasks, step, q)
  {
    if tasks != [] {
      var init := tasks[..|tasks| - 1];
      assert ([r] + tasks)[..|tasks|] == [r] + init;
      CountStepsCons(r, init, step, q);
    } else {
      assert ([r] + tasks)[..0] == [];
    }
  }

  /** The identifiers of `ids` whose stored task takes a step satisfying `q`. */
  ghost function StepIds(ids: seq<ObjectIds.Oid>, rows: map<ObjectIds.Oid, Doc>, step: Doc -> Step, q: Step -> bool): set<ObjectIds.Oid> {
    set id | id in ids && id in rows && q(step(rows[id]))
  }

  lemma StepIdsCons(ids: seq<ObjectIds.Oid>, rows: map<ObjectIds.Oid, Doc>, step: Doc -> Step, q: Step -> bool)
    requires ids != []
    ensures StepIds(ids, rows, step, q) ==
      StepIds(ids[1..], rows, step, q) + (if ids[0] in rows && q(step(rows[ids[0]])) then {ids[0]} else {})
  {
    assert forall id :: id in ids <==> id == ids[0] || id in ids[1..] by {
      assert ids == [ids[0]] + ids[1..];
    }
  }

  /** The stored tasks that produce line `x`. */
  ghost function TasksProducing(tasks: Table, mes: int, x: ActivityRow): set<ObjectIds.Oid> {
    set id | id in tasks.rows && Examine(tasks.rows[id], mes) == Keep(x)
  }

  /** The stored tasks dated in month `mes`. */
  ghost function TasksKept(tasks: Table, mes: int): set<ObjectIds.Oid> {
    set id | id in tasks.rows && Examine(tasks.rows[id], mes).Keep?
  }

  /** A successful collection over all stored tasks: each line as often as stored tasks produce it. */
  lemma CollectedCounts(tasks: Table, mes: int)
    requires Valid(tasks)
    ensures var c := Collect(Find(tasks, map[], NoRegex), Examiner(mes));
      c.Ok? ==>
        && (forall x :: multiset(c.value)[x] == |TasksProducing(tasks, mes, x)|)
        && |c.value| == |TasksKept(tasks, mes)|
  {
    var all := Find(tasks, map[], NoRegex);
    var step := Examiner(mes);
    if Collect(all, step).Ok? {
      forall x ensures multiset(Collect(all, step).value)[x] == |TasksProducing(tasks, mes, x)| {
        CollectCount(all, step, x);
        SelectSteps(tasks.order, tasks.rows, step, KeepsRow(x));
        assert StepIds(tasks.order, tasks.rows, step, KeepsRow(x)) == TasksProducing(tasks, mes, x);
      }
      CollectCount(all, step, ActivityRow(Null, Null, Null, "", Null));
      SelectSteps(tasks.order, tasks.rows, step, Keeps());
      assert StepIds(tasks.order, tasks.rows, step, Keeps()) == TasksKept(tasks, mes);
    }
  }

  /** The report holds one line per stored task dated in month `mes` and nothing else:
      each line as many times as stored tasks produce it, as many lines as such tasks,
      each line dated YYYY-MM-DD in that month. */
  lemma ReportContents(h: Headers, decode: Decoder, tasks: Table, mes: int)
    requires Valid(tasks)
    ensures var r := Report(h, decode, tasks, mes);
      r.Ok? ==>
        && (forall row :: row in r.value ==>
              && ParseDate(row.data).Some? && ParseDate(row.data).value.month == mes
              && exists id :: id in tasks.rows && Examine(tasks.rows[id], mes) == Keep(row))
        && (forall id :: id in tasks.rows && Examine(tasks.rows[id], mes).Keep? ==>
              Examine(tasks.rows[id], mes).row in r.value)
        && (forall x :: multiset(r.value)[x] == |TasksProducing(tasks, mes, x)|)
        && |r.value| == |TasksKept(tasks, mes)|
  {
    var r := Report(h, decode, tasks, mes);
    if r.Ok? {
      CollectedCounts(tasks, mes);
      CollectedAreStored(tasks, mes);
      StoredAreCollected(tasks, mes);
      var rows := Collect(Find(tasks, map[], NoRegex), Examiner(mes)).value;
      Sorting.SortPermutation(rows, RowLe);
      var sorted := Sorting.Sort(rows, RowLe);
      assert r.value == sorted;
      forall row | row in sorted
        ensures ParseDate(row.data).Some? && ParseDate(row.data).value.month == mes
        ensures exists id :: id in tasks.rows && Examine(tasks.rows[id], mes) == Keep(row)
      {
        assert row in multiset(sorted);
        assert row in rows;
        var id :| id in tasks.rows && Examine(tasks.rows[id], mes) == Keep(row);
        ExamineSpec(tasks.rows[id], mes);
      }
      forall id | id in tasks.rows && Examine(tasks.rows[id], mes).Keep?
        ensures Examine(tasks.rows[id], mes).row in sorted
      {
        assert Examine(tasks.rows[id], mes).row in multiset(rows);
      }
    }
  }

  /** The inner loop of get_atividade: try each format in turn, stop at the first that parses. */
  method ParseData(dataStr: string) returns (data: Option<Date>)
    ensures data == ParseDate(dataStr)
  {
    data := None;
    var i := 0;
    while i < |Formats|
      invariant 0 <= i <= |Formats|
      invariant ParseDate(dataStr) == ParseFirst(dataStr, Formats[i..])
    {
      var attempt := ParseWith(dataStr, Formats[i]);
      assert Formats[i..][1..] == Formats[i + 1..];
      if attempt.Some? {
        data := attempt;
        return;
      }
      i := i + 1;
    }
  }

  /** The body of the loop for one task: skip it, keep its row, or fail. */
  method ExamineTask(t: Doc, mes: int) returns (step: Step)
    ensures step == Examiner(mes)(t)
  {
    var dataStr := Get(t, "data", Null);
    if !Truthy(dataStr) {
      return Skip;
    }
    if !dataStr.Str? {
      return Fail;
    }
    var data := ParseData(dataStr.s);
    if data.Some? && data.value.month == mes {
      step := Keep(ActivityRow(Get(t, "username", Null), Get(t, "cliente", Null),
                               Get(t, "contrato", Null), Render(data.value),
                               Get(t, "tempo_atividade", Null)));
    } else {
      step := Skip;
    }
  }

  /** The loop of get_atividade over every stored task: a line for each task dated in month `mes`,
      or the 500 of the first task whose `data` makes `strptime` raise. */
  method CollectRows(tarefas: seq<Row>, mes: int) returns (r: Result<seq<ActivityRow>>)
    ensures r == Collect(tarefas, Examiner(mes))
  {
    var resultados: seq<ActivityRow> := [];
    var i := 0;
    while i < |tarefas|
      invariant 0 <= i <= |tarefas|
      invariant Collect(tarefas[..i], Examiner(mes)) == Ok(resultados)
    {
      CollectStep(tarefas, i, Examiner(mes));
      var step := ExamineTask(tarefas[i].1, mes);
      match step {
        case Skip =>
        case Keep(row) =>
          resultados := resultados + [row];
        case Fail =>
          CollectErrSticks(tarefas, i + 1, Examiner(mes));
          return Err(InternalError);
      }
      i := i + 1;
    }
    assert tarefas[..i] == tarefas;
    r := Ok(resultados);
  }

  /** get_atividade. */
  method GetAtividade(h: Headers, mes: int, cfg: Config, tasks: Collection) returns (r: Result<seq<ActivityRow>>)
    ensures r == Report(h, cfg.decode, tasks.View(), mes)
  {
    var token := BearerToken(h);
    if token.None? {
      return Err(Tasks.ErrTokenMissing);
    }
    var payload := cfg.decode(token.value);
    if payload.None? {
      return Err(Tasks.ErrTokenInvalid);
    }
    var role := Get(payload.value, "role", Str("user"));
    if role != Str("admin") {
      return Err(ErrAdminOnly);
    }

    var tarefas := tasks.FindAll(map[]);
    var collected := CollectRows(tarefas, mes);
    if collected.Err? {
      return Err(collected.error);
    }
    var resultados := collected.value;
    if !Comparable(resultados) {
      return Err(InternalError);
    }
    r := Ok(Sorting.Sort(resultados, RowLe));
  }
}
