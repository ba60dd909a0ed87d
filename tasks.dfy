/**
 * routes/tasks.py: who is calling, task creation and listing over two channels
 * (the service key `x-api-key`, then a bearer token), and owner-checked update
 * and delete. The monthly report of the same file is module TaskReport.
 */
module Tasks {
  import opened Values
  import opened ObjectIds
  import opened Http
  import opened Store

  const ErrTokenMissing := HttpError(401, "Token ausente ou inválido.")
  const ErrTokenWithoutUser := HttpError(401, "Token sem utilizador válido.")
  const ErrTokenInvalid := HttpError(401, "Token inválido.")
  const ErrNotAuthorized := HttpError(401, "Não autorizado")
  const ErrBadId := HttpError(400, "ID inválido.")
  const ErrTaskNotFound := HttpError(404, "Tarefa não encontrada.")
  const ErrEditForbidden := HttpError(403, "Sem permissão para editar esta tarefa.")
  const ErrDeleteForbidden := HttpError(403, "Sem permissão para eliminar esta tarefa.")

  const UpdatedMessage := "Tarefa atualizada com sucesso!"
  const DeletedMessage := "Tarefa eliminada com sucesso!"

  /** The fields of a task body (`TaskBase`), in declaration order; also the filterable query parameters. */
  const TaskFields: seq<string> := [
    "descricao", "cliente", "parceiro", "produto", "contrato", "atividade", "data",
    "distancia_viagem", "tempo_viagem", "tempo_atividade", "tempo_faturado",
    "faturavel", "viagem_faturavel", "local", "valor_euro"]

  /** The most records a listing returns (`limit(200)`). */
  const ListingLimit := 200

  /** A validated task body: `TaskBase.dict()` holds every declared field, defaults filled in. */
  predicate IsTaskBody(d: Doc) {
    d.Keys == set k | k in TaskFields
  }

  // ---------------------------------------------------------------------------
  // Identity

  /** The caller as `get_current_user_full` reports it. */
  datatype Identity = Identity(username: Value, role: Value)

  function Sub(p: Claims): Value {
    Get(p, "sub", Null)
  }

  /**
   * get_current_user_full: a bearer token whose payload has a truthy `sub` identifies the
   * caller, with `role` defaulting to "user"; every failure is a 401.
   */
  function GetCurrentUserFull(h: Headers, decode: Decoder): (r: Result<Identity>)
    ensures r.Err? ==> r.error.status == 401
    ensures BearerToken(h).None? ==> r == Err(ErrTokenMissing)
    ensures r.Ok? <==>
      BearerToken(h).Some? && decode(BearerToken(h).value).Some? && Truthy(Sub(decode(BearerToken(h).value).value))
    ensures r.Ok? ==>
      var p := decode(BearerToken(h).value).value;
      && r.value.username == p["sub"]
      && r.value.role == (if "role" in p then p["role"] else Str("user"))
  {
    match BearerToken(h)
    case None => Err(ErrTokenMissing)
    case Some(token) =>
      match decode(token)
      case None => Err(ErrTokenInvalid)
      case Some(p) =>
        var username := Sub(p);
        var role := Get(p, "role", Str("user"));
        if !Truthy(username) then Err(ErrTokenWithoutUser) else Ok(Identity(username, role))
  }

  /** get_current_user: the same checks, answering the username alone. */
  function GetCurrentUser(h: Headers, decode: Decoder): (r: Result<Value>)
    ensures r.Err? ==> r.error.status == 401
    ensures r.Ok? ==> BearerToken(h).Some? && Truthy(r.value)
  {
    match BearerToken(h)
    case None => Err(ErrTokenMissing)
    case Some(token) =>
      match decode(token)
      case None => Err(ErrTokenInvalid)
      case Some(p) =>
        var username := Sub(p);
        if !Truthy(username) then Err(ErrTokenWithoutUser) else Ok(username)
  }

  /** The two helpers agree: get_current_user is get_current_user_full without the role. */
  lemma GetCurrentUserAgrees(h: Headers, decode: Decoder)
    ensures GetCurrentUser(h, decode) ==
      match GetCurrentUserFull(h, decode)
      case Ok(id) => Ok(id.username)
      case Err(e) => Err(e)
  {
  }

  /** Without a bearer header the answer is a 401 whatever the decoder would say: no token is decoded. */
  lemma NoBearerNoDecoding(h: Headers, d1: Decoder, d2: Decoder)
    requires BearerToken(h).None?
    ensures GetCurrentUserFull(h, d1) == GetCurrentUserFull(h, d2) == Err(ErrTokenMissing)
    ensures GetCurrentUser(h, d1) == GetCurrentUser(h, d2) == Err(ErrTokenMissing)
  {
  }

  // ---------------------------------------------------------------------------
  // The two channels of create_task and list_user_tasks

  /** `client_key and client_key == API_KEY`: a non-empty `x-api-key` equal to the configured key. */
  predicate ServiceKeyMatches(h: Headers, cfg: Config) {
    "x-api-key" in h && h["x-api-key"] != "" && cfg.apiKey == Some(h["x-api-key"])
  }

  /** Which channel authenticated the request. */
  datatype Channel = Service | User(sub: Value)

  /**
   * The check chain of create_task and list_user_tasks: the service key is tried first;
   * then a bearer token whose payload has a truthy `sub`; a token that does not decode is
   * "Token inválido.", and every other case "Não autorizado".
   */
  function ResolveChannel(h: Headers, cfg: Config): (r: Result<Channel>)
    ensures r.Err? ==> r.error.status == 401
    ensures ServiceKeyMatches(h, cfg) ==> r == Ok(Service)
    ensures r.Ok? && r.value.User? ==>
      && !ServiceKeyMatches(h, cfg)
      && BearerToken(h).Some?
      && cfg.decode(BearerToken(h).value).Some?
      && r.value.sub == Sub(cfg.decode(BearerToken(h).value).value)
      && Truthy(r.value.sub)
    ensures r == Err(ErrTokenInvalid) <==>
      !ServiceKeyMatches(h, cfg) && BearerToken(h).Some? && cfg.decode(BearerToken(h).value).None?
  {
    if ServiceKeyMatches(h, cfg) then Ok(Service)
    else match BearerToken(h)
      case None => Err(ErrNotAuthorized)
      case Some(token) =>
        match cfg.decode(token)
        case None => Err(ErrTokenInvalid)
        case Some(p) => if Truthy(Sub(p)) then Ok(User(Sub(p))) else Err(ErrNotAuthorized)
  }

  /**
   * The username the service channel stamps on a task: the `nome` of the first account
   * whose `email` equals the `x-user-email` header (the email itself when that account has
   * no `nome` key), the raw email when no account has it, "copilot" when no email is sent.
   */
  function ActingUsername(h: Headers, users: Table): (r: Value)
    ensures !r.Str? ==> exists id :: id in users.rows && "nome" in users.rows[id] && users.rows[id]["nome"] == r
  {
    var email := Header(h, "x-user-email");
    if email.Some? && email.value != "" then
      match FindOne(users, map["email" := Str(email.value)])
      case Some(user) =>
        var found := FindEq(users, map["email" := Str(email.value)]);
        assert user == found[0] && found[0] in found;
        SelectSpec(users.order, users.rows, EqFilter(map["email" := Str(email.value)]), NoRegex, user);
        Get(user.1, "nome", Str(email.value))
      case None => Str(email.value)
    else Str("copilot")
  }

  /** An account holding the email, as an independent description of the lookup. */
  ghost predicate HasAccountWithEmail(users: Table, email: string) {
    exists id :: id in users.rows && "email" in users.rows[id] && users.rows[id]["email"] == Str(email)
  }

  /** The three cases of the acting username, stated against the users table itself. */
  lemma ActingUsernameCases(h: Headers, users: Table)
    requires Valid(users)
    ensures Header(h, "x-user-email").None? || h["x-user-email"] == "" ==> ActingUsername(h, users) == Str("copilot")
    ensures Header(h, "x-user-email").Some? && h["x-user-email"] != "" && !HasAccountWithEmail(users, h["x-user-email"]) ==>
      ActingUsername(h, users) == Str(h["x-user-email"])
    ensures Header(h, "x-user-email").Some? && h["x-user-email"] != "" && HasAccountWithEmail(users, h["x-user-email"]) ==>
      exists id :: id in users.rows && "email" in users.rows[id] && users.rows[id]["email"] == Str(h["x-user-email"]) &&
        ActingUsername(h, users) == Get(users.rows[id], "nome", Str(h["x-user-email"]))
  {
    if "x-user-email" in h && h["x-user-email"] != "" {
      var email := h["x-user-email"];
      var f := map["email" := Str(email)];
      FindSpec(users, EqFilter(f), NoRegex);
      var found := FindEq(users, f);
      if HasAccountWithEmail(users, email) {
        var id :| id in users.rows && "email" in users.rows[id] && users.rows[id]["email"] == Str(email);
        assert Matches(EqFilter(f), users.rows[id], NoRegex);
        assert (id, users.rows[id]) in found;
      }
      if found != [] {
        var first := found[0];
        assert first in found;
        assert Holds(EqFilter(f)["email"], first.1, "email", NoRegex);
        assert first.0 in users.rows && users.rows[first.0] == first.1;
      }
    }
  }

  /** The value create_task stores as the task's owner, or the 401 it raises. */
  function TaskCreator(h: Headers, cfg: Config, users: Table): (r: Result<Value>)
    ensures r.Ok? <==> ResolveChannel(h, cfg).Ok?
    ensures r.Err? ==> r.error.status == 401
  {
    match ResolveChannel(h, cfg)
    case Err(e) => Err(e)
    case Ok(Service) => Ok(ActingUsername(h, users))
    case Ok(User(sub)) => Ok(sub)
  }

  /** A matching service key wins: the bearer header then plays no part. */
  lemma ServiceKeyTakesPrecedence(h1: Headers, h2: Headers, cfg: Config, users: Table)
    requires ServiceKeyMatches(h1, cfg)
    requires Header(h1, "x-api-key") == Header(h2, "x-api-key")
    requires Header(h1, "x-user-email") == Header(h2, "x-user-email")
    ensures TaskCreator(h1, cfg, users) == TaskCreator(h2, cfg, users) == Ok(ActingUsername(h1, users))
  {
  }

  /** Without the service key, a task is created exactly for a decodable token with a truthy `sub`,
      and it is stamped with that `sub`. */
  lemma BearerCreatorIsSub(h: Headers, cfg: Config, users: Table)
    requires !ServiceKeyMatches(h, cfg)
    ensures TaskCreator(h, cfg, users).Ok? <==>
      BearerToken(h).Some? && cfg.decode(BearerToken(h).value).Some? && Truthy(Sub(cfg.decode(BearerToken(h).value).value))
    ensures TaskCreator(h, cfg, users).Ok? ==>
      TaskCreator(h, cfg, users).value == cfg.decode(BearerToken(h).value).value["sub"]
  {
  }

  /** The response to a created task: the stored record with its `id`; the response model
      (`TaskOut`) requires a string `username`, and a failed validation is a 500. */
  function CreatedTaskResponse(id: Oid, stored: Doc): (r: Result<Doc>)
    ensures r.Ok? <==> "username" in stored && stored["username"].Str?
    ensures r.Err? ==> r.error == InternalError
    ensures r.Ok? ==> r.value.Keys == stored.Keys + {"id"} && r.value["id"] == Str(id)
    ensures r.Ok? ==> forall k :: k in stored && k != "id" ==> r.value[k] == stored[k]
  {
    if "username" in stored && stored["username"].Str? then Ok(WithId((id, stored))) else Err(InternalError)
  }

  /** Insert the task, read it back and answer it. */
  method InsertTask(tasks: Collection, stored: Doc, newId: Oid) returns (r: Result<Doc>)
    requires newId !in tasks.rows
    modifies tasks
    ensures tasks.View() == Insert(old(tasks.View()), newId, stored)
    ensures r == CreatedTaskResponse(newId, stored)
  {
    tasks.InsertOne(newId, stored);
    var created := tasks.FindOneById(newId, map[]);
    assert created == Some(stored);
    var shown := WithId((newId, created.value));
    if "username" in shown && shown["username"].Str? {
      r := Ok(shown);
    } else {
      r := Err(InternalError);
    }
  }

  /**
   * create_task: on the service channel the task is stamped with the acting username, on the
   * bearer channel with the token's `sub`; on every failure path nothing is inserted.
   * `newId` is the identifier the store will generate.
   */
  method CreateTask(h: Headers, body: Doc, cfg: Config, users: Collection, tasks: Collection, newId: Oid)
    returns (r: Result<Doc>)
    requires IsTaskBody(body)
    requires users != tasks && newId !in tasks.rows
    modifies tasks
    ensures var creator := TaskCreator(h, cfg, users.View());
      && (creator.Err? ==> r == Err(creator.error) && tasks.View() == old(tasks.View()))
      && (creator.Ok? ==>
            var stored := body["username" := creator.value];
            && tasks.View() == Insert(old(tasks.View()), newId, stored)
            && r == CreatedTaskResponse(newId, stored))
  {
    var clientKey := Header(h, "x-api-key");
    if clientKey.Some? && clientKey.value != "" && cfg.apiKey == Some(clientKey.value) {
      var name: Value;
      var userEmail := Header(h, "x-user-email");
      if userEmail.Some? && userEmail.value != "" {
        var user := users.FindOneMatching(map["email" := Str(userEmail.value)]);
        if user.Some? {
          name := Get(user.value.1, "nome", Str(userEmail.value));
        } else {
          name := Str(userEmail.value);
        }
      } else {
        name := Str("copilot");
      }
      r := InsertTask(tasks, body["username" := name], newId);
      return;
    }

    var token := BearerToken(h);
    if token.Some? {
      var payload := cfg.decode(token.value);
      if payload.None? {
        r := Err(ErrTokenInvalid);
        return;
      }
      var username := Sub(payload.value);
      if Truthy(username) {
        r := InsertTask(tasks, body["username" := username], newId);
        return;
      }
    }
    r := Err(ErrNotAuthorized);
  }

  // ---------------------------------------------------------------------------
  // Listing

  /** `isinstance(valor, str)`: a string becomes a case-insensitive pattern, anything else equality. */
  function CondFor(v: Value): Cond {
    if v.Str? then IRegex(v.s) else Eq(v)
  }

  /** One condition per supplied parameter that is one of `names`; `params` holds the
      parameters that were supplied (not None), by name. */
  function Conditions(params: map<string, Value>, names: seq<string>): (m: Filter)
    ensures forall k :: k in m <==> k in params && k in names
    ensures forall k :: k in m && params[k].Str? ==> m[k] == IRegex(params[k].s)
    ensures forall k :: k in m && !params[k].Str? ==> m[k] == Eq(params[k])
  {
    map k | k in params && k in names :: CondFor(params[k])
  }

  /** The listing filter: the channel's base filter plus one condition for each supplied query parameter. */
  function QueryFilter(base: Filter, params: map<string, Value>): (f: Filter)
    requires forall k :: k in base ==> k !in TaskFields
    ensures forall k :: k in f <==> k in base || (k in params && k in TaskFields)
    ensures forall k :: k in base ==> f[k] == base[k]
  {
    base + Conditions(params, TaskFields)
  }

  lemma ConditionsStep(params: map<string, Value>, names: seq<string>, i: nat)
    requires i < |names|
    ensures Conditions(params, names[..i + 1]) ==
      if names[i] in params then Conditions(params, names[..i])[names[i] := CondFor(params[names[i]])]
      else Conditions(params, names[..i])
  {
    assert forall k :: k in names[..i + 1] <==> k in names[..i] || k == names[i] by {
      assert names[..i + 1] == names[..i] + [names[i]];
    }
  }

  /** One step of the filter loop: the filter so far, with the condition for `names[i]` when it was supplied. */
  lemma FilterStep(base: Filter, params: map<string, Value>, names: seq<string>, i: nat)
    requires i < |names|
    ensures base + Conditions(params, names[..i + 1]) ==
      if names[i] in params then (base + Conditions(params, names[..i]))[names[i] := CondFor(params[names[i]])]
      else base + Conditions(params, names[..i])
  {
    ConditionsStep(params, names, i);
    if names[i] in params {
      var c := Conditions(params, names[..i]);
      assert (base + c)[names[i] := CondFor(params[names[i]])] == base + c[names[i] := CondFor(params[names[i]])];
    }
  }

  /** The loop of list_user_tasks that fills `filtro` from the query parameters. */
  method BuildFilter(base: Filter, names: seq<string>, params: map<string, Value>) returns (filtro: Filter)
    ensures filtro == base + Conditions(params, names)
  {
    filtro := base;
    var i := 0;
    while i < |names|
      invariant 0 <= i <= |names|
      invariant filtro == base + Conditions(params, names[..i])
    {
      FilterStep(base, params, names, i);
      var campo := names[i];
      if campo in params {
        var valor := params[campo];
        if valor.Str? {
          filtro := filtro[campo := IRegex(valor.s)];
        } else {
          filtro := filtro[campo := Eq(valor)];
        }
      }
      i := i + 1;
    }
    assert names[..i] == names;
  }

  /** The base filter of the listing: everything on the service channel, the caller's own tasks on the bearer channel. */
  function ListingScope(h: Headers, cfg: Config): (r: Result<Filter>)
    ensures r.Ok? ==> forall k :: k in r.value ==> k !in TaskFields
  {
    UsernameIsNoTaskField();
    match ResolveChannel(h, cfg)
    case Err(e) => Err(e)
    case Ok(Service) => Ok(map[])
    case Ok(User(sub)) => Ok(map["username" := Eq(sub)])
  }

  lemma UsernameIsNoTaskField()
    ensures "username" !in TaskFields
  {
    assert forall k :: 0 <= k < |TaskFields| ==> TaskFields[k][0] != 'u';
  }

  function Shown(rows: seq<Row>): (docs: seq<Doc>)
    ensures |docs| == |rows|
    ensures forall i :: 0 <= i < |rows| ==> "id" in docs[i] && docs[i]["id"] == Str(rows[i].0)
  {
    seq(|rows|, i requires 0 <= i < |rows| => WithId(rows[i]))
  }

  /** Showing one more record appends its document. */
  lemma ShownStep(rows: seq<Row>, i: nat)
    requires i < |rows|
    ensures Shown(rows[..i + 1]) == Shown(rows[..i]) + [WithId(rows[i])]
  {
    assert forall j :: 0 <= j < i ==> rows[..i + 1][j] == rows[..i][j];
  }

  /** list_user_tasks: the matching tasks, newest `data` first, at most 200, each with its `id`. */
  function ListedTasks(h: Headers, cfg: Config, params: map<string, Value>, rx: RegexMatch, tasks: Table): (r: Result<seq<Doc>>)
    ensures r.Ok? <==> ResolveChannel(h, cfg).Ok?
    ensures r.Err? ==> r.error == ResolveChannel(h, cfg).error
    ensures r.Ok? ==> |r.value| <= ListingLimit && forall i :: 0 <= i < |r.value| ==> "id" in r.value[i]
  {
    match ListingScope(h, cfg)
    case Err(e) => Err(e)
    case Ok(base) => Ok(Shown(FindSortedLimit(tasks, QueryFilter(base, params), rx, ListingLimit)))
  }

  /**
   * The shown records of a sorted, limited query: min(n, #matches) of them, by non-increasing
   * `data`, each a stored record matching the filter, shown once with its `id` and without
   * `_id`; all matches when at most `n` match, and a match left out is no newer than any shown.
   */
  lemma ShownQuerySpec(tasks: Table, f: Filter, rx: RegexMatch, n: nat)
    requires Valid(tasks)
    ensures var docs := Shown(FindSortedLimit(tasks, f, rx, n));
      && |docs| == (if |Matching(tasks, f, rx)| <= n then |Matching(tasks, f, rx)| else n)
      && (forall i :: 0 < i < |docs| ==> ValueLe(DataKey(docs[i]), DataKey(docs[i - 1])))
      && (forall d: Doc :: d in docs ==>
            && "_id" !in d
            && exists id: Oid :: id in tasks.rows && d == WithId((id, tasks.rows[id])) && Matches(f, tasks.rows[id], rx))
      && (forall i, j :: 0 <= i < j < |docs| ==> docs[i]["id"] != docs[j]["id"])
      && (|Matching(tasks, f, rx)| <= n ==>
            forall id :: id in Matching(tasks, f, rx) ==> WithId((id, tasks.rows[id])) in docs)
      && (forall id, d :: id in Matching(tasks, f, rx) && WithId((id, tasks.rows[id])) !in docs && d in docs ==>
            ValueLe(DataKey(tasks.rows[id]), DataKey(d)))
  {
    var rows := FindSortedLimit(tasks, f, rx, n);
    FindSortedLimitSpec(tasks, f, rx, n);
    FindCount(tasks, f, rx);
    ShownOrder(rows);
    ShownMembers(tasks, rows, f, rx);
    ShownDistinct(rows);
    if |Matching(tasks, f, rx)| <= n {
      ShownQueryAll(tasks, f, rx, n);
    }
    ShownQueryTop(tasks, f, rx, n);
  }

  /** All matches are shown when at most `n` match. */
  lemma ShownQueryAll(tasks: Table, f: Filter, rx: RegexMatch, n: nat)
    requires Valid(tasks) && |Matching(tasks, f, rx)| <= n
    ensures forall id :: id in Matching(tasks, f, rx) ==> WithId((id, tasks.rows[id])) in Shown(FindSortedLimit(tasks, f, rx, n))
  {
    var rows := FindSortedLimit(tasks, f, rx, n);
    FindSortedLimitSpec(tasks, f, rx, n);
    FindCount(tasks, f, rx);
    FindSpec(tasks, f, rx);
    forall id | id in Matching(tasks, f, rx) ensures WithId((id, tasks.rows[id])) in Shown(rows) {
      assert (id, tasks.rows[id]) in Find(tasks, f, rx);
      ShownIncludes(rows, (id, tasks.rows[id]));
    }
  }

  /** A match the limit leaves out is no newer than any shown record. */
  lemma ShownQueryTop(tasks: Table, f: Filter, rx: RegexMatch, n: nat)
    requires Valid(tasks)
    ensures var docs := Shown(FindSortedLimit(tasks, f, rx, n));
      forall id, d :: id in Matching(tasks, f, rx) && WithId((id, tasks.rows[id])) !in docs && d in docs ==>
        ValueLe(DataKey(tasks.rows[id]), DataKey(d))
  {
    var rows := FindSortedLimit(tasks, f, rx, n);
    var docs := Shown(rows);
    FindSortedLimitTop(tasks, f, rx, n);
    forall id, d | id in Matching(tasks, f, rx) && WithId((id, tasks.rows[id])) !in docs && d in docs
      ensures ValueLe(DataKey(tasks.rows[id]), DataKey(d))
    {
      var r := (id, tasks.rows[id]);
      if r in rows {
        ShownIncludes(rows, r);
      }
      var k :| 0 <= k < |docs| && docs[k] == d;
      assert d == WithId(rows[k]) && rows[k] in rows;
      assert DataDescLe(rows[k], r);
    }
  }

  /** A shown record's document carries its `id`. */
  lemma ShownIncludes(rows: seq<Row>, r: Row)
    requires r in rows
    ensures WithId(r) in Shown(rows)
  {
    var k :| 0 <= k < |rows| && rows[k] == r;
    assert Shown(rows)[k] == WithId(r);
  }

  /** Records with distinct identifiers are shown with distinct `id`s. */
  lemma ShownDistinct(rows: seq<Row>)
    requires DistinctRows(rows)
    ensures forall i, j :: 0 <= i < j < |Shown(rows)| ==> Shown(rows)[i]["id"] != Shown(rows)[j]["id"]
  {
    var docs := Shown(rows);
    forall i, j | 0 <= i < j < |docs| ensures docs[i]["id"] != docs[j]["id"] {
      assert docs[i]["id"] == Str(rows[i].0) && docs[j]["id"] == Str(rows[j].0);
    }
  }

  /** Showing records keeps their order by `data`. */
  lemma ShownOrder(rows: seq<Row>)
    requires Sorting.SortedBy(rows, DataDescLe)
    ensures forall i :: 0 < i < |Shown(rows)| ==> ValueLe(DataKey(Shown(rows)[i]), DataKey(Shown(rows)[i - 1]))
  {
    var docs := Shown(rows);
    forall i | 0 < i < |docs| ensures ValueLe(DataKey(docs[i]), DataKey(docs[i - 1])) {
      assert DataDescLe(rows[i - 1], rows[i]);
      assert DataKey(docs[i]) == DataKey(rows[i].1);
      assert DataKey(docs[i - 1]) == DataKey(rows[i - 1].1);
    }
  }

  /** Every shown record is a stored one matching the filter, shown with `id` instead of `_id`. */
  lemma ShownMembers(tasks: Table, rows: seq<Row>, f: Filter, rx: RegexMatch)
    requires Valid(tasks)
    requires forall r :: r in rows ==> r.0 in tasks.rows && r.1 == tasks.rows[r.0] && Matches(f, r.1, rx)
    ensures forall d: Doc :: d in Shown(rows) ==>
      && "_id" !in d
      && exists id: Oid :: id in tasks.rows && d == WithId((id, tasks.rows[id])) && Matches(f, tasks.rows[id], rx)
  {
    var docs := Shown(rows);
    forall d: Doc | d in docs
      ensures "_id" !in d
      ensures exists id: Oid :: id in tasks.rows && d == WithId((id, tasks.rows[id])) && Matches(f, tasks.rows[id], rx)
    {
      var k :| 0 <= k < |docs| && docs[k] == d;
      assert rows[k] in rows;
      assert d == WithId(rows[k]);
    }
  }

  /** A record matching the listing filter meets the base scope and every supplied parameter's condition. */
  lemma QueryFilterHolds(base: Filter, params: map<string, Value>, d: Doc, rx: RegexMatch)
    requires forall k :: k in base ==> k !in TaskFields
    requires Matches(QueryFilter(base, params), d, rx)
    ensures forall k :: k in base ==> Holds(base[k], d, k, rx)
    ensures forall k :: k in params && k in TaskFields ==> Holds(CondFor(params[k]), d, k, rx)
  {
    var f := QueryFilter(base, params);
    forall k | k in base ensures Holds(base[k], d, k, rx) {
      assert k in f;
    }
    forall k | k in params && k in TaskFields ensures Holds(CondFor(params[k]), d, k, rx) {
      assert k in f;
    }
  }

  /** A task the listing is after: it meets every supplied parameter and, on the bearer channel, belongs to `sub`. */
  ghost predicate Listable(ch: Channel, params: map<string, Value>, rx: RegexMatch, task: Doc) {
    && (forall k :: k in params && k in TaskFields ==> Holds(CondFor(params[k]), task, k, rx))
    && (ch.User? ==> "username" in task && task["username"] == ch.sub)
  }

  /** The identifiers of the stored tasks the listing is after. */
  ghost function ListableTasks(ch: Channel, params: map<string, Value>, rx: RegexMatch, tasks: Table): set<Oid> {
    set id | id in tasks.rows && Listable(ch, params, rx, tasks.rows[id])
  }

  /** The listing filter matches exactly the tasks the listing is after. */
  lemma ListableMatches(h: Headers, cfg: Config, params: map<string, Value>, rx: RegexMatch, task: Doc)
    requires ResolveChannel(h, cfg).Ok?
    ensures Matches(QueryFilter(ListingScope(h, cfg).value, params), task, rx) <==>
      Listable(ResolveChannel(h, cfg).value, params, rx, task)
  {
    var ch := ResolveChannel(h, cfg).value;
    var base := ListingScope(h, cfg).value;
    var f := QueryFilter(base, params);
    if Matches(f, task, rx) {
      QueryFilterHolds(base, params, task, rx);
      if ch.User? {
        assert Holds(base["username"], task, "username", rx);
      }
    }
    if Listable(ch, params, rx, task) {
      forall k | k in f ensures Holds(f[k], task, k, rx) {
        if k !in base {
          assert f[k] == Conditions(params, TaskFields)[k];
          assert f[k] == CondFor(params[k]);
        }
      }
    }
  }

  lemma ListableTasksMatching(h: Headers, cfg: Config, params: map<string, Value>, rx: RegexMatch, tasks: Table)
    requires ResolveChannel(h, cfg).Ok?
    ensures Matching(tasks, QueryFilter(ListingScope(h, cfg).value, params), rx) ==
      ListableTasks(ResolveChannel(h, cfg).value, params, rx, tasks)
  {
    forall id | id in tasks.rows {
      ListableMatches(h, cfg, params, rx, tasks.rows[id]);
    }
  }

  /**
   * A sound listing: ordered by non-increasing `data`, every document a stored task shown with
   * its string `id` and no `_id`, matching every supplied parameter, and on the bearer channel
   * owned by `sub`.
   */
  ghost predicate ListingSound(ch: Channel, params: map<string, Value>, rx: RegexMatch, tasks: Table, docs: seq<Doc>) {
    && (forall i :: 0 < i < |docs| ==> ValueLe(DataKey(docs[i]), DataKey(docs[i - 1])))
    && (forall d: Doc :: d in docs ==>
          && "_id" !in d
          && exists id: Oid ::
               && id in tasks.rows && d == WithId((id, tasks.rows[id])) && d["id"] == Str(id)
               && (forall k :: k in params && k in TaskFields ==> Holds(CondFor(params[k]), tasks.rows[id], k, rx))
               && (ch.User? ==> "username" in tasks.rows[id] && tasks.rows[id]["username"] == ch.sub))
  }

  /**
   * A complete listing: min(200, #wanted) documents with distinct `id`s; every wanted task when
   * at most 200 are wanted; and a wanted task left out is no newer than any listed.
   */
  ghost predicate ListingComplete(ch: Channel, params: map<string, Value>, rx: RegexMatch, tasks: Table, docs: seq<Doc>) {
    var wanted := ListableTasks(ch, params, rx, tasks);
    && |docs| == (if |wanted| <= ListingLimit then |wanted| else ListingLimit)
    && (forall i, j :: 0 <= i < j < |docs| ==> Get(docs[i], "id", Null) != Get(docs[j], "id", Null))
    && (|wanted| <= ListingLimit ==> forall id :: id in wanted ==> WithId((id, tasks.rows[id])) in docs)
    && (forall id, d :: id in wanted && WithId((id, tasks.rows[id])) !in docs && d in docs ==>
          ValueLe(DataKey(tasks.rows[id]), DataKey(d)))
  }

  /** What a listing promises: 401 exactly when no channel authenticates; otherwise a sound and complete listing. */
  lemma ListedTasksSpec(h: Headers, cfg: Config, params: map<string, Value>, rx: RegexMatch, tasks: Table)
    requires Valid(tasks)
    ensures var r := ListedTasks(h, cfg, params, rx, tasks);
      && (r.Err? <==> ResolveChannel(h, cfg).Err?)
      && (r.Err? ==> r.error.status == 401)
      && (r.Ok? ==>
            && ListingSound(ResolveChannel(h, cfg).value, params, rx, tasks, r.value)
            && ListingComplete(ResolveChannel(h, cfg).value, params, rx, tasks, r.value))
  {
    if ResolveChannel(h, cfg).Ok? {
      ListedTasksSound(h, cfg, params, rx, tasks);
      ListedTasksComplete(h, cfg, params, rx, tasks);
    }
  }

  /** Every listed document is a wanted stored task, in `data` order. */
  lemma ListedTasksSound(h: Headers, cfg: Config, params: map<string, Value>, rx: RegexMatch, tasks: Table)
    requires Valid(tasks) && ResolveChannel(h, cfg).Ok?
    ensures ListingSound(ResolveChannel(h, cfg).value, params, rx, tasks, ListedTasks(h, cfg, params, rx, tasks).value)
  {
    var docs := ListedTasks(h, cfg, params, rx, tasks).value;
    var base := ListingScope(h, cfg).value;
    ShownQuerySpec(tasks, QueryFilter(base, params), rx, ListingLimit);
    forall d: Doc | d in docs
      ensures exists id: Oid ::
        && id in tasks.rows && d == WithId((id, tasks.rows[id])) && d["id"] == Str(id)
        && (forall k :: k in params && k in TaskFields ==> Holds(CondFor(params[k]), tasks.rows[id], k, rx))
        && (ResolveChannel(h, cfg).value.User? ==>
              "username" in tasks.rows[id] && tasks.rows[id]["username"] == ResolveChannel(h, cfg).value.sub)
    {
      ListedDoc(h, cfg, params, rx, tasks, base, d);
    }
  }

  /** Every wanted task is listed, once, up to the limit of 200, newest first. */
  lemma ListedTasksComplete(h: Headers, cfg: Config, params: map<string, Value>, rx: RegexMatch, tasks: Table)
    requires Valid(tasks) && ResolveChannel(h, cfg).Ok?
    ensures ListingComplete(ResolveChannel(h, cfg).value, params, rx, tasks, ListedTasks(h, cfg, params, rx, tasks).value)
  {
    var docs := ListedTasks(h, cfg, params, rx, tasks).value;
    var base := ListingScope(h, cfg).value;
    ShownQuerySpec(tasks, QueryFilter(base, params), rx, ListingLimit);
    ListableTasksMatching(h, cfg, params, rx, tasks);
    forall i, j | 0 <= i < j < |docs| ensures Get(docs[i], "id", Null) != Get(docs[j], "id", Null) {
      assert docs[i]["id"] != docs[j]["id"];
    }
  }

  /** One listed document: a stored task, shown with its `id`, meeting the filter and, on the bearer channel, owned by `sub`. */
  lemma ListedDoc(h: Headers, cfg: Config, params: map<string, Value>, rx: RegexMatch, tasks: Table, base: Filter, d: Doc)
    requires Valid(tasks) && ListingScope(h, cfg) == Ok(base)
    requires exists id: Oid :: id in tasks.rows && d == WithId((id, tasks.rows[id])) && Matches(QueryFilter(base, params), tasks.rows[id], rx)
    ensures exists id: Oid ::
      && id in tasks.rows && d == WithId((id, tasks.rows[id])) && d["id"] == Str(id)
      && (forall k :: k in params && k in TaskFields ==> Holds(CondFor(params[k]), tasks.rows[id], k, rx))
      && (ResolveChannel(h, cfg).value.User? ==>
            "username" in tasks.rows[id] && tasks.rows[id]["username"] == ResolveChannel(h, cfg).value.sub)
  {
    var id: Oid :| id in tasks.rows && d == WithId((id, tasks.rows[id])) && Matches(QueryFilter(base, params), tasks.rows[id], rx);
    var task := tasks.rows[id];
    QueryFilterHolds(base, params, task, rx);
    assert d["id"] == Str(id);
    var channel := ResolveChannel(h, cfg).value;
    if channel.User? {
      assert base == map["username" := Eq(channel.sub)];
      assert Holds(base["username"], task, "username", rx);
      assert channel.sub != Null;
      assert "username" in task && task["username"] == channel.sub;
    }
  }

  /** list_user_tasks. */
  method ListUserTasks(h: Headers, params: map<string, Value>, cfg: Config, rx: RegexMatch, tasks: Collection)
    returns (r: Result<seq<Doc>>)
    ensures r == ListedTasks(h, cfg, params, rx, tasks.View())
  {
    var base: Filter;
    var clientKey := Header(h, "x-api-key");
    if clientKey.Some? && clientKey.value != "" && cfg.apiKey == Some(clientKey.value) {
      base := map[];
    } else {
      var token := BearerToken(h);
      if token.None? {
        return Err(ErrNotAuthorized);
      }
      var payload := cfg.decode(token.value);
      if payload.None? {
        return Err(ErrTokenInvalid);
      }
      var username := Sub(payload.value);
      if !Truthy(username) {
        return Err(ErrNotAuthorized);
      }
      base := map["username" := Eq(username)];
    }
    assert ListingScope(h, cfg) == Ok(base);
    var filtro := BuildFilter(base, TaskFields, params);
    assert filtro == QueryFilter(base, params);
    var found := tasks.FindSorted(filtro, rx, ListingLimit);
    var out: seq<Doc> := [];
    var i := 0;
    while i < |found|
      invariant 0 <= i <= |found|
      invariant out == Shown(found[..i])
    {
      ShownStep(found, i);
      out := out + [WithId(found[i])];
      i := i + 1;
    }
    assert found[..i] == found;
    r := Ok(out);
  }

  // ---------------------------------------------------------------------------
  // Update and delete

  /** The checks update_task and delete_task make, in order, once the caller is known. */
  datatype Access = BadId | Missing | NotOwner | Owned(id: Oid)

  /** Malformed id (400), then no such task (404), then someone else's task (403). */
  function TaskAccess(tasks: Table, taskId: string, caller: Value): (a: Access)
    ensures a == BadId <==> ParseObjectId(taskId).None?
    ensures a == Missing <==> ParseObjectId(taskId).Some? && ParseObjectId(taskId).value !in tasks.rows
    ensures a == NotOwner <==>
      && ParseObjectId(taskId).Some?
      && ParseObjectId(taskId).value in tasks.rows
      && Get(tasks.rows[ParseObjectId(taskId).value], "username", Null) != caller
    ensures a.Owned? <==>
      && ParseObjectId(taskId).Some?
      && ParseObjectId(taskId).value in tasks.rows
      && Get(tasks.rows[ParseObjectId(taskId).value], "username", Null) == caller
    ensures a.Owned? ==> a.id == ParseObjectId(taskId).value
  {
    match ParseObjectId(taskId)
    case None => BadId
    case Some(id) =>
      match FindById(tasks, id, map[])
      case None => Missing
      case Some(task) => if Get(task, "username", Null) != caller then NotOwner else Owned(id)
  }

  /** The full decision of update_task / delete_task: the bearer check of the dependency
      comes first (401), then the access checks; `forbidden` is the route's 403. */
  function TaskWriteCheck(h: Headers, decode: Decoder, tasks: Table, taskId: string, forbidden: HttpError): (r: Result<Oid>)
    ensures r.Err? ==> r.error == forbidden || r.error.status in {400, 401, 404}
    ensures r.Ok? ==> r.value in tasks.rows
  {
    match GetCurrentUser(h, decode)
    case Err(e) => Err(e)
    case Ok(caller) =>
      match TaskAccess(tasks, taskId, caller)
      case BadId => Err(ErrBadId)
      case Missing => Err(ErrTaskNotFound)
      case NotOwner => Err(forbidden)
      case Owned(id) => Ok(id)
  }

  /** Only the owner gets through: a caller other than the stored `username` receives the 403
      whatever the body, and a success names the very task the id denotes. */
  lemma TaskWriteCheckSpec(h: Headers, decode: Decoder, tasks: Table, taskId: string, forbidden: HttpError)
    ensures var r := TaskWriteCheck(h, decode, tasks, taskId, forbidden);
      && (GetCurrentUser(h, decode).Err? ==> r == Err(GetCurrentUser(h, decode).error))
      && (r.Ok? ==>
            && GetCurrentUser(h, decode).Ok?
            && ParseObjectId(taskId) == Some(r.value)
            && r.value in tasks.rows
            && "username" in tasks.rows[r.value]
            && tasks.rows[r.value]["username"] == GetCurrentUser(h, decode).value)
      && (GetCurrentUser(h, decode).Ok? && ParseObjectId(taskId).Some? && ParseObjectId(taskId).value in tasks.rows &&
          Get(tasks.rows[ParseObjectId(taskId).value], "username", Null) != GetCurrentUser(h, decode).value ==>
            r == Err(forbidden))
  {
    if GetCurrentUser(h, decode).Ok? {
      var caller := GetCurrentUser(h, decode).value;
      assert Truthy(caller);
    }
  }

  /** update_task: on success every field of the body overwrites the task (`$set` of
      `TaskBase.dict()`), and no other task changes; on any failure nothing changes. */
  method UpdateTask(h: Headers, taskId: string, body: Doc, cfg: Config, tasks: Collection) returns (r: Result<string>)
    requires IsTaskBody(body)
    modifies tasks
    ensures var check := TaskWriteCheck(h, cfg.decode, old(tasks.View()), taskId, ErrEditForbidden);
      && (check.Err? ==> r == Err(check.error) && tasks.View() == old(tasks.View()))
      && (check.Ok? ==> r == Ok(UpdatedMessage) && tasks.View() == SetFields(old(tasks.View()), check.value, body))
  {
    var auth := GetCurrentUser(h, cfg.decode);
    if auth.Err? {
      return Err(auth.error);
    }
    var username := auth.value;
    var objId := ParseObjectId(taskId);
    if objId.None? {
      return Err(ErrBadId);
    }
    var task := tasks.FindOneById(objId.value, map[]);
    if task.None? {
      return Err(ErrTaskNotFound);
    }
    if Get(task.value, "username", Null) != username {
      return Err(ErrEditForbidden);
    }
    tasks.UpdateOne(objId.value, body);
    r := Ok(UpdatedMessage);
  }

  /** delete_task: on success exactly that task is removed; on any failure nothing changes. */
  method DeleteTask(h: Headers, taskId: string, cfg: Config, tasks: Collection) returns (r: Result<string>)
    modifies tasks
    ensures var check := TaskWriteCheck(h, cfg.decode, old(tasks.View()), taskId, ErrDeleteForbidden);
      && (check.Err? ==> r == Err(check.error) && tasks.View() == old(tasks.View()))
      && (check.Ok? ==> r == Ok(DeletedMessage) && tasks.View() == Delete(old(tasks.View()), check.value))
  {
    var auth := GetCurrentUser(h, cfg.decode);
    if auth.Err? {
      return Err(auth.error);
    }
    var username := auth.value;
    var objId := ParseObjectId(taskId);
    if objId.None? {
      return Err(ErrBadId);
    }
    var task := tasks.FindOneById(objId.value, map[]);
    if task.None? {
      return Err(ErrTaskNotFound);
    }
    if Get(task.value, "username", Null) != username {
      return Err(ErrDeleteForbidden);
    }
    var deleted := tasks.DeleteOne(objId.value, map[]);
    r := Ok(DeletedMessage);
  }
}
