/**
 * The document store: one MongoDB collection, modelled as an in-memory table
 * from record identifier to document, plus the collection's natural order
 * (the order in which `find` returns records: insertion order).
 *
 * The pure functions give the meaning of the driver calls the routes make
 * (`find`, `find_one`, `insert_one`, `update_one` with `$set`, `delete_one`,
 * `sort`, `limit`); class `Collection` is the mutable collection handle the
 * routes share.
 */
module Store {
  import opened Values
  import opened ObjectIds
  import opened StringOrder
  import Sorting

  datatype Table = Table(rows: map<Oid, Doc>, order: seq<Oid>)

  const Empty := Table(map[], [])

  /**
   * The store invariant: the natural order lists every record exactly once, and
   * no stored document carries `_id` as an ordinary field (the identifier is the key).
   */
  ghost predicate Valid(t: Table) {
    && Distinct(t.order)
    && (forall id :: id in t.rows <==> id in t.order)
    && (forall id :: id in t.rows ==> "_id" !in t.rows[id])
  }

  predicate Distinct(s: seq<Oid>) {
    forall i, j :: 0 <= i < j < |s| ==> s[i] != s[j]
  }

  /** A record as a cursor yields it: identifier and fields. */
  type Row = (Oid, Doc)

  predicate DistinctRows(s: seq<Row>) {
    forall i, j :: 0 <= i < j < |s| ==> s[i].0 != s[j].0
  }

  // ---------------------------------------------------------------------------
  // Query filters

  /** One field condition: plain equality, or `{"$regex": p, "$options": "i"}`. */
  datatype Cond = Eq(v: Value) | IRegex(pattern: string)

  type Filter = map<string, Cond>

  /** Case-insensitive regular-expression search of MongoDB: `rx(pattern, subject)`.
      Its semantics are not modelled; it is a parameter of the queries that use it. */
  type RegexMatch = (string, string) -> bool

  /** Equality matches a missing field only when it asks for null; a regex matches strings only. */
  predicate Holds(c: Cond, d: Doc, field: string, rx: RegexMatch) {
    match c
    case Eq(v) => if field in d then d[field] == v else v == Null
    case IRegex(p) => field in d && d[field].Str? && rx(p, d[field].s)
  }

  predicate Matches(f: Filter, d: Doc, rx: RegexMatch) {
    forall field :: field in f ==> Holds(f[field], d, field, rx)
  }

  function EqFilter(f: map<string, Value>): Filter {
    map field | field in f :: Eq(f[field])
  }

  const NoRegex: RegexMatch := (p: string, s: string) => false

  // ---------------------------------------------------------------------------
  // Reads

  function Select(ids: seq<Oid>, rows: map<Oid, Doc>, f: Filter, rx: RegexMatch): seq<Row> {
    if ids == [] then []
    else
      var rest := Select(ids[1..], rows, f, rx);
      if ids[0] in rows && Matches(f, rows[ids[0]], rx) then [(ids[0], rows[ids[0]])] + rest else rest
  }

  /** `collection.find(f)`: the matching records in natural order. */
  function Find(t: Table, f: Filter, rx: RegexMatch): seq<Row> {
    Select(t.order, t.rows, f, rx)
  }

  /** `collection.find(f)` for a filter of plain equalities. */
  function FindEq(t: Table, f: map<string, Value>): seq<Row> {
    Find(t, EqFilter(f), NoRegex)
  }

  /** `collection.find_one(f)`: the first matching record in natural order. */
  function FindOne(t: Table, f: map<string, Value>): Option<Row> {
    var found := FindEq(t, f);
    if found == [] then None else Some(found[0])
  }

  /** `collection.find_one({"_id": id, ...f})`. */
  function FindById(t: Table, id: Oid, f: map<string, Value>): Option<Doc> {
    if id in t.rows && Matches(EqFilter(f), t.rows[id], NoRegex) then Some(t.rows[id]) else None
  }

  /** `d["id"] = str(d.pop("_id"))`: the record as the API shows it. */
  function WithId(r: Row): Doc {
    r.1["id" := Str(r.0)]
  }

  // ---------------------------------------------------------------------------
  // Sort order: `sort("data", -1)` uses MongoDB's comparison order of BSON values.

  /** BSON comparison order of types: null < numbers < strings < booleans < dates. */
  function TypeRank(v: Value): nat {
    match v
    case Null => 0
    case Num(_) => 1
    case Str(_) => 2
    case Bool(_) => 3
    case Time(_) => 4
  }

  predicate ValueLe(a: Value, b: Value) {
    if TypeRank(a) != TypeRank(b) then TypeRank(a) < TypeRank(b)
    else match (a, b)
      case (Num(x), Num(y)) => x <= y
      case (Str(x), Str(y)) => StrLe(x, y)
      case (Bool(x), Bool(y)) => !x || y
      case (Time(x), Time(y)) => x <= y
      case _ => true
  }

  /** The sort key of `sort("data", ...)`: a missing field sorts as null. */
  function DataKey(d: Doc): Value {
    if "data" in d then d["data"] else Null
  }

  /** `sort("data", -1)`: a record may come before another whose `data` is not greater. */
  predicate DataDescLe(a: Row, b: Row) {
    ValueLe(DataKey(b.1), DataKey(a.1))
  }

  /** `find(f).sort("data", -1).limit(n)`. */
  function FindSortedLimit(t: Table, f: Filter, rx: RegexMatch, n: nat): seq<Row> {
    Sorting.Take(Sorting.Sort(Find(t, f, rx), DataDescLe), n)
  }

  // ---------------------------------------------------------------------------
  // Writes

  /** `insert_one(d)` with the store-generated identifier `id`. */
  function Insert(t: Table, id: Oid, d: Doc): Table
    requires id !in t.rows
  {
    Table(t.rows[id := d], t.order + [id])
  }

  function RemoveId(s: seq<Oid>, id: Oid): (r: seq<Oid>)
    ensures forall x :: x in r <==> x in s && x != id
  {
    if s == [] then []
    else if s[0] == id then RemoveId(s[1..], id)
    else [s[0]] + RemoveId(s[1..], id)
  }

  /** `delete_one({"_id": id})` on an existing record. */
  function Delete(t: Table, id: Oid): Table {
    Table(t.rows - {id}, RemoveId(t.order, id))
  }

  /** `update_one({"_id": id}, {"$set": upd})` on an existing record: the fields of `upd`
      overwrite or extend the record; its other fields stay. */
  function SetFields(t: Table, id: Oid, upd: Doc): Table
    requires id in t.rows
  {
    Table(t.rows[id := t.rows[id] + upd], t.order)
  }

  // ---------------------------------------------------------------------------
  // Lemmas

  /** A record is selected iff it is listed, stored, and matches. */
  lemma {:induction false} SelectSpec(ids: seq<Oid>, rows: map<Oid, Doc>, f: Filter, rx: RegexMatch, r: Row)
    ensures r in Select(ids, rows, f, rx) <==> r.0 in ids && r.0 in rows && r.1 == rows[r.0] && Matches(f, r.1, rx)
  {
    if ids != [] {
      SelectSpec(ids[1..], rows, f, rx, r);
      assert ids == [ids[0]] + ids[1..];
    }
  }

  lemma {:induction false} SelectDistinct(ids: seq<Oid>, rows: map<Oid, Doc>, f: Filter, rx: RegexMatch)
    requires Distinct(ids)
    ensures DistinctRows(Select(ids, rows, f, rx))
  {
    if ids != [] {
      SelectDistinct(ids[1..], rows, f, rx);
      var rest := Select(ids[1..], rows, f, rx);
      if ids[0] in rows && Matches(f, rows[ids[0]], rx) {
        var s := [(ids[0], rows[ids[0]])] + rest;
        forall i, j | 0 <= i < j < |s| ensures s[i].0 != s[j].0 {
          assert s[j] == rest[j - 1];
          if i == 0 {
            assert rest[j - 1] in rest;
            SelectSpec(ids[1..], rows, f, rx, rest[j - 1]);
            NotInTail(ids);
          } else {
            assert s[i] == rest[i - 1];
          }
        }
      }
    }
  }

  /** `find` returns each matching record exactly once, and nothing else. */
  lemma FindSpec(t: Table, f: Filter, rx: RegexMatch)
    requires Valid(t)
    ensures forall r :: r in Find(t, f, rx) <==> r.0 in t.rows && r.1 == t.rows[r.0] && Matches(f, r.1, rx)
    ensures DistinctRows(Find(t, f, rx))
  {
    forall r ensures r in Find(t, f, rx) <==> r.0 in t.rows && r.1 == t.rows[r.0] && Matches(f, r.1, rx) {
      SelectSpec(t.order, t.rows, f, rx, r);
    }
    SelectDistinct(t.order, t.rows, f, rx);
  }

  lemma {:induction false} SelectFresh(ids: seq<Oid>, rows: map<Oid, Doc>, id: Oid, d: Doc, f: Filter, rx: RegexMatch)
    requires id !in ids
    ensures Select(ids, rows[id := d], f, rx) == Select(ids, rows, f, rx)
  {
    if ids != [] {
      SelectFresh(ids[1..], rows, id, d, f, rx);
    }
  }

  lemma {:induction false} SelectAppend(ids: seq<Oid>, rows: map<Oid, Doc>, id: Oid, f: Filter, rx: RegexMatch)
    ensures Select(ids + [id], rows, f, rx) ==
      Select(ids, rows, f, rx) + (if id in rows && Matches(f, rows[id], rx) then [(id, rows[id])] else [])
  {
    if ids == [] {
      assert ids + [id] == [id];
    } else {
      assert (ids + [id])[1..] == ids[1..] + [id];
      SelectAppend(ids[1..], rows, id, f, rx);
    }
  }

  /** After `insert_one`, `find` returns what it returned before, then the new record if it matches. */
  lemma FindAfterInsert(t: Table, id: Oid, d: Doc, f: Filter, rx: RegexMatch)
    requires Valid(t) && id !in t.rows
    ensures Find(Insert(t, id, d), f, rx) == Find(t, f, rx) + (if Matches(f, d, rx) then [(id, d)] else [])
  {
    SelectAppend(t.order, t.rows[id := d], id, f, rx);
    SelectFresh(t.order, t.rows, id, d, f, rx);
  }

  /** After `delete_one`, `find` never returns the deleted record, and returns every other match. */
  lemma FindAfterDelete(t: Table, id: Oid, f: Filter, rx: RegexMatch)
    requires Valid(t)
    ensures Valid(Delete(t, id))
    ensures forall r :: r in Find(Delete(t, id), f, rx) <==> r in Find(t, f, rx) && r.0 != id
  {
    DeletePreservesValid(t, id);
    FindSpec(t, f, rx);
    FindSpec(Delete(t, id), f, rx);
  }

  lemma NotInTail(s: seq<Oid>)
    requires s != [] && Distinct(s)
    ensures s[0] !in s[1..]
  {
    forall k | 0 <= k < |s| - 1 ensures s[1..][k] != s[0] {
      assert s[1..][k] == s[k + 1];
    }
  }

  lemma {:induction false} RemoveIdDistinct(s: seq<Oid>, id: Oid)
    requires Distinct(s)
    ensures Distinct(RemoveId(s, id))
  {
    if s != [] {
      RemoveIdDistinct(s[1..], id);
      var rest := RemoveId(s[1..], id);
      if s[0] != id {
        var r := [s[0]] + rest;
        forall i, j | 0 <= i < j < |r| ensures r[i] != r[j] {
          assert r[j] == rest[j - 1];
          if i == 0 {
            assert rest[j - 1] in rest;
            NotInTail(s);
          } else {
            assert r[i] == rest[i - 1];
          }
        }
      }
    }
  }

  /** insert_one keeps the store invariant when the new document has no `_id` field. */
  lemma InsertPreservesValid(t: Table, id: Oid, d: Doc)
    requires Valid(t) && id !in t.rows && "_id" !in d
    ensures Valid(Insert(t, id, d))
  {
  }

  /** delete_one keeps the store invariant. */
  lemma DeletePreservesValid(t: Table, id: Oid)
    requires Valid(t)
    ensures Valid(Delete(t, id))
  {
    RemoveIdDistinct(t.order, id);
  }

  /** `$set` keeps the store invariant when it does not name `_id`. */
  lemma SetFieldsPreservesValid(t: Table, id: Oid, upd: Doc)
    requires Valid(t) && id in t.rows && "_id" !in upd
    ensures Valid(SetFields(t, id, upd))
  {
  }

  /** BSON order is total, so `sort` orders its whole result. */
  lemma ValueLeTotal()
    ensures Sorting.Total(DataDescLe)
  {
    forall a: Row, b: Row ensures DataDescLe(a, b) || DataDescLe(b, a) {
      var x, y := DataKey(a.1), DataKey(b.1);
      if x.Str? && y.Str? { StrLeTotal(x.s, y.s); }
    }
  }

  /** BSON order is transitive, so a sorted cursor is ordered pair by pair. */
  lemma ValueLeTransitive()
    ensures Sorting.Transitive(DataDescLe)
  {
    forall a: Row, b: Row, c: Row | DataDescLe(a, b) && DataDescLe(b, c) ensures DataDescLe(a, c) {
      var x, y, z := DataKey(a.1), DataKey(b.1), DataKey(c.1);
      if x.Str? && y.Str? && z.Str? { StrLeTransitive(z.s, y.s, x.s); }
    }
  }

  /**
   * `find(f).sort("data", -1).limit(n)` returns min(n, #matches) matching records, each once,
   * with non-increasing `data`; when at most n records match, every one is returned, and a
   * matching record left out has `data` no greater than any record returned.
   */
  lemma FindSortedLimitSpec(t: Table, f: Filter, rx: RegexMatch, n: nat)
    requires Valid(t)
    ensures var s := FindSortedLimit(t, f, rx, n);
      && |s| <= n
      && |s| == (if |Find(t, f, rx)| <= n then |Find(t, f, rx)| else n)
      && Sorting.SortedBy(s, DataDescLe)
      && (forall r :: r in s ==> r.0 in t.rows && r.1 == t.rows[r.0] && Matches(f, r.1, rx))
      && DistinctRows(s)
      && (|Find(t, f, rx)| <= n ==> forall r :: r in Find(t, f, rx) ==> r in s)
      && (forall r, x :: r in Find(t, f, rx) && r !in s && x in s ==> DataDescLe(x, r))
  {
    var found := Find(t, f, rx);
    var sorted := Sorting.Sort(found, DataDescLe);
    var s := FindSortedLimit(t, f, rx, n);
    SortFound(t, f, rx);
    Sorting.TakeSpec(sorted, n);
    FindSpec(t, f, rx);
    PrefixDistinct(sorted, s);
    LimitKeepsTop(found, sorted, s);
  }

  /** A prefix of a list of distinct records holds distinct records, all from that list. */
  lemma PrefixDistinct(sorted: seq<Row>, s: seq<Row>)
    requires DistinctRows(sorted) && |s| <= |sorted| && s == sorted[..|s|]
    ensures DistinctRows(s) && forall r :: r in s ==> r in sorted
  {
    forall i, j | 0 <= i < j < |s| ensures s[i].0 != s[j].0 {
      assert s[i] == sorted[i] && s[j] == sorted[j];
    }
  }

  /** `sort("data", -1)` on `find`'s result: the same records, each once, by non-increasing `data`. */
  lemma SortFound(t: Table, f: Filter, rx: RegexMatch)
    requires Valid(t)
    ensures var sorted := Sorting.Sort(Find(t, f, rx), DataDescLe);
      && Sorting.SortedBy(sorted, DataDescLe)
      && DistinctRows(sorted)
      && (forall r :: r in sorted <==> r in Find(t, f, rx))
  {
    var found := Find(t, f, rx);
    var sorted := Sorting.Sort(found, DataDescLe);
    ValueLeTotal();
    Sorting.SortSorted(found, DataDescLe);
    Sorting.SortPermutation(found, DataDescLe);
    FindSpec(t, f, rx);
    forall r ensures r in sorted <==> r in found {
      assert r in sorted <==> r in multiset(sorted);
      assert r in found <==> r in multiset(found);
    }
    SortedDistinct(t, found, sorted);
  }

  /** The top-n fact of `find(f).sort("data", -1).limit(n)`, stated per stored identifier. */
  lemma FindSortedLimitTop(t: Table, f: Filter, rx: RegexMatch, n: nat)
    requires Valid(t)
    ensures var s := FindSortedLimit(t, f, rx, n);
      forall id, x :: id in Matching(t, f, rx) && (id, t.rows[id]) !in s && x in s ==> DataDescLe(x, (id, t.rows[id]))
  {
    var found := Find(t, f, rx);
    var sorted := Sorting.Sort(found, DataDescLe);
    var s := FindSortedLimit(t, f, rx, n);
    SortFound(t, f, rx);
    Sorting.TakeSpec(sorted, n);
    LimitKeepsTop(found, sorted, s);
    forall id | id in Matching(t, f, rx) ensures (id, t.rows[id]) in found {
      SelectSpec(t.order, t.rows, f, rx, (id, t.rows[id]));
    }
  }

  /** A permutation of `find`'s result lists each record once. */
  lemma SortedDistinct(t: Table, found: seq<Row>, sorted: seq<Row>)
    requires DistinctRows(found) && multiset(sorted) == multiset(found)
    requires forall r :: r in found ==> r.0 in t.rows && r.1 == t.rows[r.0]
    ensures DistinctRows(sorted)
  {
    assert Sorting.NoDups(found) by {
      forall i, j | 0 <= i < j < |found| ensures found[i] != found[j] {
        assert found[i].0 != found[j].0;
      }
    }
    Sorting.PermutationNoDups(found, sorted);
    forall i, j | 0 <= i < j < |sorted| ensures sorted[i].0 != sorted[j].0 {
      assert sorted[i] in multiset(found) && sorted[j] in multiset(found);
      assert sorted[i] in found && sorted[j] in found;
    }
  }

  /** A prefix of a sorted permutation keeps the top records: one left out is no greater than one kept. */
  lemma LimitKeepsTop(found: seq<Row>, sorted: seq<Row>, s: seq<Row>)
    requires Sorting.SortedBy(sorted, DataDescLe) && |s| <= |sorted| && s == sorted[..|s|]
    requires forall r :: r in found ==> r in sorted
    ensures forall r, x :: r in found && r !in s && x in s ==> DataDescLe(x, r)
  {
    ValueLeTransitive();
    Sorting.SortedAll(sorted, DataDescLe);
    forall r, x | r in found && r !in s && x in s ensures DataDescLe(x, r) {
      var k :| 0 <= k < |sorted| && sorted[k] == r;
      var i :| 0 <= i < |s| && s[i] == x;
      assert k >= |s|;
      assert sorted[i] == x;
    }
  }

  /** The identifiers of the stored records a filter matches. */
  ghost function Matching(t: Table, f: Filter, rx: RegexMatch): set<Oid> {
    set id | id in t.rows && Matches(f, t.rows[id], rx)
  }

  /** `find` returns as many records as match. */
  lemma FindCount(t: Table, f: Filter, rx: RegexMatch)
    requires Valid(t)
    ensures |Find(t, f, rx)| == |Matching(t, f, rx)|
  {
    SelectCount(t.order, t.rows, f, rx);
    assert MatchingIds(t.order, t.rows, f, rx) == Matching(t, f, rx);
  }

  lemma {:induction false} SelectCount(ids: seq<Oid>, rows: map<Oid, Doc>, f: Filter, rx: RegexMatch)
    requires Distinct(ids)
    ensures |Select(ids, rows, f, rx)| == |MatchingIds(ids, rows, f, rx)|
  {
    if ids != [] {
      var tail := ids[1..];
      DistinctTail(ids);
      SelectCount(tail, rows, f, rx);
      NotInTail(ids);
      MatchingIdsCons(ids, rows, f, rx);
    }
  }

  /** The identifiers of `ids` whose stored records match. */
  ghost function MatchingIds(ids: seq<Oid>, rows: map<Oid, Doc>, f: Filter, rx: RegexMatch): set<Oid> {
    set id | id in ids && id in rows && Matches(f, rows[id], rx)
  }

  lemma MatchingIdsCons(ids: seq<Oid>, rows: map<Oid, Doc>, f: Filter, rx: RegexMatch)
    requires ids != []
    ensures MatchingIds(ids, rows, f, rx) ==
      MatchingIds(ids[1..], rows, f, rx) + (if ids[0] in rows && Matches(f, rows[ids[0]], rx) then {ids[0]} else {})
  {
    assert forall id :: id in ids <==> id == ids[0] || id in ids[1..] by {
      assert ids == [ids[0]] + ids[1..];
    }
  }

  lemma DistinctTail(ids: seq<Oid>)
    requires ids != [] && Distinct(ids)
    ensures Distinct(ids[1..])
  {
    var tail := ids[1..];
    forall i, j | 0 <= i < j < |tail| ensures tail[i] != tail[j] {
      assert tail[i] == ids[i + 1] && tail[j] == ids[j + 1];
    }
  }

  // ---------------------------------------------------------------------------
  // The collection handle

  class Collection {
    var rows: map<Oid, Doc>
    var order: seq<Oid>

    function View(): Table
      reads this
    {
      Table(rows, order)
    }

    /** The store invariant `Valid`, on the collection's current value. */
    ghost predicate Consistent()
      reads this
    {
      Valid(View())
    }

    constructor ()
      ensures View() == Empty
      ensures Consistent()
    {
      rows := map[];
      order := [];
    }

    method InsertOne(id: Oid, d: Doc)
      requires id !in rows
      modifies this
      ensures View() == Insert(old(View()), id, d)
      ensures old(Consistent()) && "_id" !in d ==> Consistent()
    {
      if Consistent() && "_id" !in d {
        InsertPreservesValid(View(), id, d);
      }
      rows := rows[id := d];
      order := order + [id];
    }

    /** `find(f)`, for a filter of plain equalities. */
    method FindAll(f: map<string, Value>) returns (found: seq<Row>)
      ensures found == FindEq(View(), f)
    {
      found := Select(order, rows, EqFilter(f), NoRegex);
    }

    /** `find(f).sort("data", -1).limit(n)`. */
    method FindSorted(f: Filter, rx: RegexMatch, n: nat) returns (found: seq<Row>)
      ensures found == FindSortedLimit(View(), f, rx, n)
    {
      found := Sorting.Take(Sorting.Sort(Select(order, rows, f, rx), DataDescLe), n);
    }

    method FindOneMatching(f: map<string, Value>) returns (r: Option<Row>)
      ensures r == FindOne(View(), f)
    {
      var found := Select(order, rows, EqFilter(f), NoRegex);
      r := if found == [] then None else Some(found[0]);
    }

    method FindOneById(id: Oid, f: map<string, Value>) returns (r: Option<Doc>)
      ensures r == FindById(View(), id, f)
    {
      r := if id in rows && Matches(EqFilter(f), rows[id], NoRegex) then Some(rows[id]) else None;
    }

    /** `update_one({"_id": id}, {"$set": upd})`; a missing record is left alone. */
    method UpdateOne(id: Oid, upd: Doc)
      modifies this
      ensures View() == if id in old(rows) then SetFields(old(View()), id, upd) else old(View())
      ensures old(Consistent()) && "_id" !in upd ==> Consistent()
    {
      if id in rows {
        if Consistent() && "_id" !in upd {
          SetFieldsPreservesValid(View(), id, upd);
        }
        rows := rows[id := rows[id] + upd];
      }
    }

    /** `delete_one({"_id": id, ...f})`, returning `deleted_count`. */
    method DeleteOne(id: Oid, f: map<string, Value>) returns (deleted: nat)
      modifies this
      ensures deleted == (if FindById(old(View()), id, f).Some? then 1 else 0)
      ensures View() == if deleted == 1 then Delete(old(View()), id) else old(View())
      ensures old(Consistent()) ==> Consistent()
    {
      if id in rows && Matches(EqFilter(f), rows[id], NoRegex) {
        if Consistent() {
          DeletePreservesValid(View(), id);
        }
        rows := rows - {id};
        order := RemoveId(order, id);
        deleted := 1;
      } else {
        deleted := 0;
      }
    }
  }
}
