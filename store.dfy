/**
 * The API server's in-memory database (server/src/data.ts:105-110) and
 * its REST handlers for companies, meetings and tasks
 * (server/src/index.ts:17-120). A record is the JSON object the handlers
 * store, a map from field names to JSON values; the three collections are
 * fields of one `Db` object that the handlers update in place.
 */
module Store {
  import opened Wrappers
  import opened Lists

  /** A JSON value as `bodyParser.json()` produces it (numbers kept as integers). */
  datatype Json =
    | JNull
    | JBool(b: bool)
    | JNum(n: int)
    | JStr(s: string)
    | JList(items: seq<Json>)
    | JObject(fields: map<string, Json>)

  /** A stored record: a JSON object. */
  type Record = map<string, Json>

  /** The record's `id` when it is a string. */
  function IdOf(r: Record): Option<string> {
    if "id" in r && r["id"].JStr? then Some(r["id"].s) else None
  }

  /** `x.id === req.params.id`: only a string id can equal the path parameter. */
  predicate HasId(r: Record, id: string) {
    IdOf(r) == Some(id)
  }

  function IdTest(id: string): Record -> bool {
    (r: Record) => HasId(r, id)
  }

  /** `{ ...a, ...b }`: every field of `b`, and the fields of `a` that `b` does not have. */
  function Spread(a: Record, b: Record): (r: Record)
    ensures r.Keys == a.Keys + b.Keys
    ensures forall k :: k in b ==> r[k] == b[k]
    ensures forall k :: k in a && k !in b ==> r[k] == a[k]
  {
    a + b
  }

  datatype Collection = Companies | Meetings | Tasks

  /** What a handler answers: 200 with a record, 201 with the created record, 204, or 404. */
  datatype Response = Ok(record: Record) | Created(record: Record) | NoContent | NotFound

  function StatusCode(r: Response): nat {
    match r
    case Ok(_) => 200
    case Created(_) => 201
    case NoContent => 204
    case NotFound => 404
  }

  // --------------------------------------------------- the handlers' effect

  /** `find(x => x.id === id)`: the first record with the id. */
  function Lookup(rows: seq<Record>, id: string): (r: Option<Record>)
    ensures r.None? <==> forall j :: 0 <= j < |rows| ==> !HasId(rows[j], id)
    ensures r.Some? ==> HasId(r.value, id) && r.value == rows[FirstIndex(rows, IdTest(id))]
  {
    Find(rows, IdTest(id))
  }

  /**
   * The record a POST stores: the body's fields, then a fresh `id`,
   * and for a company also `createdAt`, each overriding the body's.
   */
  function NewRecord(c: Collection, body: Record, uuid: string, now: string): (r: Record)
    ensures HasId(r, uuid)
    ensures c == Companies ==> "createdAt" in r && r["createdAt"] == JStr(now)
    ensures forall k :: k in body && k != "id" && (c != Companies || k != "createdAt") ==> k in r && r[k] == body[k]
    ensures r.Keys == body.Keys + {"id"} + (if c == Companies then {"createdAt"} else {})
  {
    var stamped := map["id" := JStr(uuid)];
    Spread(body, if c == Companies then stamped["createdAt" := JStr(now)] else stamped)
  }

  /** PUT: the first record with the id becomes `{ ...record, ...body }`; `None` is the 404. */
  function Updated(rows: seq<Record>, id: string, body: Record): Option<seq<Record>> {
    var idx := FirstIndex(rows, IdTest(id));
    if idx == -1 then None else Some(rows[idx := Spread(rows[idx], body)])
  }

  /** DELETE: the first record with the id is spliced out; `None` is the 404. */
  function Deleted(rows: seq<Record>, id: string): Option<seq<Record>> {
    var idx := FirstIndex(rows, IdTest(id));
    if idx == -1 then None else Some(RemoveAt(rows, idx))
  }

  // -------------------------------------------------------------- the store

  /** `db`: the three collections, held in memory. */
  class Db {
    var companies: seq<Record>
    var meetings: seq<Record>
    var tasks: seq<Record>

    /** The server starts with every collection empty. */
    constructor ()
      ensures companies == [] && meetings == [] && tasks == []
    {
      companies, meetings, tasks := [], [], [];
    }

    function Rows(c: Collection): seq<Record>
      reads this
    {
      match c
      case Companies => companies
      case Meetings => meetings
      case Tasks => tasks
    }

    /** Replaces one collection and leaves the other two as they were. */
    method SetRows(c: Collection, rows: seq<Record>)
      modifies this
      ensures Rows(c) == rows
      ensures forall d :: d != c ==> Rows(d) == old(Rows(d))
    {
      match c
      case Companies => companies := rows;
      case Meetings => meetings := rows;
      case Tasks => tasks := rows;
    }

    /** GET `/api/<collection>`: the stored records, in storage order. */
    method GetAll(c: Collection) returns (rows: seq<Record>)
      ensures rows == Rows(c)
    {
      rows := Rows(c);
    }

    /** GET `/api/<collection>/:id`: the first record with the id, or 404. */
    method GetById(c: Collection, id: string) returns (resp: Response)
      ensures resp.NotFound? <==> forall j :: 0 <= j < |Rows(c)| ==> !HasId(Rows(c)[j], id)
      ensures resp.Ok? ==> HasId(resp.record, id) && resp.record == Rows(c)[FirstIndex(Rows(c), IdTest(id))]
      ensures resp.Ok? || resp.NotFound?
    {
      var found := Lookup(Rows(c), id);
      if found.None? {
        resp := NotFound;
      } else {
        resp := Ok(found.value);
      }
    }

    /** POST `/api/<collection>`: appends the new record and answers 201 with it. */
    method Create(c: Collection, body: Record, uuid: string, now: string) returns (resp: Response)
      modifies this
      ensures resp == Created(NewRecord(c, body, uuid, now))
      ensures Rows(c) == old(Rows(c)) + [NewRecord(c, body, uuid, now)]
      ensures forall d :: d != c ==> Rows(d) == old(Rows(d))
    {
      var r := NewRecord(c, body, uuid, now);
      SetRows(c, Rows(c) + [r]);
      resp := Created(r);
    }

    /** PUT `/api/<collection>/:id`: merges the body into the first record with the id, or 404 and nothing changes. */
    method Update(c: Collection, id: string, body: Record) returns (resp: Response)
      modifies this
      ensures Updated(old(Rows(c)), id, body).None? ==> resp == NotFound && Rows(c) == old(Rows(c))
      ensures Updated(old(Rows(c)), id, body).Some? ==>
        Rows(c) == Updated(old(Rows(c)), id, body).value &&
        resp == Ok(Rows(c)[FirstIndex(old(Rows(c)), IdTest(id))])
      ensures forall d :: d != c ==> Rows(d) == old(Rows(d))
    {
      var rows := Rows(c);
      var idx := FirstIndex(rows, IdTest(id));
      if idx == -1 {
        resp := NotFound;
      } else {
        SetRows(c, rows[idx := Spread(rows[idx], body)]);
        resp := Ok(Rows(c)[idx]);
      }
    }

    /** DELETE `/api/<collection>/:id`: splices out the first record with the id and answers 204, or 404 and nothing changes. */
    method Delete(c: Collection, id: string) returns (resp: Response)
      modifies this
      ensures Deleted(old(Rows(c)), id).None? ==> resp == NotFound && Rows(c) == old(Rows(c))
      ensures Deleted(old(Rows(c)), id).Some? ==> resp == NoContent && Rows(c) == Deleted(old(Rows(c)), id).value
      ensures forall d :: d != c ==> Rows(d) == old(Rows(d))
    {
      var rows := Rows(c);
      var idx := FirstIndex(rows, IdTest(id));
      if idx == -1 {
        resp := NotFound;
      } else {
        SetRows(c, RemoveAt(rows, idx));
        resp := NoContent;
      }
    }
  }

  // ----------------------------------------------------------- properties

  /** PUT answers 404 exactly when no record has the id; otherwise it changes only the first such record, into the merge. */
  lemma UpdatedSpec(rows: seq<Record>, id: string, body: Record)
    ensures Updated(rows, id, body).None? <==> forall j :: 0 <= j < |rows| ==> !HasId(rows[j], id)
    ensures Updated(rows, id, body).Some? ==>
      var idx := FirstIndex(rows, IdTest(id));
      var r := Updated(rows, id, body).value;
      && |r| == |rows|
      && HasId(rows[idx], id) && (forall j :: 0 <= j < idx ==> !HasId(rows[j], id))
      && r[idx] == Spread(rows[idx], body)
      && (forall j :: 0 <= j < |rows| && j != idx ==> r[j] == rows[j])
  {
  }

  /** DELETE answers 404 exactly when no record has the id; otherwise it removes only the first such record and keeps the order of the rest. */
  lemma DeletedSpec(rows: seq<Record>, id: string)
    ensures Deleted(rows, id).None? <==> forall j :: 0 <= j < |rows| ==> !HasId(rows[j], id)
    ensures Deleted(rows, id).Some? ==>
      var idx := FirstIndex(rows, IdTest(id));
      var r := Deleted(rows, id).value;
      && |r| == |rows| - 1
      && HasId(rows[idx], id) && (forall j :: 0 <= j < idx ==> !HasId(rows[j], id))
      && (forall j :: 0 <= j < idx ==> r[j] == rows[j])
      && (forall j :: idx <= j < |r| ==> r[j] == rows[j + 1])
  {
    if Deleted(rows, id).Some? {
      var idx := FirstIndex(rows, IdTest(id));
      var r := RemoveAt(rows, idx);
      forall j | 0 <= j < idx
        ensures r[j] == rows[j]
      {
        assert r[j] == r[..idx][j];
      }
      forall j | idx <= j < |r|
        ensures r[j] == rows[j + 1]
      {
        assert r[j] == r[idx..][j - idx];
      }
    }
  }

  /** No two records share a string id. */
  predicate UniqueIds(rows: seq<Record>) {
    forall i, j :: 0 <= i < j < |rows| && IdOf(rows[i]).Some? ==> IdOf(rows[i]) != IdOf(rows[j])
  }

  /** A record created with an id no record has yet is what a GET of that id returns afterwards. */
  lemma CreateThenGet(rows: seq<Record>, c: Collection, body: Record, uuid: string, now: string)
    requires Lookup(rows, uuid).None?
    ensures Lookup(rows + [NewRecord(c, body, uuid, now)], uuid) == Some(NewRecord(c, body, uuid, now))
    ensures UniqueIds(rows) ==> UniqueIds(rows + [NewRecord(c, body, uuid, now)])
  {
    var r := NewRecord(c, body, uuid, now);
    var rs := rows + [r];
    assert forall j :: 0 <= j < |rows| ==> rs[j] == rows[j];
    FirstIndexAppend(rows, r, IdTest(uuid));
  }

  /** Once a record with an id is deleted from records of distinct ids, a GET of that id answers 404. */
  lemma DeleteThenGet(rows: seq<Record>, id: string)
    requires UniqueIds(rows)
    requires Deleted(rows, id).Some?
    ensures Lookup(Deleted(rows, id).value, id).None?
    ensures UniqueIds(Deleted(rows, id).value)
  {
    DeletedSpec(rows, id);
    var idx := FirstIndex(rows, IdTest(id));
    var r := Deleted(rows, id).value;
    forall j | 0 <= j < |r|
      ensures !HasId(r[j], id)
    {
      if j >= idx {
        assert r[j] == rows[j + 1];
        assert IdOf(rows[idx]) != IdOf(rows[j + 1]);
      }
    }
    forall i, j | 0 <= i < j < |r| && IdOf(r[i]).Some?
      ensures IdOf(r[i]) != IdOf(r[j])
    {
      var i' := if i < idx then i else i + 1;
      var j' := if j < idx then j else j + 1;
      assert r[i] == rows[i'] && r[j] == rows[j'];
    }
  }

  /** A PUT whose body has no `id` keeps the ids distinct, and a GET of the id then returns the merged record. */
  lemma UpdateThenGet(rows: seq<Record>, id: string, body: Record)
    requires UniqueIds(rows)
    requires Updated(rows, id, body).Some? && "id" !in body
    ensures var r := Updated(rows, id, body).value;
      Lookup(r, id) == Some(Spread(Lookup(rows, id).value, body)) && UniqueIds(r)
  {
    UpdatedSpec(rows, id, body);
    var idx := FirstIndex(rows, IdTest(id));
    var r := Updated(rows, id, body).value;
    assert forall j :: 0 <= j < |r| ==> IdOf(r[j]) == IdOf(rows[j]);
    assert FirstIndex(r, IdTest(id)) == idx by {
      FirstIndexSame(rows, r, IdTest(id));
    }
  }

  /** A PUT whose body carries a string `id` gives the record that id instead of the one in the path. */
  lemma UpdateTakesBodyId(rows: seq<Record>, id: string, body: Record, other: string)
    requires Updated(rows, id, body).Some? && "id" in body && body["id"] == JStr(other)
    ensures HasId(Updated(rows, id, body).value[FirstIndex(rows, IdTest(id))], other)
  {
  }

  /** Appending a record that fails the test leaves the first match where it was; one that passes is found last if nothing else passes. */
  lemma {:induction false} FirstIndexAppend<T>(xs: seq<T>, x: T, p: T -> bool)
    requires FirstIndex(xs, p) == -1 && p(x)
    ensures FirstIndex(xs + [x], p) == |xs|
    decreases |xs|
  {
    if xs == [] {
      assert xs + [x] == [x];
    } else {
      assert (xs + [x])[1..] == xs[1..] + [x];
      FirstIndexAppend(xs[1..], x, p);
    }
  }

  /** Two sequences whose elements pass the same tests have the same first match. */
  lemma {:induction false} FirstIndexSame<T>(xs: seq<T>, ys: seq<T>, p: T -> bool)
    requires |xs| == |ys| && forall j :: 0 <= j < |xs| ==> p(xs[j]) == p(ys[j])
    ensures FirstIndex(xs, p) == FirstIndex(ys, p)
    decreases |xs|
  {
    if xs != [] {
      FirstIndexSame(xs[1..], ys[1..], p);
    }
  }
}
