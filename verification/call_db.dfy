/**
 * The call store: a SQLite table `calls(id TEXT PRIMARY KEY, to_number, status, timestamp)`
 * seen as a map from id to row. `saveCall` is `INSERT OR REPLACE`, `updateCallStatus` is an
 * `UPDATE ... WHERE id = ?`, and `getCalls` selects every row newest first.
 */
module CallDb {
  import opened Common

  /** A row of the `calls` table; its primary key `id` is the key it is stored under. */
  datatype Row = Row(toNumber: string, status: string, timestamp: int)

  /** The row `saveCall` writes for a call. */
  function RowOf(c: Call): Row {
    Row(c.to, c.status, c.timestamp)
  }

  /** A row as `getCalls` returns it: `to_number` renamed back to `to`, the rest as stored. */
  function Listed(id: string, row: Row): (c: Call)
    ensures c.id == id && RowOf(c) == row
  {
    Call(id, row.toNumber, row.status, row.timestamp)
  }

  /** `UPDATE calls SET status = ? WHERE id = ?`: one row's status, nothing else. */
  function WithStatus(rows: map<string, Row>, id: string, status: string): (r: map<string, Row>)
    ensures r.Keys == rows.Keys
    ensures id in rows ==> r[id] == Row(rows[id].toNumber, status, rows[id].timestamp)
    ensures forall k :: k in rows && k != id ==> r[k] == rows[k]
    ensures id !in rows ==> r == rows
  {
    if id in rows then rows[id := rows[id].(status := status)] else rows
  }

  predicate NewestFirst(cs: seq<Call>) {
    forall i, j :: 0 <= i < j < |cs| ==> cs[i].timestamp >= cs[j].timestamp
  }

  /** No two calls in the list share an id. */
  predicate DistinctIds(cs: seq<Call>) {
    forall i, j :: 0 <= i < j < |cs| ==> cs[i].id != cs[j].id
  }

  /** What `getCalls` returns for a table: every row once, renamed, newest first. */
  ghost predicate IsListing(rows: map<string, Row>, cs: seq<Call>) {
    && |cs| == |rows.Keys|
    && NewestFirst(cs)
    && DistinctIds(cs)
    && (forall i :: 0 <= i < |cs| ==> cs[i].id in rows && cs[i] == Listed(cs[i].id, rows[cs[i].id]))
    && (forall id :: id in rows ==> exists i :: 0 <= i < |cs| && cs[i].id == id)
  }

  /** Places a call among calls sorted newest first, before the first one no newer than it. */
  function InsertNewestFirst(cs: seq<Call>, c: Call): (r: seq<Call>)
    ensures multiset(r) == multiset(cs) + multiset{c}
    ensures |r| == |cs| + 1
    ensures forall x :: x in r <==> x in cs || x == c
  {
    if cs == [] || c.timestamp >= cs[0].timestamp then [c] + cs
    else
      assert cs == [cs[0]] + cs[1..];
      [cs[0]] + InsertNewestFirst(cs[1..], c)
  }

  /** Inserting keeps a newest-first list newest first. */
  lemma {:induction false} InsertKeepsNewestFirst(cs: seq<Call>, c: Call)
    requires NewestFirst(cs)
    ensures NewestFirst(InsertNewestFirst(cs, c))
  {
    if cs != [] && c.timestamp < cs[0].timestamp {
      var rest := InsertNewestFirst(cs[1..], c);
      InsertKeepsNewestFirst(cs[1..], c);
      forall x | x in rest ensures x.timestamp <= cs[0].timestamp {
        if x in cs[1..] {
          var j :| 0 <= j < |cs[1..]| && cs[1..][j] == x;
          assert cs[j + 1] == x;
        }
      }
      var r := [cs[0]] + rest;
      forall i, j | 0 <= i < j < |r| ensures r[i].timestamp >= r[j].timestamp {
        if i > 0 {
          assert r[i] == rest[i - 1] && r[j] == rest[j - 1];
        } else {
          assert r[j] == rest[j - 1];
          assert rest[j - 1] in rest;
        }
      }
    }
  }

  /** Inserting a call whose id is not yet listed keeps the ids distinct. */
  lemma {:induction false} InsertKeepsDistinctIds(cs: seq<Call>, c: Call)
    requires DistinctIds(cs) && forall x :: x in cs ==> x.id != c.id
    ensures DistinctIds(InsertNewestFirst(cs, c))
  {
    if cs != [] && c.timestamp < cs[0].timestamp {
      var rest := InsertNewestFirst(cs[1..], c);
      InsertKeepsDistinctIds(cs[1..], c);
      forall x | x in rest ensures x.id != cs[0].id {
        if x in cs[1..] {
          var j :| 0 <= j < |cs[1..]| && cs[1..][j] == x;
          assert cs[j + 1] == x;
        } else {
          assert cs[0] in cs;
        }
      }
      var r := [cs[0]] + rest;
      forall i, j | 0 <= i < j < |r| ensures r[i].id != r[j].id {
        if i > 0 {
          assert r[i] == rest[i - 1] && r[j] == rest[j - 1];
        } else {
          assert r[j] == rest[j - 1];
          assert rest[j - 1] in rest;
        }
      }
    }
  }

  /** Updating one row's status twice leaves the second status. */
  lemma WithStatusTwice(rows: map<string, Row>, id: string, a: string, b: string)
    ensures WithStatus(WithStatus(rows, id, a), id, b) == WithStatus(rows, id, b)
  {
  }

  /** A call saved with `saveCall` is listed by `getCalls` exactly as it was saved. */
  lemma SavedCallIsListed(rows: map<string, Row>, c: Call, cs: seq<Call>)
    requires IsListing(rows[c.id := RowOf(c)], cs)
    ensures c in cs
  {
    var saved := rows[c.id := RowOf(c)];
    var i :| 0 <= i < |cs| && cs[i].id == c.id;
    assert cs[i] == Listed(c.id, saved[c.id]);
  }

  /** After `updateCallStatus`, the listing shows the new status and the row's other fields as they were. */
  lemma UpdatedCallIsListed(rows: map<string, Row>, id: string, status: string, cs: seq<Call>)
    requires id in rows
    requires IsListing(WithStatus(rows, id, status), cs)
    ensures Call(id, rows[id].toNumber, status, rows[id].timestamp) in cs
    ensures forall c :: c in cs && c.id != id ==> c == Listed(c.id, rows[c.id])
  {
    var i :| 0 <= i < |cs| && cs[i].id == id;
    assert cs[i] == Call(id, rows[id].toNumber, status, rows[id].timestamp);
  }

  class CallStore {
    var rows: map<string, Row>

    constructor ()
      ensures rows == map[]
    {
      rows := map[];
    }

    /** `saveCall`: inserts the call's row, replacing any row with the same id. */
    method SaveCall(c: Call)
      modifies this
      ensures rows == old(rows)[c.id := RowOf(c)]
    {
      rows := rows[c.id := RowOf(c)];
    }

    /** `updateCallStatus`: sets one row's status; an id with no row changes nothing and is no error. */
    method UpdateCallStatus(id: string, status: string)
      modifies this
      ensures rows == WithStatus(old(rows), id, status)
    {
      if id in rows {
        rows := rows[id := rows[id].(status := status)];
      }
    }

    /** `getCalls`: every row, renamed, ordered by timestamp descending. */
    method GetCalls() returns (cs: seq<Call>)
      ensures IsListing(rows, cs)
    {
      cs := [];
      var pending := rows.Keys;
      assert Partial(rows, pending, cs) by {
        assert rows.Keys - pending == {};
      }
      while pending != {}
        invariant pending <= rows.Keys && Partial(rows, pending, cs)
        decreases pending
      {
        var id :| id in pending;
        ListingStep(rows, pending, cs, id);
        cs := InsertNewestFirst(cs, Listed(id, rows[id]));
        pending := pending - {id};
      }
      assert IsListing(rows, cs) by {
        assert rows.Keys - pending == rows.Keys;
      }
    }
  }

  /** A listing in progress: the rows whose ids are not `pending` are listed, renamed, newest first. */
  ghost predicate Partial(rows: map<string, Row>, pending: set<string>, cs: seq<Call>) {
    && |cs| == |rows.Keys - pending|
    && NewestFirst(cs)
    && DistinctIds(cs)
    && (forall i :: 0 <= i < |cs| ==>
          cs[i].id in rows && cs[i].id !in pending && cs[i] == Listed(cs[i].id, rows[cs[i].id]))
    && (forall id :: id in rows && id !in pending ==> exists i :: 0 <= i < |cs| && cs[i].id == id)
  }

  /** Listing one more pending row keeps a listing in progress. */
  lemma ListingStep(rows: map<string, Row>, pending: set<string>, cs: seq<Call>, id: string)
    requires pending <= rows.Keys && Partial(rows, pending, cs) && id in pending
    ensures Partial(rows, pending - {id}, InsertNewestFirst(cs, Listed(id, rows[id])))
  {
    var next := InsertNewestFirst(cs, Listed(id, rows[id]));
    InsertKeepsNewestFirst(cs, Listed(id, rows[id]));
    InsertKeepsDistinctIds(cs, Listed(id, rows[id]));
    forall k | k in rows && k !in pending - {id} ensures exists i :: 0 <= i < |next| && next[i].id == k {
      if k == id {
        assert Listed(id, rows[id]) in next;
      } else {
        var i :| 0 <= i < |cs| && cs[i].id == k;
        assert cs[i] in next;
      }
    }
    forall i | 0 <= i < |next| ensures next[i].id in rows && next[i].id !in pending - {id}
                                      && next[i] == Listed(next[i].id, rows[next[i].id]) {
      assert next[i] in next;
    }
    assert rows.Keys - (pending - {id}) == (rows.Keys - pending) + {id};
  }
}
