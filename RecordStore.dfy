/**
 * The hosted database as the pages see it: one table per record kind, each row
 * addressed by an id the store assigns at insert time. A table answers
 * `select("*").order("created_at", { ascending: false })` with its rows newest
 * first; `insert`, `update(...).eq("id", id)` and `delete().eq("id", id)` are
 * the only writes. Ids are handed out in creation order, so "newest first" is
 * "largest id first".
 */
module RecordStore {

  /**
   * A row identifier assigned by the store. Ids are never 0, so a held id is
   * always truthy: a page that tests its editing id takes the update branch
   * exactly when it holds one.
   */
  type Id = x: nat | x >= 1 witness 1

  /** What a page reports after a user action (the toast it shows). */
  datatype Outcome =
    | Invalid    // a required field was empty; nothing was sent to the store
    | Cancelled  // the confirmation dialog was dismissed
    | Succeeded  // the store accepted the write
    | Failed     // the store reported an error

  /** Rows listed newest first: ids strictly decrease along the listing. */
  ghost predicate NewestFirst<R>(rows: seq<(Id, R)>) {
    forall i, j :: 0 <= i < j < |rows| ==> rows[i].0 > rows[j].0
  }

  /** The ids present in a listing. */
  function Ids<R>(rows: seq<(Id, R)>): set<Id> {
    set i | 0 <= i < |rows| :: rows[i].0
  }

  lemma IdsCons<R>(rows: seq<(Id, R)>)
    requires rows != []
    ensures Ids(rows) == Ids(rows[1..]) + {rows[0].0}
  {
    forall id | id in Ids(rows) ensures id in Ids(rows[1..]) + {rows[0].0} {
      var i :| 0 <= i < |rows| && rows[i].0 == id;
      if i > 0 { assert rows[1..][i - 1].0 == id; }
    }
    forall id | id in Ids(rows[1..]) ensures id in Ids(rows) {
      var i :| 0 <= i < |rows[1..]| && rows[1..][i].0 == id;
      assert rows[i + 1].0 == id;
    }
  }

  /** The id-keyed view of a listing: the abstract table. */
  function Contents<R>(rows: seq<(Id, R)>): (m: map<Id, R>)
    ensures m.Keys == Ids(rows)
  {
    if rows == [] then map[]
    else
      IdsCons(rows);
      Contents(rows[1..])[rows[0].0 := rows[0].1]
  }

  /** The row values of a listing, in listing order. */
  function Values<R>(rows: seq<(Id, R)>): (vs: seq<R>)
    ensures |vs| == |rows|
    ensures forall i :: 0 <= i < |rows| ==> vs[i] == rows[i].1
  {
    if rows == [] then [] else [rows[0].1] + Values(rows[1..])
  }

  /** `update(row).eq("id", id)`: every row with that id gets the new value; nothing else moves. */
  function Replace<R>(rows: seq<(Id, R)>, id: Id, row: R): (r: seq<(Id, R)>)
    ensures |r| == |rows|
    ensures forall i :: 0 <= i < |rows| ==> r[i] == (if rows[i].0 == id then (id, row) else rows[i])
  {
    if rows == [] then []
    else [if rows[0].0 == id then (id, row) else rows[0]] + Replace(rows[1..], id, row)
  }

  /** `delete().eq("id", id)`: exactly the rows without that id remain. */
  function Remove<R>(rows: seq<(Id, R)>, id: Id): (r: seq<(Id, R)>)
    ensures |r| <= |rows|
  {
    if rows == [] then []
    else if rows[0].0 == id then Remove(rows[1..], id)
    else [rows[0]] + Remove(rows[1..], id)
  }

  /** Deleting by id keeps exactly the rows with other ids. */
  lemma {:induction false} RemoveFilters<R>(rows: seq<(Id, R)>, id: Id)
    ensures forall i :: 0 <= i < |Remove(rows, id)| ==> Remove(rows, id)[i] in rows && Remove(rows, id)[i].0 != id
    ensures forall i :: 0 <= i < |rows| && rows[i].0 != id ==> rows[i] in Remove(rows, id)
  {
    if rows != [] {
      RemoveFilters(rows[1..], id);
      var tail := rows[1..];
      assert forall i :: 0 <= i < |tail| ==> tail[i] == rows[i + 1];
    }
  }

  lemma {:induction false} ReplaceContents<R>(rows: seq<(Id, R)>, id: Id, row: R)
    ensures Contents(Replace(rows, id, row))
         == if id in Contents(rows) then Contents(rows)[id := row] else Contents(rows)
  {
    if rows != [] {
      ReplaceContents(rows[1..], id, row);
      ReplaceStep(rows, id, row);
    }
  }

  /** One step of ReplaceContents: from the rest of the listing to the whole of it. */
  lemma ReplaceStep<R>(rows: seq<(Id, R)>, id: Id, row: R)
    requires rows != []
    requires Contents(Replace(rows[1..], id, row))
          == if id in Contents(rows[1..]) then Contents(rows[1..])[id := row] else Contents(rows[1..])
    ensures Contents(Replace(rows, id, row))
         == if id in Contents(rows) then Contents(rows)[id := row] else Contents(rows)
  {
    var tail, r := rows[1..], Replace(rows, id, row);
    assert r[1..] == Replace(tail, id, row);
    var m, k, v := Contents(tail), rows[0].0, rows[0].1;
    var m' := Contents(Replace(tail, id, row));
    assert Contents(rows) == m[k := v];
    if k == id {
      assert r[0] == (id, row);
      assert Contents(r) == m'[id := row];
      UpdateTwice(m, id, v, row);
      if id in m {
        UpdateTwice(m, id, row, row);
      }
    } else {
      assert r[0] == rows[0];
      assert Contents(r) == m'[k := v];
      if id in m {
        UpdateCommutes(m, k, v, id, row);
      }
    }
  }

  lemma UpdateTwice<V>(m: map<Id, V>, k: Id, v: V, w: V)
    ensures m[k := v][k := w] == m[k := w]
  {
  }

  lemma UpdateCommutes<V>(m: map<Id, V>, k: Id, v: V, id: Id, w: V)
    requires k != id
    ensures m[id := w][k := v] == m[k := v][id := w]
  {
  }

  lemma {:induction false} RemoveContents<R>(rows: seq<(Id, R)>, id: Id)
    ensures Contents(Remove(rows, id)) == Contents(rows) - {id}
  {
    if rows != [] {
      RemoveContents(rows[1..], id);
      if rows[0].0 != id {
        RemoveKept(rows, id);
      }
    }
  }

  /** One step of RemoveContents: the first row is kept. */
  lemma RemoveKept<R>(rows: seq<(Id, R)>, id: Id)
    requires rows != [] && rows[0].0 != id
    requires Contents(Remove(rows[1..], id)) == Contents(rows[1..]) - {id}
    ensures Contents(Remove(rows, id)) == Contents(rows) - {id}
  {
    var tail := Remove(rows[1..], id);
    var kept := [rows[0]] + tail;
    assert Remove(rows, id) == kept;
    assert kept[1..] == tail;
    assert Contents(kept) == Contents(tail)[rows[0].0 := rows[0].1];
    RemoveCommutes(Contents(rows[1..]), rows[0].0, rows[0].1, id);
  }

  lemma RemoveCommutes<V>(m: map<Id, V>, k: Id, v: V, id: Id)
    requires k != id
    ensures (m - {id})[k := v] == m[k := v] - {id}
  {
  }

  lemma {:induction false} RemoveNewestFirst<R>(rows: seq<(Id, R)>, id: Id)
    ensures NewestFirst(rows) ==> NewestFirst(Remove(rows, id))
  {
    if rows != [] && NewestFirst(rows) {
      RemoveNewestFirst(rows[1..], id);
      if rows[0].0 != id {
        var r := Remove(rows, id);
        var tail := Remove(rows[1..], id);
        assert r == [rows[0]] + tail;
        RemoveFilters(rows[1..], id);
        forall j | 0 < j < |r| ensures r[0].0 > r[j].0 {
          assert r[j] in tail;
          assert r[j] in rows[1..];
        }
      }
    }
  }

  /** In a newest-first listing the map view holds each row under its own id. */
  lemma {:induction false} ContentsAt<R>(rows: seq<(Id, R)>, k: nat)
    requires NewestFirst(rows) && k < |rows|
    ensures Contents(rows)[rows[k].0] == rows[k].1
  {
    if k > 0 {
      ContentsAt(rows[1..], k - 1);
    }
  }

  /** Every id of a listing is the id of one of its rows. */
  lemma IdAt<R>(rows: seq<(Id, R)>, id: Id) returns (k: nat)
    requires id in Ids(rows)
    ensures k < |rows| && rows[k].0 == id
  {
    k :| 0 <= k < |rows| && rows[k].0 == id;
  }

  /** The row at position k is the only one with its id. */
  ghost predicate OnlyAt<R>(rows: seq<(Id, R)>, k: nat)
    requires k < |rows|
  {
    forall i :: 0 <= i < |rows| && i != k ==> rows[i].0 != rows[k].0
  }

  /** In a newest-first listing every row is the only one with its id. */
  lemma NewestFirstOnlyAt<R>(rows: seq<(Id, R)>, k: nat)
    requires NewestFirst(rows) && k < |rows|
    ensures OnlyAt(rows, k)
  {
  }

  /** Updating by the id of a row that is the only one with it rewrites exactly that row. */
  lemma ReplaceAt<R>(rows: seq<(Id, R)>, k: nat, row: R)
    requires k < |rows| && OnlyAt(rows, k)
    ensures Values(Replace(rows, rows[k].0, row)) == Values(rows)[k := row]
  {
    var r := Values(Replace(rows, rows[k].0, row));
    forall i | 0 <= i < |rows| ensures r[i] == Values(rows)[k := row][i] {
    }
  }

  /** Deleting by the id of a row that is the only one with it cuts out exactly that row. */
  lemma {:induction false} RemoveAt<R>(rows: seq<(Id, R)>, k: nat)
    requires k < |rows| && OnlyAt(rows, k)
    ensures Remove(rows, rows[k].0) == rows[..k] + rows[k + 1..]
  {
    var id := rows[k].0;
    var tail := rows[1..];
    if k == 0 {
      assert forall i :: 0 <= i < |tail| ==> tail[i] == rows[i + 1];
      RemoveAbsent(tail, id);
      assert rows[..k] + rows[k + 1..] == tail;
    } else {
      assert forall i :: 0 <= i < |tail| ==> tail[i] == rows[i + 1];
      assert OnlyAt(tail, k - 1);
      RemoveAt(tail, k - 1);
      assert Remove(rows, id) == [rows[0]] + Remove(tail, id);
      assert [rows[0]] + (tail[..k - 1] + tail[k..]) == rows[..k] + rows[k + 1..];
    }
  }

  /** The values of a listing with one row cut out. */
  lemma ValuesCut<R>(rows: seq<(Id, R)>, k: nat)
    requires k < |rows|
    ensures Values(rows[..k] + rows[k + 1..]) == Values(rows)[..k] + Values(rows)[k + 1..]
  {
    var cut := rows[..k] + rows[k + 1..];
    var vs := Values(rows);
    var rest := vs[..k] + vs[k + 1..];
    forall i | 0 <= i < |cut| ensures rest[i] == cut[i].1 {
      if i < k {
        assert cut[i] == rows[i] && rest[i] == vs[i];
      } else {
        assert cut[i] == rows[i + 1] && rest[i] == vs[i + 1];
      }
    }
    ValuesExt(cut, rest);
  }

  /** A sequence that agrees with a listing's row values position by position is its value list. */
  lemma ValuesExt<R>(rows: seq<(Id, R)>, vs: seq<R>)
    requires |vs| == |rows| && forall i :: 0 <= i < |rows| ==> vs[i] == rows[i].1
    ensures Values(rows) == vs
  {
  }

  /** Deleting under an id the listing does not hold leaves it as it was. */
  lemma {:induction false} RemoveAbsent<R>(rows: seq<(Id, R)>, id: Id)
    requires forall i :: 0 <= i < |rows| ==> rows[i].0 != id
    ensures Remove(rows, id) == rows
  {
    if rows != [] {
      RemoveAbsent(rows[1..], id);
    }
  }

  /** One table of the store: its newest-first listing and the id the next insert receives. */
  datatype Table<R> = Table(rows: seq<(Id, R)>, nextId: Id) {

    ghost predicate Valid() {
      && NewestFirst(rows)
      && forall i :: 0 <= i < |rows| ==> rows[i].0 < nextId
    }

    /** The table as an id-keyed map. */
    function Map(): map<Id, R> {
      Contents(rows)
    }

    /** An empty table. */
    static function Empty(): (t: Table<R>)
      ensures t.Valid() && t.Map() == map[] && t.rows == []
    {
      Table([], 1)
    }

    /** `insert([row])`: the row gets a fresh id and is listed first. */
    function Insert(row: R): (t: Table<R>)
      ensures Valid() ==> t.Valid() && nextId !in Map()
      ensures t.Map() == Map()[nextId := row]
      ensures t.rows == [(nextId, row)] + rows
    {
      Table([(nextId, row)] + rows, nextId + 1)
    }

    /** `update(row).eq("id", id)`: the row under `id`, if there is one, becomes `row`. */
    function Update(id: Id, row: R): (t: Table<R>)
      ensures Valid() ==> t.Valid()
      ensures t.Map() == if id in Map() then Map()[id := row] else Map()
      ensures |t.rows| == |rows|
    {
      ReplaceContents(rows, id, row);
      Table(Replace(rows, id, row), nextId)
    }

    /** `delete().eq("id", id)`: the row under `id`, if there is one, is gone. */
    function Delete(id: Id): (t: Table<R>)
      ensures Valid() ==> t.Valid()
      ensures t.Map() == Map() - {id}
    {
      RemoveContents(rows, id);
      RemoveNewestFirst(rows, id);
      Table(Remove(rows, id), nextId)
    }
  }
}
