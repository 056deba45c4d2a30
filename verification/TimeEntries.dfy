/** The time_entries table and its store (internal/timeentry/store.go).

    Slot i of the table holds the row with id i. `None` is an id drawn by an insert that did not
    commit; the length of the table is the next value of the id sequence. Each SQL statement is
    one atomic change of the table. */
module TimeEntries {
  import opened Options
  import opened Columns
  import Chains

  /** The columns the handler supplies; no statement ever changes them. */
  datatype Entry = Entry(
    userId: int, username: string, repo: string, issue: int,
    minutes: int, description: string, clientId: Option<int>,
    commentId: int, commentUrl: string, createdBy: string, labels: seq<string>)

  datatype Row = Row(entry: Entry, status: Status, supersededBy: Option<nat>, createdAt: int)

  type Table = seq<Option<Row>>

  /** One person's time on one issue. */
  datatype Key = Key(userId: int, repo: string, issue: int)

  function KeyOf(e: Entry): Key {
    Key(e.userId, e.repo, e.issue)
  }

  predicate Has(t: Table, id: int) {
    0 <= id < |t| && t[id].Some?
  }

  predicate ActiveAt(t: Table, id: int, key: Key) {
    Has(t, id) && t[id].value.status.Active? && KeyOf(t[id].value.entry) == key
  }

  function LinksOf(t: Table): (L: Chains.Links)
    ensures |L| == |t|
  {
    seq(|t|, i requires 0 <= i < |t| =>
      match t[i] case None => Chains.Gap case Some(r) => Chains.Linked(r.supersededBy))
  }

  predicate Points(t: Table, i: int, j: int) {
    Has(t, i) && t[i].value.supersededBy.Some? && t[i].value.supersededBy.value == j
  }

  // ---- the statements, as functions on the table ------------------------------------

  /** The new row is active and gets the next id. */
  function Inserted(t: Table, e: Entry, now: int): Table {
    t + [Some(Row(e, Active, None, now))]
  }

  /** An id was drawn but its insert rolled back. */
  function Burned(t: Table): Table {
    t + [None]
  }

  /** The old row is marked superseded and points at the new one. */
  function Linked(t: Table, oldId: int, newId: nat): Table {
    if Has(t, oldId)
    then t[oldId := Some(t[oldId].value.(status := Superseded, supersededBy := Some(newId)))]
    else t
  }

  /** The row is marked deleted; its pointer, if any, stays. */
  function SoftDeleted(t: Table, id: int): Table {
    if Has(t, id) then t[id := Some(t[id].value.(status := Deleted))] else t
  }

  /** A row that the newest-first lookup may return. */
  predicate IsLatestActive(t: Table, key: Key, id: int) {
    && ActiveAt(t, id, key)
    && forall j :: 0 <= j < |t| && ActiveAt(t, j, key) ==> t[j].value.createdAt <= t[id].value.createdAt
  }

  // ---- the ledger invariant -----------------------------------------------------------

  /** What holds of the table after every step of every run: pointers go to later rows of the
      same key and client, no row is pointed at twice, an active row has no pointer and a
      superseded one has. */
  ghost predicate Ledger(t: Table) {
    && (forall i, j {:trigger Points(t, i, j)} :: Points(t, i, j) ==>
      && i < j && Has(t, j)
      && KeyOf(t[i].value.entry) == KeyOf(t[j].value.entry)
      && t[i].value.entry.clientId == t[j].value.entry.clientId)
    && (forall i, k, j {:trigger Points(t, i, j), Points(t, k, j)} :: Points(t, i, j) && Points(t, k, j) ==> i == k)
    && (forall i {:trigger t[i]} :: Has(t, i) ==>
      && (t[i].value.status.Active? ==> t[i].value.supersededBy.None?)
      && (t[i].value.status.Superseded? ==> t[i].value.supersededBy.Some?))
  }

  lemma LedgerLinks(t: Table)
    requires Ledger(t)
    ensures Chains.WellLinked(LinksOf(t))
  {
    var L := LinksOf(t);
    assert forall i, j :: Chains.PointsTo(L, i, j) ==> Points(t, i, j);
    assert forall i :: Has(t, i) ==> Chains.Present(L, i);
  }

  /** History only grows: a row is never removed, the columns the handler supplied and
      created_at never change, and a row that is active now has never been anything else: no row
      becomes active again. */
  ghost predicate Extends(t: Table, later: Table) {
    && |t| <= |later|
    && forall i {:trigger later[i]} :: 0 <= i < |t| ==>
      match t[i]
      case None => later[i].None?
      case Some(r) =>
        && later[i].Some?
        && later[i].value.entry == r.entry && later[i].value.createdAt == r.createdAt
        && (later[i].value.status.Active? ==> later[i] == t[i])
  }

  lemma ExtendsTransitive(a: Table, b: Table, c: Table)
    requires Extends(a, b) && Extends(b, c)
    ensures Extends(a, c)
  {
  }

  lemma InsertedKeeps(t: Table, e: Entry, now: int)
    requires Ledger(t)
    ensures Ledger(Inserted(t, e, now)) && Extends(t, Inserted(t, e, now))
    ensures Has(Inserted(t, e, now), |t|) && forall i :: !Points(Inserted(t, e, now), i, |t|)
  {
    var u := Inserted(t, e, now);
    assert forall i, j :: Points(u, i, j) ==> Points(t, i, j);
  }

  lemma BurnedKeeps(t: Table)
    requires Ledger(t)
    ensures Ledger(Burned(t)) && Extends(t, Burned(t))
  {
    var u := Burned(t);
    assert forall i, j :: Points(u, i, j) ==> Points(t, i, j);
  }

  /** Supersede keeps the ledger when the new row is later, of the same key and client, and not
      yet pointed at, whatever has meanwhile happened to the old row. */
  lemma LinkedKeeps(t: Table, oldId: nat, newId: nat)
    requires Ledger(t) && Has(t, oldId) && Has(t, newId) && oldId < newId
    requires KeyOf(t[oldId].value.entry) == KeyOf(t[newId].value.entry)
    requires t[oldId].value.entry.clientId == t[newId].value.entry.clientId
    requires forall i :: !Points(t, i, newId)
    ensures Ledger(Linked(t, oldId, newId)) && Extends(t, Linked(t, oldId, newId))
  {
    var u := Linked(t, oldId, newId);
    assert forall i, j :: Points(u, i, j) ==> if i == oldId then j == newId else Points(t, i, j);
  }

  lemma SoftDeletedKeeps(t: Table, id: int)
    requires Ledger(t)
    ensures Ledger(SoftDeleted(t, id)) && Extends(t, SoftDeleted(t, id))
  {
    var u := SoftDeleted(t, id);
    assert forall i, j :: Points(u, i, j) ==> Points(t, i, j);
  }

  /** id is an active row of the key with the largest created_at among the first n slots. */
  predicate LatestAmong(t: Table, key: Key, n: nat, id: int)
    requires n <= |t|
  {
    && 0 <= id < n && ActiveAt(t, id, key)
    && forall j :: 0 <= j < n && ActiveAt(t, j, key) ==> t[j].value.createdAt <= t[id].value.createdAt
  }

  /** The latest active row of a key among the first n slots; the larger id wins a tie. */
  function Latest(t: Table, key: Key, n: nat): (id: Option<nat>)
    requires n <= |t|
    ensures id.None? ==> forall i :: 0 <= i < n ==> !ActiveAt(t, i, key)
    ensures id.Some? ==> LatestAmong(t, key, n, id.value)
  {
    if n == 0 then None
    else
      var best := Latest(t, key, n - 1);
      if ActiveAt(t, n - 1, key) && (best.None? || t[n - 1].value.createdAt >= t[best.value].value.createdAt)
      then Some(n - 1)
      else best
  }

  // ---- the store -------------------------------------------------------------------------

  datatype Found = Found(id: nat, row: Row)

  function Ids(chain: seq<Found>): (ids: seq<nat>)
    ensures |ids| == |chain|
  {
    seq(|chain|, k requires 0 <= k < |chain| => chain[k].id)
  }

  /** Every collected entry is the row the table holds under that id. */
  predicate RowsOf(t: Table, chain: seq<Found>) {
    forall k :: 0 <= k < |chain| ==> Has(t, chain[k].id) && t[chain[k].id].value == chain[k].row
  }

  /** The rows collected for a chain: each points at the next, the last nowhere, nobody at the first. */
  lemma ChainRows(t: Table, chain: seq<Found>, id: int)
    requires Chains.WellLinked(LinksOf(t)) && Ids(chain) == Chains.Chain(LinksOf(t), id) && RowsOf(t, chain)
    ensures if 0 <= id < |t| && t[id].Some? then
        && (exists k :: 0 <= k < |chain| && chain[k].id == id)
        && (forall k :: 0 <= k < |chain| ==> chain[k].id < |t| && t[chain[k].id] == Some(chain[k].row))
        && (forall k :: 0 <= k < |chain| - 1 ==> chain[k].row.supersededBy == Some(chain[k + 1].id))
        && chain[|chain| - 1].row.supersededBy == None
        && (forall i :: 0 <= i < |t| && t[i].Some? ==> t[i].value.supersededBy != Some(chain[0].id))
      else chain == []
  {
    var L := LinksOf(t);
    if Chains.Present(L, id) {
      Chains.ChainIsChain(L, id);
      hide Chains.WellLinked;
      ChainLinks(t, chain, id);
    }
  }

  lemma ChainLinks(t: Table, chain: seq<Found>, id: int)
    requires Chains.WellLinked(LinksOf(t)) && Ids(chain) == Chains.Chain(LinksOf(t), id) && RowsOf(t, chain)
    requires Chains.IsChain(LinksOf(t), Ids(chain)) && id in Ids(chain)
    ensures exists k :: 0 <= k < |chain| && chain[k].id == id
    ensures forall k :: 0 <= k < |chain| - 1 ==> chain[k].row.supersededBy == Some(chain[k + 1].id)
    ensures |chain| > 0 && chain[|chain| - 1].row.supersededBy == None
    ensures forall i :: 0 <= i < |t| && t[i].Some? ==> t[i].value.supersededBy != Some(chain[0].id)
  {
    hide Chains.WellLinked, Chains.Chain;
    var L, c := LinksOf(t), Ids(chain);
    var k :| 0 <= k < |c| && c[k] == id;
    assert chain[k].id == id;
    forall k | 0 <= k < |chain| - 1
      ensures chain[k].row.supersededBy == Some(chain[k + 1].id)
    {
      assert Chains.PointsTo(L, c[k], c[k + 1]);
    }
    assert L[c[|c| - 1]].next.None?;
    forall i | 0 <= i < |t| && t[i].Some?
      ensures t[i].value.supersededBy != Some(chain[0].id)
    {
      assert !Chains.PointsTo(L, i, c[0]);
    }
  }

  class TimeStore {
    var table: Table

    /** Ids start at 1. */
    constructor ()
      ensures table == [None] && Ledger(table)
    {
      table := [None];
    }

    method Create(e: Entry, now: int) returns (id: Option<nat>)
      modifies this
      ensures id == if FitsInt4(e.minutes) then Some(|old(table)|) else None
      ensures table == if FitsInt4(e.minutes) then Inserted(old(table), e, now) else old(table)
      ensures old(Ledger(table)) ==> Ledger(table) && Extends(old(table), table)
    {
      ghost var before := table;
      if !FitsInt4(e.minutes) { return None; }
      id := Some(|table|);
      table := table + [Some(Row(e, Active, None, now))];
      if Ledger(before) { InsertedKeeps(before, e, now); }
    }

    /** Which of several rows with the same created_at comes back is up to the database. */
    method FindLatestActive(key: Key) returns (id: Option<nat>)
      ensures id.Some? ==> IsLatestActive(table, key, id.value)
      ensures id.None? <==> forall i :: 0 <= i < |table| ==> !ActiveAt(table, i, key)
    {
      ghost var latest := Latest(table, key, |table|);
      assert latest.Some? ==> IsLatestActive(table, key, latest.value);
      if i :| 0 <= i < |table| && IsLatestActive(table, key, i) {
        id := Some(i);
      } else {
        id := None;
      }
    }

    /** The foreign key on superseded_by refuses an id without a row. */
    method Supersede(oldId: nat, newId: nat) returns (ok: bool)
      modifies this
      ensures ok <==> (old(Has(table, oldId)) ==> old(Has(table, newId)))
      ensures table == if ok then Linked(old(table), oldId, newId) else old(table)
    {
      if Has(table, oldId) && !Has(table, newId) { return false; }
      if Has(table, oldId) {
        table := table[oldId := Some(table[oldId].value.(status := Superseded, supersededBy := Some(newId)))];
      }
      ok := true;
    }

    method SoftDelete(id: nat)
      modifies this
      ensures table == SoftDeleted(old(table), id)
      ensures old(Ledger(table)) ==> Ledger(table) && Extends(old(table), table)
    {
      ghost var before := table;
      if Has(table, id) {
        table := table[id := Some(table[id].value.(status := Deleted))];
      }
      if Ledger(before) { SoftDeletedKeeps(before, id); }
    }

    method GetByID(id: int) returns (row: Option<Row>)
      ensures row == if Has(table, id) then table[id] else None
    {
      row := if Has(table, id) then table[id] else None;
    }

    /** The row that points at id. */
    method Predecessor(id: int) returns (p: Option<nat>)
      ensures p.Some? ==> Points(table, p.value, id)
      ensures p.None? ==> forall i :: !Points(table, i, id)
    {
      if i :| 0 <= i < |table| && Points(table, i, id) {
        p := Some(i);
      } else {
        p := None;
      }
    }

    /** The walk back: to the row nobody points at. */
    method FindRoot(id: int) returns (rootId: int)
      requires Ledger(table)
      ensures Chains.WellLinked(LinksOf(table))
      ensures if Has(table, id) then Has(table, rootId) && rootId == Chains.Root(LinksOf(table), id) else rootId == id
    {
      LedgerLinks(table);
      ghost var L := LinksOf(table);
      rootId := id;
      var prev := Predecessor(rootId);
      while prev.Some?
        invariant Has(table, id) <==> Has(table, rootId)
        invariant !Has(table, id) ==> rootId == id
        invariant Has(table, id) ==> Chains.Root(L, rootId) == Chains.Root(L, id)
        invariant prev.Some? ==> Points(table, prev.value, rootId)
        invariant prev.None? ==> forall i :: !Points(table, i, rootId)
        decreases if prev.Some? then prev.value + 1 else 0
      {
        assert Chains.PointsTo(L, prev.value, rootId);
        Chains.RootUnique(L, prev.value, rootId);
        rootId := prev.value;
        prev := Predecessor(rootId);
      }
      assert forall p :: Chains.PointsTo(L, p, rootId) ==> Points(table, p, rootId);
    }

    /** Walk back to the root, then forward, collecting the rows. On every ledger both loops
        end, and the rows are exactly the chain of id. */
    method GetCorrectionChain(id: int) returns (chain: seq<Found>)
      requires Ledger(table)
      ensures Chains.WellLinked(LinksOf(table))
      ensures Ids(chain) == Chains.Chain(LinksOf(table), id)
      ensures RowsOf(table, chain)
      ensures if 0 <= id < |table| && table[id].Some? then
          && (exists k :: 0 <= k < |chain| && chain[k].id == id)
          && (forall k :: 0 <= k < |chain| ==> chain[k].id < |table| && table[chain[k].id] == Some(chain[k].row))
          && (forall k :: 0 <= k < |chain| - 1 ==> chain[k].row.supersededBy == Some(chain[k + 1].id))
          && chain[|chain| - 1].row.supersededBy == None
          && (forall i :: 0 <= i < |table| && table[i].Some? ==> table[i].value.supersededBy != Some(chain[0].id))
        else chain == []
    {
      hide Ledger, Chains.Root, Chains.WellLinked;
      var current := FindRoot(id);
      ghost var L := LinksOf(table);
      chain := [];
      var row := GetByID(current);
      while row.Some?
        invariant row.Some? ==> Has(table, current) && table[current] == row
        invariant row.Some? ==> Ids(chain) + Chains.Forward(L, current) == Chains.Chain(L, id)
        invariant row.None? ==> Ids(chain) == Chains.Chain(L, id)
        invariant RowsOf(table, chain)
        decreases if row.Some? then |table| - current else -1
      {
        ghost var before := Ids(chain);
        chain := chain + [Found(current, row.value)];
        assert Ids(chain) == before + [current];
        match row.value.supersededBy
        case None =>
          row := None;
        case Some(next) =>
          Chains.PointerForward(L, current, next);
          assert before + ([current as nat] + Chains.Forward(L, next)) == Ids(chain) + Chains.Forward(L, next);
          current := next;
          row := GetByID(current);
      }
      ChainRows(table, chain, id);
    }
  }
}
