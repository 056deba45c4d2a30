/** The plan_entries table and its store (internal/planentry/store.go), with the partial unique
    index that allows one active plan per issue (migrations/000007). Slots as in TimeEntries. */
module PlanEntries {
  import opened Options
  import opened Columns
  import Chains

  datatype Entry = Entry(
    userId: int, username: string, repo: string, issue: int,
    minutes: int, description: string,
    commentId: int, commentUrl: string, createdBy: string, labels: seq<string>)

  datatype Closing = Closing(commentId: int, commentUrl: string)

  datatype Row = Row(entry: Entry, status: Status, supersededBy: Option<nat>, closing: Option<Closing>, createdAt: int)

  type Table = seq<Option<Row>>

  datatype Issue = Issue(repo: string, number: int)

  function IssueOf(e: Entry): Issue {
    Issue(e.repo, e.issue)
  }

  predicate Has(t: Table, id: int) {
    0 <= id < |t| && t[id].Some?
  }

  predicate ActiveAt(t: Table, id: int, issue: Issue) {
    Has(t, id) && t[id].value.status.Active? && IssueOf(t[id].value.entry) == issue
  }

  function LinksOf(t: Table): (L: Chains.Links)
    ensures |L| == |t|
  {
    seq(|t|, i requires 0 <= i < |t| =>
      match t[i] case None => Chains.Gap case Some(r) => Chains.Linked(r.supersededBy))
  }

  predicate Points(t: Table, i: int, j: int) {
    Has(t, i) && t[i].value.supersededBy.Some? && t[i].value.supersededBy.value == j
  }

  // ---- the statements ------------------------------------------------------------------

  /** The row is marked superseded. */
  function Marked(t: Table, id: int): Table {
    if Has(t, id) then t[id := Some(t[id].value.(status := Superseded))] else t
  }

  function Inserted(t: Table, e: Entry, now: int): Table {
    t + [Some(Row(e, Active, None, None, now))]
  }

  /** The old row gets its pointer to the new one. */
  function Linked(t: Table, oldId: int, newId: nat): Table {
    if Has(t, oldId) then t[oldId := Some(t[oldId].value.(supersededBy := Some(newId)))] else t
  }

  function Burned(t: Table): Table {
    t + [None]
  }

  /** The row is marked deleted, with the comment that closed it. */
  function SoftDeleted(t: Table, id: int, closing: Closing): Table {
    if Has(t, id) then t[id := Some(t[id].value.(status := Deleted, closing := Some(closing)))] else t
  }

  /** The whole transaction of ReplacePlan, committed. */
  function Replaced(t: Table, prev: Option<nat>, e: Entry, now: int): Table {
    match prev
    case None => Inserted(t, e, now)
    case Some(p) => Linked(Inserted(Marked(t, p), e, now), p, |t|)
  }

  /** The insert inside ReplacePlan passes the column type and the unique index: no other plan
      than the one being replaced is active on the issue. */
  predicate ReplaceAllowed(t: Table, prev: Option<nat>, e: Entry) {
    && FitsInt4(e.minutes)
    && forall i :: 0 <= i < |t| && ActiveAt(t, i, IssueOf(e)) ==> prev == Some(i)
  }

  // ---- the ledger invariant ----------------------------------------------------------------

  /** At most one active plan per issue. */
  ghost predicate OneActive(t: Table) {
    forall i, j, issue {:trigger ActiveAt(t, i, issue), ActiveAt(t, j, issue)} ::
      ActiveAt(t, i, issue) && ActiveAt(t, j, issue) ==> i == j
  }

  ghost predicate Ledger(t: Table) {
    && (forall i, j {:trigger Points(t, i, j)} :: Points(t, i, j) ==>
      i < j && Has(t, j) && IssueOf(t[i].value.entry) == IssueOf(t[j].value.entry))
    && (forall i, k, j {:trigger Points(t, i, j), Points(t, k, j)} :: Points(t, i, j) && Points(t, k, j) ==> i == k)
    && (forall i {:trigger t[i]} :: Has(t, i) ==>
      && (t[i].value.status.Active? ==> t[i].value.supersededBy.None? && t[i].value.closing.None?)
      && (t[i].value.status.Superseded? ==> t[i].value.supersededBy.Some?)
      && (t[i].value.status.Deleted? ==> t[i].value.closing.Some?))
    && OneActive(t)
  }

  lemma LedgerLinks(t: Table)
    requires Ledger(t)
    ensures Chains.WellLinked(LinksOf(t))
  {
    var L := LinksOf(t);
    assert forall i, j :: Chains.PointsTo(L, i, j) ==> Points(t, i, j);
    assert forall i :: Has(t, i) ==> Chains.Present(L, i);
  }

  /** History only grows; see TimeEntries.Extends. */
  ghost predicate Extends(t: Table, later: Table) {
    && |t| <= |later|
    && forall i {:trigger later[i]} :: 0 <= i < |t| ==>
      match t[i]
      case None => later[i].None?
      case Some(r) =>
        && later[i].Some?
        && later[i].value.entry == r.entry && later[i].value.createdAt == r.createdAt
        && (later[i].value.status.Active? ==> later[i] == t[i])
  }

  lemma ExtendsTransitive(a: Table, b: Table, c: Table)
    requires Extends(a, b) && Extends(b, c)
    ensures Extends(a, c)
  {
  }

  lemma BurnedKeeps(t: Table)
    requires Ledger(t)
    ensures Ledger(Burned(t)) && Extends(t, Burned(t))
  {
    var u := Burned(t);
    assert forall i, j :: Points(u, i, j) ==> Points(t, i, j);
    assert forall i, issue :: ActiveAt(u, i, issue) ==> ActiveAt(t, i, issue);
  }

  lemma SoftDeletedKeeps(t: Table, id: int, closing: Closing)
    requires Ledger(t)
    ensures Ledger(SoftDeleted(t, id, closing)) && Extends(t, SoftDeleted(t, id, closing))
  {
    var u := SoftDeleted(t, id, closing);
    assert forall i, j :: Points(u, i, j) ==> Points(t, i, j);
    assert forall i, issue :: ActiveAt(u, i, issue) ==> ActiveAt(t, i, issue);
  }

  /** A committed ReplacePlan keeps the ledger, whatever has happened since the plan to replace
      was looked up: it may have been superseded or deleted in between. */
  lemma ReplacedKeeps(t: Table, prev: Option<nat>, e: Entry, now: int)
    requires Ledger(t) && ReplaceAllowed(t, prev, e)
    requires prev.Some? ==> Has(t, prev.value) && IssueOf(t[prev.value].value.entry) == IssueOf(e)
    ensures Ledger(Replaced(t, prev, e, now)) && Extends(t, Replaced(t, prev, e, now))
    ensures ActiveAt(Replaced(t, prev, e, now), |t|, IssueOf(e))
  {
    var u := Replaced(t, prev, e, now);
    assert forall i, j :: Points(u, i, j) ==> if prev == Some(i) then j == |t| else Points(t, i, j);
    assert forall i, issue :: ActiveAt(u, i, issue) ==>
      if i == |t| then issue == IssueOf(e) else ActiveAt(t, i, issue) && prev != Some(i);
  }

  // ---- the store ---------------------------------------------------------------------------

  /** The statement of the ReplacePlan transaction that fails, if any. */
  datatype Fault = NoFault | AtBegin | AtMark | AtInsert | AtLink | AtCommit

  /** Without a plan to replace, the two updates are not sent. */
  predicate Strikes(fault: Fault, prev: Option<nat>) {
    !fault.NoFault? && (fault.AtMark? || fault.AtLink? ==> prev.Some?)
  }

  /** The slot holds a row of the issue the new entry is for. */
  predicate OnSameIssue(slot: Option<Row>, e: Entry) {
    slot.Some? && slot.value.entry.repo == e.repo && slot.value.entry.issue == e.issue
  }

  /** What is left in a slot by a committed ReplacePlan. */
  function NowSupersededBy(slot: Option<Row>, newId: nat, replaced: bool): Option<Row> {
    if replaced && slot.Some?
    then Some(slot.value.(status := Superseded, supersededBy := Some(newId))) else slot
  }

  datatype Found = Found(id: nat, row: Row)

  function Ids(chain: seq<Found>): (ids: seq<nat>)
    ensures |ids| == |chain|
  {
    seq(|chain|, k requires 0 <= k < |chain| => chain[k].id)
  }

  /** Every collected entry is the row the table holds under that id. */
  predicate RowsOf(t: Table, chain: seq<Found>) {
    forall k :: 0 <= k < |chain| ==> Has(t, chain[k].id) && t[chain[k].id].value == chain[k].row
  }

  /** The rows collected for a chain: each points at the next, the last nowhere, nobody at the first. */
  lemma ChainRows(t: Table, chain: seq<Found>, id: int)
    requires Chains.WellLinked(LinksOf(t)) && Ids(chain) == Chains.Chain(LinksOf(t), id) && RowsOf(t, chain)
    ensures if 0 <= id < |t| && t[id].Some? then
        && (exists k :: 0 <= k < |chain| && chain[k].id == id)
        && (forall k :: 0 <= k < |chain| ==> chain[k].id < |t| && t[chain[k].id] == Some(chain[k].row))
        && (forall k :: 0 <= k < |chain| - 1 ==> chain[k].row.supersededBy == Some(chain[k + 1].id))
        && chain[|chain| - 1].row.supersededBy == None
        && (forall i :: 0 <= i < |t| && t[i].Some? ==> t[i].value.supersededBy != Some(chain[0].id))
      else chain == []
  {
    var L := LinksOf(t);
    if Chains.Present(L, id) {
      Chains.ChainIsChain(L, id);
      hide Chains.WellLinked;
      ChainLinks(t, chain, id);
    }
  }

  lemma ChainLinks(t: Table, chain: seq<Found>, id: int)
    requires Chains.WellLinked(LinksOf(t)) && Ids(chain) == Chains.Chain(LinksOf(t), id) && RowsOf(t, chain)
    requires Chains.IsChain(LinksOf(t), Ids(chain)) && id in Ids(chain)
    ensures exists k :: 0 <= k < |chain| && chain[k].id == id
    ensures forall k :: 0 <= k < |chain| - 1 ==> chain[k].row.supersededBy == Some(chain[k + 1].id)
    ensures |chain| > 0 && chain[|chain| - 1].row.supersededBy == None
    ensures forall i :: 0 <= i < |t| && t[i].Some? ==> t[i].value.supersededBy != Some(chain[0].id)
  {
    hide Chains.WellLinked, Chains.Chain;
    var L, c := LinksOf(t), Ids(chain);
    var k :| 0 <= k < |c| && c[k] == id;
    assert chain[k].id == id;
    forall k | 0 <= k < |chain| - 1
      ensures chain[k].row.supersededBy == Some(chain[k + 1].id)
    {
      assert Chains.PointsTo(L, c[k], c[k + 1]);
    }
    assert L[c[|c| - 1]].next.None?;
    forall i | 0 <= i < |t| && t[i].Some?
      ensures t[i].value.supersededBy != Some(chain[0].id)
    {
      assert !Chains.PointsTo(L, i, c[0]);
    }
  }

  class PlanStore {
    var table: Table

    constructor ()
      ensures table == [None] && Ledger(table)
    {
      table := [None];
    }

    method FindActive(issue: Issue) returns (id: Option<nat>)
      ensures id.Some? ==> ActiveAt(table, id.value, issue)
      ensures id.None? <==> forall i :: 0 <= i < |table| ==> !ActiveAt(table, i, issue)
    {
      if i :| 0 <= i < |table| && ActiveAt(table, i, issue) {
        id := Some(i);
      } else {
        id := None;
      }
    }

    /** All or nothing: the transaction works on its own version of the table and either becomes
        the table as a whole or leaves no trace but the id it drew. It commits exactly when no
        statement fails and the insert is allowed. */
    method ReplacePlan(prev: Option<nat>, e: Entry, now: int, fault: Fault) returns (id: Option<nat>)
      modifies this
      ensures id.Some? <==> !Strikes(fault, prev) && ReplaceAllowed(old(table), prev, e)
      ensures id.Some? ==> id.value == |old(table)| && table == Replaced(old(table), prev, e, now)
      ensures id.Some? <==>
        && (fault.NoFault? || ((fault.AtMark? || fault.AtLink?) && prev.None?))
        && -2147483648 <= e.minutes <= 2147483647
        && forall i :: 0 <= i < |old(table)| && OnSameIssue(old(table)[i], e) && prev != Some(i) ==>
          old(table)[i].value.status != Active
      ensures id.Some? ==> |table| == |old(table)| + 1
      ensures id.Some? && prev != id ==> table[id.value] == Some(
        Row(entry := e, status := Active, supersededBy := None, closing := None, createdAt := now))
      ensures id.Some? ==> forall i :: 0 <= i < |old(table)| ==>
        table[i] == NowSupersededBy(old(table)[i], id.value, prev == Some(i))
      ensures id.None? ==> table == old(table) || table == Burned(old(table))
      ensures !FitsInt4(e.minutes) ==> table == old(table)
    {
      if fault.AtBegin? { return None; }
      var tx := table;

      if prev.Some? {
        if fault.AtMark? { return None; }
        if Has(tx, prev.value) { tx := tx[prev.value := Some(tx[prev.value].value.(status := Superseded))]; }
      }
      assert forall i, issue :: ActiveAt(tx, i, issue) <==> ActiveAt(table, i, issue) && prev != Some(i);

      if !FitsInt4(e.minutes) { return None; }
      if fault.AtInsert? || exists i :: 0 <= i < |tx| && ActiveAt(tx, i, IssueOf(e)) {
        table := table + [None];
        return None;
      }
      var newId := |tx|;
      tx := tx + [Some(Row(e, Active, None, None, now))];

      if prev.Some? {
        if fault.AtLink? {
          table := table + [None];
          return None;
        }
        if Has(tx, prev.value) { tx := tx[prev.value := Some(tx[prev.value].value.(supersededBy := Some(newId)))]; }
      }

      if fault.AtCommit? {
        table := table + [None];
        return None;
      }
      table := tx;
      id := Some(newId);
    }

    method SoftDelete(id: nat, closing: Closing)
      modifies this
      ensures table == SoftDeleted(old(table), id, closing)
      ensures old(Ledger(table)) ==> Ledger(table) && Extends(old(table), table)
    {
      ghost var before := table;
      if Has(table, id) {
        table := table[id := Some(table[id].value.(status := Deleted, closing := Some(closing)))];
      }
      if Ledger(before) { SoftDeletedKeeps(before, id, closing); }
    }

    method GetByID(id: int) returns (row: Option<Row>)
      ensures row == if Has(table, id) then table[id] else None
    {
      row := if Has(table, id) then table[id] else None;
    }

    /** The row that points at id. */
    method Predecessor(id: int) returns (p: Option<nat>)
      ensures p.Some? ==> Points(table, p.value, id)
      ensures p.None? ==> forall i :: !Points(table, i, id)
    {
      if i :| 0 <= i < |table| && Points(table, i, id) {
        p := Some(i);
      } else {
        p := None;
      }
    }

    /** The walk back: to the row nobody points at. */
    method FindRoot(id: int) returns (rootId: int)
      requires Ledger(table)
      ensures Chains.WellLinked(LinksOf(table))
      ensures if Has(table, id) then Has(table, rootId) && rootId == Chains.Root(LinksOf(table), id) else rootId == id
    {
      LedgerLinks(table);
      ghost var L := LinksOf(table);
      rootId := id;
      var prev := Predecessor(rootId);
      while prev.Some?
        invariant Has(table, id) <==> Has(table, rootId)
        invariant !Has(table, id) ==> rootId == id
        invariant Has(table, id) ==> Chains.Root(L, rootId) == Chains.Root(L, id)
        invariant prev.Some? ==> Points(table, prev.value, rootId)
        invariant prev.None? ==> forall i :: !Points(table, i, rootId)
        decreases if prev.Some? then prev.value + 1 else 0
      {
        assert Chains.PointsTo(L, prev.value, rootId);
        Chains.RootUnique(L, prev.value, rootId);
        rootId := prev.value;
        prev := Predecessor(rootId);
      }
      assert forall p :: Chains.PointsTo(L, p, rootId) ==> Points(table, p, rootId);
    }

    /** Walk back to the root, then forward, collecting the rows: exactly the chain of id. */
    method GetChain(id: int) returns (chain: seq<Found>)
      requires Ledger(table)
      ensures Chains.WellLinked(LinksOf(table))
      ensures Ids(chain) == Chains.Chain(LinksOf(table), id)
      ensures RowsOf(table, chain)
      ensures if 0 <= id < |table| && table[id].Some? then
          && (exists k :: 0 <= k < |chain| && chain[k].id == id)
          && (forall k :: 0 <= k < |chain| ==> chain[k].id < |table| && table[chain[k].id] == Some(chain[k].row))
          && (forall k :: 0 <= k < |chain| - 1 ==> chain[k].row.supersededBy == Some(chain[k + 1].id))
          && chain[|chain| - 1].row.supersededBy == None
          && (forall i :: 0 <= i < |table| && table[i].Some? ==> table[i].value.supersededBy != Some(chain[0].id))
        else chain == []
    {
      hide Ledger, Chains.Root, Chains.WellLinked;
      var current := FindRoot(id);
      ghost var L := LinksOf(table);
      chain := [];
      var row := GetByID(current);
      while row.Some?
        invariant row.Some? ==> Has(table, current) && table[current] == row
        invariant row.Some? ==> Ids(chain) + Chains.Forward(L, current) == Chains.Chain(L, id)
        invariant row.None? ==> Ids(chain) == Chains.Chain(L, id)
        invariant RowsOf(table, chain)
        decreases if row.Some? then |table| - current else -1
      {
        ghost var before := Ids(chain);
        chain := chain + [Found(current, row.value)];
        assert Ids(chain) == before + [current];
        match row.value.supersededBy
        case None =>
          row := None;
        case Some(next) =>
          Chains.PointerForward(L, current, next);
          assert before + ([current as nat] + Chains.Forward(L, next)) == Ids(chain) + Chains.Forward(L, next);
          current := next;
          row := GetByID(current);
      }
      ChainRows(table, chain, id);
    }
  }
}
