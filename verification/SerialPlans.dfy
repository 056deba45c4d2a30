/** The plan table after serial runs: the current plan is the last one announced and not
    withdrawn, and an issue's rows are consecutive chains, each closed by an /unplan except
    possibly the last. */
module SerialPlans {
  import opened Options
  import opened Columns
  import opened Deliveries
  import opened Webhook
  import opened SerialRuns
  import PlanEntries
  import Chains

  // ---- the rows of one issue --------------------------------------------------------------

  predicate OfIssue(t: PlanEntries.Table, i: int, issue: PlanEntries.Issue) {
    PlanEntries.Has(t, i) && PlanEntries.IssueOf(t[i].value.entry) == issue
  }

  /** The ids of an issue's plan rows among the first n slots, in id order. */
  function IssueRows(t: PlanEntries.Table, issue: PlanEntries.Issue, n: nat): (ids: seq<nat>)
    requires n <= |t|
    ensures forall k :: 0 <= k < |ids| ==> ids[k] < n && OfIssue(t, ids[k], issue)
    ensures forall i :: 0 <= i < n && OfIssue(t, i, issue) ==> i in ids
    ensures Chains.Increasing(ids)
  {
    if n == 0 then []
    else IssueRows(t, issue, n - 1) + (if OfIssue(t, n - 1, issue) then [n - 1] else [])
  }

  lemma {:induction false} IssueRowsStable(t: PlanEntries.Table, u: PlanEntries.Table, issue: PlanEntries.Issue, n: nat)
    requires n <= |t| && n <= |u|
    requires forall i :: 0 <= i < n ==> OfIssue(u, i, issue) == OfIssue(t, i, issue)
    ensures IssueRows(u, issue, n) == IssueRows(t, issue, n)
  {
    if n == 0 {
    } else {
      IssueRowsStable(t, u, issue, n - 1);
    }
  }

  // ---- the shape of an issue's rows ------------------------------------------------------------

  /** Row i points at row j and is superseded. */
  predicate ReplacedBy(t: PlanEntries.Table, i: nat, j: nat) {
    PlanEntries.Points(t, i, j) && t[i].value.status.Superseded?
  }

  predicate Withdrawn(t: PlanEntries.Table, i: nat) {
    PlanEntries.Has(t, i) && t[i].value.status.Deleted? && t[i].value.supersededBy.None?
  }

  predicate Open(t: PlanEntries.Table, i: nat) {
    PlanEntries.Has(t, i) && t[i].value.status.Active? && t[i].value.supersededBy.None?
  }

  /** Each row is replaced by the very next one or withdrawn; the last is open or withdrawn. */
  predicate Shaped(t: PlanEntries.Table, ids: seq<nat>) {
    && (forall k :: 0 <= k < |ids| - 1 ==> ReplacedBy(t, ids[k], ids[k + 1]) || Withdrawn(t, ids[k]))
    && (ids != [] ==> Open(t, ids[|ids| - 1]) || Withdrawn(t, ids[|ids| - 1]))
  }

  predicate ShapedIssue(t: PlanEntries.Table, issue: PlanEntries.Issue) {
    Shaped(t, IssueRows(t, issue, |t|))
  }

  lemma EarlierNotActive(t: PlanEntries.Table, ids: seq<nat>)
    requires Shaped(t, ids)
    ensures forall k :: 0 <= k < |ids| - 1 ==> ids[k] < |t| && t[ids[k]].Some? && !t[ids[k]].value.status.Active?
  {
    forall k | 0 <= k < |ids| - 1
      ensures ids[k] < |t| && t[ids[k]].Some? && !t[ids[k]].value.status.Active?
    {
      assert ReplacedBy(t, ids[k], ids[k + 1]) || Withdrawn(t, ids[k]);
    }
  }

  /** The current plan, if there is one, is the issue's last row. */
  lemma CurrentIsLast(t: PlanEntries.Table, issue: PlanEntries.Issue)
    requires ShapedIssue(t, issue)
    ensures var ids := IssueRows(t, issue, |t|);
      var current := CurrentPlan(t, issue, |t|);
      && (current.None? && ids != [] ==> Withdrawn(t, ids[|ids| - 1]))
      && (current.Some? ==> ids != [] && ids[|ids| - 1] == current.value)
  {
    var ids := IssueRows(t, issue, |t|);
    var current := CurrentPlan(t, issue, |t|);
    if current.Some? {
      assert OfIssue(t, current.value, issue);
      EarlierNotActive(t, ids);
    } else if ids != [] {
      assert OfIssue(t, ids[|ids| - 1], issue) && !PlanEntries.ActiveAt(t, ids[|ids| - 1], issue);
    }
  }

  /** A new open row behind a shaped list, whose last row is replaced by it or withdrawn. */
  lemma ShapedAppend(t: PlanEntries.Table, u: PlanEntries.Table, ids: seq<nat>, m: nat)
    requires Shaped(t, ids) && Open(u, m)
    requires forall k :: 0 <= k < |ids| - 1 ==> ids[k] < |t| && ids[k] < |u| && u[ids[k]] == t[ids[k]]
    requires ids != [] ==> ReplacedBy(u, ids[|ids| - 1], m) || Withdrawn(u, ids[|ids| - 1])
    ensures Shaped(u, ids + [m])
  {
    var longer := ids + [m];
    forall k | 0 <= k < |longer| - 1
      ensures ReplacedBy(u, longer[k], longer[k + 1]) || Withdrawn(u, longer[k])
    {
      assert longer[k] == ids[k];
      if k < |ids| - 1 { assert longer[k + 1] == ids[k + 1]; }
    }
  }

  lemma ShapedKept(t: PlanEntries.Table, u: PlanEntries.Table, ids: seq<nat>)
    requires Shaped(t, ids)
    requires forall k :: 0 <= k < |ids| - 1 ==> ids[k] < |t| && ids[k] < |u| && u[ids[k]] == t[ids[k]]
    requires ids != [] ==> Open(u, ids[|ids| - 1]) || Withdrawn(u, ids[|ids| - 1])
    ensures Shaped(u, ids)
  {
  }

  lemma ReplacedRow(t: PlanEntries.Table, p: nat, e: PlanEntries.Entry, now: int)
    requires PlanEntries.Has(t, p)
    ensures var u := PlanEntries.Replaced(t, Some(p), e, now);
      && |u| == |t| + 1 && ReplacedBy(u, p, |t|) && Open(u, |t|) && u[|t|].value.entry == e
      && u[p].value.entry == t[p].value.entry
      && forall i :: 0 <= i < |t| && i != p ==> u[i] == t[i]
  {
  }

  lemma PlanKeepsShape(t: PlanEntries.Table, event: Event, cmd: Command, a: Answers, issue: PlanEntries.Issue)
    requires ShapedIssue(t, issue)
    ensures ShapedIssue(AfterPlan(t, event, cmd, a), issue)
  {
    hide Shaped, IssueRows, PlanEntries.Replaced;
    var u := AfterPlan(t, event, cmd, a);
    var ids := IssueRows(t, issue, |t|);
    var current := CurrentPlan(t, IssueOf(event), |t|);
    if FitsInt4(cmd.minutes) {
      var e := PlanEntryFor(event, cmd, LabelsOf(a));
      if current.Some? {
        ReplacedRow(t, current.value, e, a.now);
      } else {
        assert u == PlanEntries.Inserted(t, e, a.now) by { UnfoldInsert(t, e, a.now); }
      }
      NewRowShape(t, u, current, e, issue);
    }
  }

  lemma UnfoldInsert(t: PlanEntries.Table, e: PlanEntries.Entry, now: int)
    ensures PlanEntries.Replaced(t, None, e, now) == PlanEntries.Inserted(t, e, now)
  {
  }

  lemma NewRowShape(t: PlanEntries.Table, u: PlanEntries.Table, current: Option<nat>, e: PlanEntries.Entry,
        issue: PlanEntries.Issue)
    requires ShapedIssue(t, issue) && current == CurrentPlan(t, PlanEntries.IssueOf(e), |t|)
    requires |u| == |t| + 1 && Open(u, |t|) && u[|t|].value.entry == e
    requires forall i :: 0 <= i < |t| && current != Some(i) ==> u[i] == t[i]
    requires current.Some? ==> ReplacedBy(u, current.value, |t|)
    requires current.Some? ==> u[current.value].value.entry == t[current.value].value.entry
    ensures ShapedIssue(u, issue)
  {
    hide Shaped, IssueRows, CurrentPlan;
    var ids := IssueRows(t, issue, |t|);
    SameIssue(t, u, current, issue);
    IssueRowsStable(t, u, issue, |t|);
    OneMoreRow(u, issue);
    if issue == PlanEntries.IssueOf(e) {
      CurrentIsLast(t, issue);
      OwnRowShape(t, u, ids, current);
    } else {
      assert current.Some? ==> !OfIssue(t, current.value, issue) by { CurrentOfIssue(t, PlanEntries.IssueOf(e)); }
      OtherRowShape(t, u, ids);
      assert ids + [] == ids;
    }
  }

  lemma OwnRowShape(t: PlanEntries.Table, u: PlanEntries.Table, ids: seq<nat>, current: Option<nat>)
    requires Shaped(t, ids) && Chains.Increasing(ids) && |u| == |t| + 1 && Open(u, |t|)
    requires forall k :: 0 <= k < |ids| ==> ids[k] < |t|
    requires forall i :: 0 <= i < |t| && current != Some(i) ==> u[i] == t[i]
    requires current.Some? ==> ids != [] && ids[|ids| - 1] == current.value && ReplacedBy(u, current.value, |t|)
    requires current.None? && ids != [] ==> Withdrawn(t, ids[|ids| - 1])
    ensures Shaped(u, ids + [|t|])
  {
    hide Shaped, ReplacedBy, Open;
    EarlierUnchanged(t, u, ids, current);
    ShapedAppend(t, u, ids, |t|);
  }

  lemma OtherRowShape(t: PlanEntries.Table, u: PlanEntries.Table, ids: seq<nat>)
    requires Shaped(t, ids) && |t| <= |u|
    requires forall k :: 0 <= k < |ids| ==> ids[k] < |t| && u[ids[k]] == t[ids[k]]
    ensures Shaped(u, ids)
  {
    hide Shaped;
    LastShaped(t, ids);
    ShapedKept(t, u, ids);
  }

  predicate EntryKept(t: PlanEntries.Table, u: PlanEntries.Table, i: nat) {
    PlanEntries.Has(t, i) && PlanEntries.Has(u, i) && u[i].value.entry == t[i].value.entry
  }

  lemma SameIssue(t: PlanEntries.Table, u: PlanEntries.Table, current: Option<nat>, issue: PlanEntries.Issue)
    requires |t| <= |u| && forall i :: 0 <= i < |t| && current != Some(i) ==> u[i] == t[i]
    requires current.Some? ==> EntryKept(t, u, current.value)
    ensures forall i :: 0 <= i < |t| ==> OfIssue(u, i, issue) == OfIssue(t, i, issue)
  {
  }

  lemma EarlierUnchanged(t: PlanEntries.Table, u: PlanEntries.Table, ids: seq<nat>, current: Option<nat>)
    requires Chains.Increasing(ids) && |t| <= |u| && forall k :: 0 <= k < |ids| ==> ids[k] < |t|
    requires forall i :: 0 <= i < |t| && current != Some(i) ==> u[i] == t[i]
    requires current.Some? ==> ids != [] && ids[|ids| - 1] == current.value
    ensures forall k :: 0 <= k < |ids| - 1 ==> u[ids[k]] == t[ids[k]]
  {
  }

  lemma CurrentOfIssue(t: PlanEntries.Table, issue: PlanEntries.Issue)
    ensures CurrentPlan(t, issue, |t|).Some? ==> OfIssue(t, CurrentPlan(t, issue, |t|).value, issue)
  {
  }

  lemma LastShaped(t: PlanEntries.Table, ids: seq<nat>)
    requires Shaped(t, ids)
    ensures ids != [] ==> Open(t, ids[|ids| - 1]) || Withdrawn(t, ids[|ids| - 1])
  {
  }

  lemma OneMoreRow(u: PlanEntries.Table, issue: PlanEntries.Issue)
    requires u != []
    ensures IssueRows(u, issue, |u|)
      == IssueRows(u, issue, |u| - 1) + (if OfIssue(u, |u| - 1, issue) then [|u| - 1] else [])
  {
  }

  lemma UnplanKeepsShape(t: PlanEntries.Table, event: Event, issue: PlanEntries.Issue)
    requires ShapedIssue(t, issue) && PlanEntries.Ledger(t)
    ensures ShapedIssue(AfterUnplan(t, event), issue)
  {
    hide Shaped, IssueRows, PlanEntries.OneActive;
    var u := AfterUnplan(t, event);
    var ids := IssueRows(t, issue, |t|);
    var current := CurrentPlan(t, IssueOf(event), |t|);
    IssueRowsStable(t, u, issue, |t|);
    assert forall k :: 0 <= k < |ids| - 1 ==> ids[k] < ids[|ids| - 1];
    LastShaped(t, ids);
    if issue == IssueOf(event) && current.Some? {
      CurrentIsLast(t, issue);
      assert t[current.value].value.supersededBy.None?;
      assert Withdrawn(u, current.value);
    } else {
      assert current.Some? ==> !OfIssue(t, current.value, issue);
    }
    ShapedKept(t, u, ids);
  }

  lemma ProcessKeepsShape(s: State, d: Delivery, a: Answers, issue: PlanEntries.Issue)
    requires ShapedIssue(s.plans, issue) && PlanEntries.Ledger(s.plans)
    ensures ShapedIssue(Process(s, d, a).plans, issue)
  {
    hide CommandOf, ShapedIssue, AfterCommand, PlanEntries.Ledger;
    if Admitted(s, d) && CommandOf(d).Some? && Allowed(a) {
      var claimed := Claimed(s, d);
      CommandKeepsShape(claimed, EventOf(d).value, CommandOf(d).value, a, issue);
    }
  }

  lemma CommandKeepsShape(s: State, event: Event, cmd: Command, a: Answers, issue: PlanEntries.Issue)
    requires ShapedIssue(s.plans, issue) && PlanEntries.Ledger(s.plans)
    ensures ShapedIssue(AfterCommand(s, event, cmd, a).plans, issue)
  {
    hide ShapedIssue, AfterPlan, AfterUnplan, AfterLog, AfterCorrect, AfterDelete, PlanEntries.Ledger;
    PlanKeepsShape(s.plans, event, cmd, a, issue);
    UnplanKeepsShape(s.plans, event, issue);
  }

  lemma {:induction false} RunShaped(calls: seq<Call>, issue: PlanEntries.Issue)
    ensures ShapedIssue(Run(calls).plans, issue)
  {
    if calls == [] {
      assert !OfIssue([None], 0, issue) && IssueRows([None], issue, 0) == [];
    } else {
      hide Process, ShapedIssue, PlanEntries.Ledger, ClockedBefore;
      var front, last := calls[..|calls| - 1], calls[|calls| - 1];
      RunShaped(front, issue);
      RunKeeps(front, last.a.now);
      ProcessKeepsShape(Run(front), last.d, last.a, issue);
    }
  }

  // ---- segments are chains -------------------------------------------------------------------

  /** Where the segment that holds position k begins: after the nearest earlier withdrawn row. */
  function SegmentStart(t: PlanEntries.Table, ids: seq<nat>, k: nat): (a: nat)
    requires k < |ids|
    ensures a <= k && (a == 0 || Withdrawn(t, ids[a - 1]))
    ensures forall i :: a <= i < k ==> !Withdrawn(t, ids[i])
  {
    if k == 0 || Withdrawn(t, ids[k - 1]) then k else SegmentStart(t, ids, k - 1)
  }

  /** Where it ends: behind the nearest withdrawn row from k on, or with the issue's last row. */
  function SegmentEnd(t: PlanEntries.Table, ids: seq<nat>, k: nat): (b: nat)
    requires k < |ids|
    ensures k < b <= |ids| && (b == |ids| || Withdrawn(t, ids[b - 1]))
    ensures forall i :: k <= i < b - 1 ==> !Withdrawn(t, ids[i])
    decreases |ids| - k
  {
    if Withdrawn(t, ids[k]) || k + 1 == |ids| then k + 1 else SegmentEnd(t, ids, k + 1)
  }

  lemma SegmentLinked(t: PlanEntries.Table, ids: seq<nat>, a: nat, b: nat)
    requires Shaped(t, ids) && a < b <= |ids|
    requires forall i :: a <= i < b - 1 ==> !Withdrawn(t, ids[i])
    requires b == |ids| || Withdrawn(t, ids[b - 1])
    ensures forall i :: a <= i < b - 1 ==> ReplacedBy(t, ids[i], ids[i + 1])
    ensures Open(t, ids[b - 1]) || Withdrawn(t, ids[b - 1])
  {
  }

  /** Nobody points at a row that comes first or right behind a withdrawn one. */
  lemma SegmentRoot(t: PlanEntries.Table, issue: PlanEntries.Issue, a: nat, p: int)
    requires PlanEntries.Ledger(t) && ShapedIssue(t, issue) && a < |IssueRows(t, issue, |t|)|
    requires a == 0 || Withdrawn(t, IssueRows(t, issue, |t|)[a - 1])
    ensures !PlanEntries.Points(t, p, IssueRows(t, issue, |t|)[a])
  {
    hide IssueRows;
    var ids := IssueRows(t, issue, |t|);
    assert PlanEntries.Points(t, p, ids[a]) ==> OfIssue(t, p, issue);
    if OfIssue(t, p, issue) {
      var i :| 0 <= i < |ids| && ids[i] == p;
      RootUnpointed(t, ids, i, a);
    }
  }

  lemma RootUnpointed(t: PlanEntries.Table, ids: seq<nat>, i: nat, a: nat)
    requires Shaped(t, ids) && Chains.Increasing(ids) && i < |ids| && a < |ids|
    requires a == 0 || Withdrawn(t, ids[a - 1])
    ensures !PlanEntries.Points(t, ids[i], ids[a])
  {
    if i < |ids| - 1 { NextIs(ids, i + 1, a); }
  }

  lemma NextIs(ids: seq<nat>, i: nat, a: nat)
    requires Chains.Increasing(ids) && i < |ids| && a < |ids|
    ensures ids[i] == ids[a] ==> i == a
  {
  }

  lemma SegmentIsChain(t: PlanEntries.Table, issue: PlanEntries.Issue, ids: seq<nat>, a: nat, b: nat)
    requires PlanEntries.Ledger(t) && ShapedIssue(t, issue) && ids == IssueRows(t, issue, |t|) && a < b <= |ids|
    requires a == 0 || Withdrawn(t, ids[a - 1])
    requires forall i :: a <= i < b - 1 ==> ReplacedBy(t, ids[i], ids[i + 1])
    requires Open(t, ids[b - 1]) || Withdrawn(t, ids[b - 1])
    ensures Chains.IsChain(PlanEntries.LinksOf(t), ids[a..b])
  {
    hide IssueRows, PlanEntries.Ledger, ShapedIssue;
    var L := PlanEntries.LinksOf(t);
    var c := ids[a..b];
    forall i | 0 <= i < |c| - 1
      ensures Chains.PointsTo(L, c[i], c[i + 1])
    {
      assert ReplacedBy(t, ids[a + i], ids[a + i + 1]);
    }
    forall i | 0 <= i < |c|
      ensures Chains.Present(L, c[i])
    {
      assert OfIssue(t, ids[a + i], issue);
    }
    forall p
      ensures !Chains.PointsTo(L, p, c[0])
    {
      SegmentRoot(t, issue, a, p);
    }
    assert c[|c| - 1] == ids[b - 1];
  }

  /** ids[a..b] is a segment: every row but the last is superseded by its successor; it begins
      behind a withdrawn row, or with the first one; and it ends in a withdrawn plan, unless it
      is the final segment, which may also end in the active plan. */
  predicate IsSegment(t: PlanEntries.Table, ids: seq<nat>, a: nat, b: nat)
    requires a < b <= |ids|
  {
    && (forall i :: a <= i < b - 1 ==> ReplacedBy(t, ids[i], ids[i + 1]))
    && (a > 0 ==> Withdrawn(t, ids[a - 1]))
    && (Withdrawn(t, ids[b - 1]) || (b == |ids| && Open(t, ids[b - 1])))
  }

  lemma SegmentOf(t: PlanEntries.Table, ids: seq<nat>, k: nat)
    requires Shaped(t, ids) && k < |ids|
    ensures IsSegment(t, ids, SegmentStart(t, ids, k), SegmentEnd(t, ids, k))
  {
    var a, b := SegmentStart(t, ids, k), SegmentEnd(t, ids, k);
    hide SegmentStart, SegmentEnd, ReplacedBy, Open;
    forall i | a <= i < b - 1
      ensures !Withdrawn(t, ids[i])
    {
      if i < k { } else { }
    }
    SegmentLinked(t, ids, a, b);
  }

  /** The segment of position k is exactly the chain of its row. */
  lemma ChainIsSegment(t: PlanEntries.Table, issue: PlanEntries.Issue, ids: seq<nat>, k: nat, a: nat, b: nat)
    requires PlanEntries.Ledger(t) && ShapedIssue(t, issue) && ids == IssueRows(t, issue, |t|)
    requires a <= k < b <= |ids| && IsSegment(t, ids, a, b)
    ensures Chains.WellLinked(PlanEntries.LinksOf(t))
    ensures Chains.Chain(PlanEntries.LinksOf(t), ids[k]) == ids[a..b]
  {
    hide PlanEntries.Ledger, IssueRows, Chains.WellLinked, Chains.Chain, ReplacedBy, Withdrawn, Open, ShapedIssue;
    hide Chains.IsChain, PlanEntries.LinksOf;
    SegmentIsChain(t, issue, ids, a, b);
    PlanEntries.LedgerLinks(t);
    Chains.ChainCharacterised(PlanEntries.LinksOf(t), ids[k]);
    assert ids[a..b][k - a] == ids[k];
  }

  /** After any serial run the rows of an issue fall into contiguous segments, and GetChain on
      any row returns exactly the row's segment. */
  lemma IssueSegments(calls: seq<Call>, issue: PlanEntries.Issue, ids: seq<nat>, k: nat)
    requires ids == IssueRows(Run(calls).plans, issue, |Run(calls).plans|) && k < |ids|
    ensures var t := Run(calls).plans;
      && Chains.WellLinked(PlanEntries.LinksOf(t))
      && IsSegment(t, ids, SegmentStart(t, ids, k), SegmentEnd(t, ids, k))
      && Chains.Chain(PlanEntries.LinksOf(t), ids[k]) == ids[SegmentStart(t, ids, k)..SegmentEnd(t, ids, k)]
  {
    hide *;
    RunReadyAtEnd(calls);
    RunShaped(calls, issue);
    IssueShape(Run(calls).plans, issue);
    var t := Run(calls).plans;
    SegmentOf(t, ids, k);
    ChainIsSegment(t, issue, ids, k, SegmentStart(t, ids, k), SegmentEnd(t, ids, k));
  }

  lemma IssueShape(t: PlanEntries.Table, issue: PlanEntries.Issue)
    requires ShapedIssue(t, issue)
    ensures Shaped(t, IssueRows(t, issue, |t|))
  {
  }

  lemma RunReadyAtEnd(calls: seq<Call>)
    ensures PlanEntries.Ledger(Run(calls).plans)
  {
    RunKeeps(calls, 0);
  }

  // ---- the current plan --------------------------------------------------------------------------

  function PlanEntryOf(t: PlanEntries.Table, issue: PlanEntries.Issue): Option<PlanEntries.Entry> {
    match CurrentPlan(t, issue, |t|)
    case None => None
    case Some(p) => Some(t[p].value.entry)
  }

  /** The reference: the last admitted, authorised /plan not followed by an /unplan. */
  function ReferencePlan(calls: seq<Call>, issue: PlanEntries.Issue): Option<PlanEntries.Entry> {
    if calls == [] then None
    else
      var front, last := calls[..|calls| - 1], calls[|calls| - 1];
      var before := ReferencePlan(front, issue);
      if LastAdmitted(calls) && CommandOf(last.d).Some? && Allowed(last.a) && IssueOf(EventOf(last.d).value) == issue
      then PlanStep(before, EventOf(last.d).value, CommandOf(last.d).value, last.a)
      else before
  }

  function PlanStep(before: Option<PlanEntries.Entry>, event: Event, cmd: Command,
        a: Answers): Option<PlanEntries.Entry> {
    if cmd.verb.Plan? && FitsInt4(cmd.minutes) then Some(PlanEntryFor(event, cmd, LabelsOf(a)))
    else if cmd.verb.Unplan? then None
    else before
  }

  lemma {:induction false} CurrentPlanStable(t: PlanEntries.Table, u: PlanEntries.Table, issue: PlanEntries.Issue,
        n: nat)
    requires n <= |t| && n <= |u|
    requires forall i :: 0 <= i < n ==> PlanEntries.ActiveAt(u, i, issue) == PlanEntries.ActiveAt(t, i, issue)
    ensures CurrentPlan(u, issue, n) == CurrentPlan(t, issue, n)
  {
    if n == 0 {
    } else {
      CurrentPlanStable(t, u, issue, n - 1);
    }
  }

  lemma PlanSets(t: PlanEntries.Table, event: Event, cmd: Command, a: Answers, issue: PlanEntries.Issue)
    requires PlanEntries.OneActive(t) && FitsInt4(cmd.minutes)
    ensures PlanEntryOf(AfterPlan(t, event, cmd, a), issue)
      == if IssueOf(event) == issue then Some(PlanEntryFor(event, cmd, LabelsOf(a))) else PlanEntryOf(t, issue)
  {
    var u := AfterPlan(t, event, cmd, a);
    if IssueOf(event) != issue {
      CurrentPlanStable(t, u, issue, |t|);
    }
  }

  lemma UnplanClears(t: PlanEntries.Table, event: Event, issue: PlanEntries.Issue)
    requires PlanEntries.OneActive(t)
    ensures PlanEntryOf(AfterUnplan(t, event), issue)
      == if IssueOf(event) == issue then None else PlanEntryOf(t, issue)
  {
    var u := AfterUnplan(t, event);
    if IssueOf(event) != issue {
      CurrentPlanStable(t, u, issue, |t|);
    } else if CurrentPlan(t, issue, |t|).Some? {
      assert forall i :: PlanEntries.ActiveAt(u, i, issue) ==> PlanEntries.ActiveAt(t, i, issue);
    }
  }

  lemma CommandActsOnPlan(s: State, event: Event, cmd: Command, a: Answers, issue: PlanEntries.Issue)
    requires PlanEntries.OneActive(s.plans)
    ensures PlanEntryOf(AfterCommand(s, event, cmd, a).plans, issue)
      == if IssueOf(event) == issue
        then PlanStep(PlanEntryOf(s.plans, issue), event, cmd, a) else PlanEntryOf(s.plans, issue)
  {
    hide PlanEntryOf, AfterUnplan, AfterLog, AfterCorrect, AfterDelete, PlanEntries.OneActive, PlanEntries.Replaced;
    if FitsInt4(cmd.minutes) { PlanSets(s.plans, event, cmd, a, issue); }
    UnplanClears(s.plans, event, issue);
  }

  lemma ProcessActsOnPlan(s: State, d: Delivery, a: Answers, issue: PlanEntries.Issue)
    requires PlanEntries.OneActive(s.plans)
    ensures PlanEntryOf(Process(s, d, a).plans, issue)
      == if Admitted(s, d) && CommandOf(d).Some? && Allowed(a) && IssueOf(EventOf(d).value) == issue
         then PlanStep(PlanEntryOf(s.plans, issue), EventOf(d).value, CommandOf(d).value, a)
         else PlanEntryOf(s.plans, issue)
  {
    hide CommandOf, PlanEntryOf, AfterCommand, PlanStep, PlanEntries.OneActive;
    if Admitted(s, d) && CommandOf(d).Some? && Allowed(a) {
      var claimed := Claimed(s, d);
      CommandActsOnPlan(claimed, EventOf(d).value, CommandOf(d).value, a, issue);
    }
  }

  /** After any serial run the active plan of every issue is the reference plan. */
  lemma {:induction false} PlanTableRefinesPlan(calls: seq<Call>, issue: PlanEntries.Issue)
    ensures PlanEntryOf(Run(calls).plans, issue) == ReferencePlan(calls, issue)
  {
    if calls == [] {
      assert CurrentPlan([None], issue, 0) == None && !PlanEntries.ActiveAt([None], 0, issue);
    } else {
      hide CommandOf, Process, PlanStep, PlanEntryOf, Admitted, LastAdmitted, ClockedBefore;
      var front, last := calls[..|calls| - 1], calls[|calls| - 1];
      PlanTableRefinesPlan(front, issue);
      RunKeeps(front, last.a.now);
      LastAdmittedIff(calls);
      ProcessActsOnPlan(Run(front), last.d, last.a, issue);
    }
  }
}
