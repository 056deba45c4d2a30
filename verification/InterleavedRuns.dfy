/** Theorems about every state of every interleaved, faulty run. */
module InterleavedRuns {
  import opened Options
  import opened Deliveries
  import opened Interleaving
  import opened InterleavingSafety
  import Chains
  import ChainTotals
  import CommandLaws
  import Commands
  import PlanVsActual
  import TimeEntries
  import PlanEntries

  // ---- every step keeps the invariant ---------------------------------------------------------

  lemma CorrectFindKeeps(s: State, p: nat, found: Option<nat>)
    requires Inv(s) && Running(s, p) && s.procs[p].pc.CorrectReady? && TimeAnswer(s.times, KeyOf(EventAt(s, p)), found)
    ensures Inv(CorrectFindResult(s, p, found))
  {
    hide Inv, CommandOf, ProcOk;
    ProcOkAt(s, p);
    FinishedOk(s, p, s.procs[p]);
    if found.Some? {
      var pc := CorrectFound(s.procs[p].pc.cmd, found.value, s.times[found.value].value.entry.clientId);
      GotoKeeps(s, p, pc);
    } else {
      GotoKeeps(s, p, Finished);
    }
  }

  lemma DeleteFindKeeps(s: State, p: nat, found: Option<nat>)
    requires Inv(s) && Running(s, p) && s.procs[p].pc.DeleteReady? && TimeAnswer(s.times, KeyOf(EventAt(s, p)), found)
    ensures Inv(Goto(s, p, if found.Some? then DeleteFound(found.value) else Finished))
  {
    hide Inv, CommandOf, ProcOk;
    ProcOkAt(s, p);
    FinishedOk(s, p, s.procs[p]);
    GotoKeeps(s, p, if found.Some? then DeleteFound(found.value) else Finished);
  }

  lemma PlanFindKeeps(s: State, p: nat, found: Option<nat>)
    requires Inv(s) && Running(s, p) && s.procs[p].pc.PlanReady? && PlanAnswer(s.plans, IssueOf(EventAt(s, p)), found)
    ensures Inv(Goto(s, p, PlanFound(s.procs[p].pc.cmd, found)))
  {
    hide Inv, CommandOf, ProcOk;
    ProcOkAt(s, p);
    GotoKeeps(s, p, PlanFound(s.procs[p].pc.cmd, found));
  }

  lemma UnplanFindKeeps(s: State, p: nat, found: Option<nat>)
    requires Inv(s) && Running(s, p) && s.procs[p].pc.UnplanReady? && PlanAnswer(s.plans, IssueOf(EventAt(s, p)), found)
    ensures Inv(Goto(s, p, if found.Some? then UnplanFound(found.value) else Finished))
  {
    hide Inv, CommandOf, ProcOk;
    ProcOkAt(s, p);
    FinishedOk(s, p, s.procs[p]);
    GotoKeeps(s, p, if found.Some? then UnplanFound(found.value) else Finished);
  }

  /** Whatever the step, and whoever takes it. */
  lemma StepKeeps(s: State, step: Step)
    requires Inv(s) && Enabled(s, step)
    ensures Inv(Apply(s, step))
  {
    hide Inv, CommandOf, PcOk, EventOf, ProcOk;
    hide ReceiveResult, ClaimResult, DispatchResult;
    hide LogResult, CorrectFindResult, CorrectInsertResult, PlanReplaceResult;
    hide CorrectLinkResult, DeleteMarkResult, UnplanMarkResult, Goto, TimeAnswer, PlanAnswer, KeyOf, IssueOf;
    match step
    case Receive(d) => ReceiveKeeps(s, d);
    case Claim(p) => ClaimKeeps(s, p);
    case Dispatch(p, allowed) => DispatchKeeps(s, p, allowed);
    case LogInsert(p, labels, client, now) => LogInsertKeeps(s, p, labels, client, now);
    case CorrectFind(p, found) => CorrectFindKeeps(s, p, found);
    case CorrectInsert(p, labels, now) => CorrectInsertKeeps(s, p, labels, now);
    case CorrectLink(p) => CorrectLinkKeeps(s, p);
    case DeleteFind(p, found) => DeleteFindKeeps(s, p, found);
    case DeleteMark(p) => DeleteMarkKeeps(s, p);
    case PlanFind(p, found) => PlanFindKeeps(s, p, found);
    case PlanReplace(p, labels, now) => PlanReplaceKeeps(s, p, labels, now);
    case UnplanFind(p, found) => UnplanFindKeeps(s, p, found);
    case UnplanMark(p) => UnplanMarkKeeps(s, p);
    case Stop(p) => FinishedOk(s, p, s.procs[p]); GotoKeeps(s, p, Finished);
    case BurnTimeId => BurnKeeps(s);
    case BurnPlanId => BurnKeeps(s);
  }

  lemma InitOk()
    ensures Inv(INIT)
  {
  }

  /** Every state of every run satisfies the invariant. */
  lemma {:induction false} RunInvariant(states: seq<State>, steps: seq<Step>, n: nat)
    requires IsRun(states, steps) && n <= |steps|
    ensures Inv(states[n])
  {
    hide Inv, Apply, Enabled;
    if n == 0 {
      InitOk();
    } else {
      RunInvariant(states, steps, n - 1);
      StepKeeps(states[n - 1], steps[n - 1]);
    }
  }

  lemma ReachableOk(s: State)
    requires Reachable(s)
    ensures Inv(s)
  {
    hide Inv, Apply, Enabled;
    var states, steps :| IsRun(states, steps) && states[|steps|] == s;
    RunInvariant(states, steps, |steps|);
  }

  /** The ledger invariant of both tables, in every state of every run. */
  lemma ReachableLedgers(s: State)
    requires Reachable(s)
    ensures TimeEntries.Ledger(s.times) && PlanEntries.Ledger(s.plans)
  {
    hide Inv;
    ReachableOk(s);
    LedgerOf(s);
  }

  // ---- history ------------------------------------------------------------------------------------

  lemma StepExtends(s: State, step: Step)
    requires Inv(s) && Enabled(s, step)
    ensures TimeEntries.Extends(s.times, Apply(s, step).times)
    ensures PlanEntries.Extends(s.plans, Apply(s, step).plans)
  {
    hide Inv, CommandOf, EventOf, PcOk, ProcOk, TimeEntries.Ledger, PlanEntries.Ledger, TimeAnswer, PlanAnswer;
    LedgerOf(s);
    TimeExtendsSelf(s.times);
    PlanExtendsSelf(s.plans);
    match step
    case LogInsert(p, labels, client, now) =>
      TimeEntries.InsertedKeeps(s.times, TimeEntryFor(EventAt(s, p), s.procs[p].pc.cmd, labels, client), now);
    case CorrectInsert(p, labels, now) =>
      TimeEntries.InsertedKeeps(s.times, TimeEntryFor(EventAt(s, p), s.procs[p].pc.cmd, labels, s.procs[p].pc.client),
        now);
    case PlanReplace(p, labels, now) =>
      PlanReplaceExtends(s, p, labels, now);
    case BurnTimeId => TimeEntries.BurnedKeeps(s.times);
    case BurnPlanId => PlanEntries.BurnedKeeps(s.plans);
    case _ =>
  }

  lemma PlanReplaceExtends(s: State, p: nat, labels: seq<string>, now: int)
    requires Inv(s) && Running(s, p) && s.procs[p].pc.PlanFound?
    ensures PlanEntries.Extends(s.plans, PlanReplaceResult(s, p, labels, now).plans)
  {
    hide Inv, CommandOf, EventOf, PcOk, ProcOk, PlanEntries.Ledger, PlanEntries.Replaced, PlanEntries.ReplaceAllowed;
    LedgerOf(s);
    ProcOkAt(s, p);
    FoundOnIssue(s, p, labels);
    PlanExtendsSelf(s.plans);
    PlanEntries.BurnedKeeps(s.plans);
    var e := PlanEntryFor(EventAt(s, p), s.procs[p].pc.cmd, labels);
    if PlanEntries.ReplaceAllowed(s.plans, s.procs[p].pc.current, e) {
      PlanEntries.ReplacedKeeps(s.plans, s.procs[p].pc.current, e, now);
    }
  }

  /** Between any two moments of a run both tables only grow: rows stay, their supplied columns
      never change, and what is no longer active never becomes active again. */
  lemma {:induction false} HistoryMonotone(states: seq<State>, steps: seq<Step>, m: nat, n: nat)
    requires IsRun(states, steps) && m <= n <= |steps|
    ensures TimeEntries.Extends(states[m].times, states[n].times)
    ensures PlanEntries.Extends(states[m].plans, states[n].plans)
    decreases n
  {
    hide Inv, Apply, Enabled, TimeEntries.Extends, PlanEntries.Extends;
    if m == n {
      TimeExtendsSelf(states[m].times);
      PlanExtendsSelf(states[m].plans);
    } else {
      HistoryMonotone(states, steps, m, n - 1);
      RunInvariant(states, steps, n - 1);
      StepExtends(states[n - 1], steps[n - 1]);
      TimeEntries.ExtendsTransitive(states[m].times, states[n - 1].times, states[n].times);
      PlanEntries.ExtendsTransitive(states[m].plans, states[n - 1].plans, states[n].plans);
    }
  }

  // ---- chains -----------------------------------------------------------------------------------------

  /** GetChain on a present id: a maximal chain in increasing id order that contains the id and
      is the answer for each of its members; on an absent id: nothing. */
  ghost predicate ChainAnswer(L: Chains.Links, id: int)
    requires Chains.WellLinked(L)
  {
    var c := Chains.Chain(L, id);
    && (Chains.Present(L, id) ==> Chains.IsChain(L, c) && Chains.Increasing(c) && id in c)
    && (!Chains.Present(L, id) ==> c == [])
    && (forall member :: member in c ==> Chains.Chain(L, member) == c)
    && (forall other :: Chains.Chain(L, other) == c || forall row :: row in c ==> row !in Chains.Chain(L, other))
  }

  lemma ChainAnswered(L: Chains.Links, id: int)
    requires Chains.WellLinked(L)
    ensures ChainAnswer(L, id)
  {
    Chains.ChainCharacterised(L, id);
    forall other
      ensures Chains.Chain(L, other) == Chains.Chain(L, id) || forall row ::
        row in Chains.Chain(L, id) ==> row !in Chains.Chain(L, other)
    {
      Chains.ChainsEqualOrDisjoint(L, id, other);
    }
  }

  /** On every reachable table, for every id, both GetCorrectionChain and GetChain answer so. */
  lemma ReachableChains(s: State, id: int)
    requires Reachable(s)
    ensures var L := TimeEntries.LinksOf(s.times);
      Chains.WellLinked(L) && ChainAnswer(L, id)
    ensures var L := PlanEntries.LinksOf(s.plans);
      Chains.WellLinked(L) && ChainAnswer(L, id)
  {
    hide *;
    ReachableOk(s);
    LedgerOf(s);
    TimeEntries.LedgerLinks(s.times);
    PlanEntries.LedgerLinks(s.plans);
    ChainAnswered(TimeEntries.LinksOf(s.times), id);
    ChainAnswered(PlanEntries.LinksOf(s.plans), id);
  }

  lemma {:induction false} WalkSameClient(t: TimeEntries.Table, i: nat, k: nat)
    requires TimeEntries.Ledger(t) && Chains.WellLinked(TimeEntries.LinksOf(t)) && TimeEntries.Has(t, i)
    requires k < |Chains.Forward(TimeEntries.LinksOf(t), i)|
    ensures var member := Chains.Forward(TimeEntries.LinksOf(t), i)[k];
      && TimeEntries.Has(t, member)
      && TimeEntries.KeyOf(t[member].value.entry) == TimeEntries.KeyOf(t[i].value.entry)
      && t[member].value.entry.clientId == t[i].value.entry.clientId
    decreases |t| - i
  {
    var L := TimeEntries.LinksOf(t);
    if k == 0 {
    } else {
      var j := L[i].next.value;
      assert Chains.PointsTo(L, i, j) && TimeEntries.Points(t, i, j);
      WalkSameClient(t, j, k - 1);
    }
  }

  /** Person, repository, issue and client are constant along every chain of every reachable
      time table. */
  lemma ChainSharesKeyAndClient(s: State, id: nat, a: nat, b: nat)
    requires Reachable(s)
    ensures Chains.WellLinked(TimeEntries.LinksOf(s.times))
    ensures var t := s.times;
      var c := Chains.Chain(TimeEntries.LinksOf(t), id);
      a in c && b in c ==>
        TimeEntries.Has(t, a) && TimeEntries.Has(t, b)
        && var e, f := t[a].value.entry, t[b].value.entry;
          e.userId == f.userId && e.repo == f.repo && e.issue == f.issue && e.clientId == f.clientId
  {
    hide Reachable, Inv;
    var t := s.times;
    ReachableOk(s);
    LedgerOf(s);
    TimeEntries.LedgerLinks(t);
    var L := TimeEntries.LinksOf(t);
    if Chains.Present(L, id) {
      var root := Chains.Root(L, id);
      var c := Chains.Forward(L, root);
      forall k | 0 <= k < |c|
        ensures TimeEntries.Has(t, c[k])
        ensures TimeEntries.KeyOf(t[c[k]].value.entry) == TimeEntries.KeyOf(t[root].value.entry)
        ensures t[c[k]].value.entry.clientId == t[root].value.entry.clientId
      {
        WalkSameClient(t, root, k);
      }
    }
  }

  // ---- claims and provenance ------------------------------------------------------------------------------

  /** Two deliveries with the same non-empty id are never both dispatched. */
  lemma DispatchedAtMostOnce(s: State, p: nat, q: nat)
    requires Reachable(s) && p < |s.procs| && q < |s.procs|
    requires s.procs[p].passed && s.procs[q].passed
    requires s.procs[p].d.id == s.procs[q].d.id != ""
    ensures p == q
  {
    hide Reachable, TimeProvenance, PlanProvenance, TimeEntries.Ledger, PlanEntries.Ledger, ProcOk;
    ReachableOk(s);
    assert SameClaim(s.procs[p], s.procs[q]);
  }

  /** A command-carrying delivery that got past the claim and whose author was allowed. */
  predicate Accepted(r: Proc) {
    r.passed && r.allowed && r.d.signatureOk && CommandOf(r.d).Some?
  }

  /** The command an accepted delivery carries. */
  function Carried(r: Proc): Command
    requires Accepted(r)
  {
    CommandOf(r.d).value
  }

  /** Its comment was just created, and its body parses to the command. */
  lemma CarriedParses(r: Proc)
    requires Accepted(r)
    ensures EventOf(r.d).Some? && EventOf(r.d).value.action == "created"
    ensures Commands.Parse(EventOf(r.d).value.body) == Commands.Parsed(Carried(r))
  {
    hide Commands.Parse;
  }

  /** Every time row was written by an accepted delivery of a comment, just created, that parses to
      a /log or /correct; column by column, all but the label snapshot and the client are what that
      comment asks for. */
  lemma TimeRowProvenance(s: State, id: nat)
    requires Reachable(s) && TimeEntries.Has(s.times, id)
    ensures id in s.timeBy && s.timeBy[id] < |s.procs|
    ensures var r := s.procs[s.timeBy[id]];
      && r.d.signatureOk && r.passed && r.allowed && !r.d.eventType.OtherEvent? && r.d.payload.Some?
      && r.d.payload.value.action == "created" && Commands.Parse(r.d.payload.value.body).Parsed?
    ensures var event := s.procs[s.timeBy[id]].d.payload.value;
      var cmd := Commands.Parse(event.body).command;
      var e := s.times[id].value.entry;
      && (cmd.verb.Log? || cmd.verb.Correct?)
      && e.userId == event.userId && e.username == event.login && e.repo == event.repo && e.issue == event.issue
      && e.minutes == cmd.minutes && e.minutes != 0 && e.description == cmd.description
      && e.commentId == event.commentId && e.commentUrl == event.commentUrl && e.createdBy == "user"
  {
    hide Reachable, Commands.Parse, PlanProvenance, TimeEntries.Ledger, PlanEntries.Ledger, ProcOk, CommandOf, ClaimsOk;
    ReachableOk(s);
    var r := s.procs[s.timeBy[id]];
    assert TimeRowFrom(s.times[id].value.entry, r);
    CarriedParses(r);
    CommandLaws.ParsedMinutes(EventOf(r.d).value.body);
  }

  /** Likewise every plan row, from a /plan. */
  lemma PlanRowProvenance(s: State, id: nat)
    requires Reachable(s) && PlanEntries.Has(s.plans, id)
    ensures id in s.planBy && s.planBy[id] < |s.procs|
    ensures var r := s.procs[s.planBy[id]];
      && r.d.signatureOk && r.passed && r.allowed && !r.d.eventType.OtherEvent? && r.d.payload.Some?
      && r.d.payload.value.action == "created" && Commands.Parse(r.d.payload.value.body).Parsed?
    ensures var event := s.procs[s.planBy[id]].d.payload.value;
      var cmd := Commands.Parse(event.body).command;
      var e := s.plans[id].value.entry;
      && cmd.verb.Plan?
      && e.userId == event.userId && e.username == event.login && e.repo == event.repo && e.issue == event.issue
      && e.minutes == cmd.minutes && e.minutes != 0 && e.description == cmd.description
      && e.commentId == event.commentId && e.commentUrl == event.commentUrl && e.createdBy == "user"
  {
    hide Reachable, Commands.Parse, TimeProvenance, TimeEntries.Ledger, PlanEntries.Ledger, ProcOk, CommandOf, ClaimsOk;
    ReachableOk(s);
    var r := s.procs[s.planBy[id]];
    assert PlanRowFrom(s.plans[id].value.entry, r);
    CarriedParses(r);
    CommandLaws.ParsedMinutes(EventOf(r.d).value.body);
  }

  /** No delivery ever writes two rows, be it in one table or in both. */
  lemma OneRowPerDelivery(s: State, i: nat, j: nat)
    requires Reachable(s)
    ensures
      && (i in s.timeBy && j in s.timeBy && s.timeBy[i] == s.timeBy[j] ==> i == j)
      && (i in s.planBy && j in s.planBy && s.planBy[i] == s.planBy[j] ==> i == j)
      && !(i in s.timeBy && j in s.planBy && s.timeBy[i] == s.planBy[j])
  {
    hide Reachable, TimeEntries.Ledger, PlanEntries.Ledger, ProcOk, CommandOf, ClaimsOk;
    ReachableOk(s);
  }

  // ---- plans --------------------------------------------------------------------------------------------------

  /** At most one plan per issue is active in any state of any run. */
  lemma OneActivePlan(s: State, i: nat, j: nat)
    requires Reachable(s) && PlanEntries.Has(s.plans, i) && PlanEntries.Has(s.plans, j)
    requires s.plans[i].value.status.Active? && s.plans[j].value.status.Active?
    requires s.plans[i].value.entry.repo == s.plans[j].value.entry.repo
    requires s.plans[i].value.entry.issue == s.plans[j].value.entry.issue
    ensures i == j
  {
    hide Reachable, Inv;
    ReachableOk(s);
    LedgerOf(s);
    var issue := PlanEntries.IssueOf(s.plans[i].value.entry);
    assert PlanEntries.ActiveAt(s.plans, i, issue) && PlanEntries.ActiveAt(s.plans, j, issue);
  }

  /** A /plan that finds another plan active on its issue when it commits leaves every row as it
      was, so the winner stays active; only an id is used up. */
  lemma ConflictKeepsWinner(s: State, p: nat, labels: seq<string>, now: int, winner: nat)
    requires Enabled(s, PlanReplace(p, labels, now))
    requires PlanEntries.ActiveAt(s.plans, winner, IssueOf(EventAt(s, p))) && s.procs[p].pc.current != Some(winner)
    ensures var u := Apply(s, PlanReplace(p, labels, now));
      && u.plans == s.plans + (if -2147483648 <= s.procs[p].pc.cmd.minutes <= 2147483647 then [None] else [])
      && u.times == s.times
      && PlanEntries.ActiveAt(u.plans, winner, IssueOf(EventAt(s, p)))
      && u.procs[p].pc.Finished?
  {
    hide CommandOf, EventOf;
  }

  /** In every reachable state the verdict on an issue is "no plan" exactly when no plan is
      active on it: no stored plan has zero minutes. */
  lemma NoPlanExactly(s: State, issue: PlanEntries.Issue, found: Option<nat>, logged: int)
    requires Reachable(s) && PlanAnswer(s.plans, issue, found)
    ensures var planned := if found.Some? then s.plans[found.value].value.entry.minutes else 0;
      PlanVsActual.Classify(planned, logged).NoPlan?
      <==> forall i :: 0 <= i < |s.plans| ==> !PlanEntries.ActiveAt(s.plans, i, issue)
  {
    hide Reachable, Carried, Accepted;
    if found.Some? { PlanRowProvenance(s, found.value); }
  }

  // ---- accounting -----------------------------------------------------------------------------------------------

  /** In every reachable state the logged minutes of an issue are the sum over its chains of the
      last row's minutes, where that row is active. */
  lemma ReachableAccounting(s: State, issue: PlanEntries.Issue)
    requires Reachable(s)
    ensures var t := s.times;
      && Chains.WellLinked(TimeEntries.LinksOf(t))
      && PlanVsActual.LoggedMins(t, issue)
        == ChainTotals.Sum(seq(|t|, i requires 0 <= i < |t| => PlanVsActual.ChainContribution(t, i, issue)))
  {
    hide *;
    ReachableOk(s);
    LedgerOf(s);
    PlanVsActual.LoggedIsChainTotal(s.times, issue);
  }

  /** ComputePlanVsActual reads the plan at one moment and the time entries at a later one: the verdict
      is "no plan" exactly when no plan was active at the first, and the logged minutes are the
      active chain ends of the second. */
  lemma AggregateAmongWriters(states: seq<State>, steps: seq<Step>, m: nat, n: nat, issue: PlanEntries.Issue,
        found: Option<nat>)
    requires IsRun(states, steps) && m <= n <= |steps| && PlanAnswer(states[m].plans, issue, found)
    ensures var t := states[n].times;
      var planned := if found.Some? then states[m].plans[found.value].value.entry.minutes else 0;
      && Chains.WellLinked(TimeEntries.LinksOf(t))
      && (PlanVsActual.Classify(planned, PlanVsActual.LoggedMins(t, issue)).NoPlan?
          <==> forall i :: 0 <= i < |states[m].plans| ==> !PlanEntries.ActiveAt(states[m].plans, i, issue))
      && PlanVsActual.LoggedMins(t, issue)
        == ChainTotals.Sum(seq(|t|, i requires 0 <= i < |t| => PlanVsActual.ChainContribution(t, i, issue)))
  {
    hide Apply, Enabled, Reachable, PlanVsActual.LoggedMins, PlanVsActual.ChainContribution, PlanVsActual.Classify;
    PassedThrough(states, steps, m);
    PassedThrough(states, steps, n);
    NoPlanExactly(states[m], issue, found, PlanVsActual.LoggedMins(states[n].times, issue));
    ReachableAccounting(states[n], issue);
  }

  // ---- what stale reads do ------------------------------------------------------------------------------------------

  /** The number of active rows of a key among the first n slots. */
  function ActiveCount(t: TimeEntries.Table, key: TimeEntries.Key, n: nat): nat
    requires n <= |t|
  {
    if n == 0 then 0 else ActiveCount(t, key, n - 1) + (if TimeEntries.ActiveAt(t, n - 1, key) then 1 else 0)
  }

  lemma {:induction false} ActiveCountStep(t: TimeEntries.Table, u: TimeEntries.Table, key: TimeEntries.Key,
        changed: nat, n: nat)
    requires n <= |t| == |u| && changed < |t| && !TimeEntries.ActiveAt(u, changed, key)
    requires forall i :: 0 <= i < |t| && i != changed ==> u[i] == t[i]
    ensures ActiveCount(t, key, n)
      == ActiveCount(u, key, n) + (if changed < n && TimeEntries.ActiveAt(t, changed, key) then 1 else 0)
  {
    if n == 0 {
    } else {
      ActiveCountStep(t, u, key, changed, n - 1);
    }
  }

  /** Process p runs its Supersede, then process q runs its own. */
  function LinkBoth(s: State, p: nat, q: nat): State
    requires At(s, p) && At(s, q) && p != q
    requires s.procs[p].pc.CorrectInserted? && s.procs[q].pc.CorrectInserted?
  {
    CorrectLinkResult(CorrectLinkResult(s, p), q)
  }

  /** In u both new rows are as in t, the corrected row points at the second, and nothing points
      at the first. */
  ghost predicate FirstOrphaned(t: TimeEntries.Table, u: TimeEntries.Table, prev: nat, first: nat, second: nat) {
    && first != second && first < |t| == |u| && second < |t|
    && u[first] == t[first] && u[second] == t[second]
    && TimeEntries.Points(u, prev, second)
    && forall i :: !TimeEntries.Points(u, i, first)
  }

  /** Two interleaved corrections of one row: both new rows stay active, and the pointer of the
      corrected row is overwritten, so that nothing points at the first new row any more. */
  lemma StaleCorrections(s: State, p: nat, q: nat, prev: nat, first: nat, second: nat)
    requires Inv(s) && p < |s.procs| && q < |s.procs| && p != q
    requires s.procs[p].pc == CorrectInserted(prev, first) && s.procs[q].pc == CorrectInserted(prev, second)
    requires TimeEntries.Has(s.times, first) && s.times[first].value.status.Active?
    requires TimeEntries.Has(s.times, second) && s.times[second].value.status.Active?
    ensures FirstOrphaned(s.times, LinkBoth(s, p, q).times, prev, first, second)
  {
    hide Inv, CommandOf, EventOf, WroteNothing, FirstOrphaned, TimeEntries.Linked;
    ProcOkAt(s, p);
    ProcOkAt(s, q);
    LinkedTwice(s.times, prev, first, second);
  }

  lemma LinkedTwice(t: TimeEntries.Table, prev: nat, first: nat, second: nat)
    requires TimeEntries.Has(t, prev) && prev < first < |t| && prev < second < |t| && first != second
    requires forall i :: !TimeEntries.Points(t, i, first)
    ensures FirstOrphaned(t, TimeEntries.Linked(TimeEntries.Linked(t, prev, first), prev, second), prev, first, second)
  {
    var u := TimeEntries.Linked(TimeEntries.Linked(t, prev, first), prev, second);
    assert forall i :: i != prev && TimeEntries.Points(u, i, first) ==> TimeEntries.Points(t, i, first);
  }
}
