/** What a served command has done to the tables, and what becomes of one that was stopped right
    after its claim (internal/webhook/handler.go). */
module ServiceEffects {
  import opened Options
  import opened Columns
  import opened Deliveries
  import opened Interleaving
  import opened InterleavingSafety
  import opened Service
  import Commands
  import TimeEntries
  import PlanEntries
  import Runs = InterleavedRuns

  // ---- what the last statement of a command leaves -----------------------------------------------

  predicate NoActiveTime(t: TimeEntries.Table, key: TimeEntries.Key) {
    forall i :: 0 <= i < |t| ==> !TimeEntries.ActiveAt(t, i, key)
  }

  predicate NoActivePlan(t: PlanEntries.Table, issue: PlanEntries.Issue) {
    forall i :: 0 <= i < |t| ==> !PlanEntries.ActiveAt(t, i, issue)
  }

  /** A new active row of the author on the issue, written by p. */
  predicate TimeRowWritten(s: State, u: State, p: nat, key: TimeEntries.Key) {
    var id := |s.times|;
    id in u.timeBy && u.timeBy[id] == p && TimeEntries.ActiveAt(u.times, id, key)
  }

  /** Row prev is superseded by a row that p wrote for the same person and issue. */
  predicate LinkMade(u: State, p: nat, prev: nat, newId: nat, key: TimeEntries.Key) {
    && newId in u.timeBy && u.timeBy[newId] == p
    && TimeEntries.Points(u.times, prev, newId) && u.times[prev].value.status.Superseded?
    && TimeEntries.Has(u.times, newId) && TimeEntries.KeyOf(u.times[newId].value.entry) == key
  }

  /** Row prev is deleted and every other row is as it was. */
  predicate TimeDeleted(t: TimeEntries.Table, u: TimeEntries.Table, prev: nat) {
    && |u| == |t| && TimeEntries.Has(u, prev) && u[prev].value.status.Deleted?
    && forall i :: 0 <= i < |t| && i != prev ==> u[i] == t[i]
  }

  predicate PlanDeleted(t: PlanEntries.Table, u: PlanEntries.Table, prev: nat, closing: PlanEntries.Closing) {
    && |u| == |t| && PlanEntries.Has(u, prev) && u[prev].value.status.Deleted? && u[prev].value.closing == Some(closing)
    && forall i :: 0 <= i < |t| && i != prev ==> u[i] == t[i]
  }

  /** Another plan than the one looked up is active on the issue. */
  predicate Overtaken(t: PlanEntries.Table, issue: PlanEntries.Issue, current: Option<nat>) {
    exists w :: 0 <= w < |t| && PlanEntries.ActiveAt(t, w, issue) && current != Some(w)
  }

  /** A new active plan written by p, superseding the one looked up. */
  predicate PlanWritten(s: State, u: State, p: nat, issue: PlanEntries.Issue, current: Option<nat>) {
    var id := |s.plans|;
    && id in u.planBy && u.planBy[id] == p && PlanEntries.ActiveAt(u.plans, id, issue)
    && (current.Some? ==>
      PlanEntries.Points(u.plans, current.value, id) && u.plans[current.value].value.status.Superseded?)
  }

  /** The rows are the same; at most an id was used up. */
  predicate SamePlanRows(t: PlanEntries.Table, u: PlanEntries.Table) {
    u == t || u == PlanEntries.Burned(t)
  }

  predicate PlanEffect(s: State, u: State, p: nat, cmd: Command, issue: PlanEntries.Issue, current: Option<nat>) {
    if FitsInt4(cmd.minutes) && !Overtaken(s.plans, issue, current) then PlanWritten(s, u, p, issue, current)
    else SamePlanRows(s.plans, u.plans)
  }

  /** What the completing step has done, command by command. */
  predicate Effect(s: State, step: Step, u: State, p: nat, event: Event, cmd: Command) {
    match step
    case LogInsert(q, labels, client, now) =>
      && cmd.verb.Log?
      && (if FitsInt4(cmd.minutes) then TimeRowWritten(s, u, p, KeyOf(event)) else u.times == s.times)
    case CorrectFind(q, found) => cmd.verb.Correct? && NoActiveTime(s.times, KeyOf(event)) && u.times == s.times
    case CorrectInsert(q, labels, now) => cmd.verb.Correct? && !FitsInt4(cmd.minutes) && u.times == s.times
    case CorrectLink(q) =>
      && cmd.verb.Correct? && p < |s.procs| && s.procs[p].pc.CorrectInserted?
      && LinkMade(u, p, s.procs[p].pc.prev, s.procs[p].pc.newId, KeyOf(event))
    case DeleteFind(q, found) => cmd.verb.Delete? && NoActiveTime(s.times, KeyOf(event)) && u.times == s.times
    case DeleteMark(q) =>
      cmd.verb.Delete? && p < |s.procs| && s.procs[p].pc.DeleteFound? &&
        TimeDeleted(s.times, u.times, s.procs[p].pc.prev)
    case PlanReplace(q, labels, now) =>
      && cmd.verb.Plan? && p < |s.procs| && s.procs[p].pc.PlanFound?
      && PlanEffect(s, u, p, cmd, IssueOf(event), s.procs[p].pc.current)
    case UnplanFind(q, found) => cmd.verb.Unplan? && NoActivePlan(s.plans, IssueOf(event)) && u.plans == s.plans
    case UnplanMark(q) =>
      && cmd.verb.Unplan? && p < |s.procs| && s.procs[p].pc.UnplanFound?
      && PlanDeleted(s.plans, u.plans, s.procs[p].pc.prev, ClosingFor(event))
    case _ => false
  }

  lemma EffectOfStep(s: State, step: Step, p: nat, cmd: Command)
    requires Inv(s) && Enabled(s, step) && Completes(s, step, p) && p < |s.procs|
    requires CommandOf(s.procs[p].d) == Some(cmd)
    ensures EventOf(s.procs[p].d).Some? && Effect(s, step, Apply(s, step), p, EventOf(s.procs[p].d).value, cmd)
  {
    hide Inv, CommandOf, EventOf, WroteNothing, LinkMade, PlanEffect, TimeEntries.IsLatestActive;
    ProcOkAt(s, p);
    if step.CorrectLink? { EffectOfLink(s, p); }
    if step.PlanReplace? { EffectOfReplace(s, p, step.labels, step.now, cmd); }
  }

  lemma EffectOfLink(s: State, p: nat)
    requires Inv(s) && p < |s.procs| && s.procs[p].pc.CorrectInserted?
    ensures EventOf(s.procs[p].d).Some?
    ensures LinkMade(CorrectLinkResult(s, p), p, s.procs[p].pc.prev, s.procs[p].pc.newId,
      KeyOf(EventOf(s.procs[p].d).value))
  {
    hide Inv, CommandOf, EventOf, WroteNothing;
    ProcOkAt(s, p);
  }

  lemma EffectOfReplace(s: State, p: nat, labels: seq<string>, now: int, cmd: Command)
    requires Inv(s) && Running(s, p) && s.procs[p].pc.PlanFound? && CommandOf(s.procs[p].d) == Some(cmd)
    ensures PlanEffect(s, PlanReplaceResult(s, p, labels, now), p, cmd, IssueOf(EventAt(s, p)), s.procs[p].pc.current)
  {
    hide Inv, CommandOf, EventOf, WroteNothing, PlanEntries.Replaced;
    ProcOkAt(s, p);
    var e := PlanEntryFor(EventAt(s, p), cmd, labels);
    var current := s.procs[p].pc.current;
    if current.Some? { ReplacedPoints(s.plans, current.value, e, now); }
    NewPlanActive(s.plans, current, e, now);
  }

  lemma ReplacedPoints(t: PlanEntries.Table, prev: nat, e: PlanEntries.Entry, now: int)
    requires PlanEntries.Has(t, prev)
    ensures var u := PlanEntries.Replaced(t, Some(prev), e, now);
      PlanEntries.Points(u, prev, |t|) && u[prev].value.status.Superseded?
  {
  }

  lemma NewPlanActive(t: PlanEntries.Table, current: Option<nat>, e: PlanEntries.Entry, now: int)
    requires current.Some? ==> PlanEntries.Has(t, current.value)
    ensures PlanEntries.ActiveAt(PlanEntries.Replaced(t, current, e, now), |t|, PlanEntries.IssueOf(e))
  {
  }

  /** The moment p was served, with what its last statement did. */
  predicate ServedWithEffect(states: seq<State>, steps: seq<Step>, m: nat, p: nat)
    requires m < |steps| && m + 1 < |states|
  {
    && Completes(states[m], steps[m], p) && p < |states[m].procs|
    && CommandOf(states[m].procs[p].d).Some?
    && Effect(states[m], steps[m], states[m + 1], p, EventOf(states[m].procs[p].d).value,
      CommandOf(states[m].procs[p].d).value)
  }

  lemma CompletionEffect(states: seq<State>, steps: seq<Step>, m: nat, p: nat)
    requires IsRun(states, steps) && m < |steps| && Completes(states[m], steps[m], p)
    ensures ServedWithEffect(states, steps, m, p)
  {
    hide Apply, Enabled, Inv, Completes, Effect, CommandOf, EventOf, Runs.Accepted;
    CompletingProcess(states, steps, m, p);
    AllowedPassed(states, steps, m, p);
    AcceptedCommand(states[m].procs[p]);
    Runs.RunInvariant(states, steps, m);
    EffectOfStep(states[m], steps[m], p, CommandOf(states[m].procs[p].d).value);
  }

  lemma AcceptedCommand(r: Proc)
    requires Runs.Accepted(r)
    ensures CommandOf(r.d).Some? && CommandOf(r.d).value == Runs.Carried(r)
  {
    hide Commands.Parse;
  }

  /** No command is lost without a stop: at some moment the last statement of an allowed command
      that has come to its end did what the command asks for. */
  lemma CommandNotLost(states: seq<State>, steps: seq<Step>, n: nat, p: nat)
    requires IsRun(states, steps) && n <= |steps| && p < |states[n].procs|
    requires states[n].procs[p].allowed && states[n].procs[p].pc.Finished? && !Interrupted(states, steps, n, p)
    ensures exists m :: 0 <= m < n && ServedWithEffect(states, steps, m, p)
  {
    hide Apply, Enabled, Completes, Interrupted, Effect, ServedWithEffect;
    ServedUnlessInterrupted(states, steps, n, p);
    var m :| 0 <= m < n && Completes(states[m], steps[m], p);
    CompletionEffect(states, steps, m, p);
  }

  // ---- what was looked up before --------------------------------------------------------------------

  /** The row a process carries from its lookup to its last statement. */
  function Carries(pc: Pc): Option<Option<nat>> {
    match pc
    case CorrectFound(cmd, prev, client) => Some(Some(prev))
    case CorrectInserted(prev, newId) => Some(Some(prev))
    case DeleteFound(prev) => Some(Some(prev))
    case PlanFound(cmd, current) => Some(current)
    case UnplanFound(prev) => Some(Some(prev))
    case _ => None
  }

  /** In s the lookup of p's command may return, and does return, what it found. */
  predicate LooksUp(s: State, step: Step, p: nat, found: Option<nat>) {
    && Running(s, p)
    && (if step == CorrectFind(p, found) || step == DeleteFind(p, found)
        then TimeAnswer(s.times, KeyOf(EventAt(s, p)), found)
        else
          && (step == PlanFind(p, found) || step == UnplanFind(p, found))
          && PlanAnswer(s.plans, IssueOf(EventAt(s, p)), found))
  }

  lemma CarriesFrom(s: State, step: Step, p: nat)
    requires Enabled(s, step) && p < |Apply(s, step).procs| && Carries(Apply(s, step).procs[p].pc).Some?
    ensures var carried := Carries(Apply(s, step).procs[p].pc);
      LooksUp(s, step, p, carried.value) || (p < |s.procs| && Carries(s.procs[p].pc) == carried)
  {
    hide LooksUp, Apply, Enabled, Carries;
    if Actor(step) == Some(p) {
      AbsentActs(s, step, p);
      OwnCarriesFrom(s, step, p);
    } else if p < |s.procs| {
      OthersUntouched(s, step, p);
    } else {
      ArrivalCarries(s, step, p);
    }
  }

  lemma AbsentActs(s: State, step: Step, p: nat)
    requires Enabled(s, step) && Actor(step) == Some(p)
    ensures p < |s.procs|
  {
    hide EventOf, TimeAnswer, PlanAnswer;
  }

  lemma ArrivalCarries(s: State, step: Step, p: nat)
    requires Enabled(s, step) && |s.procs| <= p < |Apply(s, step).procs|
    ensures Carries(Apply(s, step).procs[p].pc).None?
  {
    hide CommandOf, EventOf, TimeAnswer, PlanAnswer;
  }

  predicate IsLookup(step: Step) {
    step.CorrectFind? || step.DeleteFind? || step.PlanFind? || step.UnplanFind?
  }

  lemma OwnCarriesFrom(s: State, step: Step, p: nat)
    requires Enabled(s, step) && Actor(step) == Some(p) && p < |s.procs| && p < |Apply(s, step).procs|
    requires Carries(Apply(s, step).procs[p].pc).Some?
    ensures var carried := Carries(Apply(s, step).procs[p].pc);
      LooksUp(s, step, p, carried.value) || Carries(s.procs[p].pc) == carried
  {
    hide Apply, Enabled, LooksUp, Carries;
    if IsLookup(step) { LookupCarries(s, step, p); } else { OthersCarryOn(s, step, p); }
  }

  lemma LookupCarries(s: State, step: Step, p: nat)
    requires Enabled(s, step) && Actor(step) == Some(p) && p < |s.procs| && p < |Apply(s, step).procs|
    requires IsLookup(step)
    ensures var carried := Carries(Apply(s, step).procs[p].pc);
      carried.Some? ==> LooksUp(s, step, p, carried.value)
  {
    hide CommandOf, EventOf, TimeAnswer, PlanAnswer;
  }

  lemma OthersCarryOn(s: State, step: Step, p: nat)
    requires Enabled(s, step) && Actor(step) == Some(p) && p < |s.procs| && p < |Apply(s, step).procs|
    requires !IsLookup(step)
    ensures var carried := Carries(Apply(s, step).procs[p].pc);
      carried.Some? ==> Carries(s.procs[p].pc) == carried
  {
    hide CommandOf, EventOf, TimeAnswer, PlanAnswer, PlanEntries.ReplaceAllowed, TimeEntries.Linked;
    hide PlanEntries.Replaced, TimeEntries.Inserted, TimeEntries.SoftDeleted, PlanEntries.SoftDeleted;
    hide TimeEntryFor, PlanEntryFor, KeyOf, IssueOf, ClosingFor, FitsInt4;
  }

  /** The row a command is about was, at an earlier moment of the run, what its lookup found: the
      latest active row of the author on the issue, or the issue's active plan. */
  lemma {:induction false} LookedUpBefore(states: seq<State>, steps: seq<Step>, n: nat, p: nat)
    requires IsRun(states, steps) && n <= |steps| && p < |states[n].procs| && Carries(states[n].procs[p].pc).Some?
    ensures exists m :: 0 <= m < n && LooksUp(states[m], steps[m], p, Carries(states[n].procs[p].pc).value)
    decreases n
  {
    hide Apply, Enabled, LooksUp;
    if n == 0 {
      assert false;
    } else {
      CarriesFrom(states[n - 1], steps[n - 1], p);
      if !LooksUp(states[n - 1], steps[n - 1], p, Carries(states[n].procs[p].pc).value) {
        LookedUpBefore(states, steps, n - 1, p);
      }
    }
  }

  // ---- rows stay with their writers ---------------------------------------------------------------

  ghost predicate OwnersStay(s: State, u: State) {
    && (forall i: nat {:trigger i in u.timeBy} :: i in s.timeBy ==> i in u.timeBy && u.timeBy[i] == s.timeBy[i])
    && (forall i: nat {:trigger i in u.planBy} :: i in s.planBy ==> i in u.planBy && u.planBy[i] == s.planBy[i])
  }

  predicate Inserts(step: Step) {
    step.LogInsert? || step.CorrectInsert? || step.PlanReplace?
  }

  lemma StepOwnersStay(s: State, step: Step)
    requires Inv(s) && Enabled(s, step)
    ensures OwnersStay(s, Apply(s, step))
  {
    if Inserts(step) {
      hide Inv, EventOf, PlanEntries.ReplaceAllowed, PlanEntries.Replaced;
      NextIdsUnowned(s);
    } else {
      hide Inv, Apply, Enabled;
      OwnersKept(s, step);
    }
  }

  lemma OwnersKept(s: State, step: Step)
    requires Enabled(s, step) && !Inserts(step)
    ensures Apply(s, step).timeBy == s.timeBy && Apply(s, step).planBy == s.planBy
  {
    hide CommandOf, EventOf, TimeAnswer, PlanAnswer;
  }

  lemma OwnersStaySelf(s: State)
    ensures OwnersStay(s, s)
  {
  }

  lemma OwnersStayTransitive(a: State, b: State, c: State)
    requires OwnersStay(a, b) && OwnersStay(b, c)
    ensures OwnersStay(a, c)
  {
    forall i: nat | i in a.timeBy
      ensures i in c.timeBy && c.timeBy[i] == a.timeBy[i]
    {
      assert i in b.timeBy;
    }
    forall i: nat | i in a.planBy
      ensures i in c.planBy && c.planBy[i] == a.planBy[i]
    {
      assert i in b.planBy;
    }
  }

  lemma NextIdsUnowned(s: State)
    requires Inv(s)
    ensures |s.times| !in s.timeBy && |s.plans| !in s.planBy
  {
    hide CommandOf, EventOf, ProcOk, ClaimsOk, TimeEntries.Ledger, PlanEntries.Ledger, TimeRowFrom, PlanRowFrom;
  }

  lemma {:induction false} RunOwnersStay(states: seq<State>, steps: seq<Step>, m: nat, n: nat)
    requires IsRun(states, steps) && m <= n <= |steps|
    ensures OwnersStay(states[m], states[n])
    decreases n
  {
    hide Apply, Enabled, Inv, OwnersStay;
    if m == n {
      OwnersStaySelf(states[m]);
    } else {
      RunStep(states, steps, n);
      RunOwnersStay(states, steps, m, n - 1);
      StepOwnersStay(states[n - 1], steps[n - 1]);
      OwnersStayTransitive(states[m], states[n - 1], states[n]);
    }
  }

  /** In every run a finished /log that was allowed, whose minutes fit the column and that nobody
      stopped has its row; the row is the one its comment asks for by TimeRowProvenance. */
  lemma LogNotLost(states: seq<State>, steps: seq<Step>, n: nat, p: nat)
    requires IsRun(states, steps) && n <= |steps| && p < |states[n].procs|
    requires states[n].procs[p].allowed && states[n].procs[p].pc.Finished? && !Interrupted(states, steps, n, p)
    requires var cmd := CommandOf(states[n].procs[p].d);
      cmd.Some? && cmd.value.verb.Log? && FitsInt4(cmd.value.minutes)
    ensures exists i :: i in states[n].timeBy && states[n].timeBy[i] == p
  {
    hide Apply, Enabled, Interrupted, CommandOf, EventOf;
    CommandNotLost(states, steps, n, p);
    var m :| 0 <= m < n && ServedWithEffect(states, steps, m, p);
    ProcessKept(states, steps, m, n, p);
    RunOwnersStay(states, steps, m + 1, n);
    var id := |states[m].times|;
    assert TimeRowWritten(states[m], states[m + 1], p, KeyOf(EventOf(states[m].procs[p].d).value));
    assert id in states[n].timeBy && states[n].timeBy[id] == p;
  }

  /** Likewise a /plan, unless another plan had become active on its issue since it looked. */
  lemma PlanNotLost(states: seq<State>, steps: seq<Step>, n: nat, p: nat)
    requires IsRun(states, steps) && n <= |steps| && p < |states[n].procs|
    requires states[n].procs[p].allowed && states[n].procs[p].pc.Finished? && !Interrupted(states, steps, n, p)
    requires var cmd := CommandOf(states[n].procs[p].d);
      cmd.Some? && cmd.value.verb.Plan? && FitsInt4(cmd.value.minutes)
    ensures EventOf(states[n].procs[p].d).Some?
    ensures (exists i :: i in states[n].planBy && states[n].planBy[i] == p)
      || exists m :: 0 <= m < n && Conflicts(states[m], steps[m], p, IssueOf(EventOf(states[n].procs[p].d).value))
  {
    hide Apply, Enabled, Interrupted, CommandOf, EventOf;
    CommandNotLost(states, steps, n, p);
    var m :| 0 <= m < n && ServedWithEffect(states, steps, m, p);
    ProcessKept(states, steps, m, n, p);
    RunOwnersStay(states, steps, m + 1, n);
    if !Conflicts(states[m], steps[m], p, IssueOf(EventOf(states[n].procs[p].d).value)) {
      var id := |states[m].plans|;
      assert id in states[n].planBy && states[n].planBy[id] == p;
    }
  }

  /** Process p is about to replace a plan, and another plan is active on its issue. */
  predicate Conflicts(s: State, step: Step, p: nat, issue: PlanEntries.Issue) {
    step.PlanReplace? && step.p == p && p < |s.procs| && s.procs[p].pc.PlanFound? &&
      Overtaken(s.plans, issue, s.procs[p].pc.current)
  }

  // ---- a stop between claim and dispatch -----------------------------------------------------------

  /** Once the process that won the claim of an id is stopped before it dispatches, no delivery with
      the id is ever dispatched, completes anything or has a row, however often it comes again. */
  lemma LostForGood(states: seq<State>, steps: seq<Step>, m: nat, n: nat, p: nat, q: nat)
    requires IsRun(states, steps) && m < n <= |steps|
    requires steps[m] == Stop(p) && p < |states[m].procs| && states[m].procs[p].pc.Dispatching?
    requires states[m].procs[p].d.id != ""
    requires q < |states[n].procs| && states[n].procs[q].d.id == states[m].procs[p].d.id
    ensures !states[n].procs[q].allowed && !Served(states, steps, n, q)
    ensures forall i :: i in states[n].timeBy ==> states[n].timeBy[i] != q
    ensures forall i :: i in states[n].planBy ==> states[n].planBy[i] != q
  {
    hide Apply, Enabled, Inv, Served, Interrupted, Runs.Accepted, Reachable;
    Runs.RunInvariant(states, steps, m);
    StoppedAtDispatch(states[m], p);
    assert states[m + 1] == Apply(states[m], steps[m]);
    ProcessKept(states, steps, m + 1, n, p);
    Progress(states, steps, n, q);
    if states[n].procs[q].allowed {
      AllowedPassed(states, steps, n, q);
      PassedThrough(states, steps, n);
      Runs.DispatchedAtMostOnce(states[n], p, q);
    }
    Runs.RunInvariant(states, steps, n);
    OwnersAllowed(states[n]);
  }

  lemma StoppedAtDispatch(s: State, p: nat)
    requires Inv(s) && p < |s.procs| && s.procs[p].pc.Dispatching?
    ensures p < |Apply(s, Stop(p)).procs|
    ensures var r := Apply(s, Stop(p)).procs[p];
      r.pc.Finished? && r.passed && !r.allowed && r.d == s.procs[p].d
  {
    hide Inv, WroteNothing;
    ProcOkAt(s, p);
  }

  lemma OwnersAllowed(s: State)
    requires Inv(s)
    ensures forall i: nat :: i in s.timeBy ==> s.timeBy[i] < |s.procs| && s.procs[s.timeBy[i]].allowed
    ensures forall i: nat :: i in s.planBy ==> s.planBy[i] < |s.procs| && s.procs[s.planBy[i]].allowed
  {
    hide CommandOf, EventOf, ProcOk, ClaimsOk, TimeEntries.Ledger, PlanEntries.Ledger;
  }

  /** Such runs exist, whatever the delivery asks for: claimed, stopped, and nothing written. */
  lemma CommandLost(d: Delivery) returns (states: seq<State>, steps: seq<Step>)
    requires d.signatureOk && d.id != ""
    ensures IsRun(states, steps) && steps == [Receive(d), Claim(0), Stop(0)]
    ensures |states[2].procs| == 1 && states[2].procs[0].d == d && states[2].procs[0].pc.Dispatching?
    ensures states[3].times == INIT.times && states[3].plans == INIT.plans && d.id in states[3].claimed
  {
    var s1 := ReceiveResult(INIT, d);
    var s2 := ClaimResult(s1, 0);
    states, steps := [INIT, s1, s2, Goto(s2, 0, Finished)], [Receive(d), Claim(0), Stop(0)];
  }
}
