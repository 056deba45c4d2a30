/** What one /correct does, over a whole run, to the number of active rows of its author on its
    issue (internal/webhook/handler.go). */
module CorrectionBalance {
  import opened Options
  import opened Columns
  import opened Deliveries
  import opened Interleaving
  import opened InterleavingSafety
  import opened Service
  import Effects = ServiceEffects
  import TimeEntries
  import PlanEntries
  import Runs = InterleavedRuns

  function Count(s: State, key: TimeEntries.Key): nat {
    Runs.ActiveCount(s.times, key, |s.times|)
  }

  /** By how much the steps of process p, taken together, change the number of active rows. */
  function NetChange(states: seq<State>, steps: seq<Step>, n: nat, p: nat, key: TimeEntries.Key): int
    requires n <= |steps| < |states|
  {
    if n == 0 then 0
    else
      NetChange(states, steps, n - 1, p, key)
      + (if Actor(steps[n - 1]) == Some(p) then Count(states[n], key) - Count(states[n - 1], key) else 0)
  }

  /** The Supersede of p runs, and the row it marks is still active. */
  predicate SupersedesActive(s: State, step: Step, p: nat) {
    && step == CorrectLink(p) && At(s, p) && s.procs[p].pc.CorrectInserted?
    && TimeEntries.Has(s.times, s.procs[p].pc.prev) && s.times[s.procs[p].pc.prev].value.status.Active?
  }

  predicate SupersededActive(states: seq<State>, steps: seq<Step>, n: nat, p: nat)
    requires n <= |steps| < |states|
  {
    exists m :: 0 <= m < n && SupersedesActive(states[m], steps[m], p)
  }

  ghost predicate OwnsRow(s: State, p: nat) {
    exists i :: i in s.timeBy && s.timeBy[i] == p
  }

  predicate Corrects(r: Proc, key: TimeEntries.Key) {
    CommandOf(r.d).Some? && CommandOf(r.d).value.verb.Correct? && KeyOf(EventOf(r.d).value) == key
  }

  // ---- counting --------------------------------------------------------------------------------

  lemma {:induction false} CountSame(t: TimeEntries.Table, u: TimeEntries.Table, key: TimeEntries.Key, n: nat)
    requires n <= |t| && n <= |u|
    requires forall i :: 0 <= i < n ==> TimeEntries.ActiveAt(u, i, key) == TimeEntries.ActiveAt(t, i, key)
    ensures Runs.ActiveCount(u, key, n) == Runs.ActiveCount(t, key, n)
  {
    if n == 0 {
    } else {
      CountSame(t, u, key, n - 1);
    }
  }

  lemma CountInserted(t: TimeEntries.Table, e: TimeEntries.Entry, now: int, key: TimeEntries.Key)
    ensures Runs.ActiveCount(TimeEntries.Inserted(t, e, now), key, |t| + 1)
      == Runs.ActiveCount(t, key, |t|) + (if TimeEntries.KeyOf(e) == key then 1 else 0)
  {
    CountSame(t, TimeEntries.Inserted(t, e, now), key, |t|);
  }

  lemma CountLinked(t: TimeEntries.Table, prev: nat, newId: nat, key: TimeEntries.Key)
    requires TimeEntries.Has(t, prev)
    ensures Runs.ActiveCount(TimeEntries.Linked(t, prev, newId), key, |t|)
      == Runs.ActiveCount(t, key, |t|) - (if TimeEntries.ActiveAt(t, prev, key) then 1 else 0)
  {
    Runs.ActiveCountStep(t, TimeEntries.Linked(t, prev, newId), key, prev, |t|);
  }

  // ---- one step of a /correct ---------------------------------------------------------------------

  /** One step adds a row for its own key, or takes the row it supersedes away, or does neither. */
  ghost predicate StepBalance(s: State, step: Step, u: State, p: nat, own: TimeEntries.Key, key: TimeEntries.Key) {
    && (OwnsRow(s, p) ==> OwnsRow(u, p))
    && (SupersedesActive(s, step, p) ==> OwnsRow(s, p))
    && Count(u, key) - Count(s, key)
      == (if key == own && OwnsRow(u, p) && !OwnsRow(s, p) then 1 else 0)
       - (if key == own && SupersedesActive(s, step, p) then 1 else 0)
  }

  lemma InsertBalance(s: State, p: nat, labels: seq<string>, now: int, own: TimeEntries.Key, key: TimeEntries.Key)
    requires Inv(s) && Running(s, p) && s.procs[p].pc.CorrectFound? && KeyOf(EventAt(s, p)) == own
    ensures StepBalance(s, CorrectInsert(p, labels, now), CorrectInsertResult(s, p, labels, now), p, own, key)
  {
    hide Inv, CommandOf, EventOf, TimeEntries.Inserted, Runs.ActiveCount;
    ProcOkAt(s, p);
    var u, pc := CorrectInsertResult(s, p, labels, now), s.procs[p].pc;
    var e := TimeEntryFor(EventAt(s, p), pc.cmd, labels, pc.client);
    if FitsInt4(pc.cmd.minutes) {
      CountInserted(s.times, e, now, key);
      InsertedLength(s.times, e, now);
      assert |s.times| in u.timeBy && u.timeBy[|s.times|] == p;
    }
  }

  lemma InsertedLength(t: TimeEntries.Table, e: TimeEntries.Entry, now: int)
    ensures |TimeEntries.Inserted(t, e, now)| == |t| + 1
  {
  }

  lemma LinkBalance(s: State, p: nat, own: TimeEntries.Key, key: TimeEntries.Key)
    requires Inv(s) && At(s, p) && s.procs[p].pc.CorrectInserted? && Corrects(s.procs[p], own)
    ensures StepBalance(s, CorrectLink(p), CorrectLinkResult(s, p), p, own, key)
  {
    hide Inv, CommandOf, EventOf, TimeEntries.Linked, Runs.ActiveCount, WroteNothing;
    ProcOkAt(s, p);
    var pc := s.procs[p].pc;
    CountLinked(s.times, pc.prev, pc.newId, key);
    LinkedLength(s.times, pc.prev, pc.newId);
    assert pc.newId in s.timeBy && s.timeBy[pc.newId] == p;
  }

  lemma LinkedLength(t: TimeEntries.Table, prev: nat, newId: nat)
    ensures |TimeEntries.Linked(t, prev, newId)| == |t|
  {
  }

  /** Every other step of such a process leaves the time table alone. */
  lemma OtherStepsIdle(s: State, step: Step, p: nat, own: TimeEntries.Key)
    requires Inv(s) && Enabled(s, step) && Actor(step) == Some(p) && At(s, p) && Corrects(s.procs[p], own)
    requires !step.CorrectInsert? && !step.CorrectLink?
    ensures Apply(s, step).times == s.times && Apply(s, step).timeBy == s.timeBy
  {
    hide Inv, CommandOf, EventOf, WroteNothing, TimeAnswer, PlanAnswer, PlanEntries.ReplaceAllowed;
    ProcOkAt(s, p);
  }

  lemma OwnStepBalance(s: State, step: Step, p: nat, own: TimeEntries.Key, key: TimeEntries.Key)
    requires Inv(s) && Enabled(s, step) && Actor(step) == Some(p) && At(s, p) && Corrects(s.procs[p], own)
    ensures StepBalance(s, step, Apply(s, step), p, own, key)
  {
    hide Inv, CommandOf, EventOf, CorrectInsertResult, CorrectLinkResult, TimeAnswer, PlanAnswer;
    match step
    case CorrectInsert(q, labels, now) => InsertBalance(s, p, labels, now, own, key);
    case CorrectLink(q) => LinkBalance(s, p, own, key);
    case _ =>
      hide Apply, Enabled;
      OtherStepsIdle(s, step, p, own);
  }

  /** The steps of others give p no row and take none away. */
  lemma OthersKeepRows(s: State, step: Step, p: nat)
    requires Inv(s) && Enabled(s, step) && Actor(step) != Some(p)
    ensures OwnsRow(Apply(s, step), p) <==> OwnsRow(s, p)
    ensures !SupersedesActive(s, step, p)
  {
    hide Inv, Apply, Enabled;
    Effects.StepOwnersStay(s, step);
    NewRowsAreActors(s, step, p);
    if i :| i in s.timeBy && s.timeBy[i] == p {
      assert i in Apply(s, step).timeBy && Apply(s, step).timeBy[i] == p;
    }
  }

  lemma NewRowsAreActors(s: State, step: Step, p: nat)
    requires Enabled(s, step) && Actor(step) != Some(p)
    ensures forall i :: i in Apply(s, step).timeBy && Apply(s, step).timeBy[i] == p ==>
      i in s.timeBy && s.timeBy[i] == p
  {
    hide CommandOf, EventOf, TimeAnswer, PlanAnswer, PlanEntries.ReplaceAllowed;
  }

  // ---- the whole command ------------------------------------------------------------------------

  lemma SupersededStep(states: seq<State>, steps: seq<Step>, n: nat, p: nat)
    requires 0 < n <= |steps| < |states|
    ensures SupersededActive(states, steps, n, p)
      <==> SupersededActive(states, steps, n - 1, p) || SupersedesActive(states[n - 1], steps[n - 1], p)
  {
    hide SupersedesActive;
  }

  /** The balance so far: one more active row of its own key exactly when the row is inserted and no
      active row superseded; nothing for any other key. */
  ghost predicate BalanceAt(s: State, p: nat, own: TimeEntries.Key, key: TimeEntries.Key, net: int, superseded: bool) {
    && net == (if key == own && OwnsRow(s, p) && !superseded then 1 else 0)
    && (superseded ==> OwnsRow(s, p) && p < |s.procs| && s.procs[p].pc.Finished?)
  }

  lemma SupersedingFinishes(s: State, step: Step, p: nat)
    requires Enabled(s, step) && SupersedesActive(s, step, p)
    ensures p < |s.procs| && !s.procs[p].pc.Finished? && Actor(step) == Some(p)
    ensures p < |Apply(s, step).procs| && Apply(s, step).procs[p].pc.Finished?
  {
    hide CommandOf, EventOf;
  }

  lemma BalanceNext(s: State, step: Step, p: nat, own: TimeEntries.Key, key: TimeEntries.Key, net: int,
        superseded: bool)
    requires Inv(s) && Enabled(s, step) && BalanceAt(s, p, own, key, net, superseded)
    requires p < |s.procs| ==> Corrects(s.procs[p], own)
    ensures BalanceAt(Apply(s, step), p, own, key,
      net + (if Actor(step) == Some(p) then Count(Apply(s, step), key) - Count(s, key) else 0),
      superseded || SupersedesActive(s, step, p))
  {
    hide Inv, Apply, Enabled, OwnsRow, SupersedesActive, Corrects, Count, Completes, Interrupts, Runs.Accepted;
    if p < |s.procs| { StepSeenBy(s, step, p); }
    if SupersedesActive(s, step, p) { SupersedingFinishes(s, step, p); }
    if Actor(step) == Some(p) {
      Effects.AbsentActs(s, step, p);
      OwnStepBalance(s, step, p, own, key);
    } else {
      OthersKeepRows(s, step, p);
    }
  }

  lemma {:induction false} Balance(states: seq<State>, steps: seq<Step>, n: nat, p: nat, own: TimeEntries.Key,
        key: TimeEntries.Key)
    requires IsRun(states, steps) && n <= |steps|
    requires p < |states[n].procs| ==> Corrects(states[n].procs[p], own)
    ensures BalanceAt(states[n], p, own, key, NetChange(states, steps, n, p, key),
      SupersededActive(states, steps, n, p))
  {
    hide *;
    if n == 0 {
      BalanceStart(states, steps, p, own, key);
    } else {
      RunStep(states, steps, n);
      CorrectsBefore(states, steps, n, p, own);
      Balance(states, steps, n - 1, p, own, key);
      SupersededStep(states, steps, n, p);
      NetChangeStep(states, steps, n, p, key);
      BalanceNext(states[n - 1], steps[n - 1], p, own, key,
        NetChange(states, steps, n - 1, p, key), SupersededActive(states, steps, n - 1, p));
    }
  }

  lemma BalanceStart(states: seq<State>, steps: seq<Step>, p: nat, own: TimeEntries.Key, key: TimeEntries.Key)
    requires IsRun(states, steps)
    ensures |states| == |steps| + 1
    ensures BalanceAt(states[0], p, own, key, NetChange(states, steps, 0, p, key),
      SupersededActive(states, steps, 0, p))
  {
    hide Apply, Enabled, SupersedesActive, Count;
  }

  lemma CorrectsBefore(states: seq<State>, steps: seq<Step>, n: nat, p: nat, own: TimeEntries.Key)
    requires IsRun(states, steps) && 0 < n <= |steps|
    requires p < |states[n].procs| ==> Corrects(states[n].procs[p], own)
    ensures p < |states[n - 1].procs| ==> Corrects(states[n - 1].procs[p], own)
  {
    hide Apply, Enabled, Corrects;
    if p < |states[n - 1].procs| {
      ProcessKept(states, steps, n - 1, n, p);
      SameCorrection(states[n - 1].procs[p], states[n].procs[p], own);
    }
  }

  lemma NetChangeStep(states: seq<State>, steps: seq<Step>, n: nat, p: nat, key: TimeEntries.Key)
    requires 0 < n <= |steps| < |states|
    ensures NetChange(states, steps, n, p, key)
      == NetChange(states, steps, n - 1, p, key)
      + (if Actor(steps[n - 1]) == Some(p) then Count(states[n], key) - Count(states[n - 1], key) else 0)
  {
    hide Count;
  }

  lemma SameCorrection(r: Proc, other: Proc, own: TimeEntries.Key)
    requires r.d == other.d
    ensures Corrects(r, own) <==> Corrects(other, own)
  {
  }

  /** At every moment of every run a /correct has changed the number of active rows of its author on
      its issue by zero or one, and of any other key by zero. It is zero if and only if it has
      inserted no row, or its Supersede has run and found the corrected row still active. */
  lemma CorrectKeepsCountIff(states: seq<State>, steps: seq<Step>, n: nat, p: nat, own: TimeEntries.Key,
        key: TimeEntries.Key)
    requires IsRun(states, steps) && n <= |steps| && p < |states[n].procs| && Corrects(states[n].procs[p], own)
    ensures 0 <= NetChange(states, steps, n, p, key) <= 1
    ensures key != own ==> NetChange(states, steps, n, p, key) == 0
    ensures NetChange(states, steps, n, p, own) == 0 <==>
      !OwnsRow(states[n], p) || SupersededActive(states, steps, n, p)
  {
    hide Apply, Enabled, Corrects, SupersededActive, OwnsRow, NetChange;
    Balance(states, steps, n, p, own, key);
    Balance(states, steps, n, p, own, own);
  }

  /** So a /correct whose Supersede fails, which the handler only logs, or that is stopped before it,
      leaves one active row more for good. */
  lemma FailedSupersedeAddsRow(states: seq<State>, steps: seq<Step>, m: nat, n: nat, p: nat, own: TimeEntries.Key)
    requires IsRun(states, steps) && m < n <= |steps| && steps[m] == Stop(p)
    requires p < |states[m].procs| && states[m].procs[p].pc.CorrectInserted? && Corrects(states[m].procs[p], own)
    ensures NetChange(states, steps, n, p, own) == 1
  {
    hide Apply, Enabled, Inv, Corrects, SupersededActive, OwnsRow, NetChange;
    Balance(states, steps, m, p, own, own);
    Runs.RunInvariant(states, steps, m);
    InsertedOwns(states[m], p);
    ProcessKept(states, steps, m, n, p);
    SameCorrection(states[m].procs[p], states[n].procs[p], own);
    Effects.RunOwnersStay(states, steps, m, n);
    RowStays(states[m], states[n], p);
    Balance(states, steps, n, p, own, own);
    StoppedNeverSupersedes(states, steps, m, n, p);
  }

  lemma InsertedOwns(s: State, p: nat)
    requires Inv(s) && p < |s.procs| && s.procs[p].pc.CorrectInserted?
    ensures OwnsRow(s, p)
  {
    hide Inv, CommandOf, EventOf, WroteNothing;
    ProcOkAt(s, p);
    assert s.procs[p].pc.newId in s.timeBy && s.timeBy[s.procs[p].pc.newId] == p;
  }

  lemma RowStays(s: State, u: State, p: nat)
    requires OwnsRow(s, p) && Effects.OwnersStay(s, u)
    ensures OwnsRow(u, p)
  {
    var i :| i in s.timeBy && s.timeBy[i] == p;
    assert i in u.timeBy && u.timeBy[i] == p;
  }

  lemma StoppedNeverSupersedes(states: seq<State>, steps: seq<Step>, m: nat, n: nat, p: nat)
    requires IsRun(states, steps) && m < n <= |steps| && steps[m] == Stop(p)
    requires p < |states[m].procs| && states[m].procs[p].pc.CorrectInserted?
    ensures !SupersededActive(states, steps, n, p)
  {
    hide Apply, Enabled, Inv, SupersedesActive;
    if k :| 0 <= k < n && SupersedesActive(states[k], steps[k], p) {
      SupersedingFinishes(states[k], steps[k], p);
      StopFinishes(states[m], p);
      assert states[m + 1] == Apply(states[m], steps[m]) && states[k + 1] == Apply(states[k], steps[k]);
      if k < m { ProcessKept(states, steps, k + 1, m, p); }
      if m < k { ProcessKept(states, steps, m + 1, k, p); }
      assert k == m;
      SupersedingLinks(states[k], steps[k], p);
    }
  }

  lemma SupersedingLinks(s: State, step: Step, p: nat)
    requires SupersedesActive(s, step, p)
    ensures step != Stop(p)
  {
  }

  lemma StopFinishes(s: State, p: nat)
    requires p < |s.procs|
    ensures p < |Apply(s, Stop(p)).procs| && Apply(s, Stop(p)).procs[p].pc.Finished?
  {
  }
}
