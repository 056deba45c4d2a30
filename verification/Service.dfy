/** When a command takes effect (internal/webhook/handler.go): a process whose command was allowed
    runs the last statement of its command exactly once, unless it is stopped before. */
module Service {
  import opened Options
  import opened Columns
  import opened Deliveries
  import opened Interleaving
  import opened InterleavingSafety
  import Commands
  import TimeEntries
  import PlanEntries
  import Runs = InterleavedRuns

  /** The process that takes the step. */
  function Actor(step: Step): Option<nat> {
    match step
    case Claim(p) => Some(p)
    case Dispatch(p, allowed) => Some(p)
    case LogInsert(p, labels, client, now) => Some(p)
    case CorrectFind(p, found) => Some(p)
    case CorrectInsert(p, labels, now) => Some(p)
    case CorrectLink(p) => Some(p)
    case DeleteFind(p, found) => Some(p)
    case DeleteMark(p) => Some(p)
    case PlanFind(p, found) => Some(p)
    case PlanReplace(p, labels, now) => Some(p)
    case UnplanFind(p, found) => Some(p)
    case UnplanMark(p) => Some(p)
    case Stop(p) => Some(p)
    case _ => None
  }

  /** The step is the last statement of process p's command: it writes, or finds that there is
      nothing to write. */
  predicate Completes(s: State, step: Step, p: nat) {
    match step
    case LogInsert(q, labels, client, now) => q == p
    case CorrectFind(q, found) => q == p && found.None?
    case CorrectInsert(q, labels, now) =>
      q == p && At(s, p) && s.procs[p].pc.CorrectFound? && !FitsInt4(s.procs[p].pc.cmd.minutes)
    case CorrectLink(q) => q == p
    case DeleteFind(q, found) => q == p && found.None?
    case DeleteMark(q) => q == p
    case PlanReplace(q, labels, now) => q == p
    case UnplanFind(q, found) => q == p && found.None?
    case UnplanMark(q) => q == p
    case _ => false
  }

  /** The step stops process p before it is finished. */
  predicate Interrupts(s: State, step: Step, p: nat) {
    step == Stop(p) && At(s, p) && !s.procs[p].pc.Finished?
  }

  predicate Served(states: seq<State>, steps: seq<Step>, n: nat, p: nat)
    requires n <= |steps| < |states|
  {
    exists m :: 0 <= m < n && Completes(states[m], steps[m], p)
  }

  predicate Interrupted(states: seq<State>, steps: seq<Step>, n: nat, p: nat)
    requires n <= |steps| < |states|
  {
    exists m :: 0 <= m < n && Interrupts(states[m], steps[m], p)
  }

  // ---- one step, as process p sees it ----------------------------------------------------------

  /** What a step does to a process that is there already. */
  ghost predicate StepSeen(s: State, step: Step, u: State, p: nat)
    requires p < |s.procs|
  {
    && p < |u.procs| && u.procs[p].d == s.procs[p].d && (s.procs[p].passed ==> u.procs[p].passed)
    && (s.procs[p].allowed ==> u.procs[p].allowed)
    && (u.procs[p].allowed && !s.procs[p].allowed ==> Runs.Accepted(u.procs[p]) && !u.procs[p].pc.Finished?)
    && (s.procs[p].pc.Finished? ==>
      u.procs[p] == s.procs[p] && !Completes(s, step, p) && !Interrupts(s, step, p))
    && (Completes(s, step, p) ==> s.procs[p].allowed && u.procs[p].pc.Finished? && !Interrupts(s, step, p))
    && (Interrupts(s, step, p) ==> u.procs[p].pc.Finished?)
    && (u.procs[p].pc.Finished? && u.procs[p].allowed && !s.procs[p].pc.Finished? ==>
      Completes(s, step, p) || Interrupts(s, step, p))
  }

  lemma StepSeenBy(s: State, step: Step, p: nat)
    requires Inv(s) && Enabled(s, step) && p < |s.procs|
    ensures StepSeen(s, step, Apply(s, step), p)
  {
    hide Inv, Apply, Enabled, Runs.Accepted;
    if Actor(step) == Some(p) {
      OwnStepSeen(s, step, p);
    } else {
      OthersUntouched(s, step, p);
    }
  }

  lemma OthersUntouched(s: State, step: Step, p: nat)
    requires Enabled(s, step) && p < |s.procs| && Actor(step) != Some(p)
    ensures p < |Apply(s, step).procs| && Apply(s, step).procs[p] == s.procs[p]
    ensures !Completes(s, step, p) && !Interrupts(s, step, p)
  {
    hide CommandOf, EventOf, TimeAnswer, PlanAnswer;
  }

  lemma OwnStepSeen(s: State, step: Step, p: nat)
    requires Inv(s) && Enabled(s, step) && p < |s.procs| && Actor(step) == Some(p)
    ensures StepSeen(s, step, Apply(s, step), p)
  {
    hide Inv, CommandOf, EventOf, WroteNothing, TimeAnswer, PlanAnswer, Commands.Parse, Runs.Accepted;
    hide PlanEntries.ReplaceAllowed, PlanEntries.Replaced;
    hide TimeEntries.Linked, TimeEntries.SoftDeleted, PlanEntries.SoftDeleted;
    ProcOkAt(s, p);
    if step.Dispatch? { DispatchAccepts(s, p, step.allowed); }
  }

  lemma DispatchAccepts(s: State, p: nat, allowed: bool)
    requires Inv(s) && p < |s.procs| && s.procs[p].pc.Dispatching?
    ensures var r := DispatchResult(s, p, allowed).procs[p];
      r.allowed ==> Runs.Accepted(r)
  {
    hide Inv, Commands.Parse, WroteNothing;
    ProcOkAt(s, p);
  }

  /** A process that has just arrived. */
  lemma ArrivalSeen(s: State, step: Step, p: nat)
    requires Inv(s) && Enabled(s, step) && |s.procs| <= p < |Apply(s, step).procs|
    ensures !Apply(s, step).procs[p].allowed && !Completes(s, step, p) && !Interrupts(s, step, p)
  {
    hide Inv, CommandOf, EventOf, TimeAnswer, PlanAnswer;
  }

  lemma AbsentIdle(s: State, step: Step, p: nat)
    requires Enabled(s, step) && p >= |s.procs|
    ensures !Completes(s, step, p) && !Interrupts(s, step, p)
  {
    hide CommandOf, EventOf, TimeAnswer, PlanAnswer;
  }

  // ---- runs ------------------------------------------------------------------------------------

  lemma RunStep(states: seq<State>, steps: seq<Step>, n: nat)
    requires IsRun(states, steps) && 0 < n <= |steps|
    ensures |states| == |steps| + 1 && Inv(states[n - 1])
    ensures Enabled(states[n - 1], steps[n - 1]) && states[n] == Apply(states[n - 1], steps[n - 1])
  {
    hide Inv, Apply, Enabled;
    Runs.RunInvariant(states, steps, n - 1);
  }

  lemma ServedStep(states: seq<State>, steps: seq<Step>, n: nat, p: nat)
    requires 0 < n <= |steps| < |states|
    ensures Served(states, steps, n, p) <==>
      Served(states, steps, n - 1, p) || Completes(states[n - 1], steps[n - 1], p)
    ensures Interrupted(states, steps, n, p)
      <==> Interrupted(states, steps, n - 1, p) || Interrupts(states[n - 1], steps[n - 1], p)
  {
    hide Completes, Interrupts;
  }

  /** How far process p has got in s, when it has been served or interrupted before. */
  ghost predicate ProgressAt(s: State, p: nat, served: bool, interrupted: bool) {
    if p >= |s.procs| then !served && !interrupted
    else
      && (s.procs[p].allowed ==> Runs.Accepted(s.procs[p]))
      && (!s.procs[p].pc.Finished? ==> !served && !interrupted)
      && (!s.procs[p].allowed ==> !served)
      && (s.procs[p].pc.Finished? && s.procs[p].allowed ==> (served <==> !interrupted))
  }

  lemma ProgressNext(s: State, step: Step, u: State, p: nat, served: bool, interrupted: bool)
    requires ProgressAt(s, p, served, interrupted) && p < |s.procs| && StepSeen(s, step, u, p)
    ensures ProgressAt(u, p, served || Completes(s, step, p), interrupted || Interrupts(s, step, p))
  {
    hide Completes, Interrupts, Commands.Parse;
  }

  lemma ProgressOfNew(s: State, step: Step, p: nat)
    requires Inv(s) && Enabled(s, step) && p >= |s.procs|
    ensures ProgressAt(Apply(s, step), p, Completes(s, step, p), Interrupts(s, step, p))
  {
    hide Inv, Apply, Enabled, Completes, Interrupts, Runs.Accepted;
    AbsentIdle(s, step, p);
    if p < |Apply(s, step).procs| { ArrivalSeen(s, step, p); }
  }

  lemma {:induction false} Progress(states: seq<State>, steps: seq<Step>, n: nat, p: nat)
    requires IsRun(states, steps) && n <= |steps|
    ensures ProgressAt(states[n], p, Served(states, steps, n, p), Interrupted(states, steps, n, p))
  {
    hide *;
    if n == 0 {
      ProgressStart(states, steps, p);
    } else {
      RunStep(states, steps, n);
      Progress(states, steps, n - 1, p);
      ServedStep(states, steps, n, p);
      var s, step := states[n - 1], steps[n - 1];
      if p < |s.procs| {
        StepSeenBy(s, step, p);
        ProgressNext(s, step, states[n], p, Served(states, steps, n - 1, p), Interrupted(states, steps, n - 1, p));
      } else {
        AbsentServed(states, steps, n - 1, p);
        ProgressOfNew(s, step, p);
      }
    }
  }

  lemma ProgressStart(states: seq<State>, steps: seq<Step>, p: nat)
    requires IsRun(states, steps)
    ensures |states| == |steps| + 1
    ensures ProgressAt(states[0], p, Served(states, steps, 0, p), Interrupted(states, steps, 0, p))
  {
    hide Apply, Enabled, Completes, Interrupts;
  }

  lemma AbsentServed(states: seq<State>, steps: seq<Step>, n: nat, p: nat)
    requires n <= |steps| < |states| && p >= |states[n].procs|
    requires ProgressAt(states[n], p, Served(states, steps, n, p), Interrupted(states, steps, n, p))
    ensures !Served(states, steps, n, p) && !Interrupted(states, steps, n, p)
  {
    hide Served, Interrupted;
  }

  /** A finished process whose command was allowed has been served, unless it was interrupted; and
      never both. */
  lemma ServedUnlessInterrupted(states: seq<State>, steps: seq<Step>, n: nat, p: nat)
    requires IsRun(states, steps) && n <= |steps| && p < |states[n].procs|
    requires states[n].procs[p].allowed && states[n].procs[p].pc.Finished?
    ensures Runs.Accepted(states[n].procs[p])
    ensures Served(states, steps, n, p) <==> !Interrupted(states, steps, n, p)
  {
    hide Apply, Enabled, Served, Interrupted, Runs.Accepted;
    Progress(states, steps, n, p);
  }

  lemma SeenKept(s: State, step: Step, u: State, p: nat)
    requires p < |s.procs| && StepSeen(s, step, u, p)
    ensures p < |u.procs| && u.procs[p].d == s.procs[p].d
    ensures s.procs[p].passed ==> u.procs[p].passed
    ensures s.procs[p].allowed ==> u.procs[p].allowed
    ensures s.procs[p].pc.Finished? ==> u.procs[p] == s.procs[p]
  {
    hide Completes, Interrupts, Runs.Accepted;
  }

  /** From moment m on a process keeps its delivery, and a finished one stays as it is. */
  lemma {:induction false} ProcessKept(states: seq<State>, steps: seq<Step>, m: nat, n: nat, p: nat)
    requires IsRun(states, steps) && m <= n <= |steps| && p < |states[m].procs|
    ensures p < |states[n].procs| && states[n].procs[p].d == states[m].procs[p].d
    ensures states[m].procs[p].passed ==> states[n].procs[p].passed
    ensures states[m].procs[p].allowed ==> states[n].procs[p].allowed
    ensures states[m].procs[p].pc.Finished? ==> states[n].procs[p] == states[m].procs[p]
    decreases n
  {
    hide *;
    if m == n {
    } else {
      RunStep(states, steps, n);
      ProcessKept(states, steps, m, n - 1, p);
      StepSeenBy(states[n - 1], steps[n - 1], p);
      SeenKept(states[n - 1], steps[n - 1], states[n], p);
    }
  }

  /** A process that completes at a moment is there, allowed, and finished ever after. */
  lemma CompletingProcess(states: seq<State>, steps: seq<Step>, m: nat, p: nat)
    requires IsRun(states, steps) && m < |steps| && Completes(states[m], steps[m], p)
    ensures p < |states[m].procs| && states[m].procs[p].allowed && !states[m].procs[p].pc.Finished?
    ensures p < |states[m + 1].procs| && states[m + 1].procs[p].pc.Finished?
  {
    hide Apply, Enabled, Inv, Completes, Interrupts, Runs.Accepted;
    Runs.RunInvariant(states, steps, m);
    if p < |states[m].procs| { StepSeenBy(states[m], steps[m], p); } else { AbsentIdle(states[m], steps[m], p); }
  }

  lemma CompletesOnce(states: seq<State>, steps: seq<Step>, m: nat, k: nat, p: nat)
    requires IsRun(states, steps) && m < |steps| && k < |steps|
    requires Completes(states[m], steps[m], p) && Completes(states[k], steps[k], p)
    ensures m == k
  {
    hide Apply, Enabled, Completes;
    CompletingProcess(states, steps, m, p);
    CompletingProcess(states, steps, k, p);
    if m < k { ProcessKept(states, steps, m + 1, k, p); }
    if k < m { ProcessKept(states, steps, k + 1, m, p); }
  }

  // ---- exactly once, per delivery id ---------------------------------------------------------------

  /** At moment m some delivery with the id is served. */
  predicate ServesId(states: seq<State>, steps: seq<Step>, m: nat, id: string)
    requires m < |steps| < |states|
  {
    exists p :: 0 <= p < |states[m].procs| && states[m].procs[p].d.id == id && Completes(states[m], steps[m], p)
  }

  /** Two moments at which a delivery with the same non-empty id is served are the same one. */
  lemma ServedAtMostOnce(states: seq<State>, steps: seq<Step>, m: nat, k: nat, id: string)
    requires IsRun(states, steps) && m < |steps| && k < |steps| && id != ""
    requires ServesId(states, steps, m, id) && ServesId(states, steps, k, id)
    ensures m == k
  {
    hide Apply, Enabled, Completes, Reachable, Runs.Accepted;
    var p :| 0 <= p < |states[m].procs| && states[m].procs[p].d.id == id && Completes(states[m], steps[m], p);
    var q :| 0 <= q < |states[k].procs| && states[k].procs[q].d.id == id && Completes(states[k], steps[k], q);
    SamePasser(states, steps, m, p, k, q);
    CompletesOnce(states, steps, m, k, p);
  }

  lemma SamePasser(states: seq<State>, steps: seq<Step>, m: nat, p: nat, k: nat, q: nat)
    requires IsRun(states, steps) && m < |steps| && k < |steps|
    requires Completes(states[m], steps[m], p) && Completes(states[k], steps[k], q)
    requires p < |states[m].procs| && q < |states[k].procs|
    requires states[m].procs[p].d.id == states[k].procs[q].d.id != ""
    ensures p == q
  {
    hide Apply, Enabled, Completes, Reachable;
    var n := |steps|;
    CompletingProcess(states, steps, m, p);
    CompletingProcess(states, steps, k, q);
    AllowedPassed(states, steps, m, p);
    AllowedPassed(states, steps, k, q);
    ProcessKept(states, steps, m, n, p);
    ProcessKept(states, steps, k, n, q);
    PassedThrough(states, steps, n);
    Runs.DispatchedAtMostOnce(states[n], p, q);
  }

  lemma AllowedPassed(states: seq<State>, steps: seq<Step>, n: nat, p: nat)
    requires IsRun(states, steps) && n <= |steps| && p < |states[n].procs| && states[n].procs[p].allowed
    ensures states[n].procs[p].passed && Runs.Accepted(states[n].procs[p])
  {
    hide Apply, Enabled, Served, Interrupted, Commands.Parse;
    Progress(states, steps, n, p);
  }

  /** Some process with the id was allowed to run its command and was not stopped before its end. */
  predicate Unhindered(states: seq<State>, steps: seq<Step>, id: string)
    requires |steps| < |states|
  {
    var s := states[|steps|];
    exists p :: 0 <= p < |s.procs| && s.procs[p].d.id == id && s.procs[p].allowed &&
      !Interrupted(states, steps, |steps|, p)
  }

  /** Exactly once, and when: in a run in which every process with the id has come to its end, the
      id is served at one moment, and at no other, if and only if the process that won the claim was
      allowed to run the command and was not stopped on the way. */
  lemma ExactlyOnceIff(states: seq<State>, steps: seq<Step>, id: string)
    requires IsRun(states, steps) && id != ""
    requires forall p :: 0 <= p < |states[|steps|].procs| && states[|steps|].procs[p].d.id == id ==>
      states[|steps|].procs[p].pc.Finished?
    ensures (exists m :: 0 <= m < |steps| && ServesId(states, steps, m, id)) <==> Unhindered(states, steps, id)
    ensures forall m, k :: 0 <= m < |steps| && 0 <= k < |steps| ==>
      ServesId(states, steps, m, id) && ServesId(states, steps, k, id) ==> m == k
  {
    hide Apply, Enabled, Completes, Interrupted, ServesId, Runs.Accepted;
    var n, s := |steps|, states[|steps|];
    if p :| 0 <= p < |s.procs| && s.procs[p].d.id == id && s.procs[p].allowed && !Interrupted(states, steps, n, p) {
      ServedUnlessInterrupted(states, steps, n, p);
      var m :| 0 <= m < n && Completes(states[m], steps[m], p);
      CompletionServes(states, steps, m, p);
    }
    if m :| 0 <= m < n && ServesId(states, steps, m, id) {
      var p := ServedProcess(states, steps, m, id);
      ServedUnlessInterrupted(states, steps, n, p);
      assert Served(states, steps, n, p);
    }
    forall m, k | 0 <= m < n && 0 <= k < n && ServesId(states, steps, m, id) && ServesId(states, steps, k, id)
      ensures m == k
    {
      ServedAtMostOnce(states, steps, m, k, id);
    }
  }

  lemma CompletionServes(states: seq<State>, steps: seq<Step>, m: nat, p: nat)
    requires IsRun(states, steps) && m < |steps| && Completes(states[m], steps[m], p) && p < |states[|steps|].procs|
    ensures ServesId(states, steps, m, states[|steps|].procs[p].d.id)
  {
    hide Apply, Enabled, Completes;
    CompletingProcess(states, steps, m, p);
    ProcessKept(states, steps, m, |steps|, p);
  }

  lemma ServedProcess(states: seq<State>, steps: seq<Step>, m: nat, id: string) returns (p: nat)
    requires IsRun(states, steps) && m < |steps| && ServesId(states, steps, m, id)
    ensures Completes(states[m], steps[m], p) && p < |states[|steps|].procs|
    ensures states[|steps|].procs[p].d.id == id && states[|steps|].procs[p].allowed
  {
    hide Apply, Enabled, Completes;
    p :| 0 <= p < |states[m].procs| && states[m].procs[p].d.id == id && Completes(states[m], steps[m], p);
    CompletingProcess(states, steps, m, p);
    ProcessKept(states, steps, m, |steps|, p);
  }
}
