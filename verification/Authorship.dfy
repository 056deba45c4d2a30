/** Who may change what when all deliveries run at once (internal/webhook/handler.go): a row that
    is there changes only for an allowed comment of its own author, a plan only for an allowed
    comment on its own issue, and only as the comment's verb says. */
module Authorship {
  import opened Options
  import opened Deliveries
  import opened Interleaving
  import opened InterleavingSafety
  import opened Service
  import Columns
  import Commands
  import InterleavedRuns
  import TimeEntries
  import PlanEntries

  // ---- the answer of the membership policy ----------------------------------------------------

  /** The delivery is a comment, just created, whose text parses. */
  predicate Commanding(d: Delivery) {
    && (d.eventType == IssueComment || d.eventType == ReviewComment) && d.payload.Some?
    && d.payload.value.action == "created" && Commands.Parse(d.payload.value.body).Parsed?
  }

  /** A dispatch goes on to the verb's own statements exactly when the delivery commands something
      and the policy says yes; otherwise the process is finished, and it changes no table. */
  lemma DispatchDecides(s: State, p: nat, allowed: bool)
    requires Enabled(s, Dispatch(p, allowed))
    ensures var u := Apply(s, Dispatch(p, allowed));
      && u.times == s.times && u.plans == s.plans && u.claimed == s.claimed && p < |u.procs|
      && if Commanding(s.procs[p].d) && allowed then
           var cmd := Commands.Parse(s.procs[p].d.payload.value.body).command;
           u.procs[p].allowed && match cmd.verb
             case Log => u.procs[p].pc == LogReady(cmd)
             case Correct => u.procs[p].pc == CorrectReady(cmd)
             case Delete => u.procs[p].pc == DeleteReady
             case Plan => u.procs[p].pc == PlanReady(cmd)
             case Unplan => u.procs[p].pc == UnplanReady
         else u.procs[p].pc == Finished && u.procs[p].allowed == s.procs[p].allowed
  {
    hide Commands.Parse;
  }

  lemma AllowedStep(s: State, step: Step, p: nat)
    requires Inv(s) && Enabled(s, step) && p < |Apply(s, step).procs| && Apply(s, step).procs[p].allowed
    ensures step == Dispatch(p, true) || (p < |s.procs| && s.procs[p].allowed)
  {
    hide Inv, Apply, Enabled;
    if p >= |s.procs| {
      ArrivalSeen(s, step, p);
    } else if Actor(step) == Some(p) {
      OwnAllowedStep(s, step, p);
    } else {
      OthersUntouched(s, step, p);
    }
  }

  lemma OwnAllowedStep(s: State, step: Step, p: nat)
    requires Enabled(s, step) && p < |s.procs| && Actor(step) == Some(p)
    ensures p < |Apply(s, step).procs|
    ensures Apply(s, step).procs[p].allowed ==> step == Dispatch(p, true) || s.procs[p].allowed
  {
    hide CommandOf, EventOf, TimeAnswer, PlanAnswer, PlanEntries.ReplaceAllowed, PlanEntries.Replaced;
    hide TimeEntries.Inserted, TimeEntries.Linked, TimeEntries.SoftDeleted, PlanEntries.SoftDeleted, Ready;
  }

  /** A process is only ever allowed because the policy said yes for it. */
  lemma {:induction false} AllowedByPolicy(states: seq<State>, steps: seq<Step>, n: nat, p: nat)
    requires IsRun(states, steps) && n <= |steps| && p < |states[n].procs| && states[n].procs[p].allowed
    ensures exists m :: 0 <= m < n && steps[m] == Dispatch(p, true)
    decreases n
  {
    hide Apply, Enabled, Inv;
    if n == 0 {
      assert false;
    } else {
      RunStep(states, steps, n);
      AllowedStep(states[n - 1], steps[n - 1], p);
      if steps[n - 1] != Dispatch(p, true) { AllowedByPolicy(states, steps, n - 1, p); }
    }
  }

  /** Every row was written by a process for which the policy had said yes before. */
  lemma RowsNeedPolicy(states: seq<State>, steps: seq<Step>, n: nat, id: nat)
    requires IsRun(states, steps) && n <= |steps|
    ensures TimeEntries.Has(states[n].times, id) ==>
      id in states[n].timeBy && exists m :: 0 <= m < n && steps[m] == Dispatch(states[n].timeBy[id], true)
    ensures PlanEntries.Has(states[n].plans, id) ==>
      id in states[n].planBy && exists m :: 0 <= m < n && steps[m] == Dispatch(states[n].planBy[id], true)
  {
    hide Apply, Enabled, CommandOf, TimeEntries.Ledger, PlanEntries.Ledger, ProcOk, ClaimsOk;
    InterleavedRuns.RunInvariant(states, steps, n);
    if id in states[n].timeBy { AllowedByPolicy(states, steps, n, states[n].timeBy[id]); }
    if id in states[n].planBy { AllowedByPolicy(states, steps, n, states[n].planBy[id]); }
  }

  // ---- changes of rows that are there -----------------------------------------------------------------

  /** Process p runs the verb, for a signed comment whose author the policy has let in before. */
  ghost predicate Acts(states: seq<State>, steps: seq<Step>, n: nat, p: nat, verb: Commands.Verb)
    requires n <= |steps| < |states|
  {
    && p < |states[n].procs| && states[n].procs[p].d.signatureOk && Commanding(states[n].procs[p].d)
    && Commands.Parse(states[n].procs[p].d.payload.value.body).command.verb == verb
    && exists m :: 0 <= m < n && steps[m] == Dispatch(p, true)
  }

  lemma RunsActs(states: seq<State>, steps: seq<Step>, n: nat, p: nat, verb: Commands.Verb)
    requires IsRun(states, steps) && n <= |steps| && p < |states[n].procs|
    requires InterleavingSafety.Runs(states[n].procs[p], verb)
    ensures Acts(states, steps, n, p, verb)
  {
    hide Apply, Enabled, Commands.Parse;
    AllowedByPolicy(states, steps, n, p);
  }

  /** The row was written for the author and the issue of the event. */
  predicate SameAuthor(e: TimeEntries.Entry, event: Event) {
    e.userId == event.userId && e.repo == event.repo && e.issue == event.issue
  }

  predicate SameIssue(e: PlanEntries.Entry, event: Event) {
    e.repo == event.repo && e.issue == event.issue
  }

  /** The row id of s, superseded by a row that process p wrote. */
  predicate PointsAtOwn(s: State, row: Option<TimeEntries.Row>, id: nat, p: nat)
    requires TimeEntries.Has(s.times, id)
  {
    exists newId :: newId in s.timeBy && s.timeBy[newId] == p &&
      row == Some(s.times[id].value.(status := Columns.Superseded, supersededBy := Some(newId)))
  }

  lemma TimeRowChange(s: State, step: Step, id: nat)
    requires Inv(s) && Enabled(s, step) && id < |s.times| && id < |Apply(s, step).times|
    requires Apply(s, step).times[id] != s.times[id]
    ensures step.CorrectLink? || step.DeleteMark?
    ensures step.p < |s.procs| && s.times[id].Some? && s.procs[step.p].d.payload.Some?
    ensures SameAuthor(s.times[id].value.entry, s.procs[step.p].d.payload.value)
    ensures InterleavingSafety.Runs(s.procs[step.p], if step.CorrectLink? then Commands.Correct else Commands.Delete)
    ensures step.DeleteMark? ==> Apply(s, step).times[id] == Some(s.times[id].value.(status := Columns.Deleted))
    ensures step.CorrectLink? ==> PointsAtOwn(s, Apply(s, step).times[id], id, step.p)
  {
    hide Inv, CommandOf, WroteNothing, PlanEntries.ReplaceAllowed, PlanEntries.Replaced, PlanEntries.SoftDeleted;
    hide TimeAnswer, PlanAnswer;
    if step.CorrectLink? || step.DeleteMark? {
      ProcOkAt(s, step.p);
      if step.CorrectLink? { assert s.procs[step.p].pc.newId in s.timeBy; }
    }
  }

  /** In every run a time row that changes was its author's own: the step belongs to an allowed /delete
      that marks the row deleted, or to an allowed /correct that points the row at its own new one. */
  lemma OnlyOwnRowsChange(states: seq<State>, steps: seq<Step>, n: nat, id: nat)
    requires IsRun(states, steps) && n < |steps| && id < |states[n].times| && id < |states[n + 1].times|
    requires states[n + 1].times[id] != states[n].times[id]
    ensures states[n].times[id].Some? && (steps[n].CorrectLink? || steps[n].DeleteMark?)
    ensures Acts(states, steps, n, steps[n].p, if steps[n].CorrectLink? then Commands.Correct else Commands.Delete)
    ensures SameAuthor(states[n].times[id].value.entry, states[n].procs[steps[n].p].d.payload.value)
    ensures steps[n].DeleteMark? ==>
      states[n + 1].times[id] == Some(states[n].times[id].value.(status := Columns.Deleted))
    ensures steps[n].CorrectLink? ==> PointsAtOwn(states[n], states[n + 1].times[id], id, steps[n].p)
  {
    hide Inv, Apply, Enabled, InterleavingSafety.Runs, Acts, SameAuthor;
    RunStep(states, steps, n + 1);
    TimeRowChange(states[n], steps[n], id);
    RunsActs(states, steps, n, steps[n].p, if steps[n].CorrectLink? then Commands.Correct else Commands.Delete);
  }

  lemma PlanRowChange(s: State, step: Step, id: nat)
    requires Inv(s) && Enabled(s, step) && id < |s.plans| && id < |Apply(s, step).plans|
    requires Apply(s, step).plans[id] != s.plans[id]
    ensures step.PlanReplace? || step.UnplanMark?
    ensures step.p < |s.procs| && s.plans[id].Some? && s.procs[step.p].d.payload.Some?
    ensures SameIssue(s.plans[id].value.entry, s.procs[step.p].d.payload.value)
    ensures InterleavingSafety.Runs(s.procs[step.p], if step.PlanReplace? then Commands.Plan else Commands.Unplan)
    ensures step.UnplanMark? ==> var event := s.procs[step.p].d.payload.value;
      Apply(s, step).plans[id] == Some(s.plans[id].value.(status := Columns.Deleted,
        closing := Some(PlanEntries.Closing(commentId := event.commentId, commentUrl := event.commentUrl))))
    ensures step.PlanReplace? ==>
      Apply(s, step).plans[id] == Some(
        s.plans[id].value.(status := Columns.Superseded, supersededBy := Some(|s.plans|)))
  {
    hide Inv, CommandOf, WroteNothing, PlanEntries.ReplaceAllowed, TimeEntries.Linked, TimeEntries.SoftDeleted;
    hide TimeAnswer, PlanAnswer;
    if step.PlanReplace? || step.UnplanMark? { ProcOkAt(s, step.p); }
  }

  /** In every run a plan that changes is one of the comment's own issue: an allowed /plan supersedes
      it by the row it writes, or an allowed /unplan withdraws it with its closing comment. */
  lemma OnlyIssuesPlansChange(states: seq<State>, steps: seq<Step>, n: nat, id: nat)
    requires IsRun(states, steps) && n < |steps| && id < |states[n].plans| && id < |states[n + 1].plans|
    requires states[n + 1].plans[id] != states[n].plans[id]
    ensures states[n].plans[id].Some? && (steps[n].PlanReplace? || steps[n].UnplanMark?)
    ensures Acts(states, steps, n, steps[n].p, if steps[n].PlanReplace? then Commands.Plan else Commands.Unplan)
    ensures SameIssue(states[n].plans[id].value.entry, states[n].procs[steps[n].p].d.payload.value)
    ensures steps[n].UnplanMark? ==> var event := states[n].procs[steps[n].p].d.payload.value;
      states[n + 1].plans[id] == Some(states[n].plans[id].value.(status := Columns.Deleted,
        closing := Some(PlanEntries.Closing(commentId := event.commentId, commentUrl := event.commentUrl))))
    ensures steps[n].PlanReplace? ==>
      states[n + 1].plans[id] == Some(
        states[n].plans[id].value.(status := Columns.Superseded, supersededBy := Some(|states[n].plans|)))
  {
    hide Inv, Apply, Enabled, InterleavingSafety.Runs, Acts, SameIssue;
    RunStep(states, steps, n + 1);
    PlanRowChange(states[n], steps[n], id);
    RunsActs(states, steps, n, steps[n].p, if steps[n].PlanReplace? then Commands.Plan else Commands.Unplan);
  }
}
