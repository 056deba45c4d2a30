/** Processing deliveries one at a time is one of the interleaved runs: the tables of every serial
    run are reachable, so that whatever holds of all reachable tables holds of them. */
module SerialIsInterleaved {
  import opened Options
  import opened Columns
  import opened Deliveries
  import I = Interleaving
  import Runs = InterleavedRuns
  import TimeEntries
  import PlanEntries
  import W = Webhook
  import SerialRuns

  function Tables(s: I.State): W.State {
    W.State(s.times, s.plans, s.claimed)
  }

  /** Some steps lead from s to u. */
  ghost predicate Leads(s: I.State, u: I.State) {
    exists states: seq<I.State>, steps: seq<I.Step> :: I.IsPath(states, steps) && states[0] == s && states[|steps|] == u
  }

  lemma LeadsNowhere(s: I.State)
    ensures Leads(s, s)
  {
    var steps: seq<I.Step> := [];
    assert I.IsPath([s], steps) && [s][0] == s && [s][|steps|] == s;
  }

  lemma LeadsFurther(s: I.State, u: I.State, step: I.Step)
    requires Leads(s, u) && I.Enabled(u, step)
    ensures Leads(s, I.Apply(u, step))
  {
    hide I.Apply, I.Enabled;
    var states, steps :| I.IsPath(states, steps) && states[0] == s && states[|steps|] == u;
    var states', steps' := states + [I.Apply(u, step)], steps + [step];
    assert I.IsPath(states', steps');
    assert states'[0] == s && states'[|steps'|] == I.Apply(u, step);
  }

  lemma LeadsOn(s: I.State, u: I.State, v: I.State)
    requires Leads(s, u) && Leads(u, v)
    ensures Leads(s, v)
  {
    hide I.Apply, I.Enabled;
    var before, first :| I.IsPath(before, first) && before[0] == s && before[|first|] == u;
    var states, steps :| I.IsPath(states, steps) && states[0] == u && states[|steps|] == v;
    PathsJoin(before, first, states, steps);
    var all, path := before[..|first|] + states, first + steps;
    assert I.IsPath(all, path) && all[0] == s && all[|path|] == v;
  }

  lemma PathsJoin(before: seq<I.State>, first: seq<I.Step>, states: seq<I.State>, steps: seq<I.Step>)
    requires I.IsPath(before, first) && I.IsPath(states, steps) && before[|first|] == states[0]
    ensures I.IsPath(before[..|first|] + states, first + steps)
  {
    hide I.Apply, I.Enabled;
    var all, path := before[..|first|] + states, first + steps;
    forall i | 0 <= i < |path|
      ensures I.Enabled(all[i], path[i]) && all[i + 1] == I.Apply(all[i], path[i])
    {
      if i < |first| {
        assert all[i] == before[i] && path[i] == first[i] && all[i + 1] == before[i + 1];
      } else {
        assert all[i] == states[i - |first|] && path[i] == steps[i - |first|] && all[i + 1] == states[i - |first| + 1];
      }
    }
  }

  // ---- one command, run by one process without interruption -----------------------------------

  /** Process p stands at the beginning of the command. */
  predicate Begins(s: I.State, p: nat, event: Event, cmd: W.Command) {
    && p < |s.procs| && EventOf(s.procs[p].d) == Some(event)
    && s.procs[p].pc == I.Ready(cmd)
  }

  lemma LogAlone(s: I.State, p: nat, event: Event, cmd: W.Command, a: Answers) returns (u: I.State)
    requires Begins(s, p, event, cmd) && cmd.verb.Log?
    ensures Leads(s, u) && Tables(u) == W.AfterCommand(Tables(s), event, cmd, a)
  {
    hide EventOf, CommandOf;
    LeadsNowhere(s);
    var step := I.LogInsert(p, LabelsOf(a), a.client, a.now);
    LeadsFurther(s, s, step);
    u := I.Apply(s, step);
  }

  lemma LatestAnswers(t: TimeEntries.Table, key: TimeEntries.Key)
    ensures TimeAnswer(t, key, TimeEntries.Latest(t, key, |t|))
  {
  }

  lemma CorrectAlone(s: I.State, p: nat, event: Event, cmd: W.Command, a: Answers) returns (u: I.State)
    requires Begins(s, p, event, cmd) && cmd.verb.Correct?
    ensures Leads(s, u) && Tables(u) == W.AfterCommand(Tables(s), event, cmd, a)
  {
    hide EventOf, CommandOf, TimeEntries.Latest, TimeAnswer, Leads, TimeEntries.Linked, TimeEntries.Inserted;
    LeadsNowhere(s);
    var found := TimeEntries.Latest(s.times, KeyOf(event), |s.times|);
    LatestAnswers(s.times, KeyOf(event));
    LeadsFurther(s, s, I.CorrectFind(p, found));
    var u1 := I.CorrectFindResult(s, p, found);
    if found.None? { return u1; }
    LeadsFurther(s, u1, I.CorrectInsert(p, LabelsOf(a), a.now));
    var u2 := I.CorrectInsertResult(u1, p, LabelsOf(a), a.now);
    if !FitsInt4(cmd.minutes) { return u2; }
    LeadsFurther(s, u2, I.CorrectLink(p));
    u := I.CorrectLinkResult(u2, p);
  }

  lemma DeleteAlone(s: I.State, p: nat, event: Event, cmd: W.Command, a: Answers) returns (u: I.State)
    requires Begins(s, p, event, cmd) && cmd.verb.Delete?
    ensures Leads(s, u) && Tables(u) == W.AfterCommand(Tables(s), event, cmd, a)
  {
    hide EventOf, CommandOf, TimeEntries.Latest, TimeAnswer, Leads, TimeEntries.SoftDeleted;
    LeadsNowhere(s);
    var found := TimeEntries.Latest(s.times, KeyOf(event), |s.times|);
    LatestAnswers(s.times, KeyOf(event));
    LeadsFurther(s, s, I.DeleteFind(p, found));
    u := I.Apply(s, I.DeleteFind(p, found));
    if found.None? { return; }
    var u1 := u;
    LeadsFurther(s, u1, I.DeleteMark(p));
    u := I.DeleteMarkResult(u1, p);
  }

  lemma CurrentAnswers(t: PlanEntries.Table, issue: PlanEntries.Issue)
    ensures PlanAnswer(t, issue, W.CurrentPlan(t, issue, |t|))
  {
  }

  lemma PlanAlone(s: I.State, p: nat, event: Event, cmd: W.Command, a: Answers) returns (u: I.State)
    requires Begins(s, p, event, cmd) && cmd.verb.Plan? && PlanEntries.OneActive(s.plans)
    ensures Leads(s, u) && Tables(u) == W.AfterCommand(Tables(s), event, cmd, a)
  {
    hide EventOf, CommandOf, W.CurrentPlan, PlanAnswer;
    hide Leads, PlanEntries.Replaced, PlanEntries.ReplaceAllowed, PlanEntries.OneActive;
    LeadsNowhere(s);
    var found := W.CurrentPlan(s.plans, IssueOf(event), |s.plans|);
    CurrentAnswers(s.plans, IssueOf(event));
    LeadsFurther(s, s, I.PlanFind(p, found));
    var u1 := I.Apply(s, I.PlanFind(p, found));
    W.FoundPlanReplaceable(s.plans, PlanEntryFor(event, cmd, LabelsOf(a)), found);
    LeadsFurther(s, u1, I.PlanReplace(p, LabelsOf(a), a.now));
    u := I.PlanReplaceResult(u1, p, LabelsOf(a), a.now);
  }

  lemma UnplanAlone(s: I.State, p: nat, event: Event, cmd: W.Command, a: Answers) returns (u: I.State)
    requires Begins(s, p, event, cmd) && cmd.verb.Unplan?
    ensures Leads(s, u) && Tables(u) == W.AfterCommand(Tables(s), event, cmd, a)
  {
    hide EventOf, CommandOf, W.CurrentPlan, PlanAnswer, Leads, PlanEntries.SoftDeleted;
    LeadsNowhere(s);
    var found := W.CurrentPlan(s.plans, IssueOf(event), |s.plans|);
    CurrentAnswers(s.plans, IssueOf(event));
    LeadsFurther(s, s, I.UnplanFind(p, found));
    u := I.Apply(s, I.UnplanFind(p, found));
    if found.None? { return; }
    var u1 := u;
    LeadsFurther(s, u1, I.UnplanMark(p));
    u := I.UnplanMarkResult(u1, p);
  }

  lemma CommandAlone(s: I.State, p: nat, event: Event, cmd: W.Command, a: Answers) returns (u: I.State)
    requires Begins(s, p, event, cmd) && PlanEntries.OneActive(s.plans)
    ensures Leads(s, u) && Tables(u) == W.AfterCommand(Tables(s), event, cmd, a)
  {
    hide *;
    match cmd.verb
    case Log => u := LogAlone(s, p, event, cmd, a);
    case Correct => u := CorrectAlone(s, p, event, cmd, a);
    case Delete => u := DeleteAlone(s, p, event, cmd, a);
    case Plan => u := PlanAlone(s, p, event, cmd, a);
    case Unplan => u := UnplanAlone(s, p, event, cmd, a);
  }

  /** One whole delivery, received and run to its end while nobody else moves. */
  lemma DeliveryAlone(s: I.State, d: Delivery, a: Answers) returns (u: I.State)
    requires PlanEntries.OneActive(s.plans)
    ensures Leads(s, u) && Tables(u) == W.Process(Tables(s), d, a)
  {
    hide EventOf, CommandOf, W.AfterCommand, Leads, PlanEntries.OneActive;
    var p := |s.procs|;
    LeadsNowhere(s);
    LeadsFurther(s, s, I.Receive(d));
    var u0 := I.ReceiveResult(s, d);
    if !d.signatureOk { return u0; }
    LeadsFurther(s, u0, I.Claim(p));
    var u1 := I.ClaimResult(u0, p);
    if d.id != "" && d.id in s.claimed { return u1; }
    LeadsFurther(s, u1, I.Dispatch(p, W.Allowed(a)));
    var u2 := I.DispatchResult(u1, p, W.Allowed(a));
    if CommandOf(d).None? || !W.Allowed(a) { return u2; }
    u := CommandAlone(u2, p, EventOf(d).value, CommandOf(d).value, a);
    LeadsOn(s, u2, u);
  }

  /** Every serial run ends in tables that an interleaved run reaches. */
  lemma {:induction false} SerialReachable(calls: seq<SerialRuns.Call>) returns (u: I.State)
    ensures I.Reachable(u) && Tables(u) == SerialRuns.Run(calls)
  {
    if calls == [] {
      var steps: seq<I.Step> := [];
      assert I.IsRun([I.INIT], steps) && [I.INIT][|steps|] == I.INIT;
      u := I.INIT;
    } else {
      var front, last := calls[..|calls| - 1], calls[|calls| - 1];
      var s := SerialReachable(front);
      Runs.ReachableLedgers(s);
      hide W.Process, I.IsPath;
      u := DeliveryAlone(s, last.d, last.a);
      LeadsOn(I.INIT, s, u);
    }
  }
}
