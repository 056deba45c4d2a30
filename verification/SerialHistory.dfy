/** What only serial, fault-free runs promise about history: a row that is no longer active never
    changes again, so pointers never change, and a deleted row has none. */
module SerialHistory {
  import opened Deliveries
  import opened Webhook
  import opened SerialRuns
  import TimeEntries
  import PlanEntries

  /** Every lost id and every row of t that is superseded or deleted is as it was. */
  ghost predicate TimesFrozen(t: TimeEntries.Table, u: TimeEntries.Table) {
    && |t| <= |u|
    && forall i {:trigger u[i]} :: 0 <= i < |t| && (t[i].None? || !t[i].value.status.Active?) ==> u[i] == t[i]
  }

  ghost predicate PlansFrozen(t: PlanEntries.Table, u: PlanEntries.Table) {
    && |t| <= |u|
    && forall i {:trigger u[i]} :: 0 <= i < |t| && (t[i].None? || !t[i].value.status.Active?) ==> u[i] == t[i]
  }

  lemma CommandFreezes(s: State, event: Event, cmd: Command, a: Answers)
    ensures TimesFrozen(s.times, AfterCommand(s, event, cmd, a).times)
    ensures PlansFrozen(s.plans, AfterCommand(s, event, cmd, a).plans)
  {
    hide TimeEntries.Latest, CurrentPlan;
  }

  lemma ProcessFreezes(s: State, d: Delivery, a: Answers)
    ensures TimesFrozen(s.times, Process(s, d, a).times) && PlansFrozen(s.plans, Process(s, d, a).plans)
  {
    hide AfterCommand, CommandOf;
    if Admitted(s, d) && CommandOf(d).Some? && Allowed(a) {
      var claimed := Claimed(s, d);
      CommandFreezes(claimed, EventOf(d).value, CommandOf(d).value, a);
    }
  }

  lemma FrozenTransitive(a: State, b: State, c: State)
    requires TimesFrozen(a.times, b.times) && PlansFrozen(a.plans, b.plans)
    requires TimesFrozen(b.times, c.times) && PlansFrozen(b.plans, c.plans)
    ensures TimesFrozen(a.times, c.times) && PlansFrozen(a.plans, c.plans)
  {
    assert forall i :: 0 <= i < |a.times| && (a.times[i].None? || !a.times[i].value.status.Active?) ==>
      b.times[i] == a.times[i];
    assert forall i :: 0 <= i < |a.plans| && (a.plans[i].None? || !a.plans[i].value.status.Active?) ==>
      b.plans[i] == a.plans[i];
  }

  /** From any moment of a serial run to its end, closed rows do not change, pointer and closing
      comment included. */
  lemma {:induction false} ClosedRowsFrozen(calls: seq<Call>, m: nat)
    requires m <= |calls|
    ensures TimesFrozen(Run(calls[..m]).times, Run(calls).times)
    ensures PlansFrozen(Run(calls[..m]).plans, Run(calls).plans)
    decreases |calls|
  {
    if m == |calls| {
      assert calls[..m] == calls;
    } else {
      hide Process, TimesFrozen, PlansFrozen;
      var front, last := calls[..|calls| - 1], calls[|calls| - 1];
      ClosedRowsFrozen(front, m);
      assert front[..m] == calls[..m];
      ProcessFreezes(Run(front), last.d, last.a);
      FrozenTransitive(Run(calls[..m]), Run(front), Run(calls));
    }
  }

  ghost predicate DeletedUnlinked(s: State) {
    && (forall i {:trigger s.times[i]} :: TimeEntries.Has(s.times, i) && s.times[i].value.status.Deleted? ==>
      s.times[i].value.supersededBy.None?)
    && (forall i {:trigger s.plans[i]} :: PlanEntries.Has(s.plans, i) && s.plans[i].value.status.Deleted? ==>
      s.plans[i].value.supersededBy.None?)
  }

  lemma CommandKeepsUnlinked(s: State, event: Event, cmd: Command, a: Answers)
    requires TimeEntries.Ledger(s.times) && PlanEntries.Ledger(s.plans) && DeletedUnlinked(s)
    ensures DeletedUnlinked(AfterCommand(s, event, cmd, a))
  {
    hide TimeEntries.Latest, CurrentPlan, PlanEntries.OneActive;
  }

  lemma ProcessKeepsUnlinked(s: State, d: Delivery, a: Answers)
    requires TimeEntries.Ledger(s.times) && PlanEntries.Ledger(s.plans) && DeletedUnlinked(s)
    ensures DeletedUnlinked(Process(s, d, a))
  {
    hide AfterCommand, CommandOf, TimeEntries.Ledger, PlanEntries.Ledger;
    if Admitted(s, d) && CommandOf(d).Some? && Allowed(a) {
      var claimed := Claimed(s, d);
      CommandKeepsUnlinked(claimed, EventOf(d).value, CommandOf(d).value, a);
    }
  }

  /** After any serial run a deleted row points nowhere: /delete and /unplan close a chain. */
  lemma {:induction false} DeletedHasNoPointer(calls: seq<Call>)
    ensures DeletedUnlinked(Run(calls))
  {
    if calls == [] {
    } else {
      hide Process, DeletedUnlinked, TimeEntries.Ledger, PlanEntries.Ledger, ClockedBefore;
      var front, last := calls[..|calls| - 1], calls[|calls| - 1];
      DeletedHasNoPointer(front);
      RunKeeps(front, last.a.now);
      ProcessKeepsUnlinked(Run(front), last.d, last.a);
    }
  }
}
