/** Runs in which each delivery is processed to its end before the next one arrives: the tables
    refine one stack of time entries per person and issue and one current plan per issue, and
    redelivery is harmless. */
module SerialRuns {
  import opened Options
  import opened Columns
  import opened Deliveries
  import opened Webhook
  import TimeEntries
  import PlanEntries

  datatype Call = Call(d: Delivery, a: Answers)

  function Run(calls: seq<Call>): State {
    if calls == [] then INIT
    else
      var last := calls[|calls| - 1];
      Process(Run(calls[..|calls| - 1]), last.d, last.a)
  }

  /** The database clock advances from one call to the next. */
  predicate Ticking(calls: seq<Call>) {
    forall i, j :: 0 <= i < j < |calls| ==> calls[i].a.now < calls[j].a.now
  }

  predicate EndsBefore(calls: seq<Call>, now: int) {
    calls == [] || calls[|calls| - 1].a.now < now
  }

  // ---- claims ---------------------------------------------------------------------------

  predicate ClaimedBy(calls: seq<Call>, id: string) {
    id != "" && exists j :: 0 <= j < |calls| && calls[j].d.signatureOk && calls[j].d.id == id
  }

  lemma ClaimedByLast(calls: seq<Call>, id: string)
    requires calls != []
    ensures var last := calls[|calls| - 1];
      ClaimedBy(calls, id) <==>
        ClaimedBy(calls[..|calls| - 1], id) || (id != "" && last.d.signatureOk && last.d.id == id)
  {
    var front := calls[..|calls| - 1];
    assert forall j :: 0 <= j < |front| ==> front[j] == calls[j];
  }

  lemma ProcessClaims(s: State, d: Delivery, a: Answers)
    ensures Process(s, d, a).claimed == if d.signatureOk && d.id != "" then s.claimed + {d.id} else s.claimed
  {
    hide CommandOf, AfterCommand;
  }

  lemma {:induction false} ClaimedIds(calls: seq<Call>, id: string)
    ensures id in Run(calls).claimed <==> ClaimedBy(calls, id)
  {
    if calls == [] {
    } else {
      hide Process, ClaimedBy;
      var front, last := calls[..|calls| - 1], calls[|calls| - 1];
      ClaimedByLast(calls, id);
      ClaimedIds(front, id);
      ProcessClaims(Run(front), last.d, last.a);
    }
  }

  /** The last call changes the tables only if it is admitted: signed, and not a repetition. */
  predicate LastAdmitted(calls: seq<Call>)
    requires calls != []
  {
    var last := calls[|calls| - 1];
    last.d.signatureOk && !ClaimedBy(calls[..|calls| - 1], last.d.id)
  }

  lemma LastAdmittedIff(calls: seq<Call>)
    requires calls != []
    ensures LastAdmitted(calls) <==> Admitted(Run(calls[..|calls| - 1]), calls[|calls| - 1].d)
  {
    ClaimedIds(calls[..|calls| - 1], calls[|calls| - 1].d.id);
  }

  // ---- redelivery -----------------------------------------------------------------------

  /** The calls with every repetition of an already claimed delivery taken out. */
  function WithoutRepeats(calls: seq<Call>): seq<Call> {
    if calls == [] then []
    else
      var front, last := calls[..|calls| - 1], calls[|calls| - 1];
      if ClaimedBy(front, last.d.id) then WithoutRepeats(front)
      else WithoutRepeats(front) + [last]
  }

  lemma {:induction false} WithoutRepeatsClaims(calls: seq<Call>, id: string)
    ensures ClaimedBy(WithoutRepeats(calls), id) <==> ClaimedBy(calls, id)
  {
    if calls == [] {
    } else {
      var front, last := calls[..|calls| - 1], calls[|calls| - 1];
      ClaimedByLast(calls, id);
      WithoutRepeatsClaims(front, id);
      if !ClaimedBy(front, last.d.id) {
        ClaimedByLast(WithoutRepeats(front) + [last], id);
        assert (WithoutRepeats(front) + [last])[..|WithoutRepeats(front)|] == WithoutRepeats(front);
      }
    }
  }

  /** What is left holds no signed non-empty id twice. */
  lemma {:induction false} WithoutRepeatsHasNone(calls: seq<Call>, i: nat, j: nat)
    requires i < j < |WithoutRepeats(calls)|
    requires WithoutRepeats(calls)[i].d.signatureOk && WithoutRepeats(calls)[i].d.id != ""
    ensures WithoutRepeats(calls)[i].d.id != WithoutRepeats(calls)[j].d.id
  {
    var front, last := calls[..|calls| - 1], calls[|calls| - 1];
    if ClaimedBy(front, last.d.id) || j < |WithoutRepeats(front)| {
      WithoutRepeatsHasNone(front, i, j);
    } else {
      WithoutRepeatsClaims(front, last.d.id);
    }
  }

  /** Redelivery is harmless: dropping every repetition gives the same tables and claims. */
  lemma {:induction false} RedeliveryHarmless(calls: seq<Call>)
    ensures Run(WithoutRepeats(calls)) == Run(calls)
  {
    if calls == [] {
    } else {
      hide Process;
      var front, last := calls[..|calls| - 1], calls[|calls| - 1];
      RedeliveryHarmless(front);
      if ClaimedBy(front, last.d.id) {
        RepeatIgnored(front, last);
      } else {
        assert (WithoutRepeats(front) + [last])[..|WithoutRepeats(front)|] == WithoutRepeats(front);
      }
    }
  }

  lemma RepeatIgnored(front: seq<Call>, last: Call)
    requires ClaimedBy(front, last.d.id)
    ensures Process(Run(front), last.d, last.a) == Run(front)
  {
    hide AfterCommand, CommandOf;
    ClaimedIds(front, last.d.id);
  }

  // ---- both ledgers hold throughout ----------------------------------------------------------

  lemma LogKeeps(t: TimeEntries.Table, event: Event, cmd: Command, a: Answers, later: int)
    requires TimeEntries.Ledger(t)
    ensures TimeEntries.Ledger(AfterLog(t, event, cmd, a))
    ensures ClockedBefore(t, a.now) && a.now < later ==> ClockedBefore(AfterLog(t, event, cmd, a), later)
  {
    TimeEntries.InsertedKeeps(t, TimeEntryFor(event, cmd, LabelsOf(a), a.client), a.now);
  }

  lemma CorrectKeeps(t: TimeEntries.Table, event: Event, cmd: Command, a: Answers, later: int)
    requires TimeEntries.Ledger(t)
    ensures TimeEntries.Ledger(AfterCorrect(t, event, cmd, a))
    ensures ClockedBefore(t, a.now) && a.now < later ==> ClockedBefore(AfterCorrect(t, event, cmd, a), later)
  {
    var prev := TimeEntries.Latest(t, KeyOf(event), |t|);
    if prev.Some? && FitsInt4(cmd.minutes) {
      var e := TimeEntryFor(event, cmd, LabelsOf(a), t[prev.value].value.entry.clientId);
      TimeEntries.InsertedKeeps(t, e, a.now);
      TimeEntries.LinkedKeeps(TimeEntries.Inserted(t, e, a.now), prev.value, |t|);
    }
  }

  lemma DeleteKeeps(t: TimeEntries.Table, event: Event, now: int, later: int)
    requires TimeEntries.Ledger(t)
    ensures TimeEntries.Ledger(AfterDelete(t, event))
    ensures ClockedBefore(t, now) && now < later ==> ClockedBefore(AfterDelete(t, event), later)
  {
    var prev := TimeEntries.Latest(t, KeyOf(event), |t|);
    if prev.Some? { TimeEntries.SoftDeletedKeeps(t, prev.value); }
  }

  lemma PlanKeeps(t: PlanEntries.Table, event: Event, cmd: Command, a: Answers)
    requires PlanEntries.Ledger(t)
    ensures PlanEntries.Ledger(AfterPlan(t, event, cmd, a)) && PlanEntries.Ledger(AfterUnplan(t, event))
  {
    var e := PlanEntryFor(event, cmd, LabelsOf(a));
    var prev := CurrentPlan(t, IssueOf(event), |t|);
    FoundPlanReplaceable(t, e, prev);
    if FitsInt4(cmd.minutes) { PlanEntries.ReplacedKeeps(t, prev, e, a.now); }
    if prev.Some? { PlanEntries.SoftDeletedKeeps(t, prev.value, ClosingFor(event)); }
  }

  lemma ProcessKeeps(s: State, d: Delivery, a: Answers, later: int)
    requires TimeEntries.Ledger(s.times) && PlanEntries.Ledger(s.plans)
    ensures TimeEntries.Ledger(Process(s, d, a).times) && PlanEntries.Ledger(Process(s, d, a).plans)
    ensures ClockedBefore(s.times, a.now) && a.now < later ==> ClockedBefore(Process(s, d, a).times, later)
  {
    hide CommandOf, AfterCommand, TimeEntries.Ledger, PlanEntries.Ledger;
    if Admitted(s, d) && CommandOf(d).Some? && Allowed(a) {
      var claimed := Claimed(s, d);
      CommandKeeps(claimed, EventOf(d).value, CommandOf(d).value, a, later);
    }
  }

  lemma CommandKeeps(s: State, event: Event, cmd: Command, a: Answers, later: int)
    requires TimeEntries.Ledger(s.times) && PlanEntries.Ledger(s.plans)
    ensures TimeEntries.Ledger(AfterCommand(s, event, cmd, a).times)
    ensures PlanEntries.Ledger(AfterCommand(s, event, cmd, a).plans)
    ensures ClockedBefore(s.times, a.now) && a.now < later ==>
      ClockedBefore(AfterCommand(s, event, cmd, a).times, later)
  {
    hide AfterLog, AfterCorrect, AfterDelete, AfterPlan, AfterUnplan, TimeEntries.Ledger, PlanEntries.Ledger;
    LogKeeps(s.times, event, cmd, a, later);
    CorrectKeeps(s.times, event, cmd, a, later);
    DeleteKeeps(s.times, event, a.now, later);
    PlanKeeps(s.plans, event, cmd, a);
  }

  /** Every serial run keeps both ledgers, and as long as the clock advances created_at strictly
      increases with the id and lies before the next call. */
  lemma {:induction false} RunKeeps(calls: seq<Call>, later: int)
    ensures TimeEntries.Ledger(Run(calls).times) && PlanEntries.Ledger(Run(calls).plans)
    ensures Ticking(calls) && EndsBefore(calls, later) ==> ClockedBefore(Run(calls).times, later)
  {
    if calls == [] {
      assert TimeEntries.Ledger([None]) && PlanEntries.Ledger([None]);
    } else {
      hide TimeEntries.Ledger, PlanEntries.Ledger, ClockedBefore, Process;
      var front, last := calls[..|calls| - 1], calls[|calls| - 1];
      RunKeeps(front, last.a.now);
      ProcessKeeps(Run(front), last.d, last.a, later);
    }
  }

  // ---- the time table is a family of stacks ------------------------------------------------------

  /** The active entries of a key among the first n slots, oldest first. */
  function StackOf(t: TimeEntries.Table, key: TimeEntries.Key, n: nat): seq<TimeEntries.Entry>
    requires n <= |t|
  {
    if n == 0 then []
    else StackOf(t, key, n - 1) + (if TimeEntries.ActiveAt(t, n - 1, key) then [t[n - 1].value.entry] else [])
  }

  function Stack(s: State, key: TimeEntries.Key): seq<TimeEntries.Entry> {
    StackOf(s.times, key, |s.times|)
  }

  /** What a command does to the stack of a key, without any table. */
  function StackStep(stack: seq<TimeEntries.Entry>, event: Event, cmd: Command, a: Answers): seq<TimeEntries.Entry> {
    match cmd.verb
    case Log =>
      if FitsInt4(cmd.minutes) then stack + [TimeEntryFor(event, cmd, LabelsOf(a), a.client)] else stack
    case Correct =>
      if stack == [] || !FitsInt4(cmd.minutes) then stack
      else
        var top := stack[|stack| - 1];
        stack[..|stack| - 1] + [TimeEntryFor(event, cmd, LabelsOf(a), top.clientId)]
    case Delete =>
      if stack == [] then stack else stack[..|stack| - 1]
    case Plan => stack
    case Unplan => stack
  }

  /** The reference: replay the admitted, authorised commands on the issue by this person, in
      order, on a bare stack. */
  function ReferenceStack(calls: seq<Call>, key: TimeEntries.Key): seq<TimeEntries.Entry> {
    if calls == [] then []
    else
      var front, last := calls[..|calls| - 1], calls[|calls| - 1];
      var stack := ReferenceStack(front, key);
      if LastAdmitted(calls) && CommandOf(last.d).Some? && Allowed(last.a) && KeyOf(EventOf(last.d).value) == key
      then StackStep(stack, EventOf(last.d).value, CommandOf(last.d).value, last.a)
      else stack
  }

  lemma {:induction false} StackDependsOnPrefix(t: TimeEntries.Table, u: TimeEntries.Table, key: TimeEntries.Key,
        n: nat)
    requires n <= |t| && n <= |u|
    requires forall i :: 0 <= i < n ==> TimeEntries.ActiveAt(u, i, key) == TimeEntries.ActiveAt(t, i, key)
    requires forall i :: 0 <= i < n && TimeEntries.ActiveAt(t, i, key) && TimeEntries.ActiveAt(u, i, key) ==>
      u[i].value.entry == t[i].value.entry
    ensures StackOf(u, key, n) == StackOf(t, key, n)
  {
    if n == 0 {
    } else {
      StackDependsOnPrefix(t, u, key, n - 1);
    }
  }

  lemma StackPush(t: TimeEntries.Table, e: TimeEntries.Entry, now: int, key: TimeEntries.Key)
    ensures StackOf(TimeEntries.Inserted(t, e, now), key, |t| + 1)
      == StackOf(t, key, |t|) + (if TimeEntries.KeyOf(e) == key then [e] else [])
  {
    StackDependsOnPrefix(t, TimeEntries.Inserted(t, e, now), key, |t|);
  }

  /** Deactivating the last active row of a key pops that key's stack and no other. */
  lemma {:induction false} StackPop(t: TimeEntries.Table, u: TimeEntries.Table, prev: nat, key: TimeEntries.Key, n: nat)
    requires prev < |t| && n <= |t| <= |u| && TimeEntries.Has(t, prev)
    requires forall i :: 0 <= i < |t| && i != prev ==> u[i] == t[i]
    requires u[prev].Some? && !u[prev].value.status.Active?
    requires forall j :: prev < j < |t| ==> !TimeEntries.ActiveAt(t, j, key)
    ensures StackOf(t, key, n)
      == StackOf(u, key, n) + (if prev < n && TimeEntries.ActiveAt(t, prev, key) then [t[prev].value.entry] else [])
  {
    if n == 0 {
    } else {
      StackPop(t, u, prev, key, n - 1);
    }
  }

  /** Under the serial clock the latest active row is the top of the stack. */
  lemma {:induction false} LatestIsTop(t: TimeEntries.Table, key: TimeEntries.Key, n: nat, now: int)
    requires n <= |t| && ClockedBefore(t, now)
    ensures var best := TimeEntries.Latest(t, key, n);
      var stack := StackOf(t, key, n);
      && (best.None? ==> stack == [])
      && (best.Some? ==> stack != [] && stack[|stack| - 1] == t[best.value].value.entry)
      && (best.Some? ==> forall j :: best.value < j < n ==> !TimeEntries.ActiveAt(t, j, key))
  {
    if n == 0 {
    } else {
      LatestIsTop(t, key, n - 1, now);
    }
  }

  lemma CorrectReplacesTop(t: TimeEntries.Table, event: Event, cmd: Command, a: Answers, key: TimeEntries.Key)
    requires ClockedBefore(t, a.now) && cmd.verb.Correct?
    ensures var u := AfterCorrect(t, event, cmd, a);
      StackOf(u, key, |u|)
        == if KeyOf(event) == key then StackStep(StackOf(t, key, |t|), event, cmd, a) else StackOf(t, key, |t|)
  {
    LatestIsTop(t, KeyOf(event), |t|, a.now);
    var prev := TimeEntries.Latest(t, KeyOf(event), |t|);
    if prev.Some? && FitsInt4(cmd.minutes) {
      var e := TimeEntryFor(event, cmd, LabelsOf(a), t[prev.value].value.entry.clientId);
      var popped := TimeEntries.Linked(t, prev.value, |t|);
      var u := AfterCorrect(t, event, cmd, a);
      assert u == TimeEntries.Inserted(popped, e, a.now);
      StackPush(popped, e, a.now, key);
      if key == KeyOf(event) {
        StackPop(t, popped, prev.value, key, |t|);
      } else {
        StackDependsOnPrefix(t, popped, key, |t|);
      }
    }
  }

  lemma DeletePopsTop(t: TimeEntries.Table, event: Event, now: int, key: TimeEntries.Key)
    requires ClockedBefore(t, now)
    ensures var u := AfterDelete(t, event);
      var stack := StackOf(t, key, |t|);
      StackOf(u, key, |u|) == if KeyOf(event) == key && stack != [] then stack[..|stack| - 1] else stack
  {
    LatestIsTop(t, KeyOf(event), |t|, now);
    var prev := TimeEntries.Latest(t, KeyOf(event), |t|);
    if prev.Some? {
      var u := AfterDelete(t, event);
      if key == KeyOf(event) {
        StackPop(t, u, prev.value, key, |t|);
      } else {
        StackDependsOnPrefix(t, u, key, |t|);
      }
    }
  }

  lemma CommandActsOnStack(s: State, event: Event, cmd: Command, a: Answers, key: TimeEntries.Key)
    requires ClockedBefore(s.times, a.now)
    ensures Stack(AfterCommand(s, event, cmd, a), key)
      == if KeyOf(event) == key then StackStep(Stack(s, key), event, cmd, a) else Stack(s, key)
  {
    hide AfterCorrect, AfterDelete, AfterPlan, AfterUnplan, ClockedBefore;
    match cmd.verb
    case Log =>
      if FitsInt4(cmd.minutes) { StackPush(s.times, TimeEntryFor(event, cmd, LabelsOf(a), a.client), a.now, key); }
    case Correct => CorrectReplacesTop(s.times, event, cmd, a, key);
    case Delete => DeletePopsTop(s.times, event, a.now, key);
    case Plan =>
    case Unplan =>
  }

  lemma ProcessActsOnStack(s: State, d: Delivery, a: Answers, key: TimeEntries.Key)
    requires ClockedBefore(s.times, a.now)
    ensures Stack(Process(s, d, a), key)
      == if Admitted(s, d) && CommandOf(d).Some? && Allowed(a) && KeyOf(EventOf(d).value) == key
         then StackStep(Stack(s, key), EventOf(d).value, CommandOf(d).value, a)
         else Stack(s, key)
  {
    hide CommandOf, AfterCommand, StackStep, ClockedBefore, StackOf;
    var claimed := Claimed(s, d);
    assert Stack(claimed, key) == Stack(s, key);
    if Admitted(s, d) && CommandOf(d).Some? && Allowed(a) {
      CommandActsOnStack(claimed, EventOf(d).value, CommandOf(d).value, a, key);
      assert Process(s, d, a) == AfterCommand(claimed, EventOf(d).value, CommandOf(d).value, a);
    }
  }

  /** Refinement: after any serial run the active rows of every key are exactly the reference
      stack of that key. */
  lemma {:induction false} TimeTableRefinesStacks(calls: seq<Call>, key: TimeEntries.Key)
    requires Ticking(calls)
    ensures Stack(Run(calls), key) == ReferenceStack(calls, key)
  {
    if calls == [] {
      assert StackOf([None], key, 0) == [] && !TimeEntries.ActiveAt([None], 0, key);
    } else {
      hide CommandOf, Process, StackStep, ClockedBefore, Admitted, LastAdmitted;
      var front, last := calls[..|calls| - 1], calls[|calls| - 1];
      TimeTableRefinesStacks(front, key);
      RunKeeps(front, last.a.now);
      LastAdmittedIff(calls);
      ProcessActsOnStack(Run(front), last.d, last.a, key);
    }
  }
}
