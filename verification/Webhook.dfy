/** The webhook handler, one delivery at a time (internal/webhook/handler.go). Posted comments do
    not change any table and are not modelled. */
module Webhook {
  import opened Options
  import opened Columns
  import opened Deliveries
  import Commands
  import TimeEntries
  import PlanEntries

  type Command = Commands.Command

  datatype State = State(times: TimeEntries.Table, plans: PlanEntries.Table, claimed: set<string>)

  const INIT := State([None], [None], {})

  /** The active plan of an issue among the first n slots. */
  function CurrentPlan(t: PlanEntries.Table, issue: PlanEntries.Issue, n: nat): (id: Option<nat>)
    requires n <= |t|
    ensures id.None? ==> forall i :: 0 <= i < n ==> !PlanEntries.ActiveAt(t, i, issue)
    ensures id.Some? ==> id.value < n && PlanEntries.ActiveAt(t, id.value, issue)
  {
    if n == 0 then None
    else if PlanEntries.ActiveAt(t, n - 1, issue) then Some(n - 1)
    else CurrentPlan(t, issue, n - 1)
  }

  // ---- what one delivery does to the tables, step by step ---------------------------------

  function AfterLog(t: TimeEntries.Table, event: Event, cmd: Command, a: Answers): TimeEntries.Table {
    if FitsInt4(cmd.minutes)
    then TimeEntries.Inserted(t, TimeEntryFor(event, cmd, LabelsOf(a), a.client), a.now)
    else t
  }

  function AfterCorrect(t: TimeEntries.Table, event: Event, cmd: Command, a: Answers): TimeEntries.Table {
    AfterCorrectOf(t, event, cmd, a, TimeEntries.Latest(t, KeyOf(event), |t|))
  }

  /** /correct, when the lookup has returned `found`. */
  function AfterCorrectOf(t: TimeEntries.Table, event: Event, cmd: Command, a: Answers,
        found: Option<nat>): TimeEntries.Table
    requires found.Some? ==> TimeEntries.Has(t, found.value)
  {
    match found
    case None => t
    case Some(prev) =>
      if !FitsInt4(cmd.minutes) then t
      else
        var e := TimeEntryFor(event, cmd, LabelsOf(a), t[prev].value.entry.clientId);
        TimeEntries.Linked(TimeEntries.Inserted(t, e, a.now), prev, |t|)
  }

  function AfterDelete(t: TimeEntries.Table, event: Event): TimeEntries.Table {
    AfterDeleteOf(t, TimeEntries.Latest(t, KeyOf(event), |t|))
  }

  function AfterDeleteOf(t: TimeEntries.Table, found: Option<nat>): TimeEntries.Table {
    match found
    case None => t
    case Some(prev) => TimeEntries.SoftDeleted(t, prev)
  }

  function AfterPlan(t: PlanEntries.Table, event: Event, cmd: Command, a: Answers): PlanEntries.Table {
    if FitsInt4(cmd.minutes)
    then PlanEntries.Replaced(t, CurrentPlan(t, IssueOf(event), |t|), PlanEntryFor(event, cmd, LabelsOf(a)), a.now)
    else t
  }

  function AfterUnplan(t: PlanEntries.Table, event: Event): PlanEntries.Table {
    match CurrentPlan(t, IssueOf(event), |t|)
    case None => t
    case Some(prev) => PlanEntries.SoftDeleted(t, prev, ClosingFor(event))
  }

  function AfterCommand(s: State, event: Event, cmd: Command, a: Answers): (r: State)
    ensures r.claimed == s.claimed
  {
    match cmd.verb
    case Log => s.(times := AfterLog(s.times, event, cmd, a))
    case Correct => s.(times := AfterCorrect(s.times, event, cmd, a))
    case Delete => s.(times := AfterDelete(s.times, event))
    case Plan => s.(plans := AfterPlan(s.plans, event, cmd, a))
    case Unplan => s.(plans := AfterUnplan(s.plans, event))
  }

  predicate Allowed(a: Answers) {
    a.allowed == Some(true)
  }

  /** Past the signature check and not claimed before. */
  predicate Admitted(s: State, d: Delivery) {
    d.signatureOk && (d.id == "" || d.id !in s.claimed)
  }

  function Claimed(s: State, d: Delivery): State {
    if d.id == "" then s else s.(claimed := s.claimed + {d.id})
  }

  function Process(s: State, d: Delivery, a: Answers): State {
    if !Admitted(s, d) then s
    else
      var claimed := Claimed(s, d);
      if CommandOf(d).Some? && Allowed(a)
      then AfterCommand(claimed, EventOf(d).value, CommandOf(d).value, a)
      else claimed
  }

  // ---- whatever the clock says -----------------------------------------------------------------

  /** Rows with the same created_at leave it to the database which of them a lookup returns. */
  ghost predicate MayCorrect(t: TimeEntries.Table, u: TimeEntries.Table, event: Event, cmd: Command, a: Answers) {
    exists found :: TimeAnswer(t, KeyOf(event), found) && u == AfterCorrectOf(t, event, cmd, a, found)
  }

  ghost predicate MayDelete(t: TimeEntries.Table, u: TimeEntries.Table, event: Event) {
    exists found :: TimeAnswer(t, KeyOf(event), found) && u == AfterDeleteOf(t, found)
  }

  /** What a command may leave, for any answers of the lookups. */
  ghost predicate MayCommand(s: State, u: State, event: Event, cmd: Command, a: Answers) {
    match cmd.verb
    case Correct => u == s.(times := u.times) && MayCorrect(s.times, u.times, event, cmd, a)
    case Delete => u == s.(times := u.times) && MayDelete(s.times, u.times, event)
    case _ => u == AfterCommand(s, event, cmd, a)
  }

  ghost predicate MayProcess(s: State, u: State, d: Delivery, a: Answers) {
    if !Admitted(s, d) then u == s
    else if CommandOf(d).Some? && Allowed(a)
    then MayCommand(Claimed(s, d), u, EventOf(d).value, CommandOf(d).value, a)
    else u == Claimed(s, d)
  }

  // ---- the clock of serial runs --------------------------------------------------------------

  /** created_at strictly increases with the id, and all of it lies before `now`. */
  ghost predicate ClockedBefore(t: TimeEntries.Table, now: int) {
    && (forall i {:trigger t[i]} :: TimeEntries.Has(t, i) ==> t[i].value.createdAt < now)
    && (forall i, j {:trigger t[i], t[j]} :: TimeEntries.Has(t, i) && TimeEntries.Has(t, j) && i < j ==>
      t[i].value.createdAt < t[j].value.createdAt)
  }

  /** With such a clock only one row can be the latest active one. */
  lemma LatestUnique(t: TimeEntries.Table, key: TimeEntries.Key, id: nat, now: int)
    requires ClockedBefore(t, now) && TimeEntries.IsLatestActive(t, key, id)
    ensures TimeEntries.Latest(t, key, |t|) == Some(id)
  {
    var best := TimeEntries.Latest(t, key, |t|);
    assert TimeEntries.ActiveAt(t, best.value, key);
  }

  /** So the outcome is the one of the serial specification. */
  lemma ClockDecides(s: State, u: State, event: Event, cmd: Command, a: Answers)
    requires ClockedBefore(s.times, a.now) && MayCommand(s, u, event, cmd, a)
    ensures u == AfterCommand(s, event, cmd, a)
  {
    hide AfterLog, AfterCorrectOf, AfterDeleteOf, AfterPlan, AfterUnplan, ClockedBefore;
    forall found | TimeAnswer(s.times, KeyOf(event), found)
      ensures found == TimeEntries.Latest(s.times, KeyOf(event), |s.times|)
    {
      if found.Some? { LatestUnique(s.times, KeyOf(event), found.value, a.now); }
    }
  }

  // ---- the handler -----------------------------------------------------------------------------

  class Handler {
    const deliveries: DeliveryStore
    const timeEntries: TimeEntries.TimeStore
    const planEntries: PlanEntries.PlanStore

    constructor (deliveries: DeliveryStore, timeEntries: TimeEntries.TimeStore, planEntries: PlanEntries.PlanStore)
      ensures this.deliveries == deliveries && this.timeEntries == timeEntries && this.planEntries == planEntries
    {
      this.deliveries := deliveries;
      this.timeEntries := timeEntries;
      this.planEntries := planEntries;
    }

    ghost function Now(): State
      reads deliveries, timeEntries, planEntries
    {
      State(timeEntries.table, planEntries.table, deliveries.claimed)
    }

    /** Signature, claim, dispatch: an undisturbed, fault-free call changes the three tables as
        the specification allows, and exactly as Process says when the clock has advanced since
        every row was written. The unique index lets no issue have two active plans. */
    method Handle(d: Delivery, a: Answers)
      requires PlanEntries.OneActive(planEntries.table)
      modifies deliveries, timeEntries, planEntries
      ensures MayProcess(old(Now()), Now(), d, a)
      ensures a.allowed != Some(true) ==>
        timeEntries.table == old(timeEntries.table) && planEntries.table == old(planEntries.table)
      ensures old(ClockedBefore(timeEntries.table, a.now)) ==> Now() == Process(old(Now()), d, a)
    {
      hide CommandIn, AfterCommand, MayCommand, PlanEntries.OneActive, ClockedBefore;
      ghost var before := Now();
      if !d.signatureOk { return; }
      if d.id != "" {
        var claimed := deliveries.Claim(d.id);
        if !claimed {
          assert deliveries.claimed == old(deliveries.claimed);
          return;
        }
      }
      assert Now() == Claimed(before, d);
      match d.eventType
      case IssueComment | ReviewComment =>
        if d.payload.Some? { DispatchCommentCommand(d.payload.value, a); }
      case OtherEvent =>
    }

    method DispatchCommentCommand(event: Event, a: Answers)
      requires PlanEntries.OneActive(planEntries.table)
      modifies timeEntries, planEntries
      ensures a.allowed != Some(true) ==>
        timeEntries.table == old(timeEntries.table) && planEntries.table == old(planEntries.table)
      ensures var cmd := CommandIn(event.action, event.body);
        if cmd.Some? && Allowed(a) then MayCommand(old(Now()), Now(), event, cmd.value, a) else Now() == old(Now())
      ensures old(ClockedBefore(timeEntries.table, a.now)) ==>
        var cmd := CommandIn(event.action, event.body);
        Now() == if cmd.Some? && Allowed(a) then AfterCommand(old(Now()), event, cmd.value, a) else old(Now())
    {
      hide Commands.Parse, PlanEntries.OneActive, ClockedBefore, MayCorrect, MayDelete;
      hide AfterLog, AfterCorrect, AfterDelete, AfterPlan, AfterUnplan;
      ghost var before := Now();
      if event.action != "created" { return; }
      var result := Commands.Parse(event.body);
      if !result.Parsed? { return; }
      if a.allowed != Some(true) { return; }
      var cmd := result.command;
      match cmd.verb {
        case Log => HandleLog(event, cmd, a);
        case Correct => HandleCorrect(event, cmd, a);
        case Delete => HandleDelete(event);
        case Plan => HandlePlan(event, cmd, a);
        case Unplan => HandleUnplan(event);
      }
      assert MayCommand(before, Now(), event, cmd, a);
      if ClockedBefore(before.times, a.now) { ClockDecides(before, Now(), event, cmd, a); }
    }

    method HandleLog(event: Event, cmd: Command, a: Answers)
      modifies timeEntries
      ensures timeEntries.table == AfterLog(old(timeEntries.table), event, cmd, a)
      ensures timeEntries.table == old(timeEntries.table) +
        if cmd.minutes < -2147483648 || cmd.minutes > 2147483647 then []
        else [Some(TimeEntries.Row(
          entry := TimeEntries.Entry(
            userId := event.userId, username := event.login, repo := event.repo, issue := event.issue,
            minutes := cmd.minutes, description := cmd.description, clientId := a.client,
            commentId := event.commentId, commentUrl := event.commentUrl, createdBy := "user",
            labels := if a.labels.Some? then a.labels.value else []),
          status := Active, supersededBy := None, createdAt := a.now))]
    {
      var _ := timeEntries.Create(TimeEntryFor(event, cmd, LabelsOf(a), a.client), a.now);
    }

    method HandleCorrect(event: Event, cmd: Command, a: Answers)
      modifies timeEntries
      ensures MayCorrect(old(timeEntries.table), timeEntries.table, event, cmd, a)
    {
      ghost var t := timeEntries.table;
      var prev := timeEntries.FindLatestActive(KeyOf(event));
      assert TimeAnswer(t, KeyOf(event), prev);
      if prev.None? {
        assert t == AfterCorrectOf(t, event, cmd, a, prev);
        return;
      }
      var row := timeEntries.GetByID(prev.value);
      var e := TimeEntryFor(event, cmd, LabelsOf(a), row.value.entry.clientId);
      var created := timeEntries.Create(e, a.now);
      if created.None? {
        assert t == AfterCorrectOf(t, event, cmd, a, prev);
        return;
      }
      var _ := timeEntries.Supersede(prev.value, created.value);
      assert timeEntries.table == AfterCorrectOf(t, event, cmd, a, prev);
    }

    method HandleDelete(event: Event)
      modifies timeEntries
      ensures MayDelete(old(timeEntries.table), timeEntries.table, event)
    {
      ghost var t := timeEntries.table;
      var prev := timeEntries.FindLatestActive(KeyOf(event));
      assert TimeAnswer(t, KeyOf(event), prev);
      if prev.None? {
        assert t == AfterDeleteOf(t, prev);
        return;
      }
      timeEntries.SoftDelete(prev.value);
      assert timeEntries.table == AfterDeleteOf(t, prev);
    }

    /** With nobody in between, the transaction never trips the unique index: it fails only when
        the minutes do not fit the column. */
    method HandlePlan(event: Event, cmd: Command, a: Answers)
      requires PlanEntries.OneActive(planEntries.table)
      modifies planEntries
      ensures planEntries.table == AfterPlan(old(planEntries.table), event, cmd, a)
    {
      var prev := planEntries.FindActive(IssueOf(event));
      var e := PlanEntryFor(event, cmd, LabelsOf(a));
      ghost var t := planEntries.table;
      FindActiveIsCurrent(t, IssueOf(event), prev);
      FoundPlanReplaceable(t, e, prev);
      var _ := planEntries.ReplacePlan(prev, e, a.now, PlanEntries.NoFault);
    }

    method HandleUnplan(event: Event)
      requires PlanEntries.OneActive(planEntries.table)
      modifies planEntries
      ensures planEntries.table == AfterUnplan(old(planEntries.table), event)
    {
      var prev := planEntries.FindActive(IssueOf(event));
      FindActiveIsCurrent(planEntries.table, IssueOf(event), prev);
      if prev.None? { return; }
      planEntries.SoftDelete(prev.value, ClosingFor(event));
    }
  }

  lemma FindActiveIsCurrent(t: PlanEntries.Table, issue: PlanEntries.Issue, found: Option<nat>)
    requires PlanEntries.OneActive(t)
    requires found.Some? ==> PlanEntries.ActiveAt(t, found.value, issue)
    requires found.None? ==> forall i :: 0 <= i < |t| ==> !PlanEntries.ActiveAt(t, i, issue)
    ensures CurrentPlan(t, issue, |t|) == found
  {
  }

  /** In a serial run FindActive followed by ReplacePlan never trips the unique index. */
  lemma FoundPlanReplaceable(t: PlanEntries.Table, e: PlanEntries.Entry, found: Option<nat>)
    requires PlanEntries.OneActive(t)
    requires found == CurrentPlan(t, PlanEntries.IssueOf(e), |t|)
    ensures PlanEntries.ReplaceAllowed(t, found, e) <==> FitsInt4(e.minutes)
  {
  }
}
