/** What one delivery does to the tables, told by the fields of the delivery, the answers and the
    rows alone (internal/webhook/handler.go). `Webhook.MayProcess` is what `Handle` is proved to
    do; here it is said which deliveries act, what each verb does, and to which columns. */
module HandlerEffects {
  import opened Options
  import opened Columns
  import opened Deliveries
  import opened Webhook
  import Commands
  import TimeEntries
  import PlanEntries

  // ---- which deliveries act --------------------------------------------------------------

  /** Without a valid signature, and on a claimed id, nothing happens at all. */
  lemma RefusedChangesNothing(s: State, u: State, d: Delivery, a: Answers)
    requires MayProcess(s, u, d, a)
    requires !d.signatureOk || (d.id != "" && d.id in s.claimed)
    ensures u == s
  {
  }

  /** A signed delivery claims its id, if it has one, whatever else becomes of it. */
  lemma SignedIsClaimed(s: State, u: State, d: Delivery, a: Answers)
    requires MayProcess(s, u, d, a) && d.signatureOk
    ensures u.claimed == if d.id == "" then s.claimed else s.claimed + {d.id}
  {
    hide CommandOf, AfterLog, AfterPlan, AfterUnplan, AfterCorrect, AfterDelete, MayCorrect, MayDelete;
    assert d.id in s.claimed ==> s.claimed + {d.id} == s.claimed;
  }

  /** Neither table changes unless the event is a comment, just created, that parses, and the
      membership policy answered yes. */
  lemma OthersLeaveTables(s: State, u: State, d: Delivery, a: Answers)
    requires MayProcess(s, u, d, a)
    requires
      || d.eventType == OtherEvent || d.payload == None
      || d.payload.value.action != "created" || !Commands.Parse(d.payload.value.body).Parsed?
      || a.allowed != Some(true)
    ensures u.times == s.times && u.plans == s.plans
  {
    hide Commands.Parse;
  }

  /** A signed delivery, not claimed before, of a comment that was just created and parses to the
      command, by an author the membership policy lets in. */
  predicate Asks(s: State, d: Delivery, a: Answers, event: Event, cmd: Command) {
    && d.signatureOk && (d.id == "" || d.id !in s.claimed)
    && (d.eventType == IssueComment || d.eventType == ReviewComment) && d.payload == Some(event)
    && event.action == "created" && Commands.Parse(event.body) == Commands.Parsed(cmd)
    && a.allowed == Some(true)
  }

  /** Both kinds of comments are dispatched. */
  lemma AskedIsRun(s: State, u: State, d: Delivery, a: Answers, event: Event, cmd: Command)
    requires Asks(s, d, a, event, cmd) && MayProcess(s, u, d, a)
    ensures MayCommand(Claimed(s, d), u, event, cmd, a)
  {
    hide Commands.Parse, MayCommand;
  }

  // ---- what each verb does ---------------------------------------------------------------------

  /** The minutes fit the INT column. */
  predicate Storable(cmd: Command) {
    -2147483648 <= cmd.minutes <= 2147483647
  }

  /** An active row of the comment's author on the comment's issue. */
  predicate AuthorsRow(t: TimeEntries.Table, i: int, event: Event) {
    && 0 <= i < |t| && t[i].Some? && t[i].value.status == Active
    && t[i].value.entry.userId == event.userId
    && t[i].value.entry.repo == event.repo && t[i].value.entry.issue == event.issue
  }

  /** No active row of the author on the issue was created later. */
  ghost predicate LatestRow(t: TimeEntries.Table, i: int, event: Event) {
    AuthorsRow(t, i, event) && forall j :: AuthorsRow(t, j, event) ==> t[j].value.createdAt <= t[i].value.createdAt
  }

  /** The active plan of the comment's issue, whoever made it. */
  predicate IssuesPlan(t: PlanEntries.Table, i: int, event: Event) {
    && 0 <= i < |t| && t[i].Some? && t[i].value.status == Active
    && t[i].value.entry.repo == event.repo && t[i].value.entry.issue == event.issue
  }

  /** u is t with one more time row, the comment's own. */
  predicate TimeRowAdded(t: TimeEntries.Table, u: TimeEntries.Table, event: Event, cmd: Command, a: Answers,
        client: Option<int>) {
    && |u| == |t| + 1 && u[|t|].Some?
    && var Row(e, status, supersededBy, createdAt) := u[|t|].value;
    && status == Active && supersededBy == None && createdAt == a.now
    && e.userId == event.userId && e.username == event.login && e.repo == event.repo && e.issue == event.issue
    && e.minutes == cmd.minutes && e.description == cmd.description && e.clientId == client
    && e.commentId == event.commentId && e.commentUrl == event.commentUrl && e.createdBy == "user"
    && e.labels == (if a.labels.Some? then a.labels.value else [])
  }

  /** u has one more plan row than t, the comment's own. */
  predicate PlanRowAdded(t: PlanEntries.Table, u: PlanEntries.Table, event: Event, cmd: Command, a: Answers) {
    && |u| == |t| + 1 && u[|t|].Some?
    && var Row(e, status, supersededBy, closing, createdAt) := u[|t|].value;
    && status == Active && supersededBy == None && closing == None && createdAt == a.now
    && e.userId == event.userId && e.username == event.login && e.repo == event.repo && e.issue == event.issue
    && e.minutes == cmd.minutes && e.description == cmd.description
    && e.commentId == event.commentId && e.commentUrl == event.commentUrl && e.createdBy == "user"
    && e.labels == (if a.labels.Some? then a.labels.value else [])
  }

  /** /log adds one row with the resolved client, and touches no other. */
  lemma LogEffect(s: State, u: State, d: Delivery, a: Answers, event: Event, cmd: Command)
    requires Asks(s, d, a, event, cmd) && cmd.verb == Commands.Log && MayProcess(s, u, d, a)
    ensures u.plans == s.plans
    ensures if Storable(cmd)
      then TimeRowAdded(s.times, u.times, event, cmd, a, a.client) && u.times[..|s.times|] == s.times
      else u.times == s.times
  {
    hide Asks, MayProcess;
    AskedIsRun(s, u, d, a, event, cmd);
  }

  /** u is t after the correction of row prev: it points at the new row, which inherits its client. */
  predicate Corrected(t: TimeEntries.Table, u: TimeEntries.Table, prev: int, event: Event, cmd: Command, a: Answers) {
    && 0 <= prev < |t| && t[prev].Some?
    && TimeRowAdded(t, u, event, cmd, a, t[prev].value.entry.clientId)
    && u[prev] == Some(t[prev].value.(status := Superseded, supersededBy := Some(|t|)))
    && forall i :: 0 <= i < |t| && i != prev ==> u[i] == t[i]
  }

  /** /correct supersedes a latest active row of the author on the issue; without one, nothing. */
  lemma CorrectEffect(s: State, u: State, d: Delivery, a: Answers, event: Event, cmd: Command)
    requires Asks(s, d, a, event, cmd) && cmd.verb == Commands.Correct && MayProcess(s, u, d, a)
    ensures u.plans == s.plans
    ensures if Storable(cmd) && exists i :: AuthorsRow(s.times, i, event)
      then exists prev :: LatestRow(s.times, prev, event) && Corrected(s.times, u.times, prev, event, cmd, a)
      else u.times == s.times
  {
    hide Asks, MayProcess, AuthorsRow, LatestRow, Corrected;
    AskedIsRun(s, u, d, a, event, cmd);
    var found :| TimeAnswer(s.times, KeyOf(event), found) && u.times == AfterCorrectOf(s.times, event, cmd, a, found);
    LookupFinds(s.times, event, found);
    if found.Some? && Storable(cmd) { CorrectionMade(s.times, found.value, event, cmd, a); }
  }

  /** What the lookup of the latest row returns, by its columns. */
  lemma LookupFinds(t: TimeEntries.Table, event: Event, found: Option<nat>)
    requires TimeAnswer(t, KeyOf(event), found)
    ensures found.None? ==> forall i :: !AuthorsRow(t, i, event)
    ensures found.Some? ==> TimeEntries.Has(t, found.value) && LatestRow(t, found.value, event)
  {
    assert forall i :: AuthorsRow(t, i, event) <==> TimeEntries.ActiveAt(t, i, KeyOf(event));
  }

  lemma CorrectionMade(t: TimeEntries.Table, prev: nat, event: Event, cmd: Command, a: Answers)
    requires TimeEntries.Has(t, prev) && Storable(cmd)
    ensures Corrected(t, AfterCorrectOf(t, event, cmd, a, Some(prev)), prev, event, cmd, a)
  {
  }

  predicate Withdrawn(t: TimeEntries.Table, u: TimeEntries.Table, prev: int) {
    0 <= prev < |t| && t[prev].Some? && u == t[prev := Some(t[prev].value.(status := Deleted))]
  }

  /** /delete marks a latest active row of the author on the issue; without one, nothing. */
  lemma DeleteEffect(s: State, u: State, d: Delivery, a: Answers, event: Event, cmd: Command)
    requires Asks(s, d, a, event, cmd) && cmd.verb == Commands.Delete && MayProcess(s, u, d, a)
    ensures u.plans == s.plans
    ensures if exists i :: AuthorsRow(s.times, i, event)
      then exists prev :: LatestRow(s.times, prev, event) && Withdrawn(s.times, u.times, prev)
      else u.times == s.times
  {
    hide Asks, MayProcess, AuthorsRow, LatestRow;
    AskedIsRun(s, u, d, a, event, cmd);
    var found :| TimeAnswer(s.times, KeyOf(event), found) && u.times == AfterDeleteOf(s.times, found);
    LookupFinds(s.times, event, found);
  }

  /** /plan adds one row; the issue's active plan, if there is one, points at it. */
  lemma PlanEffect(s: State, u: State, d: Delivery, a: Answers, event: Event, cmd: Command)
    requires PlanEntries.OneActive(s.plans)
    requires Asks(s, d, a, event, cmd) && cmd.verb == Commands.Plan && MayProcess(s, u, d, a)
    ensures u.times == s.times
    ensures if Storable(cmd)
      then PlanRowAdded(s.plans, u.plans, event, cmd, a) && forall i :: 0 <= i < |s.plans| ==>
        u.plans[i] == if IssuesPlan(s.plans, i, event)
          then Some(s.plans[i].value.(status := Superseded, supersededBy := Some(|s.plans|))) else s.plans[i]
      else u.plans == s.plans
  {
    hide Asks, MayProcess, PlanEntries.OneActive;
    AskedIsRun(s, u, d, a, event, cmd);
    PlanLookupFinds(s.plans, event);
  }

  lemma PlanLookupFinds(t: PlanEntries.Table, event: Event)
    requires PlanEntries.OneActive(t)
    ensures forall i :: IssuesPlan(t, i, event) <==> CurrentPlan(t, IssueOf(event), |t|) == Some(i)
  {
    var issue := IssueOf(event);
    assert forall i :: IssuesPlan(t, i, event) <==> PlanEntries.ActiveAt(t, i, issue);
  }

  /** /unplan withdraws the issue's active plan, whoever made it, with the comment that closes it. */
  lemma UnplanEffect(s: State, u: State, d: Delivery, a: Answers, event: Event, cmd: Command)
    requires PlanEntries.OneActive(s.plans)
    requires Asks(s, d, a, event, cmd) && cmd.verb == Commands.Unplan && MayProcess(s, u, d, a)
    ensures u.times == s.times && |u.plans| == |s.plans|
    ensures forall i :: 0 <= i < |s.plans| ==>
      u.plans[i] == if IssuesPlan(s.plans, i, event)
        then Some(s.plans[i].value.(status := Deleted,
          closing := Some(PlanEntries.Closing(commentId := event.commentId, commentUrl := event.commentUrl))))
        else s.plans[i]
  {
    hide Asks, MayProcess, PlanEntries.OneActive;
    AskedIsRun(s, u, d, a, event, cmd);
    PlanLookupFinds(s.plans, event);
  }
}
