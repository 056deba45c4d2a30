/** Runs that show what the handlers do not promise: two corrections at the same time can both stay
    active, a failed Supersede leaves both rows active, and a /log without a delivery id that comes
    twice is logged twice. */
module StaleReads {
  import opened Options
  import opened Columns
  import opened Deliveries
  import opened Interleaving
  import Commands
  import CommandTexts
  import TimeEntries
  import PlanEntries
  import PlanVsActual
  import Serial = SerialIsInterleaved

  lemma ReachFurther(s: State, step: Step)
    requires Reachable(s) && Enabled(s, step)
    ensures Reachable(Apply(s, step))
  {
    hide Apply, Enabled;
    Serial.LeadsFurther(INIT, s, step);
  }

  lemma InitReachable()
    ensures Reachable(INIT)
  {
    Serial.LeadsNowhere(INIT);
  }

  /** A signed delivery of a comment with the command, whose author will be allowed. */
  predicate Carries(d: Delivery, cmd: Command, key: TimeEntries.Key) {
    d.signatureOk && CommandOf(d) == Some(cmd) && KeyOf(EventOf(d).value) == key
  }

  /** One more process, at the beginning of its command. */
  function Arrived(s: State, d: Delivery, cmd: Command): State {
    s.(claimed := if d.id == "" then s.claimed else s.claimed + {d.id},
       procs := s.procs + [Proc(d, Ready(cmd), true, true)])
  }

  lemma Arrives(s: State, d: Delivery, cmd: Command, key: TimeEntries.Key)
    requires Reachable(s) && Carries(d, cmd, key) && (d.id == "" || d.id !in s.claimed)
    ensures Reachable(Arrived(s, d, cmd))
  {
    hide Reachable, CommandOf, EventOf;
    var p := |s.procs|;
    ReachFurther(s, Receive(d));
    var u0 := ReceiveResult(s, d);
    ReachFurther(u0, Claim(p));
    var u1 := ClaimResult(u0, p);
    ReachFurther(u1, Dispatch(p, true));
    var u2 := DispatchResult(u1, p, true);
    assert u2.procs == Arrived(s, d, cmd).procs;
  }

  /** The three deliveries: a /log and two /correct by one person on one issue. */
  predicate Scenario(d: seq<Delivery>, cmd: seq<Command>, key: TimeEntries.Key) {
    && |d| == 3 && |cmd| == 3
    && Carries(d[0], cmd[0], key) && Carries(d[1], cmd[1], key) && Carries(d[2], cmd[2], key)
    && cmd[0].verb.Log? && cmd[1].verb.Correct? && cmd[2].verb.Correct?
    && FitsInt4(cmd[0].minutes) && FitsInt4(cmd[1].minutes) && FitsInt4(cmd[2].minutes)
    && d[0].id != d[1].id && d[0].id != d[2].id && d[1].id != d[2].id
  }

  function RowFor(d: Delivery, cmd: Command, now: int): TimeEntries.Row
    requires EventOf(d).Some?
  {
    TimeEntries.Row(TimeEntryFor(EventOf(d).value, cmd, [], None), Active, None, now)
  }

  /** Both corrections have arrived behind the logged row, which is row 1. */
  lemma BothArrive(d: seq<Delivery>, cmd: seq<Command>, key: TimeEntries.Key) returns (s: State)
    requires Scenario(d, cmd, key)
    ensures Reachable(s) && |s.procs| == 3 && s.times == [None, Some(RowFor(d[0], cmd[0], 1))]
    ensures s.procs[0].d == d[0]
    ensures s.procs[1] == Proc(d[1], CorrectReady(cmd[1]), true, true)
    ensures s.procs[2] == Proc(d[2], CorrectReady(cmd[2]), true, true)
  {
    hide Reachable, CommandOf, EventOf;
    InitReachable();
    Arrives(INIT, d[0], cmd[0], key);
    var u := Arrived(INIT, d[0], cmd[0]);
    ReachFurther(u, LogInsert(0, [], None, 1));
    var v := LogResult(u, 0, [], None, 1);
    Arrives(v, d[1], cmd[1], key);
    var w := Arrived(v, d[1], cmd[1]);
    Arrives(w, d[2], cmd[2], key);
    s := Arrived(w, d[2], cmd[2]);
  }

  /** Rows 1 to 3 are active rows of the key without pointers. */
  predicate ThreeActive(t: TimeEntries.Table, cmd: seq<Command>, key: TimeEntries.Key)
    requires |cmd| == 3
  {
    && |t| == 4 && t[0].None?
    && TimeEntries.ActiveAt(t, 1, key) && t[1].value.supersededBy.None?
    && TimeEntries.ActiveAt(t, 2, key) && t[2].value.supersededBy.None? && t[2].value.entry.minutes == cmd[1].minutes
    && TimeEntries.ActiveAt(t, 3, key) && t[3].value.supersededBy.None? && t[3].value.entry.minutes == cmd[2].minutes
  }

  /** Both corrections look up row 1, and then both insert. */
  lemma BothInsert(d: seq<Delivery>, cmd: seq<Command>, key: TimeEntries.Key) returns (s: State)
    requires Scenario(d, cmd, key)
    ensures Reachable(s) && |s.procs| == 3 && ThreeActive(s.times, cmd, key) && s.procs[0].d == d[0]
    ensures s.procs[1] == Proc(d[1], CorrectInserted(1, 2), true, true)
    ensures s.procs[2] == Proc(d[2], CorrectInserted(1, 3), true, true)
  {
    hide Reachable, CommandOf, EventOf;
    var s0 := BothArrive(d, cmd, key);
    assert TimeAnswer(s0.times, key, Some(1));
    ReachFurther(s0, CorrectFind(1, Some(1)));
    var s1 := CorrectFindResult(s0, 1, Some(1));
    ReachFurther(s1, CorrectFind(2, Some(1)));
    var s2 := CorrectFindResult(s1, 2, Some(1));
    ReachFurther(s2, CorrectInsert(1, [], 2));
    var s3 := CorrectInsertResult(s2, 1, [], 2);
    ReachFurther(s3, CorrectInsert(2, [], 3));
    s := CorrectInsertResult(s3, 2, [], 3);
    assert s.times == [None, Some(RowFor(d[0], cmd[0], 1)), Some(RowFor(d[1], cmd[1], 2)),
      Some(RowFor(d[2], cmd[2], 3))];
  }

  /** Rows 2 and 3 hold the two corrections, both active, and nothing points at row 2. */
  ghost predicate DoubledUp(t: TimeEntries.Table, cmd: seq<Command>, key: TimeEntries.Key)
    requires |cmd| == 3
  {
    && |t| == 4 && t[0].None?
    && TimeEntries.Points(t, 1, 3) && (forall i :: !TimeEntries.Points(t, i, 2)) && !t[1].value.status.Active?
    && TimeEntries.ActiveAt(t, 2, key) && t[2].value.entry.minutes == cmd[1].minutes
    && TimeEntries.ActiveAt(t, 3, key) && t[3].value.entry.minutes == cmd[2].minutes
  }

  lemma TwiceLinked(t: TimeEntries.Table, cmd: seq<Command>, key: TimeEntries.Key)
    requires |cmd| == 3 && ThreeActive(t, cmd, key)
    ensures DoubledUp(TimeEntries.Linked(TimeEntries.Linked(t, 1, 2), 1, 3), cmd, key)
  {
    var u := TimeEntries.Linked(TimeEntries.Linked(t, 1, 2), 1, 3);
  }

  /** For every /log and two /correct by one person on one issue some run without any fault ends
      with two active rows; the first correction has dropped out of the chain. Served one after
      the other they leave one active row. */
  lemma CorrectionsDoubleUp(d: seq<Delivery>, cmd: seq<Command>, key: TimeEntries.Key) returns (s: State)
    requires Scenario(d, cmd, key)
    ensures Reachable(s) && DoubledUp(s.times, cmd, key)
    ensures |s.procs| == 3 && s.procs[1].pc.Finished? && s.procs[2].pc.Finished?
    ensures s.procs[0].d == d[0] && s.procs[1].d == d[1] && s.procs[2].d == d[2]
  {
    hide Reachable, CommandOf, EventOf, DoubledUp, ThreeActive, Carries, TimeEntries.Linked;
    var s0 := BothInsert(d, cmd, key);
    ReachFurther(s0, CorrectLink(1));
    var s1 := CorrectLinkResult(s0, 1);
    ReachFurther(s1, CorrectLink(2));
    s := CorrectLinkResult(s1, 2);
    TwiceLinked(s0.times, cmd, key);
  }

  lemma DoubledTotal(t: TimeEntries.Table, cmd: seq<Command>, key: TimeEntries.Key)
    requires |cmd| == 3 && DoubledUp(t, cmd, key)
    ensures PlanVsActual.LoggedMins(t, PlanEntries.Issue(key.repo, key.issue)) == cmd[1].minutes + cmd[2].minutes
  {
    var issue := PlanEntries.Issue(key.repo, key.issue);
    PlanVsActual.FirstLoggedAll(t, issue, 4);
    assert PlanVsActual.Contributions(t, issue)[..4] == PlanVsActual.Contributions(t, issue);
    assert PlanVsActual.FirstLogged(t, issue, 1) == 0;
    assert PlanVsActual.FirstLogged(t, issue, 2) == 0;
    assert PlanVsActual.FirstLogged(t, issue, 3) == cmd[1].minutes;
  }

  /** A correction whose Supersede fails, in a run from the start: the row it found and the row it
      inserted are both active. */
  lemma SupersedeFails(d: seq<Delivery>, cmd: seq<Command>, key: TimeEntries.Key) returns (s: State)
    requires Scenario(d, cmd, key)
    ensures Reachable(s) && |s.times| == 3 && |s.procs| == 3 && s.procs[1] == Proc(d[1], Finished, true, true)
    ensures TimeEntries.ActiveAt(s.times, 1, key) && TimeEntries.ActiveAt(s.times, 2, key)
  {
    hide Reachable, CommandOf, EventOf;
    var s0 := BothArrive(d, cmd, key);
    assert TimeAnswer(s0.times, key, Some(1));
    ReachFurther(s0, CorrectFind(1, Some(1)));
    var s1 := CorrectFindResult(s0, 1, Some(1));
    ReachFurther(s1, CorrectInsert(1, [], 2));
    var s2 := CorrectInsertResult(s1, 1, [], 2);
    ReachFurther(s2, Stop(1));
    s := Goto(s2, 1, Finished);
    assert s.times == [None, Some(RowFor(d[0], cmd[0], 1)), Some(RowFor(d[1], cmd[1], 2))];
  }

  /** A /log that comes twice without a delivery id is logged twice. */
  lemma IdlessLoggedTwice(d: Delivery, cmd: Command, key: TimeEntries.Key) returns (s: State)
    requires Carries(d, cmd, key) && d.id == "" && cmd.verb.Log? && FitsInt4(cmd.minutes)
    ensures Reachable(s) && |s.procs| == 2 && s.procs[0].d == d && s.procs[1].d == d
    ensures s.times == [None, Some(RowFor(d, cmd, 1)), Some(RowFor(d, cmd, 2))]
  {
    hide Reachable, CommandOf, EventOf;
    InitReachable();
    Arrives(INIT, d, cmd, key);
    var u := Arrived(INIT, d, cmd);
    ReachFurther(u, LogInsert(0, [], None, 1));
    var v := LogResult(u, 0, [], None, 1);
    Arrives(v, d, cmd, key);
    var w := Arrived(v, d, cmd);
    ReachFurther(w, LogInsert(1, [], None, 2));
    s := LogResult(w, 1, [], None, 2);
  }

  /** A signed delivery of a comment with the text. */
  function Comment(id: string, text: string): Delivery {
    Delivery(id, true, IssueComment, Some(Event("created", 1, text, "url", 7, "ada", "acme/app", 12)))
  }

  /** Such deliveries exist: one hour logged, then corrected to 30 and to 45 minutes at the same
      time, can end as 75 logged minutes. */
  lemma HourBecomesSeventyFiveMinutes() returns (s: State)
    ensures Reachable(s) && |s.procs| == 3 && s.procs[0].d == Comment("a", "/log 1h")
    ensures s.procs[1].d == Comment("b", "/correct 30m") && s.procs[2].d == Comment("c", "/correct 45m")
    ensures PlanVsActual.LoggedMins(s.times, PlanEntries.Issue("acme/app", 12)) == 75
  {
    hide Commands.Parse, Reachable, DoubledUp, PlanVsActual.LoggedMins;
    var d := [Comment("a", "/log 1h"), Comment("b", "/correct 30m"), Comment("c", "/correct 45m")];
    var cmd := [Commands.Command(Commands.Log, 60, ""), Commands.Command(Commands.Correct, 30, ""),
      Commands.Command(Commands.Correct, 45, "")];
    CommandTexts.ExampleComments();
    var key := TimeEntries.Key(7, "acme/app", 12);
    s := CorrectionsDoubleUp(d, cmd, key);
    DoubledTotal(s.times, cmd, key);
  }
}
