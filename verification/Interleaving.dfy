/** Webhook handlers running at the same time (internal/webhook/handler.go over both stores).

    Each received delivery is a process with a program counter; each SQL statement, and each
    ReplacePlan transaction, is one atomic step; any process may stop for good at any point (a
    failing statement, a failing call or a crash), and ids drawn by failed inserts are lost. */
module Interleaving {
  import opened Options
  import opened Columns
  import opened Deliveries
  import Commands
  import TimeEntries
  import PlanEntries

  type Command = Commands.Command

  datatype Pc =
    | Received                                   // before the claim
    | Dispatching                                // past the claim
    | LogReady(cmd: Command)
    | CorrectReady(cmd: Command)
    | CorrectFound(cmd: Command, prev: nat, client: Option<int>)
    | CorrectInserted(prev: nat, newId: nat)
    | DeleteReady
    | DeleteFound(prev: nat)
    | PlanReady(cmd: Command)
    | PlanFound(cmd: Command, current: Option<nat>)
    | UnplanReady
    | UnplanFound(prev: nat)
    | Finished

  /** `passed`: the delivery got past the claim; `allowed`: the membership policy said yes. */
  datatype Proc = Proc(d: Delivery, pc: Pc, passed: bool, allowed: bool)

  /** `timeBy` and `planBy` record which process inserted which row; no step reads them. */
  datatype State = State(
    times: TimeEntries.Table, plans: PlanEntries.Table, claimed: set<string>,
    procs: seq<Proc>, timeBy: map<nat, nat>, planBy: map<nat, nat>)

  const INIT := State([None], [None], {}, [], map[], map[])

  datatype Step =
    | Receive(d: Delivery)
    | Claim(p: nat)
    | Dispatch(p: nat, allowed: bool)
    | LogInsert(p: nat, labels: seq<string>, client: Option<int>, now: int)
    | CorrectFind(p: nat, found: Option<nat>)
    | CorrectInsert(p: nat, labels: seq<string>, now: int)
    | CorrectLink(p: nat)
    | DeleteFind(p: nat, found: Option<nat>)
    | DeleteMark(p: nat)
    | PlanFind(p: nat, found: Option<nat>)
    | PlanReplace(p: nat, labels: seq<string>, now: int)
    | UnplanFind(p: nat, found: Option<nat>)
    | UnplanMark(p: nat)
    | Stop(p: nat)
    | BurnTimeId
    | BurnPlanId

  predicate At(s: State, p: nat) {
    p < |s.procs|
  }

  /** The event of a process that has got as far as running a command. */
  predicate Running(s: State, p: nat) {
    At(s, p) && EventOf(s.procs[p].d).Some?
  }

  function EventAt(s: State, p: nat): Event
    requires Running(s, p)
  {
    EventOf(s.procs[p].d).value
  }

  predicate Enabled(s: State, step: Step) {
    match step
    case Receive(d) => true
    case Claim(p) => At(s, p) && s.procs[p].pc.Received?
    case Dispatch(p, allowed) => At(s, p) && s.procs[p].pc.Dispatching?
    case LogInsert(p, labels, client, now) => Running(s, p) && s.procs[p].pc.LogReady?
    case CorrectFind(p, found) =>
      Running(s, p) && s.procs[p].pc.CorrectReady? && TimeAnswer(s.times, KeyOf(EventAt(s, p)), found)
    case CorrectInsert(p, labels, now) => Running(s, p) && s.procs[p].pc.CorrectFound?
    case CorrectLink(p) => At(s, p) && s.procs[p].pc.CorrectInserted?
    case DeleteFind(p, found) =>
      Running(s, p) && s.procs[p].pc.DeleteReady? && TimeAnswer(s.times, KeyOf(EventAt(s, p)), found)
    case DeleteMark(p) => At(s, p) && s.procs[p].pc.DeleteFound?
    case PlanFind(p, found) =>
      Running(s, p) && s.procs[p].pc.PlanReady? && PlanAnswer(s.plans, IssueOf(EventAt(s, p)), found)
    case PlanReplace(p, labels, now) => Running(s, p) && s.procs[p].pc.PlanFound?
    case UnplanFind(p, found) =>
      Running(s, p) && s.procs[p].pc.UnplanReady? && PlanAnswer(s.plans, IssueOf(EventAt(s, p)), found)
    case UnplanMark(p) => Running(s, p) && s.procs[p].pc.UnplanFound?
    case Stop(p) => At(s, p)
    case BurnTimeId => true
    case BurnPlanId => true
  }

  function Goto(s: State, p: nat, pc: Pc): State
    requires At(s, p)
  {
    s.(procs := s.procs[p := s.procs[p].(pc := pc)])
  }

  function Ready(cmd: Command): Pc {
    match cmd.verb
    case Log => LogReady(cmd)
    case Correct => CorrectReady(cmd)
    case Delete => DeleteReady
    case Plan => PlanReady(cmd)
    case Unplan => UnplanReady
  }

  /** A delivery with a bad signature is refused before anything else happens. */
  function ReceiveResult(s: State, d: Delivery): State {
    s.(procs := s.procs + [Proc(d, if d.signatureOk then Received else Finished, false, false)])
  }

  function ClaimResult(s: State, p: nat): State
    requires At(s, p)
  {
    var d := s.procs[p].d;
    if d.id != "" && d.id in s.claimed then Goto(s, p, Finished)
    else
      s.(claimed := if d.id == "" then s.claimed else s.claimed + {d.id},
         procs := s.procs[p := s.procs[p].(pc := Dispatching, passed := true)])
  }

  function DispatchResult(s: State, p: nat, allowed: bool): State
    requires At(s, p)
  {
    match CommandOf(s.procs[p].d)
    case None => Goto(s, p, Finished)
    case Some(cmd) =>
      if allowed then s.(procs := s.procs[p := s.procs[p].(pc := Ready(cmd), allowed := true)])
      else Goto(s, p, Finished)
  }

  function LogResult(s: State, p: nat, labels: seq<string>, client: Option<int>, now: int): State
    requires Running(s, p) && s.procs[p].pc.LogReady?
  {
    var cmd := s.procs[p].pc.cmd;
    var e := TimeEntryFor(EventAt(s, p), cmd, labels, client);
    if FitsInt4(cmd.minutes)
    then Goto(s, p, Finished).(times := TimeEntries.Inserted(s.times, e, now), timeBy := s.timeBy[|s.times| := p])
    else Goto(s, p, Finished)
  }

  function CorrectFindResult(s: State, p: nat, found: Option<nat>): State
    requires Running(s, p) && s.procs[p].pc.CorrectReady? && TimeAnswer(s.times, KeyOf(EventAt(s, p)), found)
  {
    match found
    case None => Goto(s, p, Finished)
    case Some(prev) => Goto(s, p, CorrectFound(s.procs[p].pc.cmd, prev, s.times[prev].value.entry.clientId))
  }

  function CorrectInsertResult(s: State, p: nat, labels: seq<string>, now: int): State
    requires Running(s, p) && s.procs[p].pc.CorrectFound?
  {
    var pc := s.procs[p].pc;
    var e := TimeEntryFor(EventAt(s, p), pc.cmd, labels, pc.client);
    if FitsInt4(pc.cmd.minutes)
    then Goto(s, p, CorrectInserted(pc.prev, |s.times|)).(
      times := TimeEntries.Inserted(s.times, e, now), timeBy := s.timeBy[|s.times| := p])
    else Goto(s, p, Finished)
  }

  /** Minutes that do not fit the column are refused before the insert is sent; one that the
      unique index refuses has used up an id. */
  function PlanReplaceResult(s: State, p: nat, labels: seq<string>, now: int): State
    requires Running(s, p) && s.procs[p].pc.PlanFound?
  {
    var pc := s.procs[p].pc;
    var e := PlanEntryFor(EventAt(s, p), pc.cmd, labels);
    if PlanEntries.ReplaceAllowed(s.plans, pc.current, e)
    then Goto(s, p, Finished).(
      plans := PlanEntries.Replaced(s.plans, pc.current, e, now), planBy := s.planBy[|s.plans| := p])
    else if FitsInt4(e.minutes) then Goto(s, p, Finished).(plans := PlanEntries.Burned(s.plans))
    else Goto(s, p, Finished)
  }

  /** Supersede is unconditional: it marks the row found earlier, whatever it has become since. */
  function CorrectLinkResult(s: State, p: nat): State
    requires At(s, p) && s.procs[p].pc.CorrectInserted?
  {
    var pc := s.procs[p].pc;
    Goto(s, p, Finished).(times := TimeEntries.Linked(s.times, pc.prev, pc.newId))
  }

  function DeleteMarkResult(s: State, p: nat): State
    requires At(s, p) && s.procs[p].pc.DeleteFound?
  {
    Goto(s, p, Finished).(times := TimeEntries.SoftDeleted(s.times, s.procs[p].pc.prev))
  }

  function UnplanMarkResult(s: State, p: nat): State
    requires Running(s, p) && s.procs[p].pc.UnplanFound?
  {
    Goto(s, p, Finished).(plans := PlanEntries.SoftDeleted(s.plans, s.procs[p].pc.prev, ClosingFor(EventAt(s, p))))
  }

  function Apply(s: State, step: Step): State
    requires Enabled(s, step)
  {
    match step
    case Receive(d) => ReceiveResult(s, d)
    case Claim(p) => ClaimResult(s, p)
    case Dispatch(p, allowed) => DispatchResult(s, p, allowed)
    case LogInsert(p, labels, client, now) => LogResult(s, p, labels, client, now)
    case CorrectFind(p, found) => CorrectFindResult(s, p, found)
    case CorrectInsert(p, labels, now) => CorrectInsertResult(s, p, labels, now)
    case CorrectLink(p) => CorrectLinkResult(s, p)
    case DeleteFind(p, found) =>
      Goto(s, p, if found.Some? then DeleteFound(found.value) else Finished)
    case DeleteMark(p) => DeleteMarkResult(s, p)
    case PlanFind(p, found) => Goto(s, p, PlanFound(s.procs[p].pc.cmd, found))
    case PlanReplace(p, labels, now) => PlanReplaceResult(s, p, labels, now)
    case UnplanFind(p, found) =>
      Goto(s, p, if found.Some? then UnplanFound(found.value) else Finished)
    case UnplanMark(p) => UnplanMarkResult(s, p)
    case Stop(p) => Goto(s, p, Finished)
    case BurnTimeId => s.(times := TimeEntries.Burned(s.times))
    case BurnPlanId => s.(plans := PlanEntries.Burned(s.plans))
  }

  /** steps lead from states[0] through all the states. */
  predicate IsPath(states: seq<State>, steps: seq<Step>) {
    && |states| == |steps| + 1
    && forall i :: 0 <= i < |steps| ==> Enabled(states[i], steps[i]) && states[i + 1] == Apply(states[i], steps[i])
  }

  predicate IsRun(states: seq<State>, steps: seq<Step>) {
    IsPath(states, steps) && states[0] == INIT
  }

  /** s is a state of some run. */
  ghost predicate Reachable(s: State) {
    exists states: seq<State>, steps: seq<Step> :: IsRun(states, steps) && states[|steps|] == s
  }

  /** Every state a run passes through is reachable. */
  lemma PassedThrough(states: seq<State>, steps: seq<Step>, n: nat)
    requires IsRun(states, steps) && n <= |steps|
    ensures Reachable(states[n])
  {
    hide Apply, Enabled;
    assert IsRun(states[..n + 1], steps[..n]);
    assert states[..n + 1][|steps[..n]|] == states[n];
  }
}
