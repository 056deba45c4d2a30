/** What every interleaved, faulty run keeps: both ledgers, the provenance of every row, and at
    most one dispatch per delivery id. */
module InterleavingSafety {
  import opened Options
  import opened Columns
  import opened Deliveries
  import opened Interleaving
  import Commands
  import TimeEntries
  import PlanEntries

  // ---- provenance ------------------------------------------------------------------------

  /** The process got past the claim with this command, and its author was allowed. */
  predicate Authorised(r: Proc, cmd: Command) {
    r.passed && r.allowed && r.d.signatureOk && CommandOf(r.d) == Some(cmd)
  }

  /** A time row is the entry that the process's own /log or /correct asked for; only the label
      snapshot and the client are not determined by the delivery. */
  predicate TimeRowFrom(e: TimeEntries.Entry, r: Proc) {
    match CommandOf(r.d)
    case None => false
    case Some(cmd) =>
      && (cmd.verb.Log? || cmd.verb.Correct?) && Authorised(r, cmd)
      && e == TimeEntryFor(EventOf(r.d).value, cmd, e.labels, e.clientId)
  }

  predicate PlanRowFrom(e: PlanEntries.Entry, r: Proc) {
    match CommandOf(r.d)
    case None => false
    case Some(cmd) =>
      && cmd.verb.Plan? && Authorised(r, cmd)
      && e == PlanEntryFor(EventOf(r.d).value, cmd, e.labels)
  }

  /** Rows map injectively to the processes that wrote them. */
  ghost predicate TimeProvenance(t: TimeEntries.Table, owner: map<nat, nat>, procs: seq<Proc>) {
    && (forall i: nat {:trigger i in owner} {:trigger t[i]} :: TimeEntries.Has(t, i) <==> i in owner)
    && (forall i: nat {:trigger owner[i]} :: i in owner ==>
      owner[i] < |procs| && TimeEntries.Has(t, i) && TimeRowFrom(t[i].value.entry, procs[owner[i]]))
    && (forall i: nat, j: nat {:trigger owner[i], owner[j]} ::
      i in owner && j in owner && owner[i] == owner[j] ==> i == j)
  }

  ghost predicate PlanProvenance(t: PlanEntries.Table, owner: map<nat, nat>, procs: seq<Proc>) {
    && (forall i: nat {:trigger i in owner} {:trigger t[i]} :: PlanEntries.Has(t, i) <==> i in owner)
    && (forall i: nat {:trigger owner[i]} :: i in owner ==>
      owner[i] < |procs| && PlanEntries.Has(t, i) && PlanRowFrom(t[i].value.entry, procs[owner[i]]))
    && (forall i: nat, j: nat {:trigger owner[i], owner[j]} ::
      i in owner && j in owner && owner[i] == owner[j] ==> i == j)
  }

  // ---- what a process may rely on at each program counter -------------------------------------

  ghost predicate WroteNothing(s: State, p: nat) {
    && (forall i: nat {:trigger s.timeBy[i]} :: i in s.timeBy ==> s.timeBy[i] != p)
    && (forall i: nat {:trigger s.planBy[i]} :: i in s.planBy ==> s.planBy[i] != p)
  }

  predicate MayWrite(pc: Pc) {
    !pc.CorrectInserted? && !pc.Finished?
  }

  /** The command a running process is at. */
  predicate Runs(r: Proc, verb: Commands.Verb) {
    match CommandOf(r.d)
    case None => false
    case Some(cmd) => cmd.verb == verb && Authorised(r, cmd)
  }

  predicate TimeRowOf(t: TimeEntries.Table, id: nat, r: Proc) {
    && TimeEntries.Has(t, id) && EventOf(r.d).Some?
    && TimeEntries.KeyOf(t[id].value.entry) == KeyOf(EventOf(r.d).value)
  }

  predicate PlanRowOf(t: PlanEntries.Table, id: nat, r: Proc) {
    && PlanEntries.Has(t, id) && EventOf(r.d).Some?
    && PlanEntries.IssueOf(t[id].value.entry) == IssueOf(EventOf(r.d).value)
  }

  ghost predicate PcOk(s: State, p: nat, r: Proc) {
    match r.pc
    case Received => r.d.signatureOk && !r.passed && !r.allowed
    case Dispatching => r.d.signatureOk && r.passed && !r.allowed
    case LogReady(cmd) => Runs(r, Commands.Log) && CommandOf(r.d) == Some(cmd)
    case CorrectReady(cmd) => Runs(r, Commands.Correct) && CommandOf(r.d) == Some(cmd)
    case CorrectFound(cmd, prev, client) =>
      && Runs(r, Commands.Correct) && CommandOf(r.d) == Some(cmd)
      && TimeRowOf(s.times, prev, r) && s.times[prev].value.entry.clientId == client
    case CorrectInserted(prev, newId) =>
      && Runs(r, Commands.Correct)
      && TimeRowOf(s.times, prev, r) && TimeRowOf(s.times, newId, r) && prev < newId
      && s.times[prev].value.entry.clientId == s.times[newId].value.entry.clientId
      && newId in s.timeBy && s.timeBy[newId] == p
      && (forall i {:trigger TimeEntries.Points(s.times, i, newId)} :: !TimeEntries.Points(s.times, i, newId))
    case DeleteReady => Runs(r, Commands.Delete)
    case DeleteFound(prev) => Runs(r, Commands.Delete) && TimeRowOf(s.times, prev, r)
    case PlanReady(cmd) => Runs(r, Commands.Plan) && CommandOf(r.d) == Some(cmd)
    case PlanFound(cmd, current) =>
      && Runs(r, Commands.Plan) && CommandOf(r.d) == Some(cmd)
      && (current.Some? ==> PlanRowOf(s.plans, current.value, r))
    case UnplanReady => Runs(r, Commands.Unplan)
    case UnplanFound(prev) => Runs(r, Commands.Unplan) && PlanRowOf(s.plans, prev, r)
    case Finished => true
  }

  ghost predicate ProcOk(s: State, p: nat)
    requires p < |s.procs|
  {
    PcOk(s, p, s.procs[p]) && (MayWrite(s.procs[p].pc) ==> WroteNothing(s, p))
  }

  // ---- claims -----------------------------------------------------------------------------------

  predicate SameClaim(r: Proc, other: Proc) {
    r.passed && other.passed && r.d.id != "" && r.d.id == other.d.id
  }

  /** A delivery past the claim has its id claimed, and no other delivery past the claim has the
      same non-empty id. */
  ghost predicate ClaimsOk(claimed: set<string>, procs: seq<Proc>) {
    && (forall p {:trigger procs[p]} ::
      0 <= p < |procs| && procs[p].passed && procs[p].d.id != "" ==> procs[p].d.id in claimed)
    && (forall p, q {:trigger procs[p], procs[q]} ::
      0 <= p < |procs| && 0 <= q < |procs| && SameClaim(procs[p], procs[q]) ==> p == q)
  }

  ghost predicate Inv(s: State) {
    && TimeEntries.Ledger(s.times) && PlanEntries.Ledger(s.plans)
    && TimeProvenance(s.times, s.timeBy, s.procs) && PlanProvenance(s.plans, s.planBy, s.procs)
    && ClaimsOk(s.claimed, s.procs)
    && forall p {:trigger s.procs[p]} :: 0 <= p < |s.procs| ==> ProcOk(s, p)
  }

  // ---- what the other processes see of a step ----------------------------------------------------

  /** From s to u, process q may have appended rows it owns, and set pointers to rows it owns;
      everything else others rely on stays. */
  ghost predicate Frame(s: State, u: State, q: nat) {
    && TimeEntries.Extends(s.times, u.times) && PlanEntries.Extends(s.plans, u.plans)
    && |s.procs| <= |u.procs|
    && (forall p {:trigger u.procs[p]} :: 0 <= p < |s.procs| && p != q ==> u.procs[p] == s.procs[p])
    && (forall i: nat {:trigger i in u.timeBy} :: i in s.timeBy ==> i in u.timeBy && u.timeBy[i] == s.timeBy[i])
    && (forall i: nat {:trigger u.timeBy[i]} :: i in u.timeBy && i !in s.timeBy ==> u.timeBy[i] == q)
    && (forall i: nat {:trigger u.planBy[i]} :: i in u.planBy && i !in s.planBy ==> u.planBy[i] == q)
    && (forall i: nat {:trigger u.planBy[i]} :: i in u.planBy && i in s.planBy ==> u.planBy[i] == s.planBy[i])
    && (forall i, j: nat {:trigger TimeEntries.Points(u.times, i, j)} ::
      TimeEntries.Points(u.times, i, j) && !TimeEntries.Points(s.times, i, j) ==> j in u.timeBy && u.timeBy[j] == q)
  }

  lemma OtherKept(s: State, u: State, q: nat, p: nat)
    requires Inv(s) && Frame(s, u, q) && p < |s.procs| && p != q
    ensures ProcOk(u, p)
  {
    hide TimeEntries.Ledger, PlanEntries.Ledger, TimeProvenance, PlanProvenance, ClaimsOk, CommandOf, Authorised;
    var r := s.procs[p];
    assert u.procs[p] == r && ProcOk(s, p);
    match r.pc
    case CorrectFound(cmd, prev, client) => assert u.times[prev].Some?;
    case CorrectInserted(prev, newId) =>
      assert u.times[prev].Some? && u.times[newId].Some?;
      assert newId in u.timeBy && u.timeBy[newId] == p;
    case DeleteFound(prev) => assert u.times[prev].Some?;
    case PlanFound(cmd, current) => if current.Some? { assert u.plans[current.value].Some?; }
    case UnplanFound(prev) => assert u.plans[prev].Some?;
    case _ =>
  }

  /** What is left to check of a step once the frame is known. */
  lemma Conclude(s: State, u: State, q: nat)
    requires Inv(s) && Frame(s, u, q) && q < |s.procs| == |u.procs|
    requires TimeEntries.Ledger(u.times) && PlanEntries.Ledger(u.plans)
    requires TimeProvenance(u.times, u.timeBy, u.procs) && PlanProvenance(u.plans, u.planBy, u.procs)
    requires ClaimsOk(u.claimed, u.procs) && ProcOk(u, q)
    ensures Inv(u)
  {
    forall p | 0 <= p < |u.procs|
      ensures ProcOk(u, p)
    {
      if p != q { OtherKept(s, u, q, p); }
    }
  }

  /** What provenance reads of a process. */
  predicate SameStory(r: Proc, other: Proc) {
    r.d == other.d && r.passed == other.passed && r.allowed == other.allowed
  }

  lemma TimeProvenanceKept(t: TimeEntries.Table, owner: map<nat, nat>, procs: seq<Proc>, later: seq<Proc>)
    requires TimeProvenance(t, owner, procs) && |procs| <= |later|
    requires forall i: nat {:trigger owner[i]} ::
      i in owner && owner[i] < |procs| ==> SameStory(procs[owner[i]], later[owner[i]])
    ensures TimeProvenance(t, owner, later)
  {
    hide CommandOf;
  }

  lemma PlanProvenanceKept(t: PlanEntries.Table, owner: map<nat, nat>, procs: seq<Proc>, later: seq<Proc>)
    requires PlanProvenance(t, owner, procs) && |procs| <= |later|
    requires forall i: nat {:trigger owner[i]} ::
      i in owner && owner[i] < |procs| ==> SameStory(procs[owner[i]], later[owner[i]])
    ensures PlanProvenance(t, owner, later)
  {
    hide CommandOf;
  }

  // ---- steps that move one process only -------------------------------------------------------

  /** A process moves, and nothing else changes. */
  lemma MoveKeeps(s: State, p: nat, r: Proc)
    requires Inv(s) && p < |s.procs| && r.d == s.procs[p].d
    requires SameStory(s.procs[p], r) || WroteNothing(s, p)
    requires r.passed ==> s.procs[p].passed
    requires PcOk(s, p, r) && (MayWrite(r.pc) ==> WroteNothing(s, p))
    ensures Inv(s.(procs := s.procs[p := r]))
  {
    hide TimeEntries.Ledger, PlanEntries.Ledger, CommandOf, PcOk, TimeProvenance, PlanProvenance;
    var u := s.(procs := s.procs[p := r]);
    TimeProvenanceKept(s.times, s.timeBy, s.procs, u.procs);
    PlanProvenanceKept(s.plans, s.planBy, s.procs, u.procs);
    TimeExtendsSelf(s.times);
    PlanExtendsSelf(s.plans);
    assert ProcOk(u, p) by { PcOkSameTables(s, u, p, r); }
    Conclude(s, u, p);
  }

  lemma TimeExtendsSelf(t: TimeEntries.Table)
    ensures TimeEntries.Extends(t, t)
  {
  }

  lemma PlanExtendsSelf(t: PlanEntries.Table)
    ensures PlanEntries.Extends(t, t)
  {
  }

  lemma PcOkSameTables(s: State, u: State, p: nat, r: Proc)
    requires PcOk(s, p, r) && u.times == s.times && u.plans == s.plans && u.timeBy == s.timeBy
    ensures PcOk(u, p, r)
  {
    hide CommandOf;
  }

  lemma GotoKeeps(s: State, p: nat, pc: Pc)
    requires Inv(s) && p < |s.procs|
    requires PcOk(s, p, s.procs[p].(pc := pc)) && (MayWrite(pc) ==> MayWrite(s.procs[p].pc))
    ensures Inv(Goto(s, p, pc))
  {
    assert ProcOk(s, p);
    MoveKeeps(s, p, s.procs[p].(pc := pc));
  }

  lemma ReceiveKeeps(s: State, d: Delivery)
    requires Inv(s)
    ensures Inv(ReceiveResult(s, d))
  {
    hide TimeEntries.Ledger, PlanEntries.Ledger, CommandOf, PcOk, TimeProvenance, PlanProvenance;
    var u := ReceiveResult(s, d);
    TimeProvenanceKept(s.times, s.timeBy, s.procs, u.procs) by { OwnersPresent(s); }
    PlanProvenanceKept(s.plans, s.planBy, s.procs, u.procs) by { OwnersPresent(s); }
    TimeExtendsSelf(s.times);
    PlanExtendsSelf(s.plans);
    forall p | 0 <= p < |s.procs|
      ensures ProcOk(u, p)
    {
      OtherKept(s, u, |s.procs|, p);
    }
    assert ProcOk(u, |s.procs|) by { OwnersPresent(s); FreshProc(u, |s.procs|); }
  }

  lemma OwnersPresent(s: State)
    requires Inv(s)
    ensures forall i: nat {:trigger s.timeBy[i]} :: i in s.timeBy ==> s.timeBy[i] < |s.procs|
    ensures forall i: nat {:trigger s.planBy[i]} :: i in s.planBy ==> s.planBy[i] < |s.procs|
  {
    hide TimeEntries.Ledger, PlanEntries.Ledger, CommandOf, ProcOk;
  }

  lemma FreshProc(u: State, p: nat)
    requires p < |u.procs|
    requires u.procs[p].pc == if u.procs[p].d.signatureOk then Received else Finished
    requires !u.procs[p].passed && !u.procs[p].allowed
    ensures PcOk(u, p, u.procs[p])
  {
  }

  /** Winning the claim: the id was claimed by nobody before, so nobody past the claim has it. */
  lemma ClaimKeeps(s: State, p: nat)
    requires Inv(s) && p < |s.procs| && s.procs[p].pc.Received?
    ensures Inv(ClaimResult(s, p))
  {
    hide TimeEntries.Ledger, PlanEntries.Ledger, CommandOf, TimeProvenance, PlanProvenance;
    var r := s.procs[p];
    assert ProcOk(s, p);
    if r.d.id != "" && r.d.id in s.claimed {
      GotoKeeps(s, p, Finished);
    } else {
      var u := ClaimResult(s, p);
      TimeProvenanceKept(s.times, s.timeBy, s.procs, u.procs);
      PlanProvenanceKept(s.plans, s.planBy, s.procs, u.procs);
      TimeExtendsSelf(s.times);
      PlanExtendsSelf(s.plans);
      ClaimsAfterWin(s.claimed, u.claimed, s.procs, p);
      Conclude(s, u, p);
    }
  }

  lemma ClaimsAfterWin(claimed: set<string>, later: set<string>, procs: seq<Proc>, p: nat)
    requires ClaimsOk(claimed, procs) && p < |procs|
    requires procs[p].d.id == "" || procs[p].d.id !in claimed
    requires later == if procs[p].d.id == "" then claimed else claimed + {procs[p].d.id}
    ensures ClaimsOk(later, procs[p := procs[p].(pc := Dispatching, passed := true)])
  {
  }

  lemma DispatchKeeps(s: State, p: nat, allowed: bool)
    requires Inv(s) && p < |s.procs| && s.procs[p].pc.Dispatching?
    ensures Inv(DispatchResult(s, p, allowed))
  {
    hide Inv, ProcOk, CommandOf, WroteNothing, EventOf, PcOk;
    var r := s.procs[p];
    ProcOkAt(s, p);
    var cmd := CommandOf(r.d);
    FinishedOk(s, p, r);
    if cmd.Some? && allowed {
      DispatchedOk(s, p, r, cmd.value);
      MoveKeeps(s, p, r.(pc := Ready(cmd.value), allowed := true));
    } else {
      GotoKeeps(s, p, Finished);
    }
  }

  lemma FinishedOk(s: State, p: nat, r: Proc)
    ensures PcOk(s, p, r.(pc := Finished))
  {
  }

  lemma DispatchedOk(s: State, p: nat, r: Proc, cmd: Command)
    requires PcOk(s, p, r) && r.pc.Dispatching? && CommandOf(r.d) == Some(cmd)
    ensures PcOk(s, p, r.(pc := Ready(cmd), allowed := true))
  {
    hide CommandOf, EventOf;
  }

  lemma ProcOkAt(s: State, p: nat)
    requires Inv(s) && p < |s.procs|
    ensures ProcOk(s, p) && PcOk(s, p, s.procs[p])
    ensures MayWrite(s.procs[p].pc) ==> WroteNothing(s, p)
  {
    hide PcOk;
  }

  // ---- steps that append a row -------------------------------------------------------------------

  lemma InsertTimeKeeps(s: State, u: State, p: nat, e: TimeEntries.Entry, now: int, pc: Pc)
    requires Inv(s) && p < |s.procs| && WroteNothing(s, p) && TimeRowFrom(e, s.procs[p]) && !MayWrite(pc)
    requires u == Goto(s, p, pc).(times := TimeEntries.Inserted(s.times, e, now), timeBy := s.timeBy[|s.times| := p])
    requires PcOk(u, p, u.procs[p])
    ensures Inv(u)
  {
    hide TimeRowFrom, PlanRowFrom, TimeEntries.Ledger, PlanEntries.Ledger;
    hide PcOk, CommandOf, EventOf, TimeEntries.Inserted;
    InsertTimeOwners(s, u, p, e, now);
    hide TimeProvenance, PlanProvenance;
    TimeEntries.InsertedKeeps(s.times, e, now);
    PlanExtendsSelf(s.plans);
    InsertedPoints(s.times, e, now);
    Conclude(s, u, p);
  }

  lemma InsertTimeOwners(s: State, u: State, p: nat, e: TimeEntries.Entry, now: int)
    requires Inv(s) && p < |s.procs| == |u.procs| && WroteNothing(s, p) && TimeRowFrom(e, s.procs[p])
    requires u.times == TimeEntries.Inserted(s.times, e, now) && u.timeBy == s.timeBy[|s.times| := p]
    requires u.plans == s.plans && u.planBy == s.planBy
    requires forall q :: 0 <= q < |s.procs| ==> SameStory(s.procs[q], u.procs[q])
    ensures TimeProvenance(u.times, u.timeBy, u.procs) && PlanProvenance(u.plans, u.planBy, u.procs)
    ensures |s.times| !in s.timeBy
  {
    hide TimeRowFrom, PlanRowFrom, TimeEntries.Ledger, PlanEntries.Ledger;
    hide ProcOk, ClaimsOk, CommandOf, TimeEntries.Inserted;
    TimeProvenanceKept(s.times, s.timeBy, s.procs, u.procs);
    PlanProvenanceKept(s.plans, s.planBy, s.procs, u.procs);
    TimeRowFromSame(e, s.procs[p], u.procs[p]);
    InsertTimeProvenance(s.times, s.timeBy, u.procs, p, e, now);
    assert !TimeEntries.Has(s.times, |s.times|);
  }

  lemma InsertedPoints(t: TimeEntries.Table, e: TimeEntries.Entry, now: int)
    ensures forall i, j {:trigger TimeEntries.Points(TimeEntries.Inserted(t, e, now), i, j)} ::
      TimeEntries.Points(TimeEntries.Inserted(t, e, now), i, j) ==> TimeEntries.Points(t, i, j)
  {
  }

  lemma InsertTimeProvenance(t: TimeEntries.Table, owner: map<nat, nat>, procs: seq<Proc>, p: nat,
        e: TimeEntries.Entry, now: int)
    requires TimeProvenance(t, owner, procs) && p < |procs| && TimeRowFrom(e, procs[p])
    requires forall i: nat {:trigger owner[i]} :: i in owner ==> owner[i] != p
    ensures TimeProvenance(TimeEntries.Inserted(t, e, now), owner[|t| := p], procs)
  {
    hide TimeRowFrom;
    var u, longer := TimeEntries.Inserted(t, e, now), owner[|t| := p];
    assert |t| !in owner;
    forall i: nat
      ensures TimeEntries.Has(u, i) <==> i in longer
    {
      if i < |t| { assert TimeEntries.Has(t, i) <==> i in owner; }
    }
    forall i: nat | i in longer
      ensures longer[i] < |procs| && TimeEntries.Has(u, i) && TimeRowFrom(u[i].value.entry, procs[longer[i]])
    {
      if i != |t| { assert longer[i] == owner[i] && u[i] == t[i]; }
    }
  }

  lemma TimeRowFromSame(e: TimeEntries.Entry, r: Proc, other: Proc)
    requires TimeRowFrom(e, r) && SameStory(r, other)
    ensures TimeRowFrom(e, other)
  {
    hide CommandOf;
  }

  lemma PlanRowFromSame(e: PlanEntries.Entry, r: Proc, other: Proc)
    requires PlanRowFrom(e, r) && SameStory(r, other)
    ensures PlanRowFrom(e, other)
  {
    hide CommandOf;
  }

  lemma LogInsertKeeps(s: State, p: nat, labels: seq<string>, client: Option<int>, now: int)
    requires Inv(s) && Running(s, p) && s.procs[p].pc.LogReady?
    ensures Inv(LogResult(s, p, labels, client, now))
  {
    hide Inv, ProcOk, CommandOf, WroteNothing, EventOf, PcOk, TimeRowFrom, TimeEntries.Inserted;
    ProcOkAt(s, p);
    var r := s.procs[p];
    FinishedOk(s, p, r);
    var cmd := r.pc.cmd;
    var e := TimeEntryFor(EventAt(s, p), cmd, labels, client);
    if FitsInt4(cmd.minutes) {
      LogRowFrom(s, p, labels, client);
      FinishedOk(LogResult(s, p, labels, client, now), p, r);
      InsertTimeKeeps(s, LogResult(s, p, labels, client, now), p, e, now, Finished);
    } else {
      GotoKeeps(s, p, Finished);
    }
  }

  lemma LogRowFrom(s: State, p: nat, labels: seq<string>, client: Option<int>)
    requires Running(s, p) && s.procs[p].pc.LogReady? && PcOk(s, p, s.procs[p])
    ensures TimeRowFrom(TimeEntryFor(EventAt(s, p), s.procs[p].pc.cmd, labels, client), s.procs[p])
  {
    hide CommandOf, EventOf;
  }

  lemma CorrectRowFrom(s: State, p: nat, labels: seq<string>, client: Option<int>)
    requires Running(s, p) && s.procs[p].pc.CorrectFound? && PcOk(s, p, s.procs[p])
    ensures TimeRowFrom(TimeEntryFor(EventAt(s, p), s.procs[p].pc.cmd, labels, client), s.procs[p])
  {
    hide CommandOf, EventOf;
  }

  lemma PlanRowFromFound(s: State, p: nat, labels: seq<string>)
    requires Running(s, p) && s.procs[p].pc.PlanFound? && PcOk(s, p, s.procs[p])
    ensures PlanRowFrom(PlanEntryFor(EventAt(s, p), s.procs[p].pc.cmd, labels), s.procs[p])
  {
    hide CommandOf, EventOf;
  }

  lemma CorrectInsertKeeps(s: State, p: nat, labels: seq<string>, now: int)
    requires Inv(s) && Running(s, p) && s.procs[p].pc.CorrectFound?
    ensures Inv(CorrectInsertResult(s, p, labels, now))
  {
    hide Inv, ProcOk, CommandOf, WroteNothing, EventOf, PcOk, TimeRowFrom, TimeEntries.Inserted;
    ProcOkAt(s, p);
    var r := s.procs[p];
    FinishedOk(s, p, r);
    var pc := r.pc;
    var e := TimeEntryFor(EventAt(s, p), pc.cmd, labels, pc.client);
    if FitsInt4(pc.cmd.minutes) {
      LedgerOf(s);
      CorrectRowFrom(s, p, labels, pc.client);
      CorrectInsertedOk(s, p, labels, now);
      InsertTimeKeeps(s, CorrectInsertResult(s, p, labels, now), p, e, now, CorrectInserted(pc.prev, |s.times|));
    } else {
      GotoKeeps(s, p, Finished);
    }
  }

  lemma CorrectInsertedOk(s: State, p: nat, labels: seq<string>, now: int)
    requires TimeEntries.Ledger(s.times) && Running(s, p) && s.procs[p].pc.CorrectFound? && PcOk(s, p, s.procs[p])
    requires FitsInt4(s.procs[p].pc.cmd.minutes)
    ensures var u := CorrectInsertResult(s, p, labels, now);
      PcOk(u, p, u.procs[p])
  {
    hide CommandOf, EventOf, TimeEntries.Ledger;
    var pc := s.procs[p].pc;
    var e := TimeEntryFor(EventAt(s, p), pc.cmd, labels, pc.client);
    TimeEntries.InsertedKeeps(s.times, e, now);
  }

  lemma LedgerOf(s: State)
    requires Inv(s)
    ensures TimeEntries.Ledger(s.times) && PlanEntries.Ledger(s.plans)
  {
  }

  // ---- steps that update time rows ----------------------------------------------------------------

  /** Same rows under the same ids, with the columns the handlers supplied. */
  ghost predicate SameRows(t: TimeEntries.Table, u: TimeEntries.Table) {
    && |t| == |u|
    && forall i {:trigger u[i]} {:trigger t[i]} :: 0 <= i < |t| ==>
      t[i].Some? == u[i].Some? && (t[i].Some? ==> t[i].value.entry == u[i].value.entry)
  }

  lemma SameRowsProvenance(t: TimeEntries.Table, u: TimeEntries.Table, owner: map<nat, nat>, procs: seq<Proc>)
    requires TimeProvenance(t, owner, procs) && SameRows(t, u)
    ensures TimeProvenance(u, owner, procs)
  {
    hide TimeRowFrom;
    forall i: nat
      ensures TimeEntries.Has(u, i) <==> i in owner
    {
      assert TimeEntries.Has(t, i) <==> i in owner;
    }
    forall i: nat | i in owner
      ensures TimeRowFrom(u[i].value.entry, procs[owner[i]])
    {
      assert TimeRowFrom(t[i].value.entry, procs[owner[i]]);
    }
  }

  lemma UpdateTimesKeeps(s: State, p: nat, t: TimeEntries.Table)
    requires Inv(s) && p < |s.procs| && TimeEntries.Ledger(t) && TimeEntries.Extends(s.times, t) && SameRows(s.times, t)
    requires forall i, j: nat {:trigger TimeEntries.Points(t, i, j)} ::
      TimeEntries.Points(t, i, j) && !TimeEntries.Points(s.times, i, j) ==> j in s.timeBy && s.timeBy[j] == p
    ensures Inv(Goto(s, p, Finished).(times := t))
  {
    hide TimeEntries.Ledger, PlanEntries.Ledger, CommandOf, TimeProvenance, PlanProvenance;
    var u := Goto(s, p, Finished).(times := t);
    SameRowsProvenance(s.times, t, s.timeBy, s.procs);
    TimeProvenanceKept(t, s.timeBy, s.procs, u.procs);
    PlanProvenanceKept(s.plans, s.planBy, s.procs, u.procs);
    PlanExtendsSelf(s.plans);
    Conclude(s, u, p);
  }

  lemma CorrectLinkKeeps(s: State, p: nat)
    requires Inv(s) && p < |s.procs| && s.procs[p].pc.CorrectInserted?
    ensures Inv(CorrectLinkResult(s, p))
  {
    hide Inv, CommandOf, EventOf, ProcOk, TimeEntries.Ledger, WroteNothing;
    ProcOkAt(s, p);
    LedgerOf(s);
    var pc := s.procs[p].pc;
    TimeEntries.LinkedKeeps(s.times, pc.prev, pc.newId);
    UpdateTimesKeeps(s, p, TimeEntries.Linked(s.times, pc.prev, pc.newId));
  }

  lemma DeleteMarkKeeps(s: State, p: nat)
    requires Inv(s) && p < |s.procs| && s.procs[p].pc.DeleteFound?
    ensures Inv(DeleteMarkResult(s, p))
  {
    hide Inv, CommandOf, EventOf, TimeEntries.Ledger;
    LedgerOf(s);
    var prev := s.procs[p].pc.prev;
    TimeEntries.SoftDeletedKeeps(s.times, prev);
    UpdateTimesKeeps(s, p, TimeEntries.SoftDeleted(s.times, prev));
  }

  // ---- steps on the plan table ------------------------------------------------------------------------

  lemma PlanReplaceKeeps(s: State, p: nat, labels: seq<string>, now: int)
    requires Inv(s) && Running(s, p) && s.procs[p].pc.PlanFound?
    ensures Inv(PlanReplaceResult(s, p, labels, now))
  {
    hide Inv, ProcOk, CommandOf, EventOf, WroteNothing, PcOk, PlanRowFrom, PlanEntries.Ledger, PlanEntries.Extends;
    hide PlanEntries.Replaced, PlanEntries.ReplaceAllowed;
    ProcOkAt(s, p);
    LedgerOf(s);
    var pc := s.procs[p].pc;
    var e := PlanEntryFor(EventAt(s, p), pc.cmd, labels);
    if PlanEntries.ReplaceAllowed(s.plans, pc.current, e) {
      PlanRowFromFound(s, p, labels);
      FoundOnIssue(s, p, labels);
      PlanEntries.ReplacedKeeps(s.plans, pc.current, e, now);
      PlanInsertKeeps(s, p, pc.current, e, now);
    } else if FitsInt4(e.minutes) {
      PlanEntries.BurnedKeeps(s.plans);
      UpdatePlansKeeps(s, p, PlanEntries.Burned(s.plans));
    } else {
      FinishedOk(s, p, s.procs[p]);
      GotoKeeps(s, p, Finished);
    }
  }

  lemma FoundOnIssue(s: State, p: nat, labels: seq<string>)
    requires Running(s, p) && s.procs[p].pc.PlanFound? && PcOk(s, p, s.procs[p])
    ensures var current := s.procs[p].pc.current;
      var e := PlanEntryFor(EventAt(s, p), s.procs[p].pc.cmd, labels);
      && (current.Some? ==> PlanEntries.Has(s.plans, current.value))
      && (current.Some? ==> PlanEntries.IssueOf(s.plans[current.value].value.entry) == PlanEntries.IssueOf(e))
  {
    hide CommandOf, EventOf;
  }

  lemma PlanInsertKeeps(s: State, p: nat, current: Option<nat>, e: PlanEntries.Entry, now: int)
    requires Inv(s) && p < |s.procs| && WroteNothing(s, p) && PlanRowFrom(e, s.procs[p])
    requires PlanEntries.Ledger(PlanEntries.Replaced(s.plans, current, e, now))
    requires PlanEntries.Extends(s.plans, PlanEntries.Replaced(s.plans, current, e, now))
    ensures Inv(Goto(s, p, Finished).(plans := PlanEntries.Replaced(s.plans, current, e, now),
      planBy := s.planBy[|s.plans| := p]))
  {
    hide PlanRowFrom, TimeRowFrom, PlanEntries.Replaced, TimeEntries.Ledger;
    hide PlanEntries.Ledger, CommandOf, EventOf, PcOk;
    var t := PlanEntries.Replaced(s.plans, current, e, now);
    var u := Goto(s, p, Finished).(plans := t, planBy := s.planBy[|s.plans| := p]);
    ReplacedAppends(s.plans, current, e, now);
    PlanProvenanceKept(s.plans, s.planBy, s.procs, u.procs);
    PlanRowFromSame(e, s.procs[p], u.procs[p]);
    PlanInsertProvenance(s.plans, t, s.planBy, u.procs, p, e);
    hide TimeProvenance, PlanProvenance;
    TimeProvenanceKept(s.times, s.timeBy, s.procs, u.procs);
    TimeExtendsSelf(s.times);
    FinishedOk(u, p, s.procs[p]);
    Conclude(s, u, p);
  }

  lemma ReplacedAppends(t: PlanEntries.Table, current: Option<nat>, e: PlanEntries.Entry, now: int)
    ensures var u := PlanEntries.Replaced(t, current, e, now);
      |u| == |t| + 1 && u[|t|].Some? && u[|t|].value.entry == e
  {
  }

  lemma PlanInsertProvenance(t: PlanEntries.Table, u: PlanEntries.Table, owner: map<nat, nat>, procs: seq<Proc>,
        p: nat, e: PlanEntries.Entry)
    requires PlanProvenance(t, owner, procs) && p < |procs| && PlanRowFrom(e, procs[p])
    requires forall i: nat {:trigger owner[i]} :: i in owner ==> owner[i] != p
    requires PlanEntries.Extends(t, u) && |u| == |t| + 1 && u[|t|].Some? && u[|t|].value.entry == e
    ensures PlanProvenance(u, owner[|t| := p], procs)
  {
    hide PlanRowFrom;
    var longer := owner[|t| := p];
    assert |t| !in owner;
    forall i: nat
      ensures PlanEntries.Has(u, i) <==> i in longer
    {
      if i < |t| { assert PlanEntries.Has(t, i) <==> i in owner; }
    }
    forall i: nat | i in longer
      ensures longer[i] < |procs| && PlanEntries.Has(u, i) && PlanRowFrom(u[i].value.entry, procs[longer[i]])
    {
      if i != |t| { assert longer[i] == owner[i] && u[i].value.entry == t[i].value.entry; }
    }
  }

  lemma SamePlanRowsProvenance(t: PlanEntries.Table, u: PlanEntries.Table, owner: map<nat, nat>, procs: seq<Proc>)
    requires PlanProvenance(t, owner, procs) && PlanEntries.Extends(t, u)
    requires forall i :: |t| <= i < |u| ==> u[i].None?
    ensures PlanProvenance(u, owner, procs)
  {
    hide PlanRowFrom;
    forall i: nat
      ensures PlanEntries.Has(u, i) <==> i in owner
    {
      assert PlanEntries.Has(t, i) <==> i in owner;
    }
    forall i: nat | i in owner
      ensures PlanRowFrom(u[i].value.entry, procs[owner[i]])
    {
      assert PlanRowFrom(t[i].value.entry, procs[owner[i]]);
    }
  }

  lemma UpdatePlansKeeps(s: State, p: nat, t: PlanEntries.Table)
    requires Inv(s) && p < |s.procs| && PlanEntries.Ledger(t) && PlanEntries.Extends(s.plans, t)
    requires forall i :: |s.plans| <= i < |t| ==> t[i].None?
    ensures Inv(Goto(s, p, Finished).(plans := t))
  {
    hide TimeEntries.Ledger, PlanEntries.Ledger, CommandOf, TimeProvenance, PlanProvenance;
    var u := Goto(s, p, Finished).(plans := t);
    SamePlanRowsProvenance(s.plans, t, s.planBy, s.procs);
    PlanProvenanceKept(t, s.planBy, s.procs, u.procs);
    TimeProvenanceKept(s.times, s.timeBy, s.procs, u.procs);
    TimeExtendsSelf(s.times);
    Conclude(s, u, p);
  }

  lemma UnplanMarkKeeps(s: State, p: nat)
    requires Inv(s) && Running(s, p) && s.procs[p].pc.UnplanFound?
    ensures Inv(UnplanMarkResult(s, p))
  {
    hide Inv, CommandOf, EventOf, PlanEntries.Ledger;
    LedgerOf(s);
    var prev := s.procs[p].pc.prev;
    PlanEntries.SoftDeletedKeeps(s.plans, prev, ClosingFor(EventAt(s, p)));
    UpdatePlansKeeps(s, p, PlanEntries.SoftDeleted(s.plans, prev, ClosingFor(EventAt(s, p))));
  }

  // ---- lost ids ---------------------------------------------------------------------------------------

  lemma BurnKeeps(s: State)
    requires Inv(s)
    ensures Inv(s.(times := TimeEntries.Burned(s.times))) && Inv(s.(plans := PlanEntries.Burned(s.plans)))
  {
    hide CommandOf, ClaimsOk;
    var u, v := s.(times := TimeEntries.Burned(s.times)), s.(plans := PlanEntries.Burned(s.plans));
    TimeEntries.BurnedKeeps(s.times);
    PlanEntries.BurnedKeeps(s.plans);
    hide TimeEntries.Ledger, PlanEntries.Ledger, ProcOk;
    SamePlanRowsProvenance(s.plans, v.plans, s.planBy, s.procs);
    BurnedProvenance(s);
    hide TimeProvenance, PlanProvenance;
    TimeExtendsSelf(s.times);
    PlanExtendsSelf(s.plans);
    forall p | 0 <= p < |s.procs|
      ensures ProcOk(u, p) && ProcOk(v, p)
    {
      OtherKept(s, u, |s.procs|, p);
      OtherKept(s, v, |s.procs|, p);
    }
  }

  lemma BurnedProvenance(s: State)
    requires Inv(s)
    ensures TimeProvenance(TimeEntries.Burned(s.times), s.timeBy, s.procs)
  {
    hide TimeEntries.Ledger, PlanEntries.Ledger, PlanProvenance, ProcOk, ClaimsOk, TimeRowFrom;
    var t := TimeEntries.Burned(s.times);
    forall i: nat
      ensures TimeEntries.Has(t, i) <==> i in s.timeBy
    {
      assert TimeEntries.Has(s.times, i) <==> i in s.timeBy;
    }
  }
}
