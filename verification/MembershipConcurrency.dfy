/** IsAllowed called by many at once (internal/auth/membership.go). The lock is held only for the
    lookup, for the snapshot of the installation map and for the final store; everything else
    interleaves, installation maps change and Invalidate may come at any moment. A request to
    GitHub takes three moments: it is sent, GitHub answers it, and the call receives the answer. */
module MembershipConcurrency {
  import opened Options
  import opened Membership

  datatype Pc =
    | Started(began: int)                                             // the clock has been read
    | Missed(began: int)                                              // nothing fresh in the cache
    | Looping(began: int, mapping: map<string, Installation>, next: nat)
    | Asking(began: int, mapping: map<string, Installation>, next: nat)
    | Answered(began: int, mapping: map<string, Installation>, next: nat, answer: Answer)
    | Decided(began: int, isMember: bool)                             // before the store
    | Returned(began: int, isMember: bool, source: nat)               // the call whose round it is

  datatype Call = Call(user: string, pc: Pc)

  datatype Kind = OwnerMatch | UpstreamYes

  /** At time `at` the user owned the allowed account `org`, or GitHub said yes for it. */
  datatype Evidence = Evidence(user: string, org: string, kind: Kind, at: int)

  /** `evidence`, in the order in which it came about, and `storedBy`, the call that stored a
      user's decision, are records: no decision depends on them. */
  datatype State = State(
    now: int, cache: map<string, Decision>, storedBy: map<string, nat>, orgInstall: map<string, Installation>,
    calls: seq<Call>, evidence: seq<Evidence>)

  datatype Config = Config(orgs: seq<string>, ttl: int)

  datatype Step =
    | Tick(elapsed: nat)
    | Enter(user: string)
    | Lookup(c: nat)
    | Refresh(mapping: map<string, Installation>)
    | RefreshFails(c: nat)
    | Snapshot(c: nat)
    | Visit(c: nat)
    | Answers(c: nat, answer: Answer)
    | Receive(c: nat, arrives: bool)
    | Exhausted(c: nat)
    | Store(c: nat)
    | Invalidate(user: string)

  const INIT := State(0, map[], map[], map[], [], [])

  predicate At(s: State, c: nat) {
    c < |s.calls|
  }

  predicate Enabled(k: Config, s: State, step: Step) {
    match step
    case Tick(elapsed) => true
    case Enter(user) => true
    case Lookup(c) => At(s, c) && s.calls[c].pc.Started?
    case Refresh(mapping) => true
    case RefreshFails(c) => At(s, c) && s.calls[c].pc.Missed?
    case Snapshot(c) => At(s, c) && s.calls[c].pc.Missed?
    case Visit(c) => At(s, c) && s.calls[c].pc.Looping? && s.calls[c].pc.next < |k.orgs|
    case Answers(c, answer) => At(s, c) && s.calls[c].pc.Asking? && s.calls[c].pc.next < |k.orgs|
    case Receive(c, arrives) => At(s, c) && s.calls[c].pc.Answered?
    case Exhausted(c) => At(s, c) && s.calls[c].pc.Looping? && s.calls[c].pc.next >= |k.orgs|
    case Store(c) => At(s, c) && s.calls[c].pc.Decided?
    case Invalidate(user) => true
  }

  function Goto(s: State, c: nat, pc: Pc): State
    requires At(s, c)
  {
    s.(calls := s.calls[c := s.calls[c].(pc := pc)])
  }

  /** One turn of the loop over the allowed organisations: an organisation account is asked about,
      a personal one is compared with the user, and everything else is skipped. */
  function VisitResult(k: Config, s: State, c: nat): State
    requires At(s, c) && s.calls[c].pc.Looping? && s.calls[c].pc.next < |k.orgs|
  {
    var Looping(began, mapping, next) := s.calls[c].pc;
    var user, org := s.calls[c].user, k.orgs[next];
    if org in mapping && mapping[org].accountType == "Organization" then Goto(s, c, Asking(began, mapping, next))
    else if org in mapping && mapping[org].accountType == "User" && user == org then
      Goto(s, c, Decided(began, true)).(evidence := s.evidence + [Evidence(user, org, OwnerMatch, s.now)])
    else Goto(s, c, Looping(began, mapping, next + 1))
  }

  /** GitHub answers; the call does not know yet. */
  function AnswersResult(k: Config, s: State, c: nat, answer: Answer): State
    requires At(s, c) && s.calls[c].pc.Asking? && s.calls[c].pc.next < |k.orgs|
  {
    var Asking(began, mapping, next) := s.calls[c].pc;
    var answered := Goto(s, c, Answered(began, mapping, next, answer));
    if answer == Yes
    then answered.(evidence := s.evidence + [Evidence(s.calls[c].user, k.orgs[next], UpstreamYes, s.now)])
    else answered
  }

  /** The answer arrives, or is lost on the way and counts as an error. */
  function ReceiveResult(s: State, c: nat, arrives: bool): State
    requires At(s, c) && s.calls[c].pc.Answered?
  {
    var Answered(began, mapping, next, answer) := s.calls[c].pc;
    if arrives && answer == Yes then Goto(s, c, Decided(began, true))
    else Goto(s, c, Looping(began, mapping, next + 1))
  }

  function LookupResult(k: Config, s: State, c: nat): State
    requires At(s, c) && s.calls[c].pc.Started?
  {
    var began, user := s.calls[c].pc.began, s.calls[c].user;
    if Fresh(s.cache, user, began, k.ttl)
    then Goto(s, c, Returned(began, s.cache[user].isMember, if user in s.storedBy then s.storedBy[user] else c))
    else Goto(s, c, Missed(began))
  }

  function StoreResult(s: State, c: nat): State
    requires At(s, c) && s.calls[c].pc.Decided?
  {
    var Decided(began, isMember) := s.calls[c].pc;
    Goto(s, c, Returned(began, isMember, c)).(
      cache := s.cache[s.calls[c].user := Decision(isMember, began)], storedBy := s.storedBy[s.calls[c].user := c])
  }

  function Apply(k: Config, s: State, step: Step): State
    requires Enabled(k, s, step)
  {
    match step
    case Tick(elapsed) => s.(now := s.now + elapsed)
    case Enter(user) => s.(calls := s.calls + [Call(user, Started(s.now))])
    case Lookup(c) => LookupResult(k, s, c)
    case Refresh(mapping) => s.(orgInstall := mapping)
    case RefreshFails(c) => Goto(s, c, Decided(s.calls[c].pc.began, false))
    case Snapshot(c) => Goto(s, c, Looping(s.calls[c].pc.began, s.orgInstall, 0))
    case Visit(c) => VisitResult(k, s, c)
    case Answers(c, answer) => AnswersResult(k, s, c, answer)
    case Receive(c, arrives) => ReceiveResult(s, c, arrives)
    case Exhausted(c) => Goto(s, c, Decided(s.calls[c].pc.began, false))
    case Store(c) => StoreResult(s, c)
    case Invalidate(user) => s.(cache := s.cache - {user}, storedBy := s.storedBy - {user})
  }

  /** The call that takes the step. */
  function Mover(step: Step): Option<nat> {
    match step
    case Lookup(c) => Some(c)
    case RefreshFails(c) => Some(c)
    case Snapshot(c) => Some(c)
    case Visit(c) => Some(c)
    case Answers(c, answer) => Some(c)
    case Receive(c, arrives) => Some(c)
    case Exhausted(c) => Some(c)
    case Store(c) => Some(c)
    case _ => None
  }

  lemma OthersStay(k: Config, s: State, step: Step, c: nat)
    requires Enabled(k, s, step) && c < |s.calls| && Mover(step) != Some(c)
    ensures c < |Apply(k, s, step).calls| && Apply(k, s, step).calls[c] == s.calls[c]
  {
    hide Fresh;
  }

  predicate IsPath(k: Config, states: seq<State>, steps: seq<Step>) {
    && |states| == |steps| + 1
    && forall i :: 0 <= i < |steps| ==>
      Enabled(k, states[i], steps[i]) && states[i + 1] == Apply(k, states[i], steps[i])
  }

  predicate IsRun(k: Config, states: seq<State>, steps: seq<Step>) {
    IsPath(k, states, steps) && states[0] == INIT
  }

  /** The user was let in, at time `since` or later, by an allowed account: as its owner or
      because GitHub said yes. */
  ghost predicate Backed(evidence: seq<Evidence>, user: string, since: int) {
    exists i :: 0 <= i < |evidence| && evidence[i].user == user && evidence[i].at >= since
  }

  predicate Genuine(k: Config, e: Evidence, now: int) {
    e.org in k.orgs && (e.kind.OwnerMatch? ==> e.user == e.org) && e.at <= now
  }

  ghost predicate CallOk(k: Config, s: State, call: Call) {
    match call.pc
    case Started(began) => began <= s.now
    case Missed(began) => began <= s.now
    case Looping(began, mapping, next) => began <= s.now
    case Asking(began, mapping, next) => began <= s.now && next < |k.orgs|
    case Answered(began, mapping, next, answer) =>
      began <= s.now && next < |k.orgs| && (answer == Yes ==> Backed(s.evidence, call.user, began))
    case Decided(began, isMember) => isMember ==> Backed(s.evidence, call.user, began)
    case Returned(began, isMember, source) => isMember ==> Backed(s.evidence, call.user, began - k.ttl + 1)
  }

  ghost predicate Inv(k: Config, s: State) {
    && (forall i :: 0 <= i < |s.evidence| ==> Genuine(k, s.evidence[i], s.now))
    && (forall u :: u in s.cache && s.cache[u].isMember ==> Backed(s.evidence, u, s.cache[u].checkedAt))
    && (forall c :: 0 <= c < |s.calls| ==> CallOk(k, s, s.calls[c]))
  }

  lemma BackedLater(evidence: seq<Evidence>, more: seq<Evidence>, user: string, since: int, earlier: int)
    requires Backed(evidence, user, since) && evidence <= more && earlier <= since
    ensures Backed(more, user, earlier)
  {
    var i :| 0 <= i < |evidence| && evidence[i].user == user && evidence[i].at >= since;
    assert more[i] == evidence[i];
  }

  /** More evidence and a later clock disturb nobody. */
  lemma CallOkLater(k: Config, s: State, u: State, call: Call)
    requires CallOk(k, s, call) && s.evidence <= u.evidence && s.now <= u.now
    ensures CallOk(k, u, call)
  {
    hide Backed;
    forall since | Backed(s.evidence, call.user, since)
      ensures Backed(u.evidence, call.user, since)
    {
      BackedLater(s.evidence, u.evidence, call.user, since, since);
    }
  }

  /** What is left to check of a step that changes call c alone and leaves the cache. */
  lemma CallStepKeeps(k: Config, s: State, u: State, c: nat)
    requires Inv(k, s) && At(s, c) && |u.calls| == |s.calls|
    requires u.calls == s.calls[c := u.calls[c]] && CallOk(k, u, u.calls[c])
    requires u.cache == s.cache && u.now == s.now && s.evidence <= u.evidence
    requires forall i :: |s.evidence| <= i < |u.evidence| ==> Genuine(k, u.evidence[i], u.now)
    ensures Inv(k, u)
  {
    hide Backed, CallOk, Genuine;
    forall d | 0 <= d < |u.calls|
      ensures CallOk(k, u, u.calls[d])
    {
      if d != c { CallOkLater(k, s, u, s.calls[d]); }
    }
    forall i | 0 <= i < |u.evidence|
      ensures Genuine(k, u.evidence[i], u.now)
    {
      if i < |s.evidence| { assert u.evidence[i] == s.evidence[i]; }
    }
    forall v | v in u.cache && u.cache[v].isMember
      ensures Backed(u.evidence, v, u.cache[v].checkedAt)
    {
      BackedLater(s.evidence, u.evidence, v, s.cache[v].checkedAt, s.cache[v].checkedAt);
    }
  }

  lemma NewestBacks(u: State, user: string, since: int)
    requires u.evidence != []
    requires u.evidence[|u.evidence| - 1].user == user && u.evidence[|u.evidence| - 1].at >= since
    ensures Backed(u.evidence, user, since)
  {
  }

  lemma VisitKeeps(k: Config, s: State, c: nat)
    requires Inv(k, s) && At(s, c) && s.calls[c].pc.Looping? && s.calls[c].pc.next < |k.orgs|
    ensures Inv(k, VisitResult(k, s, c))
  {
    hide Inv, Backed;
    var u := VisitResult(k, s, c);
    CallAt(k, s, c);
    if u.calls[c].pc.Decided? { NewestBacks(u, s.calls[c].user, s.calls[c].pc.began); }
    CallStepKeeps(k, s, u, c);
  }

  lemma AnswersKeep(k: Config, s: State, c: nat, answer: Answer)
    requires Inv(k, s) && At(s, c) && s.calls[c].pc.Asking? && s.calls[c].pc.next < |k.orgs|
    ensures Inv(k, AnswersResult(k, s, c, answer))
  {
    hide Inv, Backed;
    var u := AnswersResult(k, s, c, answer);
    CallAt(k, s, c);
    if answer == Yes { NewestBacks(u, s.calls[c].user, s.calls[c].pc.began); }
    CallStepKeeps(k, s, u, c);
  }

  lemma CallAt(k: Config, s: State, c: nat)
    requires Inv(k, s) && At(s, c)
    ensures CallOk(k, s, s.calls[c])
  {
  }

  lemma CacheAt(k: Config, s: State, user: string)
    requires Inv(k, s) && user in s.cache && s.cache[user].isMember
    ensures Backed(s.evidence, user, s.cache[user].checkedAt)
  {
  }

  /** A fresh entry is backed since its own time, so a hit is backed since a TTL ago. */
  lemma LookupKeeps(k: Config, s: State, c: nat)
    requires Inv(k, s) && At(s, c) && s.calls[c].pc.Started?
    ensures Inv(k, LookupResult(k, s, c))
  {
    hide Backed, Inv;
    CallAt(k, s, c);
    var began, user := s.calls[c].pc.began, s.calls[c].user;
    if Fresh(s.cache, user, began, k.ttl) && s.cache[user].isMember {
      CacheAt(k, s, user);
      BackedLater(s.evidence, s.evidence, user, s.cache[user].checkedAt, began - k.ttl + 1);
    }
    CallStepKeeps(k, s, LookupResult(k, s, c), c);
  }

  lemma StoreKeeps(k: Config, s: State, c: nat)
    requires k.ttl > 0 && Inv(k, s) && At(s, c) && s.calls[c].pc.Decided?
    ensures Inv(k, StoreResult(s, c))
  {
    hide Backed;
    var Decided(began, isMember) := s.calls[c].pc;
    var returned := Goto(s, c, Returned(began, isMember, c));
    CallAt(k, s, c);
    if isMember { BackedLater(s.evidence, s.evidence, s.calls[c].user, began, began - k.ttl + 1); }
    CallStepKeeps(k, s, returned, c);
    assert forall d :: 0 <= d < |s.calls| ==> CallOk(k, returned, returned.calls[d]);
  }

  lemma StepKeeps(k: Config, s: State, step: Step)
    requires k.ttl > 0 && Inv(k, s) && Enabled(k, s, step)
    ensures Inv(k, Apply(k, s, step))
  {
    hide Backed, VisitResult, AnswersResult, LookupResult, StoreResult;
    match step
    case Visit(c) => VisitKeeps(k, s, c);
    case Answers(c, answer) => AnswersKeep(k, s, c, answer);
    case Lookup(c) => LookupKeeps(k, s, c);
    case Store(c) => StoreKeeps(k, s, c);
    case Receive(c, arrives) =>
      CallAt(k, s, c);
      CallStepKeeps(k, s, ReceiveResult(s, c, arrives), c);
    case RefreshFails(c) => CallStepKeeps(k, s, Apply(k, s, step), c);
    case Snapshot(c) =>
      CallAt(k, s, c);
      CallStepKeeps(k, s, Apply(k, s, step), c);
    case Exhausted(c) => CallStepKeeps(k, s, Apply(k, s, step), c);
    case _ => GlobalStepKeeps(k, s, step);
  }

  lemma GlobalStepKeeps(k: Config, s: State, step: Step)
    requires Inv(k, s) && (step.Tick? || step.Enter? || step.Refresh? || step.Invalidate?)
    ensures Inv(k, Apply(k, s, step))
  {
    hide Backed;
    var u := Apply(k, s, step);
    forall d | 0 <= d < |u.calls|
      ensures CallOk(k, u, u.calls[d])
    {
      if d < |s.calls| { CallOkLater(k, s, u, s.calls[d]); }
    }
    forall v | v in u.cache && u.cache[v].isMember
      ensures Backed(u.evidence, v, u.cache[v].checkedAt)
    {
      BackedLater(s.evidence, u.evidence, v, s.cache[v].checkedAt, s.cache[v].checkedAt);
    }
  }

  lemma {:induction false} RunKeeps(k: Config, states: seq<State>, steps: seq<Step>, n: nat)
    requires k.ttl > 0 && IsRun(k, states, steps) && n <= |steps|
    ensures Inv(k, states[n])
  {
    if n == 0 {
      assert Inv(k, INIT);
    } else {
      hide Apply, Enabled, Inv;
      RunKeeps(k, states, steps, n - 1);
      StepKeeps(k, states[n - 1], steps[n - 1]);
    }
  }

  /** Bounded staleness: in every run, a call that returned true and had read the clock at
      `began` is backed by an owner match on, or a yes that GitHub gave for, an allowed account
      later than began - ttl. */
  lemma BoundedStaleness(k: Config, states: seq<State>, steps: seq<Step>, n: nat, c: nat)
    requires k.ttl > 0 && IsRun(k, states, steps) && n <= |steps| && c < |states[n].calls|
    requires states[n].calls[c].pc.Returned? && states[n].calls[c].pc.isMember
    ensures exists e | e in states[n].evidence ::
      Genuine(k, e, states[n].now) && e.user == states[n].calls[c].user && e.at > states[n].calls[c].pc.began - k.ttl
  {
    hide Apply, Enabled;
    RunKeeps(k, states, steps, n);
    var s := states[n];
    CallAt(k, s, c);
    var since := s.calls[c].pc.began - k.ttl + 1;
    var i :| 0 <= i < |s.evidence| && s.evidence[i].user == s.calls[c].user && s.evidence[i].at >= since;
    assert s.evidence[i] in s.evidence && Genuine(k, s.evidence[i], s.now);
  }

  /** So once all evidence for a user lies at or before `revoked`, no call that begins a TTL later
      returns true. */
  lemma RevocationTakesEffect(k: Config, states: seq<State>, steps: seq<Step>, n: nat, c: nat, revoked: int)
    requires k.ttl > 0 && IsRun(k, states, steps) && n <= |steps| && c < |states[n].calls|
    requires forall e :: e in states[n].evidence && e.user == states[n].calls[c].user ==> e.at <= revoked
    requires states[n].calls[c].pc.Returned? && states[n].calls[c].pc.began >= revoked + k.ttl
    ensures !states[n].calls[c].pc.isMember
  {
    if states[n].calls[c].pc.isMember { BoundedStaleness(k, states, steps, n, c); }
  }
}
