/** Installation tokens (internal/github/client.go): a cache looked up before and again inside a
    singleflight slot. Every lock-protected read or write is one atomic step; the singleflight
    group admits one runner per installation, and late callers wait for its result. Times are
    seconds. */
module TokenCache {
  import opened Options

  datatype Entry = Entry(token: string, expiresAt: int)

  const MARGIN: int := 60

  /** A cached entry that still counts: valid for more than the margin. */
  predicate Usable(cache: map<int, Entry>, inst: int, now: int) {
    inst in cache && now < cache[inst].expiresAt - MARGIN
  }

  datatype Outcome = Pending | Failed | Fetched(entry: Entry)

  /** One request to GitHub for a token of an installation. */
  datatype Fetch = Fetch(inst: int, start: int, outcome: Outcome)

  datatype Pc =
    | Begun
    | Missed                               // the fast path found nothing usable
    | Waiting(leader: nat)                 // on somebody else's flight
    | Leading                              // in the slot, before the second look
    | MustFetch                            // the second look found nothing usable
    | Fetching(fetch: nat)                 // the request is out
    | Leaving(result: Option<string>)      // about to give up the slot
    | Done(result: Option<string>)

  datatype Call = Call(inst: int, pc: Pc)

  /** `flights` holds, per installation, the call that runs in its slot. */
  datatype State = State(
    now: int, cache: map<int, Entry>, flights: map<int, nat>, calls: seq<Call>, fetches: seq<Fetch>)

  const INIT := State(0, map[], map[], [], [])

  datatype Step =
    | Tick(elapsed: nat)
    | Enter(inst: int)
    | FastPath(c: nat)
    | Join(c: nat)
    | SecondLook(c: nat)
    | StartFetch(c: nat)
    | FetchSucceeds(c: nat, entry: Entry)
    | FetchFails(c: nat)
    | Leave(c: nat)
    | Share(c: nat)

  predicate At(s: State, c: nat) {
    c < |s.calls|
  }

  predicate Enabled(s: State, step: Step) {
    match step
    case Tick(elapsed) => true
    case Enter(inst) => true
    case FastPath(c) => At(s, c) && s.calls[c].pc.Begun?
    case Join(c) => At(s, c) && s.calls[c].pc.Missed?
    case SecondLook(c) => At(s, c) && s.calls[c].pc.Leading?
    case StartFetch(c) => At(s, c) && s.calls[c].pc.MustFetch?
    case FetchSucceeds(c, entry) => At(s, c) && s.calls[c].pc.Fetching? && s.calls[c].pc.fetch < |s.fetches|
    case FetchFails(c) => At(s, c) && s.calls[c].pc.Fetching? && s.calls[c].pc.fetch < |s.fetches|
    case Leave(c) => At(s, c) && s.calls[c].pc.Leaving?
    case Share(c) =>
      && At(s, c) && s.calls[c].pc.Waiting?
      && At(s, s.calls[c].pc.leader) && s.calls[s.calls[c].pc.leader].pc.Done?
  }

  function Goto(s: State, c: nat, pc: Pc): State
    requires At(s, c)
  {
    s.(calls := s.calls[c := s.calls[c].(pc := pc)])
  }

  function FastPathResult(s: State, c: nat): State
    requires At(s, c)
  {
    var inst := s.calls[c].inst;
    if Usable(s.cache, inst, s.now) then Goto(s, c, Done(Some(s.cache[inst].token))) else Goto(s, c, Missed)
  }

  /** The singleflight group: whoever finds the slot free runs, everybody else waits. */
  function JoinResult(s: State, c: nat): State
    requires At(s, c)
  {
    var inst := s.calls[c].inst;
    if inst in s.flights then Goto(s, c, Waiting(s.flights[inst]))
    else Goto(s, c, Leading).(flights := s.flights[inst := c])
  }

  function SecondLookResult(s: State, c: nat): State
    requires At(s, c)
  {
    var inst := s.calls[c].inst;
    if Usable(s.cache, inst, s.now) then Goto(s, c, Leaving(Some(s.cache[inst].token))) else Goto(s, c, MustFetch)
  }

  function StartFetchResult(s: State, c: nat): State
    requires At(s, c)
  {
    Goto(s, c, Fetching(|s.fetches|)).(fetches := s.fetches + [Fetch(s.calls[c].inst, s.now, Pending)])
  }

  function FetchSucceedsResult(s: State, c: nat, entry: Entry): State
    requires At(s, c) && s.calls[c].pc.Fetching? && s.calls[c].pc.fetch < |s.fetches|
  {
    var k := s.calls[c].pc.fetch;
    Goto(s, c, Leaving(Some(entry.token))).(
      cache := s.cache[s.calls[c].inst := entry],
      fetches := s.fetches[k := s.fetches[k].(outcome := Fetched(entry))])
  }

  function FetchFailsResult(s: State, c: nat): State
    requires At(s, c) && s.calls[c].pc.Fetching? && s.calls[c].pc.fetch < |s.fetches|
  {
    var k := s.calls[c].pc.fetch;
    Goto(s, c, Leaving(None)).(fetches := s.fetches[k := s.fetches[k].(outcome := Failed)])
  }

  function LeaveResult(s: State, c: nat): State
    requires At(s, c) && s.calls[c].pc.Leaving?
  {
    Goto(s, c, Done(s.calls[c].pc.result)).(flights := s.flights - {s.calls[c].inst})
  }

  function Apply(s: State, step: Step): State
    requires Enabled(s, step)
  {
    match step
    case Tick(elapsed) => s.(now := s.now + elapsed)
    case Enter(inst) => s.(calls := s.calls + [Call(inst, Begun)])
    case FastPath(c) => FastPathResult(s, c)
    case Join(c) => JoinResult(s, c)
    case SecondLook(c) => SecondLookResult(s, c)
    case StartFetch(c) => StartFetchResult(s, c)
    case FetchSucceeds(c, entry) => FetchSucceedsResult(s, c, entry)
    case FetchFails(c) => FetchFailsResult(s, c)
    case Leave(c) => LeaveResult(s, c)
    case Share(c) => Goto(s, c, Done(s.calls[s.calls[c].pc.leader].pc.result))
  }

  predicate IsRun(states: seq<State>, steps: seq<Step>) {
    && |states| == |steps| + 1 && states[0] == INIT
    && forall i :: 0 <= i < |steps| ==> Enabled(states[i], steps[i]) && states[i + 1] == Apply(states[i], steps[i])
  }

  // ---- the invariant ---------------------------------------------------------------------------

  predicate InSlot(pc: Pc) {
    pc.Leading? || pc.MustFetch? || pc.Fetching? || pc.Leaving?
  }

  /** The runner of a slot is in it, and only the runner. */
  ghost predicate SlotsOk(s: State) {
    && (forall c {:trigger s.calls[c]} :: 0 <= c < |s.calls| && InSlot(s.calls[c].pc) ==>
      s.calls[c].inst in s.flights && s.flights[s.calls[c].inst] == c)
    && (forall inst {:trigger s.flights[inst]} :: inst in s.flights ==>
      s.flights[inst] < |s.calls| && s.calls[s.flights[inst]].inst == inst && InSlot(s.calls[s.flights[inst]].pc))
  }

  /** What a runner knows: past its second look the cached entry, if any, has reached its margin. */
  ghost predicate CallOk(s: State, call: Call) {
    && (call.pc.MustFetch? || call.pc.Fetching? ==> !Usable(s.cache, call.inst, s.now))
    && (call.pc.Fetching? ==>
      && call.pc.fetch < |s.fetches| && s.fetches[call.pc.fetch].inst == call.inst
      && s.fetches[call.pc.fetch].outcome.Pending?)
  }

  /** A pending request belongs to the runner of its installation's slot, and no request for the
      installation was sent after it. */
  ghost predicate PendingOk(s: State) {
    && (forall k {:trigger s.fetches[k]} :: 0 <= k < |s.fetches| && s.fetches[k].outcome.Pending? ==>
      && s.fetches[k].inst in s.flights && s.flights[s.fetches[k].inst] < |s.calls|
      && s.calls[s.flights[s.fetches[k].inst]].pc == Fetching(k))
    && (forall k, m {:trigger s.fetches[k], s.fetches[m]} ::
      0 <= k < m < |s.fetches| && s.fetches[k].inst == s.fetches[m].inst ==>
      !s.fetches[k].outcome.Pending?)
  }

  /** A token once fetched is still the cached one, or has reached its margin. */
  ghost predicate FetchedOk(s: State) {
    && (forall k {:trigger s.fetches[k]} :: 0 <= k < |s.fetches| ==> s.fetches[k].start <= s.now)
    && (forall k {:trigger s.fetches[k]} :: 0 <= k < |s.fetches| && s.fetches[k].outcome.Fetched? ==>
      || s.fetches[k].outcome.entry.expiresAt - MARGIN <= s.now
      || (s.fetches[k].inst in s.cache && s.cache[s.fetches[k].inst] == s.fetches[k].outcome.entry))
    && (forall k, m {:trigger s.fetches[k], s.fetches[m]} ::
      0 <= k < m < |s.fetches| && s.fetches[k].inst == s.fetches[m].inst && s.fetches[k].outcome.Fetched? ==>
      s.fetches[m].start >= s.fetches[k].outcome.entry.expiresAt - MARGIN)
  }

  ghost predicate Inv(s: State) {
    && SlotsOk(s) && PendingOk(s) && FetchedOk(s)
    && forall c {:trigger s.calls[c]} :: 0 <= c < |s.calls| ==> CallOk(s, s.calls[c])
  }

  lemma MoveKeeps(s: State, c: nat, pc: Pc)
    requires Inv(s) && At(s, c) && !s.calls[c].pc.Fetching? && InSlot(pc) == InSlot(s.calls[c].pc)
    requires CallOk(s, s.calls[c].(pc := pc)) && !pc.Fetching?
    ensures Inv(Goto(s, c, pc))
  {
  }

  lemma JoinKeeps(s: State, c: nat)
    requires Inv(s) && At(s, c) && s.calls[c].pc.Missed?
    ensures Inv(JoinResult(s, c))
  {
    if s.calls[c].inst in s.flights { MoveKeeps(s, c, Waiting(s.flights[s.calls[c].inst])); }
  }

  lemma LeaveKeeps(s: State, c: nat)
    requires Inv(s) && At(s, c) && s.calls[c].pc.Leaving?
    ensures Inv(LeaveResult(s, c))
  {
  }

  lemma StartFetchRequests(s: State, c: nat)
    requires Inv(s) && At(s, c) && s.calls[c].pc.MustFetch?
    ensures PendingOk(StartFetchResult(s, c)) && FetchedOk(StartFetchResult(s, c))
  {
    var u := StartFetchResult(s, c);
    var inst := s.calls[c].inst;
    assert CallOk(s, s.calls[c]) && s.flights[inst] == c;
    assert forall k :: 0 <= k < |s.fetches| && s.fetches[k].inst == inst ==> !s.fetches[k].outcome.Pending?;
    assert forall k :: 0 <= k < |s.fetches| ==> u.fetches[k] == s.fetches[k];
  }

  /** The request goes out while the runner holds the slot: none is pending for the
      installation, and every earlier token has reached its margin. */
  lemma StartFetchKeeps(s: State, c: nat)
    requires Inv(s) && At(s, c) && s.calls[c].pc.MustFetch?
    ensures Inv(StartFetchResult(s, c))
  {
    hide PendingOk, FetchedOk, Usable;
    var u := StartFetchResult(s, c);
    StartFetchRequests(s, c);
    assert CallOk(s, s.calls[c]);
    assert forall k :: 0 <= k < |s.fetches| ==> u.fetches[k] == s.fetches[k];
    assert forall d :: 0 <= d < |s.calls| && d != c ==> u.calls[d] == s.calls[d] && CallOk(s, s.calls[d]);
  }

  lemma FetchSucceedsKeeps(s: State, c: nat, entry: Entry)
    requires Inv(s) && At(s, c) && s.calls[c].pc.Fetching? && s.calls[c].pc.fetch < |s.fetches|
    ensures Inv(FetchSucceedsResult(s, c, entry))
  {
    var u := FetchSucceedsResult(s, c, entry);
    var inst, k := s.calls[c].inst, s.calls[c].pc.fetch;
    assert CallOk(s, s.calls[c]);
    assert SlotsOk(u);
    assert PendingOk(u);
    assert FetchedOk(u);
    forall d | 0 <= d < |u.calls| && d != c
      ensures CallOk(u, u.calls[d])
    {
      assert CallOk(s, s.calls[d]);
      assert InSlot(s.calls[d].pc) ==> s.calls[d].inst != inst;
    }
  }

  lemma FetchFailsKeeps(s: State, c: nat)
    requires Inv(s) && At(s, c) && s.calls[c].pc.Fetching? && s.calls[c].pc.fetch < |s.fetches|
    ensures Inv(FetchFailsResult(s, c))
  {
    var u := FetchFailsResult(s, c);
    assert CallOk(s, s.calls[c]);
    assert SlotsOk(u);
    assert PendingOk(u);
    forall d | 0 <= d < |u.calls| && d != c
      ensures CallOk(u, u.calls[d])
    {
      assert CallOk(s, s.calls[d]);
      assert InSlot(s.calls[d].pc) ==> s.calls[d].inst != s.calls[c].inst;
    }
  }

  lemma StepKeeps(s: State, step: Step)
    requires Inv(s) && Enabled(s, step)
    ensures Inv(Apply(s, step))
  {
    match step
    case Join(c) => JoinKeeps(s, c);
    case StartFetch(c) => StartFetchKeeps(s, c);
    case FetchSucceeds(c, entry) => FetchSucceedsKeeps(s, c, entry);
    case FetchFails(c) => FetchFailsKeeps(s, c);
    case Leave(c) => LeaveKeeps(s, c);
    case FastPath(c) =>
      var inst := s.calls[c].inst;
      MoveKeeps(s, c, if Usable(s.cache, inst, s.now) then Done(Some(s.cache[inst].token)) else Missed);
    case SecondLook(c) =>
      var inst := s.calls[c].inst;
      MoveKeeps(s, c, if Usable(s.cache, inst, s.now) then Leaving(Some(s.cache[inst].token)) else MustFetch);
    case Share(c) => MoveKeeps(s, c, Done(s.calls[s.calls[c].pc.leader].pc.result));
    case Tick(elapsed) =>
    case Enter(inst) =>
  }

  lemma {:induction false} RunKeeps(states: seq<State>, steps: seq<Step>, n: nat)
    requires IsRun(states, steps) && n <= |steps|
    ensures Inv(states[n])
  {
    if n == 0 {
      assert Inv(INIT);
    } else {
      hide Apply, Enabled, Inv;
      RunKeeps(states, steps, n - 1);
      StepKeeps(states[n - 1], steps[n - 1]);
    }
  }

  // ---- the theorems ------------------------------------------------------------------------------

  /** In every run at most one request per installation is in flight. */
  lemma OneFetchInFlight(states: seq<State>, steps: seq<Step>, n: nat, j: nat, k: nat)
    requires IsRun(states, steps) && n <= |steps| && j < |states[n].fetches| && k < |states[n].fetches|
    requires states[n].fetches[j].outcome.Pending? && states[n].fetches[k].outcome.Pending?
    requires states[n].fetches[j].inst == states[n].fetches[k].inst
    ensures j == k
  {
    RunKeeps(states, steps, n);
  }

  /** A request starts only when no cached entry is usable. */
  lemma FetchOnlyWhenNeeded(states: seq<State>, steps: seq<Step>, n: nat, c: nat)
    requires IsRun(states, steps) && n < |steps| && steps[n] == StartFetch(c)
    ensures c < |states[n].calls|
    ensures var s, inst := states[n], states[n].calls[c].inst;
      inst in s.cache ==> s.now >= s.cache[inst].expiresAt - 60
    ensures states[n + 1].fetches == states[n].fetches + [Fetch(states[n].calls[c].inst, states[n].now, Pending)]
  {
    RunKeeps(states, steps, n);
    assert states[n + 1] == Apply(states[n], steps[n]);
    assert CallOk(states[n], states[n].calls[c]);
  }

  /** A request that follows a successful one for the same installation starts no earlier than
      the margin before that token's expiry, however many calls came in between. */
  lemma FetchesApart(states: seq<State>, steps: seq<Step>, n: nat, j: nat, k: nat)
    requires IsRun(states, steps) && n <= |steps| && j < k < |states[n].fetches|
    requires states[n].fetches[j].inst == states[n].fetches[k].inst && states[n].fetches[j].outcome.Fetched?
    ensures states[n].fetches[k].start >= states[n].fetches[j].outcome.entry.expiresAt - 60
  {
    RunKeeps(states, steps, n);
  }
}
