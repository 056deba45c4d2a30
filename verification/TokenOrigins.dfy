/** Which token a caller of getInstallationToken gets (internal/github/client.go): one that GitHub
    gave for the caller's own installation; how fresh it is, and where that ends. */
module TokenOrigins {
  import opened Options
  import opened TokenCache

  /** A request for the installation was answered with the entry. */
  ghost predicate Given(fetches: seq<Fetch>, inst: int, entry: Entry) {
    exists k :: 0 <= k < |fetches| && fetches[k].inst == inst && fetches[k].outcome == Fetched(entry)
  }

  /** A request for the installation was answered with the token. */
  ghost predicate TokenGiven(fetches: seq<Fetch>, inst: int, token: string) {
    exists k :: 0 <= k < |fetches| && fetches[k].inst == inst && fetches[k].outcome.Fetched?
      && fetches[k].outcome.entry.token == token
  }

  ghost predicate CacheGiven(fetches: seq<Fetch>, cache: map<int, Entry>) {
    forall inst :: inst in cache ==> Given(fetches, inst, cache[inst])
  }

  /** A request for the installation failed. */
  ghost predicate SomeFailed(fetches: seq<Fetch>, inst: int) {
    exists k :: 0 <= k < |fetches| && fetches[k].inst == inst && fetches[k].outcome.Failed?
  }

  /** A token was given for the installation; none, and a request for the installation has failed. */
  ghost predicate ResultGiven(fetches: seq<Fetch>, inst: int, result: Option<string>) {
    match result
    case Some(token) => TokenGiven(fetches, inst, token)
    case None => SomeFailed(fetches, inst)
  }

  /** What a call holds was given for its installation, and it waits only for a call of the same. */
  ghost predicate CallGiven(s: State, call: Call) {
    match call.pc
    case Leaving(result) => ResultGiven(s.fetches, call.inst, result)
    case Done(result) => ResultGiven(s.fetches, call.inst, result)
    case Waiting(leader) => leader < |s.calls| && s.calls[leader].inst == call.inst
    case _ => true
  }

  ghost predicate AllGiven(s: State) {
    && CacheGiven(s.fetches, s.cache)
    && forall c :: 0 <= c < |s.calls| ==> CallGiven(s, s.calls[c])
  }

  /** Answers stay: requests are only added, and only pending ones are answered. */
  ghost predicate AnswersStay(fetches: seq<Fetch>, later: seq<Fetch>) {
    && |fetches| <= |later|
    && forall k :: 0 <= k < |fetches| ==>
      later[k].inst == fetches[k].inst && (!fetches[k].outcome.Pending? ==> later[k] == fetches[k])
  }

  lemma GivenStays(fetches: seq<Fetch>, later: seq<Fetch>, inst: int, entry: Entry)
    requires Given(fetches, inst, entry) && AnswersStay(fetches, later)
    ensures Given(later, inst, entry)
  {
    var k :| 0 <= k < |fetches| && fetches[k].inst == inst && fetches[k].outcome == Fetched(entry);
    assert later[k] == fetches[k];
  }

  lemma TokenGivenStays(fetches: seq<Fetch>, later: seq<Fetch>, inst: int, token: string)
    requires TokenGiven(fetches, inst, token) && AnswersStay(fetches, later)
    ensures TokenGiven(later, inst, token)
  {
    var k :| 0 <= k < |fetches| && fetches[k].inst == inst && fetches[k].outcome.Fetched?
      && fetches[k].outcome.entry.token == token;
    assert later[k] == fetches[k];
  }

  lemma ResultGivenStays(fetches: seq<Fetch>, later: seq<Fetch>, inst: int, result: Option<string>)
    requires ResultGiven(fetches, inst, result) && AnswersStay(fetches, later)
    ensures ResultGiven(later, inst, result)
  {
    if result.Some? {
      hide TokenGiven, AnswersStay;
      TokenGivenStays(fetches, later, inst, result.value);
    } else {
      var k :| 0 <= k < |fetches| && fetches[k].inst == inst && fetches[k].outcome.Failed?;
      assert later[k] == fetches[k];
    }
  }

  lemma GivenToken(fetches: seq<Fetch>, inst: int, entry: Entry)
    requires Given(fetches, inst, entry)
    ensures TokenGiven(fetches, inst, entry.token)
  {
  }

  lemma CallGivenStays(s: State, u: State, call: Call)
    requires CallGiven(s, call) && AnswersStay(s.fetches, u.fetches) && |s.calls| <= |u.calls|
    requires forall c :: 0 <= c < |s.calls| ==> u.calls[c].inst == s.calls[c].inst
    ensures CallGiven(u, call)
  {
    hide ResultGiven, AnswersStay;
    match call.pc
    case Leaving(result) => ResultGivenStays(s.fetches, u.fetches, call.inst, result);
    case Done(result) => ResultGivenStays(s.fetches, u.fetches, call.inst, result);
    case _ =>
  }

  lemma StepAnswersStay(s: State, step: Step)
    requires Inv(s) && Enabled(s, step)
    ensures AnswersStay(s.fetches, Apply(s, step).fetches) && |s.calls| <= |Apply(s, step).calls|
    ensures forall c :: 0 <= c < |s.calls| ==> Apply(s, step).calls[c].inst == s.calls[c].inst
  {
    hide SlotsOk, PendingOk, FetchedOk, Usable;
    if step.FetchSucceeds? || step.FetchFails? { assert CallOk(s, s.calls[step.c]); }
  }

  /** The call that moved holds what was in the cache, what GitHub has just answered, or what the
      call it waited for holds. */
  lemma MovedCallGiven(s: State, step: Step, c: nat)
    requires Inv(s) && AllGiven(s) && Enabled(s, step) && c < |Apply(s, step).calls|
    requires c >= |s.calls| || Apply(s, step).calls[c] != s.calls[c]
    ensures CallGiven(Apply(s, step), Apply(s, step).calls[c])
  {
    hide Given, TokenGiven, SomeFailed, PendingOk, FetchedOk, AnswersStay;
    var u := Apply(s, step);
    if c < |s.calls| {
      assert CallGiven(s, s.calls[c]);
      var inst := s.calls[c].inst;
      if inst in s.cache { GivenToken(s.fetches, inst, s.cache[inst]); }
      match step
      case FetchSucceeds(d, entry) =>
        assert CallOk(s, s.calls[c]);
        AnswerGiven(u.fetches, s.calls[c].pc.fetch, inst, entry);
      case FetchFails(d) =>
        assert CallOk(s, s.calls[c]);
        FailureGiven(u.fetches, s.calls[c].pc.fetch, inst);
      case Share(d) => assert CallGiven(s, s.calls[s.calls[c].pc.leader]);
      case Join(d) => if inst in s.flights { assert s.calls[s.flights[inst]].inst == inst; }
      case _ =>
    }
  }

  lemma AnswerGiven(fetches: seq<Fetch>, k: nat, inst: int, entry: Entry)
    requires k < |fetches| && fetches[k].inst == inst && fetches[k].outcome == Fetched(entry)
    ensures Given(fetches, inst, entry) && TokenGiven(fetches, inst, entry.token)
  {
  }

  lemma FailureGiven(fetches: seq<Fetch>, k: nat, inst: int)
    requires k < |fetches| && fetches[k].inst == inst && fetches[k].outcome.Failed?
    ensures SomeFailed(fetches, inst)
  {
  }

  lemma StepGiven(s: State, step: Step)
    requires Inv(s) && AllGiven(s) && Enabled(s, step)
    ensures AllGiven(Apply(s, step))
  {
    hide Apply, Enabled, Inv, CallGiven, CacheGiven, AnswersStay;
    var u := Apply(s, step);
    StepAnswersStay(s, step);
    forall c | 0 <= c < |u.calls|
      ensures CallGiven(u, u.calls[c])
    {
      if c < |s.calls| && u.calls[c] == s.calls[c] {
        CallGivenStays(s, u, s.calls[c]);
      } else {
        MovedCallGiven(s, step, c);
      }
    }
    StepCacheGiven(s, step);
  }

  lemma StepCacheGiven(s: State, step: Step)
    requires Inv(s) && CacheGiven(s.fetches, s.cache) && Enabled(s, step)
    ensures CacheGiven(Apply(s, step).fetches, Apply(s, step).cache)
  {
    hide Given, AnswersStay, SlotsOk, PendingOk, FetchedOk, Usable;
    var u := Apply(s, step);
    StepAnswersStay(s, step);
    forall inst | inst in u.cache
      ensures Given(u.fetches, inst, u.cache[inst])
    {
      if step.FetchSucceeds? && inst == s.calls[step.c].inst {
        assert CallOk(s, s.calls[step.c]);
        AnswerGiven(u.fetches, s.calls[step.c].pc.fetch, inst, step.entry);
      } else {
        GivenStays(s.fetches, u.fetches, inst, s.cache[inst]);
      }
    }
  }

  lemma {:induction false} RunGiven(states: seq<State>, steps: seq<Step>, n: nat)
    requires IsRun(states, steps) && n <= |steps|
    ensures AllGiven(states[n])
  {
    hide Apply, Enabled, Inv;
    if n == 0 {
    } else {
      hide AllGiven;
      RunGiven(states, steps, n - 1);
      RunKeeps(states, steps, n - 1);
      StepGiven(states[n - 1], steps[n - 1]);
    }
  }

  /** In every run a token that a call returns is one that GitHub gave for that call's installation,
      and a call that returns none follows a failed request for that installation. */
  lemma TokensAreGiven(states: seq<State>, steps: seq<Step>, n: nat, c: nat)
    requires IsRun(states, steps) && n <= |steps| && c < |states[n].calls| && states[n].calls[c].pc.Done?
    ensures var call, fetches := states[n].calls[c], states[n].fetches;
      exists k :: 0 <= k < |fetches| && fetches[k].inst == call.inst &&
        match call.pc.result
        case Some(token) => fetches[k].outcome.Fetched? && fetches[k].outcome.entry.token == token
        case None => fetches[k].outcome.Failed?
  {
    hide Apply, Enabled;
    RunGiven(states, steps, n);
    assert CallGiven(states[n], states[n].calls[c]);
  }

  /** The cached token is handed out, on the fast path or at the second look in the slot, exactly when
      it is at that moment valid for more than 60 seconds; it was given for the installation. */
  lemma CachedTokensAreFresh(states: seq<State>, steps: seq<Step>, n: nat, c: nat)
    requires IsRun(states, steps) && n < |steps| && c < |states[n].calls|
    requires steps[n] == FastPath(c) || steps[n] == SecondLook(c)
    ensures c < |states[n + 1].calls|
    ensures var s, inst, pc := states[n], states[n].calls[c].inst, states[n + 1].calls[c].pc;
      if inst in s.cache && s.now < s.cache[inst].expiresAt - 60 then
        && Given(s.fetches, inst, s.cache[inst])
        && pc == if steps[n].FastPath? then Done(Some(s.cache[inst].token)) else Leaving(Some(s.cache[inst].token))
      else pc == if steps[n].FastPath? then Missed else MustFetch
  {
    hide Given, CallGiven;
    RunGiven(states, steps, n);
    assert states[n + 1] == Apply(states[n], steps[n]);
    var inst := states[n].calls[c].inst;
    if inst in states[n].cache { assert Given(states[n].fetches, inst, states[n].cache[inst]); }
  }

  lemma Extend(states: seq<State>, steps: seq<Step>, step: Step) returns (states': seq<State>, steps': seq<Step>)
    requires IsRun(states, steps) && |states| == |steps| + 1 && Enabled(states[|steps|], step)
    ensures IsRun(states', steps') && |states'| == |steps'| + 1 && steps' == steps + [step]
    ensures states'[|steps'|] == Apply(states[|steps|], step)
  {
    hide Apply, Enabled;
    states', steps' := states + [Apply(states[|steps|], step)], steps + [step];
  }

  /** But one handed over in the slot can be past it: the runner takes its time between the answer
      and the hand-over, and the caller that waits gets a token that expired meanwhile. */
  lemma WaiterGetsExpiredToken() returns (states: seq<State>, steps: seq<Step>)
    ensures IsRun(states, steps) && |states| == |steps| + 1
    ensures var s := states[|steps|];
      && |s.calls| == 2 && s.calls[1] == Call(7, Done(Some("t"))) && |s.fetches| == 1
      && s.fetches[0].outcome == Fetched(Entry("t", 100)) && s.now > 100
  {
    hide IsRun;
    states, steps := [INIT], [];
    Start();
    states, steps := Extend(states, steps, Enter(7));
    states, steps := Extend(states, steps, Enter(7));
    states, steps := Extend(states, steps, FastPath(0));
    states, steps := Extend(states, steps, FastPath(1));
    states, steps := Extend(states, steps, Join(0));
    states, steps := Extend(states, steps, Join(1));
    states, steps := Extend(states, steps, SecondLook(0));
    states, steps := Extend(states, steps, StartFetch(0));
    states, steps := Extend(states, steps, FetchSucceeds(0, Entry("t", 100)));
    states, steps := Extend(states, steps, Tick(101));
    states, steps := Extend(states, steps, Leave(0));
    states, steps := Extend(states, steps, Share(1));
  }

  lemma Start()
    ensures var nothing: seq<Step> := [];
      IsRun([INIT], nothing)
  {
  }
}
