/** What Invalidate does while other calls are under way (internal/auth/membership.go): it makes
    later requests ask again, unless a call that began recently already has GitHub's yes. */
module MembershipInvalidation {
  import opened Options
  import opened Membership
  import opened MembershipConcurrency

  /** Evidence for the user has come about since s0. */
  ghost predicate NewSince(s0: State, s: State, user: string) {
    exists i :: |s0.evidence| <= i < |s.evidence| && s.evidence[i].user == user
  }

  /** Call c entered after s0 and has let the user in. */
  predicate LaterYes(s0: State, s: State, c: nat, user: string) {
    && |s0.calls| <= c < |s.calls| && s.calls[c].user == user
    && s.calls[c].pc.Returned? && s.calls[c].pc.isMember
  }

  function AfterInvalidate(k: Config, s: State, user: string): State {
    Apply(k, s, Invalidate(user))
  }

  /** What the comment on Invalidate promises: whatever happens after it, a request that comes
      after it is answered yes only on evidence from after it. */
  ghost predicate RechecksAfter(k: Config, s: State, user: string) {
    forall states: seq<State>, steps: seq<Step>, c: nat
      {:trigger IsPath(k, states, steps), LaterYes(s, states[|steps|], c, user)} ::
      IsPath(k, states, steps) && states[0] == AfterInvalidate(k, s, user) && LaterYes(s, states[|steps|], c, user) ==>
      NewSince(s, states[|steps|], user)
  }

  /** The call has a yes that it has not stored: it is on its way back from GitHub, or decided. */
  predicate HoldsYes(pc: Pc) {
    (pc.Answered? && pc.answer == Yes) || (pc.Decided? && pc.isMember)
  }

  /** Some call for the user holds a yes and began less than a TTL ago. */
  predicate YesUnderWay(k: Config, s: State, user: string) {
    exists c :: 0 <= c < |s.calls| && Overtaking(k, s, c, user)
  }

  predicate Overtaking(k: Config, s: State, c: nat, user: string)
    requires c < |s.calls|
  {
    s.calls[c].user == user && HoldsYes(s.calls[c].pc) && s.now - s.calls[c].pc.began < k.ttl
  }

  // ---- without such a call ------------------------------------------------------------------------

  /** Until there is new evidence, a cached yes is already too old for anybody who came after s0,
      so is every yes still to be stored, and nobody who came after s0 has one. */
  ghost predicate NothingStale(k: Config, s0: State, s: State, user: string) {
    && CacheNotStale(k, s0, s.cache, user)
    && forall c {:trigger s.calls[c]} :: 0 <= c < |s.calls| ==> CallNotStale(k, s0, c, s.calls[c], user)
  }

  predicate CacheNotStale(k: Config, s0: State, cache: map<string, Decision>, user: string) {
    user in cache && cache[user].isMember ==> s0.now - cache[user].checkedAt >= k.ttl
  }

  predicate CallNotStale(k: Config, s0: State, c: nat, call: Call, user: string) {
    call.user == user ==>
      && (HoldsYes(call.pc) ==> c < |s0.calls| && s0.now - call.pc.began >= k.ttl)
      && (|s0.calls| <= c ==> call.pc.began >= s0.now && !(call.pc.Returned? && call.pc.isMember))
  }

  ghost predicate Renewing(k: Config, s0: State, s: State, user: string) {
    && |s0.calls| <= |s.calls| && s0.now <= s.now && |s0.evidence| <= |s.evidence|
    && (NewSince(s0, s, user) || NothingStale(k, s0, s, user))
  }

  lemma NewStays(s0: State, s: State, u: State, user: string)
    requires NewSince(s0, s, user) && s.evidence <= u.evidence
    ensures NewSince(s0, u, user)
  {
    var i :| |s0.evidence| <= i < |s.evidence| && s.evidence[i].user == user;
    assert u.evidence[i] == s.evidence[i];
  }

  lemma NewestIsNew(s0: State, u: State, user: string)
    requires |s0.evidence| < |u.evidence| && u.evidence[|u.evidence| - 1].user == user
    ensures NewSince(s0, u, user)
  {
  }

  lemma StepGrows(k: Config, s: State, step: Step)
    requires Enabled(k, s, step)
    ensures var u := Apply(k, s, step);
      s.evidence <= u.evidence && |s.calls| <= |u.calls| && s.now <= u.now
  {
    hide Fresh;
  }

  lemma LoudStepIsNew(k: Config, s0: State, s: State, step: Step, user: string)
    requires Enabled(k, s, step) && !Silent(k, s, step, user) && |s0.evidence| <= |s.evidence|
    ensures NewSince(s0, Apply(k, s, step), user)
  {
    hide Fresh, NewSince;
    NewestIsNew(s0, Apply(k, s, step), user);
  }

  lemma StepRenews(k: Config, s0: State, s: State, step: Step, user: string)
    requires Renewing(k, s0, s, user) && Enabled(k, s, step)
    ensures Renewing(k, s0, Apply(k, s, step), user)
  {
    hide NewSince, NothingStale, Apply, Enabled, Silent;
    StepGrows(k, s, step);
    if NewSince(s0, s, user) {
      NewStays(s0, s, Apply(k, s, step), user);
    } else if Silent(k, s, step, user) {
      StepAddsNothingStale(k, s0, s, step, user);
    } else {
      LoudStepIsNew(k, s0, s, step, user);
    }
  }

  /** The step gives the user no new evidence. */
  predicate Silent(k: Config, s: State, step: Step, user: string)
    requires Enabled(k, s, step)
  {
    Apply(k, s, step).evidence != s.evidence ==> (step.Visit? || step.Answers?) && s.calls[step.c].user != user
  }

  lemma StepAddsNothingStale(k: Config, s0: State, s: State, step: Step, user: string)
    requires NothingStale(k, s0, s, user) && Enabled(k, s, step) && |s0.calls| <= |s.calls| && s0.now <= s.now
    requires Silent(k, s, step, user)
    ensures NothingStale(k, s0, Apply(k, s, step), user)
  {
    hide CallNotStale, Silent, CacheNotStale;
    var u := Apply(k, s, step);
    StepCacheNotStale(k, s0, s, step, user);
    forall c | 0 <= c < |u.calls|
      ensures CallNotStale(k, s0, c, u.calls[c], user)
    {
      StepCallNotStale(k, s0, s, step, c, user);
    }
  }

  lemma StepCacheNotStale(k: Config, s0: State, s: State, step: Step, user: string)
    requires NothingStale(k, s0, s, user) && Enabled(k, s, step)
    ensures CacheNotStale(k, s0, Apply(k, s, step).cache, user)
  {
    if step.Store? { assert CallNotStale(k, s0, step.c, s.calls[step.c], user); }
  }

  lemma StepCallNotStale(k: Config, s0: State, s: State, step: Step, c: nat, user: string)
    requires CacheNotStale(k, s0, s.cache, user) && Enabled(k, s, step) && |s0.calls| <= |s.calls| && s0.now <= s.now
    requires c < |s.calls| ==> CallNotStale(k, s0, c, s.calls[c], user)
    requires Silent(k, s, step, user) && c < |Apply(k, s, step).calls|
    ensures CallNotStale(k, s0, c, Apply(k, s, step).calls[c], user)
  {
    hide CallNotStale, CacheNotStale, HoldsYes, Fresh;
    var u := Apply(k, s, step);
    if c >= |s.calls| {
      NewCallNotStale(k, s0, s, c, u.calls[c], user);
    } else if u.calls[c] != s.calls[c] {
      if step.Lookup? {
        LookupNotStale(k, s0, s, c, user);
      } else {
        SilentStepHarmless(k, s, step, c, user);
        MoveNotStale(k, s0, c, s.calls[c], u.calls[c], user);
      }
    }
  }

  lemma NewCallNotStale(k: Config, s0: State, s: State, c: nat, call: Call, user: string)
    requires |s0.calls| <= c && s0.now <= s.now && call.pc == Started(s.now)
    ensures CallNotStale(k, s0, c, call, user)
  {
  }

  /** Somebody who came after s0 finds only a yes that is too old. */
  lemma LookupNotStale(k: Config, s0: State, s: State, c: nat, user: string)
    requires CacheNotStale(k, s0, s.cache, user) && At(s, c) && s.calls[c].pc.Started?
    requires CallNotStale(k, s0, c, s.calls[c], user)
    ensures CallNotStale(k, s0, c, LookupResult(k, s, c).calls[c], user)
  {
  }

  /** The clock reading stays, and a yes comes only from a yes. */
  predicate Harmless(pc: Pc, later: Pc) {
    && later.began == pc.began
    && (HoldsYes(later) || (later.Returned? && later.isMember) ==> HoldsYes(pc))
  }

  lemma SilentStepHarmless(k: Config, s: State, step: Step, c: nat, user: string)
    requires Enabled(k, s, step) && Silent(k, s, step, user) && !step.Lookup?
    requires c < |s.calls| && Apply(k, s, step).calls[c] != s.calls[c]
    ensures Apply(k, s, step).calls[c].user == s.calls[c].user
    ensures s.calls[c].user == user ==> Harmless(s.calls[c].pc, Apply(k, s, step).calls[c].pc)
  {
    if Mover(step) != Some(c) {
      hide Apply, Enabled;
      OthersStay(k, s, step, c);
    } else if step.Visit? || step.Answers? {
      hide ReceiveResult, StoreResult, LookupResult;
    } else {
      hide VisitResult, AnswersResult, LookupResult;
    }
  }

  lemma MoveNotStale(k: Config, s0: State, c: nat, call: Call, later: Call, user: string)
    requires CallNotStale(k, s0, c, call, user) && later.user == call.user
    requires call.user == user ==> Harmless(call.pc, later.pc)
    ensures CallNotStale(k, s0, c, later, user)
  {
    hide HoldsYes;
  }

  lemma {:induction false} PathRenews(k: Config, s0: State, states: seq<State>, steps: seq<Step>, n: nat, user: string)
    requires IsPath(k, states, steps) && n <= |steps| && Renewing(k, s0, states[0], user)
    ensures Renewing(k, s0, states[n], user)
  {
    hide Apply, Enabled, Renewing;
    if n == 0 {
    } else {
      PathRenews(k, s0, states, steps, n - 1, user);
      StepRenews(k, s0, states[n - 1], steps[n - 1], user);
    }
  }

  lemma RechecksWithoutYes(k: Config, s: State, user: string)
    requires !YesUnderWay(k, s, user)
    ensures RechecksAfter(k, s, user)
  {
    hide Apply, Enabled;
    forall states: seq<State>, steps: seq<Step>, c: nat |
      IsPath(k, states, steps) && states[0] == AfterInvalidate(k, s, user) && LaterYes(s, states[|steps|], c, user)
      ensures NewSince(s, states[|steps|], user)
    {
      StartsRenewing(k, s, user);
      PathRenews(k, s, states, steps, |steps|, user);
    }
  }

  lemma StartsRenewing(k: Config, s: State, user: string)
    requires !YesUnderWay(k, s, user)
    ensures Renewing(k, s, AfterInvalidate(k, s, user), user)
  {
    forall c | 0 <= c < |s.calls| && s.calls[c].user == user && HoldsYes(s.calls[c].pc)
      ensures s.now - s.calls[c].pc.began >= k.ttl
    {
      assert !Overtaking(k, s, c, user);
    }
  }

  // ---- with one ---------------------------------------------------------------------------------------

  lemma Extend(k: Config, states: seq<State>, steps: seq<Step>, step: Step)
    returns (states': seq<State>, steps': seq<Step>)
    requires IsPath(k, states, steps) && |states| == |steps| + 1 && Enabled(k, states[|steps|], step)
    ensures IsPath(k, states', steps') && |states'| == |steps'| + 1 && states <= states' && steps' == steps + [step]
    ensures states'[|steps'|] == Apply(k, states[|steps|], step)
  {
    hide Apply, Enabled;
    states', steps' := states + [Apply(k, states[|steps|], step)], steps + [step];
  }

  /** A path that ends where call c holds a yes goes on: the yes arrives, is stored, and the next
      request is let in by it. */
  lemma YesOvertakes(k: Config, before: seq<State>, taken: seq<Step>, c: nat, user: string)
    returns (states: seq<State>, steps: seq<Step>)
    requires IsPath(k, before, taken) && |before| == |taken| + 1
    requires c < |before[|taken|].calls| && Overtaking(k, before[|taken|], c, user)
    ensures IsPath(k, states, steps) && |states| == |steps| + 1 && before <= states && taken <= steps
    ensures var s, u := before[|taken|], states[|steps|];
      && u.evidence == s.evidence && |u.calls| == |s.calls| + 1
      && u.calls[|s.calls|].user == user && u.calls[|s.calls|].pc.Returned? && u.calls[|s.calls|].pc.isMember
  {
    hide IsPath;
    states, steps := before, taken;
    var s := before[|taken|];
    if s.calls[c].pc.Answered? { states, steps := Extend(k, states, steps, Receive(c, true)); }
    states, steps := Extend(k, states, steps, Store(c));
    states, steps := Extend(k, states, steps, Enter(user));
    states, steps := Extend(k, states, steps, Lookup(|s.calls|));
  }

  lemma NotRecheckedWithYes(k: Config, s: State, user: string)
    requires YesUnderWay(k, s, user)
    ensures !RechecksAfter(k, s, user)
  {
    hide Apply, Enabled;
    var s0 := AfterInvalidate(k, s, user);
    InvalidateKeepsCalls(k, s, user);
    var c :| 0 <= c < |s.calls| && Overtaking(k, s, c, user);
    var nothing: seq<Step> := [];
    var states, steps := YesOvertakes(k, [s0], nothing, c, user);
    assert states[0] == [s0][0];
    assert LaterYes(s, states[|steps|], |s.calls|, user);
  }

  lemma InvalidateKeepsCalls(k: Config, s: State, user: string)
    ensures var s0 := AfterInvalidate(k, s, user);
      s0.calls == s.calls && s0.evidence == s.evidence && s0.now == s.now
  {
  }

  // ---- the theorem ----------------------------------------------------------------------------------

  /** In any state, Invalidate does what its comment promises if and only if no call for the user
      that began less than a TTL ago holds a yes it has not stored: received and decided, or given
      by GitHub and still on its way. */
  lemma InvalidateRechecksIff(k: Config, s: State, user: string)
    ensures RechecksAfter(k, s, user) <==> !YesUnderWay(k, s, user)
  {
    hide *;
    if YesUnderWay(k, s, user) { NotRecheckedWithYes(k, s, user); } else { RechecksWithoutYes(k, s, user); }
  }

  /** In particular when no call for the user is under way. */
  lemma QuietInvalidateRechecks(k: Config, s: State, user: string)
    requires forall c :: 0 <= c < |s.calls| && s.calls[c].user == user ==> s.calls[c].pc.Returned?
    ensures RechecksAfter(k, s, user)
  {
    hide RechecksAfter;
    InvalidateRechecksIff(k, s, user);
  }

  /** It does fail: in a run from the start GitHub says yes, Invalidate comes while the answer is on
      its way, and a request that comes later is let in without GitHub being asked again. */
  lemma InvalidateOvertaken() returns (k: Config, states: seq<State>, steps: seq<Step>, m: nat)
    ensures k == Config(["acme"], DEFAULT_TTL) && IsRun(k, states, steps) && m < |steps|
    ensures steps[m] == Invalidate("ada") && YesUnderWay(k, states[m], "ada") && |states[m].calls| == 1
    ensures LaterYes(states[m], states[|steps|], 1, "ada") && states[|steps|].evidence == states[m].evidence
  {
    hide IsPath;
    k := Config(["acme"], DEFAULT_TTL);
    steps := [];
    states := [INIT];
    Nowhere(k);
    states, steps := Extend(k, states, steps, Refresh(map["acme" := Installation(1, "Organization")]));
    states, steps := Extend(k, states, steps, Enter("ada"));
    states, steps := Extend(k, states, steps, Lookup(0));
    states, steps := Extend(k, states, steps, Snapshot(0));
    states, steps := Extend(k, states, steps, Visit(0));
    states, steps := Extend(k, states, steps, Answers(0, Yes));
    m := |steps|;
    var s := states[m];
    assert Overtaking(k, s, 0, "ada");
    var states1, steps1 := Extend(k, states, steps, Invalidate("ada"));
    assert states1[m] == s && steps1[m] == Invalidate("ada");
    states, steps := YesOvertakes(k, states1, steps1, 0, "ada");
  }

  lemma Nowhere(k: Config)
    ensures var nothing: seq<Step> := [];
      IsPath(k, [INIT], nothing)
  {
  }
}
