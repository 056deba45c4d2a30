/** Invalidate and both kinds of answers (internal/auth/membership.go): when is a request that comes
    after it never answered, yes or no, from a round that began before it? */
module MembershipRounds {
  import opened Options
  import opened Membership
  import opened MembershipConcurrency
  import opened MembershipInvalidation

  /** Call c entered after s0 and has its answer. */
  predicate LaterAnswer(s0: State, s: State, c: nat, user: string) {
    |s0.calls| <= c < |s.calls| && s.calls[c].user == user && s.calls[c].pc.Returned?
  }

  /** Whatever happens after Invalidate, a request that comes after it is answered from the round of
      a call that came after it. */
  ghost predicate AskedAnew(k: Config, s: State, user: string) {
    forall states: seq<State>, steps: seq<Step>, c: nat
      {:trigger IsPath(k, states, steps), LaterAnswer(s, states[|steps|], c, user)} ::
      IsPath(k, states, steps) && states[0] == AfterInvalidate(k, s, user)
      && LaterAnswer(s, states[|steps|], c, user) ==>
      states[|steps|].calls[c].pc.source >= |s.calls|
  }

  predicate Recent(k: Config, s: State, c: nat, user: string)
    requires c < |s.calls|
  {
    s.calls[c].user == user && !s.calls[c].pc.Returned? && s.now - s.calls[c].pc.began < k.ttl
  }

  /** Some call for the user is under way that began less than a TTL ago. */
  predicate RecentUnderWay(k: Config, s: State, user: string) {
    exists c :: 0 <= c < |s.calls| && Recent(k, s, c, user)
  }

  // ---- without such a call --------------------------------------------------------------------------

  /** A call from before s0 that is still under way is too old for anybody from after s0; a call from
      after s0 has no answer from before. */
  predicate CallSpent(k: Config, s0: State, c: nat, call: Call, user: string) {
    call.user == user ==>
      if c < |s0.calls| then !call.pc.Returned? ==> s0.now - call.pc.began >= k.ttl
      else call.pc.began >= s0.now && (call.pc.Returned? ==> call.pc.source >= |s0.calls|)
  }

  predicate CacheSpent(k: Config, s0: State, s: State, user: string) {
    user in s.cache ==>
      user in s.storedBy && (s.storedBy[user] >= |s0.calls| || s0.now - s.cache[user].checkedAt >= k.ttl)
  }

  ghost predicate Spent(k: Config, s0: State, s: State, user: string) {
    && |s0.calls| <= |s.calls| && s0.now <= s.now && CacheSpent(k, s0, s, user)
    && forall c {:trigger s.calls[c]} :: 0 <= c < |s.calls| ==> CallSpent(k, s0, c, s.calls[c], user)
  }

  /** From call to later: the same user and clock reading. */
  predicate SameBeginning(call: Call, later: Call) {
    later.user == call.user && later.pc.began == call.pc.began
  }

  lemma AskingKeepsBegan(k: Config, s: State, step: Step, c: nat)
    requires Enabled(k, s, step) && c < |s.calls| && Mover(step) == Some(c)
    requires step.Visit? || step.Answers? || step.Receive?
    ensures c < |Apply(k, s, step).calls|
    ensures SameBeginning(s.calls[c], Apply(k, s, step).calls[c]) && !Apply(k, s, step).calls[c].pc.Returned?
  {
    hide LookupResult, StoreResult;
  }

  lemma OtherMovesKeepBegan(k: Config, s: State, step: Step, c: nat)
    requires Enabled(k, s, step) && c < |s.calls| && Mover(step) == Some(c)
    requires !step.Visit? && !step.Answers? && !step.Receive?
    ensures c < |Apply(k, s, step).calls|
    ensures SameBeginning(s.calls[c], Apply(k, s, step).calls[c]) && !s.calls[c].pc.Returned?
    ensures Apply(k, s, step).calls[c].pc.Returned? ==> step == Lookup(c) || step == Store(c)
  {
    hide VisitResult, AnswersResult, ReceiveResult, Fresh;
  }

  /** A call keeps its clock reading, and gets its answer only from the cache or by storing it. */
  lemma StepKeepsBegan(k: Config, s: State, step: Step, c: nat)
    requires Enabled(k, s, step) && c < |s.calls|
    ensures c < |Apply(k, s, step).calls| && SameBeginning(s.calls[c], Apply(k, s, step).calls[c])
    ensures Apply(k, s, step).calls[c].pc.Returned? && Apply(k, s, step).calls[c] != s.calls[c] ==>
      step == Lookup(c) || step == Store(c)
    ensures s.calls[c].pc.Returned? ==> Apply(k, s, step).calls[c] == s.calls[c]
  {
    hide Apply;
    if Mover(step) != Some(c) {
      OthersStay(k, s, step, c);
    } else if step.Visit? || step.Answers? || step.Receive? {
      AskingKeepsBegan(k, s, step, c);
    } else {
      OtherMovesKeepBegan(k, s, step, c);
    }
  }

  lemma LookupSpent(k: Config, s0: State, s: State, c: nat, user: string)
    requires At(s, c) && s.calls[c].pc.Started? && CacheSpent(k, s0, s, user) && CallSpent(k, s0, c, s.calls[c], user)
    ensures CallSpent(k, s0, c, LookupResult(k, s, c).calls[c], user)
  {
  }

  lemma StoreSpent(k: Config, s0: State, s: State, c: nat, user: string)
    requires At(s, c) && s.calls[c].pc.Decided? && CacheSpent(k, s0, s, user) && CallSpent(k, s0, c, s.calls[c], user)
    ensures CallSpent(k, s0, c, StoreResult(s, c).calls[c], user) && CacheSpent(k, s0, StoreResult(s, c), user)
  {
  }

  lemma StepCallSpent(k: Config, s0: State, s: State, step: Step, c: nat, user: string)
    requires Spent(k, s0, s, user) && Enabled(k, s, step) && c < |Apply(k, s, step).calls|
    ensures CallSpent(k, s0, c, Apply(k, s, step).calls[c], user)
  {
    if c < |s.calls| {
      hide Apply, Enabled, CacheSpent;
      assert CallSpent(k, s0, c, s.calls[c], user);
      StepKeepsBegan(k, s, step, c);
      AnsweringSteps(k, s, step, c);
      if step == Lookup(c) { LookupSpent(k, s0, s, c, user); }
      if step == Store(c) { StoreSpent(k, s0, s, c, user); }
    } else {
      hide CacheSpent, Fresh;
    }
  }

  lemma AnsweringSteps(k: Config, s: State, step: Step, c: nat)
    requires Enabled(k, s, step)
    ensures step == Lookup(c) ==> At(s, c) && s.calls[c].pc.Started? && Apply(k, s, step) == LookupResult(k, s, c)
    ensures step == Store(c) ==> At(s, c) && s.calls[c].pc.Decided? && Apply(k, s, step) == StoreResult(s, c)
  {
    hide LookupResult, StoreResult;
  }

  lemma StepCacheSpent(k: Config, s0: State, s: State, step: Step, user: string)
    requires Spent(k, s0, s, user) && Enabled(k, s, step)
    ensures CacheSpent(k, s0, Apply(k, s, step), user)
  {
    hide CallSpent, Fresh;
    if step.Store? {
      assert CallSpent(k, s0, step.c, s.calls[step.c], user);
      StoreSpent(k, s0, s, step.c, user);
    }
  }

  lemma StepSpends(k: Config, s0: State, s: State, step: Step, user: string)
    requires Spent(k, s0, s, user) && Enabled(k, s, step)
    ensures Spent(k, s0, Apply(k, s, step), user)
  {
    hide CallSpent, CacheSpent, Fresh;
    var u := Apply(k, s, step);
    StepCacheSpent(k, s0, s, step, user);
    forall c | 0 <= c < |u.calls|
      ensures CallSpent(k, s0, c, u.calls[c], user)
    {
      StepCallSpent(k, s0, s, step, c, user);
    }
  }

  lemma {:induction false} PathSpends(k: Config, s0: State, states: seq<State>, steps: seq<Step>, n: nat, user: string)
    requires IsPath(k, states, steps) && n <= |steps| && Spent(k, s0, states[0], user)
    ensures Spent(k, s0, states[n], user)
  {
    hide Apply, Enabled, Spent;
    if n == 0 {
    } else {
      PathSpends(k, s0, states, steps, n - 1, user);
      StepSpends(k, s0, states[n - 1], steps[n - 1], user);
    }
  }

  lemma StartsSpent(k: Config, s: State, user: string)
    requires !RecentUnderWay(k, s, user)
    ensures Spent(k, s, AfterInvalidate(k, s, user), user)
  {
    forall c | 0 <= c < |s.calls|
      ensures CallSpent(k, s, c, s.calls[c], user)
    {
      assert !Recent(k, s, c, user);
    }
  }

  lemma AskedAnewWithout(k: Config, s: State, user: string)
    requires !RecentUnderWay(k, s, user)
    ensures AskedAnew(k, s, user)
  {
    hide Apply, Enabled;
    forall states: seq<State>, steps: seq<Step>, c: nat |
      IsPath(k, states, steps) && states[0] == AfterInvalidate(k, s, user) && LaterAnswer(s, states[|steps|], c, user)
      ensures states[|steps|].calls[c].pc.source >= |s.calls|
    {
      StartsSpent(k, s, user);
      PathSpends(k, s, states, steps, |steps|, user);
      assert CallSpent(k, s, c, states[|steps|].calls[c], user);
    }
  }

  // ---- with one ----------------------------------------------------------------------------------------

  /** The loop has not run past the organisations, as in every state of every run. */
  predicate InLoop(k: Config, pc: Pc) {
    pc.Asking? || pc.Answered? ==> pc.next < |k.orgs|
  }

  /** A bound on how many steps the call is away from its decision. */
  function Remaining(k: Config, pc: Pc): nat {
    match pc
    case Started(_) => 2
    case Missed(_) => 1
    case Looping(_, _, next) => if next < |k.orgs| then 3 * (|k.orgs| - next) + 2 else 2
    case Asking(_, _, next) => if next < |k.orgs| then 3 * (|k.orgs| - next) + 1 else 2
    case Answered(_, _, next, _) => if next < |k.orgs| then 3 * (|k.orgs| - next) else 2
    case _ => 0
  }

  /** The next step towards a decision of call c, whatever GitHub says. */
  function NextStep(k: Config, pc: Pc, c: nat): Step {
    match pc
    case Started(_) => Lookup(c)
    case Missed(_) => RefreshFails(c)
    case Looping(_, _, next) => if next < |k.orgs| then Visit(c) else Exhausted(c)
    case Asking(_, _, _) => Answers(c, No)
    case Answered(_, _, _, _) => Receive(c, false)
    case _ => Invalidate("")
  }

  lemma NextStepMoves(k: Config, s: State, c: nat, user: string)
    requires At(s, c) && s.calls[c].user == user && user !in s.cache && InLoop(k, s.calls[c].pc)
    requires !s.calls[c].pc.Returned? && !s.calls[c].pc.Decided?
    ensures Enabled(k, s, NextStep(k, s.calls[c].pc, c))
    ensures var u := Apply(k, s, NextStep(k, s.calls[c].pc, c));
      && |u.calls| == |s.calls| && u.now == s.now && u.cache == s.cache && u.calls[c].user == user
      && InLoop(k, u.calls[c].pc) && !u.calls[c].pc.Returned? && u.calls[c].pc.began == s.calls[c].pc.began
      && Remaining(k, u.calls[c].pc) < Remaining(k, s.calls[c].pc)
  {
  }

  /** An unfinished call can come to a decision before anybody else moves. */
  lemma {:induction false} Finishes(k: Config, before: seq<State>, taken: seq<Step>, c: nat, user: string)
    returns (states: seq<State>, steps: seq<Step>)
    requires IsPath(k, before, taken) && |before| == |taken| + 1 && At(before[|taken|], c)
    requires var s := before[|taken|];
      && s.calls[c].user == user && user !in s.cache && InLoop(k, s.calls[c].pc) && !s.calls[c].pc.Returned?
    ensures IsPath(k, states, steps) && |states| == |steps| + 1 && before <= states
    ensures var s, u := before[|taken|], states[|steps|];
      && |u.calls| == |s.calls| && u.now == s.now && u.calls[c].user == user
      && u.calls[c].pc.Decided? && u.calls[c].pc.began == s.calls[c].pc.began
    decreases Remaining(k, before[|taken|].calls[c].pc)
  {
    hide IsPath, Apply, Enabled, InLoop, Remaining, NextStep;
    states, steps := before, taken;
    var s := before[|taken|];
    if s.calls[c].pc.Decided? {
    } else {
      NextStepMoves(k, s, c, user);
      states, steps := Extend(k, states, steps, NextStep(k, s.calls[c].pc, c));
      states, steps := Finishes(k, states, steps, c, user);
    }
  }

  lemma OldRoundAnswers(k: Config, s: State, user: string)
    requires RecentUnderWay(k, s, user)
    requires forall c :: 0 <= c < |s.calls| ==> InLoop(k, s.calls[c].pc)
    ensures !AskedAnew(k, s, user)
  {
    hide IsPath, InLoop;
    var s0 := AfterInvalidate(k, s, user);
    InvalidateKeepsCalls(k, s, user);
    var c :| 0 <= c < |s.calls| && Recent(k, s, c, user);
    var nothing: seq<Step> := [];
    Still(k, s0);
    var states, steps := Finishes(k, [s0], nothing, c, user);
    assert states[0] == [s0][0];
    states, steps := DecisionAnswers(k, states, steps, c, user);
    assert LaterAnswer(s, states[|steps|], |s.calls|, user);
  }

  lemma Still(k: Config, s: State)
    ensures var nothing: seq<Step> := [];
      IsPath(k, [s], nothing)
  {
  }

  /** A decided call stores its decision, and the next request is answered by it. */
  lemma DecisionAnswers(k: Config, before: seq<State>, taken: seq<Step>, c: nat, user: string)
    returns (states: seq<State>, steps: seq<Step>)
    requires IsPath(k, before, taken) && |before| == |taken| + 1 && At(before[|taken|], c)
    requires var s := before[|taken|];
      s.calls[c].user == user && s.calls[c].pc.Decided? && s.now - s.calls[c].pc.began < k.ttl
    ensures IsPath(k, states, steps) && |states| == |steps| + 1 && before <= states
    ensures var s, u := before[|taken|], states[|steps|];
      && |u.calls| == |s.calls| + 1 && u.calls[|s.calls|].user == user
      && u.calls[|s.calls|].pc.Returned? && u.calls[|s.calls|].pc.source == c
  {
    hide IsPath;
    var s := before[|taken|];
    states, steps := Extend(k, before, taken, Store(c));
    states, steps := Extend(k, states, steps, Enter(user));
    states, steps := Extend(k, states, steps, Lookup(|s.calls|));
  }

  /** In every state of every run Invalidate makes later requests be answered, yes or no, from rounds
      that began after it if and only if no call for the user is under way that began less than a TTL
      ago; otherwise that call can store a yes or a no that answers them. */
  lemma InvalidateAsksAnewIff(k: Config, states: seq<State>, steps: seq<Step>, n: nat, user: string)
    requires k.ttl > 0 && IsRun(k, states, steps) && n <= |steps|
    ensures AskedAnew(k, states[n], user) <==> !RecentUnderWay(k, states[n], user)
  {
    hide Apply, Enabled, AskedAnew, Recent;
    RunKeeps(k, states, steps, n);
    if RecentUnderWay(k, states[n], user) {
      forall c | 0 <= c < |states[n].calls|
        ensures InLoop(k, states[n].calls[c].pc)
      {
        CallAt(k, states[n], c);
      }
      OldRoundAnswers(k, states[n], user);
    } else {
      AskedAnewWithout(k, states[n], user);
    }
  }
}
