/** No answer without a reason (internal/auth/membership.go): what must have happened before a call
    of IsAllowed, among all others, says no or yes; and when the cache answers. */
module MembershipAnswers {
  import opened Options
  import opened Membership
  import opened MembershipConcurrency

  /** What a lookup does: a decision younger than the TTL is the answer, yes or no; otherwise the
      call makes its own round. */
  lemma LookupAnswers(k: Config, s: State, c: nat)
    requires Enabled(k, s, Lookup(c))
    ensures var u := Apply(k, s, Lookup(c));
      var user, began := s.calls[c].user, s.calls[c].pc.began;
      && |u.calls| == |s.calls| && u.cache == s.cache
      && if user in s.cache && began - s.cache[user].checkedAt < k.ttl
         then u.calls[c].pc.Returned? && u.calls[c].pc.isMember == s.cache[user].isMember
         else u.calls[c].pc.Missed?
  {
    hide Enabled;
    assert s.calls[c].pc.Started? by { StartedAtLookup(k, s, c); }
  }

  lemma StartedAtLookup(k: Config, s: State, c: nat)
    requires Enabled(k, s, Lookup(c))
    ensures c < |s.calls| && s.calls[c].pc.Started?
  {
  }

  /** A lookup of call c found a fresh decision. */
  predicate Cached(k: Config, s: State, step: Step, c: nat, user: string, isMember: bool) {
    && step == Lookup(c) && c < |s.calls| && s.calls[c].pc.Started? && user in s.cache
    && s.calls[c].pc.began - s.cache[user].checkedAt < k.ttl && s.cache[user].isMember == isMember
  }

  /** Call c was answered about the i-th allowed account with anything but a yes, or the answer
      was lost on the way. */
  predicate NoYes(s: State, step: Step, c: nat, i: nat) {
    && step.Receive? && step.c == c && c < |s.calls|
    && s.calls[c].pc.Answered? && s.calls[c].pc.next == i && (!step.arrives || s.calls[c].pc.answer != Yes)
  }

  /** Call c received a yes about the i-th allowed account. */
  predicate SaidYes(s: State, step: Step, c: nat, i: nat) {
    && step == Receive(c, true) && c < |s.calls|
    && s.calls[c].pc.Answered? && s.calls[c].pc.next == i && s.calls[c].pc.answer == Yes
  }

  /** The i-th allowed account does not let the user in: it is not installed or of an unknown type,
      it is another person's, or GitHub did not say yes for it. */
  ghost predicate Declined(k: Config, states: seq<State>, steps: seq<Step>, n: nat, c: nat, user: string,
        mapping: map<string, Installation>, i: nat)
    requires i < |k.orgs| && n <= |steps| < |states|
  {
    || k.orgs[i] !in mapping
    || (mapping[k.orgs[i]].accountType != "User" && mapping[k.orgs[i]].accountType != "Organization")
    || (mapping[k.orgs[i]].accountType == "User" && user != k.orgs[i])
    || (mapping[k.orgs[i]].accountType == "Organization"
        && exists m :: 0 <= m < n && NoYes(states[m], steps[m], c, i))
  }

  /** The map that call c works with is the installation map as it was at its snapshot. */
  ghost predicate Snapped(states: seq<State>, steps: seq<Step>, n: nat, c: nat, mapping: map<string, Installation>)
    requires n <= |steps| < |states|
  {
    exists m :: 0 <= m < n && steps[m] == Snapshot(c) && states[m].orgInstall == mapping
  }

  ghost predicate DeclinedUpTo(k: Config, states: seq<State>, steps: seq<Step>, n: nat, c: nat, user: string,
        mapping: map<string, Installation>, next: nat)
    requires n <= |steps| < |states|
  {
    && next <= |k.orgs| && Snapped(states, steps, n, c, mapping)
    && forall i :: 0 <= i < next ==> Declined(k, states, steps, n, c, user, mapping, i)
  }

  /** The refresh of an empty installation map failed, or every allowed account declined. */
  ghost predicate Refused(k: Config, states: seq<State>, steps: seq<Step>, n: nat, c: nat, user: string)
    requires n <= |steps| < |states|
  {
    || (exists m :: 0 <= m < n && steps[m] == RefreshFails(c))
    || (exists mapping :: DeclinedUpTo(k, states, steps, n, c, user, mapping, |k.orgs|))
  }

  /** An allowed account that was installed at the snapshot let the user in: as its owner, or because
      GitHub said yes to the call. */
  ghost predicate Granted(k: Config, states: seq<State>, steps: seq<Step>, n: nat, c: nat, user: string)
    requires n <= |steps| < |states|
  {
    exists mapping, i :: Snapped(states, steps, n, c, mapping) && GrantedOf(k, states, steps, n, c, user, mapping, i)
  }

  ghost predicate GrantedOf(k: Config, states: seq<State>, steps: seq<Step>, n: nat, c: nat, user: string,
        mapping: map<string, Installation>, i: nat)
    requires n <= |steps| < |states|
  {
    && i < |k.orgs| && k.orgs[i] in mapping
    && (|| (mapping[k.orgs[i]].accountType == "User" && user == k.orgs[i])
        || (mapping[k.orgs[i]].accountType == "Organization"
            && exists m :: 0 <= m < n && SaidYes(states[m], steps[m], c, i)))
  }

  ghost predicate AnsweredFromCache(k: Config, states: seq<State>, steps: seq<Step>, n: nat, c: nat, user: string,
        isMember: bool)
    requires n <= |steps| < |states|
  {
    exists m :: 0 <= m < n && Cached(k, states[m], steps[m], c, user, isMember)
  }

  ghost predicate OwnRound(k: Config, states: seq<State>, steps: seq<Step>, n: nat, c: nat, user: string,
        isMember: bool)
    requires n <= |steps| < |states|
  {
    if isMember then Granted(k, states, steps, n, c, user) else Refused(k, states, steps, n, c, user)
  }

  /** What the call knows on its way to its answer. */
  ghost predicate Justified(k: Config, states: seq<State>, steps: seq<Step>, n: nat, c: nat, call: Call)
    requires n <= |steps| < |states|
  {
    match call.pc
    case Started(began) => true
    case Missed(began) => true
    case Looping(began, mapping, next) => DeclinedUpTo(k, states, steps, n, c, call.user, mapping, next)
    case Asking(began, mapping, next) =>
      && DeclinedUpTo(k, states, steps, n, c, call.user, mapping, next) && next < |k.orgs|
      && k.orgs[next] in mapping && mapping[k.orgs[next]].accountType == "Organization"
    case Answered(began, mapping, next, answer) =>
      && DeclinedUpTo(k, states, steps, n, c, call.user, mapping, next) && next < |k.orgs|
      && k.orgs[next] in mapping && mapping[k.orgs[next]].accountType == "Organization"
    case Decided(began, isMember) => OwnRound(k, states, steps, n, c, call.user, isMember)
    case Returned(began, isMember, source) =>
      || OwnRound(k, states, steps, n, c, call.user, isMember)
      || AnsweredFromCache(k, states, steps, n, c, call.user, isMember)
  }

  lemma DeclinedStays(k: Config, states: seq<State>, steps: seq<Step>, n: nat, c: nat, user: string,
        mapping: map<string, Installation>, next: nat)
    requires n < |steps| < |states| && DeclinedUpTo(k, states, steps, n, c, user, mapping, next)
    ensures DeclinedUpTo(k, states, steps, n + 1, c, user, mapping, next)
  {
    hide NoYes;
    var m :| 0 <= m < n && steps[m] == Snapshot(c) && states[m].orgInstall == mapping;
    var later := n + 1;
    forall i | 0 <= i < next
      ensures Declined(k, states, steps, later, c, user, mapping, i)
    {
      assert Declined(k, states, steps, n, c, user, mapping, i);
    }
  }

  lemma DeclinedOneMore(k: Config, states: seq<State>, steps: seq<Step>, n: nat, c: nat, user: string,
        mapping: map<string, Installation>, next: nat)
    requires n < |steps| < |states| && DeclinedUpTo(k, states, steps, n, c, user, mapping, next) && next < |k.orgs|
    requires Declined(k, states, steps, n + 1, c, user, mapping, next)
    ensures DeclinedUpTo(k, states, steps, n + 1, c, user, mapping, next + 1)
  {
    hide Declined, Snapped;
    DeclinedStays(k, states, steps, n, c, user, mapping, next);
  }

  lemma RoundStays(k: Config, states: seq<State>, steps: seq<Step>, n: nat, c: nat, user: string, isMember: bool)
    requires n < |steps| < |states|
    ensures OwnRound(k, states, steps, n, c, user, isMember) ==> OwnRound(k, states, steps, n + 1, c, user, isMember)
    ensures AnsweredFromCache(k, states, steps, n, c, user, isMember) ==>
      AnsweredFromCache(k, states, steps, n + 1, c, user, isMember)
  {
    hide DeclinedUpTo, Cached, Granted;
    if isMember {
      GrantStays(k, states, steps, n, c, user);
    } else if mapping :| DeclinedUpTo(k, states, steps, n, c, user, mapping, |k.orgs|) {
      DeclinedStays(k, states, steps, n, c, user, mapping, |k.orgs|);
    }
  }

  lemma GrantStays(k: Config, states: seq<State>, steps: seq<Step>, n: nat, c: nat, user: string)
    requires n < |steps| < |states|
    ensures Granted(k, states, steps, n, c, user) ==> Granted(k, states, steps, n + 1, c, user)
  {
    hide SaidYes;
    if mapping, i :| Snapped(states, steps, n, c, mapping) && GrantedOf(k, states, steps, n, c, user, mapping, i) {
      assert Snapped(states, steps, n + 1, c, mapping) && GrantedOf(k, states, steps, n + 1, c, user, mapping, i);
    }
  }

  lemma GrantedNow(k: Config, states: seq<State>, steps: seq<Step>, n: nat, c: nat, user: string,
        mapping: map<string, Installation>, i: nat)
    requires n < |steps| < |states| && DeclinedUpTo(k, states, steps, n, c, user, mapping, i)
    requires i < |k.orgs| && k.orgs[i] in mapping
    requires mapping[k.orgs[i]].accountType == "User" || mapping[k.orgs[i]].accountType == "Organization"
    requires mapping[k.orgs[i]].accountType == "User" ==> user == k.orgs[i]
    requires mapping[k.orgs[i]].accountType == "Organization" ==> SaidYes(states[n], steps[n], c, i)
    ensures OwnRound(k, states, steps, n + 1, c, user, true)
  {
    hide SaidYes, Declined;
    DeclinedStays(k, states, steps, n, c, user, mapping, i);
    assert GrantedOf(k, states, steps, n + 1, c, user, mapping, i);
  }

  lemma JustifiedStays(k: Config, states: seq<State>, steps: seq<Step>, n: nat, c: nat, call: Call)
    requires n < |steps| < |states| && Justified(k, states, steps, n, c, call)
    ensures Justified(k, states, steps, n + 1, c, call)
  {
    hide DeclinedUpTo, OwnRound, AnsweredFromCache;
    if call.pc.Decided? || call.pc.Returned? { RoundStays(k, states, steps, n, c, call.user, call.pc.isMember); }
    if call.pc.Looping? || call.pc.Asking? || call.pc.Answered? {
      DeclinedStays(k, states, steps, n, c, call.user, call.pc.mapping, call.pc.next);
    }
  }

  predicate InLoop(step: Step) {
    step.Visit? || step.Answers? || step.Receive? || step.Exhausted?
  }

  lemma OwnStepJustified(k: Config, states: seq<State>, steps: seq<Step>, n: nat, c: nat)
    requires n < |steps| < |states| && c < |states[n].calls|
    requires Enabled(k, states[n], steps[n]) && states[n + 1] == Apply(k, states[n], steps[n])
    requires Mover(steps[n]) == Some(c) && Justified(k, states, steps, n, c, states[n].calls[c])
    ensures c < |states[n + 1].calls| && Justified(k, states, steps, n + 1, c, states[n + 1].calls[c])
  {
    hide DeclinedUpTo, OwnRound, AnsweredFromCache;
    if InLoop(steps[n]) {
      hide Apply, Enabled, Justified;
      LoopStepJustified(k, states, steps, n, c);
    } else {
      var s, call := states[n], states[n].calls[c];
      match steps[n]
      case Lookup(_) =>
        if states[n + 1].calls[c].pc.Returned? {
          FoundCached(k, states, steps, n, c, call.user, s.cache[call.user].isMember);
        }
      case RefreshFails(_) => RefreshFailed(k, states, steps, n, c, call.user);
      case Snapshot(_) => SnapshotTaken(k, states, steps, n, c, call.user);
      case Store(_) => RoundStays(k, states, steps, n, c, call.user, call.pc.isMember);
    }
  }

  lemma LoopStepJustified(k: Config, states: seq<State>, steps: seq<Step>, n: nat, c: nat)
    requires n < |steps| < |states| && c < |states[n].calls|
    requires Enabled(k, states[n], steps[n]) && states[n + 1] == Apply(k, states[n], steps[n])
    requires Mover(steps[n]) == Some(c) && InLoop(steps[n])
    requires Justified(k, states, steps, n, c, states[n].calls[c])
    ensures c < |states[n + 1].calls| && Justified(k, states, steps, n + 1, c, states[n + 1].calls[c])
  {
    hide DeclinedUpTo, OwnRound, AnsweredFromCache, Declined;
    var call := states[n].calls[c];
    var mapping, next := call.pc.mapping, call.pc.next;
    DeclinedStays(k, states, steps, n, c, call.user, mapping, next);
    match steps[n]
    case Visit(_) =>
      if states[n + 1].calls[c].pc.Looping? {
        PassedOver(k, states, steps, n, c, call.user, mapping, next);
        DeclinedOneMore(k, states, steps, n, c, call.user, mapping, next);
      } else if states[n + 1].calls[c].pc.Decided? {
        GrantedNow(k, states, steps, n, c, call.user, mapping, next);
      }
    case Answers(_, answer) =>
    case Receive(_, arrives) =>
      if !arrives || call.pc.answer != Yes {
        NotSaidYes(k, states, steps, n, c, call.user, mapping, next);
        DeclinedOneMore(k, states, steps, n, c, call.user, mapping, next);
      } else {
        GrantedNow(k, states, steps, n, c, call.user, mapping, next);
      }
    case Exhausted(_) => AllDeclined(k, states, steps, n, c, call.user, mapping, next);
  }

  lemma FoundCached(k: Config, states: seq<State>, steps: seq<Step>, n: nat, c: nat, user: string, isMember: bool)
    requires n < |steps| < |states| && Cached(k, states[n], steps[n], c, user, isMember)
    ensures AnsweredFromCache(k, states, steps, n + 1, c, user, isMember)
  {
    hide Cached;
  }

  lemma RefreshFailed(k: Config, states: seq<State>, steps: seq<Step>, n: nat, c: nat, user: string)
    requires n < |steps| < |states| && steps[n] == RefreshFails(c)
    ensures OwnRound(k, states, steps, n + 1, c, user, false)
  {
    hide DeclinedUpTo;
  }

  lemma SnapshotTaken(k: Config, states: seq<State>, steps: seq<Step>, n: nat, c: nat, user: string)
    requires n < |steps| < |states| && steps[n] == Snapshot(c)
    ensures DeclinedUpTo(k, states, steps, n + 1, c, user, states[n].orgInstall, 0)
  {
    hide Declined;
  }

  lemma PassedOver(k: Config, states: seq<State>, steps: seq<Step>, n: nat, c: nat, user: string,
        mapping: map<string, Installation>, next: nat)
    requires n < |steps| < |states| && next < |k.orgs|
    requires k.orgs[next] !in mapping || mapping[k.orgs[next]].accountType != "Organization"
    requires k.orgs[next] !in mapping || mapping[k.orgs[next]].accountType != "User" || user != k.orgs[next]
    ensures Declined(k, states, steps, n + 1, c, user, mapping, next)
  {
    hide NoYes;
  }

  lemma NotSaidYes(k: Config, states: seq<State>, steps: seq<Step>, n: nat, c: nat, user: string,
        mapping: map<string, Installation>, i: nat)
    requires n < |steps| < |states| && i < |k.orgs| && NoYes(states[n], steps[n], c, i)
    requires k.orgs[i] in mapping && mapping[k.orgs[i]].accountType == "Organization"
    ensures Declined(k, states, steps, n + 1, c, user, mapping, i)
  {
    hide NoYes;
  }

  lemma AllDeclined(k: Config, states: seq<State>, steps: seq<Step>, n: nat, c: nat, user: string,
        mapping: map<string, Installation>, next: nat)
    requires n < |steps| < |states| && DeclinedUpTo(k, states, steps, n, c, user, mapping, next) && next >= |k.orgs|
    ensures OwnRound(k, states, steps, n + 1, c, user, false)
  {
    hide Declined;
    DeclinedStays(k, states, steps, n, c, user, mapping, next);
    assert next == |k.orgs|;
  }

  lemma {:induction false} RunJustified(k: Config, states: seq<State>, steps: seq<Step>, n: nat, c: nat)
    requires IsRun(k, states, steps) && n <= |steps| && c < |states[n].calls|
    ensures Justified(k, states, steps, n, c, states[n].calls[c])
    decreases n
  {
    hide Apply, Enabled, Justified;
    if n == 0 {
      assert false;
    } else {
      var s, step := states[n - 1], steps[n - 1];
      assert Enabled(k, s, step) && states[n] == Apply(k, s, step);
      if c >= |s.calls| {
        JustStarted(k, states, steps, n, c);
      } else {
        RunJustified(k, states, steps, n - 1, c);
        if Mover(step) == Some(c) {
          OwnStepJustified(k, states, steps, n - 1, c);
        } else {
          OthersStay(k, s, step, c);
          JustifiedStays(k, states, steps, n - 1, c, s.calls[c]);
        }
      }
    }
  }

  lemma JustStarted(k: Config, states: seq<State>, steps: seq<Step>, n: nat, c: nat)
    requires 0 < n <= |steps| < |states|
    requires Enabled(k, states[n - 1], steps[n - 1]) && states[n] == Apply(k, states[n - 1], steps[n - 1])
    requires |states[n - 1].calls| <= c < |states[n].calls|
    ensures Justified(k, states, steps, n, c, states[n].calls[c])
  {
    hide Apply, Enabled, DeclinedUpTo, Refused, AnsweredFromCache;
    NewCallStarted(k, states[n - 1], steps[n - 1], c);
  }

  lemma NewCallStarted(k: Config, s: State, step: Step, c: nat)
    requires Enabled(k, s, step) && |s.calls| <= c < |Apply(k, s, step).calls|
    ensures Apply(k, s, step).calls[c].pc.Started?
  {
    hide Fresh;
  }

  /** In every run a call that says no was answered by a cached no younger than the TTL, or could not
      refresh an empty installation map, or had every allowed account decline. */
  lemma RefusalsJustified(k: Config, states: seq<State>, steps: seq<Step>, n: nat, c: nat)
    requires IsRun(k, states, steps) && n <= |steps| && c < |states[n].calls|
    requires states[n].calls[c].pc.Returned? && !states[n].calls[c].pc.isMember
    ensures AnsweredFromCache(k, states, steps, n, c, states[n].calls[c].user, false)
      || Refused(k, states, steps, n, c, states[n].calls[c].user)
  {
    hide Apply, Enabled, AnsweredFromCache, Refused;
    RunJustified(k, states, steps, n, c);
  }

  /** And one that says yes was answered by a cached yes younger than the TTL, or was let in by an
      allowed account that was installed when the call looked. */
  lemma GrantsJustified(k: Config, states: seq<State>, steps: seq<Step>, n: nat, c: nat)
    requires IsRun(k, states, steps) && n <= |steps| && c < |states[n].calls|
    requires states[n].calls[c].pc.Returned? && states[n].calls[c].pc.isMember
    ensures AnsweredFromCache(k, states, steps, n, c, states[n].calls[c].user, true)
      || Granted(k, states, steps, n, c, states[n].calls[c].user)
  {
    hide Apply, Enabled, AnsweredFromCache, Granted;
    RunJustified(k, states, steps, n, c);
  }
}
