/** What becomes of a request for an installation token (internal/github/client.go): the call that
    sent it and every call that waited for it end with its outcome. */
module TokenResults {
  import opened Options
  import opened TokenCache

  /** The result a call holds, when it has one. */
  function Holds(pc: Pc): Option<Option<string>> {
    match pc
    case Leaving(result) => Some(result)
    case Done(result) => Some(result)
    case _ => None
  }

  /** From one step to the next: a result stays, and a call that waits either waits on or takes over
      the result of the call it waits for. */
  ghost predicate CallCarries(s: State, u: State, c: nat)
    requires c < |s.calls| && c < |u.calls|
  {
    var pc, later := s.calls[c].pc, u.calls[c].pc;
    && (Holds(pc).Some? ==> Holds(later) == Holds(pc))
    && (pc.Done? ==> later == pc)
    && (pc.Waiting? ==>
      later == pc || (pc.leader < |s.calls| && s.calls[pc.leader].pc.Done? && later == s.calls[pc.leader].pc))
  }

  lemma StepCarries(s: State, step: Step, c: nat)
    requires Enabled(s, step) && c < |s.calls|
    ensures c < |Apply(s, step).calls| && CallCarries(s, Apply(s, step), c)
  {
    hide Usable;
  }

  lemma RunStep(states: seq<State>, steps: seq<Step>, n: nat)
    requires IsRun(states, steps) && n < |steps|
    ensures n + 1 < |states| && Enabled(states[n], steps[n]) && states[n + 1] == Apply(states[n], steps[n])
  {
    hide Enabled, Apply;
  }

  /** Once a call holds a result, that is what it ends with. */
  lemma {:induction false} ResultStays(states: seq<State>, steps: seq<Step>, m: nat, n: nat, c: nat)
    requires IsRun(states, steps) && m <= n <= |steps| && c < |states[m].calls| && Holds(states[m].calls[c].pc).Some?
    ensures c < |states[n].calls| && Holds(states[n].calls[c].pc) == Holds(states[m].calls[c].pc)
    ensures states[m].calls[c].pc.Done? ==> states[n].calls[c].pc.Done?
    decreases n
  {
    hide Apply, Enabled, IsRun, Holds;
    if n > m {
      ResultStays(states, steps, m, n - 1, c);
      RunStep(states, steps, n - 1);
      StepCarries(states[n - 1], steps[n - 1], c);
    }
  }

  /** A call that has waited for another ends with what the other ends with. */
  lemma {:induction false} WaiterTakesOver(states: seq<State>, steps: seq<Step>, m: nat, n: nat, w: nat)
    requires IsRun(states, steps) && m <= n <= |steps| && w < |states[m].calls| && states[m].calls[w].pc.Waiting?
    ensures w < |states[n].calls|
    ensures var leader := states[m].calls[w].pc.leader;
      || states[n].calls[w].pc == Waiting(leader)
      || (states[n].calls[w].pc.Done? && leader < |states[n].calls|
          && states[n].calls[leader].pc == states[n].calls[w].pc)
    decreases n
  {
    hide Apply, Enabled;
    if n > m {
      var leader := states[m].calls[w].pc.leader;
      WaiterTakesOver(states, steps, m, n - 1, w);
      RunStep(states, steps, n - 1);
      StepCarries(states[n - 1], steps[n - 1], w);
      if leader < |states[n - 1].calls| { StepCarries(states[n - 1], steps[n - 1], leader); }
    }
  }

  /** In every run a call whose request was answered ends with the token GitHub gave, or with none if
      the request failed, and so does every call that waited for it. */
  lemma AnswerReachesCalls(states: seq<State>, steps: seq<Step>, m: nat, n: nat, c: nat)
    requires IsRun(states, steps) && m < n <= |steps| && (steps[m].FetchSucceeds? || steps[m].FetchFails?)
    requires c < |states[n].calls| && states[n].calls[c].pc.Done?
    requires c == steps[m].c
      || exists k :: 0 <= k <= n && c < |states[k].calls| && states[k].calls[c].pc == Waiting(steps[m].c)
    ensures states[n].calls[c].pc.result == if steps[m].FetchSucceeds? then Some(steps[m].entry.token) else None
  {
    hide Apply, Enabled;
    var leader := steps[m].c;
    AnswerHeld(states, steps, m);
    ResultStays(states, steps, m + 1, n, leader);
    if c != leader {
      var k :| 0 <= k <= n && c < |states[k].calls| && states[k].calls[c].pc == Waiting(leader);
      WaiterTakesOver(states, steps, k, n, c);
    }
  }

  lemma AnswerHeld(states: seq<State>, steps: seq<Step>, m: nat)
    requires IsRun(states, steps) && m < |steps| && (steps[m].FetchSucceeds? || steps[m].FetchFails?)
    ensures var c := steps[m].c;
      c < |states[m + 1].calls| && states[m + 1].calls[c].pc
        == Leaving(if steps[m].FetchSucceeds? then Some(steps[m].entry.token) else None)
  {
    hide IsRun;
    RunStep(states, steps, m);
  }
}
