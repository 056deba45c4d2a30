/** Plan against actual: ComputePlanVsActual and classifyStatus (internal/planentry/store.go),
    and what the sum of logged minutes means in terms of chains and of stacks. */
module PlanVsActual {
  import opened Options
  import opened Chains
  import opened ChainTotals
  import opened SerialRuns
  import Commands
  import TimeEntries
  import PlanEntries

  type Times = TimeEntries.Table
  type Issue = PlanEntries.Issue

  datatype Verdict = NoPlan | Under | OnTarget | Over

  datatype Aggregate = Aggregate(planId: Option<nat>, planned: int, logged: int, variance: int, verdict: Verdict)

  // ---- the classification ----------------------------------------------------------------

  /** planned * 5 / 100, at least one minute. */
  function Tolerance(planned: int): int {
    var t := Commands.Quot(planned * 5, 100);
    if t < 1 then 1 else t
  }

  function Classify(planned: int, logged: int): Verdict {
    if planned == 0 then NoPlan
    else
      var diff := logged - planned;
      if diff > Tolerance(planned) then Over
      else if diff < -Tolerance(planned) then Under
      else OnTarget
  }

  /** From 20 planned minutes on the verdict changes at five percent either way, below at one
      minute; without planned minutes there is none. */
  lemma VerdictExactly(planned: int, logged: int)
    ensures Classify(planned, logged) ==
      if planned == 0 then NoPlan
      else if planned >= 20 then
        (if 20 * (logged - planned) > planned then Over
         else if 20 * (logged - planned) < -planned then Under else OnTarget)
      else if logged - planned > 1 then Over
      else if logged - planned < -1 then Under
      else OnTarget
  {
    if planned >= 20 {
      var q, r := planned / 20, planned % 20;
      assert planned == 20 * q + r;
      assert planned * 5 / 100 == q;
    }
  }

  function Rank(v: Verdict): int {
    match v case Under => 0 case OnTarget => 1 case Over => 2 case NoPlan => 3
  }

  /** For a fixed plan the verdict only moves from under over on target to over. */
  lemma VerdictMonotone(planned: int, logged: int, more: int)
    requires logged <= more
    ensures Rank(Classify(planned, logged)) <= Rank(Classify(planned, more))
  {
  }

  // ---- the sum of the active rows -------------------------------------------------------------

  predicate OnIssue(t: Times, i: int, issue: Issue) {
    TimeEntries.Has(t, i) && t[i].value.entry.repo == issue.repo && t[i].value.entry.issue == issue.number
  }

  /** What row i contributes to the sum: its minutes, if it is an active row of the issue. */
  function Contribution(t: Times, i: int, issue: Issue): int {
    if OnIssue(t, i, issue) && t[i].value.status.Active? then t[i].value.entry.minutes else 0
  }

  function Contributions(t: Times, issue: Issue): (s: seq<int>)
    ensures |s| == |t|
  {
    seq(|t|, i requires 0 <= i < |t| => Contribution(t, i, issue))
  }

  /** The sum of the minutes of the active rows on the issue; zero when there is none. */
  function LoggedMins(t: Times, issue: Issue): int {
    Sum(Contributions(t, issue))
  }

  /** Row by row: the sum grows by the minutes of an active row of the issue, and by nothing else. */
  lemma LoggedRowByRow(t: Times, slot: Option<TimeEntries.Row>, issue: Issue)
    ensures LoggedMins([], issue) == 0
    ensures LoggedMins(t + [slot], issue) == LoggedMins(t, issue)
      + if slot.Some? && slot.value.status.Active?
          && slot.value.entry.repo == issue.repo && slot.value.entry.issue == issue.number
        then slot.value.entry.minutes else 0
  {
    var longer := t + [slot];
    assert longer[|t|] == slot;
    assert forall i :: 0 <= i < |t| ==> longer[i] == t[i];
    assert Contributions(longer, issue) == Contributions(t, issue) + [Contribution(longer, |t|, issue)];
    SumSnoc(Contributions(t, issue), Contribution(longer, |t|, issue));
  }

  /** Planned and logged minutes of one issue; `planned` stays 0 without an active plan. */
  method ComputePlanVsActual(plans: PlanEntries.PlanStore, times: TimeEntries.TimeStore, issue: Issue)
    returns (pva: Aggregate)
    ensures match pva.planId
      case Some(id) =>
        && PlanEntries.Has(plans.table, id) && plans.table[id].value.status.Active?
        && plans.table[id].value.entry.repo == issue.repo && plans.table[id].value.entry.issue == issue.number
        && pva.planned == plans.table[id].value.entry.minutes
      case None =>
        && pva.planned == 0
        && forall i :: PlanEntries.Has(plans.table, i) && plans.table[i].value.status.Active? ==>
          !(plans.table[i].value.entry.repo == issue.repo && plans.table[i].value.entry.issue == issue.number)
    ensures pva.logged == LoggedMins(times.table, issue)
    ensures pva.variance == pva.logged - pva.planned && pva.verdict == Classify(pva.planned, pva.logged)
  {
    var active := plans.FindActive(issue);
    assert active.None? ==>
      forall i :: PlanEntries.Has(plans.table, i) ==> !PlanEntries.ActiveAt(plans.table, i, issue);
    var planned := 0;
    if active.Some? {
      var row := plans.GetByID(active.value);
      planned := row.value.entry.minutes;
    }
    var logged := LoggedMins(times.table, issue);
    pva := Aggregate(active, planned, logged, logged - planned, Classify(planned, logged));
  }

  // ---- in terms of chains ------------------------------------------------------------------------

  lemma {:induction false} EndSameIssue(t: Times, i: nat, issue: Issue)
    requires TimeEntries.Ledger(t) && WellLinked(TimeEntries.LinksOf(t)) && TimeEntries.Has(t, i)
    ensures TimeEntries.Has(t, EndOf(TimeEntries.LinksOf(t), i))
    ensures OnIssue(t, EndOf(TimeEntries.LinksOf(t), i), issue) <==> OnIssue(t, i, issue)
    decreases |t| - i
  {
    var L := TimeEntries.LinksOf(t);
    if L[i].next.Some? {
      assert PointsTo(L, i, L[i].next.value) && TimeEntries.Points(t, i, L[i].next.value);
      EndSameIssue(t, L[i].next.value, issue);
    }
  }

  /** What the chain headed by i contributes: its last row's minutes, where that row is active. */
  ghost function ChainContribution(t: Times, i: nat, issue: Issue): int
    requires WellLinked(TimeEntries.LinksOf(t))
  {
    var L := TimeEntries.LinksOf(t);
    if IsRoot(L, i) && OnIssue(t, i, issue) then
      var c := Chain(L, i);
      assert Root(L, i) == i;
      var last := c[|c| - 1];
      if TimeEntries.Has(t, last) && t[last].value.status.Active? then t[last].value.entry.minutes else 0
    else 0
  }

  /** On every table that satisfies the ledger the logged minutes of an issue are the sum over
      the issue's chains of the last row's minutes where that row is active. */
  lemma LoggedIsChainTotal(t: Times, issue: Issue)
    requires TimeEntries.Ledger(t)
    ensures WellLinked(TimeEntries.LinksOf(t))
    ensures LoggedMins(t, issue) == Sum(seq(|t|, i requires 0 <= i < |t| => ChainContribution(t, i, issue)))
  {
    TimeEntries.LedgerLinks(t);
    var L := TimeEntries.LinksOf(t);
    var values := Contributions(t, issue);
    ContributionsAtEnds(t, issue);
    ChainsCarryAll(L, values);
    var ends := seq(|L|, i requires 0 <= i < |L| => if IsRoot(L, i) then values[EndOf(L, i)] else 0);
    forall i | 0 <= i < |t|
      ensures ends[i] == ChainContribution(t, i, issue)
    {
      RootContribution(t, i, issue);
    }
    assert ends == seq(|t|, i requires 0 <= i < |t| => ChainContribution(t, i, issue));
  }

  lemma ContributionsAtEnds(t: Times, issue: Issue)
    requires TimeEntries.Ledger(t)
    ensures OnlyEndsCarry(TimeEntries.LinksOf(t), Contributions(t, issue))
  {
  }

  lemma RootContribution(t: Times, i: nat, issue: Issue)
    requires TimeEntries.Ledger(t) && WellLinked(TimeEntries.LinksOf(t)) && i < |t|
    ensures ChainContribution(t, i, issue)
      == if IsRoot(TimeEntries.LinksOf(t), i) then Contribution(t, EndOf(TimeEntries.LinksOf(t), i), issue) else 0
  {
    var L := TimeEntries.LinksOf(t);
    if IsRoot(L, i) {
      EndIsLast(L, i);
      EndSameIssue(t, i, issue);
      assert Root(L, i) == i;
    }
  }

  // ---- in terms of stacks ----------------------------------------------------------------------------

  ghost function SumOver(users: set<int>, f: int -> int): int {
    if u :| u in users then f(u) + SumOver(users - {u}, f) else 0
  }

  lemma {:induction false} SumOverTake(users: set<int>, f: int -> int, u: int)
    requires u in users
    ensures SumOver(users, f) == f(u) + SumOver(users - {u}, f)
    decreases |users|
  {
    var v :| v in users && SumOver(users, f) == f(v) + SumOver(users - {v}, f);
    if v != u {
      SumOverTake(users - {v}, f, u);
      SumOverTake(users - {u}, f, v);
      assert users - {v} - {u} == users - {u} - {v};
    }
  }

  lemma {:induction false} SumOverSame(users: set<int>, f: int -> int, g: int -> int)
    requires forall u :: u in users ==> f(u) == g(u)
    ensures SumOver(users, f) == SumOver(users, g)
    decreases |users|
  {
    if u :| u in users {
      SumOverTake(users, f, u);
      SumOverTake(users, g, u);
      SumOverSame(users - {u}, f, g);
    }
  }

  function StackMins(stack: seq<TimeEntries.Entry>): int {
    if stack == [] then 0 else StackMins(stack[..|stack| - 1]) + stack[|stack| - 1].minutes
  }

  function KeyFor(issue: Issue, user: int): TimeEntries.Key {
    TimeEntries.Key(user, issue.repo, issue.number)
  }

  function FirstLogged(t: Times, issue: Issue, n: nat): int
    requires n <= |t|
  {
    if n == 0 then 0 else FirstLogged(t, issue, n - 1) + Contribution(t, n - 1, issue)
  }

  lemma {:induction false} SumSnoc(s: seq<int>, v: int)
    ensures Sum(s + [v]) == Sum(s) + v
  {
    if s == [] {
      assert s + [v] == [v];
    } else {
      assert (s + [v])[1..] == s[1..] + [v];
      SumSnoc(s[1..], v);
    }
  }

  lemma {:induction false} FirstLoggedAll(t: Times, issue: Issue, n: nat)
    requires n <= |t|
    ensures FirstLogged(t, issue, n) == Sum(Contributions(t, issue)[..n])
  {
    if n == 0 {
    } else {
      FirstLoggedAll(t, issue, n - 1);
      SumSnoc(Contributions(t, issue)[..n - 1], Contribution(t, n - 1, issue));
      assert Contributions(t, issue)[..n] == Contributions(t, issue)[..n - 1] + [Contribution(t, n - 1, issue)];
    }
  }

  /** One user's share of the first n slots. */
  ghost function Share(t: Times, issue: Issue, n: nat): int -> int
    requires n <= |t|
  {
    u => StackMins(StackOf(t, KeyFor(issue, u), n))
  }

  lemma ShareStep(t: Times, issue: Issue, n: nat, u: int)
    requires 0 < n <= |t|
    ensures Share(t, issue, n)(u) == Share(t, issue, n - 1)(u)
      + (if OnIssue(t, n - 1, issue) && t[n - 1].value.entry.userId == u then Contribution(t, n - 1, issue) else 0)
  {
    var before := StackOf(t, KeyFor(issue, u), n - 1);
    if TimeEntries.ActiveAt(t, n - 1, KeyFor(issue, u)) {
      assert (before + [t[n - 1].value.entry])[..|before|] == before;
    } else {
      assert before + [] == before;
    }
  }

  /** users holds everybody who has a row on the issue. */
  predicate Covers(t: Times, issue: Issue, users: set<int>) {
    forall i :: 0 <= i < |t| && OnIssue(t, i, issue) ==> t[i].value.entry.userId in users
  }

  lemma {:induction false} SharesAddUp(t: Times, issue: Issue, users: set<int>, n: nat)
    requires n <= |t| && Covers(t, issue, users)
    ensures FirstLogged(t, issue, n) == SumOver(users, Share(t, issue, n))
  {
    if n == 0 {
      SharesOfNothing(t, issue, users);
    } else {
      SharesAddUp(t, issue, users, n - 1);
      var f, g := Share(t, issue, n - 1), Share(t, issue, n);
      forall u | u in users
        ensures g(u) == f(u)
          + (if OnIssue(t, n - 1, issue) && t[n - 1].value.entry.userId == u then Contribution(t, n - 1, issue) else 0)
      {
        ShareStep(t, issue, n, u);
      }
      if OnIssue(t, n - 1, issue) {
        var owner := t[n - 1].value.entry.userId;
        SumOverTake(users, f, owner);
        SumOverTake(users, g, owner);
        SumOverSame(users - {owner}, f, g);
      } else {
        SumOverSame(users, f, g);
      }
    }
  }

  lemma {:induction false} SharesOfNothing(t: Times, issue: Issue, users: set<int>)
    ensures SumOver(users, Share(t, issue, 0)) == 0
    decreases |users|
  {
    if u :| u in users {
      SumOverTake(users, Share(t, issue, 0), u);
      SharesOfNothing(t, issue, users - {u});
    }
  }

  /** On every table the logged minutes of an issue are what its users' stacks hold together. */
  lemma LoggedIsStackTotal(t: Times, issue: Issue, users: set<int>)
    requires Covers(t, issue, users)
    ensures LoggedMins(t, issue) == SumOver(users, u => StackMins(StackOf(t, KeyFor(issue, u), |t|)))
  {
    SharesAddUp(t, issue, users, |t|);
    FirstLoggedAll(t, issue, |t|);
    assert Contributions(t, issue)[..|t|] == Contributions(t, issue);
    SumOverSame(users, Share(t, issue, |t|), u => StackMins(StackOf(t, KeyFor(issue, u), |t|)));
  }

  /** After a serial run the logged minutes of an issue are the total of the reference stacks. */
  lemma SerialAccounting(calls: seq<Call>, issue: Issue, users: set<int>)
    requires Ticking(calls) && Covers(Run(calls).times, issue, users)
    ensures LoggedMins(Run(calls).times, issue)
      == SumOver(users, u => StackMins(ReferenceStack(calls, KeyFor(issue, u))))
  {
    hide Run, ReferenceStack, LoggedMins;
    var t := Run(calls).times;
    LoggedIsStackTotal(t, issue, users);
    var f := u => StackMins(StackOf(t, KeyFor(issue, u), |t|));
    var g := u => StackMins(ReferenceStack(calls, KeyFor(issue, u)));
    forall u
      ensures f(u) == g(u)
    {
      TimeTableRefinesStacks(calls, KeyFor(issue, u));
    }
    SumOverSame(users, f, g);
  }
}
