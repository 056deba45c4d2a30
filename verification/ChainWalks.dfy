/** The two chain walks while handlers are writing (GetCorrectionChain in
    internal/timeentry/store.go, GetChain in internal/planentry/store.go). Each query of a walk reads
    the table at a moment of its own, so the links it follows need never have stood together. */
module ChainWalks {
  import opened Interleaving
  import opened InterleavingSafety
  import Chains
  import TimeEntries
  import PlanEntries
  import Runs = InterleavedRuns

  /** Row i was seen to point at row j at moment m, and both are there at moment n. */
  lemma TimeLinkSeen(states: seq<State>, steps: seq<Step>, m: nat, n: nat, i: nat, j: nat)
    requires IsRun(states, steps) && m <= n <= |steps| && TimeEntries.Points(states[m].times, i, j)
    ensures i < j && TimeEntries.Has(states[n].times, i) && TimeEntries.Has(states[n].times, j)
    ensures var t := states[n].times;
      && TimeEntries.KeyOf(t[i].value.entry) == TimeEntries.KeyOf(t[j].value.entry)
      && t[i].value.entry.clientId == t[j].value.entry.clientId
  {
    hide Apply, Enabled, Inv;
    Runs.RunInvariant(states, steps, m);
    LedgerOf(states[m]);
    Runs.HistoryMonotone(states, steps, m, n);
    assert states[n].times[i].Some? && states[n].times[j].Some?;
  }

  lemma PlanLinkSeen(states: seq<State>, steps: seq<Step>, m: nat, n: nat, i: nat, j: nat)
    requires IsRun(states, steps) && m <= n <= |steps| && PlanEntries.Points(states[m].plans, i, j)
    ensures i < j && PlanEntries.Has(states[n].plans, i) && PlanEntries.Has(states[n].plans, j)
    ensures var t := states[n].plans;
      PlanEntries.IssueOf(t[i].value.entry) == PlanEntries.IssueOf(t[j].value.entry)
  {
    hide Apply, Enabled, Inv;
    Runs.RunInvariant(states, steps, m);
    LedgerOf(states[m]);
    Runs.HistoryMonotone(states, steps, m, n);
    assert states[n].plans[i].Some? && states[n].plans[j].Some?;
  }

  /** The walk, read in the direction of the pointers: each pointer was seen at some moment up to n. */
  predicate TimeWalk(states: seq<State>, n: nat, moments: seq<nat>, walk: seq<nat>)
    requires n < |states|
  {
    && |walk| == |moments| + 1
    && forall k :: 0 <= k < |moments| ==>
      moments[k] <= n && TimeEntries.Points(states[moments[k]].times, walk[k], walk[k + 1])
  }

  predicate PlanWalk(states: seq<State>, n: nat, moments: seq<nat>, walk: seq<nat>)
    requires n < |states|
  {
    && |walk| == |moments| + 1
    && forall k :: 0 <= k < |moments| ==>
      moments[k] <= n && PlanEntries.Points(states[moments[k]].plans, walk[k], walk[k + 1])
  }

  predicate SameOwner(t: TimeEntries.Table, i: nat, j: nat) {
    && TimeEntries.Has(t, i) && TimeEntries.Has(t, j)
    && var e, f := t[i].value.entry, t[j].value.entry;
      e.userId == f.userId && e.repo == f.repo && e.issue == f.issue && e.clientId == f.clientId
  }

  predicate SameIssue(t: PlanEntries.Table, i: nat, j: nat) {
    && PlanEntries.Has(t, i) && PlanEntries.Has(t, j)
    && t[i].value.entry.repo == t[j].value.entry.repo && t[i].value.entry.issue == t[j].value.entry.issue
  }

  lemma {:induction false} TimeWalkPair(states: seq<State>, steps: seq<Step>, n: nat, moments: seq<nat>,
        walk: seq<nat>, a: nat, b: nat)
    requires IsRun(states, steps) && n <= |steps| && TimeWalk(states, n, moments, walk) && a < b < |walk|
    ensures walk[a] < walk[b] && SameOwner(states[n].times, walk[a], walk[b])
    decreases b
  {
    hide Apply, Enabled;
    TimeLinkSeen(states, steps, moments[b - 1], n, walk[b - 1], walk[b]);
    if a < b - 1 { TimeWalkPair(states, steps, n, moments, walk, a, b - 1); }
  }

  lemma {:induction false} PlanWalkPair(states: seq<State>, steps: seq<Step>, n: nat, moments: seq<nat>,
        walk: seq<nat>, a: nat, b: nat)
    requires IsRun(states, steps) && n <= |steps| && PlanWalk(states, n, moments, walk) && a < b < |walk|
    ensures walk[a] < walk[b] && SameIssue(states[n].plans, walk[a], walk[b])
    decreases b
  {
    hide Apply, Enabled;
    PlanLinkSeen(states, steps, moments[b - 1], n, walk[b - 1], walk[b]);
    if a < b - 1 { PlanWalkPair(states, steps, n, moments, walk, a, b - 1); }
  }

  /** Whatever is written between its queries, GetCorrectionChain goes through strictly increasing
      ids, hence through no row twice, and through rows of one person, issue and client. */
  lemma TimeWalkAmongWriters(states: seq<State>, steps: seq<Step>, n: nat, moments: seq<nat>, walk: seq<nat>)
    requires IsRun(states, steps) && n <= |steps| && TimeWalk(states, n, moments, walk)
    ensures Chains.Increasing(walk)
    ensures forall a, b :: 0 <= a < b < |walk| ==> SameOwner(states[n].times, walk[a], walk[b])
  {
    hide Apply, Enabled, SameOwner;
    forall a, b | 0 <= a < b < |walk|
      ensures walk[a] < walk[b] && SameOwner(states[n].times, walk[a], walk[b])
    {
      TimeWalkPair(states, steps, n, moments, walk, a, b);
    }
  }

  lemma PlanWalkAmongWriters(states: seq<State>, steps: seq<Step>, n: nat, moments: seq<nat>, walk: seq<nat>)
    requires IsRun(states, steps) && n <= |steps| && PlanWalk(states, n, moments, walk)
    ensures Chains.Increasing(walk)
    ensures forall a, b :: 0 <= a < b < |walk| ==> SameIssue(states[n].plans, walk[a], walk[b])
  {
    hide Apply, Enabled, SameIssue;
    forall a, b | 0 <= a < b < |walk|
      ensures walk[a] < walk[b] && SameIssue(states[n].plans, walk[a], walk[b])
    {
      PlanWalkPair(states, steps, n, moments, walk, a, b);
    }
  }
}
