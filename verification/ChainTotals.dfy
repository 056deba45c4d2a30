/** Adding up a table along its chains: when only rows without a pointer carry a value, the
    values sum to what the chains' last rows carry. */
module ChainTotals {
  import opened Options
  import opened Chains

  function Sum(s: seq<int>): int {
    if s == [] then 0 else s[0] + Sum(s[1..])
  }

  lemma {:induction false} SumUpdate(s: seq<int>, i: nat, v: int)
    requires i < |s|
    ensures Sum(s[i := v]) == Sum(s) - s[i] + v
  {
    if i == 0 {
      assert s[0 := v][1..] == s[1..];
    } else {
      assert s[i := v][1..] == s[1..][i - 1 := v];
      SumUpdate(s[1..], i - 1, v);
    }
  }

  lemma {:induction false} SumZeros(s: seq<int>)
    requires forall i :: 0 <= i < |s| ==> s[i] == 0
    ensures Sum(s) == 0
  {
    if s == [] {
    } else {
      SumZeros(s[1..]);
    }
  }

  /** The last row the forward walk from i meets. */
  ghost function EndOf(L: Links, i: nat): (e: nat)
    requires WellLinked(L) && Present(L, i)
    ensures Present(L, e) && L[e].next.None?
    decreases |L| - i
  {
    match L[i].next
    case None => i
    case Some(j) => assert PointsTo(L, i, j); EndOf(L, j)
  }

  lemma {:induction false} EndIsLast(L: Links, i: nat)
    requires WellLinked(L) && Present(L, i)
    ensures EndOf(L, i) == Forward(L, i)[|Forward(L, i)| - 1]
    decreases |L| - i
  {
    if L[i].next.Some? {
      assert PointsTo(L, i, L[i].next.value);
      EndIsLast(L, L[i].next.value);
    }
  }

  /** i heads a chain as far as the rows from k on can tell. */
  ghost predicate RootFrom(L: Links, k: nat, i: nat) {
    k <= i && Present(L, i) && forall p :: k <= p ==> !PointsTo(L, p, i)
  }

  /** Per row: what its chain's last row carries if the row heads a chain, else nothing. */
  ghost function Ends(L: Links, values: seq<int>, k: nat): (s: seq<int>)
    requires WellLinked(L) && |values| == |L|
    ensures |s| == |L|
  {
    seq(|L|, i requires 0 <= i < |L| => if RootFrom(L, k, i) then values[EndOf(L, i)] else 0)
  }

  predicate OnlyEndsCarry(L: Links, values: seq<int>) {
    && |values| == |L|
    && forall i :: 0 <= i < |L| && (!Present(L, i) || L[i].next.Some?) ==> values[i] == 0
  }

  lemma EndsStep(L: Links, values: seq<int>, k: nat)
    requires WellLinked(L) && OnlyEndsCarry(L, values) && k < |L|
    ensures Sum(Ends(L, values, k)) == values[k] + Sum(Ends(L, values, k + 1))
  {
    var here, later := Ends(L, values, k), Ends(L, values, k + 1);
    assert forall i: nat :: RootFrom(L, k, i) ==> i == k || RootFrom(L, k + 1, i);
    forall i: nat | RootFrom(L, k + 1, i) && !PointsTo(L, k, i)
      ensures RootFrom(L, k, i)
    {
    }
    assert later[k] == 0;
    if !Present(L, k) {
      assert here == later;
    } else {
      assert RootFrom(L, k, k);
      match L[k].next
      case None =>
        assert here == later[k := values[k]];
        SumUpdate(later, k, values[k]);
      case Some(j) =>
        assert PointsTo(L, k, j) && RootFrom(L, k + 1, j) && !RootFrom(L, k, j);
        var added := later[k := values[EndOf(L, j)]];
        assert here == added[j := 0];
        SumUpdate(later, k, values[EndOf(L, j)]);
        SumUpdate(added, j, 0);
    }
  }

  lemma {:induction false} EndsFrom(L: Links, values: seq<int>, k: nat)
    requires WellLinked(L) && OnlyEndsCarry(L, values) && k <= |L|
    ensures Sum(Ends(L, values, k)) == Sum(values[k..])
    decreases |L| - k
  {
    if k == |L| {
      SumZeros(Ends(L, values, k));
    } else {
      EndsStep(L, values, k);
      EndsFrom(L, values, k + 1);
      assert values[k..][1..] == values[k + 1..];
    }
  }

  /** Summed over all chains, the last rows carry everything. */
  lemma ChainsCarryAll(L: Links, values: seq<int>)
    requires WellLinked(L) && OnlyEndsCarry(L, values)
    ensures Sum(seq(|L|, i requires 0 <= i < |L| => if IsRoot(L, i) then values[EndOf(L, i)] else 0)) == Sum(values)
  {
    EndsFrom(L, values, 0);
    assert values[0..] == values;
    assert forall i :: 0 <= i < |L| ==> (RootFrom(L, 0, i) <==> IsRoot(L, i));
    assert Ends(L, values, 0) == seq(|L|, i requires 0 <= i < |L| => if IsRoot(L, i) then values[EndOf(L, i)] else 0);
  }
}
