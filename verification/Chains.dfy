/** Supersede chains, as both entry tables store them: rows that point forward to the row that
    replaced them. Slot i of a table holds the row with id i; `Gap` is an id that was drawn from
    the sequence by an insert that did not commit. */
module Chains {
  import opened Options

  datatype Link = Gap | Linked(next: Option<nat>)

  type Links = seq<Link>

  predicate Present(L: Links, i: int) {
    0 <= i < |L| && L[i].Linked?
  }

  predicate PointsTo(L: Links, i: int, j: int) {
    Present(L, i) && L[i].next.Some? && L[i].next.value == j
  }

  /** Pointers go to present rows with larger ids, and no two rows point at the same one. */
  ghost predicate WellLinked(L: Links) {
    && (forall i, j :: PointsTo(L, i, j) ==> i < j && Present(L, j))
    && (forall i, k, j :: PointsTo(L, i, j) && PointsTo(L, k, j) ==> i == k)
  }

  // ---- what the two walks compute ------------------------------------------------

  ghost predicate IsRoot(L: Links, i: int) {
    Present(L, i) && forall p :: !PointsTo(L, p, i)
  }

  /** The walk back: follow "who points at me" until nobody does. */
  ghost function Root(L: Links, i: nat): (r: nat)
    requires WellLinked(L) && Present(L, i)
    ensures r <= i && IsRoot(L, r)
    decreases i
  {
    if p: nat :| PointsTo(L, p, i) then Root(L, p)
    else
      assert forall p :: !PointsTo(L, p, i);
      i
  }

  /** The walk forward: the ids met from i on. */
  ghost function Forward(L: Links, i: nat): (c: seq<nat>)
    requires WellLinked(L) && Present(L, i)
    ensures c != [] && c[0] == i
    decreases |L| - i
  {
    match L[i].next
    case None => [i]
    case Some(j) => assert PointsTo(L, i, j); [i] + Forward(L, j)
  }

  /** The walk from a row with a pointer is the row, then the walk from the row it points at. */
  lemma PointerForward(L: Links, i: nat, next: nat)
    requires WellLinked(L) && PointsTo(L, i, next)
    ensures i < next && Present(L, next)
    ensures Forward(L, i) == [i] + Forward(L, next)
  {
  }

  /** The whole chain of a row; empty for an id without a row. */
  ghost function Chain(L: Links, id: int): seq<nat>
    requires WellLinked(L)
  {
    if Present(L, id) then Forward(L, Root(L, id)) else []
  }

  // ---- what a chain is, independently of the walks ---------------------------------

  /** A maximal run of pointers: nobody points at its first row, each row points at the next
      one, and the last points nowhere. */
  ghost predicate IsChain(L: Links, c: seq<nat>) {
    && c != []
    && (forall k :: 0 <= k < |c| ==> Present(L, c[k]))
    && (forall k :: 0 <= k < |c| - 1 ==> PointsTo(L, c[k], c[k + 1]))
    && IsRoot(L, c[0])
    && L[c[|c| - 1]].next.None?
  }

  predicate Increasing(c: seq<nat>) {
    forall a, b :: 0 <= a < b < |c| ==> c[a] < c[b]
  }

  lemma {:induction false} ForwardShape(L: Links, i: nat)
    requires WellLinked(L) && Present(L, i)
    ensures var c := Forward(L, i);
      && (forall k :: 0 <= k < |c| ==> Present(L, c[k]))
      && (forall k :: 0 <= k < |c| - 1 ==> PointsTo(L, c[k], c[k + 1]))
      && L[c[|c| - 1]].next.None?
      && Increasing(c)
    decreases |L| - i
  {
    if L[i].next.Some? {
      var j := L[i].next.value;
      assert PointsTo(L, i, j);
      ForwardShape(L, j);
      var c, d := Forward(L, i), Forward(L, j);
      assert forall k :: 1 <= k < |c| ==> c[k] == d[k - 1];
      assert forall k :: 0 <= k < |d| ==> i < d[k] by {
        assert forall k :: 0 < k < |d| ==> d[0] < d[k];
      }
    }
  }

  /** The forward walk from a row's root comes past the row. */
  lemma {:induction false} RootReaches(L: Links, i: nat)
    requires WellLinked(L) && Present(L, i)
    ensures i in Forward(L, Root(L, i))
    decreases i
  {
    if p: nat :| PointsTo(L, p, i) {
      RootReaches(L, p);
      OneFurther(L, Root(L, p), p, i);
      RootUnique(L, p, i);
    }
  }

  lemma RootUnique(L: Links, p: nat, i: nat)
    requires WellLinked(L) && Present(L, i) && PointsTo(L, p, i)
    ensures Root(L, i) == Root(L, p)
  {
  }

  /** A walk that meets p also meets the row p points at. */
  lemma {:induction false} OneFurther(L: Links, start: nat, p: nat, i: nat)
    requires WellLinked(L) && Present(L, start) && p in Forward(L, start) && PointsTo(L, p, i)
    ensures i in Forward(L, start)
  {
    ForwardShape(L, start);
    var c := Forward(L, start);
    var k :| 0 <= k < |c| && c[k] == p;
    assert k < |c| - 1;
    assert PointsTo(L, c[k], c[k + 1]);
  }

  /** The result of the two walks is a chain that contains the row asked for, in strictly
      increasing id order. */
  lemma ChainIsChain(L: Links, id: nat)
    requires WellLinked(L) && Present(L, id)
    ensures IsChain(L, Chain(L, id)) && id in Chain(L, id) && Increasing(Chain(L, id))
  {
    ForwardShape(L, Root(L, id));
    RootReaches(L, id);
  }

  /** Two chains that share a row start alike: step back from the shared row in both. */
  lemma {:induction false} SharedRowSameOffset(L: Links, c: seq<nat>, d: seq<nat>, a: nat, b: nat)
    requires WellLinked(L) && IsChain(L, c) && IsChain(L, d)
    requires a < |c| && b < |d| && c[a] == d[b]
    ensures a == b && c[0] == d[0]
    decreases a
  {
    assert a > 0 ==> PointsTo(L, c[a - 1], c[a]);
    assert b > 0 ==> PointsTo(L, d[b - 1], d[b]);
    if a > 0 && b > 0 {
      SharedRowSameOffset(L, c, d, a - 1, b - 1);
    }
  }

  lemma {:induction false} SameStartSameChain(L: Links, c: seq<nat>, d: seq<nat>, k: nat)
    requires WellLinked(L) && IsChain(L, c) && IsChain(L, d) && c[0] == d[0]
    requires k <= |c| && k <= |d| && c[..k] == d[..k] && k > 0
    ensures c == d
    decreases |c| - k
  {
    assert c[k - 1] == c[..k][k - 1] == d[k - 1];
    assert k < |c| ==> PointsTo(L, c[k - 1], c[k]);
    assert k < |d| ==> PointsTo(L, d[k - 1], d[k]);
    if k < |c| {
      assert c[..k + 1] == c[..k] + [c[k]] && d[..k + 1] == d[..k] + [d[k]];
      SameStartSameChain(L, c, d, k + 1);
    } else {
      assert c == c[..k] && d == d[..k];
    }
  }

  /** Chains partition the rows: two that share a row are the same sequence. */
  lemma ChainsPartition(L: Links, c: seq<nat>, d: seq<nat>, row: nat)
    requires WellLinked(L) && IsChain(L, c) && IsChain(L, d) && row in c && row in d
    ensures c == d
  {
    var a :| 0 <= a < |c| && c[a] == row;
    var b :| 0 <= b < |d| && d[b] == row;
    SharedRowSameOffset(L, c, d, a, b);
    assert c[..1] == [c[0]] && d[..1] == [d[0]];
    SameStartSameChain(L, c, d, 1);
  }

  /** The walks return the one and only chain through the row asked for, whichever of its rows
      that is; an id without a row gives the empty sequence. */
  lemma ChainCharacterised(L: Links, id: int)
    requires WellLinked(L)
    ensures Present(L, id) ==> IsChain(L, Chain(L, id)) && Increasing(Chain(L, id)) && id in Chain(L, id)
    ensures forall c :: IsChain(L, c) && id in c ==> c == Chain(L, id)
    ensures Chain(L, id) == [] <==> !Present(L, id)
    ensures forall member :: member in Chain(L, id) ==> Chain(L, member) == Chain(L, id)
  {
    if Present(L, id) {
      ChainIsChain(L, id);
      forall c | IsChain(L, c) && id in c
        ensures c == Chain(L, id)
      {
        ChainsPartition(L, c, Chain(L, id), id);
      }
      forall member | member in Chain(L, id)
        ensures Chain(L, member) == Chain(L, id)
      {
        ChainIsChain(L, member);
        ChainsPartition(L, Chain(L, member), Chain(L, id), member);
      }
    }
  }

  /** Two rows have the same chain or disjoint ones. */
  lemma ChainsEqualOrDisjoint(L: Links, i: int, j: int)
    requires WellLinked(L)
    ensures Chain(L, i) == Chain(L, j) || forall row :: row in Chain(L, i) ==> row !in Chain(L, j)
  {
    if row :| row in Chain(L, i) && row in Chain(L, j) {
      ChainCharacterised(L, i);
      ChainCharacterised(L, j);
    }
  }
}
