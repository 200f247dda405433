/**
 The consistent-hash ring: building the vnode table, finding a position on it, and walking it for
 replicas; and the simple preference list that the walk refines.
 */
module HashRing {
  import opened Entities

  datatype VNode = VNode(position: nat, node: NodeId)

  const VIRTUAL_NODES: nat := 128

  /** Where the hash puts vnode i of a node: an uninterpreted function of both. */
  type Placement = (NodeId, nat) -> nat

  // ---------------------------------------------------------------- sequences

  function Filter<T>(s: seq<T>, p: T -> bool): seq<T> {
    if s == [] then []
    else Filter(s[..|s| - 1], p) + if p(s[|s| - 1]) then [s[|s| - 1]] else []
  }

  function Nodes(s: seq<VNode>): (r: seq<NodeId>)
    ensures |r| == |s| && forall i :: 0 <= i < |s| ==> r[i] == s[i].node
  {
    seq(|s|, i requires 0 <= i < |s| => s[i].node)
  }

  /** Each element once, where it first occurs. */
  function Distinct(s: seq<NodeId>): seq<NodeId> {
    if s == [] then []
    else Distinct(s[..|s| - 1]) + if s[|s| - 1] in s[..|s| - 1] then [] else [s[|s| - 1]]
  }

  function Take<T>(n: int, s: seq<T>): seq<T> {
    if n <= 0 then [] else if |s| <= n then s else s[..n]
  }

  lemma FilterSnoc<T>(s: seq<T>, x: T, p: T -> bool)
    ensures Filter(s + [x], p) == Filter(s, p) + if p(x) then [x] else []
  {
    assert (s + [x])[..|s|] == s;
  }

  lemma {:induction false} FilterAppend<T>(a: seq<T>, b: seq<T>, p: T -> bool)
    ensures Filter(a + b, p) == Filter(a, p) + Filter(b, p)
  {
    if b == [] {
      assert a + b == a;
    } else {
      var c, x := b[..|b| - 1], b[|b| - 1];
      assert a + b == (a + c) + [x];
      FilterSnoc(a + c, x, p);
      FilterAppend(a, c, p);
    }
  }

  lemma {:induction false} FilterMembers<T>(s: seq<T>, p: T -> bool)
    ensures forall x :: x in Filter(s, p) <==> x in s && p(x)
  {
    if s != [] {
      FilterMembers(s[..|s| - 1], p);
      assert s == s[..|s| - 1] + [s[|s| - 1]];
    }
  }

  lemma {:induction false} FilterCommutes<T>(s: seq<T>, p: T -> bool, q: T -> bool)
    ensures Filter(Filter(s, p), q) == Filter(Filter(s, q), p)
  {
    if s != [] {
      var t, x := s[..|s| - 1], s[|s| - 1];
      FilterCommutes(t, p, q);
      assert Filter(s, p) == if p(x) then Filter(t, p) + [x] else Filter(t, p);
      assert Filter(s, q) == if q(x) then Filter(t, q) + [x] else Filter(t, q);
      FilterSnoc(Filter(t, p), x, q);
      FilterSnoc(Filter(t, q), x, p);
    }
  }

  /** Filtering by p already drops what q drops. */
  lemma {:induction false} FilterAbsorbs<T>(s: seq<T>, p: T -> bool, q: T -> bool)
    requires forall x :: x in s && p(x) ==> q(x)
    ensures Filter(Filter(s, q), p) == Filter(s, p)
  {
    if s != [] {
      var t, x := s[..|s| - 1], s[|s| - 1];
      assert s == t + [x];
      FilterAbsorbs(t, p, q);
      assert Filter(s, q) == if q(x) then Filter(t, q) + [x] else Filter(t, q);
      FilterSnoc(Filter(t, q), x, p);
    }
  }

  lemma {:induction false} FilterAll<T>(s: seq<T>, p: T -> bool)
    requires forall x :: x in s ==> p(x)
    ensures Filter(s, p) == s
  {
    if s != [] {
      assert s == s[..|s| - 1] + [s[|s| - 1]];
      FilterAll(s[..|s| - 1], p);
    }
  }

  lemma {:induction false} FilterNone<T>(s: seq<T>, p: T -> bool)
    requires forall x :: x in s ==> !p(x)
    ensures Filter(s, p) == []
  {
    if s != [] {
      assert s == s[..|s| - 1] + [s[|s| - 1]];
      FilterNone(s[..|s| - 1], p);
    }
  }

  lemma {:induction false} DistinctMembers(s: seq<NodeId>)
    ensures forall x :: x in Distinct(s) <==> x in s
    ensures forall i, j :: 0 <= i < j < |Distinct(s)| ==> Distinct(s)[i] != Distinct(s)[j]
  {
    if s != [] {
      assert s == s[..|s| - 1] + [s[|s| - 1]];
      DistinctMembers(s[..|s| - 1]);
    }
  }

  lemma {:induction false} DistinctOfFilter(s: seq<NodeId>, p: NodeId -> bool)
    ensures Distinct(Filter(s, p)) == Filter(Distinct(s), p)
  {
    if s != [] {
      var t, x := s[..|s| - 1], s[|s| - 1];
      DistinctOfFilter(t, p);
      FilterMembers(t, p);
      var f := Filter(t, p);
      assert Filter(s, p) == if p(x) then f + [x] else f;
      assert (f + [x])[..|f|] == f;
      assert Distinct(s) == if x in t then Distinct(t) else Distinct(t) + [x];
      if x !in t { FilterSnoc(Distinct(t), x, p); }
    }
  }

  /** Predicates on vnodes and nodes, named so that the same term stands for the same filter. */
  function OfNode(p: NodeId -> bool): VNode -> bool { (v: VNode) => p(v.node) }
  function Other(x: NodeId): NodeId -> bool { (y: NodeId) => y != x }
  function AtOrAfter(h: nat): VNode -> bool { (v: VNode) => v.position >= h }
  function Before(h: nat): VNode -> bool { (v: VNode) => v.position < h }

  lemma {:induction false} NodesOfFilter(s: seq<VNode>, p: NodeId -> bool)
    ensures Nodes(Filter(s, OfNode(p))) == Filter(Nodes(s), p)
  {
    if s != [] {
      var t, x := s[..|s| - 1], s[|s| - 1];
      NodesOfFilter(t, p);
      assert Nodes(s) == Nodes(t) + [x.node];
      FilterSnoc(Nodes(t), x.node, p);
      var f := Filter(t, OfNode(p));
      assert Filter(s, OfNode(p)) == if p(x.node) then f + [x] else f;
      assert Nodes(f + [x]) == Nodes(f) + [x.node];
    }
  }

  // ---------------------------------------------------------------- building

  function VNodesOf(id: NodeId, place: Placement, k: nat): (s: seq<VNode>)
    ensures |s| == k && forall i :: 0 <= i < k ==> s[i] == VNode(place(id, i), id)
  {
    seq(k, i requires 0 <= i < k => VNode(place(id, i), id))
  }

  /** The vnodes in the order the loops of BuildRing append them. */
  function Table(ids: seq<NodeId>, place: Placement): seq<VNode> {
    if ids == [] then [] else Table(ids[..|ids| - 1], place) + VNodesOf(ids[|ids| - 1], place, VIRTUAL_NODES)
  }

  predicate Sorted(v: seq<VNode>) {
    forall i, j :: 0 <= i < j < |v| ==> v[i].position <= v[j].position
  }

  /** Any sorted permutation: sort.Slice is not stable and promises no more. */
  predicate IsRing(v: seq<VNode>, ids: seq<NodeId>, place: Placement) {
    Sorted(v) && multiset(v) == multiset(Table(ids, place))
  }

  function Insert(v: seq<VNode>, x: VNode): (r: seq<VNode>)
    ensures forall y :: y in r ==> y == x || y in v
    ensures multiset(r) == multiset(v) + multiset{x}
  {
    if v == [] then [x]
    else if x.position <= v[0].position then [x] + v
    else
      assert v == [v[0]] + v[1..];
      [v[0]] + Insert(v[1..], x)
  }

  lemma {:induction false} InsertSorts(v: seq<VNode>, x: VNode)
    requires Sorted(v)
    ensures Sorted(Insert(v, x))
  {
    if v != [] && x.position > v[0].position {
      InsertSorts(v[1..], x);
      assert forall y :: y in Insert(v[1..], x) ==> v[0].position <= y.position;
    }
  }

  function SortByPosition(v: seq<VNode>): (r: seq<VNode>)
    ensures Sorted(r) && multiset(r) == multiset(v)
  {
    if v == [] then []
    else
      assert v == v[..|v| - 1] + [v[|v| - 1]];
      var r := SortByPosition(v[..|v| - 1]);
      InsertSorts(r, v[|v| - 1]);
      Insert(r, v[|v| - 1])
  }

  method BuildRing(ids: seq<NodeId>, place: Placement) returns (vnodes: seq<VNode>)
    ensures IsRing(vnodes, ids, place) && |vnodes| == 128 * |ids|
  {
    vnodes := [];
    for k := 0 to |ids|
      invariant vnodes == Table(ids[..k], place) && |vnodes| == 128 * k
    {
      var id := ids[k];
      ghost var before := vnodes;
      for i := 0 to VIRTUAL_NODES
        invariant vnodes == before + VNodesOf(id, place, i)
      {
        vnodes := vnodes + [VNode(place(id, i), id)];
        assert VNodesOf(id, place, i + 1) == VNodesOf(id, place, i) + [VNode(place(id, i), id)];
      }
      assert ids[..k + 1][..k] == ids[..k];
    }
    assert ids[..|ids|] == ids;
    ghost var table := vnodes;
    vnodes := SortByPosition(vnodes);
    assert |vnodes| == |multiset(vnodes)| == |multiset(table)|;
  }

  // ---------------------------------------------------------------- walking

  /** Clockwise from h: the vnodes at or after h, then the rest. */
  function Clockwise(v: seq<VNode>, h: nat): seq<VNode> {
    Filter(v, AtOrAfter(h)) + Filter(v, Before(h))
  }

  /** The preference list of a key: every node once, in clockwise order of first vnode. */
  function Preference(v: seq<VNode>, h: nat): seq<NodeId> {
    Distinct(Nodes(Clockwise(v, h)))
  }

  datatype Error = NoNodes | InsufficientHealthyNodes
  datatype Selection = Selection(nodes: seq<NodeId>, error: set<Error>)

  /** The simple form: the first n healthy entries of the preference list. */
  function Select(v: seq<VNode>, h: nat, n: int, healthy: NodeId -> bool): Selection {
    if v == [] then Selection([], {NoNodes})
    else
      var out := Take(n, Filter(Preference(v, h), healthy));
      Selection(out, if |out| < n then {InsufficientHealthyNodes} else {})
  }

  /** sort.Search over the table, wrapping to 0. */
  method Search(v: seq<VNode>, h: nat) returns (start: nat)
    requires Sorted(v) && |v| > 0
    ensures start < |v| && Clockwise(v, h) == v[start..] + v[..start]
    ensures forall i :: 0 <= i < start ==> v[i].position < h
    ensures v[start].position >= h || (start == 0 && forall i :: 0 <= i < |v| ==> v[i].position < h)
  {
    hide Clockwise;
    var lo, hi := 0, |v|;
    while lo < hi
      invariant 0 <= lo <= hi <= |v|
      invariant forall i :: 0 <= i < lo ==> v[i].position < h
      invariant forall i :: hi <= i < |v| ==> v[i].position >= h
    {
      var mid := (lo + hi) / 2;
      if v[mid].position >= h { hi := mid; } else { lo := mid + 1; }
    }
    ClockwiseIsRotation(v, h, lo);
    start := if lo == |v| then 0 else lo;
    assert v[|v|..] + v[..|v|] == v[0..] + v[..0];
  }

  lemma ClockwiseIsRotation(v: seq<VNode>, h: nat, k: nat)
    requires k <= |v|
    requires forall i :: 0 <= i < k ==> v[i].position < h
    requires forall i :: k <= i < |v| ==> v[i].position >= h
    ensures Clockwise(v, h) == v[k..] + v[..k]
  {
    var low, high := v[..k], v[k..];
    assert v == low + high;
    forall x | x in low ensures x.position < h {}
    forall x | x in high ensures x.position >= h {
      var i :| 0 <= i < |high| && high[i] == x;
      assert v[k + i] == x;
    }
    SplitAt(low, high, h);
  }

  lemma SplitAt(low: seq<VNode>, high: seq<VNode>, h: nat)
    requires forall x :: x in low ==> x.position < h
    requires forall x :: x in high ==> x.position >= h
    ensures Filter(low + high, AtOrAfter(h)) == high
    ensures Filter(low + high, Before(h)) == low
  {
    FilterAppend(low, high, AtOrAfter(h));
    FilterAppend(low, high, Before(h));
    FilterNone(low, AtOrAfter(h));
    FilterAll(high, AtOrAfter(h));
    FilterAll(low, Before(h));
    FilterNone(high, Before(h));
    assert [] + high == high && low + [] == low;
  }
}
