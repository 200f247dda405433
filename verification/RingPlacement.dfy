/**
 Replica placement: the walk with its seen-set refines the preference list; a node that is down
 is skipped exactly as if the ring had been rebuilt without it.
 */
module RingPlacement {
  import opened Entities
  import opened HashRing

  // ---------------------------------------------------------------- the walk refines the list

  /** SelectReplicas: one pass over the table with a seen-set, stopping at n. */
  method SelectReplicas(v: seq<VNode>, h: nat, n: int, healthy: NodeId -> bool) returns (r: Selection)
    requires Sorted(v)
    ensures r == Select(v, h, n, healthy)
  {
    hide Clockwise, Filter, Distinct;
    if |v| == 0 { return Selection([], {NoNodes}); }
    var start := Search(v, h);
    ghost var walk := v[start..] + v[..start];
    ghost var order := Nodes(walk);
    var seen: set<NodeId> := {};
    var out: seq<NodeId> := [];
    var i := 0;
    WalkStart(healthy);
    assert order[..0] == [];
    while i < |v| && |out| < n
      invariant 0 <= i <= |v| && |order| == |v|
      invariant forall x :: x in seen <==> x in order[..i]
      invariant out == Filter(Distinct(order[..i]), healthy)
      invariant n > 0 ==> |out| <= n
      invariant n <= 0 ==> i == 0
    {
      var vn := v[(start + i) % |v|];
      WalkAt(v, start, i);
      assert order[..i + 1] == order[..i] + [vn.node];
      WalkStep(order[..i], vn.node, healthy);
      if vn.node !in seen {
        seen := seen + {vn.node};
        if healthy(vn.node) { out := out + [vn.node]; }
      }
      i := i + 1;
    }
    WalkEnd(order, i, n, healthy);
    if |out| < n { return Selection(out, {InsufficientHealthyNodes}); }
    return Selection(out, {});
  }

  lemma WalkStart(healthy: NodeId -> bool)
    ensures Filter(Distinct([]), healthy) == []
  {
  }

  lemma WalkAt(v: seq<VNode>, start: nat, i: nat)
    requires start < |v| && i < |v|
    ensures (v[start..] + v[..start])[i] == v[(start + i) % |v|]
  {
    if start + i < |v| {
      assert (start + i) % |v| == start + i;
    } else {
      assert (start + i) % |v| == start + i - |v|;
    }
  }

  lemma WalkStep(done: seq<NodeId>, x: NodeId, healthy: NodeId -> bool)
    ensures Filter(Distinct(done + [x]), healthy) ==
      Filter(Distinct(done), healthy) + if x !in done && healthy(x) then [x] else []
  {
    assert (done + [x])[..|done|] == done;
    assert Distinct(done + [x]) == if x in done then Distinct(done) else Distinct(done) + [x];
    if x !in done { FilterSnoc(Distinct(done), x, healthy); }
  }

  /** Walking on only appends. */
  lemma {:induction false} WalkGrows(order: seq<NodeId>, i: nat, healthy: NodeId -> bool)
    requires i <= |order|
    ensures Filter(Distinct(order[..i]), healthy) <= Filter(Distinct(order), healthy)
    decreases |order| - i
  {
    if i == |order| {
      assert order[..i] == order;
    } else {
      assert order[..i + 1] == order[..i] + [order[i]];
      WalkStep(order[..i], order[i], healthy);
      WalkGrows(order, i + 1, healthy);
    }
  }

  lemma WalkEnd(order: seq<NodeId>, i: nat, n: int, healthy: NodeId -> bool)
    requires i <= |order|
    requires i == |order| || |Filter(Distinct(order[..i]), healthy)| >= n
    requires n > 0 ==> |Filter(Distinct(order[..i]), healthy)| <= n
    requires n <= 0 ==> i == 0
    ensures Filter(Distinct(order[..i]), healthy) == Take(n, Filter(Distinct(order), healthy))
  {
    WalkGrows(order, i, healthy);
    WalkStart(healthy);
    if i == |order| { assert order[..i] == order; }
    if i == 0 { assert order[..0] == []; }
  }

  // ---------------------------------------------------------------- who is on the list

  lemma {:induction false} TableMembers(ids: seq<NodeId>, place: Placement, x: VNode)
    ensures x in Table(ids, place) <==>
      x.node in ids && exists i :: 0 <= i < VIRTUAL_NODES && x == VNode(place(x.node, i), x.node)
  {
    if ids != [] {
      var front, last := ids[..|ids| - 1], ids[|ids| - 1];
      assert ids == front + [last];
      TableMembers(front, place, x);
    }
  }

  lemma RingMembers(v: seq<VNode>, ids: seq<NodeId>, place: Placement, x: VNode)
    requires IsRing(v, ids, place)
    ensures x in v <==> x in Table(ids, place)
  {
    assert x in v <==> x in multiset(v);
    assert x in Table(ids, place) <==> x in multiset(Table(ids, place));
  }

  /** Every listed node is on the preference list, exactly once, and nothing else is. */
  lemma PreferenceIsEveryNodeOnce(v: seq<VNode>, ids: seq<NodeId>, place: Placement, h: nat)
    requires IsRing(v, ids, place)
    ensures forall x :: x in Preference(v, h) <==> x in ids
    ensures forall i, j :: 0 <= i < j < |Preference(v, h)| ==> Preference(v, h)[i] != Preference(v, h)[j]
  {
    var c := Clockwise(v, h);
    FilterMembers(v, AtOrAfter(h));
    FilterMembers(v, Before(h));
    DistinctMembers(Nodes(c));
    forall x ensures x in Preference(v, h) <==> x in ids {
      if x in ids {
        var w := VNode(place(x, 0), x);
        TableMembers(ids, place, w);
        RingMembers(v, ids, place, w);
        assert w in c;
        var i :| 0 <= i < |c| && c[i] == w;
        assert Nodes(c)[i] == x;
      }
      if x in Preference(v, h) {
        var i :| 0 <= i < |Nodes(c)| && Nodes(c)[i] == x;
        assert c[i] in c;
        TableMembers(ids, place, c[i]);
        RingMembers(v, ids, place, c[i]);
      }
    }
  }

  /** Clockwise from h, w comes no later than u: it is at or after h and u before h, or they are on the same
      side and w's position is no greater. */
  predicate NoLater(h: nat, w: VNode, u: VNode) {
    if w.position >= h then u.position < h || w.position <= u.position
    else u.position < h && w.position <= u.position
  }

  predicate NoLaterThanAny(h: nat, w: VNode, v: seq<VNode>, y: NodeId) {
    forall u :: u in v && u.node == y ==> NoLater(h, w, u)
  }

  /** The preference list is by distance: of two nodes on it, the earlier has a vnode that comes, clockwise
      from the key, no later than any vnode of the other. */
  lemma NearestFirst(v: seq<VNode>, h: nat, i: nat, j: nat)
    requires Sorted(v) && i < j < |Preference(v, h)|
    ensures exists w :: w in v && w.node == Preference(v, h)[i] && NoLaterThanAny(h, w, v, Preference(v, h)[j])
  {
    var c := Clockwise(v, h);
    ClockwiseOrder(v, h);
    var k := FirstOccurrence(Nodes(c), i, j);
    assert c[k] in c;
    forall u | u in v && u.node == Preference(v, h)[j] ensures NoLater(h, c[k], u) {
      assert u in c;
      var m :| 0 <= m < |c| && c[m] == u;
      assert Nodes(c)[m] == u.node;
    }
    assert NoLaterThanAny(h, c[k], v, Preference(v, h)[j]);
  }

  lemma ClockwiseOrder(v: seq<VNode>, h: nat)
    requires Sorted(v)
    ensures forall x :: x in Clockwise(v, h) <==> x in v
    ensures forall k, m :: 0 <= k < m < |Clockwise(v, h)| ==> NoLater(h, Clockwise(v, h)[k], Clockwise(v, h)[m])
  {
    FilterMembers(v, AtOrAfter(h));
    FilterMembers(v, Before(h));
    FilterKeepsSorted(v, AtOrAfter(h));
    FilterKeepsSorted(v, Before(h));
    var high, low := Filter(v, AtOrAfter(h)), Filter(v, Before(h));
    forall k | 0 <= k < |high| ensures high[k].position >= h { assert high[k] in high; }
    forall k | 0 <= k < |low| ensures low[k].position < h { assert low[k] in low; }
  }

  /** Where the earlier of two nodes first occurs is before every occurrence of the later one. */
  lemma {:induction false} FirstOccurrence(s: seq<NodeId>, i: nat, j: nat) returns (k: nat)
    requires i < j < |Distinct(s)|
    ensures k < |s| && s[k] == Distinct(s)[i]
    ensures forall m :: 0 <= m < |s| && s[m] == Distinct(s)[j] ==> k < m
  {
    var t, x := s[..|s| - 1], s[|s| - 1];
    DistinctMembers(t);
    if j < |Distinct(t)| {
      k := FirstOccurrence(t, i, j);
      assert forall m :: 0 <= m < |t| ==> t[m] == s[m];
    } else {
      assert Distinct(t)[i] in t;
      k :| 0 <= k < |t| && t[k] == Distinct(t)[i];
      assert forall m :: 0 <= m < |t| ==> s[m] == t[m] && t[m] in t;
    }
  }

  lemma {:induction false} FilterKeepsOnce(s: seq<NodeId>, p: NodeId -> bool)
    requires forall i, j :: 0 <= i < j < |s| ==> s[i] != s[j]
    ensures forall i, j :: 0 <= i < j < |Filter(s, p)| ==> Filter(s, p)[i] != Filter(s, p)[j]
  {
    if s != [] {
      FilterKeepsOnce(s[..|s| - 1], p);
      FilterMembers(s[..|s| - 1], p);
    }
  }

  lemma {:induction false} LengthIsSize(s: seq<NodeId>, members: set<NodeId>)
    requires forall i, j :: 0 <= i < j < |s| ==> s[i] != s[j]
    requires forall x :: x in s <==> x in members
    ensures |s| == |members|
  {
    if s == [] {
      assert members == {};
    } else {
      var x := s[|s| - 1];
      assert s == s[..|s| - 1] + [x];
      LengthIsSize(s[..|s| - 1], members - {x});
    }
  }

  function HealthyNodes(ids: seq<NodeId>, healthy: NodeId -> bool): set<NodeId> {
    set x | x in ids && healthy(x)
  }

  lemma CandidateCount(v: seq<VNode>, ids: seq<NodeId>, place: Placement, h: nat, healthy: NodeId -> bool)
    requires IsRing(v, ids, place)
    ensures |Filter(Preference(v, h), healthy)| == |HealthyNodes(ids, healthy)|
  {
    PreferenceIsEveryNodeOnce(v, ids, place, h);
    FilterKeepsOnce(Preference(v, h), healthy);
    FilterMembers(Preference(v, h), healthy);
    LengthIsSize(Filter(Preference(v, h), healthy), HealthyNodes(ids, healthy));
  }

  /** Selection fails exactly when fewer than n of the listed nodes are healthy, and then it still
      returns all of those. */
  lemma ErrsIffTooFew(v: seq<VNode>, ids: seq<NodeId>, place: Placement, h: nat, n: nat, healthy: NodeId -> bool)
    requires IsRing(v, ids, place) && v != []
    ensures Select(v, h, n, healthy).error != {} <==> |HealthyNodes(ids, healthy)| < n
    ensures forall x :: x in Select(v, h, n, healthy).nodes ==> x in ids && healthy(x)
    ensures |HealthyNodes(ids, healthy)| < n ==> forall x :: x in ids && healthy(x) ==>
      x in Select(v, h, n, healthy).nodes
  {
    CandidateCount(v, ids, place, h, healthy);
    PreferenceIsEveryNodeOnce(v, ids, place, h);
    FilterMembers(Preference(v, h), healthy);
  }

  // ---------------------------------------------------------------- failover is a rebuild

  /** No two different nodes share a vnode position. */
  ghost predicate NoSharedPosition(ids: seq<NodeId>, place: Placement) {
    forall a, b, i: nat, j: nat ::
      a in ids && b in ids && i < VIRTUAL_NODES && j < VIRTUAL_NODES && place(a, i) == place(b, j) ==> a == b
  }

  ghost predicate PositionDecides(s: seq<VNode>) {
    forall x, y :: x in s && y in s && x.position == y.position ==> x == y
  }

  lemma TablePositionDecides(ids: seq<NodeId>, place: Placement)
    requires NoSharedPosition(ids, place)
    ensures PositionDecides(Table(ids, place))
  {
    forall x, y | x in Table(ids, place) && y in Table(ids, place) && x.position == y.position ensures x == y {
      TableMembers(ids, place, x);
      TableMembers(ids, place, y);
    }
  }

  /** Then the table has one sorted order, however the sort treats ties. */
  lemma {:induction false} SortedOrderIsUnique(v: seq<VNode>, w: seq<VNode>)
    requires Sorted(v) && Sorted(w) && multiset(v) == multiset(w) && PositionDecides(v)
    ensures v == w
  {
    hide PositionDecides, Sorted;
    assert |v| == |multiset(v)| == |multiset(w)| == |w|;
    if v != [] {
      HeadsAgree(v, w);
      Tail(v);
      Tail(w);
      TailDecides(v);
      SortedOrderIsUnique(v[1..], w[1..]);
      assert v == [v[0]] + v[1..] && w == [w[0]] + w[1..];
    }
  }

  lemma Tail(v: seq<VNode>)
    requires Sorted(v) && v != []
    ensures Sorted(v[1..]) && multiset(v[1..]) == multiset(v) - multiset{v[0]}
  {
    assert v == [v[0]] + v[1..];
  }

  lemma TailDecides(v: seq<VNode>)
    requires PositionDecides(v) && v != []
    ensures PositionDecides(v[1..])
  {
    assert forall x :: x in v[1..] ==> x in v;
  }

  lemma HeadsAgree(v: seq<VNode>, w: seq<VNode>)
    requires Sorted(v) && Sorted(w) && multiset(v) == multiset(w) && PositionDecides(v) && v != [] && w != []
    ensures v[0] == w[0]
  {
    assert v[0] in multiset(w) && w[0] in multiset(v);
    var i :| 0 <= i < |w| && w[i] == v[0];
    var j :| 0 <= j < |v| && v[j] == w[0];
  }

  lemma PositionDecidesPermuted(v: seq<VNode>, w: seq<VNode>)
    requires multiset(v) == multiset(w) && PositionDecides(v)
    ensures PositionDecides(w)
  {
    forall x, y | x in w && y in w && x.position == y.position ensures x == y {
      assert x in multiset(v) && y in multiset(v);
    }
  }

  lemma {:induction false} FilterKeepsSorted(v: seq<VNode>, p: VNode -> bool)
    requires Sorted(v)
    ensures Sorted(Filter(v, p))
  {
    if v != [] {
      var front, last := v[..|v| - 1], v[|v| - 1];
      FilterKeepsSorted(front, p);
      FilterMembers(front, p);
      forall x | x in front ensures x.position <= last.position {
        var i :| 0 <= i < |front| && front[i] == x;
        assert v[i] == x;
      }
    }
  }

  lemma {:induction false} FilterCounts(v: seq<VNode>, p: VNode -> bool, x: VNode)
    ensures multiset(Filter(v, p))[x] == if p(x) then multiset(v)[x] else 0
  {
    if v != [] {
      assert v == v[..|v| - 1] + [v[|v| - 1]];
      FilterCounts(v[..|v| - 1], p, x);
    }
  }

  /** The table of the remaining nodes is the table with x's vnodes filtered out. */
  lemma {:induction false} TableWithout(ids: seq<NodeId>, place: Placement, x: NodeId)
    ensures Table(Filter(ids, Other(x)), place) == Filter(Table(ids, place), OfNode(Other(x)))
  {
    if ids != [] {
      var front, last := ids[..|ids| - 1], ids[|ids| - 1];
      TableWithout(front, place, x);
      var block := VNodesOf(last, place, VIRTUAL_NODES);
      FilterAppend(Table(front, place), block, OfNode(Other(x)));
      var f := Filter(front, Other(x));
      assert Filter(ids, Other(x)) == if last != x then f + [last] else f;
      if last == x {
        FilterNone(block, OfNode(Other(x)));
      } else {
        FilterAll(block, OfNode(Other(x)));
        assert (f + [last])[..|f|] == f;
      }
    }
  }

  lemma RebuiltRing(v: seq<VNode>, w: seq<VNode>, ids: seq<NodeId>, place: Placement, x: NodeId)
    requires IsRing(v, ids, place) && IsRing(w, Filter(ids, Other(x)), place) && NoSharedPosition(ids, place)
    ensures w == Filter(v, OfNode(Other(x)))
  {
    var p := OfNode(Other(x));
    TableWithout(ids, place, x);
    FilterKeepsSorted(v, p);
    forall y ensures multiset(Filter(v, p))[y] == multiset(w)[y] {
      FilterCounts(v, p, y);
      FilterCounts(Table(ids, place), p, y);
    }
    assert multiset(Filter(v, p)) == multiset(w);
    TablePositionDecides(ids, place);
    PositionDecidesPermuted(Table(ids, place), v);
    FilterMembers(v, p);
    SortedOrderIsUnique(Filter(v, p), w);
  }

  lemma PreferenceWithout(v: seq<VNode>, h: nat, x: NodeId)
    ensures Preference(Filter(v, OfNode(Other(x))), h) == Filter(Preference(v, h), Other(x))
  {
    var p := OfNode(Other(x));
    FilterCommutes(v, p, AtOrAfter(h));
    FilterCommutes(v, p, Before(h));
    FilterAppend(Filter(v, AtOrAfter(h)), Filter(v, Before(h)), p);
    assert Clockwise(Filter(v, p), h) == Filter(Clockwise(v, h), p);
    NodesOfFilter(Clockwise(v, h), Other(x));
    DistinctOfFilter(Nodes(Clockwise(v, h)), Other(x));
  }

  /** Skipping a node because it is down gives what rebuilding the ring without it would give:
      the same nodes in the same order, and the same error. */
  lemma {:induction false} FailoverIsRebuild(v: seq<VNode>, w: seq<VNode>, ids: seq<NodeId>, place: Placement,
                                             x: NodeId, h: nat, n: int, healthy: NodeId -> bool)
    requires IsRing(v, ids, place) && IsRing(w, Filter(ids, Other(x)), place) && NoSharedPosition(ids, place)
    requires !healthy(x) && exists y :: y in ids && y != x
    ensures Select(v, h, n, healthy) == Select(w, h, n, healthy)
  {
    RebuiltRing(v, w, ids, place, x);
    PreferenceWithout(v, h, x);
    FilterAbsorbs(Preference(v, h), healthy, Other(x));
    var y :| y in ids && y != x;
    var vy := VNode(place(y, 0), y);
    TableMembers(ids, place, vy);
    RingMembers(v, ids, place, vy);
    FilterMembers(v, OfNode(Other(x)));
    assert vy in w;
  }

  // ---------------------------------------------------------------- the order of the list of nodes

  lemma TableSnoc(ids: seq<NodeId>, x: NodeId, place: Placement)
    ensures Table(ids + [x], place) == Table(ids, place) + VNodesOf(x, place, VIRTUAL_NODES)
  {
    assert (ids + [x])[..|ids|] == ids;
  }

  lemma {:induction false} TableMoveLast(a: seq<NodeId>, x: NodeId, b: seq<NodeId>, place: Placement)
    ensures multiset(Table(a + [x] + b, place)) ==
      multiset(Table(a + b, place)) + multiset(VNodesOf(x, place, VIRTUAL_NODES))
  {
    hide Table, VNodesOf;
    if b == [] {
      assert a + [x] + b == a + [x] && a + b == a;
      TableSnoc(a, x, place);
    } else {
      var c, y := b[..|b| - 1], b[|b| - 1];
      assert a + [x] + b == (a + [x] + c) + [y] && a + b == (a + c) + [y];
      TableSnoc(a + [x] + c, y, place);
      TableSnoc(a + c, y, place);
      TableMoveLast(a, x, c, place);
    }
  }

  lemma {:induction false} TableIgnoresOrder(ids: seq<NodeId>, ids': seq<NodeId>, place: Placement)
    requires multiset(ids) == multiset(ids')
    ensures multiset(Table(ids, place)) == multiset(Table(ids', place))
  {
    if ids == [] {
      assert |multiset(ids')| == 0;
    } else {
      var front, x := ids[..|ids| - 1], ids[|ids| - 1];
      assert ids == front + [x];
      assert x in multiset(ids');
      var k :| 0 <= k < |ids'| && ids'[k] == x;
      var a, b := ids'[..k], ids'[k + 1..];
      assert ids' == a + [x] + b;
      assert multiset(a + b) == multiset(ids') - multiset{x};
      TableIgnoresOrder(front, a + b, place);
      TableMoveLast(a, x, b, place);
    }
  }

  /** Listing the nodes in another order builds the same ring. */
  lemma PlacementIgnoresOrder(v: seq<VNode>, w: seq<VNode>, ids: seq<NodeId>, ids': seq<NodeId>, place: Placement)
    requires IsRing(v, ids, place) && IsRing(w, ids', place) && multiset(ids) == multiset(ids')
    requires NoSharedPosition(ids, place)
    ensures v == w
  {
    TableIgnoresOrder(ids, ids', place);
    TablePositionDecides(ids, place);
    PositionDecidesPermuted(Table(ids, place), v);
    SortedOrderIsUnique(v, w);
  }

  // ---------------------------------------------------------------- one node down

  lemma TakeWithout(n: int, s: seq<NodeId>, x: NodeId)
    requires forall i, j :: 0 <= i < j < |s| ==> s[i] != s[j]
    ensures Filter(Take(n, s), Other(x)) <= Take(n, Filter(s, Other(x)))
    ensures |Take(n, Filter(s, Other(x)))| <= |Filter(Take(n, s), Other(x))| + 1
  {
    if x !in s {
      FilterAll(s, Other(x));
      FilterAll(Take(n, s), Other(x));
    } else {
      var k :| 0 <= k < |s| && s[k] == x;
      assert s == s[..k] + [x] + s[k + 1..];
      assert x !in s[..k] && x !in s[k + 1..];
      TakeAround(n, s[..k], x, s[k + 1..]);
    }
  }

  lemma TakeAround(n: int, a: seq<NodeId>, x: NodeId, b: seq<NodeId>)
    requires x !in a && x !in b
    ensures Filter(Take(n, a + [x] + b), Other(x)) <= Take(n, Filter(a + [x] + b, Other(x)))
    ensures |Take(n, Filter(a + [x] + b, Other(x)))| <= |Filter(Take(n, a + [x] + b), Other(x))| + 1
  {
    hide Filter;
    DropMiddle(a, x, b);
    if n <= |a| {
      assert Take(n, a + [x] + b) == Take(n, a) && Take(n, a + b) == Take(n, a);
      FilterAll(Take(n, a), Other(x));
    } else {
      var c := Take(n - |a| - 1, b);
      assert Take(n, a + [x] + b) == a + [x] + c;
      DropMiddle(a, x, c);
      assert Take(n, a + b) == a + Take(n - |a|, b);
    }
  }

  lemma DropMiddle(a: seq<NodeId>, x: NodeId, b: seq<NodeId>)
    requires x !in a && x !in b
    ensures Filter(a + [x] + b, Other(x)) == a + b
  {
    FilterAll(a, Other(x));
    FilterAll(b, Other(x));
    FilterAppend(a + [x], b, Other(x));
    FilterSnoc(a, x, Other(x));
    assert a + [] == a;
  }

  /** When x goes down, every placement only drops x and takes at most one new node, at the end. */
  lemma OneNodeDown(v: seq<VNode>, h: nat, n: int, healthy: NodeId -> bool, x: NodeId, healthy': NodeId -> bool)
    requires forall y :: healthy'(y) <==> healthy(y) && y != x
    ensures var before, after := Select(v, h, n, healthy).nodes, Select(v, h, n, healthy').nodes;
      Filter(before, Other(x)) <= after && |after| <= |Filter(before, Other(x))| + 1
  {
    if v != [] {
      DistinctMembers(Nodes(Clockwise(v, h)));
      var s := Filter(Preference(v, h), healthy);
      FilterKeepsOnce(Preference(v, h), healthy);
      TakeWithout(n, s, x);
      FilterBoth(Preference(v, h), healthy, x, healthy');
    }
  }

  lemma {:induction false} FilterBoth(s: seq<NodeId>, healthy: NodeId -> bool, x: NodeId, healthy': NodeId -> bool)
    requires forall y :: healthy'(y) <==> healthy(y) && y != x
    ensures Filter(s, healthy') == Filter(Filter(s, healthy), Other(x))
  {
    if s != [] {
      var t, y := s[..|s| - 1], s[|s| - 1];
      FilterBoth(t, healthy, x, healthy');
      assert Filter(s, healthy) == if healthy(y) then Filter(t, healthy) + [y] else Filter(t, healthy);
      FilterSnoc(Filter(t, healthy), y, Other(x));
    }
  }
}
