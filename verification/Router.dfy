/**
 The router on top of the ring: two-tier Resolve, and Candidates, which looks at no health.
 */
module Router {
  import opened Entities
  import opened HashRing
  import opened RingPlacement

  datatype Status = Healthy | Down

  /** The in-memory view. As with Go maps, a node without an entry reads as the zero value: healthy,
      and with a latency of zero. */
  datatype Router = Router(ids: seq<NodeId>, ring: seq<VNode>, health: map<NodeId, Status>, latency: map<NodeId, nat>,
                           slowThreshold: nat)

  predicate IsHealthy(rt: Router, id: NodeId) { id in rt.health ==> rt.health[id] == Healthy }
  predicate IsFast(rt: Router, id: NodeId) { (if id in rt.latency then rt.latency[id] else 0) < rt.slowThreshold }

  function HealthyIn(rt: Router): NodeId -> bool { (id: NodeId) => IsHealthy(rt, id) }
  function FastIn(rt: Router): NodeId -> bool { (id: NodeId) => IsHealthy(rt, id) && IsFast(rt, id) }
  function Anyone(): NodeId -> bool { (id: NodeId) => true }

  ghost predicate Valid(rt: Router, place: Placement) {
    IsRing(rt.ring, rt.ids, place) && rt.ids != []
  }

  lemma RingIsThere(rt: Router, place: Placement)
    requires Valid(rt, place)
    ensures rt.ring != []
  {
    var x := rt.ids[0];
    TableMembers(rt.ids, place, VNode(place(x, 0), x));
    RingMembers(rt.ring, rt.ids, place, VNode(place(x, 0), x));
  }

  /** What Resolve answers: the first n of the fast healthy nodes in ring order, or, if they are too
      few, of all the healthy ones. */
  function Resolved(rt: Router, h: nat, n: int): Selection {
    if rt.slowThreshold > 0 && Select(rt.ring, h, n, FastIn(rt)).error == {} then Select(rt.ring, h, n, FastIn(rt))
    else Select(rt.ring, h, n, HealthyIn(rt))
  }

  /** Only healthy nodes, as many as asked for exactly if that many are healthy; and only fast ones if enough
      of them are healthy and fast. */
  ghost predicate Tiered(rt: Router, n: nat, r: Selection) {
    var up := set x | x in rt.ids && (x in rt.health ==> rt.health[x] == Healthy);
    var fast := set x | x in up && (x in rt.latency ==> rt.latency[x] < rt.slowThreshold);
    && (r.error != {} <==> |up| < n)
    && (forall x :: x in r.nodes ==> x in up)
    && (rt.slowThreshold > 0 && |fast| >= n ==> forall x :: x in r.nodes ==> x in fast)
  }

  lemma ResolvedIsTiered(rt: Router, place: Placement, h: nat, n: nat)
    requires Valid(rt, place)
    ensures Tiered(rt, n, Resolved(rt, h, n))
  {
    hide Valid, Select, IsFast;
    TierFacts(rt, place, h, n);
    UpAndFast(rt);
    hide HealthyNodes, HealthyIn, FastIn;
    if rt.slowThreshold > 0 {
      assert HealthyNodes(rt.ids, FastIn(rt)) ==
        set x | x in HealthyNodes(rt.ids, HealthyIn(rt)) && (x in rt.latency ==> rt.latency[x] < rt.slowThreshold);
    }
  }

  lemma UpAndFast(rt: Router)
    ensures HealthyNodes(rt.ids, HealthyIn(rt)) == set x | x in rt.ids && (x in rt.health ==> rt.health[x] == Healthy)
    ensures rt.slowThreshold > 0 ==> forall x ::
      x in HealthyNodes(rt.ids, FastIn(rt)) <==>
      x in HealthyNodes(rt.ids, HealthyIn(rt)) && (x in rt.latency ==> rt.latency[x] < rt.slowThreshold)
  {
  }

  /** Resolve: a first pass over the fast healthy nodes, and only if that cannot fill n a second
      pass over all healthy ones. */
  method Resolve(rt: Router, h: nat, n: int, ghost place: Placement) returns (r: Selection)
    requires Sorted(rt.ring)
    ensures r == Resolved(rt, h, n)
    ensures Valid(rt, place) && n >= 0 ==> Tiered(rt, n, r)
  {
    if Valid(rt, place) && n >= 0 { ResolvedIsTiered(rt, place, h, n); }
    if rt.slowThreshold > 0 {
      var fast := SelectReplicas(rt.ring, h, n, FastIn(rt));
      if fast.error == {} { return fast; }
    }
    r := SelectReplicas(rt.ring, h, n, HealthyIn(rt));
  }

  lemma TierFacts(rt: Router, place: Placement, h: nat, n: nat)
    requires Valid(rt, place)
    ensures Select(rt.ring, h, n, HealthyIn(rt)).error != {} <==> |HealthyNodes(rt.ids, HealthyIn(rt))| < n
    ensures Select(rt.ring, h, n, FastIn(rt)).error != {} <==> |HealthyNodes(rt.ids, FastIn(rt))| < n
    ensures |HealthyNodes(rt.ids, FastIn(rt))| <= |HealthyNodes(rt.ids, HealthyIn(rt))|
    ensures forall x :: x in Select(rt.ring, h, n, FastIn(rt)).nodes ==> x in HealthyNodes(rt.ids, FastIn(rt))
    ensures forall x :: x in Select(rt.ring, h, n, HealthyIn(rt)).nodes ==> x in HealthyNodes(rt.ids, HealthyIn(rt))
    ensures HealthyNodes(rt.ids, FastIn(rt)) <= HealthyNodes(rt.ids, HealthyIn(rt))
  {
    RingIsThere(rt, place);
    ErrsIffTooFew(rt.ring, rt.ids, place, h, n, HealthyIn(rt));
    ErrsIffTooFew(rt.ring, rt.ids, place, h, n, FastIn(rt));
    var fast, all := HealthyNodes(rt.ids, FastIn(rt)), HealthyNodes(rt.ids, HealthyIn(rt));
    assert all == fast + (all - fast);
  }

  /** The healthy nodes in ring order. */
  function HealthyOrder(rt: Router, h: nat): seq<NodeId> { Filter(Preference(rt.ring, h), HealthyIn(rt)) }

  /** A slow node lies among the first n healthy ones in ring order. */
  predicate SlowAmongFirst(rt: Router, h: nat, n: nat) {
    exists i :: 0 <= i < n && i < |HealthyOrder(rt, h)| && !IsFast(rt, HealthyOrder(rt, h)[i])
  }

  predicate HasSlow(rt: Router, nodes: seq<NodeId>) {
    exists x :: x in nodes && !IsFast(rt, x)
  }

  lemma {:induction false} TakesSlow(rt: Router, order: seq<NodeId>, n: nat)
    ensures HasSlow(rt, Take(n, order)) <==> exists i :: 0 <= i < n && i < |order| && !IsFast(rt, order[i])
  {
    var out := Take(n, order);
    if i :| 0 <= i < n && i < |order| && !IsFast(rt, order[i]) {
      assert out[i] == order[i] && out[i] in out;
    }
    if x :| x in out && !IsFast(rt, x) {
      var i :| 0 <= i < |out| && out[i] == x;
      assert order[i] == x;
    }
  }

  /** A slow node is used exactly when fewer than n fast healthy nodes exist and one lies among the
      first n healthy ones in ring order, however many fast ones come after it. */
  lemma {:induction false} UsesSlowIff(rt: Router, place: Placement, h: nat, n: nat)
    requires Valid(rt, place) && rt.slowThreshold > 0
    ensures HasSlow(rt, Resolved(rt, h, n).nodes) <==>
      |HealthyNodes(rt.ids, FastIn(rt))| < n && SlowAmongFirst(rt, h, n)
  {
    hide Valid, Preference, Filter, IsFast;
    RingIsThere(rt, place);
    TierFacts(rt, place, h, n);
    TakesSlow(rt, HealthyOrder(rt, h), n);
  }

  /** And then one always is, if there are n healthy nodes at all. */
  lemma {:induction false} ShortageUsesSlow(rt: Router, place: Placement, h: nat, n: nat)
    requires Valid(rt, place) && rt.slowThreshold > 0
    requires |HealthyNodes(rt.ids, FastIn(rt))| < n <= |HealthyNodes(rt.ids, HealthyIn(rt))|
    ensures HasSlow(rt, Resolved(rt, h, n).nodes)
  {
    TierFacts(rt, place, h, n);
    RingIsThere(rt, place);
    HealthyOnce(rt, place, h, n);
    hide Valid, Preference, Filter, Table;
    var out := Resolved(rt, h, n).nodes;
    if !HasSlow(rt, out) { FastCount(rt, out); }
  }

  lemma {:induction false} FastCount(rt: Router, out: seq<NodeId>)
    requires !HasSlow(rt, out) && forall i, j :: 0 <= i < j < |out| ==> out[i] != out[j]
    requires forall x :: x in out ==> x in rt.ids && IsHealthy(rt, x)
    ensures |out| <= |HealthyNodes(rt.ids, FastIn(rt))|
  {
    forall x | x in out ensures x in HealthyNodes(rt.ids, FastIn(rt)) { assert IsFast(rt, x); }
    hide HealthyNodes, FastIn, HasSlow;
    CountWithin(out, HealthyNodes(rt.ids, FastIn(rt)));
  }

  lemma {:induction false} CountWithin(s: seq<NodeId>, members: set<NodeId>)
    requires forall i, j :: 0 <= i < j < |s| ==> s[i] != s[j]
    requires forall x :: x in s ==> x in members
    ensures |s| <= |members|
  {
    var used := set x | x in s;
    LengthIsSize(s, used);
    assert members == used + (members - used);
  }

  lemma {:induction false} HealthyOnce(rt: Router, place: Placement, h: nat, n: nat)
    requires Valid(rt, place) && n <= |HealthyNodes(rt.ids, HealthyIn(rt))|
    ensures var out := Select(rt.ring, h, n, HealthyIn(rt)).nodes;
      && |out| == n && (forall i, j :: 0 <= i < j < |out| ==> out[i] != out[j])
      && forall x :: x in out ==> x in rt.ids && IsHealthy(rt, x)
  {
    RingIsThere(rt, place);
    ErrsIffTooFew(rt.ring, rt.ids, place, h, n, HealthyIn(rt));
    PreferenceIsEveryNodeOnce(rt.ring, rt.ids, place, h);
    FilterKeepsOnce(Preference(rt.ring, h), HealthyIn(rt));
  }

  // ---------------------------------------------------------------- a fast node left out

  /** Node k of the list has its vnodes in one block, the blocks in the order of the list. */
  function InBlocks(ids: seq<NodeId>): Placement {
    (x: NodeId, i: nat) => IndexIn(ids, x) * VIRTUAL_NODES + i
  }

  function IndexIn(ids: seq<NodeId>, x: NodeId): nat {
    if ids == [] || ids[0] == x then 0 else 1 + IndexIn(ids[1..], x)
  }

  lemma BlockTable(a: NodeId, b: NodeId, c: NodeId)
    requires a != b && a != c && b != c
    ensures var ids := [a, b, c];
      Table(ids, InBlocks(ids)) == VNodesOf(a, InBlocks(ids), VIRTUAL_NODES) +
        VNodesOf(b, InBlocks(ids), VIRTUAL_NODES) + VNodesOf(c, InBlocks(ids), VIRTUAL_NODES)
      && IsRing(Table(ids, InBlocks(ids)), ids, InBlocks(ids))
  {
    var ids := [a, b, c];
    var place := InBlocks(ids);
    assert ids[..2] == [a, b] && ids[..2][..1] == [a] && ids[..2][..1][..0] == [];
    assert ids[1..] == [b, c] && ids[1..][1..] == [c];
    assert IndexIn([c], c) == 0 && IndexIn([b, c], c) == 1 + IndexIn([b, c][1..], c);
    assert IndexIn(ids, a) == 0 && IndexIn(ids, b) == 1 && IndexIn(ids, c) == 1 + IndexIn([b, c], c) == 2;
    var v := Table(ids, place);
    assert Table([a], place) == [] + VNodesOf(a, place, VIRTUAL_NODES);
    assert Table([a, b], place) == Table([a], place) + VNodesOf(b, place, VIRTUAL_NODES);
    assert v == Table([a, b], place) + VNodesOf(c, place, VIRTUAL_NODES);
    forall k | 0 <= k < |v| ensures v[k].position == k {}
  }

  function Repeat(x: NodeId, n: nat): (s: seq<NodeId>)
    ensures |s| == n && forall y :: y in s ==> y == x
  {
    seq(n, _ => x)
  }

  /** However often a new node follows, it is new once. */
  lemma {:induction false} DistinctOfBlock(s: seq<NodeId>, x: NodeId, k: nat)
    requires x !in s && k > 0
    ensures Distinct(s + Repeat(x, k)) == Distinct(s) + [x]
  {
    var t := s + Repeat(x, k);
    assert t[..|t| - 1] == s + Repeat(x, k - 1);
    if k == 1 {
      assert t[..|t| - 1] == s;
    } else {
      DistinctOfBlock(s, x, k - 1);
      assert t[|t| - 2] == x;
    }
  }

  lemma {:induction false} DistinctOfBlocks(a: NodeId, b: NodeId, c: NodeId, n: nat)
    requires a != b && a != c && b != c && n > 0
    ensures Distinct(Repeat(a, n) + Repeat(b, n) + Repeat(c, n)) == [a, b, c]
  {
    var p, q, r := Repeat(a, n), Repeat(b, n), Repeat(c, n);
    assert Distinct([]) == [];
    hide Distinct, Repeat;
    assert Distinct(p) == [a] by {
      DistinctOfBlock([], a, n);
      assert [] + p == p && [] + [a] == [a];
    }
    assert b !in p && c !in p && c !in q;
    assert Distinct(p + q) == [a, b] by {
      DistinctOfBlock(p, b, n);
      assert [a] + [b] == [a, b];
    }
    DistinctOfBlock(p + q, c, n);
    assert [a, b] + [c] == [a, b, c];
  }

  lemma {:induction false} NodesOfBlocks(a: NodeId, b: NodeId, c: NodeId, place: Placement, n: nat)
    ensures Nodes(VNodesOf(a, place, n) + VNodesOf(b, place, n) + VNodesOf(c, place, n)) ==
      Repeat(a, n) + Repeat(b, n) + Repeat(c, n)
  {
  }

  lemma AllFromZero(v: seq<VNode>)
    ensures Clockwise(v, 0) == v
  {
    FilterAll(v, AtOrAfter(0));
    FilterNone(v, Before(0));
  }

  lemma BlockPreference(a: NodeId, b: NodeId, c: NodeId)
    requires a != b && a != c && b != c
    ensures var ids := [a, b, c]; Preference(Table(ids, InBlocks(ids)), 0) == ids
  {
    var ids := [a, b, c];
    BlockTable(a, b, c);
    AllFromZero(Table(ids, InBlocks(ids)));
    hide Table, Clockwise, Distinct, Nodes, IsRing;
    NodesOfBlocks(a, b, c, InBlocks(ids), VIRTUAL_NODES);
    DistinctOfBlocks(a, b, c, VIRTUAL_NODES);
  }

  /** Two slow nodes and a fast one, all healthy, in this order around the ring. */
  function TwoSlowOneFast(a: NodeId, b: NodeId, c: NodeId): Router {
    Router([a, b, c], Table([a, b, c], InBlocks([a, b, c])), map[], map[a := 5, b := 5, c := 1], 3)
  }

  lemma {:induction false} ExampleSpeeds(a: NodeId, b: NodeId, c: NodeId)
    requires a != b && a != c && b != c
    ensures var rt := TwoSlowOneFast(a, b, c);
      && IsFast(rt, c) && !IsFast(rt, a) && !IsFast(rt, b)
      && forall x :: HealthyIn(rt)(x)
  {
    hide Table, InBlocks;
  }

  lemma {:induction false} ExampleValid(a: NodeId, b: NodeId, c: NodeId)
    requires a != b && a != c && b != c
    ensures Valid(TwoSlowOneFast(a, b, c), InBlocks([a, b, c])) && TwoSlowOneFast(a, b, c).ring != []
  {
    BlockTable(a, b, c);
    hide Table, IsRing;
    RingIsThere(TwoSlowOneFast(a, b, c), InBlocks([a, b, c]));
  }

  /** What is selected on it: the fast pass has only c, the plain one takes a and b. */
  lemma {:induction false} ExampleSelects(a: NodeId, b: NodeId, c: NodeId)
    requires a != b && a != c && b != c
    ensures var rt := TwoSlowOneFast(a, b, c);
      && Select(rt.ring, 0, 2, FastIn(rt)).error != {}
      && Select(rt.ring, 0, 2, HealthyIn(rt)) == Selection([a, b], {})
  {
    var rt := TwoSlowOneFast(a, b, c);
    hide Table, Preference, InBlocks, Valid, Filter, Select, IsFast;
    ExampleValid(a, b, c);
    ExampleSpeeds(a, b, c);
    BlockPreference(a, b, c);
    FilterAll([a, b, c], HealthyIn(rt));
    FilterThree(a, b, c, FastIn(rt));
    SelectFrom(rt.ring, 0, 2, FastIn(rt), [a, b, c], [c]);
    SelectFrom(rt.ring, 0, 2, HealthyIn(rt), [a, b, c], [a, b, c]);
    assert [a, b, c][..2] == [a, b];
  }

  lemma {:induction false} SelectFrom(v: seq<VNode>, h: nat, n: nat, p: NodeId -> bool, order: seq<NodeId>,
                                      out: seq<NodeId>)
    requires v != [] && Preference(v, h) == order && Filter(order, p) == out
    ensures Select(v, h, n, p) ==
      Selection(Take(n, out), if |out| < n then {InsufficientHealthyNodes} else {})
  {
    hide Preference, Filter;
  }

  /** For two replicas the fast pass falls short, and the second pass takes the two slow nodes and
      leaves the fast one out. */
  lemma {:induction false} FastNodeLeftOut(a: NodeId, b: NodeId, c: NodeId)
    requires a != b && a != c && b != c
    ensures var rt := TwoSlowOneFast(a, b, c);
      && Valid(rt, InBlocks([a, b, c])) && IsFast(rt, c) && !IsFast(rt, a) && !IsFast(rt, b)
      && Resolved(rt, 0, 2) == Selection([a, b], {})
  {
    hide Table, InBlocks, Valid, Select, IsFast, HealthyIn, FastIn;
    ExampleValid(a, b, c);
    ExampleSpeeds(a, b, c);
    ExampleSelects(a, b, c);
  }

  lemma FilterThree(a: NodeId, b: NodeId, c: NodeId, p: NodeId -> bool)
    requires !p(a) && !p(b) && p(c)
    ensures Filter([a, b, c], p) == [c]
  {
    assert [a, b, c][..2] == [a, b] && [a, b][..1] == [a] && [a][..0] == [];
    assert Filter([a], p) == [] && Filter([a, b], p) == [];
  }

  /** Candidates: every configured node once, in ring order, whatever its health, and no error. */
  method Candidates(rt: Router, h: nat, ghost place: Placement) returns (r: Selection)
    requires Valid(rt, place) && forall i, j :: 0 <= i < j < |rt.ids| ==> rt.ids[i] != rt.ids[j]
    ensures r == Selection(Preference(rt.ring, h), {})
    ensures forall x :: x in r.nodes <==> x in rt.ids
  {
    r := SelectReplicas(rt.ring, h, |rt.ids|, Anyone());
    RingIsThere(rt, place);
    FilterAll(Preference(rt.ring, h), Anyone());
    PreferenceIsEveryNodeOnce(rt.ring, rt.ids, place, h);
    var members := set x | x in rt.ids;
    LengthIsSize(rt.ids, members);
    LengthIsSize(Preference(rt.ring, h), members);
  }

  /** Whatever Resolve returned when an object was written, a reader walking Candidates for the same
      key later meets every one of those nodes. */
  lemma ResolvedAreCandidates(rt: Router, place: Placement, h: nat, n: nat, healthy: NodeId -> bool, x: NodeId)
    requires Valid(rt, place) && x in Select(rt.ring, h, n, healthy).nodes
    ensures x in Preference(rt.ring, h)
  {
    RingIsThere(rt, place);
    ErrsIffTooFew(rt.ring, rt.ids, place, h, n, healthy);
    PreferenceIsEveryNodeOnce(rt.ring, rt.ids, place, h);
  }
}
