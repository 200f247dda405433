/**
 The in-place reordering of recorded replicas for downloads: healthy nodes first. What it does to the
 order of the others, and exactly when it leaves that alone.
 */
module ReplicaOrder {
  import opened Entities
  import opened HashRing

  function Not(healthy: NodeId -> bool): NodeId -> bool { (x: NodeId) => !healthy(x) }

  /** The first element goes to the end. */
  function Rotate(d: seq<NodeId>): seq<NodeId> { if d == [] then [] else d[1..] + [d[0]] }

  /** The order in which the nodes that are down end up: each healthy node that is swapped past them
      rotates those before it. */
  function Leftover(s: seq<NodeId>, healthy: NodeId -> bool): seq<NodeId> {
    if s == [] then []
    else
      var front, x := Leftover(s[..|s| - 1], healthy), s[|s| - 1];
      if healthy(x) then Rotate(front) else front + [x]
  }

  /** Swaps each healthy node forward. The healthy ones keep their order; the others may not. */
  method OrderHealthyFirst(a: array<NodeId>, healthy: NodeId -> bool) returns (count: nat)
    modifies a
    ensures a[..] == Filter(old(a[..]), healthy) + Leftover(old(a[..]), healthy)
    ensures count == |Filter(old(a[..]), healthy)| && multiset(a[..]) == multiset(old(a[..]))
  {
    hide Arranged;
    count := 0;
    ghost var was := a[..];
    NothingArranged(was, healthy);
    for i := 0 to a.Length
      invariant count <= i && Arranged(a[..], was, i, count, healthy)
      invariant multiset(a[..]) == multiset(was)
    {
      ArrangedNext(a[..], was, i, count, healthy);
      if healthy(a[i]) {
        Swap(a, count, i);
        count := count + 1;
      }
    }
    AllArranged(a[..], was, count, healthy);
  }

  method Swap(a: array<NodeId>, i: nat, j: nat)
    requires i <= j < a.Length
    modifies a
    ensures a[..] == old(a[..])[i := old(a[j])][j := old(a[i])]
    ensures multiset(a[..]) == multiset(old(a[..]))
  {
    a[i], a[j] := a[j], a[i];
  }

  /** After i nodes were looked at: the healthy ones among them, the others, and the rest as it was. */
  ghost predicate Arranged(s: seq<NodeId>, was: seq<NodeId>, i: nat, count: nat, healthy: NodeId -> bool) {
    && count <= i <= |was| == |s|
    && s[..count] == Filter(was[..i], healthy)
    && s[count..i] == Leftover(was[..i], healthy)
    && s[i..] == was[i..]
  }

  lemma NothingArranged(was: seq<NodeId>, healthy: NodeId -> bool)
    ensures Arranged(was, was, 0, 0, healthy)
  {
    assert was[..0] == [];
  }

  lemma AllArranged(s: seq<NodeId>, was: seq<NodeId>, count: nat, healthy: NodeId -> bool)
    requires Arranged(s, was, |s|, count, healthy)
    ensures s == Filter(was, healthy) + Leftover(was, healthy) && count == |Filter(was, healthy)|
  {
    assert was[..|was|] == was;
    assert s == s[..count] + s[count..|s|];
  }

  lemma OneMore(was: seq<NodeId>, i: nat, healthy: NodeId -> bool)
    requires i < |was|
    ensures Filter(was[..i + 1], healthy) == Filter(was[..i], healthy) + if healthy(was[i]) then [was[i]] else []
    ensures Leftover(was[..i + 1], healthy) ==
      if healthy(was[i]) then Rotate(Leftover(was[..i], healthy)) else Leftover(was[..i], healthy) + [was[i]]
  {
    assert was[..i + 1][..i] == was[..i];
  }

  lemma ArrangedNext(s: seq<NodeId>, was: seq<NodeId>, i: nat, count: nat, healthy: NodeId -> bool)
    requires Arranged(s, was, i, count, healthy) && i < |s|
    ensures if healthy(s[i]) then Arranged(s[count := s[i]][i := s[count]], was, i + 1, count + 1, healthy)
            else Arranged(s, was, i + 1, count, healthy)
  {
    OneMore(was, i, healthy);
    assert s[i] == s[i..][0] == was[i..][0] == was[i];
    hide Filter, Leftover;
    if healthy(s[i]) {
      SwapRotates(s, i, count);
      assert s[count := s[i]][i := s[count]][i + 1..] == s[i..][1..] == was[i + 1..];
    } else {
      assert s[count..i + 1] == s[count..i] + [s[i]];
      assert s[i + 1..] == s[i..][1..] == was[i + 1..];
    }
  }

  lemma SwapRotates(s: seq<NodeId>, i: nat, count: nat)
    requires count <= i < |s|
    ensures var t := s[count := s[i]][i := s[count]];
      t[..count + 1] == s[..count] + [s[i]] && t[count + 1..i + 1] == Rotate(s[count..i])
  {
    var t, d := s[count := s[i]][i := s[count]], s[count..i];
    if count < i {
      assert d[1..] + [d[0]] == t[count + 1..i + 1];
    }
  }

  // ---------------------------------------------------------------- when the order is kept

  predicate Unique(s: seq<NodeId>) { forall i, j :: 0 <= i < j < |s| ==> s[i] != s[j] }

  /** s[i..j] is a longest stretch of healthy nodes. */
  predicate MaximalRun(s: seq<NodeId>, healthy: NodeId -> bool, i: nat, j: nat) {
    && i < j <= |s| && (forall k :: i <= k < j ==> healthy(s[k]))
    && (i > 0 ==> !healthy(s[i - 1])) && (j < |s| ==> !healthy(s[j]))
  }

  /** How many nodes before i are down. */
  function DownBefore(s: seq<NodeId>, healthy: NodeId -> bool, i: nat): nat
    requires i <= |s|
  {
    |Filter(s[..i], Not(healthy))|
  }

  /** The number of nodes that are down divides the length, if there are any. */
  ghost predicate Fits(length: nat, downs: nat) { downs == 0 || exists m: nat :: Times(m, downs) == length }

  function Times(m: nat, k: nat): nat { m * k }

  /** If s[i..j] is such a stretch, its length is divisible by the number of nodes before it that are down. */
  ghost predicate RunFits(s: seq<NodeId>, healthy: NodeId -> bool, i: nat, j: nat) {
    MaximalRun(s, healthy, i, j) ==> Fits(j - i, DownBefore(s, healthy, i))
  }

  /** Every longest stretch of healthy nodes fits. */
  ghost predicate EvenRuns(s: seq<NodeId>, healthy: NodeId -> bool) {
    forall i: nat, j: nat :: j <= |s| ==> RunFits(s, healthy, i, j)
  }

  /** The same, but for the stretch at the very end. */
  ghost predicate EvenInside(s: seq<NodeId>, healthy: NodeId -> bool) {
    forall i: nat, j: nat :: j < |s| ==> RunFits(s, healthy, i, j)
  }

  /** The length of the stretch at the end. */
  function Trail(s: seq<NodeId>, healthy: NodeId -> bool): (t: nat)
    ensures t <= |s|
    ensures forall k :: |s| - t <= k < |s| ==> healthy(s[k])
    ensures t < |s| ==> !healthy(s[|s| - t - 1])
  {
    if s == [] || !healthy(s[|s| - 1]) then 0 else Trail(s[..|s| - 1], healthy) + 1
  }

  lemma {:induction false} TrailHasNoDown(s: seq<NodeId>, healthy: NodeId -> bool, i: nat)
    requires i <= |s| && forall k :: i <= k < |s| ==> healthy(s[k])
    ensures DownBefore(s, healthy, i) == |Filter(s, Not(healthy))|
  {
    if i == |s| {
      assert s[..i] == s;
    } else {
      assert s[..|s| - 1][..i] == s[..i];
      TrailHasNoDown(s[..|s| - 1], healthy, i);
    }
  }

  /** The stretch at the end is the only one that reaches the end. */
  lemma LastRun(s: seq<NodeId>, healthy: NodeId -> bool, i: nat)
    ensures var t := Trail(s, healthy);
      RunFits(s, healthy, i, |s|) <==> (t > 0 && i == |s| - t ==> Fits(t, |Filter(s, Not(healthy))|))
  {
    hide Fits, Filter;
    var t := Trail(s, healthy);
    TrailHasNoDown(s, healthy, |s| - t);
    assert MaximalRun(s, healthy, i, |s|) <==> t > 0 && i == |s| - t;
  }

  lemma EvenSplit(s: seq<NodeId>, healthy: NodeId -> bool)
    ensures EvenRuns(s, healthy) <==>
      EvenInside(s, healthy) && (Trail(s, healthy) > 0 ==> Fits(Trail(s, healthy), |Filter(s, Not(healthy))|))
  {
    hide Fits, RunFits, Filter, Trail;
    forall i: nat
      ensures var t := Trail(s, healthy);
        RunFits(s, healthy, i, |s|) <==> (t > 0 && i == |s| - t ==> Fits(t, |Filter(s, Not(healthy))|))
    {
      LastRun(s, healthy, i);
    }
    var t := Trail(s, healthy);
    assert RunFits(s, healthy, |s| - t, |s|) <==> (t > 0 ==> Fits(t, |Filter(s, Not(healthy))|));
  }

  lemma RunsOfPrefix(s: seq<NodeId>, x: NodeId, healthy: NodeId -> bool, i: nat, j: nat)
    requires j <= |s|
    ensures j < |s| ==> (RunFits(s + [x], healthy, i, j) <==> RunFits(s, healthy, i, j))
    ensures j == |s| && healthy(x) ==> RunFits(s + [x], healthy, i, j)
    ensures j == |s| && !healthy(x) ==> (RunFits(s + [x], healthy, i, j) <==> RunFits(s, healthy, i, j))
  {
    hide Fits, Filter;
    var t := s + [x];
    assert forall k :: 0 <= k < |s| ==> t[k] == s[k];
    if i <= |s| { assert t[..i] == s[..i]; }
  }

  /** One more healthy node closes no stretch; one more that is down closes the last. */
  lemma EvenInsideNext(s: seq<NodeId>, x: NodeId, healthy: NodeId -> bool)
    ensures EvenInside(s + [x], healthy) <==> if healthy(x) then EvenInside(s, healthy) else EvenRuns(s, healthy)
  {
    hide RunFits;
    forall i: nat, j: nat | j <= |s|
      ensures j < |s| ==> (RunFits(s + [x], healthy, i, j) <==> RunFits(s, healthy, i, j))
      ensures j == |s| && healthy(x) ==> RunFits(s + [x], healthy, i, j)
      ensures j == |s| && !healthy(x) ==> (RunFits(s + [x], healthy, i, j) <==> RunFits(s, healthy, i, j))
    {
      RunsOfPrefix(s, x, healthy, i, j);
    }
  }

  // ---------------------------------------------------------------- rotations

  function Rotated(e: seq<NodeId>, r: nat): seq<NodeId>
    requires r <= |e|
  {
    e[r..] + e[..r]
  }

  ghost predicate IsRotation(d: seq<NodeId>, e: seq<NodeId>) {
    exists r: nat :: r <= |e| && d == Rotated(e, r)
  }

  /** The next of 0, ..., k - 1, around. */
  function Next(r: nat, k: nat): nat { if r + 1 == k then 0 else r + 1 }

  lemma RotateRotated(e: seq<NodeId>, r: nat)
    requires r < |e|
    ensures Rotate(Rotated(e, r)) == Rotated(e, Next(r, |e|))
  {
    var d := Rotated(e, r);
    assert d[0] == e[r];
    assert e[..r + 1] == e[..r] + [e[r]];
    assert d[1..] == e[r + 1..] + e[..r];
    assert Rotate(d) == Rotated(e, r + 1);
    assert Rotated(e, |e|) == e == Rotated(e, 0);
  }

  /** Offsets below the length are enough. */
  lemma RotationOffset(d: seq<NodeId>, e: seq<NodeId>) returns (r: nat)
    requires IsRotation(d, e) && e != []
    ensures r < |e| && d == Rotated(e, r)
  {
    r :| r <= |e| && d == Rotated(e, r);
    if r == |e| {
      assert Rotated(e, |e|) == e == Rotated(e, 0);
      r := 0;
    }
  }

  /** Rotating once does not change whether a sequence is a rotation of another. */
  lemma RotateKeepsRotation(d: seq<NodeId>, e: seq<NodeId>)
    requires |d| == |e|
    ensures IsRotation(Rotate(d), e) <==> IsRotation(d, e)
  {
    if d != [] {
      if IsRotation(d, e) { RotateForth(d, e); }
      if IsRotation(Rotate(d), e) { RotateBack(d, e); }
    }
  }

  lemma RotateForth(d: seq<NodeId>, e: seq<NodeId>)
    requires d != [] && |d| == |e| && IsRotation(d, e)
    ensures IsRotation(Rotate(d), e)
  {
    hide Rotate, Rotated;
    var r := RotationOffset(d, e);
    RotateRotated(e, r);
  }

  lemma RotateBack(d: seq<NodeId>, e: seq<NodeId>)
    requires d != [] && |d| == |e| && IsRotation(Rotate(d), e)
    ensures IsRotation(d, e)
  {
    var r := RotationOffset(Rotate(d), e);
    var q := if r == 0 then |e| - 1 else r - 1;
    RotateRotated(e, q);
    assert |Rotated(e, q)| == |e|;
    hide Rotate, Rotated;
    RotateInjective(d, Rotated(e, q));
  }

  lemma RotateInjective(d: seq<NodeId>, e: seq<NodeId>)
    requires |d| == |e| > 0 && Rotate(d) == Rotate(e)
    ensures d == e
  {
    var k := |d| - 1;
    assert d[0] == Rotate(d)[k] == Rotate(e)[k] == e[0];
    assert d[1..] == Rotate(d)[..k] == Rotate(e)[..k] == e[1..];
    assert d == [d[0]] + d[1..] && e == [e[0]] + e[1..];
  }

  lemma LastOfRotated(e: seq<NodeId>, x: NodeId, r: nat)
    requires 0 < r <= |e|
    ensures Rotated(e + [x], r)[|e|] in e
  {
    assert Rotated(e + [x], r)[|e|] == e[r - 1];
  }

  /** With a new element at the end of both, only equal sequences are rotations of one another. */
  lemma AppendedRotation(d: seq<NodeId>, e: seq<NodeId>, x: NodeId)
    requires |d| == |e| && x !in e
    ensures IsRotation(d + [x], e + [x]) <==> d == e
  {
    var d', e' := d + [x], e + [x];
    if IsRotation(d', e') {
      var r: nat :| r <= |e'| && d' == Rotated(e', r);
      assert d'[|d|] == x;
      if 0 < r < |e'| { LastOfRotated(e, x, r); }
      assert Rotated(e', 0) == e' == Rotated(e', |e'|);
      assert d == d'[..|d|] && e == e'[..|e|];
    }
    if d == e { assert Rotated(e', 0) == e'; }
  }

  lemma OnlyFullTurns(e: seq<NodeId>, r: nat)
    requires Unique(e) && r < |e|
    ensures Rotated(e, r) == e <==> r == 0
  {
    assert Rotated(e, r)[0] == e[r];
  }

  // ---------------------------------------------------------------- the condition is exact

  lemma UniqueFront(s: seq<NodeId>, x: NodeId, healthy: NodeId -> bool)
    requires Unique(s + [x])
    ensures Unique(s) && x !in s && x !in Filter(s, Not(healthy))
  {
    var t := s + [x];
    assert forall k :: 0 <= k < |s| ==> t[k] == s[k] && t[k] != t[|s|];
    FilterMembers(s, Not(healthy));
  }

  lemma {:induction false} UniqueFilter(s: seq<NodeId>, p: NodeId -> bool)
    requires Unique(s)
    ensures Unique(Filter(s, p))
  {
    if s != [] {
      var front, x := s[..|s| - 1], s[|s| - 1];
      UniqueFilter(front, p);
      FilterMembers(front, p);
      assert forall k :: 0 <= k < |front| ==> front[k] == s[k] && s[k] != x;
    }
  }

  /** d is e turned t times; or, once evenness is broken, not even a rotation of e. */
  ghost predicate TurnedBy(d: seq<NodeId>, e: seq<NodeId>, t: nat, even: bool) {
    && |d| == |e|
    && if even then e != [] ==> d == Rotated(e, Turns(t, |e|)) else !IsRotation(d, e)
  }

  /** As long as all inner stretches fit, the nodes that are down are turned by the last one; once one
      does not, their cyclic order is lost for good. */
  ghost predicate Turned(s: seq<NodeId>, healthy: NodeId -> bool) {
    TurnedBy(Leftover(s, healthy), Filter(s, Not(healthy)), Trail(s, healthy), EvenInside(s, healthy))
  }

  /** Where t single turns of a circle of k lead. */
  function Turns(t: nat, k: nat): (r: nat)
    requires k > 0
    ensures r < k
  {
    if t == 0 then 0 else Next(Turns(t - 1, k), k)
  }

  function Rounds(t: nat, k: nat): nat
    requires k > 0
  {
    if t == 0 then 0 else Rounds(t - 1, k) + if Turns(t, k) == 0 then 1 else 0
  }

  lemma {:induction false} TurnsSplit(t: nat, k: nat)
    requires k > 0
    ensures t == Times(Rounds(t, k), k) + Turns(t, k)
  {
    if t > 0 { TurnsSplit(t - 1, k); }
  }

  /** They lead back to the start exactly when k divides t. */
  lemma TurnsFit(t: nat, k: nat)
    requires k > 0
    ensures Turns(t, k) == 0 <==> Fits(t, k)
  {
    TurnsSplit(t, k);
    if Fits(t, k) {
      var m: nat :| Times(m, k) == t;
      var q, r := Rounds(t, k), Turns(t, k);
      assert (m - q) * k == r;
      if m > q { AtLeastOnce(m - q, k); }
      if m < q { AtLeastOnce(q - m, k); }
    }
  }

  lemma AtLeastOnce(a: nat, k: nat)
    requires a > 0
    ensures a * k >= k
  {
  }

  lemma TurnedIsStableIff(s: seq<NodeId>, healthy: NodeId -> bool)
    requires Turned(s, healthy) && Unique(Filter(s, Not(healthy)))
    ensures Leftover(s, healthy) == Filter(s, Not(healthy)) <==> EvenRuns(s, healthy)
  {
    hide Leftover, Filter, Trail, EvenInside, EvenRuns;
    var d, e, t := Leftover(s, healthy), Filter(s, Not(healthy)), Trail(s, healthy);
    EvenSplit(s, healthy);
    assert Rotated(e, 0) == e && IsRotation(e, e);
    if EvenInside(s, healthy) && e != [] { OnlyFullTurns(e, Turns(t, |e|)); TurnsFit(t, |e|); }
  }

  /** A sequence with one more element, part by part. */
  lemma PartsNext(s: seq<NodeId>, x: NodeId, healthy: NodeId -> bool)
    ensures Filter(s + [x], Not(healthy)) == Filter(s, Not(healthy)) + if healthy(x) then [] else [x]
    ensures Leftover(s + [x], healthy) ==
      if healthy(x) then Rotate(Leftover(s, healthy)) else Leftover(s, healthy) + [x]
    ensures Trail(s + [x], healthy) == if healthy(x) then Trail(s, healthy) + 1 else 0
  {
    assert (s + [x])[..|s|] == s;
  }

  lemma SameLength(d: seq<NodeId>, e: seq<NodeId>, t: nat, even: bool)
    requires TurnedBy(d, e, t, even)
    ensures |d| == |e|
  {
  }

  lemma TurnedOnce(d: seq<NodeId>, e: seq<NodeId>, t: nat, even: bool)
    requires TurnedBy(d, e, t, even)
    ensures TurnedBy(Rotate(d), e, t + 1, even)
  {
    hide Rotated, IsRotation;
    RotateKeepsRotation(d, e);
    if even && e != [] {
      RotateRotated(e, Turns(t, |e|));
      assert Turns(t + 1, |e|) == Next(Turns(t, |e|), |e|);
    }
  }

  lemma TurnedAfresh(d: seq<NodeId>, e: seq<NodeId>, x: NodeId, even: bool)
    requires |d| == |e| && x !in e && (even <==> d == e)
    ensures TurnedBy(d + [x], e + [x], 0, even)
  {
    AppendedRotation(d, e, x);
    assert Rotated(e + [x], 0) == e + [x];
  }

  lemma TurnedNext(s: seq<NodeId>, x: NodeId, healthy: NodeId -> bool)
    requires Turned(s, healthy) && Unique(Filter(s, Not(healthy))) && x !in Filter(s, Not(healthy))
    ensures Turned(s + [x], healthy)
  {
    hide Leftover, Filter, Trail, EvenInside, EvenRuns, TurnedBy, Unique;
    PartsNext(s, x, healthy);
    EvenInsideNext(s, x, healthy);
    TurnedIsStableIff(s, healthy);
    var d, e, t := Leftover(s, healthy), Filter(s, Not(healthy)), Trail(s, healthy);
    SameLength(d, e, t, EvenInside(s, healthy));
    if healthy(x) {
      assert e + [] == e;
      TurnedOnce(d, e, t, EvenInside(s, healthy));
    } else {
      TurnedAfresh(d, e, x, EvenRuns(s, healthy));
    }
  }

  lemma {:induction false} LeftoverIsTurned(s: seq<NodeId>, healthy: NodeId -> bool)
    requires Unique(s)
    ensures Turned(s, healthy)
  {
    if s == [] {
      NothingTurned(healthy);
    } else {
      var f, x := s[..|s| - 1], s[|s| - 1];
      assert s == f + [x];
      UniqueFront(f, x, healthy);
      UniqueFilter(f, Not(healthy));
      LeftoverIsTurned(f, healthy);
      TurnedNext(f, x, healthy);
    }
  }

  lemma NothingTurned(healthy: NodeId -> bool)
    ensures Turned([], healthy)
  {
  }

  /** The nodes that are down keep their order exactly when every longest stretch of healthy nodes has
      a length divisible by the number of nodes before it that are down. */
  lemma DownOrderKeptIff(s: seq<NodeId>, healthy: NodeId -> bool)
    requires Unique(s)
    ensures Leftover(s, healthy) == Filter(s, Not(healthy)) <==> EvenRuns(s, healthy)
  {
    LeftoverIsTurned(s, healthy);
    UniqueFilter(s, Not(healthy));
    TurnedIsStableIff(s, healthy);
  }

  /** The smallest list that is not kept: two nodes that are down before a healthy one. */
  lemma TwoDownsAreSwapped(d1: NodeId, d2: NodeId, h: NodeId, healthy: NodeId -> bool)
    requires !healthy(d1) && !healthy(d2) && healthy(h)
    ensures Filter([d1, d2, h], healthy) + Leftover([d1, d2, h], healthy) == [h, d2, d1]
  {
    var s := [d1, d2, h];
    assert s[..2] == [d1, d2] && s[..2][..1] == [d1] && s[..2][..1][..0] == [];
    assert Leftover([d1], healthy) == [] + [d1] && Leftover([d1, d2], healthy) == [d1] + [d2];
    assert Filter([d1], healthy) == [] && Filter([d1, d2], healthy) == [];
  }
}
