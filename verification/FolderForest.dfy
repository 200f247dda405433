/**
 The folders table as a forest: the two recursive queries that walk it, upwards for breadcrumbs
 and downwards for subtrees, and what a create, a move and a cascading delete do to it.
 */
module FolderForest {
  import opened Entities

  datatype Folder = Folder(org: OrgId, parent: Option<FolderId>, deletedAt: Option<int>)
  type Folders = map<FolderId, Folder>

  predicate HasParent(folders: Folders, x: FolderId, p: FolderId) {
    x in folders && folders[x].parent == Some(p)
  }

  /** Every parent exists, belongs to the same organization, and ranks below its child. */
  ghost predicate Ranked(folders: Folders, rank: map<FolderId, nat>) {
    && (forall x :: x in folders ==> x in rank)
    && (forall x, p :: HasParent(folders, x, p) ==>
          p in folders && folders[p].org == folders[x].org && rank[p] < rank[x])
  }

  /** The parent relation is an acyclic forest, each tree within one organization. */
  ghost predicate Forest(folders: Folders) {
    exists rank :: Ranked(folders, rank)
  }

  ghost function RankOf(folders: Folders): (rank: map<FolderId, nat>)
    requires Forest(folders)
    ensures Ranked(folders, rank)
  {
    var rank :| Ranked(folders, rank); rank
  }

  // ---------------------------------------------------------------- the upward query

  /** From the root folder down to x itself: the recursive query behind breadcrumbs. */
  function Chain(folders: Folders, x: FolderId, ghost rank: map<FolderId, nat>): seq<FolderId>
    requires Ranked(folders, rank)
    decreases if x in folders then rank[x] + 1 else 0
  {
    if x !in folders then []
    else match folders[x].parent
      case None => [x]
      case Some(p) => assert HasParent(folders, x, p); Chain(folders, p, rank) + [x]
  }

  function Ancestors(folders: Folders, x: FolderId): seq<FolderId>
    requires Forest(folders)
  {
    Chain(folders, x, RankOf(folders))
  }

  // ---------------------------------------------------------------- the downward query

  function Children(folders: Folders, level: set<FolderId>): set<FolderId> {
    set x | x in folders && folders[x].parent.Some? && folders[x].parent.value in level
  }

  /** UNION ALL, level by level, until a level is empty. On a cycle it would never end: that the
      ranks bound it is what makes it a function. */
  function Levels(folders: Folders, level: set<FolderId>, ghost rank: map<FolderId, nat>, ghost low: nat,
                  ghost top: nat): set<FolderId>
    requires Ranked(folders, rank) && level <= folders.Keys
    requires forall x :: x in folders ==> rank[x] < top
    requires forall x :: x in level ==> low <= rank[x]
    decreases if level == {} then 0 else 1, top - low
  {
    if level == {} then {}
    else
      assert exists x :: x in level && low <= rank[x] < top;
      level + Levels(folders, Children(folders, level), rank, low + 1, top)
  }

  ghost function TopOf(ids: set<FolderId>, rank: map<FolderId, nat>): (top: nat)
    requires forall x :: x in ids ==> x in rank
    ensures forall x :: x in ids ==> rank[x] < top
  {
    if ids == {} then 0
    else
      var x :| x in ids;
      var rest := TopOf(ids - {x}, rank);
      if rank[x] < rest then rest else rank[x] + 1
  }

  /** The subtree of f, f included; nothing if there is no such folder. */
  function Descendants(folders: Folders, f: FolderId): set<FolderId>
    requires Forest(folders)
  {
    ghost var rank := RankOf(folders);
    Levels(folders, if f in folders then {f} else {}, rank, 0, TopOf(folders.Keys, rank))
  }

  predicate IsSelfOrDescendant(folders: Folders, f: FolderId, candidate: FolderId)
    requires Forest(folders)
  {
    candidate in Descendants(folders, f)
  }

  // ---------------------------------------------------------------- the two queries agree

  ghost predicate OnChain(folders: Folders, a: FolderId, x: FolderId, rank: map<FolderId, nat>)
    requires Ranked(folders, rank)
  {
    a in Chain(folders, x, rank)
  }

  lemma ChainUnfold(folders: Folders, a: FolderId, x: FolderId, rank: map<FolderId, nat>)
    requires Ranked(folders, rank)
    ensures OnChain(folders, a, x, rank) <==>
      x in folders && (a == x || (folders[x].parent.Some? && OnChain(folders, a, folders[x].parent.value, rank)))
  {
  }

  /** Everything on the chain of x exists and does not rank above x. */
  lemma {:induction false} ChainRanks(folders: Folders, a: FolderId, x: FolderId, rank: map<FolderId, nat>)
    requires Ranked(folders, rank) && OnChain(folders, a, x, rank)
    ensures a in folders && x in folders && rank[a] <= rank[x] && folders[a].org == folders[x].org
    ensures a != x ==> rank[a] < rank[x]
    decreases rank[x]
  {
    ChainUnfold(folders, a, x, rank);
    if a != x {
      var p := folders[x].parent.value;
      assert HasParent(folders, x, p);
      ChainRanks(folders, a, p, rank);
    }
  }

  /** On the way from x up to a, the step before a is a child of a. */
  lemma {:induction false} ChainChild(folders: Folders, a: FolderId, x: FolderId, rank: map<FolderId, nat>)
    returns (b: FolderId)
    requires Ranked(folders, rank) && OnChain(folders, a, x, rank) && a != x
    ensures HasParent(folders, b, a) && OnChain(folders, b, x, rank)
    decreases rank[x]
  {
    ChainUnfold(folders, a, x, rank);
    var p := folders[x].parent.value;
    assert HasParent(folders, x, p);
    ChainUnfold(folders, x, x, rank);
    if a == p {
      b := x;
    } else {
      b := ChainChild(folders, a, p, rank);
      ChainUnfold(folders, b, x, rank);
    }
  }

  /** A chain through b goes on through the parent of b. */
  lemma {:induction false} ChainParent(folders: Folders, b: FolderId, a: FolderId, x: FolderId,
                                       rank: map<FolderId, nat>)
    requires Ranked(folders, rank) && OnChain(folders, b, x, rank) && HasParent(folders, b, a)
    ensures OnChain(folders, a, x, rank)
    decreases rank[x]
  {
    ChainUnfold(folders, b, x, rank);
    ChainUnfold(folders, a, x, rank);
    if b == x {
      ChainUnfold(folders, a, a, rank);
    } else {
      assert HasParent(folders, x, folders[x].parent.value);
      ChainParent(folders, b, a, folders[x].parent.value, rank);
    }
  }

  lemma {:induction false} LevelsAreChains(folders: Folders, level: set<FolderId>, rank: map<FolderId, nat>, low: nat,
                                           top: nat, x: FolderId)
    requires Ranked(folders, rank) && level <= folders.Keys
    requires forall y :: y in folders ==> rank[y] < top
    requires forall y :: y in level ==> low <= rank[y]
    ensures x in Levels(folders, level, rank, low, top) <==> exists a :: a in level && OnChain(folders, a, x, rank)
    decreases if level == {} then 0 else 1, top - low
  {
    if level != {} {
      assert exists y :: y in level && low <= rank[y] < top;
      var next := Children(folders, level);
      LevelsAreChains(folders, next, rank, low + 1, top, x);
      if x in level { ChainUnfold(folders, x, x, rank); }
      forall a | a in level && OnChain(folders, a, x, rank)
        ensures x in level || exists b :: b in next && OnChain(folders, b, x, rank)
      {
        if a != x {
          var b := ChainChild(folders, a, x, rank);
          assert b in next;
        }
      }
      forall b | b in next && OnChain(folders, b, x, rank)
        ensures exists a :: a in level && OnChain(folders, a, x, rank)
      {
        ChainParent(folders, b, folders[b].parent.value, x, rank);
      }
    }
  }

  lemma {:induction false} ChainIgnoresRank(folders: Folders, x: FolderId, rank: map<FolderId, nat>,
                                            rank': map<FolderId, nat>)
    requires Ranked(folders, rank) && Ranked(folders, rank')
    ensures Chain(folders, x, rank) == Chain(folders, x, rank')
    decreases if x in folders then rank[x] + 1 else 0
  {
    if x in folders && folders[x].parent.Some? {
      assert HasParent(folders, x, folders[x].parent.value);
      ChainIgnoresRank(folders, folders[x].parent.value, rank, rank');
    }
  }

  /** A move target is below the folder exactly when the folder is on the target's breadcrumb trail. */
  lemma QueriesAgree(folders: Folders, f: FolderId, candidate: FolderId)
    requires Forest(folders)
    ensures IsSelfOrDescendant(folders, f, candidate) <==> f in Ancestors(folders, candidate)
  {
    var rank := RankOf(folders);
    LevelsAreChains(folders, if f in folders then {f} else {}, rank, 0, TopOf(folders.Keys, rank), candidate);
    if OnChain(folders, f, candidate, rank) { ChainRanks(folders, f, candidate, rank); }
  }

  /** The subtree of f is closed under children, and up to f under parents. */
  lemma SubtreeClosed(folders: Folders, f: FolderId)
    requires Forest(folders)
    ensures f in folders ==> f in Descendants(folders, f)
    ensures Descendants(folders, f) <= folders.Keys
    ensures forall x, p :: HasParent(folders, x, p) && p in Descendants(folders, f) ==> x in Descendants(folders, f)
    ensures forall x, p :: HasParent(folders, x, p) && x in Descendants(folders, f) && x != f ==>
      p in Descendants(folders, f)
    ensures forall x :: x in Descendants(folders, f) ==> f in folders && folders[x].org == folders[f].org
  {
    var rank := RankOf(folders);
    forall x ensures x in Descendants(folders, f) <==> OnChain(folders, f, x, rank) {
      QueriesAgree(folders, f, x);
    }
    forall x | x in Descendants(folders, f) ensures x in folders && f in folders && folders[x].org == folders[f].org {
      ChainRanks(folders, f, x, rank);
    }
    if f in folders { ChainUnfold(folders, f, f, rank); }
    forall x, p | HasParent(folders, x, p)
      ensures p in Descendants(folders, f) ==> x in Descendants(folders, f)
      ensures x in Descendants(folders, f) && x != f ==> p in Descendants(folders, f)
    {
      ChainUnfold(folders, f, x, rank);
    }
  }

  // ---------------------------------------------------------------- what keeps the forest

  function Attach(folders: Folders, id: FolderId, org: OrgId, parent: Option<FolderId>): Folders {
    folders[id := Folder(org, parent, None)]
  }

  lemma CreateKeepsForest(folders: Folders, id: FolderId, org: OrgId, parent: Option<FolderId>)
    requires Forest(folders) && id !in folders
    requires parent.Some? ==> parent.value in folders && folders[parent.value].org == org
    ensures Forest(Attach(folders, id, org, parent))
  {
    var rank := RankOf(folders);
    var rank' := rank[id := if parent.Some? then rank[parent.value] + 1 else 0];
    assert Ranked(Attach(folders, id, org, parent), rank');
  }

  /** The cycle check is enough: moving a folder below anything outside its own subtree, in the
      same organization, keeps the forest. */
  lemma MoveKeepsForest(folders: Folders, id: FolderId, parent: Option<FolderId>)
    requires Forest(folders) && id in folders
    requires parent.Some? ==>
      && parent.value in folders && folders[parent.value].org == folders[id].org
      && !IsSelfOrDescendant(folders, id, parent.value)
    ensures Forest(folders[id := folders[id].(parent := parent)])
  {
    var rank := RankOf(folders);
    var below := Descendants(folders, id);
    SubtreeClosed(folders, id);
    var lift := if parent.Some? then rank[parent.value] + 1 else 0;
    var rank' := map x | x in folders :: if x in below then rank[x] + lift else rank[x];
    var folders' := folders[id := folders[id].(parent := parent)];
    forall x, p | HasParent(folders', x, p)
      ensures p in folders' && folders'[p].org == folders'[x].org && rank'[p] < rank'[x]
    {
      if x != id { assert HasParent(folders, x, p); }
    }
    assert Ranked(folders', rank');
  }

  /** And it is needed: any other target in the table closes a cycle. */
  lemma MoveBelowItselfBreaksForest(folders: Folders, id: FolderId, target: FolderId)
    requires Forest(folders) && id in folders && IsSelfOrDescendant(folders, id, target)
    ensures !Forest(folders[id := folders[id].(parent := Some(target))])
  {
    var folders' := folders[id := folders[id].(parent := Some(target))];
    if Forest(folders') {
      var rank, rank' := RankOf(folders), RankOf(folders');
      QueriesAgree(folders, id, target);
      ChainTransfers(folders, folders', id, target, rank, rank');
      ChainRanks(folders', id, target, rank');
      assert HasParent(folders', id, target);
      assert false;
    }
  }

  /** Above id the two tables may differ; from target up to id they do not. */
  lemma {:induction false} ChainTransfers(folders: Folders, folders': Folders, id: FolderId, x: FolderId,
                                          rank: map<FolderId, nat>, rank': map<FolderId, nat>)
    requires Ranked(folders, rank) && Ranked(folders', rank') && OnChain(folders, id, x, rank)
    requires id in folders' && forall y :: y in folders && y != id ==> y in folders' && folders'[y] == folders[y]
    ensures OnChain(folders', id, x, rank')
    decreases if x in folders then rank[x] + 1 else 0
  {
    ChainUnfold(folders, id, x, rank);
    ChainUnfold(folders', id, x, rank');
    if x != id {
      assert HasParent(folders, x, folders[x].parent.value);
      ChainTransfers(folders, folders', id, folders[x].parent.value, rank, rank');
    }
  }

  /** ON DELETE CASCADE: rows whose parent is going go too, until no more do. */
  function Cascade(folders: Folders, gone: set<FolderId>): set<FolderId>
    requires gone <= folders.Keys
    decreases folders.Keys - gone
  {
    var more := Children(folders, gone) - gone;
    if more == {} then gone else Cascade(folders, gone + more)
  }

  lemma {:induction false} CascadeStaysInside(folders: Folders, gone: set<FolderId>, within: set<FolderId>)
    requires gone <= within <= folders.Keys
    requires forall x, p :: HasParent(folders, x, p) && p in within ==> x in within
    ensures Cascade(folders, gone) <= within
    decreases folders.Keys - gone
  {
    var more := Children(folders, gone) - gone;
    forall x | x in more ensures x in within {
      assert HasParent(folders, x, folders[x].parent.value);
    }
    if more != {} { CascadeStaysInside(folders, gone + more, within); }
  }

  lemma {:induction false} CascadeIsClosed(folders: Folders, gone: set<FolderId>)
    requires gone <= folders.Keys
    ensures gone <= Cascade(folders, gone) <= folders.Keys
    ensures forall x, p :: HasParent(folders, x, p) && p in Cascade(folders, gone) ==> x in Cascade(folders, gone)
    decreases folders.Keys - gone
  {
    var more := Children(folders, gone) - gone;
    if more != {} {
      CascadeIsClosed(folders, gone + more);
    } else {
      forall x, p | HasParent(folders, x, p) && p in gone ensures x in gone {
        assert x in Children(folders, gone) && x !in more;
      }
    }
  }

  /** What the foreign keys delete is exactly what the guard's subtree query saw. */
  lemma CascadeIsSubtree(folders: Folders, f: FolderId)
    requires Forest(folders) && f in folders
    ensures Cascade(folders, {f}) == Descendants(folders, f)
  {
    SubtreeClosed(folders, f);
    CascadeStaysInside(folders, {f}, Descendants(folders, f));
    CascadeIsClosed(folders, {f});
    var rank := RankOf(folders);
    forall x | x in Descendants(folders, f) ensures x in Cascade(folders, {f}) {
      QueriesAgree(folders, f, x);
      ChainIntoClosed(folders, f, x, rank, Cascade(folders, {f}));
    }
  }

  lemma {:induction false} ChainIntoClosed(folders: Folders, f: FolderId, x: FolderId, rank: map<FolderId, nat>,
                                           closed: set<FolderId>)
    requires Ranked(folders, rank) && OnChain(folders, f, x, rank) && f in closed
    requires forall y, p :: HasParent(folders, y, p) && p in closed ==> y in closed
    ensures x in closed
    decreases if x in folders then rank[x] + 1 else 0
  {
    ChainUnfold(folders, f, x, rank);
    if x != f {
      assert HasParent(folders, x, folders[x].parent.value);
      ChainIntoClosed(folders, f, folders[x].parent.value, rank, closed);
    }
  }

  lemma PurgeKeepsForest(folders: Folders, f: FolderId)
    requires Forest(folders)
    ensures Forest(folders - Descendants(folders, f))
  {
    var rank := RankOf(folders);
    SubtreeClosed(folders, f);
    var folders' := folders - Descendants(folders, f);
    forall x, p | HasParent(folders', x, p)
      ensures p in folders' && folders'[p].org == folders'[x].org && rank[p] < rank[x]
    {
      assert HasParent(folders, x, p);
    }
    assert Ranked(folders', rank);
  }

  /** Trashing and restoring leave the shape alone. */
  lemma SameShapeKeepsForest(folders: Folders, folders': Folders)
    requires Forest(folders) && folders'.Keys == folders.Keys
    requires forall x :: x in folders ==> folders'[x].parent == folders[x].parent && folders'[x].org == folders[x].org
    ensures Forest(folders')
  {
    var rank := RankOf(folders);
    forall x, p | HasParent(folders', x, p) ensures HasParent(folders, x, p) {
      assert x in folders'.Keys;
    }
    assert Ranked(folders', rank);
  }
}
