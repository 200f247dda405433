/**
 Two moves at once: each checks its target against the table as it was, and only then do both write.
 One alone never closes a cycle; together they do exactly when each folder goes into the other's subtree.
 */
module FolderMoves {
  import opened Entities
  import opened FolderForest

  /** The UPDATE of a move. */
  function Moved(folders: Folders, id: FolderId, target: FolderId): Folders
    requires id in folders
  {
    folders[id := folders[id].(parent := Some(target))]
  }

  /** What the checks of a move have established. */
  predicate Checked(folders: Folders, id: FolderId, target: FolderId)
    requires Forest(folders)
  {
    && id in folders && target in folders && folders[target].org == folders[id].org
    && !IsSelfOrDescendant(folders, id, target)
  }

  ghost predicate Above(folders: Folders, a: FolderId, x: FolderId)
    requires Forest(folders)
  {
    a in Ancestors(folders, x)
  }

  lemma AboveUnfold(folders: Folders, a: FolderId, x: FolderId)
    requires Forest(folders)
    ensures Above(folders, a, x) <==>
      x in folders && (a == x || (folders[x].parent.Some? && Above(folders, a, folders[x].parent.value)))
  {
    ChainUnfold(folders, a, x, RankOf(folders));
  }

  lemma AboveEachOther(folders: Folders, a: FolderId, b: FolderId)
    requires Forest(folders) && Above(folders, a, b) && Above(folders, b, a)
    ensures a == b
  {
    ChainRanks(folders, a, b, RankOf(folders));
    ChainRanks(folders, b, a, RankOf(folders));
  }

  /** The chain of a folder that a is not on stays as it is when a moves. */
  lemma {:induction false} FarFromMove(folders: Folders, a: FolderId, p: FolderId, b: FolderId, x: FolderId, n: nat)
    requires Forest(folders) && Checked(folders, a, p) && Forest(Moved(folders, a, p)) && !Above(folders, a, x)
    requires x in folders ==> RankOf(folders)[x] < n
    ensures Above(Moved(folders, a, p), b, x) <==> Above(folders, b, x)
    decreases n
  {
    var moved := Moved(folders, a, p);
    AboveUnfold(folders, b, x);
    AboveUnfold(folders, a, x);
    AboveUnfold(moved, b, x);
    if x in folders && folders[x].parent.Some? {
      var y := folders[x].parent.value;
      assert HasParent(folders, x, y);
      FarFromMove(folders, a, p, b, y, n - 1);
    }
  }

  /** The chain of a folder below a goes on above a as the target's chain. */
  lemma {:induction false} ThroughMove(folders: Folders, a: FolderId, p: FolderId, b: FolderId, x: FolderId, n: nat)
    requires Forest(folders) && Checked(folders, a, p) && Forest(Moved(folders, a, p)) && Above(folders, a, x)
    requires x in folders ==> RankOf(folders)[x] < n
    ensures Above(Moved(folders, a, p), b, x) <==>
      (Above(folders, b, x) && Above(folders, a, b)) || Above(folders, b, p)
    decreases n
  {
    var moved := Moved(folders, a, p);
    AboveUnfold(folders, b, x);
    AboveUnfold(folders, a, x);
    AboveUnfold(moved, b, x);
    AboveUnfold(folders, a, a);
    QueriesAgree(folders, a, p);
    if x == a {
      FarFromMove(folders, a, p, b, p, RankOf(folders)[p] + 1);
      if Above(folders, b, a) && Above(folders, a, b) { AboveEachOther(folders, a, b); }
    } else {
      var y := folders[x].parent.value;
      assert HasParent(folders, x, y);
      ThroughMove(folders, a, p, b, y, n - 1);
    }
  }

  /** Two moves that each pass their checks on the same table leave a forest, in whatever order they
      write, unless each target lies in the subtree of the other folder. */
  lemma TwoMovesKeepForestIff(folders: Folders, a: FolderId, p: FolderId, b: FolderId, q: FolderId)
    requires Forest(folders) && a != b && Checked(folders, a, p) && Checked(folders, b, q)
    ensures Forest(Moved(Moved(folders, a, p), b, q)) <==>
      !(IsSelfOrDescendant(folders, a, q) && IsSelfOrDescendant(folders, b, p))
    ensures Moved(Moved(folders, a, p), b, q) == Moved(Moved(folders, b, q), a, p)
  {
    var moved := Moved(folders, a, p);
    MoveKeepsForest(folders, a, Some(p));
    QueriesAgree(moved, b, q);
    QueriesAgree(folders, a, q);
    QueriesAgree(folders, b, p);
    QueriesAgree(folders, b, q);
    var n := RankOf(folders)[q] + 1;
    if Above(folders, a, q) { ThroughMove(folders, a, p, b, q, n); } else { FarFromMove(folders, a, p, b, q, n); }
    if IsSelfOrDescendant(moved, b, q) {
      MoveBelowItselfBreaksForest(moved, b, q);
    } else {
      MoveKeepsForest(moved, b, Some(q));
    }
  }

  /** The smallest case: two folders, each moved into the other. */
  lemma EachIntoTheOther(a: FolderId, b: FolderId, org: OrgId)
    requires a != b
    ensures var folders := map[a := Folder(org, None, None), b := Folder(org, None, None)];
      Forest(folders) && Checked(folders, a, b) && Checked(folders, b, a) && !Forest(Moved(Moved(folders, a, b), b, a))
  {
    var folders := map[a := Folder(org, None, None), b := Folder(org, None, None)];
    assert Ranked(folders, map[a := 0, b := 0]);
    AboveUnfold(folders, a, b);
    AboveUnfold(folders, b, a);
    AboveUnfold(folders, a, a);
    AboveUnfold(folders, b, b);
    QueriesAgree(folders, a, b);
    QueriesAgree(folders, b, a);
    QueriesAgree(folders, a, a);
    QueriesAgree(folders, b, b);
    TwoMovesKeepForestIff(folders, a, b, b, a);
  }
}
