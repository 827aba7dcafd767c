/** Choosing which matched anchors to reload: those with no matched ancestor. */
module ChildRefs {
  type NodeId = string

  /** A scene anchor. Parents may be plain scene nodes without a node id. */
  class Anchor {
    const nodeId: NodeId
    const hasNodeId: bool
    var parent: Anchor?

    constructor (nodeId: NodeId, hasNodeId: bool, parent: Anchor?)
      ensures this.nodeId == nodeId && this.hasNodeId == hasNodeId && this.parent == parent
    {
      this.nodeId, this.hasNodeId, this.parent := nodeId, hasNodeId, parent;
    }
  }

  /** A scene: every parent of an anchor belongs to it and has a smaller depth, so there is no cycle. */
  ghost predicate Forest(scene: set<Anchor>, depth: map<Anchor, nat>)
    reads scene
  {
    && scene <= depth.Keys
    && forall a :: a in scene && a.parent != null ==> a.parent in scene && depth[a.parent] < depth[a]
  }

  /** `b` lies above `a` in the parent forest. */
  ghost predicate Above(scene: set<Anchor>, depth: map<Anchor, nat>, b: Anchor, a: Anchor)
    requires Forest(scene, depth) && a in scene
    reads scene
    decreases depth[a]
  {
    a.parent != null && (a.parent == b || Above(scene, depth, b, a.parent))
  }

  lemma {:induction false} AboveIsInScene(scene: set<Anchor>, depth: map<Anchor, nat>, b: Anchor, a: Anchor)
    requires Forest(scene, depth) && a in scene && Above(scene, depth, b, a)
    ensures b in scene && depth[b] < depth[a]
    decreases depth[a]
  {
    if a.parent != b {
      AboveIsInScene(scene, depth, b, a.parent);
    }
  }

  lemma {:induction false} AboveIsTransitive(scene: set<Anchor>, depth: map<Anchor, nat>, c: Anchor, b: Anchor, a: Anchor)
    requires Forest(scene, depth) && a in scene && b in scene
    requires Above(scene, depth, b, a) && Above(scene, depth, c, b)
    ensures Above(scene, depth, c, a)
    decreases depth[a]
  {
    if a.parent != b {
      AboveIsTransitive(scene, depth, c, b, a.parent);
    }
  }

  /** Node ids name anchors: within the scene, anchors with ids have distinct ones. */
  ghost predicate DistinctIds(scene: set<Anchor>) {
    forall a, b :: a in scene && b in scene && a.hasNodeId && b.hasNodeId && a.nodeId == b.nodeId ==> a == b
  }

  function IdsOf(matches: seq<Anchor>): set<NodeId> {
    set m | m in matches :: m.nodeId
  }

  /** The matches of an update are anchors of the scene, listed under their own ids. */
  ghost predicate Matches(scene: set<Anchor>, matches: seq<Anchor>) {
    forall m :: m in matches ==> m in scene && m.hasNodeId && m.nodeId != ""
  }

  /** Some ancestor of `a` is matched. */
  ghost predicate Covered(scene: set<Anchor>, depth: map<Anchor, nat>, matches: seq<Anchor>, a: Anchor)
    requires Forest(scene, depth) && a in scene
    reads scene
  {
    exists b :: b in matches && b in scene && Above(scene, depth, b, a)
  }

  /** Walks up the parents, looking for a matched id. */
  method CoveredByMatchedAncestor(anchor: Anchor, matchedIds: set<NodeId>, ghost scene: set<Anchor>, ghost depth: map<Anchor, nat>, ghost matches: seq<Anchor>)
    returns (covered: bool)
    requires Forest(scene, depth) && anchor in scene && DistinctIds(scene)
    requires Matches(scene, matches) && matchedIds == IdsOf(matches)
    ensures covered <==> Covered(scene, depth, matches, anchor)
  {
    var p := anchor.parent;
    while p != null
      invariant p != null ==> p in scene && Above(scene, depth, p, anchor)
      invariant forall b :: b in matches && Above(scene, depth, b, anchor) ==> p != null && (b == p || Above(scene, depth, b, p))
      decreases if p == null then 0 else depth[p] + 1
    {
      if p.hasNodeId && p.nodeId != "" && p.nodeId in matchedIds {
        ghost var m :| m in matches && m.nodeId == p.nodeId;
        assert m == p;
        return true;
      }
      if p.parent != null {
        AboveIsTransitive(scene, depth, p.parent, p, anchor);
      }
      p := p.parent;
    }
    return false;
  }

  /** `roots` are the matched anchors with no matched anchor above them. */
  ghost predicate Uncovered(scene: set<Anchor>, depth: map<Anchor, nat>, matches: seq<Anchor>, roots: seq<Anchor>)
    requires Forest(scene, depth) && Matches(scene, matches)
    reads scene
  {
    && (forall a :: a in roots ==> a in matches && !Covered(scene, depth, matches, a))
    && (forall a :: a in matches && !Covered(scene, depth, matches, a) ==> a in roots)
  }

  /** Every match is a root or lies under one: every stale subtree is reloaded. */
  lemma {:induction false} RootsCoverEveryMatch(scene: set<Anchor>, depth: map<Anchor, nat>, matches: seq<Anchor>, roots: seq<Anchor>, a: Anchor)
    returns (root: Anchor)
    requires Forest(scene, depth) && Matches(scene, matches) && Uncovered(scene, depth, matches, roots)
    requires a in matches
    ensures root in roots && root in scene && (root == a || Above(scene, depth, root, a))
    decreases depth[a]
  {
    if Covered(scene, depth, matches, a) {
      var b :| b in matches && b in scene && Above(scene, depth, b, a);
      AboveIsInScene(scene, depth, b, a);
      root := RootsCoverEveryMatch(scene, depth, matches, roots, b);
      if root != b {
        AboveIsTransitive(scene, depth, root, b, a);
      }
    } else {
      root := a;
    }
  }

  /** `root` is `a` itself or an anchor above it. */
  ghost predicate Reaches(scene: set<Anchor>, depth: map<Anchor, nat>, root: Anchor, a: Anchor)
    requires Forest(scene, depth) && a in scene
    reads scene
  {
    root == a || Above(scene, depth, root, a)
  }

  /** The handler of an update: the anchors it reloads are exactly the uncovered matches, each once. */
  method ReloadRoots(matches: seq<Anchor>, ghost scene: set<Anchor>, ghost depth: map<Anchor, nat>) returns (roots: seq<Anchor>)
    requires Forest(scene, depth) && DistinctIds(scene) && Matches(scene, matches)
    requires forall i, j :: 0 <= i < j < |matches| ==> matches[i] != matches[j]
    ensures Uncovered(scene, depth, matches, roots)
    // No root lies above another, so no subtree is reloaded twice.
    ensures forall a, b :: a in roots && b in roots ==> !Above(scene, depth, b, a)
    // Every match is reloaded, by itself or with a root above it.
    ensures forall a :: a in matches ==> exists root :: root in roots && Reaches(scene, depth, root, a)
    ensures forall i, j :: 0 <= i < j < |roots| ==> roots[i] != roots[j]
  {
    var matchedIds := IdsOf(matches);
    roots := [];
    for i := 0 to |matches|
      invariant forall a :: a in roots <==> a in matches[..i] && !Covered(scene, depth, matches, a)
      invariant forall j, k :: 0 <= j < k < |roots| ==> roots[j] != roots[k]
    {
      assert matches[..i + 1] == matches[..i] + [matches[i]];
      assert matches[i] !in matches[..i];
      var covered := CoveredByMatchedAncestor(matches[i], matchedIds, scene, depth, matches);
      if !covered {
        roots := roots + [matches[i]];
      }
    }
    assert matches[..|matches|] == matches;
    forall a | a in matches ensures exists root :: root in roots && Reaches(scene, depth, root, a) {
      var root := RootsCoverEveryMatch(scene, depth, matches, roots, a);
      assert Reaches(scene, depth, root, a);
    }
  }
}
