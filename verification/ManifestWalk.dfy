/**
 * The manifest walk as a function of the sets collected so far, and what a caller can rely on.
 * `ManifestChainWalker` holds the code that fills the sets in place.
 */
module ManifestWalk {
  import opened ManifestStore

  datatype WalkOptions = WalkOptions(recurseIntoSources: bool, recurseIntoCollectionAssets: bool, maxDepth: nat)

  datatype WalkError = ReadFailed(cid: Cid) | RefsFailed(cid: Cid) | Truncated(start: Cid, next: Cid)

  datatype WalkResult = WalkResult(visited: set<Cid>, assetUnique: set<Cid>, shared: set<Cid>, allReachable: set<Cid>, errors: seq<WalkError>)

  /** Presence of this string in the reachable set makes the walk skip a source's references. */
  function FailedMarker(c: Cid): Cid {
    "__json_failed_" + c
  }

  predicate SceneUnusable(store: Store, c: Cid) {
    HasManifest(store, c) && ManifestOf(store, c).Asset? && ManifestOf(store, c).scene.Unusable?
  }

  // ---------------------------------------------------------------------------------------
  // The walk as a function of the sets collected so far
  // ---------------------------------------------------------------------------------------

  datatype Walk = Walk(visited: set<Cid>, assetUnique: set<Cid>, shared: set<Cid>, allReachable: set<Cid>, errors: seq<WalkError>, threw: bool)

  const EMPTY_WALK := Walk({}, {}, {}, {}, [], false)

  function AddShared(w: Walk, cids: set<Cid>): Walk {
    w.(shared := w.shared + cids, allReachable := w.allReachable + cids)
  }

  function AddEmbedded(store: Store, w: Walk, c: Cid): Walk {
    if c == "" || FailedMarker(c) in w.allReachable then w
    else if store(c).Unreadable? then w.(errors := w.errors + [RefsFailed(c)])
    else w.(allReachable := w.allReachable + EmbeddedRefs(store, c))
  }

  function AddNode(store: Store, o: WalkOptions, w: Walk, node: SceneNode): Walk {
    var w1 := AddShared(w, node.sourceCid.Cids());
    var w2 := if node.sourceCid.Text? && o.recurseIntoSources then AddEmbedded(store, w1, node.sourceCid.s) else w1;
    AddShared(AddShared(w2, node.bundleCid.Cids()), ImageCids(node))
  }

  function AddNodes(store: Store, o: WalkOptions, w: Walk, nodes: seq<SceneNode>): Walk {
    if nodes == [] then w
    else AddNode(store, o, AddNodes(store, o, w, nodes[..|nodes| - 1]), nodes[|nodes| - 1])
  }

  function AddAssetManifest(store: Store, o: WalkOptions, w: Walk, m: Manifest): Walk {
    var w1 := w.(assetUnique := w.assetUnique + OwnCids(m), allReachable := w.allReachable + OwnCids(m));
    if m.Asset? && m.scene.Unusable? then w1.(threw := true) else AddNodes(store, o, w1, NodesOf(m))
  }

  function AddAssets(store: Store, o: WalkOptions, w: Walk, assets: seq<Field>): Walk
    decreases o.recurseIntoCollectionAssets, 1, |assets|
  {
    if assets == [] then w else
    var w1 := AddAssets(store, o, w, assets[..|assets| - 1]);
    var asset := assets[|assets| - 1];
    if w1.threw || asset.Cids() == {} then w1
    else if o.recurseIntoCollectionAssets then
      WalkChain(store, o.(recurseIntoCollectionAssets := false), asset.s, asset.s, 0, w1)
    else AddShared(w1, {asset.s})
  }

  /** Reads one CID and records its manifest, or the failure to read it. */
  function VisitCid(store: Store, o: WalkOptions, w: Walk, c: Cid): Walk
    decreases o.recurseIntoCollectionAssets, 2
  {
    var w1 := w.(visited := w.visited + {c});
    if !store(c).Json? then w1.(errors := w1.errors + [ReadFailed(c)])
    else if store(c).manifest.None? then w1
    else
      var m := ManifestOf(store, c);
      var w2 := w1.(assetUnique := w1.assetUnique + {c}, allReachable := w1.allReachable + {c});
      if m.Collection? then AddAssets(store, o, w2, m.assets) else AddAssetManifest(store, o, w2, m)
  }

  function WalkChain(store: Store, o: WalkOptions, start: Cid, current: Cid, depth: nat, w: Walk): Walk
    decreases o.recurseIntoCollectionAssets, 3, o.maxDepth - depth
  {
    if current == "" || current in w.visited then w
    else if depth >= o.maxDepth then w.(errors := w.errors + [Truncated(start, current)])
    else
      var w1 := VisitCid(store, o, w, current);
      if w1.threw then w1 else WalkChain(store, o, start, PrevOf(store, current), depth + 1, w1)
  }

  // ---------------------------------------------------------------------------------------
  // What one manifest adds
  // ---------------------------------------------------------------------------------------

  /** A walk only ever adds. */
  ghost predicate Grows(w: Walk, r: Walk) {
    w.visited <= r.visited && w.allReachable <= r.allReachable && w.errors <= r.errors
  }

  lemma FieldCidsContains(fields: seq<Field>, i: nat)
    requires i < |fields|
    ensures fields[i].Cids() <= FieldCids(fields)
  {
    if i < |fields| - 1 {
      FieldCidsContains(fields[..|fields| - 1], i);
    }
  }

  lemma NodeAdds(store: Store, o: WalkOptions, w: Walk, node: SceneNode)
    ensures
      var r := AddNode(store, o, w, node);
      var named := node.sourceCid.Cids() + node.bundleCid.Cids() + ImageCids(node);
      && r == w.(shared := w.shared + named, allReachable := r.allReachable, errors := r.errors)
      && w.errors <= r.errors && (!o.recurseIntoSources ==> r.errors == w.errors)
      && w.allReachable + named <= r.allReachable
      && r.allReachable <= w.allReachable + named + (if o.recurseIntoSources then NodeRefs(store, node) else {})
  {
  }

  lemma {:induction false} NodesAdd(store: Store, o: WalkOptions, w: Walk, nodes: seq<SceneNode>)
    ensures
      var r := AddNodes(store, o, w, nodes);
      && r == w.(shared := r.shared, allReachable := r.allReachable, errors := r.errors)
      && r.shared == w.shared + SharedCids(nodes)
      && w.errors <= r.errors && (!o.recurseIntoSources ==> r.errors == w.errors)
      && w.allReachable + SharedCids(nodes) <= r.allReachable
      && r.allReachable <= w.allReachable + SharedCids(nodes) +
                           (if o.recurseIntoSources then EmbeddedOf(store, nodes) else {})
  {
    if nodes != [] {
      NodesAdd(store, o, w, nodes[..|nodes| - 1]);
      NodeAdds(store, o, AddNodes(store, o, w, nodes[..|nodes| - 1]), nodes[|nodes| - 1]);
    }
  }

  /** With no error, every source whose own marker is not collected was read and has its references collected. */
  lemma {:induction false} NodesAddReferences(store: Store, o: WalkOptions, w: Walk, nodes: seq<SceneNode>, source: Cid)
    requires o.recurseIntoSources && source in SourceCids(nodes)
    requires FailedMarker(source) !in AddNodes(store, o, w, nodes).allReachable
    requires AddNodes(store, o, w, nodes).errors == []
    ensures !store(source).Unreadable? && EmbeddedRefs(store, source) <= AddNodes(store, o, w, nodes).allReachable
  {
    var before, last := nodes[..|nodes| - 1], nodes[|nodes| - 1];
    NodeAdds(store, o, AddNodes(store, o, w, before), last);
    if source in SourceCids(before) {
      NodesAddReferences(store, o, w, before, source);
    }
  }

  lemma AssetManifestAdds(store: Store, o: WalkOptions, w: Walk, m: Manifest)
    requires m.Asset?
    ensures
      var r := AddAssetManifest(store, o, w, m);
      && r.visited == w.visited && r.assetUnique == w.assetUnique + OwnCids(m)
      && r.shared == w.shared + SharedCids(NodesOf(m))
      && Grows(w, r) && (!o.recurseIntoSources ==> r.errors == w.errors)
      && r.allReachable <= w.allReachable + Leaves(store, o.recurseIntoSources, m)
      && r.threw == (w.threw || m.scene.Unusable?)
      && (!o.recurseIntoSources ==> r.allReachable == w.allReachable + Leaves(store, false, m))
  {
    var w1 := w.(assetUnique := w.assetUnique + OwnCids(m), allReachable := w.allReachable + OwnCids(m));
    NodesAdd(store, o, w1, NodesOf(m));
  }

  /** Where collection assets are not followed, they are listed. */
  lemma {:induction false} AssetsAreListed(store: Store, o: WalkOptions, w: Walk, assets: seq<Field>)
    requires !o.recurseIntoCollectionAssets && !w.threw
    ensures AddAssets(store, o, w, assets) == AddShared(w, FieldCids(assets))
  {
    if assets != [] {
      AssetsAreListed(store, o, w, assets[..|assets| - 1]);
    }
  }
}
