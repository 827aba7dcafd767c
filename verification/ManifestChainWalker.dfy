/** The manifest-chain walker: sets and an error list filled in place, one budget per chain. */
module ManifestChainWalker {
  import opened Wrappers
  import opened ManifestStore
  import opened ManifestWalk
  import opened FullWalk
  import opened UnpinWalk
  import opened WalkErrors

  /** What every nested walk of one run shares and updates. */
  class WalkContext {
    var visited: set<Cid>
    var assetUnique: set<Cid>
    var shared: set<Cid>
    var allReachable: set<Cid>
    var errors: seq<WalkError>

    ghost function Collected(threw: bool): Walk
      reads this
    {
      Walk(visited, assetUnique, shared, allReachable, errors, threw)
    }

    constructor ()
      ensures Collected(false) == EMPTY_WALK
    {
      visited, assetUnique, shared, allReachable, errors := {}, {}, {}, {}, [];
    }

    method CollectEmbeddedIpfsCids(store: Store, c: Cid)
      modifies this
      ensures Collected(false) == AddEmbedded(store, old(Collected(false)), c)
    {
      if c == "" || FailedMarker(c) in allReachable {
        return;
      }
      match store(c)
      case Unreadable => errors := errors + [RefsFailed(c)];
      case NotJson =>
      case Json(_, refs) => allReachable := allReachable + refs;
    }

    method AddField(field: Field)
      modifies this
      ensures Collected(false) == AddShared(old(Collected(false)), field.Cids())
    {
      if field.Text? && field.s != "" {
        shared := shared + {field.s};
        allReachable := allReachable + {field.s};
      }
    }

    method AddNodeSource(store: Store, o: WalkOptions, node: SceneNode)
      modifies this
      ensures
        var w := AddShared(old(Collected(false)), node.sourceCid.Cids());
        var w1 := if node.sourceCid.Text? && o.recurseIntoSources then AddEmbedded(store, w, node.sourceCid.s) else w;
        Collected(false) == AddShared(w1, node.bundleCid.Cids())
    {
      AddField(node.sourceCid);
      if node.sourceCid.Text? && node.sourceCid.s != "" && o.recurseIntoSources {
        CollectEmbeddedIpfsCids(store, node.sourceCid.s);
      }
      AddField(node.bundleCid);
    }

    method AddReferenceImages(node: SceneNode)
      modifies this
      ensures Collected(false) == AddShared(old(Collected(false)), ImageCids(node))
    {
      var images := [node.referenceImage] + node.referenceImages;
      for i := 0 to |images|
        invariant Collected(false) == AddShared(old(Collected(false)), FieldCids(images[..i]))
      {
        AddField(images[i]);
        assert images[..i + 1][..i] == images[..i];
      }
      assert images[..|images|] == images;
    }

    method ProcessNode(store: Store, o: WalkOptions, node: SceneNode)
      modifies this
      ensures Collected(false) == AddNode(store, o, old(Collected(false)), node)
    {
      AddNodeSource(store, o, node);
      AddReferenceImages(node);
    }

    method ProcessNodes(store: Store, o: WalkOptions, nodes: seq<SceneNode>)
      modifies this
      ensures Collected(false) == AddNodes(store, o, old(Collected(false)), nodes)
    {
      for i := 0 to |nodes|
        invariant Collected(false) == AddNodes(store, o, old(Collected(false)), nodes[..i])
      {
        ProcessNode(store, o, nodes[i]);
        assert nodes[..i + 1][..i] == nodes[..i];
      }
      assert nodes[..|nodes|] == nodes;
    }

    method AddOwnField(field: Field)
      modifies this
      ensures
        var w := old(Collected(false));
        Collected(false) == w.(assetUnique := w.assetUnique + field.Cids(), allReachable := w.allReachable + field.Cids())
    {
      if field.Text? && field.s != "" {
        assetUnique := assetUnique + {field.s};
        allReachable := allReachable + {field.s};
      }
    }

    method ProcessAssetManifest(store: Store, o: WalkOptions, m: Manifest) returns (threw: bool)
      requires m.Asset?
      modifies this
      ensures Collected(threw) == AddAssetManifest(store, o, old(Collected(false)), m)
    {
      AddOwnField(m.thumbnail);
      AddOwnField(m.archive);
      ghost var w := old(Collected(false));
      assert Collected(false) == w.(assetUnique := w.assetUnique + OwnCids(m), allReachable := w.allReachable + OwnCids(m));
      if m.scene.Unusable? {
        return true;
      }
      ProcessNodes(store, o, m.scene.nodes);
      return false;
    }

    method ProcessCollectionManifest(store: Store, o: WalkOptions, assets: seq<Field>) returns (threw: bool)
      modifies this
      ensures Collected(threw) == AddAssets(store, o, old(Collected(false)), assets)
      decreases o.recurseIntoCollectionAssets, 0
    {
      for i := 0 to |assets|
        invariant Collected(false) == AddAssets(store, o, old(Collected(false)), assets[..i])
      {
        assert assets[..i + 1][..i] == assets[..i];
        if assets[i].NotText? || assets[i].s == "" {
          continue;
        }
        if o.recurseIntoCollectionAssets {
          threw := WalkSingleChain(store, o.(recurseIntoCollectionAssets := false), assets[i].s);
          if threw {
            AddAssetsStops(store, o, old(Collected(false)), assets, i + 1);
            return;
          }
        } else {
          shared := shared + {assets[i].s};
          allReachable := allReachable + {assets[i].s};
        }
      }
      assert assets[..|assets|] == assets;
      return false;
    }

    method WalkSingleChain(store: Store, o: WalkOptions, startCid: Cid) returns (threw: bool)
      modifies this
      ensures Collected(threw) == WalkChain(store, o, startCid, startCid, 0, old(Collected(false)))
      decreases o.recurseIntoCollectionAssets, 2
    {
      var currentCid := startCid;
      var depth := 0;
      while currentCid != ""
        invariant 0 <= depth <= o.maxDepth
        invariant WalkChain(store, o, startCid, currentCid, depth, Collected(false)) ==
                  WalkChain(store, o, startCid, startCid, 0, old(Collected(false)))
        decreases o.maxDepth - depth
      {
        if currentCid in visited {
          break;
        }
        if depth >= o.maxDepth {
          errors := errors + [Truncated(startCid, currentCid)];
          break;
        }
        threw := VisitOne(store, o, currentCid);
        if threw {
          return;
        }
        depth := depth + 1;
        currentCid := if HasManifest(store, currentCid) then ManifestOf(store, currentCid).prev else "";
      }
      return false;
    }

    /** The body of one step of the chain loop: mark, read, record. */
    method VisitOne(store: Store, o: WalkOptions, currentCid: Cid) returns (threw: bool)
      modifies this
      ensures Collected(threw) == VisitCid(store, o, old(Collected(false)), currentCid)
      decreases o.recurseIntoCollectionAssets, 1
    {
      visited := visited + {currentCid};
      if !store(currentCid).Json? {
        errors := errors + [ReadFailed(currentCid)];
        return false;
      }
      if store(currentCid).manifest.None? {
        return false;
      }
      var manifest := store(currentCid).manifest.value;
      assetUnique := assetUnique + {currentCid};
      allReachable := allReachable + {currentCid};
      if manifest.Collection? {
        threw := ProcessCollectionManifest(store, o, manifest.assets);
      } else {
        threw := ProcessAssetManifest(store, o, manifest);
      }
    }
  }

  /** Once an asset's walk has thrown, the rest of the collection is not looked at. */
  lemma {:induction false} AddAssetsStops(store: Store, o: WalkOptions, w: Walk, assets: seq<Field>, n: nat)
    requires n <= |assets| && AddAssets(store, o, w, assets[..n]).threw
    ensures AddAssets(store, o, w, assets) == AddAssets(store, o, w, assets[..n])
    decreases |assets|
  {
    if n == |assets| {
      assert assets[..n] == assets;
    } else {
      assert assets[..|assets| - 1][..n] == assets[..n];
      AddAssetsStops(store, o, w, assets[..|assets| - 1], n);
    }
  }

  /**
   * Walks a manifest chain and classifies what it references. `None` means the walk threw.
   * Any walk collects only reachable CIDs. A full walk without errors collects everything that is safely
   * reachable in what is really stored (`truth`), and where that is tame exactly what is reachable.
   * Every error has its cause, so a walk that can read everything has none.
   */
  method WalkManifestChain(store: Store, o: WalkOptions, startCid: Cid, ghost truth: Store) returns (r: Option<WalkResult>)
    requires AgreesWith(store, truth)
    ensures
      var w := WalkChain(store, o, startCid, startCid, 0, EMPTY_WALK);
      && r.None? == w.threw
      && (r.Some? ==> r.value == WalkResult(w.visited, w.assetUnique, w.shared, w.allReachable, w.errors))
    ensures r.Some? ==> forall e :: e in r.value.errors ==> IsCause(store, o, LedTo(store, startCid), e)
    ensures r.None? ==> SomeSceneUnusable(store, LedTo(store, startCid))
    ensures AllReadable(store, startCid, o.maxDepth) ==> r.Some? && r.value.errors == []
    ensures
      var docs := LedTo(store, startCid);
      IsFull(o) && startCid != "" && FlatCollections(store, startCid) && NoMarkers(store, startCid) && ChainsFit(store, docs, o.maxDepth)
      ==> (r.Some? && r.value.errors == [] <==> DocumentsReadable(store, docs) && SourcesReadable(store, docs))
    ensures r.Some? ==> forall x :: x in r.value.allReachable ==> Reachable(store, startCid, x)
    ensures
      r.Some? && r.value.errors == [] && IsFull(o) && startCid != ""
      ==> forall x :: SafelyReachable(truth, startCid, x) ==> x in r.value.allReachable
    ensures
      r.Some? && r.value.errors == [] && IsFull(o) && startCid != "" && Tame(truth, startCid)
      ==> forall x :: x in r.value.allReachable <==> Reachable(truth, startCid, x)
  {
    var ctx := new WalkContext();
    var threw := ctx.WalkSingleChain(store, o, startCid);
    WalkCollectsOnlyReachable(store, o, startCid);
    ErrorsHaveCauses(store, o, startCid);
    if AllReadable(store, startCid, o.maxDepth) {
      ReadableWalkIsClean(store, o, startCid);
    }
    if IsFull(o) && startCid != "" && FlatCollections(store, startCid) && NoMarkers(store, startCid) &&
       ChainsFit(store, LedTo(store, startCid), o.maxDepth)
    {
      CleanWalkIff(store, o, startCid);
    }
    if threw {
      return None;
    }
    ghost var w := WalkChain(store, o, startCid, startCid, 0, EMPTY_WALK);
    if w.errors == [] && IsFull(o) && startCid != "" {
      CleanWalkCollects(store, truth, o, startCid, w);
      if Tame(truth, startCid) {
        CleanWalkIsExact(store, truth, o, startCid, w);
      }
    }
    return Some(WalkResult(ctx.visited, ctx.assetUnique, ctx.shared, ctx.allReachable, ctx.errors));
  }

  /** An unpin result, read off a full trail. */
  ghost predicate ReadOff(store: Store, startCid: Cid, trail: seq<Cid>, r: WalkResult) {
    var cids := Elements(trail);
    && r.visited == cids
    && r.assetUnique == ManifestsIn(store, cids) + OwnedBy(store, cids)
    && r.shared == SharedBy(store, cids)
    && (r.errors == [] <==>
        Readable(store, cids) && (After(store, startCid, trail) == "" || After(store, startCid, trail) in trail))
  }

  /** The unpin walk's result is read off the one full trail of its start; it throws only at an unusable scene. */
  method WalkForUnpin(store: Store, startCid: Cid, maxDepth: nat) returns (r: Option<WalkResult>)
    ensures r.Some? ==> exists trail :: FullTrail(store, startCid, maxDepth, trail) && ReadOff(store, startCid, trail, r.value)
    ensures r.None? ==> exists trail :: Trail(store, startCid, trail) && trail != [] && SceneUnusable(store, trail[|trail| - 1])
  {
    var o := WalkOptions(false, false, maxDepth);
    r := WalkManifestChain(store, o, startCid, store);
    ghost var trail := UnpinWalkIsTheTrail(store, o, startCid, [], EMPTY_WALK);
    assert r.Some? ==> ReadOff(store, startCid, trail, r.value);
  }
}
