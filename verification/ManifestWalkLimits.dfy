/** Stores on which a full walk reports no error and still misses reachable content. */
module ManifestWalkLimits {
  import opened Wrappers
  import opened ManifestStore
  import opened ManifestWalk
  import opened FullWalk

  const FULL_WALK := WalkOptions(true, true, 10000)

  function AssetDoc(thumbnail: Field, nodes: seq<SceneNode>, prev: Cid): Content {
    Json(Some(Asset(thumbnail, NotText, Nodes(nodes), prev)), {})
  }

  function CollectionDoc(asset: Cid, prev: Cid): Content {
    Json(Some(Collection([Text(asset)], prev)), {})
  }

  /** Collection C lists asset A, whose previous version is the collection K that lists B. */
  function NestedStore(c: Cid): Content {
    if c == "C" then CollectionDoc("A", "")
    else if c == "A" then AssetDoc(NotText, [], "K")
    else if c == "K" then CollectionDoc("B", "")
    else AssetDoc(Text("T"), [], "")
  }

  lemma SingleAsset(store: Store, o: WalkOptions, w: Walk, asset: Cid)
    requires asset != "" && !w.threw
    ensures AddAssets(store, o, w, [Text(asset)]) ==
            if o.recurseIntoCollectionAssets then WalkChain(store, o.(recurseIntoCollectionAssets := false), asset, asset, 0, w)
            else AddShared(w, {asset})
  {
    assert [Text(asset)][..0] == [];
  }

  lemma NestedStoreLeadsToB()
    ensures LeadsTo(NestedStore, "C", "B")
  {
    FieldCidsContains([Text("A")], 0);
    FieldCidsContains([Text("B")], 0);
    LeadsToSelf(NestedStore, "C");
    LeadsToNext(NestedStore, "C", "C", "A");
    LeadsToNext(NestedStore, "C", "A", "K");
    LeadsToNext(NestedStore, "C", "K", "B");
  }

  lemma NestedStoreReachesT()
    ensures Reachable(NestedStore, "C", "T")
  {
    NestedStoreLeadsToB();
    assert "T" in Leaves(NestedStore, true, ManifestOf(NestedStore, "B"));
  }

  lemma NestedStoreIsNotFlat()
    ensures !FlatCollections(NestedStore, "C")
  {
    FieldCidsContains([Text("A")], 0);
    VisitsSelf(NestedStore, Position("C", false));
    VisitsNext(NestedStore, Position("C", false), Position("C", false), Position("A", true));
    VisitsNext(NestedStore, Position("C", false), Position("A", true), Position("K", true));
  }

  /** The walk of A's chain, entered from C: K only lists B. */
  lemma NestedChain(o: WalkOptions, w: Walk)
    requires o == WalkOptions(true, false, 10000) && w == Walk({"C"}, {"C"}, {}, {"C"}, [], false)
    ensures WalkChain(NestedStore, o, "A", "A", 0, w) == Walk({"C", "A", "K"}, {"C", "A", "K"}, {"B"}, {"C", "A", "K", "B"}, [], false)
  {
    var w1 := Walk({"C", "A"}, {"C", "A"}, {}, {"C", "A"}, [], false);
    assert VisitCid(NestedStore, o, w, "A") == w1;
    var w2 := Walk({"C", "A", "K"}, {"C", "A", "K"}, {}, {"C", "A", "K"}, [], false);
    SingleAsset(NestedStore, o, w2, "B");
    assert VisitCid(NestedStore, o, w1, "K") == AddShared(w2, {"B"});
    assert WalkChain(NestedStore, o, "A", "", 2, AddShared(w2, {"B"})) == AddShared(w2, {"B"});
  }

  /** A collection met inside an asset's chain is listed, not walked: B's thumbnail is lost without an error. */
  lemma NestedCollectionIsNotWalked()
    ensures CleanEnd(WalkChain(NestedStore, FULL_WALK, "C", "C", 0, EMPTY_WALK))
    ensures "T" !in WalkChain(NestedStore, FULL_WALK, "C", "C", 0, EMPTY_WALK).allReachable
    ensures Reachable(NestedStore, "C", "T") && !FlatCollections(NestedStore, "C")
  {
    NestedStoreReachesT();
    NestedStoreIsNotFlat();
    NestedWalk();
  }

  lemma NestedWalk()
    ensures WalkChain(NestedStore, FULL_WALK, "C", "C", 0, EMPTY_WALK) ==
            Walk({"C", "A", "K"}, {"C", "A", "K"}, {"B"}, {"C", "A", "K", "B"}, [], false)
  {
    var w := Walk({"C"}, {"C"}, {}, {"C"}, [], false);
    SingleAsset(NestedStore, FULL_WALK, w, "A");
    NestedChain(FULL_WALK.(recurseIntoCollectionAssets := false), w);
    var r := Walk({"C", "A", "K"}, {"C", "A", "K"}, {"B"}, {"C", "A", "K", "B"}, [], false);
    assert VisitCid(NestedStore, FULL_WALK, EMPTY_WALK, "C") == r by {
      assert {} + {"C"} == {"C"};
    }
    assert WalkChain(NestedStore, FULL_WALK, "C", "", 1, r) == r;
  }

  /** A chain walk that ends without an error has visited its first CID. */
  lemma CleanChainVisitsStart(store: Store, o: WalkOptions, start: Cid, current: Cid, depth: nat, w: Walk)
    requires current != "" && CleanEnd(WalkChain(store, o, start, current, depth, w))
    ensures current in WalkChain(store, o, start, current, depth, w).visited
  {
    if current !in w.visited && depth < o.maxDepth {
      VisitGrows(store, o, w, current);
      ChainGrows(store, o, start, PrevOf(store, current), depth + 1, VisitCid(store, o, w, current));
    }
  }

  lemma {:induction false} FollowedAssetsAreVisited(store: Store, o: WalkOptions, w: Walk, assets: seq<Field>)
    requires o.recurseIntoCollectionAssets && CleanEnd(AddAssets(store, o, w, assets))
    ensures w.visited <= AddAssets(store, o, w, assets).visited
    ensures FieldCids(assets) <= AddAssets(store, o, w, assets).visited
  {
    if assets != [] {
      var before, asset := assets[..|assets| - 1], assets[|assets| - 1];
      var w1 := AddAssets(store, o, w, before);
      if !w1.threw && asset.Cids() != {} {
        var nested := o.(recurseIntoCollectionAssets := false);
        ChainGrows(store, nested, asset.s, asset.s, 0, w1);
        CleanChainVisitsStart(store, nested, asset.s, asset.s, 0, w1);
      }
      FollowedAssetsAreVisited(store, o, w, before);
    }
  }

  /**
   * The guard behind that failure: a collection's assets are walked without an error exactly when the
   * walk does not stand inside another collection's asset chain, or has visited them all before.
   */
  lemma AssetsAreWalkedIff(store: Store, o: WalkOptions, w: Walk, assets: seq<Field>)
    requires !w.threw && CleanEnd(AddAssets(store, o, w, assets))
    ensures FieldCids(assets) <= AddAssets(store, o, w, assets).visited <==>
            o.recurseIntoCollectionAssets || FieldCids(assets) <= w.visited
  {
    if o.recurseIntoCollectionAssets {
      FollowedAssetsAreVisited(store, o, w, assets);
    } else {
      AssetsAreListed(store, o, w, assets);
    }
  }

  /** Asset M names the marker of its own source S, whose content refers to R. */
  function MarkerStore(c: Cid): Content {
    if c == "M" then AssetDoc(Text(FailedMarker("S")), [SceneNode(Text("S"), NotText, NotText, [])], "")
    else Json(None, {"R"})
  }

  lemma MarkerWalk()
    ensures
      WalkChain(MarkerStore, FULL_WALK, "M", "M", 0, EMPTY_WALK) ==
      Walk({"M"}, {"M", FailedMarker("S")}, {"S"}, {"M", FailedMarker("S"), "S"}, [], false)
  {
    var marker := FailedMarker("S");
    var node := SceneNode(Text("S"), NotText, NotText, []);
    var w1 := Walk({"M"}, {"M", marker}, {}, {"M", marker}, [], false);
    var r := AddShared(w1, {"S"});
    assert [NotText][..0] == [] && [NotText] + [] == [NotText];
    assert AddNode(MarkerStore, FULL_WALK, w1, node) == r;
    assert [node][..0] == [];
    assert AddNodes(MarkerStore, FULL_WALK, w1, [node]) == r;
    var w0 := Walk({"M"}, {"M"}, {}, {"M"}, [], false);
    assert OwnCids(ManifestOf(MarkerStore, "M")) == {marker};
    assert {"M"} + {marker} == {"M", marker};
    assert AddAssetManifest(MarkerStore, FULL_WALK, w0, ManifestOf(MarkerStore, "M")) == r;
    assert EMPTY_WALK.(visited := {} + {"M"}, assetUnique := {} + {"M"}, allReachable := {} + {"M"}) == w0;
    assert VisitCid(MarkerStore, FULL_WALK, EMPTY_WALK, "M") == r;
    assert WalkChain(MarkerStore, FULL_WALK, "M", "", 1, r) == r;
  }

  /** A manifest that names the marker hides the references of the marked source. */
  lemma MarkerHidesReferences()
    ensures CleanEnd(WalkChain(MarkerStore, FULL_WALK, "M", "M", 0, EMPTY_WALK))
    ensures "R" !in WalkChain(MarkerStore, FULL_WALK, "M", "M", 0, EMPTY_WALK).allReachable
    ensures Reachable(MarkerStore, "M", "R")
    ensures !NoMarkers(MarkerStore, "M")
  {
    MarkerWalk();
    assert FailedMarker("S")[0] == '_';
    LeadsToSelf(MarkerStore, "M");
    assert "R" in Leaves(MarkerStore, true, ManifestOf(MarkerStore, "M"));
    assert Reachable(MarkerStore, "M", FailedMarker("S"));
  }

  /** Reading a source collects its references exactly when no marker is in the way or all are there already. */
  lemma ReferencesAreCollectedIff(store: Store, w: Walk, c: Cid)
    requires c != ""
    ensures EmbeddedRefs(store, c) <= AddEmbedded(store, w, c).allReachable <==>
            FailedMarker(c) !in w.allReachable || EmbeddedRefs(store, c) <= w.allReachable
  {
    if FailedMarker(c) !in w.allReachable && store(c).Unreadable? {
      assert EmbeddedRefs(store, c) == {};
    }
  }

  /** Visiting a document collects it exactly when it holds a manifest, or was collected before. */
  lemma VisitedIsCollectedIff(store: Store, o: WalkOptions, w: Walk, c: Cid)
    ensures c in VisitCid(store, o, w, c).allReachable <==> HasManifest(store, c) || c in w.allReachable
  {
    if HasManifest(store, c) {
      var w1 := w.(visited := w.visited + {c}, assetUnique := w.assetUnique + {c}, allReachable := w.allReachable + {c});
      assert VisitCid(store, o, w1, c) == VisitCid(store, o, w, c);
      VisitGrows(store, o, w1, c);
    }
  }

  /** A stored JSON null ends its chain without an error and without being collected. */
  lemma NullManifestIsNotCollected(prev: Cid)
    requires prev != "" && prev != "M"
    ensures
      var store: Store := c => if c == "M" then AssetDoc(NotText, [], prev) else Json(None, {});
      var r := WalkChain(store, FULL_WALK, "M", "M", 0, EMPTY_WALK);
      CleanEnd(r) && Reachable(store, "M", prev) && prev !in r.allReachable
  {
    var store: Store := c => if c == "M" then AssetDoc(NotText, [], prev) else Json(None, {});
    var w1 := EMPTY_WALK.(visited := {"M"}, assetUnique := {"M"}, allReachable := {"M"});
    assert VisitCid(store, FULL_WALK, EMPTY_WALK, "M") == w1;
    var w2 := w1.(visited := {"M", prev});
    assert VisitCid(store, FULL_WALK, w1, prev) == w2;
    assert WalkChain(store, FULL_WALK, "M", prev, 1, w1) == WalkChain(store, FULL_WALK, "M", "", 2, w2);
    LeadsToSelf(store, "M");
    LeadsToNext(store, "M", "M", prev);
  }
}
