/** What each error of a walk means, and when a walk has none: stated over documents, sources and chain lengths. */
module WalkErrors {
  import opened ManifestStore
  import opened ManifestWalk
  import opened FullWalk
  import opened UnpinWalk

  // ---------------------------------------------------------------------------------------
  // Causes
  // ---------------------------------------------------------------------------------------

  /** Document sets that hold the links of their members. */
  ghost predicate ClosedUnderLinks(store: Store, docs: iset<Cid>) {
    forall c, d :: c in docs && d in NextManifests(store, c) ==> d in docs
  }

  /** Some manifest of the set names the source. */
  ghost predicate NamesSource(store: Store, docs: iset<Cid>, source: Cid) {
    exists c :: c in docs && HasManifest(store, c) && source in SourceCids(NodesOf(ManifestOf(store, c)))
  }

  /** `maxDepth` distinct documents of the prev chain of `start` come before `next`, which is none of them. */
  ghost predicate ChainIsLonger(store: Store, maxDepth: nat, start: Cid, next: Cid) {
    exists trail :: Trail(store, start, trail) && |trail| == maxDepth &&
                    After(store, start, trail) == next && next != "" && next !in trail
  }

  ghost predicate IsCause(store: Store, o: WalkOptions, docs: iset<Cid>, e: WalkError) {
    match e
    case ReadFailed(c) => c in docs && !store(c).Json?
    case RefsFailed(source) => o.recurseIntoSources && store(source).Unreadable? && NamesSource(store, docs, source)
    case Truncated(start, next) => start in docs && ChainIsLonger(store, o.maxDepth, start, next)
  }

  ghost predicate SomeSceneUnusable(store: Store, docs: iset<Cid>) {
    exists c :: c in docs && SceneUnusable(store, c)
  }

  /** Every error so far has its cause, and so has a throw. */
  ghost predicate Explained(store: Store, o: WalkOptions, docs: iset<Cid>, w: Walk) {
    && (forall e :: e in w.errors ==> IsCause(store, o, docs, e))
    && (w.threw ==> SomeSceneUnusable(store, docs))
  }

  // ---------------------------------------------------------------------------------------
  // A walk adds no error without a cause
  // ---------------------------------------------------------------------------------------

  lemma {:induction false} NodesBlameSources(store: Store, o: WalkOptions, w: Walk, nodes: seq<SceneNode>)
    ensures forall e :: e in AddNodes(store, o, w, nodes).errors ==>
              || e in w.errors
              || (o.recurseIntoSources && e.RefsFailed? && e.cid in SourceCids(nodes) && store(e.cid).Unreadable?)
  {
    if nodes != [] {
      NodesBlameSources(store, o, w, nodes[..|nodes| - 1]);
    }
  }

  lemma AssetManifestIsExplained(store: Store, o: WalkOptions, w: Walk, docs: iset<Cid>, c: Cid)
    requires HasManifest(store, c) && !IsCollection(store, c) && c in docs
    requires Explained(store, o, docs, w)
    ensures Explained(store, o, docs, AddAssetManifest(store, o, w, ManifestOf(store, c)))
  {
    var m := ManifestOf(store, c);
    var w1 := w.(assetUnique := w.assetUnique + OwnCids(m), allReachable := w.allReachable + OwnCids(m));
    NodesBlameSources(store, o, w1, NodesOf(m));
    NodesAdd(store, o, w1, NodesOf(m));
  }

  lemma {:induction false} AssetsAreExplained(store: Store, o: WalkOptions, w: Walk, docs: iset<Cid>, c: Cid, n: nat)
    requires IsCollection(store, c) && c in docs && n <= |ManifestOf(store, c).assets|
    requires ClosedUnderLinks(store, docs) && Explained(store, o, docs, w)
    ensures Explained(store, o, docs, AddAssets(store, o, w, ManifestOf(store, c).assets[..n]))
    decreases o.recurseIntoCollectionAssets, 1, n
  {
    var assets := ManifestOf(store, c).assets;
    if n > 0 {
      AssetsAreExplained(store, o, w, docs, c, n - 1);
      assert assets[..n][..n - 1] == assets[..n - 1];
      FieldCidsContains(assets, n - 1);
      var w1 := AddAssets(store, o, w, assets[..n - 1]);
      if !w1.threw && assets[n - 1].Cids() != {} && o.recurseIntoCollectionAssets {
        var asset := assets[n - 1].s;
        assert asset in NextManifests(store, c);
        var nested := o.(recurseIntoCollectionAssets := false);
        SameCauses(store, o, nested, docs, w1);
        ChainIsExplained(store, nested, asset, [], w1, docs);
        SameCauses(store, nested, o, docs, WalkChain(store, nested, asset, asset, 0, w1));
      }
    }
  }

  /** Causes do not depend on whether collection assets are followed. */
  lemma SameCauses(store: Store, o: WalkOptions, p: WalkOptions, docs: iset<Cid>, w: Walk)
    requires o.recurseIntoSources == p.recurseIntoSources && o.maxDepth == p.maxDepth
    requires Explained(store, o, docs, w)
    ensures Explained(store, p, docs, w)
  {
    forall e | e in w.errors ensures IsCause(store, p, docs, e) {
      assert IsCause(store, o, docs, e);
    }
  }

  lemma {:induction false} VisitIsExplained(store: Store, o: WalkOptions, w: Walk, docs: iset<Cid>, c: Cid)
    requires c in docs && ClosedUnderLinks(store, docs) && Explained(store, o, docs, w)
    ensures Explained(store, o, docs, VisitCid(store, o, w, c))
    decreases o.recurseIntoCollectionAssets, 2
  {
    if HasManifest(store, c) {
      var m := ManifestOf(store, c);
      var w2 := w.(visited := w.visited + {c}, assetUnique := w.assetUnique + {c}, allReachable := w.allReachable + {c});
      if m.Collection? {
        AssetsAreExplained(store, o, w2, docs, c, |m.assets|);
        assert m.assets[..|m.assets|] == m.assets;
      } else {
        AssetManifestIsExplained(store, o, w2, docs, c);
      }
    } else if !store(c).Json? {
      assert IsCause(store, o, docs, ReadFailed(c));
    }
  }

  /** A chain walk that stands behind the documents of `trail`, all of them visited. */
  lemma {:induction false} ChainIsExplained(store: Store, o: WalkOptions, start: Cid, trail: seq<Cid>, w: Walk, docs: iset<Cid>)
    requires ClosedUnderLinks(store, docs) && Explained(store, o, docs, w)
    requires Trail(store, start, trail) && |trail| <= o.maxDepth && Elements(trail) <= w.visited
    requires start in docs && (After(store, start, trail) == "" || After(store, start, trail) in docs)
    ensures Explained(store, o, docs, WalkChain(store, o, start, After(store, start, trail), |trail|, w))
    decreases o.recurseIntoCollectionAssets, 3, o.maxDepth - |trail|
  {
    var current := After(store, start, trail);
    if current != "" && current !in w.visited {
      assert current !in trail by {
        assert current !in Elements(trail);
      }
      if |trail| >= o.maxDepth {
        assert IsCause(store, o, docs, Truncated(start, current));
      } else {
        var w1 := VisitCid(store, o, w, current);
        VisitIsExplained(store, o, w, docs, current);
        if !w1.threw {
          var longer := trail + [current];
          VisitGrows(store, o, w, current);
          TrailExtends(store, start, trail);
          assert Elements(longer) == Elements(trail) + {current};
          assert After(store, start, longer) == PrevOf(store, current);
          assert PrevOf(store, current) != "" ==> PrevOf(store, current) in NextManifests(store, current);
          ChainIsExplained(store, o, start, longer, w1, docs);
        }
      }
    }
  }

  // ---------------------------------------------------------------------------------------
  // The theorems
  // ---------------------------------------------------------------------------------------

  /** The documents that a walk from `start` can come to. */
  ghost function LedTo(store: Store, start: Cid): iset<Cid> {
    iset c | LeadsTo(store, start, c)
  }

  lemma LedToIsClosed(store: Store, start: Cid)
    ensures ClosedUnderLinks(store, LedTo(store, start)) && start in LedTo(store, start)
  {
    LeadsToSelf(store, start);
    forall c, d | c in LedTo(store, start) && d in NextManifests(store, c) ensures d in LedTo(store, start) {
      LeadsToNext(store, start, c, d);
    }
  }

  /**
   * No error without a cause: a read failure names a document that is led to and is not readable JSON;
   * a failure to read references names a source of such a document that cannot be read; a truncation
   * names a chain that really is longer than its budget; and a throw means an unusable scene.
   */
  lemma ErrorsHaveCauses(store: Store, o: WalkOptions, start: Cid)
    ensures Explained(store, o, LedTo(store, start), WalkChain(store, o, start, start, 0, EMPTY_WALK))
  {
    LedToIsClosed(store, start);
    ChainIsExplained(store, o, start, [], EMPTY_WALK, LedTo(store, start));
  }

  /** Every document that is led to is readable JSON with a usable scene. */
  ghost predicate DocumentsReadable(store: Store, docs: iset<Cid>) {
    forall c :: c in docs ==> store(c).Json? && !SceneUnusable(store, c)
  }

  ghost predicate SourcesReadable(store: Store, docs: iset<Cid>) {
    forall source {:trigger NamesSource(store, docs, source)} :: NamesSource(store, docs, source) ==> !store(source).Unreadable?
  }

  /** No prev chain that starts at one of the documents is longer than the budget. */
  ghost predicate ChainsFit(store: Store, docs: iset<Cid>, maxDepth: nat) {
    forall c, next {:trigger ChainIsLonger(store, maxDepth, c, next)} :: c in docs ==> !ChainIsLonger(store, maxDepth, c, next)
  }

  /** Everything that a walk from `start` may have to read can be read, within its budget. */
  ghost predicate AllReadable(store: Store, start: Cid, maxDepth: nat) {
    var docs := LedTo(store, start);
    DocumentsReadable(store, docs) && SourcesReadable(store, docs) && ChainsFit(store, docs, maxDepth)
  }

  lemma NoCauseWhenReadable(store: Store, o: WalkOptions, start: Cid, e: WalkError)
    requires AllReadable(store, start, o.maxDepth)
    ensures !IsCause(store, o, LedTo(store, start), e)
  {
  }

  lemma SomeError(errors: seq<WalkError>)
    ensures errors == [] || exists e :: e in errors
  {
    if errors != [] {
      assert errors[0] in errors;
    }
  }

  /** When everything can be read, the walk has no error: readable content that is no manifest is none. */
  lemma ReadableWalkIsClean(store: Store, o: WalkOptions, start: Cid)
    requires AllReadable(store, start, o.maxDepth)
    ensures CleanEnd(WalkChain(store, o, start, start, 0, EMPTY_WALK))
  {
    var r := WalkChain(store, o, start, start, 0, EMPTY_WALK);
    ErrorsHaveCauses(store, o, start);
    forall e ensures e !in r.errors {
      NoCauseWhenReadable(store, o, start, e);
    }
    SomeError(r.errors);
  }

  /**
   * When a full walk has no error: on stores without nested collections and markers, and with chains
   * within the budget, exactly when every document and every source below the start can be read.
   */
  lemma CleanWalkIff(store: Store, o: WalkOptions, start: Cid)
    requires IsFull(o) && start != "" && FlatCollections(store, start) && NoMarkers(store, start)
    requires ChainsFit(store, LedTo(store, start), o.maxDepth)
    ensures
      CleanEnd(WalkChain(store, o, start, start, 0, EMPTY_WALK)) <==>
      DocumentsReadable(store, LedTo(store, start)) && SourcesReadable(store, LedTo(store, start))
  {
    var docs := LedTo(store, start);
    if DocumentsReadable(store, docs) && SourcesReadable(store, docs) {
      ReadableWalkIsClean(store, o, start);
    }
    if CleanEnd(WalkChain(store, o, start, start, 0, EMPTY_WALK)) {
      forall c | c in docs ensures store(c).Json? && !SceneUnusable(store, c) {
        LedToIsSafe(store, start, c);
        CleanWalkHasRead(store, o, start, c);
      }
      forall source | NamesSource(store, docs, source) ensures !store(source).Unreadable? {
        var c :| c in docs && HasManifest(store, c) && source in SourceCids(NodesOf(ManifestOf(store, c)));
        LedToIsSafe(store, start, c);
        CleanWalkHasRead(store, o, start, c);
        assert !Reachable(store, start, FailedMarker(source));
      }
    }
  }

  lemma LedToIsSafe(store: Store, start: Cid, c: Cid)
    requires FlatCollections(store, start) && LeadsTo(store, start, c)
    ensures SafelyLedTo(store, start, c)
  {
    var path :| ManifestPath(store, path) && path[0] == start && path[|path| - 1] == c;
    FlatPathIsSafe(store, start, path);
  }
}
