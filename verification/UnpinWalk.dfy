/** The unpin walk: one straight prev chain, without sources or collection assets. */
module UnpinWalk {
  import opened ManifestStore
  import opened ManifestWalk

  // ---------------------------------------------------------------------------------------
  // The straight prev chain
  // ---------------------------------------------------------------------------------------

  /** The CID a chain walk stands on after the CIDs of `trail`. */
  function After(store: Store, start: Cid, trail: seq<Cid>): Cid {
    if trail == [] then start else PrevOf(store, trail[|trail| - 1])
  }

  /** `trail` lists distinct CIDs, each the previous version of the one before it. */
  ghost predicate Trail(store: Store, start: Cid, trail: seq<Cid>) {
    && (trail != [] ==> trail[0] == start)
    && (forall i, j :: 0 <= i && j == i + 1 && j < |trail| ==> trail[j] == PrevOf(store, trail[i]))
    && (forall i :: 0 <= i < |trail| ==> trail[i] != "")
    && (forall i, j :: 0 <= i < j < |trail| ==> trail[i] != trail[j])
  }

  /** The trail up to the first repeat, the first document without a previous version, or the budget. */
  ghost predicate FullTrail(store: Store, start: Cid, maxDepth: nat, trail: seq<Cid>) {
    && Trail(store, start, trail)
    && |trail| <= maxDepth
    && var next := After(store, start, trail);
       next == "" || next in trail || |trail| == maxDepth
  }

  /** Trails of one start agree as far as both go. */
  lemma {:induction false} TrailsAgree(store: Store, start: Cid, t: seq<Cid>, u: seq<Cid>, k: nat)
    requires Trail(store, start, t) && Trail(store, start, u) && k < |t| && k < |u|
    ensures t[k] == u[k]
  {
    if k > 0 {
      TrailsAgree(store, start, t, u, k - 1);
    }
  }

  /** The shorter of two trails is a prefix of the other, which goes on with a new CID. */
  lemma ShorterTrailIsPrefix(store: Store, start: Cid, t: seq<Cid>, u: seq<Cid>)
    requires Trail(store, start, t) && Trail(store, start, u) && |t| <= |u|
    ensures t == u[..|t|]
    ensures |t| < |u| ==> After(store, start, t) == u[|t|] && u[|t|] != "" && u[|t|] !in t
  {
    forall k | 0 <= k < |t| ensures t[k] == u[k] {
      TrailsAgree(store, start, t, u, k);
    }
  }

  /** The full trail is a function of the store, the start and the budget. */
  lemma FullTrailIsUnique(store: Store, start: Cid, maxDepth: nat, t: seq<Cid>, u: seq<Cid>)
    requires FullTrail(store, start, maxDepth, t) && FullTrail(store, start, maxDepth, u)
    ensures t == u
  {
    if |t| <= |u| {
      ShorterTrailIsPrefix(store, start, t, u);
    } else {
      ShorterTrailIsPrefix(store, start, u, t);
    }
  }

  function ManifestsIn(store: Store, cids: set<Cid>): set<Cid> {
    set c | c in cids && HasManifest(store, c)
  }

  /** Thumbnails and archives of the asset manifests among `cids`. */
  function OwnedBy(store: Store, cids: set<Cid>): set<Cid> {
    set c, x | c in cids && HasManifest(store, c) && x in OwnCids(ManifestOf(store, c)) :: x
  }

  /** What the manifests among `cids` name but may share with other assets. */
  function SharedBy(store: Store, cids: set<Cid>): set<Cid> {
    set c, x | c in cids && HasManifest(store, c) &&
               x in AssetCids(ManifestOf(store, c)) + SharedCids(NodesOf(ManifestOf(store, c))) :: x
  }

  ghost predicate Readable(store: Store, cids: set<Cid>) {
    forall c :: c in cids ==> store(c).Json?
  }

  /** What a walk that follows neither sources nor collection assets holds after `trail`. */
  ghost predicate ChainWalked(store: Store, trail: seq<Cid>, w: Walk) {
    var cids := Elements(trail);
    && w.visited == cids
    && w.assetUnique == ManifestsIn(store, cids) + OwnedBy(store, cids)
    && w.shared == SharedBy(store, cids)
    && w.allReachable == w.assetUnique + w.shared
  }

  lemma ClassesExtend(store: Store, cids: set<Cid>, c: Cid)
    ensures
      var has := HasManifest(store, c);
      && ManifestsIn(store, cids + {c}) == ManifestsIn(store, cids) + (if has then {c} else {})
      && OwnedBy(store, cids + {c}) == OwnedBy(store, cids) + (if has then OwnCids(ManifestOf(store, c)) else {})
      && SharedBy(store, cids + {c}) == SharedBy(store, cids) +
         (if has then AssetCids(ManifestOf(store, c)) + SharedCids(NodesOf(ManifestOf(store, c))) else {})
  {
  }

  /** Without recursion one visit adds exactly the classes of one manifest. */
  lemma StraightVisit(store: Store, o: WalkOptions, w: Walk, c: Cid)
    requires !o.recurseIntoCollectionAssets && !o.recurseIntoSources && !w.threw
    ensures
      var r := VisitCid(store, o, w, c);
      && r.threw == SceneUnusable(store, c) && r.visited == w.visited + {c}
      && r.errors == (if store(c).Json? then w.errors else w.errors + [ReadFailed(c)])
      && if !HasManifest(store, c) then r.assetUnique == w.assetUnique && r.shared == w.shared && r.allReachable == w.allReachable
         else
           var own := {c} + OwnCids(ManifestOf(store, c));
           var named := AssetCids(ManifestOf(store, c)) + SharedCids(NodesOf(ManifestOf(store, c)));
           && r.assetUnique == w.assetUnique + own
           && r.shared == w.shared + named
           && r.allReachable == w.allReachable + own + named
  {
    if HasManifest(store, c) {
      var m := ManifestOf(store, c);
      var w2 := w.(visited := w.visited + {c}, assetUnique := w.assetUnique + {c}, allReachable := w.allReachable + {c});
      if m.Collection? {
        AssetsAreListed(store, o, w2, m.assets);
      } else {
        AssetManifestAdds(store, o, w2, m);
      }
    }
  }

  lemma VisitExtendsTrail(store: Store, o: WalkOptions, w: Walk, trail: seq<Cid>, c: Cid)
    requires !o.recurseIntoCollectionAssets && !o.recurseIntoSources && !w.threw
    requires ChainWalked(store, trail, w)
    ensures
      var r := VisitCid(store, o, w, c);
      && ChainWalked(store, trail + [c], r)
      && r.threw == SceneUnusable(store, c)
      && r.errors == (if store(c).Json? then w.errors else w.errors + [ReadFailed(c)])
  {
    assert Elements(trail + [c]) == Elements(trail) + {c};
    ClassesExtend(store, Elements(trail), c);
    StraightVisit(store, o, w, c);
  }

  lemma TrailExtends(store: Store, start: Cid, trail: seq<Cid>)
    requires Trail(store, start, trail)
    requires After(store, start, trail) != "" && After(store, start, trail) !in trail
    ensures Trail(store, start, trail + [After(store, start, trail)])
  {
  }

  /**
   * What an unpin walk leaves behind: its own set is exactly the manifests of the trail with the
   * thumbnails and archives of the asset manifests among them, and it reports no error exactly
   * when every document could be read and the chain was not cut by its budget.
   */
  ghost predicate WalkedTrail(store: Store, start: Cid, maxDepth: nat, trail: seq<Cid>, r: Walk) {
    && ChainWalked(store, trail, r)
    && (if r.threw then Trail(store, start, trail) && trail != [] && SceneUnusable(store, trail[|trail| - 1])
        else FullTrail(store, start, maxDepth, trail))
    && (r.errors == [] <==>
        Readable(store, Elements(trail)) && (r.threw || After(store, start, trail) == "" || After(store, start, trail) in trail))
  }

  /** Partway through: nothing has gone wrong yet. */
  ghost predicate WalkingTrail(store: Store, o: WalkOptions, start: Cid, trail: seq<Cid>, w: Walk) {
    && Trail(store, start, trail) && |trail| <= o.maxDepth
    && !w.threw && w.errors == []
    && ChainWalked(store, trail, w) && Readable(store, Elements(trail))
  }

  predicate GoesOn(store: Store, o: WalkOptions, start: Cid, trail: seq<Cid>) {
    After(store, start, trail) != "" && After(store, start, trail) !in trail && |trail| < o.maxDepth
  }

  lemma TrailEnds(store: Store, o: WalkOptions, start: Cid, trail: seq<Cid>, w: Walk)
    requires WalkingTrail(store, o, start, trail, w) && !GoesOn(store, o, start, trail)
    ensures WalkedTrail(store, start, o.maxDepth, trail, WalkChain(store, o, start, After(store, start, trail), |trail|, w))
  {
  }

  /** One more document: the walk either goes on behind it, or it could not be used and the walk is over. */
  lemma TrailGrows(store: Store, o: WalkOptions, start: Cid, trail: seq<Cid>, w: Walk)
    requires !o.recurseIntoCollectionAssets && !o.recurseIntoSources
    requires WalkingTrail(store, o, start, trail, w) && GoesOn(store, o, start, trail)
    ensures
      var c := After(store, start, trail);
      var w1 := VisitCid(store, o, w, c);
      var longer := trail + [c];
      if w1.threw || !store(c).Json? then
        WalkedTrail(store, start, o.maxDepth, longer, w1) && (!w1.threw ==> After(store, start, longer) == "")
      else
        WalkingTrail(store, o, start, longer, w1)
  {
    var c := After(store, start, trail);
    TrailExtends(store, start, trail);
    VisitExtendsTrail(store, o, w, trail, c);
    assert Elements(trail + [c]) == Elements(trail) + {c};
  }

  lemma ChainUnfolds(store: Store, o: WalkOptions, start: Cid, trail: seq<Cid>, w: Walk)
    requires GoesOn(store, o, start, trail) && After(store, start, trail) !in w.visited
    ensures
      var c := After(store, start, trail);
      var w1 := VisitCid(store, o, w, c);
      WalkChain(store, o, start, c, |trail|, w) ==
      if w1.threw || !store(c).Json? then w1
      else WalkChain(store, o, start, After(store, start, trail + [c]), |trail + [c]|, w1)
  {
    var c := After(store, start, trail);
    assert !store(c).Json? ==> PrevOf(store, c) == "";
  }

  /** The unpin walk ends on any store, having walked the one full trail of its start. */
  lemma {:induction false} UnpinWalkIsTheTrail(store: Store, o: WalkOptions, start: Cid, before: seq<Cid>, w: Walk)
    returns (trail: seq<Cid>)
    requires !o.recurseIntoCollectionAssets && !o.recurseIntoSources
    requires WalkingTrail(store, o, start, before, w)
    ensures WalkedTrail(store, start, o.maxDepth, trail, WalkChain(store, o, start, After(store, start, before), |before|, w))
    decreases o.maxDepth - |before|
  {
    trail := before;
    if GoesOn(store, o, start, before) {
      var current := After(store, start, before);
      var w1 := VisitCid(store, o, w, current);
      TrailGrows(store, o, start, before, w);
      ChainUnfolds(store, o, start, before, w);
      trail := before + [current];
      if !w1.threw && store(current).Json? {
        trail := UnpinWalkIsTheTrail(store, o, start, trail, w1);
      }
    } else {
      TrailEnds(store, o, start, before, w);
    }
  }
}
