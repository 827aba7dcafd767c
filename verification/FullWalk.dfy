/** The full walk of the collector: sound on any store, complete along safe links, exact on a tame store. */
module FullWalk {
  import opened ManifestStore
  import opened ManifestWalk

  // ---------------------------------------------------------------------------------------
  // What a full walk is bound to collect, one link at a time
  // ---------------------------------------------------------------------------------------

  /** A full walk follows sources and collection assets. */
  predicate IsFull(o: WalkOptions) {
    o.recurseIntoSources && o.recurseIntoCollectionAssets
  }

  /** A stored JSON null. */
  predicate IsNull(store: Store, c: Cid) {
    store(c).Json? && store(c).manifest.None?
  }

  /** No chain of a collection's asset leads to `c`. */
  ghost predicate NeverNested(store: Store, start: Cid, c: Cid) {
    !Visits(store, Position(start, false), Position(c, true))
  }

  /** From `c` to its previous version, or from a collection that is never met nested to one of its assets. */
  ghost predicate SafeLink(store: Store, start: Cid, c: Cid, d: Cid) {
    HasManifest(store, c) &&
    (d in Pending(PrevOf(store, c)) || (d in AssetCids(ManifestOf(store, c)) && NeverNested(store, start, c)))
  }

  ghost predicate SafePath(store: Store, start: Cid, path: seq<Cid>) {
    && path != [] && path[0] == start
    && forall i, j :: 0 <= i && j == i + 1 && j < |path| ==> SafeLink(store, start, path[i], path[j])
  }

  ghost predicate SafelyLedTo(store: Store, start: Cid, c: Cid) {
    exists path :: SafePath(store, start, path) && path[|path| - 1] == c
  }

  /** `c` itself unless it is null, what its manifest names, and the references of each source whose marker is not reachable. */
  ghost predicate SafelyNamed(store: Store, start: Cid, c: Cid, x: Cid) {
    || (x == c && !IsNull(store, c))
    || (HasManifest(store, c) &&
        (|| x in OwnCids(ManifestOf(store, c)) + SharedCids(NodesOf(ManifestOf(store, c)))
         || exists source :: source in SourceCids(NodesOf(ManifestOf(store, c))) && x in EmbeddedRefs(store, source) &&
                             !Reachable(store, start, FailedMarker(source))))
  }

  /** Reachable along safe links only; what goes wrong elsewhere below the start does not matter. */
  ghost predicate SafelyReachable(store: Store, start: Cid, x: Cid) {
    exists c :: SafelyLedTo(store, start, c) && SafelyNamed(store, start, c, x)
  }

  // ---------------------------------------------------------------------------------------
  // The stores on which everything reachable is safely reachable
  // ---------------------------------------------------------------------------------------

  /** Following `prev` from a collection's asset never meets a collection. */
  ghost predicate FlatCollections(store: Store, start: Cid) {
    forall c {:trigger Visits(store, Position(start, false), Position(c, true))} :: IsCollection(store, c) ==> NeverNested(store, start, c)
  }

  /** Stored manifests are objects, never JSON null. */
  ghost predicate NoNullManifests(store: Store, start: Cid) {
    forall c {:trigger LeadsTo(store, start, c)} :: LeadsTo(store, start, c) ==> !IsNull(store, c)
  }

  /** No reachable document names a CID that starts with the marker. */
  ghost predicate NoMarkers(store: Store, start: Cid) {
    forall c {:trigger Reachable(store, start, FailedMarker(c))} :: !Reachable(store, start, FailedMarker(c))
  }

  ghost predicate Tame(store: Store, start: Cid) {
    FlatCollections(store, start) && NoNullManifests(store, start) && NoMarkers(store, start)
  }

  lemma {:induction false} FlatPathIsSafe(store: Store, start: Cid, path: seq<Cid>)
    requires FlatCollections(store, start) && ManifestPath(store, path) && path[0] == start
    ensures SafePath(store, start, path)
  {
    forall i, j | 0 <= i && j == i + 1 && j < |path| ensures SafeLink(store, start, path[i], path[j]) {
      assert path[j] in NextManifests(store, path[j - 1]);
    }
  }

  /** On a tame store the guards on single links cost nothing. */
  lemma TameIsSafe(store: Store, start: Cid, x: Cid)
    requires Tame(store, start) && Reachable(store, start, x)
    ensures SafelyReachable(store, start, x)
  {
    var c :| LeadsTo(store, start, c) && (x == c || (HasManifest(store, c) && x in Leaves(store, true, ManifestOf(store, c))));
    var path :| ManifestPath(store, path) && path[0] == start && path[|path| - 1] == c;
    FlatPathIsSafe(store, start, path);
    assert SafelyLedTo(store, start, c);
    if x != c && x in EmbeddedOf(store, NodesOf(ManifestOf(store, c))) {
      var source := EmbeddedHasSource(store, NodesOf(ManifestOf(store, c)), x);
    }
    assert SafelyNamed(store, start, c, x);
  }

  // ---------------------------------------------------------------------------------------
  // A frame for the proofs: positions closed under the walk's moves, and what they contribute
  // ---------------------------------------------------------------------------------------

  datatype Frame = Frame(ghost positions: iset<Position>, ghost cids: iset<Cid>)

  ghost predicate Closed(store: Store, sources: bool, f: Frame) {
    && (forall p, q :: p in f.positions && Moves(store, p, q) ==> q in f.positions)
    && (forall p, x :: p in f.positions && x in Contribution(store, sources, p) ==> x in f.cids)
  }

  /** The positions visited from a root, and everything traced from it. */
  ghost function FrameOf(store: Store, sources: bool, root: Position): Frame {
    Frame(iset p | Visits(store, root, p), iset x | Traced(store, sources, root, x))
  }

  lemma FrameOfIsClosed(store: Store, sources: bool, root: Position)
    ensures Closed(store, sources, FrameOf(store, sources, root)) && root in FrameOf(store, sources, root).positions
  {
    VisitsSelf(store, root);
    forall p, q | Visits(store, root, p) && Moves(store, p, q) ensures Visits(store, root, q) {
      VisitsNext(store, root, p, q);
    }
  }

  // ---------------------------------------------------------------------------------------
  // Soundness: the walk collects only what positions of its frame contribute
  // ---------------------------------------------------------------------------------------

  ghost predicate Within(w: Walk, f: Frame) {
    forall x :: x in w.allReachable ==> x in f.cids
  }

  lemma {:induction false} AssetsStayWithin(store: Store, o: WalkOptions, w: Walk, f: Frame, at: Position, n: nat)
    requires IsCollection(store, at.cid) && n <= |ManifestOf(store, at.cid).assets|
    requires Closed(store, o.recurseIntoSources, f) && at in f.positions && at.nested == !o.recurseIntoCollectionAssets
    requires Within(w, f)
    ensures
      var r := AddAssets(store, o, w, ManifestOf(store, at.cid).assets[..n]);
      Within(r, f) && Grows(w, r)
    decreases o.recurseIntoCollectionAssets, 1, n
  {
    var assets := ManifestOf(store, at.cid).assets;
    if n > 0 {
      AssetsStayWithin(store, o, w, f, at, n - 1);
      assert assets[..n][..n - 1] == assets[..n - 1];
      FieldCidsContains(assets, n - 1);
      var w1 := AddAssets(store, o, w, assets[..n - 1]);
      if !w1.threw && assets[n - 1].Cids() != {} {
        var asset := Position(assets[n - 1].s, true);
        if o.recurseIntoCollectionAssets {
          assert Moves(store, at, asset);
          ChainStaysWithin(store, o.(recurseIntoCollectionAssets := false), asset.cid, asset.cid, 0, w1, f);
        } else {
          assert asset.cid in Contribution(store, o.recurseIntoSources, at);
        }
      }
    }
  }

  lemma {:induction false} VisitStaysWithin(store: Store, o: WalkOptions, w: Walk, f: Frame, at: Position)
    requires Closed(store, o.recurseIntoSources, f) && at in f.positions && at.nested == !o.recurseIntoCollectionAssets
    requires Within(w, f)
    ensures
      var r := VisitCid(store, o, w, at.cid);
      Within(r, f) && Grows(w, r) && at.cid in r.visited
    decreases o.recurseIntoCollectionAssets, 2
  {
    if HasManifest(store, at.cid) {
      var m := ManifestOf(store, at.cid);
      var w2 := w.(visited := w.visited + {at.cid}, assetUnique := w.assetUnique + {at.cid}, allReachable := w.allReachable + {at.cid});
      assert at.cid in Contribution(store, o.recurseIntoSources, at);
      if m.Collection? {
        AssetsStayWithin(store, o, w2, f, at, |m.assets|);
        assert m.assets[..|m.assets|] == m.assets;
      } else {
        AssetManifestAdds(store, o, w2, m);
        assert Leaves(store, o.recurseIntoSources, m) <= Contribution(store, o.recurseIntoSources, at);
      }
    }
  }

  lemma {:induction false} ChainStaysWithin(store: Store, o: WalkOptions, start: Cid, current: Cid, depth: nat, w: Walk, f: Frame)
    requires Closed(store, o.recurseIntoSources, f)
    requires current == "" || Position(current, !o.recurseIntoCollectionAssets) in f.positions
    requires Within(w, f)
    ensures
      var r := WalkChain(store, o, start, current, depth, w);
      Within(r, f) && Grows(w, r)
    decreases o.recurseIntoCollectionAssets, 3, o.maxDepth - depth
  {
    if current != "" && current !in w.visited && depth < o.maxDepth {
      var at := Position(current, !o.recurseIntoCollectionAssets);
      VisitStaysWithin(store, o, w, f, at);
      var w1 := VisitCid(store, o, w, current);
      if !w1.threw {
        var next := PrevOf(store, current);
        assert next != "" ==> Moves(store, at, Position(next, at.nested));
        ChainStaysWithin(store, o, start, next, depth + 1, w1, f);
      }
    }
  }

  predicate Any<T>(x: T) {
    true
  }

  /** The frame that allows everything. */
  ghost function Everything(): Frame {
    Frame(iset p: Position | Any(p), iset x: Cid | Any(x))
  }

  lemma VisitGrows(store: Store, o: WalkOptions, w: Walk, c: Cid)
    ensures Grows(w, VisitCid(store, o, w, c)) && c in VisitCid(store, o, w, c).visited
  {
    VisitStaysWithin(store, o, w, Everything(), Position(c, !o.recurseIntoCollectionAssets));
  }

  lemma ChainGrows(store: Store, o: WalkOptions, start: Cid, current: Cid, depth: nat, w: Walk)
    ensures Grows(w, WalkChain(store, o, start, current, depth, w))
  {
    ChainStaysWithin(store, o, start, current, depth, w, Everything());
  }

  // ---------------------------------------------------------------------------------------
  // Completeness: a walk without errors expands every manifest it has visited
  // ---------------------------------------------------------------------------------------

  /** The manifests a visit of `c` is bound to go on to, whichever position of the frame it had. */
  ghost function Onward(store: Store, f: Frame, c: Cid): set<Cid> {
    if !HasManifest(store, c) then {}
    else Pending(PrevOf(store, c)) + if Position(c, true) in f.positions then {} else AssetCids(ManifestOf(store, c))
  }

  /**
   * What a clean visit of `c` has found usable and is bound to collect: itself, what it names, and the
   * references of its unmarked sources, all of which it could read.
   */
  ghost predicate Kept(store: Store, f: Frame, reached: set<Cid>, c: Cid) {
    HasManifest(store, c) ==>
      var m := ManifestOf(store, c);
      && !SceneUnusable(store, c)
      && {c} + OwnCids(m) + SharedCids(NodesOf(m)) <= reached
      && forall source :: source in SourceCids(NodesOf(m)) && FailedMarker(source) !in f.cids ==>
                            !store(source).Unreadable? && EmbeddedRefs(store, source) <= reached
  }

  ghost predicate Expanded(store: Store, f: Frame, w: Walk, pend: set<Cid>, c: Cid) {
    store(c).Json? && Kept(store, f, w.allReachable, c) && Onward(store, f, c) <= w.visited + pend
  }

  /** Every visited manifest is expanded, apart from the manifests still pending. */
  ghost predicate Settled(store: Store, f: Frame, w: Walk, pend: set<Cid>) {
    forall c :: c in w.visited ==> Expanded(store, f, w, pend, c)
  }

  ghost predicate CleanEnd(r: Walk) {
    !r.threw && r.errors == []
  }

  /** The setting of the completeness lemmas: a walk with sources inside a closed frame. */
  ghost predicate InFrame(store: Store, o: WalkOptions, f: Frame, w: Walk) {
    o.recurseIntoSources && Closed(store, true, f) && Within(w, f) && !w.threw
  }

  lemma {:induction false} AssetsSettle(store: Store, o: WalkOptions, w: Walk, f: Frame, at: Position, pend: set<Cid>, n: nat)
    requires InFrame(store, o, f, w) && o.recurseIntoCollectionAssets && at in f.positions && !at.nested
    requires IsCollection(store, at.cid) && n <= |ManifestOf(store, at.cid).assets|
    requires AssetCids(ManifestOf(store, at.cid)) <= pend && Settled(store, f, w, pend)
    ensures
      var assets := ManifestOf(store, at.cid).assets;
      var r := AddAssets(store, o, w, assets[..n]);
      CleanEnd(r) ==> Settled(store, f, r, pend) && FieldCids(assets[..n]) <= r.visited
    decreases o.recurseIntoCollectionAssets, 1, n
  {
    var assets := ManifestOf(store, at.cid).assets;
    if n > 0 {
      var w1 := AddAssets(store, o, w, assets[..n - 1]);
      var r := AddAssets(store, o, w, assets[..n]);
      assert assets[..n][..n - 1] == assets[..n - 1];
      AssetsSettle(store, o, w, f, at, pend, n - 1);
      AssetsStayWithin(store, o, w, f, at, n - 1);
      FieldCidsContains(assets, n - 1);
      if !w1.threw && assets[n - 1].Cids() != {} {
        var asset := Position(assets[n - 1].s, true);
        assert Moves(store, at, asset);
        var nested := o.(recurseIntoCollectionAssets := false);
        ChainStaysWithin(store, nested, asset.cid, asset.cid, 0, w1, f);
        if CleanEnd(r) {
          assert pend == pend + {asset.cid};
          ChainSettles(store, nested, asset.cid, asset.cid, 0, w1, f, pend);
        }
      }
    }
  }

  /** Visiting one more document and keeping what it is bound to keep leaves the others expanded. */
  lemma SettlesWith(store: Store, f: Frame, w: Walk, r: Walk, pend: set<Cid>, c: Cid, next: set<Cid>)
    requires Settled(store, f, w, pend + {c}) && store(c).Json?
    requires r.visited == w.visited + {c} && w.allReachable <= r.allReachable
    requires Kept(store, f, r.allReachable, c) && pend + Onward(store, f, c) <= next
    ensures Settled(store, f, r, next)
  {
    forall d | d in r.visited ensures Expanded(store, f, r, next, d) {
      assert d in w.visited ==> Expanded(store, f, w, pend + {c}, d);
    }
  }

  /** One visit, except of a collection whose assets are walked. */
  lemma PlainVisitSettles(store: Store, o: WalkOptions, w: Walk, f: Frame, at: Position, pend: set<Cid>)
    requires InFrame(store, o, f, w) && at in f.positions && at.nested == !o.recurseIntoCollectionAssets
    requires IsCollection(store, at.cid) ==> at.nested
    requires Settled(store, f, w, pend + {at.cid})
    requires CleanEnd(VisitCid(store, o, w, at.cid))
    ensures Settled(store, f, VisitCid(store, o, w, at.cid), pend + Pending(PrevOf(store, at.cid)))
  {
    var r := VisitCid(store, o, w, at.cid);
    VisitStaysWithin(store, o, w, f, at);
    if HasManifest(store, at.cid) {
      var m := ManifestOf(store, at.cid);
      var w2 := w.(visited := w.visited + {at.cid}, assetUnique := w.assetUnique + {at.cid}, allReachable := w.allReachable + {at.cid});
      if m.Collection? {
        AssetsAreListed(store, o, w2, m.assets);
      } else {
        AssetManifestKeeps(store, o, w2, f, r, at.cid);
      }
    }
    SettlesWith(store, f, w, r, pend, at.cid, pend + Pending(PrevOf(store, at.cid)));
  }

  lemma AssetManifestKeeps(store: Store, o: WalkOptions, w: Walk, f: Frame, r: Walk, c: Cid)
    requires o.recurseIntoSources && HasManifest(store, c) && !IsCollection(store, c) && c in w.allReachable
    requires r == AddAssetManifest(store, o, w, ManifestOf(store, c)) && CleanEnd(r) && Within(r, f)
    ensures r.visited == w.visited && Kept(store, f, r.allReachable, c)
  {
    var m := ManifestOf(store, c);
    var w1 := w.(assetUnique := w.assetUnique + OwnCids(m), allReachable := w.allReachable + OwnCids(m));
    NodesAdd(store, o, w1, NodesOf(m));
    forall source | source in SourceCids(NodesOf(m)) && FailedMarker(source) !in f.cids
      ensures !store(source).Unreadable? && EmbeddedRefs(store, source) <= r.allReachable
    {
      NodesAddReferences(store, o, w1, NodesOf(m), source);
    }
  }

  lemma CollectionSettles(store: Store, o: WalkOptions, w: Walk, f: Frame, at: Position, pend: set<Cid>)
    requires InFrame(store, o, f, w) && at in f.positions && !at.nested && o.recurseIntoCollectionAssets
    requires IsCollection(store, at.cid)
    requires Settled(store, f, w, pend + {at.cid})
    requires CleanEnd(VisitCid(store, o, w, at.cid))
    ensures Settled(store, f, VisitCid(store, o, w, at.cid), pend + Pending(PrevOf(store, at.cid)))
    decreases o.recurseIntoCollectionAssets, 1, |ManifestOf(store, at.cid).assets| + 1
  {
    var m := ManifestOf(store, at.cid);
    var w2 := w.(visited := w.visited + {at.cid}, assetUnique := w.assetUnique + {at.cid}, allReachable := w.allReachable + {at.cid});
    var next := pend + Pending(m.prev);
    assert at.cid in Contribution(store, true, at);
    SettlesWith(store, f, w, w2, pend, at.cid, next + AssetCids(m));
    AssetsSettle(store, o, w2, f, at, next + AssetCids(m), |m.assets|);
    assert m.assets[..|m.assets|] == m.assets;
    PendingWasVisited(store, f, VisitCid(store, o, w, at.cid), next, AssetCids(m));
  }

  /** What has been visited is pending no more. */
  lemma PendingWasVisited(store: Store, f: Frame, r: Walk, pend: set<Cid>, done: set<Cid>)
    requires Settled(store, f, r, pend + done) && done <= r.visited
    ensures Settled(store, f, r, pend)
  {
    forall c | c in r.visited ensures Expanded(store, f, r, pend, c) {
      assert Expanded(store, f, r, pend + done, c);
    }
  }

  lemma {:induction false} VisitSettles(store: Store, o: WalkOptions, w: Walk, f: Frame, at: Position, pend: set<Cid>)
    requires InFrame(store, o, f, w) && at in f.positions && at.nested == !o.recurseIntoCollectionAssets
    requires Settled(store, f, w, pend + {at.cid})
    requires CleanEnd(VisitCid(store, o, w, at.cid))
    ensures Settled(store, f, VisitCid(store, o, w, at.cid), pend + Pending(PrevOf(store, at.cid)))
    decreases o.recurseIntoCollectionAssets, 2
  {
    if IsCollection(store, at.cid) && !at.nested {
      CollectionSettles(store, o, w, f, at, pend);
    } else {
      PlainVisitSettles(store, o, w, f, at, pend);
    }
  }

  /** One step of a clean chain walk: visit, then go on from the previous version. */
  lemma ChainGoesOn(store: Store, o: WalkOptions, start: Cid, current: Cid, depth: nat, w: Walk, f: Frame)
    requires InFrame(store, o, f, w) && Position(current, !o.recurseIntoCollectionAssets) in f.positions
    requires current != "" && current !in w.visited && depth < o.maxDepth
    requires CleanEnd(WalkChain(store, o, start, current, depth, w))
    ensures
      var w1 := VisitCid(store, o, w, current);
      var next := PrevOf(store, current);
      && WalkChain(store, o, start, current, depth, w) == WalkChain(store, o, start, next, depth + 1, w1)
      && CleanEnd(w1) && InFrame(store, o, f, w1) && current in w1.visited
      && w1.visited <= WalkChain(store, o, start, current, depth, w).visited
      && (next == "" || Position(next, !o.recurseIntoCollectionAssets) in f.positions)
  {
    var at := Position(current, !o.recurseIntoCollectionAssets);
    var next := PrevOf(store, current);
    VisitStaysWithin(store, o, w, f, at);
    assert next != "" ==> Moves(store, at, Position(next, at.nested));
    ChainStaysWithin(store, o, start, next, depth + 1, VisitCid(store, o, w, current), f);
  }

  lemma {:induction false} ChainSettles(store: Store, o: WalkOptions, start: Cid, current: Cid, depth: nat, w: Walk, f: Frame, pend: set<Cid>)
    requires InFrame(store, o, f, w) && Settled(store, f, w, pend + Pending(current))
    requires current == "" || Position(current, !o.recurseIntoCollectionAssets) in f.positions
    requires CleanEnd(WalkChain(store, o, start, current, depth, w))
    ensures Settled(store, f, WalkChain(store, o, start, current, depth, w), pend)
    ensures current == "" || current in WalkChain(store, o, start, current, depth, w).visited
    decreases o.recurseIntoCollectionAssets, 3, o.maxDepth - depth
  {
    if current == "" {
      assert pend + Pending(current) == pend;
    } else if current in w.visited {
      PendingWasVisited(store, f, w, pend, {current});
    } else {
      assert depth < o.maxDepth;
      ChainGoesOn(store, o, start, current, depth, w, f);
      VisitSettles(store, o, w, f, Position(current, !o.recurseIntoCollectionAssets), pend);
      ChainSettles(store, o, start, PrevOf(store, current), depth + 1, VisitCid(store, o, w, current), f, pend);
    }
  }

  // ---------------------------------------------------------------------------------------
  // The theorems
  // ---------------------------------------------------------------------------------------

  /** With nothing pending, every safe path from the start has been visited. */
  lemma {:induction false} SafePathIsVisited(store: Store, start: Cid, r: Walk, path: seq<Cid>)
    requires Settled(store, FrameOf(store, true, Position(start, false)), r, {}) && start in r.visited
    requires SafePath(store, start, path)
    ensures path[|path| - 1] in r.visited
  {
    if |path| > 1 {
      var shorter := path[..|path| - 1];
      assert SafePath(store, start, shorter);
      SafePathIsVisited(store, start, r, shorter);
      var c := shorter[|shorter| - 1];
      assert c == path[|path| - 2] && SafeLink(store, start, path[|path| - 2], path[|path| - 1]);
      assert Expanded(store, FrameOf(store, true, Position(start, false)), r, {}, c);
    }
  }

  lemma SettledHoldsSafelyReachable(store: Store, start: Cid, r: Walk, x: Cid)
    requires Settled(store, FrameOf(store, true, Position(start, false)), r, {}) && start in r.visited
    requires SafelyReachable(store, start, x)
    ensures x in r.allReachable
  {
    var root := Position(start, false);
    var f := FrameOf(store, true, root);
    var c :| SafelyLedTo(store, start, c) && SafelyNamed(store, start, c, x);
    var path :| SafePath(store, start, path) && path[|path| - 1] == c;
    SafePathIsVisited(store, start, r, path);
    assert Expanded(store, f, r, {}, c);
    if source :| HasManifest(store, c) && source in SourceCids(NodesOf(ManifestOf(store, c))) &&
                 x in EmbeddedRefs(store, source) && !Reachable(store, start, FailedMarker(source))
    {
      if FailedMarker(source) in f.cids {
        TracedIsReachable(store, true, root, FailedMarker(source));
      }
    }
  }

  /** In every mode, and whatever goes wrong, the walk collects only reachable CIDs. */
  lemma WalkCollectsOnlyReachable(store: Store, o: WalkOptions, start: Cid)
    ensures forall x :: x in WalkChain(store, o, start, start, 0, EMPTY_WALK).allReachable ==> Reachable(store, start, x)
  {
    var root := Position(start, !o.recurseIntoCollectionAssets);
    var f := FrameOf(store, o.recurseIntoSources, root);
    FrameOfIsClosed(store, o.recurseIntoSources, root);
    ChainStaysWithin(store, o, start, start, 0, EMPTY_WALK, f);
    forall x | x in WalkChain(store, o, start, start, 0, EMPTY_WALK).allReachable ensures Reachable(store, start, x) {
      assert x in f.cids;
      TracedIsReachable(store, o.recurseIntoSources, root, x);
    }
  }

  // What a clean walk has read is what is really stored, so guarded links of the truth are seen.

  lemma SafeLinkIsSeen(store: Store, truth: Store, start: Cid, c: Cid, d: Cid)
    requires AgreesWith(store, truth) && store(c).Json? && SafeLink(truth, start, c, d)
    ensures SafeLink(store, start, c, d)
  {
    if Visits(store, Position(start, false), Position(c, true)) {
      VisitsReally(store, truth, Position(start, false), Position(c, true));
    }
  }

  lemma {:induction false} SafePathIsSeen(store: Store, truth: Store, start: Cid, r: Walk, path: seq<Cid>)
    requires AgreesWith(store, truth) && SafePath(truth, start, path)
    requires Settled(store, FrameOf(store, true, Position(start, false)), r, {}) && start in r.visited
    ensures SafePath(store, start, path)
  {
    if |path| > 1 {
      var shorter, c, d := path[..|path| - 1], path[|path| - 2], path[|path| - 1];
      assert SafePath(truth, start, shorter);
      SafePathIsSeen(store, truth, start, r, shorter);
      SafePathIsVisited(store, start, r, shorter);
      assert Expanded(store, FrameOf(store, true, Position(start, false)), r, {}, c);
      assert SafeLink(truth, start, c, d);
      SafeLinkIsSeen(store, truth, start, c, d);
      forall i, j | 0 <= i && j == i + 1 && j < |path| ensures SafeLink(store, start, path[i], path[j]) {
        assert j < |shorter| ==> SafeLink(store, start, shorter[i], shorter[j]);
      }
    }
  }

  /** A document on a safe path was read and could be used, and so was each of its sources whose marker is not reachable. */
  lemma SettledHasRead(store: Store, start: Cid, r: Walk, c: Cid)
    requires Settled(store, FrameOf(store, true, Position(start, false)), r, {}) && start in r.visited
    requires SafelyLedTo(store, start, c)
    ensures store(c).Json? && !SceneUnusable(store, c)
    ensures HasManifest(store, c) ==>
              forall source :: source in SourceCids(NodesOf(ManifestOf(store, c))) && !Reachable(store, start, FailedMarker(source)) ==>
                                 !store(source).Unreadable?
  {
    var root := Position(start, false);
    var f := FrameOf(store, true, root);
    var path :| SafePath(store, start, path) && path[|path| - 1] == c;
    SafePathIsVisited(store, start, r, path);
    assert Expanded(store, f, r, {}, c);
    if HasManifest(store, c) {
      forall source | source in SourceCids(NodesOf(ManifestOf(store, c))) && !Reachable(store, start, FailedMarker(source))
        ensures !store(source).Unreadable?
      {
        if FailedMarker(source) in f.cids {
          TracedIsReachable(store, true, root, FailedMarker(source));
        }
      }
    }
  }

  lemma SafelyReachableIsSeen(store: Store, truth: Store, start: Cid, r: Walk, x: Cid)
    requires AgreesWith(store, truth) && SafelyReachable(truth, start, x)
    requires Settled(store, FrameOf(store, true, Position(start, false)), r, {}) && start in r.visited
    ensures SafelyReachable(store, start, x)
  {
    var c :| SafelyLedTo(truth, start, c) && SafelyNamed(truth, start, c, x);
    var path :| SafePath(truth, start, path) && path[|path| - 1] == c;
    SafePathIsSeen(store, truth, start, r, path);
    assert SafelyLedTo(store, start, c);
    SettledHasRead(store, start, r, c);
    if source :| HasManifest(truth, c) && source in SourceCids(NodesOf(ManifestOf(truth, c))) &&
                 x in EmbeddedRefs(truth, source) && !Reachable(truth, start, FailedMarker(source))
    {
      if Reachable(store, start, FailedMarker(source)) {
        ReachableReally(store, truth, start, FailedMarker(source));
      }
      assert x in EmbeddedRefs(store, source);
    }
    assert SafelyNamed(store, start, c, x);
  }

  lemma CleanWalkSettles(store: Store, o: WalkOptions, start: Cid, r: Walk)
    requires IsFull(o) && start != "" && r == WalkChain(store, o, start, start, 0, EMPTY_WALK) && CleanEnd(r)
    ensures Settled(store, FrameOf(store, true, Position(start, false)), r, {}) && start in r.visited
  {
    var root := Position(start, false);
    FrameOfIsClosed(store, true, root);
    ChainSettles(store, o, start, start, 0, EMPTY_WALK, FrameOf(store, true, root), {});
  }

  /** A full walk without errors has read and could use every document on a safe path, and has read each source there whose marker is not reachable. */
  lemma CleanWalkHasRead(store: Store, o: WalkOptions, start: Cid, c: Cid)
    requires IsFull(o) && start != "" && CleanEnd(WalkChain(store, o, start, start, 0, EMPTY_WALK))
    requires SafelyLedTo(store, start, c)
    ensures store(c).Json? && !SceneUnusable(store, c)
    ensures HasManifest(store, c) ==>
              forall source :: source in SourceCids(NodesOf(ManifestOf(store, c))) && !Reachable(store, start, FailedMarker(source)) ==>
                                 !store(source).Unreadable?
  {
    var r := WalkChain(store, o, start, start, 0, EMPTY_WALK);
    CleanWalkSettles(store, o, start, r);
    SettledHasRead(store, start, r, c);
  }

  /** What is really safely reachable is so in what a clean walk could read. */
  lemma TruthIsSeen(store: Store, truth: Store, o: WalkOptions, start: Cid, x: Cid)
    requires AgreesWith(store, truth)
    requires IsFull(o) && start != "" && CleanEnd(WalkChain(store, o, start, start, 0, EMPTY_WALK))
    requires SafelyReachable(truth, start, x)
    ensures SafelyReachable(store, start, x)
  {
    var r := WalkChain(store, o, start, start, 0, EMPTY_WALK);
    CleanWalkSettles(store, o, start, r);
    SafelyReachableIsSeen(store, truth, start, r, x);
  }

  /**
   * Completeness, guarded link by link: a full walk without errors collects everything that is safely
   * reachable in what is really stored, whatever cycles and shared chains there are. Documents and
   * sources that cannot be read leave an error, so a walk without errors has missed none of them.
   */
  lemma CleanWalkCollects(store: Store, truth: Store, o: WalkOptions, start: Cid, r: Walk)
    requires AgreesWith(store, truth)
    requires IsFull(o) && start != "" && r == WalkChain(store, o, start, start, 0, EMPTY_WALK) && CleanEnd(r)
    ensures forall x :: SafelyReachable(truth, start, x) ==> x in r.allReachable
  {
    CleanWalkSettles(store, o, start, r);
    forall x | SafelyReachable(truth, start, x) ensures x in r.allReachable {
      SafelyReachableIsSeen(store, truth, start, r, x);
      SettledHoldsSafelyReachable(store, start, r, x);
    }
  }

  /** Where the true store is tame the full walk is exact: without errors it collects what is really reachable, all of it and nothing else. */
  lemma CleanWalkIsExact(store: Store, truth: Store, o: WalkOptions, start: Cid, r: Walk)
    requires AgreesWith(store, truth)
    requires IsFull(o) && start != "" && r == WalkChain(store, o, start, start, 0, EMPTY_WALK) && CleanEnd(r)
    requires Tame(truth, start)
    ensures forall x :: x in r.allReachable <==> Reachable(truth, start, x)
  {
    WalkCollectsOnlyReachable(store, o, start);
    CleanWalkCollects(store, truth, o, start, r);
    forall x ensures x in r.allReachable <==> Reachable(truth, start, x) {
      if x in r.allReachable {
        ReachableReally(store, truth, start, x);
      }
      if Reachable(truth, start, x) {
        TameIsSafe(truth, start, x);
      }
    }
  }
}
