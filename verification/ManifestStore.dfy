/**
 * What the manifest walker can read: content-addressed documents, the fields it follows, and
 * the reachability those fields define. Nothing in this module mentions how the walk proceeds.
 */
module ManifestStore {
  import opened Wrappers

  /** An opaque content id. The empty string is JavaScript's "no CID". */
  type Cid = string

  function Elements(s: seq<Cid>): set<Cid> {
    set c | c in s
  }

  /** A JSON field that may hold a CID: a string, or anything else (absent, null, a number). */
  datatype Field = Text(s: string) | NotText {
    function Cids(): set<Cid> {
      if Text? && s != "" then {s} else {}
    }
  }

  datatype SceneNode = SceneNode(sourceCid: Field, bundleCid: Field, referenceImage: Field, referenceImages: seq<Field>)

  /** `Unusable` is a scene whose nodes cannot be iterated: reading it throws. */
  datatype Scene = Nodes(nodes: seq<SceneNode>) | Unusable

  datatype Manifest =
    | Collection(assets: seq<Field>, prev: Cid)
    | Asset(thumbnail: Field, archive: Field, scene: Scene, prev: Cid)

  /** `Json(None, _)` is a stored falsy value such as JSON null; `refs` are its ipfs:// CIDs. */
  datatype Content = Unreadable | NotJson | Json(manifest: Option<Manifest>, refs: set<Cid>)

  /** Storage may be cyclic and may hold infinitely many documents. */
  type Store = Cid -> Content

  predicate HasManifest(store: Store, c: Cid) {
    store(c).Json? && store(c).manifest.Some?
  }

  function ManifestOf(store: Store, c: Cid): Manifest
    requires HasManifest(store, c)
  {
    store(c).manifest.value
  }

  predicate IsCollection(store: Store, c: Cid) {
    HasManifest(store, c) && ManifestOf(store, c).Collection?
  }

  // ---------------------------------------------------------------------------------------
  // What one manifest refers to
  // ---------------------------------------------------------------------------------------

  function FieldCids(fields: seq<Field>): set<Cid> {
    if fields == [] then {} else FieldCids(fields[..|fields| - 1]) + fields[|fields| - 1].Cids()
  }

  /** The CIDs named by the content of a source: nothing when it is not readable JSON. */
  function EmbeddedRefs(store: Store, c: Cid): set<Cid> {
    if store(c).Json? then store(c).refs else {}
  }

  function ImageCids(node: SceneNode): set<Cid> {
    FieldCids([node.referenceImage] + node.referenceImages)
  }

  /** Sources, bundles and reference images: what nodes share with other assets. */
  function SharedCids(nodes: seq<SceneNode>): set<Cid> {
    if nodes == [] then {} else
    var node := nodes[|nodes| - 1];
    SharedCids(nodes[..|nodes| - 1]) + node.sourceCid.Cids() + node.bundleCid.Cids() + ImageCids(node)
  }

  /** The sources that nodes name. */
  function SourceCids(nodes: seq<SceneNode>): set<Cid> {
    if nodes == [] then {} else SourceCids(nodes[..|nodes| - 1]) + nodes[|nodes| - 1].sourceCid.Cids()
  }

  /** The references embedded in a node's source. */
  function NodeRefs(store: Store, node: SceneNode): set<Cid> {
    if node.sourceCid.Text? && node.sourceCid.s != "" then EmbeddedRefs(store, node.sourceCid.s) else {}
  }

  function EmbeddedOf(store: Store, nodes: seq<SceneNode>): set<Cid> {
    if nodes == [] then {} else EmbeddedOf(store, nodes[..|nodes| - 1]) + NodeRefs(store, nodes[|nodes| - 1])
  }

  lemma {:induction false} EmbeddedHasSource(store: Store, nodes: seq<SceneNode>, x: Cid) returns (source: Cid)
    requires x in EmbeddedOf(store, nodes)
    ensures source in SourceCids(nodes) && x in EmbeddedRefs(store, source)
  {
    var last := nodes[|nodes| - 1];
    if x in NodeRefs(store, last) {
      source := last.sourceCid.s;
    } else {
      source := EmbeddedHasSource(store, nodes[..|nodes| - 1], x);
    }
  }

  lemma {:induction false} SourceIsEmbedded(store: Store, nodes: seq<SceneNode>, source: Cid)
    requires source in SourceCids(nodes)
    ensures EmbeddedRefs(store, source) <= EmbeddedOf(store, nodes)
  {
    if source in SourceCids(nodes[..|nodes| - 1]) {
      SourceIsEmbedded(store, nodes[..|nodes| - 1], source);
    }
  }

  /** Thumbnail and comments archive: what belongs to this asset alone. */
  function OwnCids(m: Manifest): set<Cid> {
    if m.Asset? then m.thumbnail.Cids() + m.archive.Cids() else {}
  }

  function NodesOf(m: Manifest): seq<SceneNode> {
    if m.Asset? && m.scene.Nodes? then m.scene.nodes else []
  }

  /** Everything a manifest protects besides other manifests. */
  function Leaves(store: Store, sources: bool, m: Manifest): set<Cid> {
    OwnCids(m) + SharedCids(NodesOf(m)) +
    (if sources then EmbeddedOf(store, NodesOf(m)) else {})
  }

  function AssetCids(m: Manifest): set<Cid> {
    if m.Collection? then FieldCids(m.assets) else {}
  }

  function PrevOf(store: Store, c: Cid): Cid {
    if HasManifest(store, c) then ManifestOf(store, c).prev else ""
  }

  function Pending(c: Cid): set<Cid> {
    if c == "" then {} else {c}
  }

  // ---------------------------------------------------------------------------------------
  // Reachability
  // ---------------------------------------------------------------------------------------

  /** The manifests a manifest leads to: its previous version and, for a collection, its assets. */
  function NextManifests(store: Store, c: Cid): set<Cid> {
    if HasManifest(store, c) then Pending(PrevOf(store, c)) + AssetCids(ManifestOf(store, c)) else {}
  }

  ghost predicate ManifestPath(store: Store, path: seq<Cid>) {
    path != [] && forall i :: 0 < i < |path| ==> path[i] in NextManifests(store, path[i - 1])
  }

  ghost predicate LeadsTo(store: Store, start: Cid, c: Cid) {
    exists path :: ManifestPath(store, path) && path[0] == start && path[|path| - 1] == c
  }

  /** A CID that a live token must keep: a manifest in its history, or something one protects. */
  ghost predicate Reachable(store: Store, start: Cid, x: Cid) {
    exists c :: LeadsTo(store, start, c) && (x == c || (HasManifest(store, c) && x in Leaves(store, true, ManifestOf(store, c))))
  }

  lemma LeadsToSelf(store: Store, start: Cid)
    ensures LeadsTo(store, start, start)
  {
    assert ManifestPath(store, [start]);
  }

  lemma LeadsToNext(store: Store, start: Cid, c: Cid, d: Cid)
    requires LeadsTo(store, start, c) && d in NextManifests(store, c)
    ensures LeadsTo(store, start, d)
  {
    var path :| ManifestPath(store, path) && path[0] == start && path[|path| - 1] == c;
    var longer := path + [d];
    assert ManifestPath(store, longer) && longer[0] == start && longer[|longer| - 1] == d;
  }

  /** Any set that holds the start and is closed under the manifest edges holds every manifest reached. */
  lemma {:induction false} ClosedSetHoldsPath(store: Store, closed: set<Cid>, path: seq<Cid>)
    requires ManifestPath(store, path) && path[0] in closed
    requires forall c :: c in closed ==> NextManifests(store, c) <= closed
    ensures path[|path| - 1] in closed
  {
    if |path| > 1 {
      var shorter := path[..|path| - 1];
      assert ManifestPath(store, shorter);
      ClosedSetHoldsPath(store, closed, shorter);
    }
  }

  // ---------------------------------------------------------------------------------------
  // Positions: a manifest together with the mode in which the walk stands on it
  // ---------------------------------------------------------------------------------------

  /** `nested` means collection assets are listed here, not walked. */
  datatype Position = Position(cid: Cid, nested: bool)

  predicate Moves(store: Store, p: Position, q: Position) {
    && HasManifest(store, p.cid)
    && if q.nested == p.nested && q.cid != "" && q.cid == PrevOf(store, p.cid) then true
       else !p.nested && q.nested && q.cid in AssetCids(ManifestOf(store, p.cid))
  }

  ghost predicate PositionPath(store: Store, path: seq<Position>) {
    path != [] && forall i :: 0 < i < |path| ==> Moves(store, path[i - 1], path[i])
  }

  ghost predicate Visits(store: Store, root: Position, p: Position) {
    exists path :: PositionPath(store, path) && path[0] == root && path[|path| - 1] == p
  }

  lemma VisitsSelf(store: Store, root: Position)
    ensures Visits(store, root, root)
  {
    assert PositionPath(store, [root]);
  }

  lemma VisitsNext(store: Store, root: Position, p: Position, q: Position)
    requires Visits(store, root, p) && Moves(store, p, q)
    ensures Visits(store, root, q)
  {
    var path :| PositionPath(store, path) && path[0] == root && path[|path| - 1] == p;
    var longer := path + [q];
    assert PositionPath(store, longer) && longer[0] == root && longer[|longer| - 1] == q;
  }

  lemma {:induction false} PositionPathLeadsTo(store: Store, path: seq<Position>)
    requires PositionPath(store, path)
    ensures LeadsTo(store, path[0].cid, path[|path| - 1].cid)
  {
    if |path| == 1 {
      LeadsToSelf(store, path[0].cid);
    } else {
      var shorter := path[..|path| - 1];
      assert PositionPath(store, shorter);
      PositionPathLeadsTo(store, shorter);
      LeadsToNext(store, path[0].cid, shorter[|shorter| - 1].cid, path[|path| - 1].cid);
    }
  }

  lemma VisitedIsLedTo(store: Store, root: Position, p: Position)
    requires Visits(store, root, p)
    ensures LeadsTo(store, root.cid, p.cid)
  {
    var path :| PositionPath(store, path) && path[0] == root && path[|path| - 1] == p;
    PositionPathLeadsTo(store, path);
  }

  /** What a position puts into the walk's reachable set. */
  function Contribution(store: Store, sources: bool, p: Position): set<Cid> {
    if !HasManifest(store, p.cid) then {} else
    var m := ManifestOf(store, p.cid);
    {p.cid} + Leaves(store, sources, m) + (if p.nested then AssetCids(m) else {})
  }

  ghost predicate Traced(store: Store, sources: bool, root: Position, x: Cid) {
    exists p :: Visits(store, root, p) && x in Contribution(store, sources, p)
  }

  /** Nothing is traced that is not reachable, in either mode. */
  lemma TracedIsReachable(store: Store, sources: bool, root: Position, x: Cid)
    requires Traced(store, sources, root, x)
    ensures Reachable(store, root.cid, x)
  {
    var p :| Visits(store, root, p) && x in Contribution(store, sources, p);
    VisitedIsLedTo(store, root, p);
    var m := ManifestOf(store, p.cid);
    if x in AssetCids(m) {
      LeadsToNext(store, root.cid, p.cid, x);
    }
  }

  // ---------------------------------------------------------------------------------------
  // What can be read and what is really stored
  // ---------------------------------------------------------------------------------------

  /** Every document that can be read is the one really stored; a failed read says nothing about it. */
  ghost predicate AgreesWith(store: Store, truth: Store) {
    forall c :: !store(c).Unreadable? ==> store(c) == truth(c)
  }

  /** What is visited or reachable as far as documents can be read really is. */
  lemma VisitsReally(store: Store, truth: Store, root: Position, p: Position)
    requires AgreesWith(store, truth) && Visits(store, root, p)
    ensures Visits(truth, root, p)
  {
    var path :| PositionPath(store, path) && path[0] == root && path[|path| - 1] == p;
    forall i | 0 < i < |path| ensures Moves(truth, path[i - 1], path[i]) {
      assert Moves(store, path[i - 1], path[i]);
    }
    assert PositionPath(truth, path);
  }

  lemma LeavesReally(store: Store, truth: Store, m: Manifest)
    requires AgreesWith(store, truth)
    ensures Leaves(store, true, m) <= Leaves(truth, true, m)
  {
    forall x | x in EmbeddedOf(store, NodesOf(m)) ensures x in EmbeddedOf(truth, NodesOf(m)) {
      var source := EmbeddedHasSource(store, NodesOf(m), x);
      SourceIsEmbedded(truth, NodesOf(m), source);
    }
  }

  lemma ReachableReally(store: Store, truth: Store, start: Cid, x: Cid)
    requires AgreesWith(store, truth) && Reachable(store, start, x)
    ensures Reachable(truth, start, x)
  {
    var c :| LeadsTo(store, start, c) && (x == c || (HasManifest(store, c) && x in Leaves(store, true, ManifestOf(store, c))));
    var path :| ManifestPath(store, path) && path[0] == start && path[|path| - 1] == c;
    forall i | 0 < i < |path| ensures path[i] in NextManifests(truth, path[i - 1]) {
      assert path[i] in NextManifests(store, path[i - 1]);
    }
    assert ManifestPath(truth, path);
    assert LeadsTo(truth, start, c);
    if x != c {
      LeavesReally(store, truth, ManifestOf(store, c));
    }
  }
}
