/**
 * Tripo tasks from request to result. One request or poll is one atomic step; the provider answers
 * arbitrarily. The model records which paid rig and retarget calls the provider accepted.
 */
module AnimateChain {
  import opened Wrappers
  import opened GenerationTasks
  import opened AnimationPresets

  // ---------------------------------------------------------------------------------------
  // Requests, polls and what the provider may say
  // ---------------------------------------------------------------------------------------

  /** A provider call either throws, with or without an auth/credit status, or returns. */
  datatype Answer<T> = Threw(authOrCredit: bool) | Got(value: T)

  datatype Body = Body(
    hasSource: bool,
    sourceTaskId: Option<TaskId>,
    rigCheck: bool,
    animate: bool,
    rigOnly: bool,
    animateInPlace: bool,
    rigModel: Option<string>,
    animations: seq<string>)

  datatype RigReport = RigReport(riggable: bool, rigType: Option<string>)

  datatype PollStatus =
    | InFlight
    | Succeeded(report: RigReport, cadDesign: bool, hasModel: bool)
    | FailedOrCancelled

  /** Everything the provider and the configuration answer during one poll. */
  datatype PollAnswers = PollAnswers(
    available: bool,
    status: Answer<PollStatus>,
    rig: Answer<(string, string)>,
    retarget: Answer<string>,
    download: Answer<bool>)

  /**
   * A paid provider call that was accepted. A rig call carries the entry it was made for; a retarget
   * call names the task whose rig it works on, with that task's entry, and what to animate and how.
   */
  datatype Started =
    | RigStarted(id: TaskId, entry: TaskEntry, rigType: string)
    | RetargetStarted(id: TaskId, rig: TaskId, source: TaskEntry, animations: seq<string>, inPlace: bool)

  datatype Response =
    | NotFound | NotConfigured | Progress | Advanced(phase: Phase) | Probe(riggable: bool) | NotRiggable | PresetMismatch
    | TaskFailed | Finished | Errored | Accepted(id: TaskId)

  /** The registry, the first version of every entry ever registered, what tripo requests asked for, and the accepted paid calls. */
  datatype World = World(registry: Registry, registered: Registry, requested: map<TaskId, Body>, started: seq<Started>)

  const EMPTY := World(map[], map[], map[], [])

  // ---------------------------------------------------------------------------------------
  // Requests
  // ---------------------------------------------------------------------------------------

  function NewEntry(user: Wallet, now: int, providerTaskId: string): TaskEntry {
    TaskEntry(providerTaskId, user, now, false, Tripo, Generate, None, [], false, false, false, None)
  }

  function Register(w: World, id: TaskId, e: TaskEntry): World {
    w.(registry := w.registry[id := e], registered := w.registered[id := e])
  }

  /** An empty rig model counts as none. */
  function ChosenModel(b: Body): (model: Option<string>)
    ensures model.None? <==> b.rigModel.None? || b.rigModel == Some("")
    ensures model.Some? ==> model == b.rigModel
  {
    if b.rigModel == Some("") then None else b.rigModel
  }

  /** Whether the retarget-only shortcut looks for a rig at all. */
  predicate WantsRigSource(b: Body) {
    b.animate && b.sourceTaskId.Some? && b.sourceTaskId.value != "" && ChosenModel(b).None?
  }

  function FindRigSource(w: World, now: int, user: Wallet, b: Body): Option<TaskEntry> {
    if !WantsRigSource(b) then None else
    var source := Find(w.registry, now, b.sourceTaskId.value, user, true);
    if source.None? || source.value.kind != Animate || source.value.phase != Some(Rig) || b.rigOnly then None else source
  }

  function AfterRigLookup(w: World, now: int, b: Body): World {
    if WantsRigSource(b) then w.(registry := AfterLookup(w.registry, now, b.sourceTaskId.value)) else w
  }

  /** Registers the task of a tripo request. */
  function Accept(w: World, id: TaskId, e: TaskEntry, b: Body): World {
    Register(w, id, e).(requested := w.requested[id := b])
  }

  /** The entry of a task that starts without the shortcut. */
  function FirstEntry(user: Wallet, now: int, b: Body, providerTaskId: string): TaskEntry {
    var e := NewEntry(user, now, providerTaskId);
    if b.hasSource && b.rigCheck then e.(kind := Animate, phase := Some(RigCheck), checkOnly := true)
    else if b.hasSource && b.animate then
      e.(kind := Animate, phase := Some(RigCheck), animations := b.animations,
         rigOnly := b.rigOnly, animateInPlace := b.animateInPlace, rigModel := ChosenModel(b))
    else e
  }

  /** The branch of a request for which the shortcut does not apply: a follow-up on a source, or a fresh model. */
  function PostChain(w: World, now: int, user: Wallet, b: Body, upload: Answer<string>, call: Answer<string>, id: TaskId): (World, Response) {
    if b.hasSource && upload.Threw? then (w, Errored)
    else if call.Threw? then (w, Errored)
    else (Accept(w, id, FirstEntry(user, now, b, call.value), b), Accepted(id))
  }

  /** The retarget-only shortcut onto a finished rig. */
  function PostShortcut(w: World, now: int, user: Wallet, b: Body, call: Answer<string>, id: TaskId, source: TaskEntry): (World, Response)
    requires b.sourceTaskId.Some?
  {
    if call.Threw? then (w, Errored) else
    var e := NewEntry(user, now, call.value).(kind := Animate, phase := Some(Retarget), animations := b.animations);
    var s := RetargetStarted(id, b.sourceTaskId.value, source, b.animations, b.animateInPlace);
    (Accept(w, id, e, b).(started := w.started + [s]), Accepted(id))
  }

  /**
   * A POST for the tripo provider. `upload` is the source upload, `call` the one provider call the
   * chosen branch makes, `id` the fresh public id.
   */
  function Post(w: World, now: int, user: Wallet, b: Body, upload: Answer<string>, call: Answer<string>, id: TaskId): (World, Response) {
    if !b.hasSource then PostChain(w, now, user, b, upload, call, id) else
    var source := FindRigSource(w, now, user, b);
    var w1 := AfterRigLookup(w, now, b);
    if source.Some? then PostShortcut(w1, now, user, b, call, id, source.value)
    else PostChain(w1, now, user, b, upload, call, id)
  }

  // ---------------------------------------------------------------------------------------
  // Polls
  // ---------------------------------------------------------------------------------------

  /** An error during a poll: auth and credit failures end the task. */
  function PollError(w: World, id: TaskId, authOrCredit: bool): (World, Response) {
    (if authOrCredit then w.(registry := Evict(w.registry, id)) else w, Errored)
  }

  /** The reported skeleton; a biped when none is reported. */
  function RigTypeOf(report: RigReport): (t: string)
    ensures t != "" && if report.rigType.None? || report.rigType == Some("") then t == "biped" else report.rigType == Some(t)
  {
    if report.rigType.Some? && report.rigType.value != "" then report.rigType.value else "biped"
  }

  function FromRigCheck(w: World, id: TaskId, user: Wallet, e: TaskEntry, report: RigReport, rig: Answer<(string, string)>): (World, Response) {
    var evicted := w.(registry := Evict(w.registry, id));
    if e.checkOnly then (evicted, Probe(report.riggable))
    else if !report.riggable then (evicted, NotRiggable)
    else if !e.rigOnly && !AllFit(e.animations, RigTypeOf(report), e.rigModel) then (evicted, PresetMismatch)
    else
      match rig
      case Threw(authOrCredit) => PollError(w, id, authOrCredit)
      case Got((taskId, model)) =>
        (w.(registry := Update(w.registry, id, user, Patch(taskId, Rig, Some(model))),
            started := w.started + [RigStarted(id, e, RigTypeOf(report))]), Advanced(Rig))
  }

  function FromRig(w: World, id: TaskId, user: Wallet, e: TaskEntry, retarget: Answer<string>): (World, Response) {
    match retarget
    case Threw(authOrCredit) => PollError(w, id, authOrCredit)
    case Got(taskId) =>
      (w.(registry := Update(w.registry, id, user, Patch(taskId, Retarget, None)),
          started := w.started + [RetargetStarted(id, id, e, e.animations, e.animateInPlace)]), Advanced(Retarget))
  }

  predicate ChainTerminal(e: TaskEntry) {
    e.phase == Some(Retarget) || (e.rigOnly && e.phase == Some(Rig))
  }

  function PollSucceeded(w: World, now: int, id: TaskId, user: Wallet, e: TaskEntry, s: PollStatus, a: PollAnswers): (World, Response)
    requires s.Succeeded?
  {
    if e.kind == Animate && !ChainTerminal(e) then
      if e.phase == Some(RigCheck) then FromRigCheck(w, id, user, e, s.report, a.rig)
      else FromRig(w, id, user, e, a.retarget)
    else if s.cadDesign then (w.(registry := Complete(w.registry, now, id, user)), Finished)
    else if !s.hasModel then PollError(w, id, false)
    else if a.download.Threw? then PollError(w, id, a.download.authOrCredit)
    else (w.(registry := Complete(w.registry, now, id, user)), Finished)
  }

  /** What the provider's status leads to. */
  function Responded(w: World, now: int, id: TaskId, user: Wallet, e: TaskEntry, s: PollStatus, a: PollAnswers): (World, Response) {
    match s
    case InFlight => (w, Progress)
    case FailedOrCancelled => (w.(registry := Evict(w.registry, id)), TaskFailed)
    case Succeeded(_, _, _) => PollSucceeded(w, now, id, user, e, s, a)
  }

  /** Asks the provider of a task about it. */
  function Asked(w: World, now: int, id: TaskId, user: Wallet, e: TaskEntry, a: PollAnswers): (World, Response) {
    if e.provider == Cad && !a.available then (w, NotConfigured)
    else
      match a.status
      case Threw(authOrCredit) => PollError(w, id, authOrCredit)
      case Got(status) => Responded(w, now, id, user, e, status, a)
  }

  /** A GET of a task by a wallet. */
  function Poll(w: World, now: int, id: TaskId, user: Wallet, a: PollAnswers): (World, Response) {
    var found := Find(w.registry, now, id, user, false);
    var w1 := w.(registry := AfterLookup(w.registry, now, id));
    if found.None? then (w1, NotFound) else Asked(w1, now, id, user, found.value, a)
  }

  // ---------------------------------------------------------------------------------------
  // Runs
  // ---------------------------------------------------------------------------------------

  datatype Op =
    | DoPost(user: Wallet, body: Body, upload: Answer<string>, call: Answer<string>, id: TaskId)
    | DoPostCad(user: Wallet, providerTaskId: string, id: TaskId)
    | DoPoll(user: Wallet, id: TaskId, answers: PollAnswers)
    | DoDelete(user: Wallet, id: TaskId)
    | DoSweep

  /** Ids are random and never repeat: a request whose id was used before does not happen. */
  function Step(w: World, now: int, op: Op): World {
    match op
    case DoPost(user, body, upload, call, id) => if id in w.registered then w else Post(w, now, user, body, upload, call, id).0
    case DoPostCad(user, providerTaskId, id) =>
      if id in w.registered then w else Register(w, id, NewEntry(user, now, providerTaskId).(provider := Cad))
    case DoPoll(user, id, answers) => Poll(w, now, id, user, answers).0
    case DoDelete(user, id) =>
      var w1 := w.(registry := AfterLookup(w.registry, now, id));
      if Find(w.registry, now, id, user, false).Some? then w1.(registry := Evict(w1.registry, id)) else w1
    case DoSweep => w.(registry := Swept(w.registry, now))
  }

  /** A run is any sequence of operations at any times. */
  function Run(ops: seq<(int, Op)>): World {
    if ops == [] then EMPTY else
    Step(Run(ops[..|ops| - 1]), ops[|ops| - 1].0, ops[|ops| - 1].1)
  }

  // ---------------------------------------------------------------------------------------
  // The invariant
  // ---------------------------------------------------------------------------------------

  /** The fields that registration fixes; and before its rig an entry is still the first one. */
  ghost predicate SameTask(e: TaskEntry, first: TaskEntry) {
    && e.owner == first.owner && e.kind == first.kind && e.provider == first.provider
    && e.rigOnly == first.rigOnly && e.checkOnly == first.checkOnly && e.animations == first.animations
    && e.animateInPlace == first.animateInPlace
    && (e.phase == Some(RigCheck) ==> e == first)
    && (e.phase == Some(Rig) ==> first.phase == Some(RigCheck))
  }

  /** A request to animate a source with the rig of an earlier task, without a rig model of its own. */
  predicate AsksToRetarget(b: Body) {
    && b.hasSource && b.animate && !b.rigOnly
    && b.sourceTaskId.Some? && b.sourceTaskId != Some("") && (b.rigModel.None? || b.rigModel == Some(""))
  }

  /** A request that asks for the whole chain or for a rig alone. */
  predicate WantsChain(b: Body) {
    b.hasSource && b.animate && !b.rigCheck
  }

  /** The first entry of a tripo task, as its request asked for it. */
  ghost predicate AsRequested(e: TaskEntry, b: Body) {
    && e.provider == Tripo && !e.complete
    && if e.phase == Some(Retarget) then
         // The shortcut: nothing but a retarget onto the rig the request names.
         && AsksToRetarget(b)
         && e.kind == Animate && !e.checkOnly && !e.rigOnly && e.animations == b.animations
       else
         && (e.kind == Animate <==> b.hasSource && (b.rigCheck || b.animate))
         && e.phase == (if e.kind == Animate then Some(RigCheck) else None)
         && (e.checkOnly <==> b.hasSource && b.rigCheck)
         && (if WantsChain(b) then
               && e.rigOnly == b.rigOnly && e.animations == b.animations
               && e.animateInPlace == b.animateInPlace && e.rigModel == ChosenModel(b)
             else !e.rigOnly && e.animations == [])
  }

  /** What an entry's phase says about it and about the paid calls made for it. */
  ghost predicate EntryOk(id: TaskId, e: TaskEntry, started: seq<Started>) {
    && (e.kind == Animate <==> e.phase.Some?)
    && (e.complete && e.kind == Animate ==> ChainTerminal(e))
    && (e.kind == Animate && e.phase == Some(RigCheck) ==> !HasRig(started, id) && !HasRetarget(started, id))
    && (e.kind == Animate && e.phase == Some(Rig) ==> HasRig(started, id) && !HasRetarget(started, id) && !e.checkOnly)
    && (e.kind == Generate ==> !HasRig(started, id) && !HasRetarget(started, id))
  }

  ghost predicate HasRig(started: seq<Started>, id: TaskId) {
    exists i :: 0 <= i < |started| && started[i].RigStarted? && started[i].id == id
  }

  ghost predicate HasRetarget(started: seq<Started>, id: TaskId) {
    exists i :: 0 <= i < |started| && started[i].RetargetStarted? && started[i].id == id
  }

  /** A rig call was made for a task that wants one, with presets that fit the reported skeleton; a retarget for what was asked. */
  ghost predicate CallOk(s: Started, registered: Registry, requested: map<TaskId, Body>) {
    && s.id in registered && registered[s.id].kind == Animate
    && match s
       case RigStarted(id, e, rigType) =>
         && e == registered[id] && e.phase == Some(RigCheck) && !e.checkOnly
         && (!e.rigOnly ==> AllFit(e.animations, rigType, e.rigModel))
       case RetargetStarted(id, rig, source, animations, inPlace) =>
         && !registered[id].rigOnly && !registered[id].checkOnly && registered[id].owner == source.owner
         && source.kind == Animate && source.phase == Some(Rig)
         && rig in registered && SameTask(source, registered[rig])
         && animations == registered[id].animations
         && (if rig == id then registered[id].phase == Some(RigCheck) && inPlace == registered[id].animateInPlace
             else source.complete && source.rigOnly && ShortcutRequested(requested, id, rig, inPlace) && registered[id].phase == Some(Retarget))
  }

  /** The request of the task asked for a retarget onto this rig. */
  predicate ShortcutRequested(requested: map<TaskId, Body>, id: TaskId, rig: TaskId, inPlace: bool) {
    id in requested && requested[id].sourceTaskId == Some(rig) && requested[id].animateInPlace == inPlace
  }

  ghost predicate OnceEach(started: seq<Started>) {
    forall i, j :: 0 <= i < j < |started| && started[i].id == started[j].id ==>
                   started[i].RigStarted? && started[j].RetargetStarted?
  }

  /** Every retarget works on a rig that was started before. */
  ghost predicate RigsFirst(started: seq<Started>) {
    forall i :: 0 <= i < |started| && started[i].RetargetStarted? ==> HasRig(started[..i], started[i].rig)
  }

  ghost predicate EntriesOk(registry: Registry, registered: Registry, started: seq<Started>) {
    && (forall id :: id in registry ==> id in registered && SameTask(registry[id], registered[id]))
    && (forall id :: id in registry ==> EntryOk(id, registry[id], started))
  }

  ghost predicate RequestsOk(registered: Registry, requested: map<TaskId, Body>) {
    && (forall id :: id in requested ==> id in registered && AsRequested(registered[id], requested[id]))
    && (forall id :: id in registered && registered[id].kind == Animate ==> id in requested)
  }

  ghost predicate CallsOk(started: seq<Started>, registered: Registry, requested: map<TaskId, Body>) {
    && (forall s :: s in started ==> CallOk(s, registered, requested))
    && OnceEach(started) && RigsFirst(started)
  }

  ghost predicate Inv(w: World) {
    && EntriesOk(w.registry, w.registered, w.started)
    && RequestsOk(w.registered, w.requested)
    && CallsOk(w.started, w.registered, w.requested)
  }

  /** Dropping entries keeps the invariant. */
  lemma DroppingKeepsInv(w: World, r: Registry)
    requires Inv(w) && forall id :: id in r ==> id in w.registry && r[id] == w.registry[id]
    ensures Inv(w.(registry := r))
  {
  }

  lemma NewIdHasNoCalls(w: World, id: TaskId)
    requires Inv(w) && id !in w.registered
    ensures !HasRig(w.started, id) && !HasRetarget(w.started, id)
  {
    forall i | 0 <= i < |w.started| ensures w.started[i].id != id {
      assert w.started[i] in w.started;
    }
  }

  lemma NewEntryIsOk(w: World, id: TaskId, e: TaskEntry)
    requires EntriesOk(w.registry, w.registered, w.started) && id !in w.registered && !HasRig(w.started, id) && !HasRetarget(w.started, id)
    requires !e.complete && e.phase != Some(Rig) && (e.kind == Animate <==> e.phase.Some?)
    ensures EntriesOk(w.registry[id := e], w.registered[id := e], w.started)
  {
  }

  lemma OldCallsStayOk(started: seq<Started>, registered: Registry, requested: map<TaskId, Body>,
                       registered': Registry, requested': map<TaskId, Body>)
    requires CallsOk(started, registered, requested)
    requires forall id :: id in registered ==> id in registered' && registered'[id] == registered[id]
    requires forall id :: id in requested ==> id in requested' && requested'[id] == requested[id]
    ensures CallsOk(started, registered', requested')
  {
    forall s | s in started ensures CallOk(s, registered', requested') {
      assert CallOk(s, registered, requested);
    }
  }

  lemma RegisteringKeepsInv(w: World, id: TaskId, e: TaskEntry)
    requires Inv(w) && id !in w.registered && !e.complete && e.kind == Generate && e.phase.None?
    ensures Inv(Register(w, id, e))
  {
    NewIdHasNoCalls(w, id);
    NewEntryIsOk(w, id, e);
    OldCallsStayOk(w.started, w.registered, w.requested, w.registered[id := e], w.requested);
  }

  /** Registering what a request asked for keeps the invariant. */
  lemma AcceptingKeepsInv(w: World, id: TaskId, e: TaskEntry, b: Body)
    requires Inv(w) && id !in w.registered && AsRequested(e, b)
    ensures Inv(Accept(w, id, e, b))
  {
    NewIdHasNoCalls(w, id);
    NewEntryIsOk(w, id, e);
    OldCallsStayOk(w.started, w.registered, w.requested, w.registered[id := e], w.requested[id := b]);
  }

  /** A new call is accounted for when its task had none of that kind, nor a retarget before a rig. */
  lemma AddedCallIsOnce(started: seq<Started>, s: Started)
    requires OnceEach(started) && !HasRetarget(started, s.id) && (s.RigStarted? ==> !HasRig(started, s.id))
    requires RigsFirst(started) && (s.RetargetStarted? ==> HasRig(started, s.rig))
    ensures OnceEach(started + [s]) && RigsFirst(started + [s])
    ensures forall id :: HasRig(started + [s], id) <==> HasRig(started, id) || (s.RigStarted? && s.id == id)
    ensures forall id :: HasRetarget(started + [s], id) <==> HasRetarget(started, id) || (s.RetargetStarted? && s.id == id)
  {
    var all := started + [s];
    assert all[|started|] == s;
    forall i | 0 <= i < |all| && all[i].RetargetStarted? ensures HasRig(all[..i], all[i].rig) {
      assert all[..i] == started[..i];
      assert started[..|started|] == started;
    }
    forall id ensures HasRig(all, id) <==> HasRig(started, id) || (s.RigStarted? && s.id == id) {
      if HasRig(started, id) {
        var i :| 0 <= i < |started| && started[i].RigStarted? && started[i].id == id;
        assert all[i] == started[i];
      }
    }
    forall id ensures HasRetarget(all, id) <==> HasRetarget(started, id) || (s.RetargetStarted? && s.id == id) {
      if HasRetarget(started, id) {
        var i :| 0 <= i < |started| && started[i].RetargetStarted? && started[i].id == id;
        assert all[i] == started[i];
      }
    }
  }

  /** Replacing one entry and adding one call for the same task. */
  lemma CallKeepsInv(w: World, id: TaskId, e: TaskEntry, s: Started)
    requires Inv(w) && s.id == id && CallOk(s, w.registered, w.requested)
    requires id in w.registered && SameTask(e, w.registered[id])
    requires !HasRetarget(w.started, id) && (s.RigStarted? ==> !HasRig(w.started, id))
    requires s.RetargetStarted? ==> HasRig(w.started, s.rig)
    requires EntryOk(id, e, w.started + [s])
    ensures Inv(w.(registry := w.registry[id := e], started := w.started + [s]))
  {
    AddedCallIsOnce(w.started, s);
  }

  lemma ShortcutKeepsInv(w: World, now: int, user: Wallet, b: Body, call: Answer<string>, id: TaskId, source: TaskEntry)
    requires Inv(w) && id !in w.registered
    requires b.hasSource && FindRigSource(w, now, user, b) == Some(source)
    ensures Inv(PostShortcut(AfterRigLookup(w, now, b), now, user, b, call, id, source).0)
  {
    var w1 := AfterRigLookup(w, now, b);
    DroppingKeepsInv(w, w1.registry);
    if call.Got? {
      var e := NewEntry(user, now, call.value).(kind := Animate, phase := Some(Retarget), animations := b.animations);
      var rig := b.sourceTaskId.value;
      AcceptingKeepsInv(w1, id, e, b);
      NewIdHasNoCalls(w1, id);
      assert EntryOk(rig, source, w.started);
      CallKeepsInv(Accept(w1, id, e, b), id, e, RetargetStarted(id, rig, source, b.animations, b.animateInPlace));
    }
  }

  lemma PostKeepsInv(w: World, now: int, user: Wallet, b: Body, upload: Answer<string>, call: Answer<string>, id: TaskId)
    requires Inv(w) && id !in w.registered
    ensures Inv(Post(w, now, user, b, upload, call, id).0)
  {
    if b.hasSource && FindRigSource(w, now, user, b).Some? {
      ShortcutKeepsInv(w, now, user, b, call, id, FindRigSource(w, now, user, b).value);
    } else {
      var w1 := if b.hasSource then AfterRigLookup(w, now, b) else w;
      DroppingKeepsInv(w, w1.registry);
      if call.Got? {
        AcceptingKeepsInv(w1, id, FirstEntry(user, now, b, call.value), b);
      }
    }
  }

  lemma FromRigCheckKeepsInv(w: World, id: TaskId, user: Wallet, e: TaskEntry, report: RigReport, rig: Answer<(string, string)>)
    requires Inv(w) && id in w.registry && w.registry[id] == e && e.owner == user && !e.complete
    requires e.kind == Animate && e.phase == Some(RigCheck)
    ensures Inv(FromRigCheck(w, id, user, e, report, rig).0)
  {
    DroppingKeepsInv(w, Evict(w.registry, id));
    var w' := FromRigCheck(w, id, user, e, report, rig).0;
    if w'.started != w.started {
      var s := RigStarted(id, e, RigTypeOf(report));
      var e' := Patched(e, Patch(rig.value.0, Rig, Some(rig.value.1)));
      AddedCallIsOnce(w.started, s);
      CallKeepsInv(w, id, e', s);
    }
  }

  lemma FromRigKeepsInv(w: World, id: TaskId, user: Wallet, e: TaskEntry, retarget: Answer<string>)
    requires Inv(w) && id in w.registry && w.registry[id] == e && e.owner == user && !e.complete
    requires e.kind == Animate && e.phase == Some(Rig) && !e.rigOnly
    ensures Inv(FromRig(w, id, user, e, retarget).0)
  {
    DroppingKeepsInv(w, Evict(w.registry, id));
    if retarget.Got? {
      var s := RetargetStarted(id, id, e, e.animations, e.animateInPlace);
      AddedCallIsOnce(w.started, s);
      CallKeepsInv(w, id, Patched(e, Patch(retarget.value, Retarget, None)), s);
    }
  }

  lemma CompletingKeepsInv(w: World, now: int, id: TaskId, user: Wallet)
    requires Inv(w) && id in w.registry && (w.registry[id].kind == Animate ==> ChainTerminal(w.registry[id]))
    ensures Inv(w.(registry := Complete(w.registry, now, id, user)))
  {
    assert EntryOk(id, w.registry[id], w.started);
  }

  lemma SuccessKeepsInv(w: World, now: int, id: TaskId, user: Wallet, e: TaskEntry, s: PollStatus, a: PollAnswers)
    requires Inv(w) && s.Succeeded?
    requires id in w.registry && w.registry[id] == e && e.owner == user && !e.complete
    ensures Inv(PollSucceeded(w, now, id, user, e, s, a).0)
  {
    assert EntryOk(id, e, w.started);
    if e.kind == Animate && !ChainTerminal(e) {
      if e.phase == Some(RigCheck) {
        FromRigCheckKeepsInv(w, id, user, e, s.report, a.rig);
      } else {
        assert e.phase == Some(e.phase.value) && e.phase.value == Rig;
        FromRigKeepsInv(w, id, user, e, a.retarget);
      }
    } else {
      DroppingKeepsInv(w, Evict(w.registry, id));
      CompletingKeepsInv(w, now, id, user);
    }
  }

  lemma PollKeepsInv(w: World, now: int, id: TaskId, user: Wallet, a: PollAnswers)
    requires Inv(w)
    ensures Inv(Poll(w, now, id, user, a).0)
  {
    var found := Find(w.registry, now, id, user, false);
    var w1 := w.(registry := AfterLookup(w.registry, now, id));
    DroppingKeepsInv(w, w1.registry);
    DroppingKeepsInv(w1, Evict(w1.registry, id));
    if found.Some? && a.status.Got? && a.status.value.Succeeded? {
      SuccessKeepsInv(w1, now, id, user, found.value, a.status.value, a);
    }
  }

  lemma StepKeepsInv(w: World, now: int, op: Op)
    requires Inv(w)
    ensures Inv(Step(w, now, op))
  {
    match op
    case DoPost(user, body, upload, call, id) =>
      if id !in w.registered {
        PostKeepsInv(w, now, user, body, upload, call, id);
      }
    case DoPostCad(user, providerTaskId, id) =>
      if id !in w.registered {
        RegisteringKeepsInv(w, id, NewEntry(user, now, providerTaskId).(provider := Cad));
      }
    case DoPoll(user, id, answers) => PollKeepsInv(w, now, id, user, answers);
    case DoDelete(user, id) =>
      DroppingKeepsInv(w, AfterLookup(w.registry, now, id));
      DroppingKeepsInv(w, Evict(AfterLookup(w.registry, now, id), id));
    case DoSweep => DroppingKeepsInv(w, Swept(w.registry, now));
  }

  lemma {:induction false} EveryRunKeepsInv(ops: seq<(int, Op)>)
    ensures Inv(Run(ops))
  {
    if ops != [] {
      EveryRunKeepsInv(ops[..|ops| - 1]);
      StepKeepsInv(Run(ops[..|ops| - 1]), ops[|ops| - 1].0, ops[|ops| - 1].1);
    }
  }

  // ---------------------------------------------------------------------------------------
  // What every run guarantees
  // ---------------------------------------------------------------------------------------

  /** Some run ends in this world. */
  ghost predicate Reached(w: World) {
    exists ops :: w == Run(ops)
  }

  lemma ReachedKeepsInv(w: World)
    requires Reached(w)
    ensures Inv(w)
  {
    var ops :| w == Run(ops);
    EveryRunKeepsInv(ops);
  }

  /** In every reachable world a task's rig was started at most once, its retarget at most once, and the rig first. */
  lemma PaidStepsStartOnce(w: World, i: nat, j: nat)
    requires Reached(w) && i < j < |w.started| && w.started[i].id == w.started[j].id
    ensures w.started[i].RigStarted? && w.started[j].RetargetStarted?
  {
    ReachedKeepsInv(w);
  }

  /**
   * Every retarget in a reachable world follows the rig it works on: the task's own, or that of a
   * completed rig-only task of the same wallet.
   */
  lemma RetargetFollowsRig(w: World, i: nat) returns (j: nat)
    requires Reached(w) && i < |w.started| && w.started[i].RetargetStarted?
    ensures
      var s := w.started[i];
      && j < i && w.started[j].RigStarted? && w.started[j].id == s.rig && s.id in w.registered && s.rig in w.registered
      && (s.rig == s.id || (s.source.complete && w.registered[s.rig].rigOnly && w.registered[s.rig].owner == w.registered[s.id].owner))
  {
    ReachedKeepsInv(w);
    assert CallOk(w.started[i], w.registered, w.requested);
    assert HasRig(w.started[..i], w.started[i].rig);
    j :| 0 <= j < i && w.started[..i][j].RigStarted? && w.started[..i][j].id == w.started[i].rig;
  }

  /** A check-only task starts no paid step; a rig-only task never starts a retarget. */
  lemma RestrictedTasksStayRestricted(w: World, s: Started)
    requires Reached(w) && s in w.started
    ensures s.id in w.registered && !w.registered[s.id].checkOnly
    ensures s.RetargetStarted? ==> !w.registered[s.id].rigOnly
  {
    ReachedKeepsInv(w);
    assert CallOk(s, w.registered, w.requested);
  }

  /** Unless a task is rig-only, its rig starts only when every requested preset fits the reported skeleton. */
  lemma RigStartsOnlyWithFittingPresets(w: World, s: Started)
    requires Reached(w) && s in w.started && s.RigStarted?
    ensures s.id in w.registered && s.entry.animations == w.registered[s.id].animations
    ensures !w.registered[s.id].rigOnly ==> AllFit(w.registered[s.id].animations, s.rigType, s.entry.rigModel)
  {
    ReachedKeepsInv(w);
    assert CallOk(s, w.registered, w.requested);
  }

  /**
   * Paid steps follow the request. A rig is started only for a source request to animate that is no
   * rig check, with the rig model it chose and, unless it asked for a rig alone, with its own presets
   * fitting the reported skeleton; a retarget never for a rig-only request, and with the presets and
   * the placement it asked for, onto the task's own rig or the one the request names.
   */
  lemma PaidStepsFollowRequest(w: World, s: Started)
    requires Reached(w) && s in w.started
    ensures s.id in w.requested
    ensures
      var b := w.requested[s.id];
      && b.hasSource && b.animate
      && (b.rigCheck ==> s.RetargetStarted? && s.rig != s.id)
      && match s
         case RigStarted(_, e, rigType) =>
           && e.rigOnly == b.rigOnly && e.rigModel == ChosenModel(b)
           && (!b.rigOnly ==> AllFit(b.animations, rigType, ChosenModel(b)))
         case RetargetStarted(id, rig, _, animations, inPlace) =>
           && !b.rigOnly && animations == b.animations && inPlace == b.animateInPlace
           && (rig == id || (AsksToRetarget(b) && b.sourceTaskId == Some(rig)))
  {
    ReachedKeepsInv(w);
    assert CallOk(s, w.registered, w.requested);
    assert AsRequested(w.registered[s.id], w.requested[s.id]);
  }

  /** A request with a single action, as the request schema demands, that asks for a rig check costs nothing, ever. */
  lemma RigCheckIsFree(w: World, id: TaskId, s: Started)
    requires Reached(w) && id in w.requested && w.requested[id].rigCheck && !w.requested[id].animate
    requires s in w.started
    ensures s.id != id
  {
    PaidStepsFollowRequest(w, s);
  }

  /** Every completed animate entry stands at retarget, or at rig when it was rig-only. */
  lemma CompletedAnimateIsTerminal(w: World, id: TaskId)
    requires Reached(w) && id in w.registry && w.registry[id].complete && w.registry[id].kind == Animate
    ensures w.registry[id].phase == Some(Retarget) || (w.registry[id].rigOnly && w.registry[id].phase == Some(Rig))
  {
    ReachedKeepsInv(w);
    assert EntryOk(id, w.registry[id], w.started);
  }

  /** So the shortcut only ever uses a finished rig-only task of the same wallet. */
  lemma ShortcutUsesFinishedRig(w: World, now: int, user: Wallet, b: Body)
    requires Reached(w) && FindRigSource(w, now, user, b).Some?
    ensures
      var source := FindRigSource(w, now, user, b).value;
      && source.complete && source.rigOnly && source.phase == Some(Rig) && source.owner == user
      && !HasRetarget(w.started, b.sourceTaskId.value)
  {
    ReachedKeepsInv(w);
    var id := b.sourceTaskId.value;
    assert EntryOk(id, w.registry[id], w.started);
  }

  function Rank(p: Option<Phase>): nat {
    match p
    case None => 0
    case Some(RigCheck) => 1
    case Some(Rig) => 2
    case Some(Retarget) => 3
  }

  /** From one registry to the next, a task that is still there is where it was or one phase on. */
  ghost predicate MovesForward(r: Registry, r': Registry, id: TaskId, byOwner: bool)
    requires id in r
  {
    id in r' ==>
      && Rank(r[id].phase) <= Rank(r'[id].phase) <= Rank(r[id].phase) + 1
      && (Rank(r'[id].phase) != Rank(r[id].phase) ==> byOwner)
  }

  lemma SuccessMovesForward(w: World, now: int, id: TaskId, e: TaskEntry, s: PollStatus, a: PollAnswers)
    requires s.Succeeded? && id in w.registry && w.registry[id] == e && (e.kind == Animate <==> e.phase.Some?)
    ensures MovesForward(w.registry, PollSucceeded(w, now, id, e.owner, e, s, a).0.registry, id, true)
  {
    assert e.kind == Animate && !ChainTerminal(e) && e.phase != Some(RigCheck) ==> e.phase.value == Rig;
  }

  lemma PollMovesForward(w: World, now: int, id: TaskId, user: Wallet, a: PollAnswers)
    requires id in w.registry && (w.registry[id].kind == Animate <==> w.registry[id].phase.Some?)
    ensures MovesForward(w.registry, Poll(w, now, id, user, a).0.registry, id, user == w.registry[id].owner)
  {
    if Find(w.registry, now, id, user, false).Some? && a.status.Got? && a.status.value.Succeeded? {
      SuccessMovesForward(w, now, id, w.registry[id], a.status.value, a);
    }
  }

  lemma PostKeepsEntry(w: World, now: int, user: Wallet, b: Body, upload: Answer<string>, call: Answer<string>, added: TaskId, id: TaskId)
    requires id in w.registry && id != added
    ensures MovesForward(w.registry, Post(w, now, user, b, upload, call, added).0.registry, id, false)
  {
  }

  /** From every reachable world a step moves a task's phase forward by at most one, and only a poll by its owner moves it. */
  lemma PhasesOnlyMoveForward(w: World, now: int, op: Op, id: TaskId)
    requires Reached(w) && id in w.registry
    ensures MovesForward(w.registry, Step(w, now, op).registry, id, op.DoPoll? && op.id == id && op.user == w.registry[id].owner)
  {
    ReachedKeepsInv(w);
    assert EntryOk(id, w.registry[id], w.started);
    match op
    case DoPoll(user, target, answers) =>
      if target == id {
        PollMovesForward(w, now, id, user, answers);
      } else {
        PollTouchesOneTask(w, now, target, user, answers, id);
      }
    case DoPost(user, body, upload, call, added) =>
      if added !in w.registered {
        PostKeepsEntry(w, now, user, body, upload, call, added, id);
      }
    case _ =>
  }

  /**
   * A poll by another wallet leaves a task's entry as it was exactly when the entry has not expired;
   * an expired one is dropped, whoever asks.
   */
  lemma OthersPollKeepsEntryIff(w: World, now: int, id: TaskId, user: Wallet, a: PollAnswers)
    requires id in w.registry && w.registry[id].owner != user
    ensures
      var r := Poll(w, now, id, user, a).0;
      && r.started == w.started && r.registered == w.registered && r.requested == w.requested
      && ((id in r.registry && r.registry[id] == w.registry[id]) <==> !Expired(w.registry[id], now))
  {
  }

  /** A poll of one task never changes another task. */
  lemma PollTouchesOneTask(w: World, now: int, id: TaskId, user: Wallet, a: PollAnswers, other: TaskId)
    requires other != id && other in w.registry
    ensures other in Poll(w, now, id, user, a).0.registry && Poll(w, now, id, user, a).0.registry[other] == w.registry[other]
  {
  }

  // ---------------------------------------------------------------------------------------
  // What one request or poll may do
  // ---------------------------------------------------------------------------------------

  /** No task but `id` is touched, and none is added. */
  ghost predicate OnlyTouches(r: Registry, r': Registry, id: TaskId) {
    && (id in r' ==> id in r)
    && forall other :: other != id ==> (other in r' <==> other in r) && (other in r ==> r'[other] == r[other])
  }

  /** At most one paid call is made: by the owner of `id`, for it, in order, and only when the task wants it. */
  ghost predicate StartsAtMostOne(w: World, started': seq<Started>, id: TaskId, user: Wallet) {
    started' == w.started ||
    (&& |started'| == |w.started| + 1 && started'[..|w.started|] == w.started
     && var s := started'[|w.started|];
        && s.id == id && id in w.registry && w.registry[id].owner == user && !w.registry[id].complete
        && CallOk(s, w.registered, w.requested) && !HasRetarget(w.started, id) && (s.RigStarted? ==> !HasRig(w.started, id)))
  }

  /** What a poll of `id` by `user` may change. */
  ghost predicate PollEffect(w: World, w': World, id: TaskId, user: Wallet) {
    && w'.registered == w.registered && w'.requested == w.requested
    && OnlyTouches(w.registry, w'.registry, id)
    && StartsAtMostOne(w, w'.started, id, user)
    && (id in w.registry ==> MovesForward(w.registry, w'.registry, id, user == w.registry[id].owner))
  }

  /** The entry that a wallet's poll works on. */
  predicate Running(r: Registry, id: TaskId, user: Wallet, e: TaskEntry) {
    id in r && r[id] == e && e.owner == user && !e.complete
  }

  lemma PollErrorHasEffect(w: World, id: TaskId, user: Wallet, authOrCredit: bool)
    ensures PollEffect(w, PollError(w, id, authOrCredit).0, id, user)
    ensures Inv(w) ==> Inv(PollError(w, id, authOrCredit).0)
  {
    if Inv(w) {
      DroppingKeepsInv(w, Evict(w.registry, id));
    }
  }

  lemma FromRigCheckHasEffect(w: World, id: TaskId, user: Wallet, e: TaskEntry, report: RigReport, rig: Answer<(string, string)>)
    requires Inv(w) && Running(w.registry, id, user, e) && e.kind == Animate && e.phase == Some(RigCheck)
    ensures PollEffect(w, FromRigCheck(w, id, user, e, report, rig).0, id, user)
  {
    assert EntryOk(id, e, w.started);
  }

  lemma FromRigHasEffect(w: World, id: TaskId, user: Wallet, e: TaskEntry, retarget: Answer<string>)
    requires Inv(w) && Running(w.registry, id, user, e) && e.kind == Animate && e.phase == Some(Rig) && !e.rigOnly
    ensures PollEffect(w, FromRig(w, id, user, e, retarget).0, id, user)
  {
    assert EntryOk(id, e, w.started);
  }

  lemma CompletingHasEffect(w: World, now: int, id: TaskId, user: Wallet, e: TaskEntry)
    requires Running(w.registry, id, user, e)
    ensures PollEffect(w, w.(registry := Complete(w.registry, now, id, user)), id, user)
  {
  }

  lemma SuccessHasEffect(w: World, now: int, id: TaskId, user: Wallet, e: TaskEntry, s: PollStatus, a: PollAnswers)
    requires Inv(w) && s.Succeeded? && Running(w.registry, id, user, e)
    ensures PollEffect(w, PollSucceeded(w, now, id, user, e, s, a).0, id, user)
  {
    assert EntryOk(id, e, w.started);
    if e.kind == Animate && !ChainTerminal(e) {
      if e.phase == Some(RigCheck) {
        FromRigCheckHasEffect(w, id, user, e, s.report, a.rig);
      } else {
        assert e.phase == Some(e.phase.value) && e.phase.value == Rig;
        FromRigHasEffect(w, id, user, e, a.retarget);
      }
    } else {
      CompletingHasEffect(w, now, id, user, e);
      PollErrorHasEffect(w, id, user, false);
      PollErrorHasEffect(w, id, user, true);
    }
  }

  lemma ResponseHasEffect(w: World, now: int, id: TaskId, user: Wallet, e: TaskEntry, s: PollStatus, a: PollAnswers)
    requires Inv(w) && Running(w.registry, id, user, e)
    ensures PollEffect(w, Responded(w, now, id, user, e, s, a).0, id, user)
    ensures Inv(Responded(w, now, id, user, e, s, a).0)
  {
    DroppingKeepsInv(w, Evict(w.registry, id));
    if s.Succeeded? {
      SuccessHasEffect(w, now, id, user, e, s, a);
      SuccessKeepsInv(w, now, id, user, e, s, a);
    }
  }

  /** A poll touches its own task only, moves it forward by at most one phase for its owner, and makes at most one paid call. */
  lemma PollHasEffect(w: World, now: int, id: TaskId, user: Wallet, a: PollAnswers)
    requires Inv(w)
    ensures PollEffect(w, Poll(w, now, id, user, a).0, id, user)
  {
    var found := Find(w.registry, now, id, user, false);
    if found.Some? && a.status.Got? {
      ResponseHasEffect(w, now, id, user, found.value, a.status.value, a);
    }
  }

  /** A finished rig of the caller that has not been retargeted itself. */
  ghost predicate FinishedRig(w: World, now: int, user: Wallet, id: TaskId, source: TaskEntry) {
    && id in w.registry && w.registry[id] == source && !Expired(source, now)
    && source.complete && source.rigOnly && source.kind == Animate && source.phase == Some(Rig) && source.owner == user
    && !HasRetarget(w.started, id)
  }

  lemma FoundRigIsFinished(w: World, now: int, user: Wallet, b: Body)
    requires Inv(w) && FindRigSource(w, now, user, b).Some?
    ensures FinishedRig(w, now, user, b.sourceTaskId.value, FindRigSource(w, now, user, b).value)
  {
    assert EntryOk(b.sourceTaskId.value, w.registry[b.sourceTaskId.value], w.started);
  }

  /** Apart from `id`, tasks stay as they were, except that an expired one may be dropped. */
  ghost predicate OthersStay(r: Registry, r': Registry, now: int, id: TaskId) {
    && (forall other :: other != id && other in r' ==> other in r && r'[other] == r[other])
    && (forall other :: other != id && other in r && other !in r' ==> Expired(r[other], now))
  }

  /** The request names a finished rig of the caller, and asks to retarget it as it is. */
  ghost predicate TakesShortcut(w: World, now: int, user: Wallet, b: Body) {
    AsksToRetarget(b) &&
    exists source :: FinishedRig(w, now, user, b.sourceTaskId.value, source)
  }

  /** The one paid call of the shortcut: a retarget of the finished rig that the request names. */
  ghost predicate RetargetsFinishedRig(w: World, started': seq<Started>, now: int, user: Wallet, b: Body, id: TaskId)
    requires b.sourceTaskId.Some?
  {
    exists source ::
      && FinishedRig(w, now, user, b.sourceTaskId.value, source)
      && started' == w.started + [RetargetStarted(id, b.sourceTaskId.value, source, b.animations, b.animateInPlace)]
  }

  /** What an accepted request by `user` with the new id `id` has changed. */
  ghost predicate AcceptEffect(w: World, w': World, now: int, user: Wallet, b: Body, id: TaskId) {
    && id in w'.registry && w'.registered == w.registered[id := w'.registry[id]] && w'.requested == w.requested[id := b]
    && w'.registry[id].owner == user && w'.registry[id].createdAt == now && AsRequested(w'.registry[id], b)
    && (w'.registry[id].phase == Some(Retarget) <==> TakesShortcut(w, now, user, b))
    && if TakesShortcut(w, now, user, b) then RetargetsFinishedRig(w, w'.started, now, user, b, id)
       else w'.started == w.started
  }

  /** What a request by `user` with the new id `id` may change. */
  ghost predicate PostEffect(w: World, w': World, now: int, user: Wallet, b: Body, id: TaskId, response: Response) {
    && (if response == Accepted(id) then AcceptEffect(w, w', now, user, b, id)
        else response == Errored && id !in w'.registry && w' == w.(registry := w'.registry))
    && OthersStay(w.registry, w'.registry, now, id)
  }

  lemma ShortcutIff(w: World, now: int, user: Wallet, b: Body)
    requires Inv(w) && b.hasSource
    ensures FindRigSource(w, now, user, b).Some? <==> TakesShortcut(w, now, user, b)
    ensures FindRigSource(w, now, user, b).Some? ==> FinishedRig(w, now, user, b.sourceTaskId.value, FindRigSource(w, now, user, b).value)
  {
    if FindRigSource(w, now, user, b).Some? {
      FoundRigIsFinished(w, now, user, b);
    }
  }

  lemma ShortcutHasEffect(w: World, now: int, user: Wallet, b: Body, call: Answer<string>, id: TaskId, source: TaskEntry)
    requires Inv(w) && id !in w.registered && b.hasSource && FindRigSource(w, now, user, b) == Some(source)
    ensures
      var (w', response) := PostShortcut(AfterRigLookup(w, now, b), now, user, b, call, id, source);
      && PostEffect(w, w', now, user, b, id, response)
      && (response == Accepted(id) <==> call.Got?)
  {
    FoundRigIsFinished(w, now, user, b);
  }

  lemma ChainHasEffect(w: World, w1: World, now: int, user: Wallet, b: Body, upload: Answer<string>, call: Answer<string>, id: TaskId)
    requires Inv(w) && id !in w.registered && !TakesShortcut(w, now, user, b)
    requires w1 == w.(registry := w1.registry) && OthersStay(w.registry, w1.registry, now, id) && id !in w1.registry
    ensures
      var (w', response) := PostChain(w1, now, user, b, upload, call, id);
      && PostEffect(w, w', now, user, b, id, response)
      && (response == Accepted(id) <==> call.Got? && (!b.hasSource || upload.Got?))
  {
  }

  /**
   * A request registers its task as it asked, exactly when the calls it needs succeed, and starts
   * nothing paid but, exactly when it names a finished rig of the caller, a retarget of that rig.
   */
  lemma PostHasEffect(w: World, now: int, user: Wallet, b: Body, upload: Answer<string>, call: Answer<string>, id: TaskId)
    requires Inv(w) && id !in w.registered
    ensures
      var (w', response) := Post(w, now, user, b, upload, call, id);
      && PostEffect(w, w', now, user, b, id, response)
      && (response == Accepted(id) <==> call.Got? && (!b.hasSource || upload.Got? || TakesShortcut(w, now, user, b)))
  {
    if b.hasSource {
      ShortcutIff(w, now, user, b);
      var w1 := AfterRigLookup(w, now, b);
      if FindRigSource(w, now, user, b).Some? {
        ShortcutHasEffect(w, now, user, b, call, id, FindRigSource(w, now, user, b).value);
      } else {
        ChainHasEffect(w, w1, now, user, b, upload, call, id);
      }
    } else {
      ChainHasEffect(w, w, now, user, b, upload, call, id);
    }
  }

  // ---------------------------------------------------------------------------------------
  // Presets that do not fit the model really used
  // ---------------------------------------------------------------------------------------

  /** The shortcut never looks at the presets: whatever is requested, it is retargeted onto the finished rig. */
  lemma ShortcutChecksNoPreset(w: World, now: int, user: Wallet, b: Body, upload: Answer<string>, call: string, id: TaskId, presets: seq<string>)
    requires b.hasSource && FindRigSource(w, now, user, b).Some?
    ensures
      var source := FindRigSource(w, now, user, b).value;
      var (w', response) := Post(w, now, user, b.(animations := presets), upload, Got(call), id);
      && response == Accepted(id) && w'.registry[id].animations == presets
      && w'.started == w.started + [RetargetStarted(id, b.sourceTaskId.value, source, presets, b.animateInPlace)]
  {
    assert FindRigSource(w, now, user, b.(animations := presets)) == FindRigSource(w, now, user, b);
  }

  const SUCCEEDED := Got(Succeeded(RigReport(true, Some("biped")), false, true))
  const FALLBACK_RIG := PollAnswers(true, SUCCEEDED, Got(("rig", RIG_MODEL_GENERIC)), Got("retarget"), Got(true))

  function AnimateBody(preset: string): Body {
    Body(true, None, false, true, false, false, None, [preset])
  }

  function AnimateRequest(preset: string): Op {
    DoPost("user", AnimateBody(preset), Got("file"), Got("check"), "task")
  }

  /** An animate request without a rig model, its rig check, and a rig step that falls back to the generic model. */
  function MisfitRun(preset: string): seq<(int, Op)> {
    [(0, AnimateRequest(preset)), (0, DoPoll("user", "task", FALLBACK_RIG)), (0, DoPoll("user", "task", FALLBACK_RIG))]
  }

  function CheckingEntry(preset: string): TaskEntry {
    NewEntry("user", 0, "check").(kind := Animate, phase := Some(RigCheck), animations := [preset])
  }

  function RiggedEntry(preset: string): TaskEntry {
    Patched(CheckingEntry(preset), Patch("rig", Rig, Some(RIG_MODEL_GENERIC)))
  }

  function OnlyTask(e: TaskEntry, preset: string, started: seq<Started>): World {
    World(map["task" := e], map["task" := CheckingEntry(preset)], map["task" := AnimateBody(preset)], started)
  }

  lemma CheckStarts(preset: string)
    ensures Step(EMPTY, 0, AnimateRequest(preset)) == OnlyTask(CheckingEntry(preset), preset, [])
  {
  }

  lemma FittingRigStarts(w: World, id: TaskId, user: Wallet, e: TaskEntry, report: RigReport, rig: (string, string))
    requires Running(w.registry, id, user, e) && !e.checkOnly && report.riggable
    requires AllFit(e.animations, RigTypeOf(report), e.rigModel)
    ensures FromRigCheck(w, id, user, e, report, Got(rig)).0 ==
            w.(registry := w.registry[id := Patched(e, Patch(rig.0, Rig, Some(rig.1)))],
               started := w.started + [RigStarted(id, e, RigTypeOf(report))])
  {
  }

  /** A poll that finds a succeeded rig check goes on from it. */
  lemma PollOfRigCheck(w: World, now: int, id: TaskId, user: Wallet, e: TaskEntry, s: PollStatus, a: PollAnswers)
    requires Running(w.registry, id, user, e) && !Expired(e, now) && e.provider == Tripo
    requires e.kind == Animate && e.phase == Some(RigCheck) && s.Succeeded? && a.status == Got(s)
    ensures Poll(w, now, id, user, a) == FromRigCheck(w, id, user, e, s.report, a.rig)
  {
  }

  lemma RigFallsBack(preset: string)
    requires AllFit([preset], "biped", None)
    ensures Step(OnlyTask(CheckingEntry(preset), preset, []), 0, DoPoll("user", "task", FALLBACK_RIG)) ==
            OnlyTask(RiggedEntry(preset), preset, [RigStarted("task", CheckingEntry(preset), "biped")])
  {
    var e := CheckingEntry(preset);
    var w := OnlyTask(e, preset, []);
    PollOfRigCheck(w, 0, "task", "user", e, SUCCEEDED.value, FALLBACK_RIG);
    FittingRigStarts(w, "task", "user", e, SUCCEEDED.value.report, ("rig", RIG_MODEL_GENERIC));
    assert w.registry["task" := RiggedEntry(preset)] == map["task" := RiggedEntry(preset)];
  }

  lemma RetargetGoesAhead(preset: string, started: seq<Started>)
    ensures Step(OnlyTask(RiggedEntry(preset), preset, started), 0, DoPoll("user", "task", FALLBACK_RIG)).started ==
            started + [RetargetStarted("task", "task", RiggedEntry(preset), [preset], false)]
  {
    var w := OnlyTask(RiggedEntry(preset), preset, started);
    assert AfterLookup(w.registry, 0, "task") == w.registry;
  }

  lemma RunOfThree(a: (int, Op), b: (int, Op), c: (int, Op))
    ensures Run([a, b, c]) == Step(Step(Step(EMPTY, a.0, a.1), b.0, b.1), c.0, c.1)
  {
    assert [a, b, c][..2] == [a, b] && [a, b][..1] == [a] && [a][..0] == [];
    assert Run([a]) == Step(EMPTY, a.0, a.1);
    assert Run([a, b]) == Step(Run([a]), b.0, b.1);
  }

  /** In that run a retarget is started with a preset that passed the check and misfits the model the rig really used. */
  lemma RetargetCanMisfit(preset: string)
    requires AllFit([preset], "biped", None) && !AllFit([preset], "biped", Some(RIG_MODEL_GENERIC))
    ensures MisfitRetargeted(Run(MisfitRun(preset)))
  {
    CheckStarts(preset);
    RigFallsBack(preset);
    RetargetGoesAhead(preset, [RigStarted("task", CheckingEntry(preset), "biped")]);
    RunOfThree((0, AnimateRequest(preset)), (0, DoPoll("user", "task", FALLBACK_RIG)), (0, DoPoll("user", "task", FALLBACK_RIG)));
    var w := Run(MisfitRun(preset));
    assert w.started[1] == RetargetStarted("task", "task", RiggedEntry(preset), [preset], false);
  }

  /** A retarget of a biped was started with presets that do not fit the model it was rigged with. */
  ghost predicate MisfitRetargeted(w: World) {
    && |w.started| == 2 && w.started[1].RetargetStarted?
    && !AllFit(w.started[1].animations, "biped", w.started[1].source.rigModel)
  }

  /** So some reachable world holds such a retarget, for a listed preset. */
  lemma SomeRetargetMisfits()
    ensures exists w :: Reached(w) && MisfitRetargeted(w)
  {
    AutomaticModelCanMisfit();
    var preset :| AllFit([preset], "biped", None) && !AllFit([preset], "biped", Some(RIG_MODEL_GENERIC));
    RetargetCanMisfit(preset);
    assert Reached(Run(MisfitRun(preset)));
  }
}
