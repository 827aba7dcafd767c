/** The handlers behind POST, GET and DELETE of a generation, over the shared task registry. */
module GenerationRoutes {
  import opened Wrappers
  import opened GenerationTasks
  import opened AnimationPresets
  import opened AnimateChain

  class Generations {
    const tasks: TaskRegistry
    ghost var registered: Registry
    ghost var requested: map<TaskId, Body>
    ghost var started: seq<Started>

    ghost function Current(): World
      reads this, tasks
    {
      World(tasks.registry, registered, requested, started)
    }

    /** What every sequence of requests, polls, cancels and sweeps keeps. */
    ghost predicate Valid()
      reads this, tasks
    {
      Inv(Current())
    }

    constructor ()
      ensures fresh(tasks) && Current() == EMPTY && Valid()
    {
      tasks := new TaskRegistry();
      registered, requested, started := map[], map[], [];
    }

    method Add(id: TaskId, entry: TaskEntry, body: Body)
      requires id !in registered && id !in tasks.registry
      modifies this, tasks
      ensures Current() == Accept(old(Current()), id, entry, body)
    {
      tasks.RegisterTask(id, entry);
      registered, requested := registered[id := entry], requested[id := body];
    }

    /** Retarget-only shortcut: a completed rig of the caller, unless another rig model was asked for. */
    method FindRig(now: int, user: Wallet, body: Body) returns (source: Option<TaskEntry>)
      requires Valid()
      modifies this, tasks
      ensures Current() == AfterRigLookup(old(Current()), now, body)
      ensures source == FindRigSource(old(Current()), now, user, body)
      ensures source.Some? ==> body.sourceTaskId.Some? && FinishedRig(old(Current()), now, user, body.sourceTaskId.value, source.value)
      ensures registered == old(registered) && requested == old(requested) && started == old(started) && Valid()
      ensures forall id :: id in old(tasks.registry) && !Expired(old(tasks.registry)[id], now) ==>
                id in tasks.registry && tasks.registry[id] == old(tasks.registry)[id]
    {
      DroppingKeepsInv(Current(), AfterRigLookup(Current(), now, body).registry);
      if FindRigSource(Current(), now, user, body).Some? {
        FoundRigIsFinished(Current(), now, user, body);
      }
      if !WantsRigSource(body) {
        return None;
      }
      source := tasks.GetTaskInStatus(body.sourceTaskId.value, user, true, now);
      if source.None? || source.value.kind != Animate || source.value.phase != Some(Rig) || body.rigOnly {
        return None;
      }
    }

    /** The branch a request takes after the shortcut did not apply. */
    method StartFollowUpOrFresh(now: int, user: Wallet, body: Body, upload: Answer<string>, call: Answer<string>, id: TaskId)
      returns (response: Response)
      requires Valid() && id !in registered
      modifies this, tasks
      ensures (Current(), response) == PostChain(old(Current()), now, user, body, upload, call, id)
      ensures Valid() && (!TakesShortcut(old(Current()), now, user, body) ==> PostEffect(old(Current()), Current(), now, user, body, id, response))
      // The task is registered as it was asked for, and nothing paid is started here.
      ensures response == Accepted(id) <==> id in tasks.registry
      ensures response == Accepted(id) <==> call.Got? && (!body.hasSource || upload.Got?)
      ensures response == Accepted(id) ==> AsRequested(tasks.registry[id], body) && tasks.registry[id].phase != Some(Retarget)
      ensures started == old(started)
    {
      if !TakesShortcut(Current(), now, user, body) {
        ChainHasEffect(Current(), Current(), now, user, body, upload, call, id);
      }
      if body.hasSource && upload.Threw? {
        return Errored;
      }
      if call.Threw? {
        return Errored;
      }
      var entry := NewEntry(user, now, call.value);
      if body.hasSource && body.rigCheck {
        entry := entry.(kind := Animate, phase := Some(RigCheck), checkOnly := true);
      } else if body.hasSource && body.animate {
        entry := entry.(kind := Animate, phase := Some(RigCheck), animations := body.animations,
                        rigOnly := body.rigOnly, animateInPlace := body.animateInPlace, rigModel := ChosenModel(body));
      }
      AcceptingKeepsInv(Current(), id, entry, body);
      Add(id, entry, body);
      return Accepted(id);
    }

    /** The retarget-only shortcut, if there is a finished rig for it; None when it does not apply. */
    method TryRetargetOnly(now: int, user: Wallet, body: Body, call: Answer<string>, id: TaskId) returns (response: Option<Response>)
      requires Valid() && id !in registered && body.hasSource
      modifies this, tasks
      ensures response.Some? <==> TakesShortcut(old(Current()), now, user, body)
      ensures response.Some? ==> forall upload :: (Current(), response.value) == Post(old(Current()), now, user, body, upload, call, id)
      ensures response.None? ==> Current() == AfterRigLookup(old(Current()), now, body) && Valid()
    {
      ShortcutIff(Current(), now, user, body);
      var rig := FindRig(now, user, body);
      if rig.None? {
        return None;
      }
      if call.Threw? {
        return Some(Errored);
      }
      Add(id, NewEntry(user, now, call.value).(kind := Animate, phase := Some(Retarget), animations := body.animations), body);
      started := started + [RetargetStarted(id, body.sourceTaskId.value, rig.value, body.animations, body.animateInPlace)];
      return Some(Accepted(id));
    }

    /**
     * A tripo request. It is accepted exactly when the calls it needs succeed; it takes the shortcut
     * exactly when it names a finished rig of the caller, and registers the task as it was asked for.
     */
    method HandleTripoRequest(now: int, user: Wallet, body: Body, upload: Answer<string>, call: Answer<string>, id: TaskId)
      returns (response: Response)
      requires Valid() && id !in registered
      modifies this, tasks
      ensures (Current(), response) == Post(old(Current()), now, user, body, upload, call, id)
      ensures Valid() && PostEffect(old(Current()), Current(), now, user, body, id, response)
      ensures response == Accepted(id) <==> call.Got? && (!body.hasSource || upload.Got? || TakesShortcut(old(Current()), now, user, body))
    {
      ghost var before := Current();
      PostKeepsInv(before, now, user, body, upload, call, id);
      PostHasEffect(before, now, user, body, upload, call, id);
      if body.hasSource {
        ShortcutIff(before, now, user, body);
        var shortcut := TryRetargetOnly(now, user, body, call, id);
        if shortcut.Some? {
          return shortcut.value;
        }
      }
      response := StartFollowUpOrFresh(now, user, body, upload, call, id);
    }

    method OnPollError(id: TaskId, authOrCredit: bool, ghost user: Wallet) returns (response: Response)
      modifies this, tasks
      ensures (Current(), response) == PollError(old(Current()), id, authOrCredit)
      ensures PollEffect(old(Current()), Current(), id, user)
      ensures started == old(started) && (old(Valid()) ==> Valid())
      // An auth or credit failure ends the task for everyone; any other failure leaves it to the next poll.
      ensures id in tasks.registry <==> id in old(tasks.registry) && !authOrCredit
    {
      PollErrorHasEffect(Current(), id, user, authOrCredit);
      if authOrCredit {
        tasks.EvictTask(id);
      }
      return Errored;
    }

    method AdvanceFromRigCheck(id: TaskId, user: Wallet, entry: TaskEntry, report: RigReport, rig: Answer<(string, string)>)
      returns (response: Response)
      requires Valid() && Running(tasks.registry, id, user, entry) && entry.kind == Animate && entry.phase == Some(RigCheck)
      modifies this, tasks
      ensures (Current(), response) == FromRigCheck(old(Current()), id, user, entry, report, rig)
      ensures Valid() && PollEffect(old(Current()), Current(), id, user)
      // The verdict on the model, and that each but the last ends the task unpaid.
      ensures response.Probe? <==> entry.checkOnly
      ensures response.Probe? ==> response.riggable == report.riggable
      ensures response.NotRiggable? <==> !entry.checkOnly && !report.riggable
      ensures response.PresetMismatch? <==>
                !entry.checkOnly && report.riggable && !entry.rigOnly && !AllFit(entry.animations, RigTypeOf(report), entry.rigModel)
      ensures response == Advanced(Rig) <==>
                !entry.checkOnly && report.riggable && rig.Got? && (entry.rigOnly || AllFit(entry.animations, RigTypeOf(report), entry.rigModel))
      // The paid rig starts exactly when the phase moves on; the task goes on with the rig's id and model.
      ensures response == Advanced(Rig) <==> started != old(started)
      ensures response == Advanced(Rig) ==> started == old(started) + [RigStarted(id, entry, RigTypeOf(report))]
      ensures response == Advanced(Rig) ==>
                id in tasks.registry && tasks.registry[id] == entry.(providerTaskId := rig.value.0, phase := Some(Rig), rigModel := Some(rig.value.1))
      ensures response.Probe? || response.NotRiggable? || response.PresetMismatch? ==> id !in tasks.registry
      // A rig call that throws leaves the task to the next poll, unless it was an auth or credit failure.
      ensures response.Errored? ==> rig.Threw? && started == old(started) && (id in tasks.registry <==> !rig.authOrCredit)
    {
      FromRigCheckKeepsInv(Current(), id, user, entry, report, rig);
      FromRigCheckHasEffect(Current(), id, user, entry, report, rig);
      if entry.checkOnly {
        tasks.EvictTask(id);
        return Probe(report.riggable);
      }
      if !report.riggable {
        tasks.EvictTask(id);
        return NotRiggable;
      }
      var misfit := RigAnimationMismatch(entry, RigTypeOf(report));
      if misfit {
        tasks.EvictTask(id);
        return PresetMismatch;
      }
      match rig {
        case Threw(authOrCredit) => response := OnPollError(id, authOrCredit, user);
        case Got((rigTaskId, model)) =>
          tasks.UpdateTaskEntry(id, user, Patch(rigTaskId, Rig, Some(model)));
          started := started + [RigStarted(id, entry, RigTypeOf(report))];
          response := Advanced(Rig);
      }
    }

    /** Whether some requested preset does not fit the reported skeleton. */
    method RigAnimationMismatch(entry: TaskEntry, rigType: string) returns (mismatch: bool)
      ensures mismatch <==> !entry.rigOnly && !AllFit(entry.animations, rigType, entry.rigModel)
    {
      if entry.rigOnly {
        return false;
      }
      var misfits := Misfits(entry.animations, rigType, entry.rigModel);
      return |misfits| != 0;
    }

    method AdvanceAnimateChain(id: TaskId, user: Wallet, entry: TaskEntry, report: RigReport, answers: PollAnswers)
      returns (response: Response)
      requires Valid() && Running(tasks.registry, id, user, entry) && entry.kind == Animate && !ChainTerminal(entry)
      modifies this, tasks
      ensures (Current(), response) ==
              if entry.phase == Some(RigCheck) then FromRigCheck(old(Current()), id, user, entry, report, answers.rig)
              else FromRig(old(Current()), id, user, entry, answers.retarget)
      ensures Valid() && PollEffect(old(Current()), Current(), id, user)
      // A paid step was started exactly when the answer says that the chain advanced.
      ensures response.Advanced? <==> started != old(started)
      // A rig is retargeted as soon as the provider takes it, with what the task holds; the task goes on with the retarget's id.
      ensures entry.phase == Some(Rig) ==> (response == Advanced(Retarget) <==> answers.retarget.Got?)
      ensures response == Advanced(Retarget) ==>
                id in tasks.registry && tasks.registry[id] == entry.(providerTaskId := answers.retarget.value, phase := Some(Retarget))
      ensures response == Advanced(Retarget) ==>
                started == old(started) + [RetargetStarted(id, id, entry, entry.animations, entry.animateInPlace)]
    {
      assert EntryOk(id, entry, started);
      if entry.phase == Some(RigCheck) {
        response := AdvanceFromRigCheck(id, user, entry, report, answers.rig);
        return;
      }
      assert entry.phase == Some(entry.phase.value) && entry.phase.value == Rig;
      FromRigKeepsInv(Current(), id, user, entry, answers.retarget);
      FromRigHasEffect(Current(), id, user, entry, answers.retarget);
      match answers.retarget {
        case Threw(authOrCredit) => response := OnPollError(id, authOrCredit, user);
        case Got(retargetId) =>
          tasks.UpdateTaskEntry(id, user, Patch(retargetId, Retarget, None));
          started := started + [RetargetStarted(id, id, entry, entry.animations, entry.animateInPlace)];
          response := Advanced(Retarget);
      }
    }

    method CompletePollSuccess(now: int, id: TaskId, user: Wallet, entry: TaskEntry, status: PollStatus, answers: PollAnswers)
      returns (response: Response)
      requires status.Succeeded? && Valid() && Running(tasks.registry, id, user, entry)
      modifies this, tasks
      ensures (Current(), response) == PollSucceeded(old(Current()), now, id, user, entry, status, answers)
      ensures Valid() && PollEffect(old(Current()), Current(), id, user)
      // A terminal task finishes exactly when its result is there, and can then be looked up as completed.
      ensures response == Finished <==>
                (entry.kind == Animate ==> ChainTerminal(entry)) && (status.cadDesign || (status.hasModel && answers.download.Got?))
      ensures response == Finished ==> Find(tasks.registry, now, id, user, true).Some?
      // A terminal task without its result stays for the next poll, unless the download was refused for good.
      ensures (entry.kind == Animate ==> ChainTerminal(entry)) && response != Finished ==>
                response == Errored && (id in tasks.registry <==> !(status.hasModel && answers.download == Threw(true)))
    {
      SuccessKeepsInv(Current(), now, id, user, entry, status, answers);
      SuccessHasEffect(Current(), now, id, user, entry, status, answers);
      var chainTerminal := entry.phase == Some(Retarget) || (entry.rigOnly && entry.phase == Some(Rig));
      if entry.kind == Animate && !chainTerminal {
        response := AdvanceAnimateChain(id, user, entry, status.report, answers);
      } else if status.cadDesign {
        tasks.MarkTaskComplete(id, user, now);
        response := Finished;
      } else if !status.hasModel {
        response := OnPollError(id, false, user);
      } else if answers.download.Threw? {
        response := OnPollError(id, answers.download.authOrCredit, user);
      } else {
        tasks.MarkTaskComplete(id, user, now);
        response := Finished;
      }
    }

    /** What a status of the provider leads to: wait, finish or advance, or end the task. */
    method RespondToPoll(now: int, id: TaskId, user: Wallet, entry: TaskEntry, status: PollStatus, answers: PollAnswers)
      returns (response: Response)
      requires Valid() && Running(tasks.registry, id, user, entry)
      modifies this, tasks
      ensures (Current(), response) == Responded(old(Current()), now, id, user, entry, status, answers)
      ensures Valid() && PollEffect(old(Current()), Current(), id, user)
      // A task in flight is left alone; a failed one is gone.
      ensures status.InFlight? ==> response == Progress && Current() == old(Current())
      ensures status.FailedOrCancelled? ==> response == TaskFailed && id !in tasks.registry && started == old(started)
    {
      ResponseHasEffect(Current(), now, id, user, entry, status, answers);
      match status {
        case InFlight => response := Progress;
        case FailedOrCancelled =>
          tasks.EvictTask(id);
          response := TaskFailed;
        case Succeeded(_, _, _) => response := CompletePollSuccess(now, id, user, entry, status, answers);
      }
    }

    /** Asks the task's provider, unless it is a CAD provider that is not configured; its answer is not lost. */
    method AskProvider(now: int, id: TaskId, user: Wallet, entry: TaskEntry, answers: PollAnswers) returns (response: Response)
      requires Valid() && Running(tasks.registry, id, user, entry)
      modifies this, tasks
      ensures (Current(), response) == Asked(old(Current()), now, id, user, entry, answers)
      ensures entry.provider == Cad && !answers.available ==> response == NotConfigured && Current() == old(Current())
      ensures (entry.provider == Tripo || answers.available) && answers.status.Threw? ==>
                response == Errored && (id in tasks.registry <==> !answers.status.authOrCredit)
      ensures (entry.provider == Tripo || answers.available) && answers.status == Got(InFlight) ==>
                response == Progress && Current() == old(Current())
      ensures (entry.provider == Tripo || answers.available) && answers.status == Got(FailedOrCancelled) ==>
                response == TaskFailed && id !in tasks.registry && started == old(started)
    {
      if entry.provider == Cad && !answers.available {
        response := NotConfigured;
      } else if answers.status.Threw? {
        response := OnPollError(id, answers.status.authOrCredit, user);
      } else {
        response := RespondToPoll(now, id, user, entry, answers.status.value, answers);
      }
    }

    method PollTask(now: int, id: TaskId, user: Wallet, answers: PollAnswers) returns (response: Response)
      requires Valid()
      modifies this, tasks
      ensures (Current(), response) == Poll(old(Current()), now, id, user, answers)
      ensures Valid() && PollEffect(old(Current()), Current(), id, user)
      // Only the owner of a running, unexpired task learns anything but that there is none.
      ensures response == NotFound <==> Find(old(tasks.registry), now, id, user, false).None?
    {
      PollKeepsInv(Current(), now, id, user, answers);
      PollHasEffect(Current(), now, id, user, answers);
      DroppingKeepsInv(Current(), AfterLookup(tasks.registry, now, id));
      var found := tasks.GetTaskInStatus(id, user, false, now);
      if found.None? {
        response := NotFound;
      } else {
        response := AskProvider(now, id, user, found.value, answers);
      }
    }

    method DeleteTask(now: int, id: TaskId, user: Wallet) returns (found: bool)
      requires Valid()
      modifies this, tasks
      ensures Valid() && PollEffect(old(Current()), Current(), id, user) && started == old(started)
      ensures found ==> OwnedBy(old(tasks.registry), id, user) && id !in tasks.registry
      ensures !found && id in old(tasks.registry) && id !in tasks.registry ==> Expired(old(tasks.registry)[id], now)
      ensures Current() == AnimateChain.Step(old(Current()), now, DoDelete(user, id))
      ensures found == Find(old(tasks.registry), now, id, user, false).Some?
    {
      StepKeepsInv(Current(), now, DoDelete(user, id));
      var entry := tasks.GetTaskInStatus(id, user, false, now);
      if entry.None? {
        return false;
      }
      tasks.EvictTask(id);
      return true;
    }
  }
}
