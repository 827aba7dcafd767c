/** The task registry: one entry per public task id, patched in place, dropped after its TTL. */
module GenerationTasks {
  import opened Wrappers

  type TaskId = string
  type Wallet = string

  const TTL_MS := 60 * 60 * 1000

  datatype Provider = Tripo | Cad
  datatype Kind = Generate | Animate
  datatype Phase = RigCheck | Rig | Retarget

  datatype TaskEntry = TaskEntry(
    providerTaskId: string,
    owner: Wallet,
    createdAt: int,
    complete: bool,
    provider: Provider,
    kind: Kind,
    phase: Option<Phase>,
    animations: seq<string>,
    rigOnly: bool,
    checkOnly: bool,
    animateInPlace: bool,
    rigModel: Option<string>)

  type Registry = map<TaskId, TaskEntry>

  predicate Expired(e: TaskEntry, now: int) {
    now - e.createdAt > TTL_MS
  }

  /** The entry a wallet may work on, in the wanted lifecycle status. */
  function Find(registry: Registry, now: int, id: TaskId, user: Wallet, complete: bool): (e: Option<TaskEntry>)
    ensures e.Some? ==> id in registry && registry[id] == e.value
    ensures e.Some? <==> id in registry && !Expired(registry[id], now) && registry[id].owner == user && registry[id].complete == complete
  {
    if id in registry && !Expired(registry[id], now) && registry[id].owner == user && registry[id].complete == complete
    then Some(registry[id]) else None
  }

  predicate OwnedBy(registry: Registry, id: TaskId, user: Wallet) {
    id in registry && registry[id].owner == user
  }

  /** A lookup drops the entry it finds expired, whoever owns it. */
  function AfterLookup(registry: Registry, now: int, id: TaskId): Registry {
    if id in registry && Expired(registry[id], now) then registry - {id} else registry
  }

  function Evict(registry: Registry, id: TaskId): Registry {
    registry - {id}
  }

  /** What advancing a chain writes over an entry; an absent rig model leaves the old one. */
  datatype Patch = Patch(providerTaskId: string, phase: Phase, rigModel: Option<string>)

  function Patched(e: TaskEntry, p: Patch): TaskEntry {
    e.(providerTaskId := p.providerTaskId, phase := Some(p.phase), rigModel := if p.rigModel.Some? then p.rigModel else e.rigModel)
  }

  function Update(registry: Registry, id: TaskId, user: Wallet, p: Patch): Registry {
    if id in registry && registry[id].owner == user then registry[id := Patched(registry[id], p)] else registry
  }

  function Complete(registry: Registry, now: int, id: TaskId, user: Wallet): Registry {
    if id in registry && registry[id].owner == user then registry[id := registry[id].(complete := true, createdAt := now)] else registry
  }

  function Swept(registry: Registry, now: int): Registry {
    map id | id in registry && !Expired(registry[id], now) :: registry[id]
  }

  /** A lookup leaves another task's entry alone, and its own target exactly when it has not expired. */
  lemma LookupKeepsEntryIff(registry: Registry, now: int, id: TaskId, other: TaskId)
    requires other in registry
    ensures (other in AfterLookup(registry, now, id) && AfterLookup(registry, now, id)[other] == registry[other]) <==>
            other != id || !Expired(registry[id], now)
  {
  }

  /** Dropping an expired entry early is invisible: no lookup at this time or later would have found it. */
  lemma ExpiredIsInvisible(registry: Registry, now: int, later: int, id: TaskId, asked: TaskId, user: Wallet, complete: bool)
    requires now <= later
    ensures Find(AfterLookup(registry, now, id), later, asked, user, complete) == Find(registry, later, asked, user, complete)
    ensures Find(Swept(registry, now), later, asked, user, complete) == Find(registry, later, asked, user, complete)
  {
  }

  class TaskRegistry {
    var registry: Registry

    constructor ()
      ensures registry == map[]
    {
      registry := map[];
    }

    method RegisterTask(id: TaskId, entry: TaskEntry)
      requires id !in registry
      modifies this
      ensures registry == old(registry)[id := entry]
    {
      registry := registry[id := entry];
    }

    method UpdateTaskEntry(id: TaskId, user: Wallet, patch: Patch)
      modifies this
      ensures registry == Update(old(registry), id, user, patch)
    {
      if id !in registry || registry[id].owner != user {
        return;
      }
      var entry := registry[id];
      entry := entry.(providerTaskId := patch.providerTaskId, phase := Some(patch.phase));
      if patch.rigModel.Some? {
        entry := entry.(rigModel := patch.rigModel);
      }
      registry := registry[id := entry];
    }

    method GetTaskInStatus(id: TaskId, user: Wallet, complete: bool, now: int) returns (e: Option<TaskEntry>)
      modifies this
      ensures registry == AfterLookup(old(registry), now, id)
      ensures e == Find(old(registry), now, id, user, complete)
    {
      if id !in registry {
        return None;
      }
      var entry := registry[id];
      if now - entry.createdAt > TTL_MS {
        registry := registry - {id};
        return None;
      }
      if entry.owner != user || entry.complete != complete {
        return None;
      }
      return Some(entry);
    }

    method MarkTaskComplete(id: TaskId, user: Wallet, now: int)
      modifies this
      ensures registry == Complete(old(registry), now, id, user)
      // The owner's entry can be found as completed for a full TTL, and never again as running.
      ensures OwnedBy(old(registry), id, user) ==>
                forall later :: Find(registry, later, id, user, true).Some? <==> later - now <= TTL_MS
      ensures OwnedBy(old(registry), id, user) ==> forall later, u :: Find(registry, later, id, u, false).None?
      ensures !OwnedBy(old(registry), id, user) ==> registry == old(registry)
      ensures forall later, other, u, complete :: other != id ==>
                Find(registry, later, other, u, complete) == Find(old(registry), later, other, u, complete)
    {
      if id in registry && registry[id].owner == user {
        registry := registry[id := registry[id].(complete := true, createdAt := now)];
      }
    }

    method EvictTask(id: TaskId)
      modifies this
      ensures registry == Evict(old(registry), id)
      // Nobody finds the task any more; every other lookup is as before.
      ensures forall later, u, complete :: Find(registry, later, id, u, complete).None?
      ensures forall later, other, u, complete :: other != id ==>
                Find(registry, later, other, u, complete) == Find(old(registry), later, other, u, complete)
    {
      registry := registry - {id};
    }

    /** The periodic sweep. */
    method Sweep(now: int)
      modifies this
      ensures registry == Swept(old(registry), now)
    {
      var ids := registry.Keys;
      while ids != {}
        invariant ids <= old(registry).Keys
        invariant forall id :: id in ids ==> id in registry
        invariant registry == map id | id in old(registry) && (id in ids || !Expired(old(registry)[id], now)) :: old(registry)[id]
        decreases |ids|
      {
        var id :| id in ids;
        ids := ids - {id};
        if now - registry[id].createdAt > TTL_MS {
          registry := registry - {id};
        }
      }
    }
  }
}
