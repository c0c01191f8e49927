/** The live worker registry as a value (src/coordinator/worker_registry.c). */
module RegistryModel {
  import opened Base

  const MAX_WORKERS: nat := 64

  datatype WorkerState = Unused | Alive | Dead

  datatype Worker = Worker(id: u32, fd: int, state: WorkerState, lastHeartbeat: i64)

  datatype Registry = Registry(workers: seq<Worker>, nextWorkerId: u32)

  datatype RegistryError =
    | InvalidArgument | AlreadyRegistered | RegistryFull | IdExhausted
    | NotFound | NotAlive | ConnectionMismatch

  /** `faultline_worker_registry_init`, with the allocator set to `next`. */
  function EmptyRegistry(next: u32): (registry: Registry)
    ensures |registry.workers| == MAX_WORKERS
    ensures forall i :: 0 <= i < MAX_WORKERS ==> registry.workers[i].state == Unused
  {
    Registry(seq(MAX_WORKERS, _ => Worker(0, -1, Unused, 0)), next)
  }

  /** The slot of an alive or retained dead worker, or the number of slots. */
  function WorkerSlot(workers: seq<Worker>, id: u32): (slot: nat)
    ensures slot <= |workers|
    ensures slot < |workers| ==> workers[slot].state != Unused && workers[slot].id == id
    ensures forall k :: 0 <= k < slot ==> workers[k].state == Unused || workers[k].id != id
  {
    if workers == [] || (workers[0].state != Unused && workers[0].id == id) then 0
    else 1 + WorkerSlot(workers[1..], id)
  }

  predicate IsAlive(registry: Registry, id: u32) {
    var slot := WorkerSlot(registry.workers, id);
    id != 0 && slot < |registry.workers| && registry.workers[slot].state == Alive
  }

  predicate ConnectionInUse(workers: seq<Worker>, fd: int) {
    exists i :: 0 <= i < |workers| && workers[i].state == Alive && workers[i].fd == fd
  }

  /** The first slot that holds no live worker, or the number of slots. */
  function FreeSlot(workers: seq<Worker>): (slot: nat)
    ensures slot <= |workers|
    ensures slot < |workers| ==> workers[slot].state != Alive
    ensures forall k :: 0 <= k < slot ==> workers[k].state == Alive
  {
    if workers == [] || workers[0].state != Alive then 0 else 1 + FreeSlot(workers[1..])
  }

  function Register(registry: Registry, fd: int, now: i64): Result<Registry, RegistryError> {
    var slot := FreeSlot(registry.workers);
    if fd < 0 || now < 0 then Err(InvalidArgument)
    else if ConnectionInUse(registry.workers, fd) then Err(AlreadyRegistered)
    else if slot == |registry.workers| then Err(RegistryFull)
    else if registry.nextWorkerId == 0 then Err(IdExhausted)
    else Ok(Registry(registry.workers[slot := Worker(registry.nextWorkerId, fd, Alive, now)],
                     Succ32(registry.nextWorkerId)))
  }

  /** `find_live_connection`: the slot of this live worker on this connection. */
  function LiveConnection(registry: Registry, id: u32, fd: int): (slot: Result<nat, RegistryError>)
    ensures slot.Ok? ==> slot.value < |registry.workers| && registry.workers[slot.value].state == Alive
  {
    var slot := WorkerSlot(registry.workers, id);
    if fd < 0 then Err(InvalidArgument)
    else if slot == |registry.workers| then Err(NotFound)
    else if registry.workers[slot].state != Alive then Err(NotAlive)
    else if registry.workers[slot].fd != fd then Err(ConnectionMismatch)
    else Ok(slot)
  }

  function RecordHeartbeat(registry: Registry, id: u32, fd: int, now: i64): Result<Registry, RegistryError> {
    if now < 0 then Err(InvalidArgument)
    else
      var slot := LiveConnection(registry, id, fd);
      if slot.Err? then Err(slot.error)
      else if now < registry.workers[slot.value].lastHeartbeat then Err(InvalidArgument)
      else
        var worker := registry.workers[slot.value];
        Ok(registry.(workers := registry.workers[slot.value := worker.(lastHeartbeat := now)]))
  }

  function MarkDead(registry: Registry, id: u32, fd: int): Result<Registry, RegistryError> {
    var slot := LiveConnection(registry, id, fd);
    if slot.Err? then Err(slot.error)
    else
      var worker := registry.workers[slot.value];
      Ok(registry.(workers := registry.workers[slot.value := worker.(state := Dead, fd := -1)]))
  }

  predicate TimedOut(worker: Worker, now: i64, timeout: int) {
    && worker.state == Alive && timeout > 0 && worker.lastHeartbeat >= 0
    && now >= worker.lastHeartbeat && now - worker.lastHeartbeat >= timeout
  }

  // ---------- the invariant ----------

  predicate Used(worker: Worker) {
    worker.state != Unused
  }

  /** IDs identify slots, and live workers have distinct connections. */
  predicate RegistryOk(registry: Registry) {
    var w := registry.workers;
    && |w| == MAX_WORKERS
    && (forall i :: 0 <= i < |w| && Used(w[i]) ==>
          w[i].id != 0 && (registry.nextWorkerId == 0 || w[i].id < registry.nextWorkerId) && w[i].lastHeartbeat >= 0)
    && (forall i, j :: 0 <= i < j < |w| && Used(w[i]) && Used(w[j]) ==> w[i].id != w[j].id)
    && (forall i :: 0 <= i < |w| && w[i].state == Alive ==> w[i].fd >= 0)
    && (forall i, j :: 0 <= i < j < |w| && w[i].state == Alive && w[j].state == Alive ==> w[i].fd != w[j].fd)
  }

  lemma EmptyRegistryOk(next: u32)
    ensures RegistryOk(EmptyRegistry(next))
  {}

  lemma SlotOfWorker(registry: Registry, i: nat)
    requires RegistryOk(registry) && i < |registry.workers| && Used(registry.workers[i])
    ensures WorkerSlot(registry.workers, registry.workers[i].id) == i
  {
    var w := registry.workers;
    assert forall k :: 0 <= k < |w| && k != i && Used(w[k]) ==> w[k].id != w[i].id;
  }

  /** Registering issues a fresh ID and keeps every live worker. */
  lemma RegisterOk(registry: Registry, fd: int, now: i64)
    requires RegistryOk(registry) && Register(registry, fd, now).Ok?
    ensures var next := Register(registry, fd, now).value;
            && RegistryOk(next)
            && IsAlive(next, registry.nextWorkerId)
            && (forall id :: IsAlive(registry, id) ==> IsAlive(next, id))
  {
    var next := Register(registry, fd, now).value;
    var slot := FreeSlot(registry.workers);
    assert next.workers[slot].id == registry.nextWorkerId;
    SlotOfWorker(next, slot);
    forall id | IsAlive(registry, id) ensures IsAlive(next, id) {
      var at := WorkerSlot(registry.workers, id);
      assert next.workers[at] == registry.workers[at];
      SlotOfWorker(next, at);
    }
  }

  lemma HeartbeatOk(registry: Registry, id: u32, fd: int, now: i64)
    requires RegistryOk(registry) && RecordHeartbeat(registry, id, fd, now).Ok?
    ensures var next := RecordHeartbeat(registry, id, fd, now).value;
            && RegistryOk(next)
            && (forall other :: IsAlive(next, other) <==> IsAlive(registry, other))
  {
    var next := RecordHeartbeat(registry, id, fd, now).value;
    forall other ensures WorkerSlot(next.workers, other) == WorkerSlot(registry.workers, other) {
      SameIds(registry.workers, next.workers, other);
    }
  }

  lemma {:induction false} SameIds(a: seq<Worker>, b: seq<Worker>, id: u32)
    requires |a| == |b|
    requires forall i :: 0 <= i < |a| ==> Used(a[i]) == Used(b[i]) && a[i].id == b[i].id
    ensures WorkerSlot(a, id) == WorkerSlot(b, id)
  {
    if a != [] {
      SameIds(a[1..], b[1..], id);
    }
  }

  lemma MarkDeadOk(registry: Registry, id: u32, fd: int)
    requires RegistryOk(registry) && MarkDead(registry, id, fd).Ok?
    ensures var next := MarkDead(registry, id, fd).value;
            && RegistryOk(next)
            && (forall other :: IsAlive(next, other) <==> IsAlive(registry, other) && other != id)
  {
    var next := MarkDead(registry, id, fd).value;
    forall other ensures WorkerSlot(next.workers, other) == WorkerSlot(registry.workers, other) {
      SameIds(registry.workers, next.workers, other);
    }
  }
}
