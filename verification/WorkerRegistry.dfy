/** The worker registry that src/coordinator/worker_registry.c updates in place. */
module WorkerRegistries {
  import opened Base
  import opened RegistryModel

  function Outcome(before: Registry, result: Result<Registry, RegistryError>): (Option<RegistryError>, Registry) {
    if result.Ok? then (None, result.value) else (Some(result.error), before)
  }

  class WorkerRegistry {
    const workers: array<Worker>
    var nextWorkerId: u32

    ghost function Repr(): set<object> {
      {this, workers}
    }

    ghost predicate Valid()
      reads this, workers
    {
      workers.Length == MAX_WORKERS
    }

    function Value(): (r: Registry)
      reads this, workers
      ensures r.nextWorkerId == nextWorkerId
    {
      Registry(workers[..], nextWorkerId)
    }

    /** `faultline_worker_registry_init`. */
    constructor ()
      ensures Valid() && Value() == EmptyRegistry(1) && fresh(Repr())
    {
      workers := new Worker[MAX_WORKERS](_ => Worker(0, -1, Unused, 0));
      nextWorkerId := 1;
      new;
      assert workers[..] == EmptyRegistry(1).workers;
    }

    /** `*registry = *other` into fresh storage. */
    constructor Copy(other: WorkerRegistry)
      requires other.Valid()
      ensures Valid() && Value() == other.Value() && fresh(Repr())
    {
      workers := new Worker[MAX_WORKERS];
      nextWorkerId := other.nextWorkerId;
      new;
      forall i | 0 <= i < MAX_WORKERS {
        workers[i] := other.workers[i];
      }
      assert workers[..] == other.workers[..];
    }

    method CopyFrom(other: WorkerRegistry)
      requires Valid() && other.Valid() && Repr() !! other.Repr()
      modifies Repr()
      ensures Valid() && Value() == other.Value()
    {
      forall i | 0 <= i < MAX_WORKERS {
        workers[i] := other.workers[i];
      }
      nextWorkerId := other.nextWorkerId;
      assert workers[..] == other.workers[..];
    }

    /** `find_slot`. */
    method Locate(id: u32) returns (slot: nat)
      requires Valid()
      ensures slot == WorkerSlot(Value().workers, id)
    {
      slot := 0;
      while slot < MAX_WORKERS
        invariant slot <= MAX_WORKERS
        invariant forall k :: 0 <= k < slot ==> Value().workers[k].state == Unused || Value().workers[k].id != id
      {
        if workers[slot].state != Unused && workers[slot].id == id {
          assert Value().workers[slot].id == id;
          return;
        }
        slot := slot + 1;
      }
    }

    /** The liveness test that callers of `faultline_worker_find` make. */
    method Alive(id: u32) returns (alive: bool)
      requires Valid()
      ensures alive == IsAlive(Value(), id)
    {
      if id == 0 {
        return false;
      }
      var slot := Locate(id);
      alive := slot < MAX_WORKERS && workers[slot].state == RegistryModel.Alive;
    }

    /** One pass looks for the connection and for the first free slot. */
    method Register(fd: int, now: i64) returns (error: Option<RegistryError>, id: u32)
      requires Valid()
      modifies Repr()
      ensures Valid()
      ensures (error, Value()) == Outcome(old(Value()), RegistryModel.Register(old(Value()), fd, now))
      ensures error == None ==> id == old(nextWorkerId)
    {
      hide FreeSlot;
      id := 0;
      if fd < 0 || now < 0 {
        return Some(InvalidArgument), id;
      }
      var slot: nat, i: nat := MAX_WORKERS, 0;
      while i < MAX_WORKERS
        invariant i <= MAX_WORKERS
        invariant Value() == old(Value())
        invariant forall k :: 0 <= k < i ==>
          !(Value().workers[k].state == RegistryModel.Alive && Value().workers[k].fd == fd)
        invariant slot == MAX_WORKERS || slot < i
        invariant slot < MAX_WORKERS ==> Value().workers[slot].state != RegistryModel.Alive
        invariant forall k :: 0 <= k < i && k < slot ==> Value().workers[k].state == RegistryModel.Alive
      {
        if workers[i].state == RegistryModel.Alive && workers[i].fd == fd {
          assert Value().workers[i].state == RegistryModel.Alive && Value().workers[i].fd == fd;
          return Some(AlreadyRegistered), id;
        }
        if workers[i].state != RegistryModel.Alive && slot == MAX_WORKERS {
          slot := i;
        }
        i := i + 1;
      }
      assert slot == FreeSlot(Value().workers);
      if slot == MAX_WORKERS {
        return Some(RegistryFull), id;
      }
      if nextWorkerId == 0 {
        return Some(IdExhausted), id;
      }
      id := nextWorkerId;
      workers[slot] := Worker(id, fd, RegistryModel.Alive, now);
      nextWorkerId := Succ32(id);
      error := None;
    }

    /** `find_live_connection`. */
    method Live(id: u32, fd: int) returns (found: Result<nat, RegistryError>)
      requires Valid()
      ensures found == LiveConnection(Value(), id, fd)
    {
      if fd < 0 {
        return Err(InvalidArgument);
      }
      var slot := Locate(id);
      if slot == MAX_WORKERS {
        return Err(NotFound);
      }
      if workers[slot].state != RegistryModel.Alive {
        return Err(NotAlive);
      }
      if workers[slot].fd != fd {
        return Err(ConnectionMismatch);
      }
      found := Ok(slot);
    }

    method Heartbeat(id: u32, fd: int, now: i64) returns (error: Option<RegistryError>)
      requires Valid()
      modifies Repr()
      ensures Valid()
      ensures (error, Value()) == Outcome(old(Value()), RecordHeartbeat(old(Value()), id, fd, now))
    {
      hide LiveConnection;
      if now < 0 {
        return Some(InvalidArgument);
      }
      var found := Live(id, fd);
      if found.Err? {
        return Some(found.error);
      }
      if now < workers[found.value].lastHeartbeat {
        return Some(InvalidArgument);
      }
      workers[found.value] := workers[found.value].(lastHeartbeat := now);
      error := None;
    }

    method MarkDead(id: u32, fd: int) returns (error: Option<RegistryError>)
      requires Valid()
      modifies Repr()
      ensures Valid()
      ensures (error, Value()) == Outcome(old(Value()), RegistryModel.MarkDead(old(Value()), id, fd))
    {
      hide LiveConnection;
      var found := Live(id, fd);
      if found.Err? {
        return Some(found.error);
      }
      workers[found.value] := workers[found.value].(state := Dead);
      workers[found.value] := workers[found.value].(fd := -1);
      ghost var dead := old(workers[found.value]).(state := Dead, fd := -1);
      assert workers[..] == old(workers[..])[found.value := dead];
      error := None;
    }
  }
}
