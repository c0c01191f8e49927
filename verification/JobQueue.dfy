/** The circular queue of pending job IDs (src/coordinator/job_queue.c). */
module JobQueues {
  import opened Base
  import opened JobModel
  import opened SchedulerModel

  /** Where the entry that is `i` places behind the head is stored. */
  function Place(head: nat, i: nat): nat {
    (head + i) % QUEUE_CAPACITY
  }

  lemma PlacesDiffer(head: nat, i: nat, j: nat)
    requires head < QUEUE_CAPACITY && i < j < QUEUE_CAPACITY
    ensures Place(head, i) != Place(head, j)
  {}

  lemma PlaceShifts(head: nat, i: nat)
    requires head < QUEUE_CAPACITY
    ensures Place(Place(head, 1), i) == Place(head, i + 1)
  {}

  class JobQueue {
    const ids: array<u64>
    var head: nat
    var count: nat

    ghost predicate Valid()
      reads this, ids
    {
      ids.Length == QUEUE_CAPACITY && head < QUEUE_CAPACITY && count <= QUEUE_CAPACITY
    }

    /** The pending IDs, oldest first, across the wrap. */
    function Contents(): (s: seq<u64>)
      requires Valid()
      reads this, ids
      ensures |s| == count
      ensures forall i :: 0 <= i < count ==> s[i] == ids[Place(head, i)]
    {
      seq(count, i requires 0 <= i < count && Valid() reads this, ids => ids[Place(head, i)])
    }

    constructor ()
      ensures Valid() && Contents() == [] && fresh(ids)
    {
      ids := new u64[QUEUE_CAPACITY](_ => 0);
      head := 0;
      count := 0;
    }

    /** `faultline_job_queue_push`: appends, or rejects and changes nothing. */
    method Push(job: Job) returns (error: Option<QueueError>)
      requires Valid()
      modifies this, ids
      ensures Valid()
      ensures match SchedulerModel.Push(old(Contents()), job)
              case Ok(pending) => error == None && Contents() == pending
              case Err(e) => error == Some(e) && Contents() == old(Contents())
    {
      if job.id == 0 {
        return Some(QueueInvalidArgument);
      }
      if job.state != Queued || job.workerId != 0 {
        return Some(QueueInvalidState);
      }
      for i := 0 to count
        invariant forall k :: 0 <= k < i ==> Contents()[k] != job.id
      {
        if ids[Place(head, i)] == job.id {
          assert Contents()[i] == job.id;
          return Some(QueueDuplicate);
        }
      }
      assert job.id !in Contents();
      if count == QUEUE_CAPACITY {
        return Some(QueueFull);
      }
      Append(job.id);
      error := None;
    }

    /** The writes at the end of `faultline_job_queue_push`. */
    method Append(id: u64)
      requires Valid() && count < QUEUE_CAPACITY
      modifies this, ids
      ensures Valid() && Contents() == old(Contents()) + [id]
    {
      hide Place;
      ghost var before := Contents();
      var tail := (head + count) % QUEUE_CAPACITY;
      assert tail == Place(head, count) by { PlaceIs(head, count); }
      forall i | 0 <= i < count ensures Place(head, i) != tail { PlacesDiffer(head, i, count); }
      ids[tail] := id;
      count := count + 1;
      assert Contents() == before + [id];
    }

    /** `faultline_job_queue_peek`; `None` when empty. */
    method Peek() returns (id: Option<u64>)
      requires Valid()
      ensures id == if Contents() == [] then None else Some(Contents()[0])
    {
      if count == 0 {
        return None;
      }
      assert Place(head, 0) == head;
      id := Some(ids[head]);
    }

    /** `faultline_job_queue_pop`; `None` when empty. */
    method Pop() returns (id: Option<u64>)
      requires Valid()
      modifies this, ids
      ensures Valid()
      ensures old(Contents()) == [] ==> id == None && Contents() == []
      ensures old(Contents()) != [] ==> id == Some(old(Contents())[0]) && Contents() == old(Contents())[1..]
    {
      hide Place;
      id := Peek();
      if id.None? {
        return;
      }
      ghost var before := Contents();
      ghost var first := head;
      assert Place(first, 0) == first by { PlaceIs(first, 0); }
      forall i: nat | i < count - 1
        ensures Place(Place(first, 1), i) == Place(first, i + 1) && Place(first, i + 1) != first
      {
        PlaceShifts(first, i);
        PlacesDiffer(first, 0, i + 1);
      }
      PlaceIs(head, 1);
      ids[head] := 0;
      head := (head + 1) % QUEUE_CAPACITY;
      count := count - 1;
      assert Contents() == before[1..];
    }

    /** `*queue = *other`: the C struct is copied as a whole. */
    method CopyFrom(other: JobQueue)
      requires Valid() && other.Valid() && ids != other.ids
      modifies this, ids
      ensures Valid() && Contents() == other.Contents()
    {
      forall i | 0 <= i < QUEUE_CAPACITY {
        ids[i] := other.ids[i];
      }
      head := other.head;
      count := other.count;
    }
  }

  lemma PlaceIs(head: nat, i: nat)
    ensures Place(head, i) == (head + i) % QUEUE_CAPACITY
    ensures head < QUEUE_CAPACITY && i == 0 ==> Place(head, i) == head
  {}
}
