/** The range-compressed index of allocated worker IDs (src/coordinator/wal_replay.c,
    `allocate_worker` and `worker_was_allocated`). */
module WorkerIndexes {
  import opened Base

  datatype Range = Range(first: u32, last: u32)

  /** Sorted, disjoint and never adjacent. */
  predicate RangesOk(ranges: seq<Range>) {
    && (forall i :: 0 <= i < |ranges| ==> ranges[i].first <= ranges[i].last)
    && (forall i, j :: 0 <= i < j < |ranges| ==> ranges[i].last + 1 < ranges[j].first)
  }

  predicate Within(r: Range, id: u32) {
    r.first <= id <= r.last
  }

  predicate Covers(ranges: seq<Range>, id: u32) {
    exists i :: 0 <= i < |ranges| && Within(ranges[i], id)
  }

  /** The index stands for exactly this set of IDs. */
  ghost predicate Represents(ranges: seq<Range>, ids: set<u32>) {
    RangesOk(ranges) && forall id: u32 :: Covers(ranges, id) <==> id in ids
  }

  function Extended(ranges: seq<Range>, id: u32): seq<Range> {
    var n := |ranges|;
    if n != 0 && ranges[n - 1].last + 1 == id then ranges[n - 1 := Range(ranges[n - 1].first, id)]
    else ranges + [Range(id, id)]
  }

  predicate Below(ids: set<u32>, bound: u32) {
    forall id :: id in ids ==> id < bound
  }

  lemma ExtendedCovers(ranges: seq<Range>, id: u32, x: u32)
    requires RangesOk(ranges) && forall i :: 0 <= i < |ranges| ==> ranges[i].last < id
    ensures Covers(Extended(ranges, id), x) <==> Covers(ranges, x) || x == id
  {
    var n, after := |ranges|, Extended(ranges, id);
    if x == id {
      assert Within(after[|after| - 1], id);
    } else {
      if Covers(ranges, x) {
        var i :| 0 <= i < n && Within(ranges[i], x);
        assert Within(after[i], x);
      }
      if Covers(after, x) {
        var i :| 0 <= i < |after| && Within(after[i], x);
        assert i < n && Within(ranges[i], x);
      }
    }
  }

  /** Adding an ID above all others, adjacent or after a gap, adds exactly that ID. */
  lemma ExtendedRepresents(ranges: seq<Range>, ids: set<u32>, id: u32)
    requires Represents(ranges, ids) && Below(ids, id)
    ensures Represents(Extended(ranges, id), ids + {id})
  {
    forall i | 0 <= i < |ranges| ensures ranges[i].last < id {
      assert Within(ranges[i], ranges[i].last);
      assert Covers(ranges, ranges[i].last);
    }
    forall x: u32 ensures Covers(Extended(ranges, id), x) <==> x in ids + {id} {
      ExtendedCovers(ranges, id, x);
    }
  }

  class WorkerIndex {
    var ranges: seq<Range>

    constructor ()
      ensures ranges == [] && Represents(ranges, {})
    {
      ranges := [];
    }

    /** `allocate_worker` after its range check. */
    method Add(id: u32, ghost ids: set<u32>)
      requires Represents(ranges, ids) && Below(ids, id)
      modifies this
      ensures Represents(ranges, ids + {id})
      ensures ranges == Extended(old(ranges), id)
    {
      ExtendedRepresents(ranges, ids, id);
      var n := |ranges|;
      if n != 0 && ranges[n - 1].last + 1 == id {
        ranges := ranges[n - 1 := ranges[n - 1].(last := id)];
      } else {
        ranges := ranges + [Range(id, id)];
      }
    }

    /** `worker_was_allocated`: binary search answers membership in the set. */
    method Contains(id: u32, ghost ids: set<u32>) returns (found: bool)
      requires Represents(ranges, ids)
      ensures found <==> id in ids
    {
      var low, high := 0, |ranges|;
      while low < high
        invariant 0 <= low <= high <= |ranges|
        invariant forall i :: 0 <= i < low ==> ranges[i].last < id
        invariant forall i :: high <= i < |ranges| ==> id < ranges[i].first
      {
        var middle := low + (high - low) / 2;
        var range := ranges[middle];
        if id < range.first {
          high := middle;
        } else if id > range.last {
          low := middle + 1;
        } else {
          assert Within(range, id);
          assert Covers(ranges, id);
          return true;
        }
      }
      assert !Covers(ranges, id);
      found := false;
    }
  }
}
