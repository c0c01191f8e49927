/** The loops of src/common/protocol.c over list entries, on caller-owned buffers. */
module ProtocolLoops {
  import opened Base
  import opened Bytes
  import opened Messages
  import opened Protocol

  /** `validate_jobs`: the first entry that breaks a rule decides; accepted lists have
      strictly increasing IDs. */
  method CheckJobs(jobs: seq<JobSummary>) returns (error: Option<WireError>)
    ensures error == ValidateJobs(jobs)
    ensures error == None ==> forall i, j :: 0 <= i < j < |jobs| ==> jobs[i].jobId < jobs[j].jobId
  {
    hide ValidateStatus;
    if |jobs| > MAX_JOB_ENTRIES {
      return Some(InvalidListCount);
    }
    for i := 0 to |jobs|
      invariant ValidateJobsFrom(jobs, i) == ValidateJobs(jobs)
      invariant forall k, l :: 0 <= k < l < i ==> jobs[k].jobId < jobs[l].jobId
    {
      error := ValidateJobEntry(jobs, i);
      if error.Some? {
        return;
      }
    }
    error := None;
  }

  /** `validate_workers`. */
  method CheckWorkers(timeout: u32, workers: seq<WorkerSummary>) returns (error: Option<WireError>)
    ensures error == ValidateWorkers(timeout, workers)
    ensures error == None ==> forall i, j :: 0 <= i < j < |workers| ==> workers[i].workerId < workers[j].workerId
  {
    if |workers| > MAX_WORKER_ENTRIES {
      return Some(InvalidListCount);
    }
    if timeout == 0 {
      return Some(InvalidHeartbeatTimeout);
    }
    for i := 0 to |workers|
      invariant ValidateWorkersFrom(workers, i) == ValidateWorkers(timeout, workers)
      invariant forall k, l :: 0 <= k < l < i ==> workers[k].workerId < workers[l].workerId
    {
      error := ValidateWorkerEntry(workers, i);
      if error.Some? {
        return;
      }
    }
    error := None;
  }

  /** Write `data` at `at` and nothing else. */
  method CopyInto(out: array<byte>, at: nat, data: bytes)
    requires at + |data| <= out.Length
    modifies out
    ensures out[at..at + |data|] == data
    ensures out[..at] == old(out[..at]) && out[at + |data|..] == old(out[at + |data|..])
  {
    for k := 0 to |data|
      invariant out[at..at + k] == data[..k]
      invariant out[..at] == old(out[..at]) && out[at + k..] == old(out[at + k..])
    {
      ghost var before := out[..];
      out[at + k] := data[k];
      assert out[at..at + k] == before[at..at + k];
      assert out[at + k + 1..] == before[at + k..][1..];
    }
  }

  lemma OneMoreRow(layout: Layout, rows: seq<seq<nat>>, i: nat)
    requires RowsFit(layout, rows) && i < |rows|
    ensures RowsFit(layout, rows[..i]) && RowsFit(layout, rows[..i + 1])
    ensures PutRows(layout, rows[..i + 1]) == PutRows(layout, rows[..i]) + PutFields(layout, rows[i])
    ensures (i + 1) * LayoutSize(layout) == i * LayoutSize(layout) + LayoutSize(layout)
    ensures (i + 1) * LayoutSize(layout) <= |rows| * LayoutSize(layout)
  {
    hide PutFields, LayoutSize;
    assert rows[..i + 1][..i] == rows[..i];
    RowsBelow(i + 1, |rows|, LayoutSize(layout));
  }

  lemma RowsBelow(i: nat, n: nat, size: nat)
    requires i <= n
    ensures i * size <= n * size
  {}

  /** The entry loops of `faultline_message_encode`: each row at its own offset. */
  method WriteRows(out: array<byte>, at: nat, layout: Layout, rows: seq<seq<nat>>)
    requires RowsFit(layout, rows) && at + |rows| * LayoutSize(layout) <= out.Length
    modifies out
    ensures out[at..at + |rows| * LayoutSize(layout)] == PutRows(layout, rows)
    ensures out[..at] == old(out[..at])
    ensures out[at + |rows| * LayoutSize(layout)..] == old(out[at + |rows| * LayoutSize(layout)..])
  {
    hide PutFields, PutRows, LayoutSize, RowsFit;
    var size := LayoutSize(layout);
    ghost var end := at + |rows| * size;
    NoRows(layout, rows);
    for i := 0 to |rows|
      invariant at + i * size <= end
      invariant RowsFit(layout, rows[..i]) && out[at..at + i * size] == PutRows(layout, rows[..i])
      invariant out[..at] == old(out[..at]) && out[end..] == old(out[end..])
    {
      OneMoreRow(layout, rows, i);
      var here := at + i * size;
      ghost var before := out[..];
      assert RowsFit(layout, rows) && |rows[i]| == |layout| by { RowShape(layout, rows, i); }
      CopyInto(out, here, PutFields(layout, rows[i]));
      Grown(before, out[..], at, here, here + size, end);
    }
    assert rows[..|rows|] == rows;
  }

  lemma NoRows(layout: Layout, rows: seq<seq<nat>>)
    ensures RowsFit(layout, rows[..0]) && PutRows(layout, rows[..0]) == []
  {}

  lemma RowShape(layout: Layout, rows: seq<seq<nat>>, i: nat)
    requires RowsFit(layout, rows) && i < |rows|
    ensures |rows[i]| == |layout|
  {}

  /** Writing between `here` and `next` keeps what lies before and behind. */
  lemma Grown(before: bytes, after: bytes, at: nat, here: nat, next: nat, end: nat)
    requires at <= here <= next <= end <= |after| == |before|
    requires after[..here] == before[..here] && after[next..] == before[next..]
    ensures after[at..next] == before[at..here] + after[here..next]
    ensures after[..at] == before[..at] && after[end..] == before[end..]
  {
    assert after[at..here] == after[..here][at..] && before[at..here] == before[..here][at..];
    assert after[..at] == after[..here][..at] && before[..at] == before[..here][..at];
    assert after[end..] == after[next..][end - next..] && before[end..] == before[next..][end - next..];
  }

  /** The first `i` rows have been read, up to position `here`. */
  ghost predicate RowsRead(layout: Layout, payload: bytes, at: nat, here: nat, i: nat, rows: seq<seq<nat>>) {
    && at <= here <= |payload| && here - at == i * LayoutSize(layout)
    && rows == GetRows(layout, payload[at..here], i)
  }

  lemma NoRowsRead(layout: Layout, payload: bytes, at: nat)
    requires at <= |payload|
    ensures RowsRead(layout, payload, at, at, 0, [])
  {}

  /** There is another row, and reading it makes one more. */
  lemma NextRowRead(layout: Layout, payload: bytes, at: nat, here: nat, i: nat, count: nat, rows: seq<seq<nat>>)
    requires RowsRead(layout, payload, at, here, i, rows) && i < count && |payload| == at + count * LayoutSize(layout)
    ensures var next := here + LayoutSize(layout);
            && next <= |payload|
            && RowsRead(layout, payload, at, next, i + 1, rows + [GetFields(layout, payload[here..next])])
  {
    hide GetFields, LayoutSize;
    var size := LayoutSize(layout);
    RowsBelow(i + 1, count, size);
    assert (i + 1) * size == i * size + size;
    var wire := payload[at..here + size];
    assert wire[..i * size] == payload[at..here];
    assert wire[i * size..] == payload[here..here + size];
  }

  lemma AllRowsRead(layout: Layout, payload: bytes, at: nat, here: nat, count: nat, rows: seq<seq<nat>>)
    requires RowsRead(layout, payload, at, here, count, rows) && |payload| == at + count * LayoutSize(layout)
    ensures rows == GetRows(layout, payload[at..], count)
  {
    hide GetRows;
    assert payload[at..here] == payload[at..];
  }

  /** The entry loop of `faultline_message_decode`. */
  method ReadRows(payload: bytes, at: nat, layout: Layout, count: nat) returns (rows: seq<seq<nat>>)
    requires |payload| == at + count * LayoutSize(layout)
    ensures rows == GetRows(layout, payload[at..], count)
  {
    hide GetFields, GetRows, LayoutSize, RowsRead;
    var size := LayoutSize(layout);
    var here := at;
    rows := [];
    StartsInside(payload, at, layout, count);
    NoRowsRead(layout, payload, at);
    for i := 0 to count
      invariant at <= here <= |payload| && RowsRead(layout, payload, at, here, i, rows)
    {
      NextRowRead(layout, payload, at, here, i, count, rows);
      rows := rows + [GetFields(layout, payload[here..here + size])];
      here := here + size;
    }
    AllRowsRead(layout, payload, at, here, count, rows);
  }

  lemma StartsInside(payload: bytes, at: nat, layout: Layout, count: nat)
    requires |payload| == at + count * LayoutSize(layout)
    ensures at <= |payload|
  {}
}
