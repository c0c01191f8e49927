/** Big-endian integers and fixed layouts.

    Both the log format and the wire protocol are lists of big-endian fields of
    two, four or eight bytes.  A layout is the list of field widths, `PutFields`
    writes a list of values and `GetFields` reads it back.  The two are inverse on
    values that fit, which is the only codec argument the formats need. */
module Bytes {
  import opened Base

  datatype Width = W2 | W4 | W8 {
    function Size(): nat {
      match this case W2 => 2 case W4 => 4 case W8 => 8
    }
    function Limit(): nat {
      match this
      case W2 => 0x1_0000
      case W4 => 0x1_0000_0000
      case W8 => 0x1_0000_0000_0000_0000
    }
  }

  type Layout = seq<Width>

  function PutBigEndian(size: nat, value: nat): (wire: bytes)
    ensures |wire| == size
  {
    if size == 0 then [] else PutBigEndian(size - 1, value / 256) + [value % 256]
  }

  function GetBigEndian(wire: bytes): (value: nat) {
    if wire == [] then 0
    else 256 * GetBigEndian(wire[..|wire| - 1]) + wire[|wire| - 1]
  }

  function Power256(n: nat): nat {
    if n == 0 then 1 else 256 * Power256(n - 1)
  }

  lemma {:induction false} BigEndianInverts(size: nat, value: nat)
    requires value < Power256(size)
    ensures GetBigEndian(PutBigEndian(size, value)) == value
  {
    if size != 0 {
      BigEndianInverts(size - 1, value / 256);
      var wire := PutBigEndian(size, value);
      assert wire[..size - 1] == PutBigEndian(size - 1, value / 256);
    }
  }

  lemma {:induction false} BigEndianCanonical(wire: bytes)
    ensures GetBigEndian(wire) < Power256(|wire|)
    ensures PutBigEndian(|wire|, GetBigEndian(wire)) == wire
  {
    if wire != [] {
      var n := |wire| - 1;
      BigEndianCanonical(wire[..n]);
      var high := GetBigEndian(wire[..n]);
      assert (256 * high + wire[n]) / 256 == high;
      assert wire == wire[..n] + [wire[n]];
    }
  }

  lemma WidthLimits(w: Width)
    ensures Power256(w.Size()) == w.Limit()
  {
    assert Power256(1) == 256;
    assert Power256(2) == 0x1_0000;
    assert Power256(3) == 0x100_0000;
    assert Power256(4) == 0x1_0000_0000;
    assert Power256(5) == 0x100_0000_0000;
    assert Power256(6) == 0x1_0000_0000_0000;
    assert Power256(7) == 0x100_0000_0000_0000;
  }

  function Put(w: Width, value: nat): (wire: bytes)
    ensures |wire| == w.Size()
  {
    PutBigEndian(w.Size(), value)
  }

  function Get(w: Width, wire: bytes): (value: nat)
    requires |wire| == w.Size()
    ensures value < w.Limit()
  {
    WidthLimits(w); BigEndianCanonical(wire);
    GetBigEndian(wire)
  }

  lemma PutGet(w: Width, value: nat)
    requires value < w.Limit()
    ensures Get(w, Put(w, value)) == value
  {
    WidthLimits(w);
    BigEndianInverts(w.Size(), value);
  }

  lemma GetPut(w: Width, wire: bytes)
    requires |wire| == w.Size()
    ensures Put(w, Get(w, wire)) == wire
  {
    BigEndianCanonical(wire);
  }

  /** Where field `k` starts: the sum of the preceding widths.  The C sources write
      these sums out (`in + 28`, `out + 76`). */
  function Offset(layout: Layout, k: nat): nat
    requires k <= |layout|
  {
    if k == 0 then 0 else Offset(layout, k - 1) + layout[k - 1].Size()
  }

  function LayoutSize(layout: Layout): nat {
    Offset(layout, |layout|)
  }

  lemma {:induction false} OffsetMonotone(layout: Layout, j: nat, k: nat)
    requires j <= k <= |layout|
    ensures Offset(layout, j) <= Offset(layout, k)
  {
    if j < k {
      OffsetMonotone(layout, j, k - 1);
    }
  }

  predicate Fits(layout: Layout, values: seq<nat>) {
    && |values| == |layout|
    && forall k :: 0 <= k < |layout| ==> values[k] < layout[k].Limit()
  }

  /** The first `n` fields, one after the other. */
  function PutPrefix(layout: Layout, values: seq<nat>, n: nat): (wire: bytes)
    requires |values| == |layout| && n <= |layout|
    ensures |wire| == Offset(layout, n)
  {
    if n == 0 then [] else PutPrefix(layout, values, n - 1) + Put(layout[n - 1], values[n - 1])
  }

  function PutFields(layout: Layout, values: seq<nat>): (wire: bytes)
    requires |values| == |layout|
    ensures |wire| == LayoutSize(layout)
  {
    PutPrefix(layout, values, |layout|)
  }

  /** Field `k` of a layout, read at its offset. */
  function Field(layout: Layout, wire: bytes, k: nat): (value: nat)
    requires k < |layout| && |wire| >= LayoutSize(layout)
    ensures value < layout[k].Limit()
  {
    OffsetMonotone(layout, k + 1, |layout|);
    Get(layout[k], wire[Offset(layout, k)..Offset(layout, k + 1)])
  }

  function Field16(layout: Layout, wire: bytes, k: nat): (value: u16)
    requires k < |layout| && layout[k] == W2 && |wire| >= LayoutSize(layout)
  {
    Field(layout, wire, k)
  }

  function Field32(layout: Layout, wire: bytes, k: nat): (value: u32)
    requires k < |layout| && layout[k] == W4 && |wire| >= LayoutSize(layout)
  {
    Field(layout, wire, k)
  }

  function Field64(layout: Layout, wire: bytes, k: nat): (value: u64)
    requires k < |layout| && layout[k] == W8 && |wire| >= LayoutSize(layout)
  {
    Field(layout, wire, k)
  }

  lemma {:induction false} PrefixSlice(layout: Layout, values: seq<nat>, n: nat, k: nat)
    requires |values| == |layout| && k < n <= |layout|
    ensures Offset(layout, k + 1) <= Offset(layout, n)
    ensures PutPrefix(layout, values, n)[Offset(layout, k)..Offset(layout, k + 1)] == Put(layout[k], values[k])
    decreases n
  {
    hide Put;
    OffsetMonotone(layout, k + 1, n);
    if k < n - 1 {
      PrefixSlice(layout, values, n - 1, k);
    }
  }

  /** Reading back what was written. */
  lemma FieldOfPut(layout: Layout, values: seq<nat>, rest: bytes, k: nat)
    requires Fits(layout, values) && k < |layout|
    ensures Field(layout, PutFields(layout, values) + rest, k) == values[k]
  {
    var wire := PutFields(layout, values);
    PrefixSlice(layout, values, |layout|, k);
    assert (wire + rest)[Offset(layout, k)..Offset(layout, k + 1)] == wire[Offset(layout, k)..Offset(layout, k + 1)];
    PutGet(layout[k], values[k]);
  }

  lemma {:induction false} PrefixOfFields(layout: Layout, values: seq<nat>, wire: bytes, n: nat)
    requires |values| == |layout| && |wire| >= LayoutSize(layout) && n <= |layout|
    requires forall k :: 0 <= k < |layout| ==> Field(layout, wire, k) == values[k]
    ensures Offset(layout, n) <= |wire|
    ensures PutPrefix(layout, values, n) == wire[..Offset(layout, n)]
  {
    hide Get, Put;
    OffsetMonotone(layout, n, |layout|);
    if n != 0 {
      PrefixOfFields(layout, values, wire, n - 1);
      assert Field(layout, wire, n - 1) == values[n - 1];
      GetPut(layout[n - 1], wire[Offset(layout, n - 1)..Offset(layout, n)]);
    }
  }

  /** Writing back what was read: every wire image is canonical. */
  lemma PutOfFields(layout: Layout, values: seq<nat>, wire: bytes)
    requires |values| == |layout| && |wire| >= LayoutSize(layout)
    requires forall k :: 0 <= k < |layout| ==> Field(layout, wire, k) == values[k]
    ensures PutFields(layout, values) == wire[..LayoutSize(layout)]
  {
    PrefixOfFields(layout, values, wire, |layout|);
  }

  /** All fields of a layout. */
  function GetFields(layout: Layout, wire: bytes): (values: seq<nat>)
    requires |wire| >= LayoutSize(layout)
    ensures Fits(layout, values)
  {
    seq(|layout|, k requires 0 <= k < |layout| => Field(layout, wire, k))
  }

  lemma FieldsInvert(layout: Layout, values: seq<nat>, rest: bytes)
    requires Fits(layout, values)
    ensures GetFields(layout, PutFields(layout, values) + rest) == values
  {
    hide Field, PutFields, LayoutSize;
    forall k | 0 <= k < |layout| ensures Field(layout, PutFields(layout, values) + rest, k) == values[k] {
      FieldOfPut(layout, values, rest, k);
    }
  }

  lemma FieldsCanonical(layout: Layout, wire: bytes)
    requires |wire| >= LayoutSize(layout)
    ensures PutFields(layout, GetFields(layout, wire)) == wire[..LayoutSize(layout)]
  {
    hide Field, PutFields, LayoutSize;
    PutOfFields(layout, GetFields(layout, wire), wire);
  }

  // ---------- tables ----------

  predicate RowsFit(layout: Layout, rows: seq<seq<nat>>) {
    forall i :: 0 <= i < |rows| ==> |rows[i]| == |layout| && Fits(layout, rows[i])
  }

  /** Rows of one layout, one after the other. */
  function PutRows(layout: Layout, rows: seq<seq<nat>>): (wire: bytes)
    requires RowsFit(layout, rows)
    ensures |wire| == |rows| * LayoutSize(layout)
  {
    if rows == [] then [] else PutRows(layout, rows[..|rows| - 1]) + PutFields(layout, rows[|rows| - 1])
  }

  function GetRows(layout: Layout, wire: bytes, count: nat): (rows: seq<seq<nat>>)
    requires |wire| == count * LayoutSize(layout)
    ensures |rows| == count && RowsFit(layout, rows)
  {
    if count == 0 then []
    else
      var cut := (count - 1) * LayoutSize(layout);
      GetRows(layout, wire[..cut], count - 1) + [GetFields(layout, wire[cut..])]
  }

  lemma {:induction false} RowsInvert(layout: Layout, rows: seq<seq<nat>>)
    requires RowsFit(layout, rows)
    ensures GetRows(layout, PutRows(layout, rows), |rows|) == rows
    decreases |rows|
  {
    hide PutFields, GetFields, LayoutSize;
    if rows != [] {
      var n := |rows| - 1;
      var wire, cut := PutRows(layout, rows), n * LayoutSize(layout);
      RowsInvert(layout, rows[..n]);
      assert wire[..cut] == PutRows(layout, rows[..n]);
      assert wire[cut..] == PutFields(layout, rows[n]);
      FieldsInvert(layout, rows[n], []);
      assert PutFields(layout, rows[n]) + [] == PutFields(layout, rows[n]);
    }
  }

  lemma {:induction false} RowsCanonical(layout: Layout, wire: bytes, count: nat)
    requires |wire| == count * LayoutSize(layout)
    ensures PutRows(layout, GetRows(layout, wire, count)) == wire
    decreases count
  {
    hide PutFields, GetFields, LayoutSize;
    if count != 0 {
      var cut := (count - 1) * LayoutSize(layout);
      var rows := GetRows(layout, wire, count);
      RowsCanonical(layout, wire[..cut], count - 1);
      FieldsCanonical(layout, wire[cut..]);
      assert rows[..count - 1] == GetRows(layout, wire[..cut], count - 1);
      assert wire == wire[..cut] + wire[cut..];
      assert wire[cut..][..LayoutSize(layout)] == wire[cut..];
    }
  }
}
