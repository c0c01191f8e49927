/** CRC-32/ISO-HDLC, the checksum of section 8 of RFC 1952: reflected polynomial
    0xedb88320, register preset to all ones and complemented at the end. */
module Crc {
  import opened Base

  const POLYNOMIAL: bv32 := 0xedb88320

  function Nibble(n: int): (r: bv32)
    requires 0 <= n < 16
    ensures r & 0xf == r
  {
    if n == 0 then 0 else if n == 1 then 1 else if n == 2 then 2 else if n == 3 then 3
    else if n == 4 then 4 else if n == 5 then 5 else if n == 6 then 6 else if n == 7 then 7
    else if n == 8 then 8 else if n == 9 then 9 else if n == 10 then 10 else if n == 11 then 11
    else if n == 12 then 12 else if n == 13 then 13 else if n == 14 then 14 else 15
  }

  /** A byte widened to the 32-bit register. */
  function Widen(b: byte): bv32 {
    (Nibble(b / 16) << 4) | Nibble(b % 16)
  }

  function Half(a: bv32): bv32 { a >> 1 }

  predicate Odd(a: bv32) { a & 1 != 0 }

  function Mix(a: bv32, b: bv32): bv32 { a ^ b }

  function ShiftBit(crc: bv32): bv32 {
    Mix(Half(crc), if Odd(crc) then POLYNOMIAL else 0)
  }

  function BitsPerByte(): nat { 8 }

  function ShiftBits(crc: bv32, count: nat): bv32
    decreases count
  {
    if count == 0 then crc else ShiftBits(ShiftBit(crc), count - 1)
  }

  function Step(crc: bv32, b: byte): bv32 {
    ShiftBits(Mix(crc, Widen(b)), BitsPerByte())
  }

  function Register(data: bytes): bv32 {
    if data == [] then 0xffffffff else Step(Register(data[..|data| - 1]), data[|data| - 1])
  }

  function Complement(crc: bv32): u32 {
    Mix(crc, 0xffffffff) as int
  }

  function Checksum(data: bytes): u32 {
    Complement(Register(data))
  }

  /** The inner loop of `crc32`: mix one byte into the register, bit by bit. */
  method MixByte(crc: bv32, b: byte) returns (mixed: bv32)
    ensures mixed == Step(crc, b)
  {
    mixed := Mix(crc, Widen(b));
    ghost var start := mixed;
    for bit := 0 to BitsPerByte()
      invariant ShiftBits(start, BitsPerByte()) == ShiftBits(mixed, BitsPerByte() - bit)
    {
      mixed := ShiftBit(mixed);
    }
  }

  /** `crc32`: the loops compute the checksum. */
  method Crc32(data: bytes) returns (sum: u32)
    ensures sum == Checksum(data)
  {
    hide Step, Complement;
    var crc: bv32 := 0xffffffff;
    for i := 0 to |data|
      invariant crc == Register(data[..i])
    {
      crc := MixByte(crc, data[i]);
      assert data[..i + 1][..i] == data[..i];
    }
    assert data[..|data|] == data;
    sum := Complement(crc);
  }

  // ---------- every step is a bijection on the register ----------

  lemma NibbleInjective(m: int, n: int)
    requires 0 <= m < 16 && 0 <= n < 16 && m != n
    ensures Nibble(m) != Nibble(n)
  {}

  lemma JoinInjective(a: bv32, b: bv32, c: bv32, d: bv32)
    requires a & 0xf == a && b & 0xf == b && c & 0xf == c && d & 0xf == d
    requires a != c || b != d
    ensures (a << 4) | b != (c << 4) | d
  {}

  lemma WidenInjective(a: byte, b: byte)
    requires a != b
    ensures Widen(a) != Widen(b)
  {
    if a / 16 != b / 16 {
      NibbleInjective(a / 16, b / 16);
    } else {
      NibbleInjective(a % 16, b % 16);
    }
    JoinInjective(Nibble(a / 16), Nibble(a % 16), Nibble(b / 16), Nibble(b % 16));
  }

  lemma MixInjective(a: bv32, b: bv32, c: bv32)
    requires a != b
    ensures Mix(a, c) != Mix(b, c)
    ensures Mix(c, a) != Mix(c, b)
  {}

  /** The bit that is shifted out and the bits that stay determine a word. */
  lemma HalvesDiffer(a: bv32, b: bv32)
    requires a != b && Odd(a) == Odd(b)
    ensures Half(a) != Half(b)
  {}

  predicate TopBitSet(p: bv32) { p & 0x80000000 != 0 }

  /** A shift clears the top bit, which mixing in such a word sets. */
  lemma TopBitTells(a: bv32, b: bv32, p: bv32)
    requires TopBitSet(p)
    ensures Mix(Half(a), p) != Mix(Half(b), 0)
  {}

  /** Shifting out a bit and mixing in `p` for it is injective as soon as `p` has its top
      bit set. */
  lemma MixBitInjective(a: bv32, b: bv32, p: bv32)
    requires a != b && TopBitSet(p)
    ensures Mix(Half(a), if Odd(a) then p else 0) != Mix(Half(b), if Odd(b) then p else 0)
  {
    hide *;
    if Odd(a) == Odd(b) {
      HalvesDiffer(a, b);
      MixInjective(Half(a), Half(b), if Odd(a) then p else 0);
    } else {
      TopBitTells(a, b, p);
      TopBitTells(b, a, p);
    }
  }

  lemma ShiftBitInjective(a: bv32, b: bv32)
    requires a != b
    ensures ShiftBit(a) != ShiftBit(b)
  {
    MixBitInjective(a, b, POLYNOMIAL);
  }

  lemma {:induction false} ShiftBitsInjective(a: bv32, b: bv32, count: nat)
    requires a != b
    ensures ShiftBits(a, count) != ShiftBits(b, count)
    decreases count
  {
    if count != 0 {
      ShiftBitInjective(a, b);
      ShiftBitsInjective(ShiftBit(a), ShiftBit(b), count - 1);
    }
  }

  lemma StepShifts(crc: bv32, b: byte)
    ensures Step(crc, b) == ShiftBits(Mix(crc, Widen(b)), BitsPerByte())
  {}

  /** Distinct registers stay distinct when the same word is mixed in, and one register
      is told apart by distinct words. */
  lemma MixDistinct(a: bv32, b: bv32, w: bv32, count: nat)
    requires a != b
    ensures ShiftBits(Mix(a, w), count) != ShiftBits(Mix(b, w), count)
    ensures ShiftBits(Mix(w, a), count) != ShiftBits(Mix(w, b), count)
  {
    hide *;
    MixInjective(a, b, w);
    ShiftBitsInjective(Mix(a, w), Mix(b, w), count);
    ShiftBitsInjective(Mix(w, a), Mix(w, b), count);
  }

  lemma StepDistinctByte(crc: bv32, b: byte, b': byte)
    requires b != b'
    ensures Step(crc, b) != Step(crc, b')
  {
    hide *;
    WidenInjective(b, b');
    StepShifts(crc, b);
    StepShifts(crc, b');
    MixDistinct(Widen(b), Widen(b'), crc, BitsPerByte());
  }

  lemma StepDistinctRegister(crc: bv32, crc': bv32, b: byte)
    requires crc != crc'
    ensures Step(crc, b) != Step(crc', b)
  {
    hide *;
    StepShifts(crc, b);
    StepShifts(crc', b);
    MixDistinct(crc, crc', Widen(b), BitsPerByte());
  }

  lemma {:induction false} ByteChangesRegister(data: bytes, at: nat, b: byte)
    requires at < |data| && data[at] != b
    ensures Register(data[at := b]) != Register(data)
    decreases |data|
  {
    hide Step;
    var n := |data| - 1;
    var changed := data[at := b];
    if at < n {
      assert changed[..n] == data[..n][at := b];
      ByteChangesRegister(data[..n], at, b);
      StepDistinctRegister(Register(changed[..n]), Register(data[..n]), data[n]);
    } else {
      assert changed[..n] == data[..n];
      StepDistinctByte(Register(data[..n]), b, data[n]);
    }
  }

  lemma AsIntInjective(a: bv32, b: bv32)
    requires a != b
    ensures a as int != b as int
  {
    assert (a as int) as bv32 == a;
    assert (b as int) as bv32 == b;
  }

  lemma ComplementInjective(a: bv32, b: bv32)
    requires a != b
    ensures Complement(a) != Complement(b)
  {
    hide Mix;
    MixInjective(a, b, 0xffffffff);
    AsIntInjective(Mix(a, 0xffffffff), Mix(b, 0xffffffff));
  }

  /** Changing one byte, at any position of data of any length, changes the checksum. */
  lemma ByteChangesChecksum(data: bytes, at: nat, b: byte)
    requires at < |data| && data[at] != b
    ensures Checksum(data[at := b]) != Checksum(data)
  {
    hide Complement, Register;
    ByteChangesRegister(data, at, b);
    ComplementInjective(Register(data[at := b]), Register(data));
  }
}
