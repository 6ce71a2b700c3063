/** The checksum of a file's content: sums that are reduced once per block are those of the
    definition, which reduces after every byte. */
module Checksums {

  const BASE := 65521
  const NMAX := 5552
  const WORD := 0x1_0000_0000

  type Byte = b: int | 0 <= b < 256

  // --- The definition in section 2.2 of RFC 1950 -----------------------------------------

  datatype Sums = Sums(s1: nat, s2: nat)

  function Step(s: Sums, b: Byte): Sums {
    var s1 := (s.s1 + b) % BASE;
    Sums(s1, (s.s2 + s1) % BASE)
  }

  function AdlerSums(data: seq<Byte>): Sums {
    if data == [] then Sums(1, 0) else Step(AdlerSums(data[..|data| - 1]), data[|data| - 1])
  }

  function Adler32(data: seq<Byte>): nat {
    AdlerSums(data).s2 * 65536 + AdlerSums(data).s1
  }

  /** The sum of the bytes, and the sum of its values after every byte. */
  function Total(data: seq<Byte>): nat {
    if data == [] then 0
    else
      var b: int := data[|data| - 1];
      Total(data[..|data| - 1]) + b
  }

  function Totals(data: seq<Byte>): nat {
    if data == [] then 0 else Totals(data[..|data| - 1]) + Total(data)
  }

  /** The definition in closed form: the sums start at 1 and 0 and count modulo 65521. */
  lemma {:induction false} AdlerClosed(data: seq<Byte>)
    ensures AdlerSums(data).s1 == (1 + Total(data)) % 65521
    ensures AdlerSums(data).s2 == (|data| + Totals(data)) % 65521
  {
    if data != [] {
      var n := |data| - 1;
      AdlerClosed(data[..n]);
      Reduced(1 + Total(data[..n]), data[n]);
      Reduced(n + Totals(data[..n]), AdlerSums(data).s1);
      Reduced(1 + Total(data), n + Totals(data[..n]));
    }
  }

  /** The checksum of the word "Wikipedia", a well-known example. */
  lemma KnownChecksum()
    ensures Adler32([0x57, 0x69, 0x6B, 0x69, 0x70, 0x65, 0x64, 0x69, 0x61]) == 0x11E60398
  {
    var data: seq<Byte> := [0x57, 0x69, 0x6B, 0x69, 0x70, 0x65, 0x64, 0x69, 0x61];
    assert data[..9][..8] == data[..8] && data[..8][..7] == data[..7] && data[..7][..6] == data[..6];
    assert data[..6][..5] == data[..5] && data[..5][..4] == data[..4] && data[..4][..3] == data[..3];
    assert data[..3][..2] == data[..2] && data[..2][..1] == data[..1] && data[..1][..0] == [];
    assert AdlerSums(data[..1]) == Sums(88, 88);
    assert AdlerSums(data[..2]) == Sums(193, 281);
    assert AdlerSums(data[..3]) == Sums(300, 581);
    assert AdlerSums(data[..4]) == Sums(405, 986);
    assert AdlerSums(data[..5]) == Sums(517, 1503);
    assert AdlerSums(data[..6]) == Sums(618, 2121);
    assert AdlerSums(data[..7]) == Sums(718, 2839);
    assert AdlerSums(data[..8]) == Sums(823, 3662);
    assert data[..8] + [data[8]] == data;
    assert AdlerSums(data) == Step(AdlerSums(data[..8]), 0x61);
  }

  // --- Unsigned arithmetic of 32 bits ------------------------------------------------------

  function Plus(a: nat, b: int): nat {
    (a + b) % WORD
  }

  lemma Reduced(a: nat, b: nat)
    ensures (a % BASE + b) % BASE == (a + b) % BASE
  {
    var k := a / BASE;
    assert a + b == (a % BASE + b) + BASE * k;
    assert ((a % BASE + b) + BASE * k) % BASE == (a % BASE + b) % BASE;
  }

  /** The sum of the numbers up to `j`. */
  function Triangle(j: nat): nat {
    if j == 0 then 0 else Triangle(j - 1) + j
  }

  lemma {:induction false} TriangleTwice(j: nat)
    ensures 2 * Triangle(j) == j * (j + 1)
  {
    if j > 0 {
      TriangleTwice(j - 1);
      assert j * (j + 1) == (j - 1) * j + 2 * j;
    }
  }

  lemma {:induction false} TriangleGrows(j: nat, k: nat)
    requires j <= k
    ensures Triangle(j) <= Triangle(k)
    decreases k
  {
    if j < k {
      TriangleGrows(j, k - 1);
    }
  }

  /** How large the sums can get `j` bytes after a reduction. */
  predicate Bounded(s1: nat, s2: nat, j: nat) {
    s1 <= BASE - 1 + 255 * j && s2 <= (BASE - 1) * (j + 1) + 255 * Triangle(j)
  }

  /** The sums stand for those of the definition. */
  predicate Agree(s1: nat, s2: nat, data: seq<Byte>) {
    s1 % BASE == AdlerSums(data).s1 && s2 % BASE == AdlerSums(data).s2
  }

  /** Up to a block's length after a reduction no sum overflows. */
  lemma NoOverflow(s1: nat, s2: nat, j: nat)
    requires Bounded(s1, s2, j) && j <= NMAX
    ensures s1 < WORD && s2 < WORD
  {
    TriangleGrows(j, NMAX);
    TriangleTwice(NMAX);
  }

  /** No longer block would do: with the most a reduction can leave, one byte more of 0xFF
      can overflow the second sum. */
  lemma BlockIsLongest()
    ensures 65520 * (NMAX + 1) + 255 * Triangle(NMAX) < 0x1_0000_0000 <= 65520 * (NMAX + 2) + 255 * Triangle(NMAX + 1)
  {
    TriangleTwice(NMAX);
    TriangleTwice(NMAX + 1);
  }

  lemma BoundedStep(s1: nat, s2: nat, j: nat, b: Byte)
    requires Bounded(s1, s2, j)
    ensures Bounded(s1 + b, s2 + (s1 + b), j + 1)
  {
  }

  lemma AgreeStep(s1: nat, s2: nat, data: seq<Byte>, b: Byte)
    requires Agree(s1, s2, data)
    ensures Agree(s1 + b, s2 + (s1 + b), data + [b])
  {
    assert (data + [b])[..|data|] == data;
    Reduced(s1, b);
    Reduced(s1 + b, s2);
    Reduced(s2, (s1 + b) % BASE);
  }

  // --- The checksum as it is computed --------------------------------------------------------

  /** What a character adds to an unsigned sum: above 127 it depends on whether `char` is
      signed. */
  function Read(b: Byte, signed: bool): int {
    if signed && b >= 128 then b - 256 else b
  }

  /** No byte is read differently from the definition. */
  predicate Plain(data: seq<Byte>, signed: bool) {
    signed ==> forall i :: 0 <= i < |data| ==> data[i] < 128
  }

  function Reduce(s: Sums): Sums {
    Sums(s.s1 % BASE, s.s2 % BASE)
  }

  /** The sums after all of the bytes, in arithmetic of 32 bits; they are reduced before the
      first byte of every block. */
  function RawSums(data: seq<Byte>, signed: bool): Sums {
    if data == [] then Sums(1, 0)
    else
      var n := |data| - 1;
      Added(BlockStart(RawSums(data[..n], signed), n), Read(data[n], signed))
  }

  function BlockStart(s: Sums, n: nat): Sums {
    if n % NMAX == 0 then Reduce(s) else s
  }

  function Added(s: Sums, b: int): Sums {
    var s1 := Plus(s.s1, b);
    Sums(s1, Plus(s.s2, s1))
  }

  function Checksum(data: seq<Byte>, signed: bool): nat {
    var s := Reduce(RawSums(data, signed));
    s.s2 * 65536 + s.s1
  }

  /** How many bytes have been added since the last reduction. */
  function SinceReduced(n: nat): nat {
    if n == 0 then 0 else (n - 1) % NMAX + 1
  }

  lemma NoWrap(s1: nat, s2: nat, j: nat, b: Byte)
    requires Bounded(s1, s2, j) && j < NMAX
    ensures Plus(s1, b) == s1 + b && Plus(s2, s1 + b) == s2 + (s1 + b)
  {
    BoundedStep(s1, s2, j, b);
    NoOverflow(s1 + b, s2 + (s1 + b), j + 1);
  }

  /** Bytes that are read as in the definition give its sums, and nothing overflows. */
  lemma {:induction false} RawSumsAgree(data: seq<Byte>, signed: bool)
    requires Plain(data, signed)
    ensures var s := RawSums(data, signed);
      Agree(s.s1, s.s2, data) && Bounded(s.s1, s.s2, SinceReduced(|data|))
  {
    if data != [] {
      var n := |data| - 1;
      RawSumsAgree(data[..n], signed);
      var s := StartAgrees(RawSums(data[..n], signed), data[..n]);
      assert data[..n] + [data[n]] == data && SinceReduced(|data|) == n % NMAX + 1;
      AddedAgrees(s, data[..n], n % NMAX, data[n]);
    }
  }

  lemma StartAgrees(s: Sums, data: seq<Byte>) returns (s': Sums)
    requires Agree(s.s1, s.s2, data) && Bounded(s.s1, s.s2, SinceReduced(|data|))
    ensures s' == BlockStart(s, |data|) && Agree(s'.s1, s'.s2, data) && Bounded(s'.s1, s'.s2, |data| % NMAX)
  {
    s' := BlockStart(s, |data|);
    if |data| % NMAX != 0 {
      assert SinceReduced(|data|) == |data| % NMAX;
    }
  }

  lemma AddedAgrees(s: Sums, data: seq<Byte>, j: nat, b: Byte)
    requires Agree(s.s1, s.s2, data) && Bounded(s.s1, s.s2, j) && j < NMAX
    ensures var s' := Added(s, b); s' == Sums(s.s1 + b, s.s2 + (s.s1 + b)) && Agree(s'.s1, s'.s2, data + [b]) && Bounded(s'.s1, s'.s2, j + 1)
  {
    AgreeStep(s.s1, s.s2, data, b);
    NoWrap(s.s1, s.s2, j, b);
    BoundedStep(s.s1, s.s2, j, b);
  }

  /** The checksum is the one of the definition, whatever the length, if no byte is read
      differently. */
  lemma PlainChecksum(data: seq<Byte>, signed: bool)
    requires Plain(data, signed)
    ensures Checksum(data, signed) == Adler32(data)
  {
    RawSumsAgree(data, signed);
  }

  // --- The loops ---------------------------------------------------------------------------

  /** The sums after `data[..pos]`, `j` bytes of it since the last reduction. */
  predicate Stands(data: seq<Byte>, signed: bool, pos: int, s1: nat, s2: nat, j: int) {
    && 0 <= pos <= |data| && 0 <= j <= NMAX && (pos - j) % NMAX == 0
    && Sums(s1, s2) == if j == 0 then Reduce(RawSums(data[..pos], signed)) else RawSums(data[..pos], signed)
  }

  lemma StandsFirst(data: seq<Byte>, signed: bool)
    ensures Stands(data, signed, 0, 1, 0, 0)
  {
    assert data[..0] == [];
  }

  lemma StandsLast(data: seq<Byte>, signed: bool, s1: nat, s2: nat, j: int)
    requires Stands(data, signed, |data|, s1, s2, j)
    ensures s1 % BASE + s2 % BASE * 65536 == Checksum(data, signed) < WORD
  {
    assert data[..|data|] == data;
  }

  lemma StandsStep(data: seq<Byte>, signed: bool, pos: nat, s1: nat, s2: nat, j: int)
    requires pos < |data| && j < NMAX && Stands(data, signed, pos, s1, s2, j)
    ensures var s1' := Plus(s1, Read(data[pos], signed));
      Stands(data, signed, pos + 1, s1', Plus(s2, s1'), j + 1)
  {
    assert data[..pos + 1][..pos] == data[..pos];
    assert pos % NMAX == 0 <==> j == 0;
  }

  /** `n` bytes are added from `pos` on; `j` have been added since the last reduction. */
  method AddBytes(data: seq<Byte>, signed: bool, pos: nat, n: nat, sum1: nat, sum2: nat, ghost j: nat) returns (s1: nat, s2: nat)
    requires pos + n <= |data| && j + n <= NMAX && Stands(data, signed, pos, sum1, sum2, j)
    ensures Stands(data, signed, pos + n, s1, s2, j + n)
  {
    s1, s2 := sum1, sum2;
    var i := 0;
    while i < n
      invariant i <= n && Stands(data, signed, pos + i, s1, s2, j + i)
    {
      StandsStep(data, signed, pos + i, s1, s2, j + i);
      s1 := Plus(s1, Read(data[pos + i], signed));
      s2 := Plus(s2, s1);
      i := i + 1;
    }
  }

  method Block(data: seq<Byte>, signed: bool, pos: nat, sum1: nat, sum2: nat) returns (s1: nat, s2: nat)
    requires pos + NMAX <= |data| && Stands(data, signed, pos, sum1, sum2, 0)
    ensures Stands(data, signed, pos + NMAX, s1, s2, 0)
  {
    s1, s2 := sum1, sum2;
    var i := 0;
    while i < NMAX / 16
      invariant 0 <= i <= NMAX / 16 && Stands(data, signed, pos + 16 * i, s1, s2, 16 * i)
    {
      s1, s2 := AddBytes(data, signed, pos + 16 * i, 16, s1, s2, 16 * i);
      i := i + 1;
    }
    s1, s2 := s1 % BASE, s2 % BASE;
  }

  /** Whatever the length and however `char` reads, the loops compute the sums above; so the
      result is the checksum of the definition unless `char` is signed and a byte is above 127. */
  method BscAdler32(data: seq<Byte>, signed: bool) returns (checksum: nat)
    ensures checksum == Checksum(data, signed) < WORD
    ensures Plain(data, signed) ==> checksum == Adler32(data)
  {
    var sum1: nat, sum2: nat, size: nat := 1, 0, |data|;
    StandsFirst(data, signed);
    while size >= NMAX
      invariant 0 <= size <= |data| && Stands(data, signed, |data| - size, sum1, sum2, 0)
    {
      sum1, sum2 := Block(data, signed, |data| - size, sum1, sum2);
      size := size - NMAX;
    }
    ghost var tail: nat := size;
    while size >= 16
      invariant 0 <= size <= tail < NMAX
      invariant tail <= |data| && Stands(data, signed, |data| - size, sum1, sum2, tail - size)
    {
      sum1, sum2 := AddBytes(data, signed, |data| - size, 16, sum1, sum2, tail - size);
      size := size - 16;
    }
    while size > 0
      invariant 0 <= size <= tail < NMAX
      invariant tail <= |data| && Stands(data, signed, |data| - size, sum1, sum2, tail - size)
    {
      sum1, sum2 := AddBytes(data, signed, |data| - size, 1, sum1, sum2, tail - size);
      size := size - 1;
    }
    StandsLast(data, signed, sum1, sum2, tail);
    sum1, sum2 := sum1 % BASE, sum2 % BASE;
    checksum := sum1 + sum2 * 65536;
    if Plain(data, signed) {
      PlainChecksum(data, signed);
    }
  }

  // --- Where `char` is signed --------------------------------------------------------------

  /** Adding a byte to a sum gives the sum of the definition exactly if the byte is below
      128, whether or not the subtraction wraps around. */
  lemma SignedByte(s1: nat, b: Byte)
    requires s1 + b < WORD
    ensures Plus(s1, Read(b, true)) % BASE == (s1 + b) % BASE <==> b < 128
  {
    var signed, exact := Plus(s1, Read(b, true)), s1 + b;
    if signed % BASE == exact % BASE {
      SameRemainder(exact, exact - signed);
    }
  }

  /** The first byte above 127 makes the checksum differ from the definition's. */
  lemma SignedTurns(data: seq<Byte>)
    requires data != [] && Plain(data[..|data| - 1], true) && data[|data| - 1] >= 128
    ensures Checksum(data, true) != Adler32(data)
  {
    var n := |data| - 1;
    RawSumsAgree(data[..n], true);
    var s := StartAgrees(RawSums(data[..n], true), data[..n]);
    AddedAgrees(s, data[..n], n % NMAX, data[n]);
    assert data[..n] + [data[n]] == data;
    NoOverflow(s.s1 + data[n], s.s2 + (s.s1 + data[n]), n % NMAX + 1);
    SignedByte(s.s1, data[n]);
    LowHalf(Reduce(RawSums(data, true)), AdlerSums(data));
  }

  lemma LowHalf(s: Sums, t: Sums)
    requires s.s1 < 65536 && t.s1 < 65536 && s.s1 != t.s1
    ensures s.s2 * 65536 + s.s1 != t.s2 * 65536 + t.s1
  {
  }

  /** Where `char` is signed the checksum agrees with the definition at every prefix of a
      file exactly if no byte of it is above 127. */
  lemma SignedAgrees(data: seq<Byte>)
    ensures (forall k :: 0 <= k <= |data| ==> Checksum(data[..k], true) == Adler32(data[..k])) <==> Plain(data, true)
  {
    if Plain(data, true) {
      forall k | 0 <= k <= |data|
        ensures Checksum(data[..k], true) == Adler32(data[..k])
      {
        PlainChecksum(data[..k], true);
      }
    } else {
      var k := FirstHigh(data);
      assert data[..k + 1][..k] == data[..k];
      SignedTurns(data[..k + 1]);
    }
  }

  lemma {:induction false} FirstHigh(data: seq<Byte>) returns (k: nat)
    requires !Plain(data, true)
    ensures k < |data| && data[k] >= 128 && Plain(data[..k], true)
  {
    k := |data| - 1;
    if !Plain(data[..k], true) {
      k := FirstHigh(data[..k]);
      assert data[..|data| - 1][..k] == data[..k];
    }
  }

  lemma SameRemainder(a: int, d: int)
    requires a % BASE == (a - d) % BASE
    ensures d % BASE == 0
  {
    var q := a / BASE - (a - d) / BASE;
    assert d == BASE * q;
  }

  /** The first such file: one byte, which is taken from the first sum instead of added. */
  lemma SignedDiffers()
    ensures Checksum([128], true) != Adler32([128])
  {
    SignedTurns([128]);
  }
}
