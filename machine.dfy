/** Fixed-width unsigned words as the C code uses them, little-endian byte codecs,
    bitwise AND on words, and byte stores into a buffer. */
module Machine {

  type u8 = x: int | 0 <= x < 0x100
  type u16 = x: int | 0 <= x < 0x1_0000
  type u32 = x: int | 0 <= x < 0x1_0000_0000
  type u64 = x: int | 0 <= x < 0x1_0000_0000_0000_0000

  const TWO_32: int := 0x1_0000_0000
  const TWO_64: int := 0x1_0000_0000_0000_0000

  function Pow2(k: nat): (r: nat)
    ensures r >= 1
  {
    if k == 0 then 1 else 2 * Pow2(k - 1)
  }

  function Pow256(n: nat): (r: nat)
    ensures r >= 1
  {
    if n == 0 then 1 else 256 * Pow256(n - 1)
  }

  /** The value a C conversion to a 32-bit unsigned type gives (reduction modulo 2^32). */
  function Wrap32(x: int): (r: u32)
    ensures 0 <= x < TWO_32 ==> r == x
  {
    x % TWO_32
  }

  /** The value a C conversion to a 64-bit unsigned type gives (reduction modulo 2^64). */
  function Wrap64(x: int): (r: u64)
    ensures 0 <= x < TWO_64 ==> r == x
  {
    x % TWO_64
  }

  function Wrap16(x: int): (r: u16)
    ensures 0 <= x < 0x1_0000 ==> r == x
  {
    x % 0x1_0000
  }

  function Wrap8(x: int): (r: u8)
    ensures 0 <= x < 0x100 ==> r == x
  {
    x % 0x100
  }

  /** Each conversion changes its argument by a multiple of the modulus and
      yields the one representative in range. */
  lemma WrapDifference(x: int)
    ensures (x - Wrap32(x)) % TWO_32 == 0 && (x - Wrap64(x)) % TWO_64 == 0
    ensures (x - Wrap16(x)) % 0x1_0000 == 0 && (x - Wrap8(x)) % 0x100 == 0
  {
    ModCongruent(x, TWO_32);
    ModCongruent(x, TWO_64);
    ModCongruent(x, 0x1_0000);
    ModCongruent(x, 0x100);
  }

  lemma ModCongruent(x: int, m: int)
    requires m > 0
    ensures (x - x % m) % m == 0
  {
    assert x - x % m == m * (x / m);
    LemmaModUnique(x - x % m, m, x / m, 0);
  }

  // ---------------------------------------------------------------------------
  // Little-endian codecs

  /** The n bytes that hold v in little-endian order (least significant byte first). */
  function LE(v: nat, n: nat): (r: seq<u8>)
    requires v < Pow256(n)
    ensures |r| == n
  {
    if n == 0 then [] else [v % 256] + LE(v / 256, n - 1)
  }

  /** The unsigned value a little-endian byte string denotes. */
  function FromLE(s: seq<u8>): (v: nat)
    ensures v < Pow256(|s|)
  {
    if s == [] then 0 else s[0] + 256 * FromLE(s[1..])
  }

  lemma {:induction false} FromLEOfLE(v: nat, n: nat)
    requires v < Pow256(n)
    ensures FromLE(LE(v, n)) == v
  {
    if n > 0 {
      FromLEOfLE(v / 256, n - 1);
      assert LE(v, n)[1..] == LE(v / 256, n - 1);
    }
  }

  lemma {:induction false} LEOfFromLE(s: seq<u8>)
    ensures LE(FromLE(s), |s|) == s
  {
    if s != [] {
      LEOfFromLE(s[1..]);
      assert (s[0] + 256 * FromLE(s[1..])) / 256 == FromLE(s[1..]);
    }
  }

  /** Little-endian n-byte word read at byte offset off. */
  function ReadLE(s: seq<u8>, off: nat, n: nat): (v: nat)
    requires off + n <= |s|
    ensures v < Pow256(n)
  {
    FromLE(s[off..off + n])
  }

  /** A read only depends on the bytes it covers. */
  lemma ReadLEFrame(s: seq<u8>, t: seq<u8>, off: nat, n: nat)
    requires off + n <= |s| && off + n <= |t|
    requires forall i :: off <= i < off + n ==> s[i] == t[i]
    ensures ReadLE(s, off, n) == ReadLE(t, off, n)
  {
    assert s[off..off + n] == t[off..off + n];
  }

  // ---------------------------------------------------------------------------
  // Byte buffers

  function Zeros(n: nat): (r: seq<u8>)
    ensures |r| == n
  {
    seq(n, _ => 0)
  }

  lemma ZerosAreZero(n: nat)
    ensures forall i :: 0 <= i < n ==> Zeros(n)[i] == 0
  {
  }

  /** s with the bytes at [off, off + |b|) replaced by b (a memcpy or a field store). */
  function Splice(s: seq<u8>, off: nat, b: seq<u8>): (r: seq<u8>)
    requires off + |b| <= |s|
    ensures |r| == |s|
  {
    s[..off] + b + s[off + |b|..]
  }

  /** Byte by byte, Splice takes b inside [off, off + |b|) and s elsewhere. */
  lemma SpliceAt(s: seq<u8>, off: nat, b: seq<u8>)
    requires off + |b| <= |s|
    ensures forall i :: 0 <= i < |s| ==> Splice(s, off, b)[i] == if off <= i < off + |b| then b[i - off] else s[i]
  {
  }

  /** s with an n-byte little-endian field at off set to v. */
  function Put(s: seq<u8>, off: nat, n: nat, v: nat): (r: seq<u8>)
    requires off + n <= |s| && v < Pow256(n)
    ensures |r| == |s|
  {
    Splice(s, off, LE(v, n))
  }

  /** The field reads back as the value stored. */
  lemma PutRead(s: seq<u8>, off: nat, n: nat, v: nat)
    requires off + n <= |s| && v < Pow256(n)
    ensures ReadLE(Put(s, off, n, v), off, n) == v
  {
    assert Put(s, off, n, v)[off..off + n] == LE(v, n);
    FromLEOfLE(v, n);
  }

  /** Bytes outside the field are left as they were. */
  lemma PutOutside(s: seq<u8>, off: nat, n: nat, v: nat)
    requires off + n <= |s| && v < Pow256(n)
    ensures forall i :: 0 <= i < |s| && !(off <= i < off + n) ==> Put(s, off, n, v)[i] == s[i]
  {
    SpliceAt(s, off, LE(v, n));
  }

  /** A field store leaves every read of other bytes as it was. */
  lemma PutFrame(s: seq<u8>, off: nat, n: nat, v: nat, off2: nat, n2: nat)
    requires off + n <= |s| && v < Pow256(n) && off2 + n2 <= |s|
    requires off2 + n2 <= off || off + n <= off2
    ensures ReadLE(Put(s, off, n, v), off2, n2) == ReadLE(s, off2, n2)
  {
    PutOutside(s, off, n, v);
    ReadLEFrame(Put(s, off, n, v), s, off2, n2);
  }

  /** Sets every byte of a to 0, as memset(a, 0, sizeof a) does. */
  method ZeroFill(a: array<u8>)
    modifies a
    ensures a[..] == Zeros(a.Length)
  {
    forall i | 0 <= i < a.Length {
      a[i] := 0;
    }
  }

  /** Stores b into a at offset off, as memcpy does. */
  method Store(a: array<u8>, off: nat, b: seq<u8>)
    requires off + |b| <= a.Length
    modifies a
    ensures a[..] == Splice(old(a[..]), off, b)
  {
    forall i | 0 <= i < |b| {
      a[off + i] := b[i];
    }
    SpliceAt(old(a[..]), off, b);
  }

  /** Stores v as an n-byte little-endian field at offset off. */
  method StoreLE(a: array<u8>, off: nat, n: nat, v: nat)
    requires off + n <= a.Length && v < Pow256(n)
    modifies a
    ensures a[..] == Put(old(a[..]), off, n, v)
  {
    Store(a, off, LE(v, n));
  }

  // ---------------------------------------------------------------------------
  // Bitwise operations on unsigned words

  /** Bitwise AND of the low w bits of a and b. */
  function BitAnd(a: nat, b: nat, w: nat): (r: nat)
    ensures r < Pow2(w)
  {
    if w == 0 then 0
    else (if a % 2 == 1 && b % 2 == 1 then 1 else 0) + 2 * BitAnd(a / 2, b / 2, w - 1)
  }

  lemma {:induction false} BitAndZero(x: nat, w: nat)
    ensures BitAnd(x, 0, w) == 0
  {
    if w > 0 {
      BitAndZero(x / 2, w - 1);
    }
  }

  /** Testing bit 0: x & 1 is the parity of x. */
  lemma BitAndOne(x: nat, w: nat)
    requires w > 0
    ensures BitAnd(x, 1, w) == x % 2
  {
    BitAndZero(x / 2, w - 1);
  }

  /** C's ~ on a 32-bit unsigned word: the result shares no set bit with x,
      and together the two fill all 32 bits. */
  function BitNot32(x: u32): (r: u32)
    ensures BitAnd(x, r, 32) == 0
    ensures x + r == TWO_32 - 1
  {
    Pow2Of32();
    BitAndComplement(x, 32);
    TWO_32 - 1 - x
  }

  /** x and its w-bit complement have no bit in common. */
  lemma {:induction false} BitAndComplement(x: nat, w: nat)
    requires x < Pow2(w)
    ensures BitAnd(x, Pow2(w) - 1 - x, w) == 0
  {
    if w > 0 {
      PowSplit(w);
      var y := Pow2(w) - 1 - x;
      assert y % 2 != x % 2;
      assert y / 2 == Pow2(w - 1) - 1 - x / 2;
      BitAndComplement(x / 2, w - 1);
    }
  }

  lemma {:induction false} BitAndAllOnes(x: nat, w: nat)
    requires x < Pow2(w)
    ensures BitAnd(x, Pow2(w) - 1, w) == x
  {
    if w > 0 {
      assert (Pow2(w) - 1) % 2 == 1;
      assert (Pow2(w) - 1) / 2 == Pow2(w - 1) - 1;
      BitAndAllOnes(x / 2, w - 1);
    }
  }

  lemma Pow2Of32()
    ensures Pow2(32) == TWO_32
  {
    assert Pow2(8) == 0x100;
    assert Pow2(16) == 0x1_0000;
    assert Pow2(24) == 0x100_0000;
  }

  lemma PowSplit(k: nat)
    requires k > 0
    ensures Pow2(k) == 2 * Pow2(k - 1)
  {
  }

  lemma ModTwice(x: nat, k: nat)
    requires k > 0
    ensures x % Pow2(k) == x % 2 + 2 * ((x / 2) % Pow2(k - 1))
  {
    var m := Pow2(k - 1);
    var q := x / 2;
    assert x == 2 * q + x % 2;
    assert q == m * (q / m) + q % m;
    assert x == 2 * m * (q / m) + (x % 2 + 2 * (q % m));
    assert 0 <= x % 2 + 2 * (q % m) < 2 * m;
    PowSplit(k);
    LemmaModUnique(x, 2 * m, q / m, x % 2 + 2 * (q % m));
  }

  lemma LemmaModUnique(x: int, m: int, q: int, r: int)
    requires m > 0 && 0 <= r < m && x == m * q + r
    ensures x % m == r
  {
    var d := x / m;
    assert m * d + x % m == x;
    assert m * (q - d) == x % m - r;
    if q - d >= 1 {
      assert false;
    } else if q - d <= -1 {
      assert false;
    }
  }

  /** x rounded down to a multiple of m is a multiple of m. */
  lemma RoundDownIsMultiple(x: nat, m: nat)
    requires m > 0
    ensures (x - x % m) % m == 0
  {
    var q := x / m;
    assert x - x % m == m * q;
    LemmaModUnique(x - x % m, m, q, 0);
  }

  /** Clearing the low k bits of an unsigned w-bit word with the mask ~(2^k - 1)
      rounds it down to a multiple of 2^k. */
  lemma BitAndClearsLowBits(x: nat, k: nat, w: nat)
    requires k <= w && x < Pow2(w)
    ensures Pow2(k) <= Pow2(w)
    ensures BitAnd(x, Pow2(w) - Pow2(k), w) == x - x % Pow2(k)
  {
    BitAndHighMask(x, k, w);
    LowBitsIsMod(x, k);
  }

  /** The value of the low k bits of x, bit by bit. */
  function LowBits(x: nat, k: nat): nat
  {
    if k == 0 then 0 else x % 2 + 2 * LowBits(x / 2, k - 1)
  }

  lemma {:induction false} LowBitsIsMod(x: nat, k: nat)
    ensures LowBits(x, k) == x % Pow2(k)
  {
    if k > 0 {
      LowBitsIsMod(x / 2, k - 1);
      ModTwice(x, k);
    }
  }

  lemma {:induction false} BitAndHighMask(x: nat, k: nat, w: nat)
    requires k <= w && x < Pow2(w)
    ensures Pow2(k) <= Pow2(w)
    ensures BitAnd(x, Pow2(w) - Pow2(k), w) == x - LowBits(x, k)
  {
    PowMono(k, w);
    if k == 0 {
      assert Pow2(k) == 1 && LowBits(x, k) == 0;
      BitAndAllOnes(x, w);
      assert BitAnd(x, Pow2(w) - Pow2(k), w) == BitAnd(x, Pow2(w) - 1, w);
    } else {
      PowSplit(k);
      PowSplit(w);
      var c := Pow2(w - 1) - Pow2(k - 1);
      assert Pow2(w) - Pow2(k) == 2 * c;
      BitAndHighMask(x / 2, k - 1, w - 1);
      HighMaskStep(x, k, w, c, Pow2(w) - Pow2(k));
    }
  }

  /** The step of BitAndHighMask from x / 2 and k - 1 to x and k. */
  lemma HighMaskStep(x: nat, k: nat, w: nat, c: nat, m: nat)
    requires k > 0 && w > 0 && m == 2 * c
    requires BitAnd(x / 2, c, w - 1) == x / 2 - LowBits(x / 2, k - 1)
    ensures BitAnd(x, m, w) == x - LowBits(x, k)
  {
    BitAndEvenMask(x, c, w, LowBits(x / 2, k - 1));
  }

  /** One bit of BitAndHighMask: an even mask clears bit 0 and ands the rest. */
  lemma BitAndEvenMask(x: nat, c: nat, w: nat, low: int)
    requires w > 0 && BitAnd(x / 2, c, w - 1) == x / 2 - low
    ensures BitAnd(x, 2 * c, w) == x - (x % 2 + 2 * low)
  {
    Halve(c);
    assert BitAnd(x, 2 * c, w) == 2 * BitAnd(x / 2, c, w - 1);
    assert x == 2 * (x / 2) + x % 2;
  }

  lemma Halve(c: nat)
    ensures (2 * c) % 2 == 0 && (2 * c) / 2 == c
  {
  }

  lemma {:induction false} PowMono(k: nat, w: nat)
    requires k <= w
    ensures Pow2(k) <= Pow2(w)
  {
    if k < w {
      PowMono(k, w - 1);
    }
  }

  // ---------------------------------------------------------------------------
  // Layout of C structures

  /** A member of a C structure: its byte offset and its size. */
  datatype Field = Field(offset: nat, size: nat) {
    /** The offset just past the member. */
    function End(): nat
    {
      offset + size
    }
  }

  /** The member declared right after prev in a structure with no padding
      between members (a packed one, or one whose members are all naturally
      aligned). */
  function After(prev: Field, size: nat): Field
  {
    Field(prev.End(), size)
  }

  /** The member starts at a multiple of its own size, so a C compiler puts no
      padding before it. */
  predicate NaturallyAligned(f: Field)
  {
    f.size > 0 && f.offset % f.size == 0
  }
}
