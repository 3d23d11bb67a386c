/**
  The three hand-written unsigned LEB128 readers of the build scripts
  (WebAssembly Core Specification, section 5.2.2).

  `ReadAt` is the reference reading; each reader is a loop proved equal to it.
*/
module Leb128 {
  import opened Bits
  import opened Common

  /** Either the reader raised or returned nothing, or it read `value` and the
      following offset is `next`. */
  datatype Reading = Malformed | Read(value: nat, next: nat)

  function Pow128(n: nat): (p: nat)
    ensures p > 0
  {
    if n == 0 then 1 else 128 * Pow128(n - 1)
  }

  /** Reference: the integer of at most `limit` bytes at `offset`, least
      significant group first, ended by the first byte below 0x80. */
  function ReadAt(data: Bytes, offset: nat, limit: nat): (r: Reading)
    ensures r.Read? ==> offset < r.next <= |data| && r.next - offset <= limit
    decreases |data| - offset
  {
    if limit == 0 || offset >= |data| then Malformed
    else if data[offset] < 128 then Read(data[offset], offset + 1)
    else match ReadAt(data, offset + 1, limit - 1)
         case Malformed => Malformed
         case Read(v, next) => Read(data[offset] - 128 + 128 * v, next)
  }

  lemma Shl7(a: nat, n: nat)
    ensures Shl(a, n + 7) == Shl(128 * a, n)
  {
    ShlTwice(a, 7, n);
    assert Shl(a, 1) == 2 * a;
    assert Shl(a, 3) == 8 * a;
    assert Shl(a, 5) == 32 * a;
    assert Shl(a, 7) == 128 * a;
  }

  /** What is left to read once `value` holds the bits below `shift`. */
  function Resume(value: nat, shift: nat, rest: Reading): Reading {
    match rest
    case Malformed => Malformed
    case Read(v, next) => Read(value + Shl(v, shift), next)
  }

  lemma ResumeStart(rest: Reading)
    ensures Shl(1, 0) == 1 && Resume(0, 0, rest) == rest
  {
  }

  lemma ReadEnd(value: nat, shift: nat, data: Bytes, offset: nat, limit: nat)
    requires limit == 0 || offset >= |data|
    ensures Resume(value, shift, ReadAt(data, offset, limit)) == Malformed
  {
  }

  /** One byte moves seven bits from the rest of the reading into `value`. */
  lemma ResumeStep(value: nat, shift: nat, data: Bytes, offset: nat, limit: nat)
    requires offset < |data| && value < Shl(1, shift) && limit > 0
    ensures var value' := BitOr(value, Shl(data[offset] % 128, shift));
            && value' < Shl(1, shift + 7)
            && Resume(value, shift, ReadAt(data, offset, limit)) ==
               if data[offset] < 128 then Read(value', offset + 1)
               else Resume(value', shift + 7, ReadAt(data, offset + 1, limit - 1))
  {
    hide Shl, BitOr;
    var group: nat := data[offset] % 128;
    OrDisjoint(value, group, shift);
    Shl7(1, shift);
    ShlAdd(group, 127 - group, shift);
    ShlAdd(127, 1, shift);
    match ReadAt(data, offset + 1, limit - 1)
    case Malformed =>
    case Read(v, next) =>
      Shl7(v, shift);
      ShlAdd(group, 128 * v, shift);
  }

  /** scripts/build.py: stops once the shift has passed 63. */
  method Uleb(data: Bytes, start: nat) returns (r: Reading)
    ensures r == ReadAt(data, start, 10)
  {
    hide ReadAt, Shl, BitOr, Resume;
    var value: nat, shift: nat, offset: nat := 0, 0, start;
    ResumeStart(ReadAt(data, start, 10));
    while offset < |data|
      invariant shift % 7 == 0 && 0 <= shift <= 63 && value < Shl(1, shift)
      invariant ReadAt(data, start, 10) == Resume(value, shift, ReadAt(data, offset, 10 - shift / 7))
      decreases |data| - offset
    {
      ResumeStep(value, shift, data, offset, 10 - shift / 7);
      var b := data[offset];
      offset := offset + 1;
      value := BitOr(value, Shl(b % 128, shift));
      if b < 128 {
        return Read(value, offset);
      }
      shift := shift + 7;
      if shift > 63 {
        ReadEnd(value, shift, data, offset, 0);
        return Malformed;
      }
    }
    ReadEnd(value, shift, data, offset, 10 - shift / 7);
    return Malformed;
  }

  /** scripts/audit_compiler_cache.py: tests the shift before each byte. */
  method ReadUleb(data: Bytes, start: nat) returns (r: Reading)
    ensures r == ReadAt(data, start, 10)
  {
    hide ReadAt, Shl, BitOr, Resume;
    var value: nat, shift: nat, offset: nat := 0, 0, start;
    ResumeStart(ReadAt(data, start, 10));
    while offset < |data| && shift <= 63
      invariant shift % 7 == 0 && 0 <= shift <= 70 && value < Shl(1, shift)
      invariant ReadAt(data, start, 10) == Resume(value, shift, ReadAt(data, offset, 10 - shift / 7))
      decreases |data| - offset
    {
      ResumeStep(value, shift, data, offset, 10 - shift / 7);
      var b := data[offset];
      offset := offset + 1;
      value := BitOr(value, Shl(b % 128, shift));
      if b < 128 {
        return Read(value, offset);
      }
      shift := shift + 7;
    }
    ReadEnd(value, shift, data, offset, 10 - shift / 7);
    return Malformed;
  }

  /** The canonical (shortest) encoding. */
  function Encode(v: nat): (code: Bytes)
    ensures |code| > 0
  {
    if v < 128 then [v] else [v % 128 + 128] + Encode(v / 128)
  }

  lemma {:induction false} Bounded(data: Bytes, offset: nat, limit: nat)
    requires ReadAt(data, offset, limit).Read?
    ensures ReadAt(data, offset, limit).value < Pow128(ReadAt(data, offset, limit).next - offset)
    decreases limit
  {
    if data[offset] >= 128 {
      Bounded(data, offset + 1, limit - 1);
    } else {
      assert Pow128(1) == 128 * Pow128(0);
    }
  }

  lemma {:induction false} Pow128Monotone(m: nat, n: nat)
    requires m <= n
    ensures Pow128(m) <= Pow128(n)
  {
    if m < n { Pow128Monotone(m, n - 1); }
  }

  lemma Pow128Is(n: nat)
    ensures Pow128(n) == Pow2(7 * n)
  {
    if n > 0 {
      Pow128Is(n - 1);
      Pow2Sum(7, 7 * (n - 1));
      assert Pow2(7) == 128 by { assert Pow2(4) == 16; }
    }
  }

  /** A ten-byte reading stays below 2^70, a five-byte one below 2^35. */
  lemma ReadingBounds(data: Bytes, offset: nat, limit: nat)
    requires ReadAt(data, offset, limit).Read?
    ensures ReadAt(data, offset, limit).value < Pow2(7 * limit)
  {
    Bounded(data, offset, limit);
    Pow128Monotone(ReadAt(data, offset, limit).next - offset, limit);
    Pow128Is(limit);
  }

  /** A tighter byte limit only removes the longer encodings. */
  lemma {:induction false} Restriction(data: Bytes, offset: nat, short: nat, long: nat)
    requires short <= long
    ensures ReadAt(data, offset, short) ==
            match ReadAt(data, offset, long)
            case Malformed => Malformed
            case Read(v, next) => if next - offset <= short then Read(v, next) else Malformed
    decreases short
  {
    if short > 0 && offset < |data| && data[offset] >= 128 {
      Restriction(data, offset + 1, short - 1, long - 1);
    }
  }

  /** An encoding fits `limit` bytes exactly when its value fits 7 * limit bits. */
  lemma {:induction false} EncodeLength(v: nat, limit: nat)
    requires limit > 0
    ensures |Encode(v)| <= limit <==> v < Pow128(limit)
  {
    assert Pow128(limit) == 128 * Pow128(limit - 1);
    if v >= 128 {
      if limit == 1 {
        assert Pow128(0) == 1;
      } else {
        EncodeLength(v / 128, limit - 1);
      }
    } else {
      assert Pow128(limit - 1) >= 1;
    }
  }

  /** Reading inverts canonical encoding wherever it stands in the data. */
  lemma {:induction false} RoundTrip(before: Bytes, v: nat, after: Bytes, limit: nat)
    requires |Encode(v)| <= limit
    ensures ReadAt(before + Encode(v) + after, |before|, limit) == Read(v, |before| + |Encode(v)|)
    decreases v
  {
    var data := before + Encode(v) + after;
    assert data[|before|] == Encode(v)[0];
    if v >= 128 {
      var head := [Encode(v)[0]];
      assert data == (before + head) + Encode(v / 128) + after;
      RoundTrip(before + head, v / 128, after, limit - 1);
    }
  }

  /** No encoding of a value is shorter than the canonical one. */
  lemma {:induction false} CanonicalShortest(data: Bytes, offset: nat, limit: nat)
    requires ReadAt(data, offset, limit).Read?
    ensures |Encode(ReadAt(data, offset, limit).value)| <= ReadAt(data, offset, limit).next - offset
  {
    Bounded(data, offset, limit);
    var r := ReadAt(data, offset, limit);
    EncodeLength(r.value, r.next - offset);
  }

  /** A reading that stays inside data[lo..hi] is the same reading of that slice alone. */
  lemma {:induction false} ReadSlice(data: Bytes, lo: nat, hi: nat, offset: nat, limit: nat)
    requires lo <= hi <= |data| && lo <= offset
    ensures ReadAt(data[lo..hi], offset - lo, limit) ==
            match ReadAt(data, offset, limit)
            case Malformed => Malformed
            case Read(v, next) => if next <= hi then Read(v, next - lo) else Malformed
    decreases limit
  {
    if limit > 0 && offset < hi && data[offset] >= 128 {
      ReadSlice(data, lo, hi, offset + 1, limit - 1);
    }
  }
}
