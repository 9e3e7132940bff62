/** The built-in SHA-256 against FIPS 180-4. */
module Sha256 {

  newtype Byte = x: int | 0 <= x < 256
  type Word = bv32

  // ----- FIPS 180-4, sections 4.1.2, 4.2.2 and 5.3.3

  function Rotr(x: Word, n: nat): Word
    requires n <= 32
  {
    (x >> n) | (x << (32 - n))
  }

  /** Addition modulo 2^32. */
  function Plus(x: Word, y: Word): Word { x + y }

  function Ch(x: Word, y: Word, z: Word): Word { (x & y) ^ (!x & z) }
  function Maj(x: Word, y: Word, z: Word): Word { (x & y) ^ (x & z) ^ (y & z) }
  function BigSigma0(x: Word): Word { Rotr(x, 2) ^ Rotr(x, 13) ^ Rotr(x, 22) }
  function BigSigma1(x: Word): Word { Rotr(x, 6) ^ Rotr(x, 11) ^ Rotr(x, 25) }
  function SmallSigma0(x: Word): Word { Rotr(x, 7) ^ Rotr(x, 18) ^ (x >> 3) }
  function SmallSigma1(x: Word): Word { Rotr(x, 17) ^ Rotr(x, 19) ^ (x >> 10) }

  function Row0(): (row: seq<Word>)
    ensures |row| == 8
  {
    [0x428a2f98, 0x71374491, 0xb5c0fbcf, 0xe9b5dba5, 0x3956c25b, 0x59f111f1, 0x923f82a4, 0xab1c5ed5]
  }

  function Row1(): (row: seq<Word>)
    ensures |row| == 8
  {
    [0xd807aa98, 0x12835b01, 0x243185be, 0x550c7dc3, 0x72be5d74, 0x80deb1fe, 0x9bdc06a7, 0xc19bf174]
  }

  function Row2(): (row: seq<Word>)
    ensures |row| == 8
  {
    [0xe49b69c1, 0xefbe4786, 0x0fc19dc6, 0x240ca1cc, 0x2de92c6f, 0x4a7484aa, 0x5cb0a9dc, 0x76f988da]
  }

  function Row3(): (row: seq<Word>)
    ensures |row| == 8
  {
    [0x983e5152, 0xa831c66d, 0xb00327c8, 0xbf597fc7, 0xc6e00bf3, 0xd5a79147, 0x06ca6351, 0x14292967]
  }

  function Row4(): (row: seq<Word>)
    ensures |row| == 8
  {
    [0x27b70a85, 0x2e1b2138, 0x4d2c6dfc, 0x53380d13, 0x650a7354, 0x766a0abb, 0x81c2c92e, 0x92722c85]
  }

  function Row5(): (row: seq<Word>)
    ensures |row| == 8
  {
    [0xa2bfe8a1, 0xa81a664b, 0xc24b8b70, 0xc76c51a3, 0xd192e819, 0xd6990624, 0xf40e3585, 0x106aa070]
  }

  function Row6(): (row: seq<Word>)
    ensures |row| == 8
  {
    [0x19a4c116, 0x1e376c08, 0x2748774c, 0x34b0bcb5, 0x391c0cb3, 0x4ed8aa4a, 0x5b9cca4f, 0x682e6ff3]
  }

  function Row7(): (row: seq<Word>)
    ensures |row| == 8
  {
    [0x748f82ee, 0x78a5636f, 0x84c87814, 0x8cc70208, 0x90befffa, 0xa4506ceb, 0xbef9a3f7, 0xc67178f2]
  }

  function K(): (k: seq<Word>)
    ensures |k| == 64
  {
    Row0() + Row1() + Row2() + Row3() + Row4() + Row5() + Row6() + Row7()
  }

  datatype Regs = Regs(a: Word, b: Word, c: Word, d: Word, e: Word, f: Word, g: Word, h: Word)

  const INITIAL := Regs(0x6a09e667, 0xbb67ae85, 0x3c6ef372, 0xa54ff53a, 0x510e527f, 0x9b05688c, 0x1f83d9ab, 0x5be0cd19)

  // ----- section 5.1.1: padding

  /** The least `k` with `n + 1 + k` congruent to 56 modulo 64 (in bytes). */
  function ZeroCount(n: nat): (k: nat)
    ensures (n + 1 + k) % 64 == 56 && k < 64
  {
    (119 - n % 64) % 64
  }

  function ZeroBytes(k: nat): (s: seq<Byte>)
    ensures |s| == k && forall i | 0 <= i < k :: s[i] == 0
  {
    if k == 0 then [] else ZeroBytes(k - 1) + [0]
  }

  /** `n >> (8 * i)` on an unsigned number. */
  function ShiftBytes(n: nat, i: nat): nat { if i == 0 then n else ShiftBytes(n, i - 1) / 256 }

  /** The low `k` bytes of a number, most significant first. */
  function BigEndian(n: nat, k: nat): (s: seq<Byte>)
    ensures |s| == k
  {
    if k == 0 then [] else BigEndian(n / 256, k - 1) + [(n % 256) as Byte]
  }

  /** The bit length of an `n`-byte message as the source computes it, in 64 bits. */
  function BitLength(n: nat): nat { 8 * n % 0x1_0000_0000_0000_0000 }

  function Pad(m: seq<Byte>): (msg: seq<Byte>)
    ensures |msg| == |m| + 9 + ZeroCount(|m|)
  {
    m + [0x80] + ZeroBytes(ZeroCount(|m|)) + BigEndian(BitLength(|m|), 8)
  }

  // ----- sections 5.2.1, 6.2.1 and 6.2.2: blocks, schedule, rounds

  function WordAt(msg: seq<Byte>, i: nat): Word
    requires i + 4 <= |msg|
  {
    ((msg[i] as Word) << 24) | ((msg[i + 1] as Word) << 16) | ((msg[i + 2] as Word) << 8) | (msg[i + 3] as Word)
  }

  /**
   * Word `t` of the message schedule of the block at `at`; the terms are added in the source's order,
   * the standard lists the same four modulo-2^32 terms in reverse.
   */
  function Schedule(msg: seq<Byte>, at: nat, t: nat): Word
    requires at + 64 <= |msg|
  {
    if t < 16 then WordAt(msg, at + 4 * t)
    else Plus(Plus(Plus(Schedule(msg, at, t - 16), SmallSigma0(Schedule(msg, at, t - 15))),
                   Schedule(msg, at, t - 7)),
              SmallSigma1(Schedule(msg, at, t - 2)))
  }

  function Round(r: Regs, k: Word, w: Word): Regs {
    var t1 := Plus(Plus(Plus(Plus(r.h, BigSigma1(r.e)), Ch(r.e, r.f, r.g)), k), w);
    var t2 := Plus(BigSigma0(r.a), Maj(r.a, r.b, r.c));
    Regs(Plus(t1, t2), r.a, r.b, r.c, Plus(r.d, t1), r.e, r.f, r.g)
  }

  function Rounds(start: Regs, k: seq<Word>, w: seq<Word>, t: nat): Regs
    requires t <= |k| == |w|
  {
    if t == 0 then start else Round(Rounds(start, k, w, t - 1), k[t - 1], w[t - 1])
  }

  function Schedules(msg: seq<Byte>, at: nat, n: nat): (w: seq<Word>)
    requires at + 64 <= |msg|
    ensures |w| == n
  {
    if n == 0 then [] else Schedules(msg, at, n - 1) + [Schedule(msg, at, n - 1)]
  }

  function Add(x: Regs, y: Regs): Regs {
    Regs(x.a + y.a, x.b + y.b, x.c + y.c, x.d + y.d, x.e + y.e, x.f + y.f, x.g + y.g, x.h + y.h)
  }

  /** The hash value after the first `n` blocks. */
  function HashBlocks(msg: seq<Byte>, n: nat): Regs
    requires 64 * n <= |msg|
  {
    if n == 0 then INITIAL
    else
      var prev := HashBlocks(msg, n - 1);
      Add(prev, Rounds(prev, K(), Schedules(msg, 64 * (n - 1), 64), 64))
  }

  predicate IsHexChar(c: char) { '0' <= c <= '9' || 'a' <= c <= 'f' }

  function HexDigit(x: Word): (c: char)
    ensures IsHexChar(c)
  {
    if x & 0xf < 10 then '0' + ((x & 0xf) as int) as char else 'a' + ((x & 0xf) as int - 10) as char
  }

  /** The hex digit of the four bits of `x` that start at bit `shift`. */
  function HexAt(x: Word, shift: nat): (c: char)
    requires shift <= 28
    ensures IsHexChar(c)
  {
    HexDigit(x >> shift)
  }

  /** The hex digits of the top `n` nibbles of a word, most significant first. */
  function WordHex(x: Word, n: nat): (s: string)
    requires n <= 8
    ensures |s| == n
  {
    if n == 0 then "" else WordHex(x, n - 1) + [HexAt(x, 4 * (8 - n))]
  }

  function WordsHex(words: seq<Word>): (s: string)
    ensures |s| == 8 * |words|
  {
    if words == [] then "" else WordsHex(words[..|words| - 1]) + WordHex(words[|words| - 1], 8)
  }

  function RegsHex(r: Regs): (s: string)
    ensures |s| == 64
  {
    WordsHex([r.a, r.b, r.c, r.d, r.e, r.f, r.g, r.h])
  }

  /** SHA-256 of a message, in hex. */
  function Digest(m: seq<Byte>): string {
    PadLength(m);
    RegsHex(HashBlocks(Pad(m), |Pad(m)| / 64))
  }

  lemma PadLength(m: seq<Byte>)
    ensures |Pad(m)| % 64 == 0 && |m| + 9 <= |Pad(m)| < |m| + 73
  {
    PadArithmetic(|m| + 1 + ZeroCount(|m|));
  }

  lemma PadArithmetic(n: nat)
    ensures n % 64 == 56 ==> (n + 8) % 64 == 0
  {
  }

  // ----- the implementation

  method PadMessage(payload: seq<Byte>) returns (msg: seq<Byte>)
    ensures msg == Pad(payload)
  {
    hide BitLength;
    msg := payload;
    var bitLen := BitLength(|msg|);
    msg := msg + [0x80];
    ghost var k := 0;
    while |msg| % 64 != 56
      invariant k <= ZeroCount(|payload|) && msg == payload + [0x80] + ZeroBytes(k)
      decreases ZeroCount(|payload|) - k
    {
      assert k != ZeroCount(|payload|);
      msg := msg + [0x00];
      k := k + 1;
    }
    ZeroCountLeast(|payload|, k);
    ghost var head := msg;
    var i := 7;
    while i >= 0
      invariant -1 <= i <= 7
      invariant msg == head + BigEndian(ShiftBytes(bitLen, i + 1), 7 - i)
    {
      assert ShiftBytes(bitLen, i + 1) == ShiftBytes(bitLen, i) / 256;
      msg := msg + [(ShiftBytes(bitLen, i) % 256) as Byte];
      i := i - 1;
    }
  }

  /** `ZeroCount` is the least count that fills the block up to the length field. */
  lemma ZeroCountLeast(n: nat, k: nat)
    requires (n + 1 + k) % 64 == 56
    ensures ZeroCount(n) <= k
    ensures k <= ZeroCount(n) ==> k == ZeroCount(n)
  {
    if k < ZeroCount(n) {
      var d := ZeroCount(n) - k;
      assert 0 < d < 64;
      Mod64(n + 1 + k, d);
    }
  }

  lemma Mod64(x: nat, d: nat)
    requires 0 < d < 64
    ensures (x + d) % 64 != x % 64
  {
  }

  lemma {:induction false} ScheduleAt(msg: seq<Byte>, at: nat, n: nat, t: nat)
    requires at + 64 <= |msg| && t < n
    ensures Schedules(msg, at, n)[t] == Schedule(msg, at, t)
  {
    hide Schedule;
    if t < n - 1 {
      ScheduleAt(msg, at, n - 1, t);
    }
  }

  lemma ScheduleStep(msg: seq<Byte>, at: nat, t: nat)
    requires at + 64 <= |msg| && 16 <= t
    ensures var w := Schedules(msg, at, t);
            Plus(Plus(Plus(w[t - 16], SmallSigma0(w[t - 15])), w[t - 7]), SmallSigma1(w[t - 2])) == Schedule(msg, at, t)
  {
    hide Plus, SmallSigma0, SmallSigma1, WordAt, Schedules;
    ScheduleAt(msg, at, t, t - 16);
    ScheduleAt(msg, at, t, t - 15);
    ScheduleAt(msg, at, t, t - 7);
    ScheduleAt(msg, at, t, t - 2);
  }

  method ExpandSchedule(msg: seq<Byte>, at: nat, w: array<Word>)
    requires at + 64 <= |msg| && w.Length == 64
    modifies w
    ensures w[..] == Schedules(msg, at, 64)
  {
    hide Plus, SmallSigma0, SmallSigma1, WordAt;
    for i := 0 to 16
      invariant w[..i] == Schedules(msg, at, i)
    {
      w[i] := WordAt(msg, at + 4 * i);
      assert w[..i + 1] == w[..i] + [w[i]];
      assert Schedule(msg, at, i) == WordAt(msg, at + 4 * i);
    }
    for i := 16 to 64
      invariant w[..i] == Schedules(msg, at, i)
    {
      ghost var done := w[..i];
      assert done[i - 16] == w[i - 16] && done[i - 15] == w[i - 15] && done[i - 7] == w[i - 7] && done[i - 2] == w[i - 2];
      var s0 := SmallSigma0(w[i - 15]);
      var s1 := SmallSigma1(w[i - 2]);
      ScheduleStep(msg, at, i);
      w[i] := Plus(Plus(Plus(w[i - 16], s0), w[i - 7]), s1);
      assert w[..i + 1] == w[..i] + [w[i]];
    }
    assert w[..] == w[..64];
  }

  method RunRounds(start: Regs, k: seq<Word>, w: array<Word>) returns (end: Regs)
    requires |k| == w.Length == 64
    ensures end == Rounds(start, k, w[..], 64)
  {
    hide Plus, BigSigma0, BigSigma1, Ch, Maj;
    var a, b, c, d := start.a, start.b, start.c, start.d;
    var e, f, g, hh := start.e, start.f, start.g, start.h;
    for i := 0 to 64
      invariant Regs(a, b, c, d, e, f, g, hh) == Rounds(start, k, w[..], i)
    {
      var s1 := BigSigma1(e);
      var ch := Ch(e, f, g);
      var temp1 := Plus(Plus(Plus(Plus(hh, s1), ch), k[i]), w[i]);
      var s0 := BigSigma0(a);
      var maj := Maj(a, b, c);
      var temp2 := Plus(s0, maj);
      hh := g;
      g := f;
      f := e;
      e := Plus(d, temp1);
      d := c;
      c := b;
      b := a;
      a := Plus(temp1, temp2);
    }
    end := Regs(a, b, c, d, e, f, g, hh);
  }

  method Sha256Hex(payload: seq<Byte>) returns (out: string)
    ensures out == Digest(payload)
  {
    hide Pad, Add, Rounds, Schedules, K, INITIAL;
    var h := INITIAL;
    var msg := PadMessage(payload);
    PadLength(payload);
    var w := new Word[64];
    var chunk := 0;
    while chunk < |msg|
      invariant chunk % 64 == 0 && chunk <= |msg| && |msg| % 64 == 0
      invariant h == HashBlocks(msg, chunk / 64)
    {
      ExpandSchedule(msg, chunk, w);
      var r := RunRounds(h, K(), w);
      h := Add(h, r);
      chunk := chunk + 64;
    }
    out := WriteHex([h.a, h.b, h.c, h.d, h.e, h.f, h.g, h.h]);
  }

  method WriteHex(words: seq<Word>) returns (out: string)
    ensures out == WordsHex(words)
  {
    hide HexAt;
    out := "";
    for i := 0 to |words|
      invariant out == WordsHex(words[..i])
    {
      ghost var head := out;
      ghost var n: nat := 0;
      var shift := 28;
      while shift >= 0
        invariant n <= 8 && shift == 4 * (7 - n)
        invariant out == head + WordHex(words[i], n)
        decreases 8 - n
      {
        out := out + [HexAt(words[i], shift)];
        shift := shift - 4;
        n := n + 1;
      }
      assert words[..i + 1][..i] == words[..i];
    }
    assert words[..|words|] == words;
  }

  // ----- what the result means

  predicate IsHex(s: string) { forall i | 0 <= i < |s| :: IsHexChar(s[i]) }

  lemma {:induction false} WordsHexIsHex(words: seq<Word>)
    ensures IsHex(WordsHex(words))
  {
    if words != [] {
      WordsHexIsHex(words[..|words| - 1]);
      WordHexIsHex(words[|words| - 1], 8);
    }
  }

  lemma {:induction false} WordHexIsHex(x: Word, n: nat)
    requires n <= 8
    ensures IsHex(WordHex(x, n))
  {
    hide HexAt;
    if n > 0 {
      WordHexIsHex(x, n - 1);
    }
  }

  /** The digest is 64 lowercase hex digits, whatever the message. */
  lemma DigestIsHex(m: seq<Byte>)
    ensures |Digest(m)| == 64 && IsHex(Digest(m))
  {
    PadLength(m);
    var r := HashBlocks(Pad(m), |Pad(m)| / 64);
    WordsHexIsHex([r.a, r.b, r.c, r.d, r.e, r.f, r.g, r.h]);
  }

  /** Padding fills whole blocks, and no shorter one leaves room for the mark and the length. */
  lemma PadShortest(m: seq<Byte>, size: nat)
    ensures |Pad(m)| % 64 == 0
    ensures size % 64 == 0 && size >= |m| + 9 ==> size >= |Pad(m)|
  {
    PadLength(m);
    MultipleGap(size, |Pad(m)|);
  }

  lemma MultipleGap(x: nat, y: nat)
    requires y % 64 == 0
    ensures x % 64 == 0 && x < y ==> x + 64 <= y
  {
  }

  lemma {:induction false} BytesFixNumber(m: nat, n: nat, k: nat)
    requires BigEndian(m, k) == BigEndian(n, k)
    requires ShiftBytes(m, k) == ShiftBytes(n, k) == 0
    ensures m == n
  {
    if k > 0 {
      var s, t := BigEndian(m, k), BigEndian(n, k);
      assert s[k - 1] == t[k - 1];
      assert s[..k - 1] == BigEndian(m / 256, k - 1) && t[..k - 1] == BigEndian(n / 256, k - 1);
      ShiftInside(m, k - 1);
      ShiftInside(n, k - 1);
      BytesFixNumber(m / 256, n / 256, k - 1);
    }
  }

  lemma {:induction false} ShiftInside(n: nat, i: nat)
    ensures ShiftBytes(n / 256, i) == ShiftBytes(n, i + 1)
  {
    if i > 0 {
      ShiftInside(n, i - 1);
    }
  }

  lemma EightBytes(n: nat)
    requires n < 0x1_0000_0000_0000_0000
    ensures ShiftBytes(n, 8) == 0
  {
    assert ShiftBytes(n, 1) < 0x100_0000_0000_0000;
    assert ShiftBytes(n, 2) < 0x1_0000_0000_0000;
    assert ShiftBytes(n, 3) < 0x100_0000_0000;
    assert ShiftBytes(n, 4) < 0x1_0000_0000;
    assert ShiftBytes(n, 5) < 0x100_0000;
    assert ShiftBytes(n, 6) < 0x1_0000;
    assert ShiftBytes(n, 7) < 0x100;
  }

  lemma PadEnds(m: seq<Byte>)
    ensures |m| + 9 <= |Pad(m)| && Pad(m)[..|m|] == m
    ensures Pad(m)[|Pad(m)| - 8..] == BigEndian(BitLength(|m|), 8)
  {
    hide BigEndian, BitLength, ZeroBytes;
  }

  /** Padding is injective on messages shorter than 2^61 bytes. */
  lemma PadInjective(m: seq<Byte>, n: seq<Byte>)
    requires |m| < 0x2000_0000_0000_0000 && |n| < 0x2000_0000_0000_0000
    requires Pad(m) == Pad(n)
    ensures m == n
  {
    hide Pad, BigEndian, BitLength;
    PadEnds(m);
    PadEnds(n);
    LengthsAgree(|m|, |n|);
    assert m == Pad(m)[..|m|] && n == Pad(n)[..|n|];
  }

  lemma LengthsAgree(m: nat, n: nat)
    requires m < 0x2000_0000_0000_0000 && n < 0x2000_0000_0000_0000
    requires BigEndian(BitLength(m), 8) == BigEndian(BitLength(n), 8)
    ensures m == n
  {
    hide BigEndian, ShiftBytes;
    EightBytes(BitLength(m));
    EightBytes(BitLength(n));
    BytesFixNumber(BitLength(m), BitLength(n), 8);
  }

  // ----- the digest as the store uses it

  /** The bytes of a C++ string. */
  function BytesOf(s: string): seq<Byte> { seq(|s|, i requires 0 <= i < |s| => (s[i] as int % 256) as Byte) }

  /** `stable_hash` in a build without libsodium. */
  function StableHash(s: string): string { Digest(BytesOf(s)) }

  /** A digest function whose results look like SHA-256 digests. */
  ghost predicate HexHash(h: string -> string) { forall s :: |h(s)| == 64 && IsHex(h(s)) }

  lemma StableHashIsHex()
    ensures HexHash(StableHash)
  {
    forall s ensures |StableHash(s)| == 64 && IsHex(StableHash(s)) {
      DigestIsHex(BytesOf(s));
    }
  }

  /** `has_leading_zero_nibbles`. */
  predicate LeadingZeroNibbles(hash: string, nibbles: int) {
    nibbles <= |hash| && forall i | 0 <= i < nibbles :: hash[i] == '0'
  }

  method HasLeadingZeroNibbles(hash: string, nibbles: int) returns (ok: bool)
    ensures ok == LeadingZeroNibbles(hash, nibbles)
  {
    if nibbles <= 0 {
      return true;
    }
    if nibbles > |hash| {
      return false;
    }
    for i := 0 to nibbles
      invariant forall j | 0 <= j < i :: hash[j] == '0'
    {
      if hash[i] != '0' {
        return false;
      }
    }
    return true;
  }
}
