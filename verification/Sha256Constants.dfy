/** Where the constants of SHA-256 come from. */
module Sha256Constants {
  import opened Sha256

  /** `q` is the cube root of `p` in units of 2^-32, rounded down, and the bits are those after the point. */
  predicate CubeRoot(p: nat, bits: Word, q: nat) {
    && q * q * q <= p * 0x1_0000_0000_0000_0000_0000_0000 < (q + 1) * (q + 1) * (q + 1)
    && bits as nat == q % 0x1_0000_0000
  }

  predicate SquareRoot(p: nat, bits: Word, q: nat) {
    && q * q <= p * 0x1_0000_0000_0000_0000 < (q + 1) * (q + 1)
    && bits as nat == q % 0x1_0000_0000
  }

  ghost predicate FromCubeRoots(words: seq<Word>, primes: seq<nat>) {
    |words| == |primes| && forall i | 0 <= i < |words| :: FromCubeRoot(primes[i], words[i])
  }

  ghost predicate FromCubeRoot(p: nat, bits: Word) { exists q :: CubeRoot(p, bits, q) }

  lemma Root(p: nat, bits: Word, q: nat)
    requires CubeRoot(p, bits, q)
    ensures FromCubeRoot(p, bits)
  {
  }

  lemma EightRoots(w: seq<Word>, p: seq<nat>)
    requires |w| == |p| == 8
    requires FromCubeRoot(p[0], w[0]) && FromCubeRoot(p[1], w[1]) && FromCubeRoot(p[2], w[2]) && FromCubeRoot(p[3], w[3])
    requires FromCubeRoot(p[4], w[4]) && FromCubeRoot(p[5], w[5]) && FromCubeRoot(p[6], w[6]) && FromCubeRoot(p[7], w[7])
    ensures FromCubeRoots(w, p)
  {
    hide FromCubeRoot;
  }

  lemma RowsTogether(a: seq<Word>, p: seq<nat>, b: seq<Word>, q: seq<nat>)
    requires FromCubeRoots(a, p) && FromCubeRoots(b, q)
    ensures FromCubeRoots(a + b, p + q)
  {
    hide FromCubeRoot;
  }

  lemma Primes0()
    ensures FromCubeRoots(Row0(), [2, 3, 5, 7, 11, 13, 17, 19])
  {
    hide FromCubeRoot, FromCubeRoots;
    Root(2, 0x428a2f98, 0x1_428a2f98);
    Root(3, 0x71374491, 0x1_71374491);
    Root(5, 0xb5c0fbcf, 0x1_b5c0fbcf);
    Root(7, 0xe9b5dba5, 0x1_e9b5dba5);
    Root(11, 0x3956c25b, 0x2_3956c25b);
    Root(13, 0x59f111f1, 0x2_59f111f1);
    Root(17, 0x923f82a4, 0x2_923f82a4);
    Root(19, 0xab1c5ed5, 0x2_ab1c5ed5);
    EightRoots(Row0(), [2, 3, 5, 7, 11, 13, 17, 19]);
  }

  lemma Primes1()
    ensures FromCubeRoots(Row1(), [23, 29, 31, 37, 41, 43, 47, 53])
  {
    hide FromCubeRoot, FromCubeRoots;
    Root(23, 0xd807aa98, 0x2_d807aa98);
    Root(29, 0x12835b01, 0x3_12835b01);
    Root(31, 0x243185be, 0x3_243185be);
    Root(37, 0x550c7dc3, 0x3_550c7dc3);
    Root(41, 0x72be5d74, 0x3_72be5d74);
    Root(43, 0x80deb1fe, 0x3_80deb1fe);
    Root(47, 0x9bdc06a7, 0x3_9bdc06a7);
    Root(53, 0xc19bf174, 0x3_c19bf174);
    EightRoots(Row1(), [23, 29, 31, 37, 41, 43, 47, 53]);
  }

  lemma Primes2()
    ensures FromCubeRoots(Row2(), [59, 61, 67, 71, 73, 79, 83, 89])
  {
    hide FromCubeRoot, FromCubeRoots;
    Root(59, 0xe49b69c1, 0x3_e49b69c1);
    Root(61, 0xefbe4786, 0x3_efbe4786);
    Root(67, 0x0fc19dc6, 0x4_0fc19dc6);
    Root(71, 0x240ca1cc, 0x4_240ca1cc);
    Root(73, 0x2de92c6f, 0x4_2de92c6f);
    Root(79, 0x4a7484aa, 0x4_4a7484aa);
    Root(83, 0x5cb0a9dc, 0x4_5cb0a9dc);
    Root(89, 0x76f988da, 0x4_76f988da);
    EightRoots(Row2(), [59, 61, 67, 71, 73, 79, 83, 89]);
  }

  lemma Primes3()
    ensures FromCubeRoots(Row3(), [97, 101, 103, 107, 109, 113, 127, 131])
  {
    hide FromCubeRoot, FromCubeRoots;
    Root(97, 0x983e5152, 0x4_983e5152);
    Root(101, 0xa831c66d, 0x4_a831c66d);
    Root(103, 0xb00327c8, 0x4_b00327c8);
    Root(107, 0xbf597fc7, 0x4_bf597fc7);
    Root(109, 0xc6e00bf3, 0x4_c6e00bf3);
    Root(113, 0xd5a79147, 0x4_d5a79147);
    Root(127, 0x06ca6351, 0x5_06ca6351);
    Root(131, 0x14292967, 0x5_14292967);
    EightRoots(Row3(), [97, 101, 103, 107, 109, 113, 127, 131]);
  }

  lemma Primes4()
    ensures FromCubeRoots(Row4(), [137, 139, 149, 151, 157, 163, 167, 173])
  {
    hide FromCubeRoot, FromCubeRoots;
    Root(137, 0x27b70a85, 0x5_27b70a85);
    Root(139, 0x2e1b2138, 0x5_2e1b2138);
    Root(149, 0x4d2c6dfc, 0x5_4d2c6dfc);
    Root(151, 0x53380d13, 0x5_53380d13);
    Root(157, 0x650a7354, 0x5_650a7354);
    Root(163, 0x766a0abb, 0x5_766a0abb);
    Root(167, 0x81c2c92e, 0x5_81c2c92e);
    Root(173, 0x92722c85, 0x5_92722c85);
    EightRoots(Row4(), [137, 139, 149, 151, 157, 163, 167, 173]);
  }

  lemma Primes5()
    ensures FromCubeRoots(Row5(), [179, 181, 191, 193, 197, 199, 211, 223])
  {
    hide FromCubeRoot, FromCubeRoots;
    Root(179, 0xa2bfe8a1, 0x5_a2bfe8a1);
    Root(181, 0xa81a664b, 0x5_a81a664b);
    Root(191, 0xc24b8b70, 0x5_c24b8b70);
    Root(193, 0xc76c51a3, 0x5_c76c51a3);
    Root(197, 0xd192e819, 0x5_d192e819);
    Root(199, 0xd6990624, 0x5_d6990624);
    Root(211, 0xf40e3585, 0x5_f40e3585);
    Root(223, 0x106aa070, 0x6_106aa070);
    EightRoots(Row5(), [179, 181, 191, 193, 197, 199, 211, 223]);
  }

  lemma Primes6()
    ensures FromCubeRoots(Row6(), [227, 229, 233, 239, 241, 251, 257, 263])
  {
    hide FromCubeRoot, FromCubeRoots;
    Root(227, 0x19a4c116, 0x6_19a4c116);
    Root(229, 0x1e376c08, 0x6_1e376c08);
    Root(233, 0x2748774c, 0x6_2748774c);
    Root(239, 0x34b0bcb5, 0x6_34b0bcb5);
    Root(241, 0x391c0cb3, 0x6_391c0cb3);
    Root(251, 0x4ed8aa4a, 0x6_4ed8aa4a);
    Root(257, 0x5b9cca4f, 0x6_5b9cca4f);
    Root(263, 0x682e6ff3, 0x6_682e6ff3);
    EightRoots(Row6(), [227, 229, 233, 239, 241, 251, 257, 263]);
  }

  lemma Primes7()
    ensures FromCubeRoots(Row7(), [269, 271, 277, 281, 283, 293, 307, 311])
  {
    hide FromCubeRoot, FromCubeRoots;
    Root(269, 0x748f82ee, 0x6_748f82ee);
    Root(271, 0x78a5636f, 0x6_78a5636f);
    Root(277, 0x84c87814, 0x6_84c87814);
    Root(281, 0x8cc70208, 0x6_8cc70208);
    Root(283, 0x90befffa, 0x6_90befffa);
    Root(293, 0xa4506ceb, 0x6_a4506ceb);
    Root(307, 0xbef9a3f7, 0x6_bef9a3f7);
    Root(311, 0xc67178f2, 0x6_c67178f2);
    EightRoots(Row7(), [269, 271, 277, 281, 283, 293, 307, 311]);
  }

  lemma EightRows(r0: seq<Word>, r1: seq<Word>, r2: seq<Word>, r3: seq<Word>, r4: seq<Word>, r5: seq<Word>, r6: seq<Word>, r7: seq<Word>,
                  p0: seq<nat>, p1: seq<nat>, p2: seq<nat>, p3: seq<nat>, p4: seq<nat>, p5: seq<nat>, p6: seq<nat>, p7: seq<nat>)
    requires FromCubeRoots(r0, p0) && FromCubeRoots(r1, p1) && FromCubeRoots(r2, p2) && FromCubeRoots(r3, p3)
    requires FromCubeRoots(r4, p4) && FromCubeRoots(r5, p5) && FromCubeRoots(r6, p6) && FromCubeRoots(r7, p7)
    ensures FromCubeRoots(r0 + r1 + r2 + r3 + r4 + r5 + r6 + r7, p0 + p1 + p2 + p3 + p4 + p5 + p6 + p7)
  {
    hide FromCubeRoots;
    RowsTogether(r0, p0, r1, p1);
    RowsTogether(r0 + r1, p0 + p1, r2, p2);
    RowsTogether(r0 + r1 + r2, p0 + p1 + p2, r3, p3);
    RowsTogether(r0 + r1 + r2 + r3, p0 + p1 + p2 + p3, r4, p4);
    RowsTogether(r0 + r1 + r2 + r3 + r4, p0 + p1 + p2 + p3 + p4, r5, p5);
    RowsTogether(r0 + r1 + r2 + r3 + r4 + r5, p0 + p1 + p2 + p3 + p4 + p5, r6, p6);
    RowsTogether(r0 + r1 + r2 + r3 + r4 + r5 + r6, p0 + p1 + p2 + p3 + p4 + p5 + p6, r7, p7);
  }

  /** Section 4.2.2 of FIPS 180-4: the round constants are the fractions of the cube roots of the first 64 primes. */
  lemma RoundConstants()
    ensures FromCubeRoots(K(),
              [2, 3, 5, 7, 11, 13, 17, 19] +
              [23, 29, 31, 37, 41, 43, 47, 53] +
              [59, 61, 67, 71, 73, 79, 83, 89] +
              [97, 101, 103, 107, 109, 113, 127, 131] +
              [137, 139, 149, 151, 157, 163, 167, 173] +
              [179, 181, 191, 193, 197, 199, 211, 223] +
              [227, 229, 233, 239, 241, 251, 257, 263] +
              [269, 271, 277, 281, 283, 293, 307, 311])
  {
    hide FromCubeRoots, Row0, Row1, Row2, Row3, Row4, Row5, Row6, Row7;
    Primes0();
    Primes1();
    Primes2();
    Primes3();
    Primes4();
    Primes5();
    Primes6();
    Primes7();
    EightRows(Row0(), Row1(), Row2(), Row3(), Row4(), Row5(), Row6(), Row7(),
              [2, 3, 5, 7, 11, 13, 17, 19],
              [23, 29, 31, 37, 41, 43, 47, 53],
              [59, 61, 67, 71, 73, 79, 83, 89],
              [97, 101, 103, 107, 109, 113, 127, 131],
              [137, 139, 149, 151, 157, 163, 167, 173],
              [179, 181, 191, 193, 197, 199, 211, 223],
              [227, 229, 233, 239, 241, 251, 257, 263],
              [269, 271, 277, 281, 283, 293, 307, 311]);
  }

  /** Section 5.3.3: the initial hash value is the fractions of the square roots of the first 8. */
  lemma InitialValue()
    ensures SquareRoot(2, INITIAL.a, 0x1_6a09e667) && SquareRoot(3, INITIAL.b, 0x1_bb67ae85) && SquareRoot(5, INITIAL.c, 0x2_3c6ef372)
    ensures SquareRoot(7, INITIAL.d, 0x2_a54ff53a) && SquareRoot(11, INITIAL.e, 0x3_510e527f) && SquareRoot(13, INITIAL.f, 0x3_9b05688c)
    ensures SquareRoot(17, INITIAL.g, 0x4_1f83d9ab) && SquareRoot(19, INITIAL.h, 0x4_5be0cd19)
  {
  }

  // ----- the functions of section 4.1.2

  /** Where `x` has a one, `y` is chosen, where it has a zero, `z`. */
  lemma Choice(x: Word, y: Word, z: Word)
    ensures x & Ch(x, y, z) == x & y && !x & Ch(x, y, z) == !x & z
  {
  }

  /** A bit is set where it is set in at least two of the three. */
  lemma Majority(x: Word, y: Word, z: Word)
    ensures Maj(x, y, z) == (x & y) | (x & z) | (y & z)
  {
  }

  /** The four mixing functions pick three places each, which one set bit shows. */
  lemma Mixing()
    ensures BigSigma0(1) == 0x4008_0400 && BigSigma1(1) == 0x0420_0080
    ensures SmallSigma0(1) == 0x0200_4000 && SmallSigma1(1) == 0x0000_a000
    ensures SmallSigma0(0x8000_0000) == 0x1100_2000 && SmallSigma1(0x8000_0000) == 0x0020_5000
  {
  }
}
