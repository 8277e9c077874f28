/** Known answers of RFC 1321 (section A.5): the digests of the empty message and of "abc".  The steps are computed on
    bit-vectors and carried over to the words of the model. */
module Md5Answers {
  import opened Records
  import opened Md5

  // ----- one step on numbers -----

  function Nat(x: bv32): Word { x as Word }

  lemma Back(x: bv32)
    ensures Nat(x) as bv32 == x
  {
  }

  lemma RotateAt(x: bv32, s: bv32)
    requires 0 < s < 32
    ensures RotateLeft(Nat(x), s) == Nat(Rotated(x, s))
  {
    hide Rotated;
    Back(x);
  }

  lemma SumOfFour(a: Word, f: Word, x: Word, t: Word)
    ensures Plus(Plus(Plus(a, f), x), t) == (a + f + x + t) % M
  {
  }

  lemma FAt(x: bv32, y: bv32, z: bv32)
    ensures F(Nat(x), Nat(y), Nat(z)) == Nat(AuxF(x, y, z))
  {
    hide AuxF;
    Back(x);
    Back(y);
    Back(z);
  }

  lemma GAt(x: bv32, y: bv32, z: bv32)
    ensures G(Nat(x), Nat(y), Nat(z)) == Nat(AuxG(x, y, z))
  {
    hide AuxG;
    Back(x);
    Back(y);
    Back(z);
  }

  lemma HAt(x: bv32, y: bv32, z: bv32)
    ensures H(Nat(x), Nat(y), Nat(z)) == Nat(AuxH(x, y, z))
  {
    hide AuxH;
    Back(x);
    Back(y);
    Back(z);
  }

  lemma IAt(x: bv32, y: bv32, z: bv32)
    ensures I(Nat(x), Nat(y), Nat(z)) == Nat(AuxI(x, y, z))
  {
    hide AuxI;
    Back(x);
    Back(y);
    Back(z);
  }

  /** Step `n` of round 1: `u` is the sum that is rotated, `r` the new word. */
  lemma TurnFAt(a: bv32, b: bv32, c: bv32, d: bv32, x: seq<Word>, n: nat, u: bv32, r: bv32)
    requires |x| == 16 && 0 <= n < 16
    requires Nat(u) == (Nat(a) + Nat(AuxF(b, c, d)) + x[Pick(n)] + Sine(n)) % M
    requires Nat(r) == (Nat(b) + Nat(Rotated(u, Shift(n)))) % M
    requires Steps(INIT, x, n) == State(Nat(a), Nat(b), Nat(c), Nat(d))
    ensures Steps(INIT, x, n + 1) == State(Nat(d), Nat(r), Nat(b), Nat(c))
  {
    hide F, G, H, I, AuxF, AuxG, AuxH, AuxI, Rotated, RotateLeft, Pick, Sine, Shift, Nat;
    FAt(b, c, d);
    RotateAt(u, Shift(n));
    SumOfFour(Nat(a), Nat(AuxF(b, c, d)), x[Pick(n)], Sine(n));
  }

  /** Step `n` of round 2: `u` is the sum that is rotated, `r` the new word. */
  lemma TurnGAt(a: bv32, b: bv32, c: bv32, d: bv32, x: seq<Word>, n: nat, u: bv32, r: bv32)
    requires |x| == 16 && 16 <= n < 32
    requires Nat(u) == (Nat(a) + Nat(AuxG(b, c, d)) + x[Pick(n)] + Sine(n)) % M
    requires Nat(r) == (Nat(b) + Nat(Rotated(u, Shift(n)))) % M
    requires Steps(INIT, x, n) == State(Nat(a), Nat(b), Nat(c), Nat(d))
    ensures Steps(INIT, x, n + 1) == State(Nat(d), Nat(r), Nat(b), Nat(c))
  {
    hide F, G, H, I, AuxF, AuxG, AuxH, AuxI, Rotated, RotateLeft, Pick, Sine, Shift, Nat;
    GAt(b, c, d);
    RotateAt(u, Shift(n));
    SumOfFour(Nat(a), Nat(AuxG(b, c, d)), x[Pick(n)], Sine(n));
  }

  /** Step `n` of round 3: `u` is the sum that is rotated, `r` the new word. */
  lemma TurnHAt(a: bv32, b: bv32, c: bv32, d: bv32, x: seq<Word>, n: nat, u: bv32, r: bv32)
    requires |x| == 16 && 32 <= n < 48
    requires Nat(u) == (Nat(a) + Nat(AuxH(b, c, d)) + x[Pick(n)] + Sine(n)) % M
    requires Nat(r) == (Nat(b) + Nat(Rotated(u, Shift(n)))) % M
    requires Steps(INIT, x, n) == State(Nat(a), Nat(b), Nat(c), Nat(d))
    ensures Steps(INIT, x, n + 1) == State(Nat(d), Nat(r), Nat(b), Nat(c))
  {
    hide F, G, H, I, AuxF, AuxG, AuxH, AuxI, Rotated, RotateLeft, Pick, Sine, Shift, Nat;
    HAt(b, c, d);
    RotateAt(u, Shift(n));
    SumOfFour(Nat(a), Nat(AuxH(b, c, d)), x[Pick(n)], Sine(n));
  }

  /** Step `n` of round 4: `u` is the sum that is rotated, `r` the new word. */
  lemma TurnIAt(a: bv32, b: bv32, c: bv32, d: bv32, x: seq<Word>, n: nat, u: bv32, r: bv32)
    requires |x| == 16 && 48 <= n < 64
    requires Nat(u) == (Nat(a) + Nat(AuxI(b, c, d)) + x[Pick(n)] + Sine(n)) % M
    requires Nat(r) == (Nat(b) + Nat(Rotated(u, Shift(n)))) % M
    requires Steps(INIT, x, n) == State(Nat(a), Nat(b), Nat(c), Nat(d))
    ensures Steps(INIT, x, n + 1) == State(Nat(d), Nat(r), Nat(b), Nat(c))
  {
    hide F, G, H, I, AuxF, AuxG, AuxH, AuxI, Rotated, RotateLeft, Pick, Sine, Shift, Nat;
    IAt(b, c, d);
    RotateAt(u, Shift(n));
    SumOfFour(Nat(a), Nat(AuxI(b, c, d)), x[Pick(n)], Sine(n));
  }

  // ----- from a short message to its digest -----

  lemma SpelledFour(a: Word, b: Word, c: Word, d: Word)
    ensures Spelled([a, b, c, d]) == Bytes(a) + Bytes(b) + Bytes(c) + Bytes(d)
  {
    hide Bytes;
    var four := [a, b, c, d];
    assert four[..1][..0] == [] && four[..2][..1] == four[..1] && four[..3][..2] == four[..2] && four == four[..3] + [d];
    assert Spelled(four[..1]) == Bytes(a);
    assert Spelled(four[..2]) == Bytes(a) + Bytes(b);
    assert Spelled(four[..3]) == Bytes(a) + Bytes(b) + Bytes(c);
    assert Spelled(four) == Spelled(four[..3]) + Bytes(four[3]);
  }

  /** A message of one block. */
  lemma ShortDigest(m: seq<byte>, x: seq<Word>)
    requires |Padded(m)| == 64 && Words(Padded(m)) == x
    ensures Md5Digest(m) == Output(Compress(INIT, x))
  {
    hide Compress, Output, Words, Padded;
    var p := Padded(m);
    assert p[..|p| - 64] == [] && p[|p| - 64..] == p;
    assert Blocks([]) == INIT;
    assert Blocks(p) == Compress(INIT, Words(p));
  }

  // ----- the empty message -----

  function EmptyWords(): seq<Word> {
    [0x80, 0, 0, 0, 0, 0, 0, 0, 0, 0, 0, 0, 0, 0, 0, 0]
  }

  lemma EmptyWordsAt()
    ensures |EmptyWords()| == 16
    ensures forall k :: 0 <= k < 16 ==> EmptyWords()[k] == if k == 0 then 0x80 else 0
  {
  }

  lemma EmptyStart()
    ensures Steps(INIT, EmptyWords(), 0) == State(Nat(0x67452301), Nat(0xefcdab89), Nat(0x98badcfe), Nat(0x10325476))
  {
  }

  lemma EmptyRound1()
    ensures Steps(INIT, EmptyWords(), 16) == State(Nat(0xf56c7cf1), Nat(0xd6819c6a), Nat(0x5aa53f75), Nat(0x374943a7))
  {
    hide Steps, Step, Mix, F, G, H, I, RotateLeft, Turn, Sine, Pick, Shift, EmptyWords;
    EmptyWordsAt();
    EmptyStart();
    Picks1();
    Shifts1();
    Sines1();
    TurnFAt(0x67452301, 0xefcdab89, 0x98badcfe, 0x10325476, EmptyWords(), 0, 0xd76aa4f7, 0xa5202774);
    TurnFAt(0x10325476, 0xa5202774, 0xefcdab89, 0x98badcfe, EmptyWords(), 1, 0xb6950756, 0xf59592dd);
    TurnFAt(0x98badcfe, 0xf59592dd, 0xa5202774, 0xefcdab89, EmptyWords(), 2, 0x6c23792d, 0xe7f06b23);
    TurnFAt(0xefcdab89, 0xe7f06b23, 0xf59592dd, 0xa5202774, EmptyWords(), 3, 0x971b80cc, 0x1b163203);
    TurnFAt(0xa5202774, 0x1b163203, 0xe7f06b23, 0xf59592dd, EmptyWords(), 4, 0x822dda02, 0x32033344);
    TurnFAt(0xf59592dd, 0x32033344, 0x1b163203, 0xe7f06b23, EmptyWords(), 5, 0x150fd32a, 0x2f35d494);
    TurnFAt(0xe7f06b23, 0x2f35d494, 0x32033344, 0x1b163203, EmptyWords(), 6, 0xc223e33d, 0xf5b158db);
    TurnFAt(0x1b163203, 0xf5b158db, 0x2f35d494, 0x32033344, EmptyWords(), 7, 0x3f903a98, 0x9bc13ce9);
    TurnFAt(0x32033344, 0x9bc13ce9, 0xf5b158db, 0x2f35d494, EmptyWords(), 8, 0x5139a4f9, 0x3893b991);
    TurnFAt(0x2f35d494, 0x3893b991, 0x9bc13ce9, 0xf5b158db, EmptyWords(), 9, 0x981c450e, 0xfce4a312);
    TurnFAt(0xf5b158db, 0xfce4a312, 0x3893b991, 0x9bc13ce9, EmptyWords(), 10, 0x31327285, 0xe1ef0576);
    TurnFAt(0x9bc13ce9, 0xe1ef0576, 0xfce4a312, 0x3893b991, EmptyWords(), 11, 0x1e12ce3a, 0x70768a29);
    TurnFAt(0x3893b991, 0x70768a29, 0xe1ef0576, 0xfce4a312, EmptyWords(), 12, 0x9109ebe5, 0xf56c7cf1);
    TurnFAt(0xfce4a312, 0xf56c7cf1, 0x70768a29, 0xe1ef0576, EmptyWords(), 13, 0x6b641dcc, 0x374943a7);
    TurnFAt(0xe1ef0576, 0x374943a7, 0xf56c7cf1, 0x70768a29, EmptyWords(), 14, 0xfde711ad, 0x5aa53f75);
    TurnFAt(0x70768a29, 0x5aa53f75, 0x374943a7, 0xf56c7cf1, EmptyWords(), 15, 0x7173d5ef, 0xd6819c6a);
  }

  lemma EmptyRound2()
    ensures Steps(INIT, EmptyWords(), 32) == State(Nat(0x13707036), Nat(0xa2205f1f), Nat(0x1c31c384), Nat(0xae7813db))
  {
    hide Steps, Step, Mix, F, G, H, I, RotateLeft, Turn, Sine, Pick, Shift, EmptyWords;
    EmptyWordsAt();
    EmptyRound1();
    Picks2();
    Shifts2();
    Sines2();
    TurnGAt(0xf56c7cf1, 0xd6819c6a, 0x5aa53f75, 0x374943a7, EmptyWords(), 16, 0x4a2fdec5, 0x1c7d7513);
    TurnGAt(0x374943a7, 0x1c7d7513, 0xd6819c6a, 0x5aa53f75, EmptyWords(), 17, 0x93afac02, 0x7bd57a3a);
    TurnGAt(0x5aa53f75, 0x7bd57a3a, 0x1c7d7513, 0xd6819c6a, EmptyWords(), 18, 0xdc011301, 0xc095f13a);
    TurnGAt(0xd6819c6a, 0xc095f13a, 0x7bd57a3a, 0x1c7d7513, EmptyWords(), 19, 0x23cddfce, 0xbd782e17);
    TurnGAt(0x1c7d7513, 0xbd782e17, 0xc095f13a, 0x7bd57a3a, EmptyWords(), 20, 0xabfd3082, 0x3d1e3e6c);
    TurnGAt(0x7bd57a3a, 0x3d1e3e6c, 0xbd782e17, 0xc095f13a, EmptyWords(), 21, 0xbb95ccba, 0x68b7b3e3);
    TurnGAt(0xc095f13a, 0x68b7b3e3, 0x3d1e3e6c, 0xbd782e17, EmptyWords(), 22, 0xc16e0a26, 0xeb41643e);
    TurnGAt(0xbd782e17, 0xeb41643e, 0x68b7b3e3, 0x3d1e3e6c, EmptyWords(), 23, 0x0eedcf8e, 0xe422531a);
    TurnGAt(0x3d1e3e6c, 0xe422531a, 0xeb41643e, 0x68b7b3e3, EmptyWords(), 24, 0x42626370, 0x306ec122);
    TurnGAt(0x68b7b3e3, 0x306ec122, 0xe422531a, 0xeb41643e, EmptyWords(), 25, 0x50510edb, 0xd28c77c2);
    TurnGAt(0xeb41643e, 0xd28c77c2, 0x306ec122, 0xe422531a, EmptyWords(), 26, 0xb06344e7, 0xa3c663da);
    TurnGAt(0xe422531a, 0xa3c663da, 0xd28c77c2, 0x306ec122, EmptyWords(), 27, 0x0c42dfc9, 0xa0572807);
    TurnGAt(0x306ec122, 0xa0572807, 0xa3c663da, 0xd28c77c2, EmptyWords(), 28, 0x7b98ca41, 0x13707036);
    TurnGAt(0xd28c77c2, 0x13707036, 0xa0572807, 0xa3c663da, EmptyWords(), 29, 0xd2cd83d1, 0xae7813db);
    TurnGAt(0xa3c663da, 0xae7813db, 0x13707036, 0xa0572807, EmptyWords(), 30, 0xbea5b6e6, 0x1c31c384);
    TurnGAt(0xa0572807, 0x1c31c384, 0xae7813db, 0x13707036, EmptyWords(), 31, 0xe9b9b85e, 0xa2205f1f);
  }

  lemma EmptyRound3()
    ensures Steps(INIT, EmptyWords(), 48) == State(Nat(0x3f55edfd), Nat(0xca7d2dbd), Nat(0x68d84ea2), Nat(0x22a31f54))
  {
    hide Steps, Step, Mix, F, G, H, I, RotateLeft, Turn, Sine, Pick, Shift, EmptyWords;
    EmptyWordsAt();
    EmptyRound2();
    Picks3();
    Shifts3();
    Sines3();
    TurnHAt(0x13707036, 0xa2205f1f, 0x1c31c384, 0xae7813db, EmptyWords(), 32, 0x23d438b8, 0xdf63eaa1);
    TurnHAt(0xae7813db, 0xdf63eaa1, 0xa2205f1f, 0x1c31c384, EmptyWords(), 33, 0x975c8096, 0xc3689f5b);
    TurnHAt(0x1c31c384, 0xc3689f5b, 0xdf63eaa1, 0xa2205f1f, EmptyWords(), 34, 0x47fa4f8b, 0x12f3e755);
    TurnHAt(0xa2205f1f, 0x12f3e755, 0xc3689f5b, 0xdf63eaa1, EmptyWords(), 35, 0xaefe29da, 0x004b6669);
    TurnHAt(0xdf63eaa1, 0x004b6669, 0x12f3e755, 0xc3689f5b, EmptyWords(), 36, 0x55f2f34c, 0x5f7a9b2e);
    TurnHAt(0xc3689f5b, 0x5f7a9b2e, 0x004b6669, 0x12f3e755, EmptyWords(), 37, 0x5d098916, 0xabc34e16);
    TurnHAt(0x12f3e755, 0xabc34e16, 0x5f7a9b2e, 0x004b6669, EmptyWords(), 38, 0xfea1e606, 0x91ca4cb7);
    TurnHAt(0x004b6669, 0x91ca4cb7, 0xabc34e16, 0x5f7a9b2e, EmptyWords(), 39, 0x247ebc68, 0xc5dc8c15);
    TurnHAt(0x5f7a9b2e, 0xc5dc8c15, 0x91ca4cb7, 0xabc34e16, EmptyWords(), 40, 0x87eba8a8, 0x4497169d);
    TurnHAt(0xabc34e16, 0x4497169d, 0xc5dc8c15, 0x91ca4cb7, EmptyWords(), 41, 0xa6e64ccf, 0x76fd93d4);
    TurnHAt(0x91ca4cb7, 0x76fd93d4, 0x4497169d, 0xc5dc8c15, EmptyWords(), 42, 0x5e6f8698, 0xfd95f243);
    TurnHAt(0xc5dc8c15, 0xfd95f243, 0x76fd93d4, 0x4497169d, EmptyWords(), 43, 0x9a642024, 0x0fe32453);
    TurnHAt(0x4497169d, 0x0fe32453, 0xfd95f243, 0x76fd93d4, EmptyWords(), 44, 0xa2f72c9a, 0x3f55edfd);
    TurnHAt(0x76fd93d4, 0x3f55edfd, 0x0fe32453, 0xfd95f243, EmptyWords(), 45, 0x2afc69a6, 0x22a31f54);
    TurnHAt(0xfd95f243, 0x22a31f54, 0x3f55edfd, 0x0fe32453, EmptyWords(), 46, 0x2f4e4635, 0x68d84ea2);
    TurnHAt(0x0fe32453, 0x68d84ea2, 0x22a31f54, 0x3f55edfd, EmptyWords(), 47, 0x49be36c3, 0xca7d2dbd);
  }

  lemma EmptyRound4()
    ensures Steps(INIT, EmptyWords(), 64) == State(Nat(0x7246fad3), Nat(0x14e45506), Nat(0xff4ea3eb), Nat(0x6e10a476))
  {
    hide Steps, Step, Mix, F, G, H, I, RotateLeft, Turn, Sine, Pick, Shift, EmptyWords;
    EmptyWordsAt();
    EmptyRound3();
    Picks4();
    Shifts4();
    Sines4();
    TurnIAt(0x3f55edfd, 0xca7d2dbd, 0x68d84ea2, 0x22a31f54, EmptyWords(), 48, 0xeb24b3de, 0x93aa2577);
    TurnIAt(0x22a31f54, 0x93aa2577, 0xca7d2dbd, 0x68d84ea2, EmptyWords(), 49, 0xc3a0b7ad, 0x1688dc85);
    TurnIAt(0x68d84ea2, 0x1688dc85, 0x93aa2577, 0xca7d2dbd, EmptyWords(), 50, 0xb88d6df9, 0xcd85b8cb);
    TurnIAt(0xca7d2dbd, 0xcd85b8cb, 0x1688dc85, 0x93aa2577, EmptyWords(), 51, 0xc26df444, 0x561e0689);
    TurnIAt(0x93aa2577, 0x561e0689, 0xcd85b8cb, 0x1688dc85, EmptyWords(), 52, 0x2c001e6a, 0x5625a114);
    TurnIAt(0x1688dc85, 0x5625a114, 0x561e0689, 0xcd85b8cb, EmptyWords(), 53, 0xc5f78ad4, 0x3450f42b);
    TurnIAt(0xcd85b8cb, 0x3450f42b, 0x5625a114, 0x561e0689, EmptyWords(), 54, 0xb94a09b3, 0x392ad0d0);
    TurnIAt(0x561e0689, 0x392ad0d0, 0x3450f42b, 0x5625a114, EmptyWords(), 55, 0x694c8f2a, 0x1e77fa61);
    TurnIAt(0x5625a114, 0x1e77fa61, 0x392ad0d0, 0x3450f42b, EmptyWords(), 56, 0xaca34a88, 0x474a9c8c);
    TurnIAt(0x3450f42b, 0x474a9c8c, 0x1e77fa61, 0x392ad0d0, EmptyWords(), 57, 0x0c2620d9, 0xdfce00bc);
    TurnIAt(0x392ad0d0, 0xdfce00bc, 0x474a9c8c, 0x1e77fa61, EmptyWords(), 58, 0x94b0ad16, 0x36594b14);
    TurnIAt(0x1e77fa61, 0x36594b14, 0xdfce00bc, 0x474a9c8c, EmptyWords(), 59, 0xcdb377cd, 0x30130182);
    TurnIAt(0x474a9c8c, 0x30130182, 0x36594b14, 0xdfce00bc, EmptyWords(), 60, 0x4508cfe5, 0x7246fad3);
    TurnIAt(0xdfce00bc, 0x7246fad3, 0x30130182, 0x36594b14, EmptyWords(), 61, 0x68fef26a, 0x6e10a476);
    TurnIAt(0x36594b14, 0x6e10a476, 0x7246fad3, 0x30130182, EmptyWords(), 62, 0xfeeb227b, 0xff4ea3eb);
    TurnIAt(0x30130182, 0xff4ea3eb, 0x6e10a476, 0x7246fad3, EmptyWords(), 63, 0xad88d8ac, 0x14e45506);
  }

  lemma EmptyPadded()
    ensures |Padded([])| == 64 && Words(Padded([])) == EmptyWords()
  {
    var p := Padded([]);
    assert CountBytes(0) == [0, 0, 0, 0, 0, 0, 0, 0];
    assert |p| == 64;
    assert forall k :: 1 <= k < 56 ==> p[k] == 0;
    assert forall k :: 57 <= k < 64 ==> p[k] == 0;
    assert p[56] == 0;
    EmptyWordsAt();
  }

  /** MD5 ("") */
  lemma EmptyDigest()
    ensures Md5Digest([]) == [0xd4, 0x1d, 0x8c, 0xd9, 0x8f, 0x00, 0xb2, 0x04, 0xe9, 0x80, 0x09, 0x98, 0xec, 0xf8, 0x42, 0x7e]
  {
    hide Steps, Padded, Words, EmptyWords, Bytes;
    EmptyPadded();
    EmptyRound4();
    ShortDigest([], EmptyWords());
    SpelledFour(0xd98c1dd4, 0x04b2008f, 0x980980e9, 0x7e42f8ec);
    EmptyBytes0();
    EmptyBytes1();
    EmptyBytes2();
    EmptyBytes3();
  }

  lemma EmptyBytes0()
    ensures Bytes(0xd98c1dd4) == [0xd4, 0x1d, 0x8c, 0xd9]
  {
  }

  lemma EmptyBytes1()
    ensures Bytes(0x04b2008f) == [0x8f, 0x00, 0xb2, 0x04]
  {
  }

  lemma EmptyBytes2()
    ensures Bytes(0x980980e9) == [0xe9, 0x80, 0x09, 0x98]
  {
  }

  lemma EmptyBytes3()
    ensures Bytes(0x7e42f8ec) == [0xec, 0xf8, 0x42, 0x7e]
  {
  }

  // ----- "abc" -----

  function AbcWords(): seq<Word> {
    [0x80636261, 0, 0, 0, 0, 0, 0, 0, 0, 0, 0, 0, 0, 0, 0x18, 0]
  }

  lemma AbcWordsAt()
    ensures |AbcWords()| == 16
    ensures forall k :: 0 <= k < 16 ==> AbcWords()[k] == if k == 0 then 0x80636261 else if k == 14 then 0x18 else 0
  {
  }

  lemma AbcStart()
    ensures Steps(INIT, AbcWords(), 0) == State(Nat(0x67452301), Nat(0xefcdab89), Nat(0x98badcfe), Nat(0x10325476))
  {
  }

  lemma AbcRound1()
    ensures Steps(INIT, AbcWords(), 16) == State(Nat(0xdda9b9a6), Nat(0x72aff2e0), Nat(0xe396856b), Nat(0xa1051895))
  {
    hide Steps, Step, Mix, F, G, H, I, RotateLeft, Turn, Sine, Pick, Shift, AbcWords;
    AbcWordsAt();
    AbcStart();
    Picks1();
    Shifts1();
    Sines1();
    TurnFAt(0x67452301, 0xefcdab89, 0x98badcfe, 0x10325476, AbcWords(), 0, 0x57ce06d8, 0xd6d117b4);
    TurnFAt(0x10325476, 0xd6d117b4, 0xefcdab89, 0x98badcfe, AbcWords(), 1, 0xc7e5d796, 0x344a8432);
    TurnFAt(0x98badcfe, 0x344a8432, 0xd6d117b4, 0xefcdab89, AbcWords(), 2, 0x9ca07d92, 0x2f6fbd72);
    TurnFAt(0xefcdab89, 0x2f6fbd72, 0x344a8432, 0xd6d117b4, AbcWords(), 3, 0xa666012d, 0x7ad956f2);
    TurnFAt(0xd6d117b4, 0x7ad956f2, 0x2f6fbd72, 0x344a8432, AbcWords(), 4, 0xfa98bbd5, 0xc73741ef);
    TurnFAt(0x344a8432, 0xc73741ef, 0x7ad956f2, 0x2f6fbd72, AbcWords(), 5, 0xe62c474e, 0x8bac3051);
    TurnFAt(0x2f6fbd72, 0x8bac3051, 0xc73741ef, 0x7ad956f2, AbcWords(), 6, 0xcb154a68, 0x207dc67b);
    TurnFAt(0x7ad956f2, 0x207dc67b, 0x8bac3051, 0xc73741ef, AbcWords(), 7, 0x3f4dedc8, 0x928d99f6);
    TurnFAt(0xc73741ef, 0x928d99f6, 0x207dc67b, 0x8bac3051, AbcWords(), 8, 0x39e57b3a, 0x854b3712);
    TurnFAt(0x8bac3051, 0x854b3712, 0x928d99f6, 0x207dc67b, AbcWords(), 9, 0xb72ef97b, 0x74e2f284);
    TurnFAt(0x207dc67b, 0x74e2f284, 0x854b3712, 0x928d99f6, AbcWords(), 10, 0xa6cc5d9e, 0x3020401c);
    TurnFAt(0x928d99f6, 0x3020401c, 0x74e2f284, 0x854b3712, AbcWords(), 11, 0xd155e8ba, 0x5ed49596);
    TurnFAt(0x854b3712, 0x5ed49596, 0x3020401c, 0x74e2f284, AbcWords(), 12, 0x20fdaa48, 0xdda9b9a6);
    TurnFAt(0x74e2f284, 0xdda9b9a6, 0x5ed49596, 0x3020401c, AbcWords(), 13, 0xeefc35b5, 0xa1051895);
    TurnFAt(0x3020401c, 0xa1051895, 0xdda9b9a6, 0x5ed49596, AbcWords(), 14, 0xb66b2148, 0xe396856b);
    TurnFAt(0x5ed49596, 0xe396856b, 0xa1051895, 0xdda9b9a6, AbcWords(), 15, 0x65b5d63c, 0x72aff2e0);
  }

  lemma AbcRound2()
    ensures Steps(INIT, AbcWords(), 32) == State(Nat(0x790a77fb), Nat(0x726342d3), Nat(0xa62884aa), Nat(0x9f47e4f8))
  {
    hide Steps, Step, Mix, F, G, H, I, RotateLeft, Turn, Sine, Pick, Shift, AbcWords;
    AbcWordsAt();
    AbcRound1();
    Picks2();
    Shifts2();
    Sines2();
    TurnGAt(0xdda9b9a6, 0x72aff2e0, 0xe396856b, 0xa1051895, AbcWords(), 16, 0x365f74f2, 0x3e9e9126);
    TurnGAt(0xa1051895, 0x3e9e9126, 0x72aff2e0, 0xe396856b, AbcWords(), 17, 0x9405bf77, 0x4a1d804e);
    TurnGAt(0xe396856b, 0x4a1d804e, 0x3e9e9126, 0x72aff2e0, AbcWords(), 18, 0x58126102, 0xe25e1652);
    TurnGAt(0x72aff2e0, 0xe25e1652, 0x4a1d804e, 0x3e9e9126, AbcWords(), 19, 0x3ee92d35, 0xb5b204e4);
    TurnGAt(0x3e9e9126, 0xb5b204e4, 0xe25e1652, 0x4a1d804e, AbcWords(), 20, 0xb51fb7d7, 0x59a8ffda);
    TurnGAt(0x4a1d804e, 0x59a8ffda, 0xb5b204e4, 0xe25e1652, AbcWords(), 21, 0xa209ab97, 0x6d002f1e);
    TurnGAt(0xe25e1652, 0x6d002f1e, 0x59a8ffda, 0xb5b204e4, AbcWords(), 22, 0x2808fbf1, 0xabfc7920);
    TurnGAt(0xb5b204e4, 0xabfc7920, 0x6d002f1e, 0x59a8ffda, AbcWords(), 23, 0xcb2e79b0, 0x47092c07);
    TurnGAt(0x59a8ffda, 0x47092c07, 0xabfc7920, 0x6d002f1e, AbcWords(), 24, 0x438749e6, 0xb7f268cf);
    TurnGAt(0x6d002f1e, 0xb7f268cf, 0x47092c07, 0xabfc7920, AbcWords(), 25, 0x1828a313, 0x09388eff);
    TurnGAt(0xabfc7920, 0x09388eff, 0xb7f268cf, 0x47092c07, AbcWords(), 26, 0x52cbd376, 0xfe1623b1);
    TurnGAt(0x47092c07, 0xfe1623b1, 0x09388eff, 0xb7f268cf, AbcWords(), 27, 0x4a7de7a5, 0x786acb8f);
    TurnGAt(0xb7f268cf, 0x786acb8f, 0xfe1623b1, 0x09388eff, AbcWords(), 28, 0x6004fd63, 0x790a77fb);
    TurnGAt(0x09388eff, 0x790a77fb, 0x786acb8f, 0xfe1623b1, AbcWords(), 29, 0x7e931eb6, 0x9f47e4f8);
    TurnGAt(0xfe1623b1, 0x9f47e4f8, 0x790a77fb, 0x786acb8f, AbcWords(), 30, 0x7ec81b82, 0xa62884aa);
    TurnGAt(0x786acb8f, 0xa62884aa, 0x9f47e4f8, 0x790a77fb, AbcWords(), 31, 0xabe29cc3, 0x726342d3);
  }

  lemma AbcRound3()
    ensures Steps(INIT, AbcWords(), 48) == State(Nat(0x7f2e507b), Nat(0x7beb9700), Nat(0x8fae6399), Nat(0x99d9679d))
  {
    hide Steps, Step, Mix, F, G, H, I, RotateLeft, Turn, Sine, Pick, Shift, AbcWords;
    AbcWordsAt();
    AbcRound2();
    Picks3();
    Shifts3();
    Sines3();
    TurnHAt(0x790a77fb, 0x726342d3, 0xa62884aa, 0x9f47e4f8, AbcWords(), 32, 0xc410d3be, 0xb3707ebf);
    TurnHAt(0x9f47e4f8, 0xb3707ebf, 0x726342d3, 0xa62884aa, AbcWords(), 33, 0x8df5943f, 0x60127b2e);
    TurnHAt(0xa62884aa, 0x60127b2e, 0xb3707ebf, 0x726342d3, AbcWords(), 34, 0xb4c72d0e, 0x8d212ff5);
    TurnHAt(0x726342d3, 0x8d212ff5, 0x60127b2e, 0xb3707ebf, AbcWords(), 35, 0xce8ba55b, 0x3b0875c7);
    TurnHAt(0xb3707ebf, 0x3b0875c7, 0x8d212ff5, 0x60127b2e, AbcWords(), 36, 0x2e6a8a1f, 0x21b117b9);
    TurnHAt(0x60127b2e, 0x21b117b9, 0x3b0875c7, 0x8d212ff5, AbcWords(), 37, 0x43899862, 0x6e7429d5);
    TurnHAt(0x8d212ff5, 0x6e7429d5, 0x21b117b9, 0x3b0875c7, AbcWords(), 38, 0xf8a9c700, 0x3575227e);
    TurnHAt(0x3b0875c7, 0x3575227e, 0x6e7429d5, 0x21b117b9, AbcWords(), 39, 0x74784e49, 0x5a2f5ea5);
    TurnHAt(0x21b117b9, 0x5a2f5ea5, 0x3575227e, 0x6e7429d5, AbcWords(), 40, 0x4b7aeb8d, 0x11de1779);
    TurnHAt(0x6e7429d5, 0x11de1779, 0x5a2f5ea5, 0x3575227e, AbcWords(), 41, 0x57fd1fd2, 0xfadcaa38);
    TurnHAt(0x3575227e, 0xfadcaa38, 0x11de1779, 0x5a2f5ea5, AbcWords(), 42, 0xbb9236e7, 0x31c465ca);
    TurnHAt(0x5a2f5ea5, 0x31c465ca, 0xfadcaa38, 0x11de1779, AbcWords(), 43, 0x397e5435, 0x4c6124f4);
    TurnHAt(0x11de1779, 0x4c6124f4, 0x31c465ca, 0xfadcaa38, AbcWords(), 44, 0x732cd2b8, 0x7f2e507b);
    TurnHAt(0xfadcaa38, 0x7f2e507b, 0x4c6124f4, 0x31c465ca, AbcWords(), 45, 0xe4435562, 0x99d9679d);
    TurnHAt(0x31c465ca, 0x99d9679d, 0x7f2e507b, 0x4c6124f4, AbcWords(), 46, 0xfbfcf5d4, 0x8fae6399);
    TurnHAt(0x4c6124f4, 0x8fae6399, 0x99d9679d, 0x7f2e507b, AbcWords(), 47, 0x7a66cfd8, 0x7beb9700);
  }

  lemma AbcRound4()
    ensures Steps(INIT, AbcWords(), 64) == State(Nat(0x310ade8f), Nat(0xc08226b3), Nat(0xe484b9d8), Nat(0x624d8cb2))
  {
    hide Steps, Step, Mix, F, G, H, I, RotateLeft, Turn, Sine, Pick, Shift, AbcWords;
    AbcWordsAt();
    AbcRound3();
    Picks4();
    Shifts4();
    Sines4();
    TurnIAt(0x7f2e507b, 0x7beb9700, 0x8fae6399, 0x99d9679d, AbcWords(), 48, 0xe3fcd21b, 0x7b201df8);
    TurnIAt(0x99d9679d, 0x7b201df8, 0x7beb9700, 0x8fae6399, AbcWords(), 49, 0xdd9e7232, 0xf4e8e96e);
    TurnIAt(0x8fae6399, 0xf4e8e96e, 0x7b201df8, 0x7beb9700, AbcWords(), 50, 0xcb1f7b5f, 0xb298cefd);
    TurnIAt(0x7beb9700, 0xb298cefd, 0xf4e8e96e, 0x7b201df8, AbcWords(), 51, 0xbab63eca, 0x8bf025c4);
    TurnIAt(0x7b201df8, 0x8bf025c4, 0xb298cefd, 0xf4e8e96e, AbcWords(), 52, 0x19eb70e3, 0x06cc5e8a);
    TurnIAt(0xf4e8e96e, 0x06cc5e8a, 0x8bf025c4, 0xb298cefd, AbcWords(), 53, 0x4815104e, 0x5b0d97aa);
    TurnIAt(0xb298cefd, 0x5b0d97aa, 0x06cc5e8a, 0x8bf025c4, AbcWords(), 54, 0x2c4c44ab, 0x7d632dd0);
    TurnIAt(0x8bf025c4, 0x7d632dd0, 0x5b0d97aa, 0x06cc5e8a, AbcWords(), 55, 0xb7f2bdf4, 0x3bfa2c27);
    TurnIAt(0x06cc5e8a, 0x3bfa2c27, 0x7d632dd0, 0x5b0d97aa, AbcWords(), 56, 0x390e1e80, 0x7f81cc35);
    TurnIAt(0x5b0d97aa, 0x7f81cc35, 0x3bfa2c27, 0x7d632dd0, AbcWords(), 57, 0x1da270a2, 0x094454ab);
    TurnIAt(0x7d632dd0, 0x094454ab, 0x7f81cc35, 0x3bfa2c27, AbcWords(), 58, 0xd3288cb2, 0x4f9dbe3f);
    TurnIAt(0x3bfa2c27, 0x4f9dbe3f, 0x094454ab, 0x7f81cc35, AbcWords(), 59, 0x50be291c, 0x7327d604);
    TurnIAt(0x7f81cc35, 0x7327d604, 0x4f9dbe3f, 0x094454ab, AbcWords(), 60, 0x2ef78c22, 0x310ade8f);
    TurnIAt(0x094454ab, 0x310ade8f, 0x7327d604, 0x4f9dbe3f, AbcWords(), 61, 0x88cc50ab, 0x624d8cb2);
    TurnIAt(0x4f9dbe3f, 0x624d8cb2, 0x310ade8f, 0x7327d604, AbcWords(), 62, 0x5a4d046e, 0xe484b9d8);
    TurnIAt(0x7327d604, 0xe484b9d8, 0x624d8cb2, 0x310ade8f, AbcWords(), 63, 0xeb66dedf, 0xc08226b3);
  }

  lemma AbcPadded()
    ensures |Padded([97, 98, 99])| == 64 && Words(Padded([97, 98, 99])) == AbcWords()
  {
    var p := Padded([97, 98, 99]);
    assert CountBytes(3) == [24, 0, 0, 0, 0, 0, 0, 0];
    assert |p| == 64;
    assert forall k :: 4 <= k < 56 ==> p[k] == 0;
    assert forall k :: 57 <= k < 64 ==> p[k] == 0;
    assert p[56] == 24;
    AbcWordsAt();
  }

  /** MD5 ("abc") */
  lemma AbcDigest()
    ensures Md5Digest([97, 98, 99]) == [0x90, 0x01, 0x50, 0x98, 0x3c, 0xd2, 0x4f, 0xb0, 0xd6, 0x96, 0x3f, 0x7d, 0x28, 0xe1, 0x7f, 0x72]
  {
    hide Steps, Padded, Words, AbcWords, Bytes;
    AbcPadded();
    AbcRound4();
    ShortDigest([97, 98, 99], AbcWords());
    SpelledFour(0x98500190, 0xb04fd23c, 0x7d3f96d6, 0x727fe128);
    AbcBytes0();
    AbcBytes1();
    AbcBytes2();
    AbcBytes3();
  }

  lemma AbcBytes0()
    ensures Bytes(0x98500190) == [0x90, 0x01, 0x50, 0x98]
  {
  }

  lemma AbcBytes1()
    ensures Bytes(0xb04fd23c) == [0x3c, 0xd2, 0x4f, 0xb0]
  {
  }

  lemma AbcBytes2()
    ensures Bytes(0x7d3f96d6) == [0xd6, 0x96, 0x3f, 0x7d]
  {
  }

  lemma AbcBytes3()
    ensures Bytes(0x727fe128) == [0x28, 0xe1, 0x7f, 0x72]
  {
  }
}
