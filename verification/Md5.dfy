/** The streaming MD5 of the dumper (md5.c) against the one-shot algorithm of sections 3.1 to 3.5 of RFC 1321. */
module Md5 {
  import opened Records

  const M: nat := 0x1_0000_0000
  const MM: nat := 0x1_0000_0000_0000_0000

  type Word = w: nat | w < M

  // ----- section 3.4 of RFC 1321: the auxiliary functions and the steps -----

  function Plus(x: Word, y: Word): Word { (x + y) % M }

  function AuxF(x: bv32, y: bv32, z: bv32): bv32 { (x & y) | (!x & z) }
  function AuxG(x: bv32, y: bv32, z: bv32): bv32 { (x & z) | (y & !z) }
  function AuxH(x: bv32, y: bv32, z: bv32): bv32 { x ^ y ^ z }
  function AuxI(x: bv32, y: bv32, z: bv32): bv32 { y ^ (x | !z) }

  function F(x: Word, y: Word, z: Word): Word { AuxF(x as bv32, y as bv32, z as bv32) as Word }
  function G(x: Word, y: Word, z: Word): Word { AuxG(x as bv32, y as bv32, z as bv32) as Word }
  function H(x: Word, y: Word, z: Word): Word { AuxH(x as bv32, y as bv32, z as bv32) as Word }
  function I(x: Word, y: Word, z: Word): Word { AuxI(x as bv32, y as bv32, z as bv32) as Word }

  function Rotated(x: bv32, s: bv32): bv32
    requires 0 < s < 32
  {
    (x << s) | (x >> (32 - s))
  }

  function RotateLeft(x: Word, s: bv32): Word
    requires 0 < s < 32
  {
    Rotated(x as bv32, s) as Word
  }

  /** The sine table of section 3.4. */
  function Sine(n: nat): Word
    requires n < 64
  {
    if n < 16 then Sine1(n) else if n < 32 then Sine2(n - 16) else if n < 48 then Sine3(n - 32) else Sine4(n - 48)
  }

  function Sine1(n: nat): Word
    requires n < 16
  {
    match n
    case 0 => 0xd76aa478
    case 1 => 0xe8c7b756
    case 2 => 0x242070db
    case 3 => 0xc1bdceee
    case 4 => 0xf57c0faf
    case 5 => 0x4787c62a
    case 6 => 0xa8304613
    case 7 => 0xfd469501
    case 8 => 0x698098d8
    case 9 => 0x8b44f7af
    case 10 => 0xffff5bb1
    case 11 => 0x895cd7be
    case 12 => 0x6b901122
    case 13 => 0xfd987193
    case 14 => 0xa679438e
    case _ => 0x49b40821
  }

  function Sine2(n: nat): Word
    requires n < 16
  {
    match n
    case 0 => 0xf61e2562
    case 1 => 0xc040b340
    case 2 => 0x265e5a51
    case 3 => 0xe9b6c7aa
    case 4 => 0xd62f105d
    case 5 => 0x02441453
    case 6 => 0xd8a1e681
    case 7 => 0xe7d3fbc8
    case 8 => 0x21e1cde6
    case 9 => 0xc33707d6
    case 10 => 0xf4d50d87
    case 11 => 0x455a14ed
    case 12 => 0xa9e3e905
    case 13 => 0xfcefa3f8
    case 14 => 0x676f02d9
    case _ => 0x8d2a4c8a
  }

  function Sine3(n: nat): Word
    requires n < 16
  {
    match n
    case 0 => 0xfffa3942
    case 1 => 0x8771f681
    case 2 => 0x6d9d6122
    case 3 => 0xfde5380c
    case 4 => 0xa4beea44
    case 5 => 0x4bdecfa9
    case 6 => 0xf6bb4b60
    case 7 => 0xbebfbc70
    case 8 => 0x289b7ec6
    case 9 => 0xeaa127fa
    case 10 => 0xd4ef3085
    case 11 => 0x04881d05
    case 12 => 0xd9d4d039
    case 13 => 0xe6db99e5
    case 14 => 0x1fa27cf8
    case _ => 0xc4ac5665
  }

  function Sine4(n: nat): Word
    requires n < 16
  {
    match n
    case 0 => 0xf4292244
    case 1 => 0x432aff97
    case 2 => 0xab9423a7
    case 3 => 0xfc93a039
    case 4 => 0x655b59c3
    case 5 => 0x8f0ccc92
    case 6 => 0xffeff47d
    case 7 => 0x85845dd1
    case 8 => 0x6fa87e4f
    case 9 => 0xfe2ce6e0
    case 10 => 0xa3014314
    case 11 => 0x4e0811a1
    case 12 => 0xf7537e82
    case 13 => 0xbd3af235
    case 14 => 0x2ad7d2bb
    case _ => 0xeb86d391
  }

  datatype State = State(a: Word, b: Word, c: Word, d: Word)

  /** The word of the block that step `n` uses. */
  function Pick(n: nat): (k: nat)
    requires n < 64
    ensures k < 16
  {
    if n < 16 then n else if n < 32 then (1 + 5 * n) % 16 else if n < 48 then (5 + 3 * n) % 16 else 7 * n % 16
  }

  function Mix(n: nat, b: Word, c: Word, d: Word): Word
    requires n < 64
  {
    if n < 16 then F(b, c, d) else if n < 32 then G(b, c, d) else if n < 48 then H(b, c, d) else I(b, c, d)
  }

  function Shift(n: nat): (s: bv32)
    requires n < 64
    ensures 0 < s < 32
  {
    if n < 16 then if n % 4 == 0 then 7 else if n % 4 == 1 then 12 else if n % 4 == 2 then 17 else 22
    else if n < 32 then if n % 4 == 0 then 5 else if n % 4 == 1 then 9 else if n % 4 == 2 then 14 else 20
    else if n < 48 then if n % 4 == 0 then 4 else if n % 4 == 1 then 11 else if n % 4 == 2 then 16 else 23
    else if n % 4 == 0 then 6 else if n % 4 == 1 then 10 else if n % 4 == 2 then 15 else 21
  }

  /** b + ((a + f + x + t) <<< s). */
  function Turn(a: Word, b: Word, f: Word, x: Word, t: Word, s: bv32): Word
    requires 0 < s < 32
  {
    Plus(b, RotateLeft(Plus(Plus(Plus(a, f), x), t), s))
  }

  /** Step `n`: a := b + ((a + f(b, c, d) + x[k] + T[n]) <<< s), and the four registers change places. */
  function Step(s: State, x: seq<Word>, n: nat): State
    requires |x| == 16 && n < 64
  {
    State(s.d, Turn(s.a, s.b, Mix(n, s.b, s.c, s.d), x[Pick(n)], Sine(n), Shift(n)), s.b, s.c)
  }

  function Steps(s: State, x: seq<Word>, n: nat): State
    requires |x| == 16 && n <= 64
  {
    if n == 0 then s else Step(Steps(s, x, n - 1), x, n - 1)
  }

  function Compress(s: State, x: seq<Word>): State
    requires |x| == 16
  {
    var t := Steps(s, x, 64);
    State(Plus(s.a, t.a), Plus(s.b, t.b), Plus(s.c, t.c), Plus(s.d, t.d))
  }


  // ----- Transform -----

  /** The step macros of md5.c, which differ in the auxiliary function only. */
  function FF(a: Word, b: Word, c: Word, d: Word, x: Word, s: bv32, ac: Word): Word
    requires 0 < s < 32
  { Plus(RotateLeft(Plus(a, Plus(Plus(F(b, c, d), x), ac)), s), b) }

  function GG(a: Word, b: Word, c: Word, d: Word, x: Word, s: bv32, ac: Word): Word
    requires 0 < s < 32
  { Plus(RotateLeft(Plus(a, Plus(Plus(G(b, c, d), x), ac)), s), b) }

  function HH(a: Word, b: Word, c: Word, d: Word, x: Word, s: bv32, ac: Word): Word
    requires 0 < s < 32
  { Plus(RotateLeft(Plus(a, Plus(Plus(H(b, c, d), x), ac)), s), b) }

  function II(a: Word, b: Word, c: Word, d: Word, x: Word, s: bv32, ac: Word): Word
    requires 0 < s < 32
  { Plus(RotateLeft(Plus(a, Plus(Plus(I(b, c, d), x), ac)), s), b) }

  lemma PlusAssociates(x: Word, y: Word, z: Word)
    ensures Plus(x, Plus(y, z)) == Plus(Plus(x, y), z)
  {
  }

  lemma PlusCommutes(x: Word, y: Word)
    ensures Plus(x, y) == Plus(y, x)
  {
  }

  /** The sums of the macros are those of the steps. */
  lemma SameTurn(a: Word, b: Word, f: Word, x: Word, t: Word, s: bv32)
    requires 0 < s < 32
    ensures Plus(RotateLeft(Plus(a, Plus(Plus(f, x), t)), s), b) == Turn(a, b, f, x, t, s)
  {
    hide RotateLeft, Plus;
    PlusAssociates(a, Plus(f, x), t);
    PlusAssociates(a, f, x);
    PlusCommutes(b, RotateLeft(Plus(Plus(Plus(a, f), x), t), s));
  }


  lemma Turn1(a: Word, b: Word, c: Word, d: Word, x: Word, s: bv32, ac: Word)
    requires 0 < s < 32
    ensures FF(a, b, c, d, x, s, ac) == Turn(a, b, F(b, c, d), x, ac, s)
  {
    hide F, Turn, RotateLeft, Plus;
    SameTurn(a, b, F(b, c, d), x, ac, s);
  }

  /** One macro of round 1 is one step. */
  lemma StepRound1(s: State, x: seq<Word>, n: nat, k: nat, sh: bv32, ac: Word)
    requires |x| == 16 && 0 <= n < 16 && k == Pick(n) && sh == Shift(n) && ac == Sine(n)
    ensures Step(s, x, n) == State(s.d, FF(s.a, s.b, s.c, s.d, x[k], sh, ac), s.b, s.c)
  {
    hide F, G, H, I, FF, Turn, Plus, Sine, Pick, Shift;
    Turn1(s.a, s.b, s.c, s.d, x[k], sh, ac);
  }


  lemma Turn2(a: Word, b: Word, c: Word, d: Word, x: Word, s: bv32, ac: Word)
    requires 0 < s < 32
    ensures GG(a, b, c, d, x, s, ac) == Turn(a, b, G(b, c, d), x, ac, s)
  {
    hide G, Turn, RotateLeft, Plus;
    SameTurn(a, b, G(b, c, d), x, ac, s);
  }

  /** One macro of round 2 is one step. */
  lemma StepRound2(s: State, x: seq<Word>, n: nat, k: nat, sh: bv32, ac: Word)
    requires |x| == 16 && 16 <= n < 32 && k == Pick(n) && sh == Shift(n) && ac == Sine(n)
    ensures Step(s, x, n) == State(s.d, GG(s.a, s.b, s.c, s.d, x[k], sh, ac), s.b, s.c)
  {
    hide F, G, H, I, GG, Turn, Plus, Sine, Pick, Shift;
    Turn2(s.a, s.b, s.c, s.d, x[k], sh, ac);
  }


  lemma Turn3(a: Word, b: Word, c: Word, d: Word, x: Word, s: bv32, ac: Word)
    requires 0 < s < 32
    ensures HH(a, b, c, d, x, s, ac) == Turn(a, b, H(b, c, d), x, ac, s)
  {
    hide H, Turn, RotateLeft, Plus;
    SameTurn(a, b, H(b, c, d), x, ac, s);
  }

  /** One macro of round 3 is one step. */
  lemma StepRound3(s: State, x: seq<Word>, n: nat, k: nat, sh: bv32, ac: Word)
    requires |x| == 16 && 32 <= n < 48 && k == Pick(n) && sh == Shift(n) && ac == Sine(n)
    ensures Step(s, x, n) == State(s.d, HH(s.a, s.b, s.c, s.d, x[k], sh, ac), s.b, s.c)
  {
    hide F, G, H, I, HH, Turn, Plus, Sine, Pick, Shift;
    Turn3(s.a, s.b, s.c, s.d, x[k], sh, ac);
  }


  lemma Turn4(a: Word, b: Word, c: Word, d: Word, x: Word, s: bv32, ac: Word)
    requires 0 < s < 32
    ensures II(a, b, c, d, x, s, ac) == Turn(a, b, I(b, c, d), x, ac, s)
  {
    hide I, Turn, RotateLeft, Plus;
    SameTurn(a, b, I(b, c, d), x, ac, s);
  }

  /** One macro of round 4 is one step. */
  lemma StepRound4(s: State, x: seq<Word>, n: nat, k: nat, sh: bv32, ac: Word)
    requires |x| == 16 && 48 <= n < 64 && k == Pick(n) && sh == Shift(n) && ac == Sine(n)
    ensures Step(s, x, n) == State(s.d, II(s.a, s.b, s.c, s.d, x[k], sh, ac), s.b, s.c)
  {
    hide F, G, H, I, II, Turn, Plus, Sine, Pick, Shift;
    Turn4(s.a, s.b, s.c, s.d, x[k], sh, ac);
  }

  /** The order of the words of round 1 is those of the steps. */
  lemma Picks1()
    ensures Pick(0) == 0 && Pick(1) == 1 && Pick(2) == 2 && Pick(3) == 3
    ensures Pick(4) == 4 && Pick(5) == 5 && Pick(6) == 6 && Pick(7) == 7
    ensures Pick(8) == 8 && Pick(9) == 9 && Pick(10) == 10 && Pick(11) == 11
    ensures Pick(12) == 12 && Pick(13) == 13 && Pick(14) == 14 && Pick(15) == 15
  {
  }

  /** The shifts of round 1 are those of the steps. */
  lemma Shifts1()
    ensures Shift(0) == 7 && Shift(1) == 12 && Shift(2) == 17 && Shift(3) == 22
    ensures Shift(4) == 7 && Shift(5) == 12 && Shift(6) == 17 && Shift(7) == 22
    ensures Shift(8) == 7 && Shift(9) == 12 && Shift(10) == 17 && Shift(11) == 22
    ensures Shift(12) == 7 && Shift(13) == 12 && Shift(14) == 17 && Shift(15) == 22
  {
  }

  /** The constants of round 1 are those of the steps. */
  lemma Sines1()
    ensures Sine(0) == 3614090360 && Sine(1) == 3905402710 && Sine(2) == 606105819 && Sine(3) == 3250441966
    ensures Sine(4) == 4118548399 && Sine(5) == 1200080426 && Sine(6) == 2821735955 && Sine(7) == 4249261313
    ensures Sine(8) == 1770035416 && Sine(9) == 2336552879 && Sine(10) == 4294925233 && Sine(11) == 2304563134
    ensures Sine(12) == 1804603682 && Sine(13) == 4254626195 && Sine(14) == 2792965006 && Sine(15) == 1236535329
  {
  }

  /** The order of the words of round 2 is those of the steps. */
  lemma Picks2()
    ensures Pick(16) == 1 && Pick(17) == 6 && Pick(18) == 11 && Pick(19) == 0
    ensures Pick(20) == 5 && Pick(21) == 10 && Pick(22) == 15 && Pick(23) == 4
    ensures Pick(24) == 9 && Pick(25) == 14 && Pick(26) == 3 && Pick(27) == 8
    ensures Pick(28) == 13 && Pick(29) == 2 && Pick(30) == 7 && Pick(31) == 12
  {
  }

  /** The shifts of round 2 are those of the steps. */
  lemma Shifts2()
    ensures Shift(16) == 5 && Shift(17) == 9 && Shift(18) == 14 && Shift(19) == 20
    ensures Shift(20) == 5 && Shift(21) == 9 && Shift(22) == 14 && Shift(23) == 20
    ensures Shift(24) == 5 && Shift(25) == 9 && Shift(26) == 14 && Shift(27) == 20
    ensures Shift(28) == 5 && Shift(29) == 9 && Shift(30) == 14 && Shift(31) == 20
  {
  }

  /** The constants of round 2 are those of the steps. */
  lemma Sines2()
    ensures Sine(16) == 4129170786 && Sine(17) == 3225465664 && Sine(18) == 643717713 && Sine(19) == 3921069994
    ensures Sine(20) == 3593408605 && Sine(21) == 38016083 && Sine(22) == 3634488961 && Sine(23) == 3889429448
    ensures Sine(24) == 568446438 && Sine(25) == 3275163606 && Sine(26) == 4107603335 && Sine(27) == 1163531501
    ensures Sine(28) == 2850285829 && Sine(29) == 4243563512 && Sine(30) == 1735328473 && Sine(31) == 2368359562
  {
  }

  /** The order of the words of round 3 is those of the steps. */
  lemma Picks3()
    ensures Pick(32) == 5 && Pick(33) == 8 && Pick(34) == 11 && Pick(35) == 14
    ensures Pick(36) == 1 && Pick(37) == 4 && Pick(38) == 7 && Pick(39) == 10
    ensures Pick(40) == 13 && Pick(41) == 0 && Pick(42) == 3 && Pick(43) == 6
    ensures Pick(44) == 9 && Pick(45) == 12 && Pick(46) == 15 && Pick(47) == 2
  {
  }

  /** The shifts of round 3 are those of the steps. */
  lemma Shifts3()
    ensures Shift(32) == 4 && Shift(33) == 11 && Shift(34) == 16 && Shift(35) == 23
    ensures Shift(36) == 4 && Shift(37) == 11 && Shift(38) == 16 && Shift(39) == 23
    ensures Shift(40) == 4 && Shift(41) == 11 && Shift(42) == 16 && Shift(43) == 23
    ensures Shift(44) == 4 && Shift(45) == 11 && Shift(46) == 16 && Shift(47) == 23
  {
  }

  /** The constants of round 3 are those of the steps. */
  lemma Sines3()
    ensures Sine(32) == 4294588738 && Sine(33) == 2272392833 && Sine(34) == 1839030562 && Sine(35) == 4259657740
    ensures Sine(36) == 2763975236 && Sine(37) == 1272893353 && Sine(38) == 4139469664 && Sine(39) == 3200236656
    ensures Sine(40) == 681279174 && Sine(41) == 3936430074 && Sine(42) == 3572445317 && Sine(43) == 76029189
    ensures Sine(44) == 3654602809 && Sine(45) == 3873151461 && Sine(46) == 530742520 && Sine(47) == 3299628645
  {
  }

  /** The order of the words of round 4 is those of the steps. */
  lemma Picks4()
    ensures Pick(48) == 0 && Pick(49) == 7 && Pick(50) == 14 && Pick(51) == 5
    ensures Pick(52) == 12 && Pick(53) == 3 && Pick(54) == 10 && Pick(55) == 1
    ensures Pick(56) == 8 && Pick(57) == 15 && Pick(58) == 6 && Pick(59) == 13
    ensures Pick(60) == 4 && Pick(61) == 11 && Pick(62) == 2 && Pick(63) == 9
  {
  }

  /** The shifts of round 4 are those of the steps. */
  lemma Shifts4()
    ensures Shift(48) == 6 && Shift(49) == 10 && Shift(50) == 15 && Shift(51) == 21
    ensures Shift(52) == 6 && Shift(53) == 10 && Shift(54) == 15 && Shift(55) == 21
    ensures Shift(56) == 6 && Shift(57) == 10 && Shift(58) == 15 && Shift(59) == 21
    ensures Shift(60) == 6 && Shift(61) == 10 && Shift(62) == 15 && Shift(63) == 21
  {
  }

  /** The constants of round 4 are those of the steps. */
  lemma Sines4()
    ensures Sine(48) == 4096336452 && Sine(49) == 1126891415 && Sine(50) == 2878612391 && Sine(51) == 4237533241
    ensures Sine(52) == 1700485571 && Sine(53) == 2399980690 && Sine(54) == 4293915773 && Sine(55) == 2240044497
    ensures Sine(56) == 1873313359 && Sine(57) == 4264355552 && Sine(58) == 2734768916 && Sine(59) == 1309151649
    ensures Sine(60) == 4149444226 && Sine(61) == 3174756917 && Sine(62) == 718787259 && Sine(63) == 3951481745
  {
  }

  /** Round 1 of Transform. */
  method Round1(a0: Word, b0: Word, c0: Word, d0: Word, x: seq<Word>, ghost s: State)
    returns (a: Word, b: Word, c: Word, d: Word)
    requires |x| == 16 && State(a0, b0, c0, d0) == Steps(s, x, 0)
    ensures State(a, b, c, d) == Steps(s, x, 16)
  {
    hide Step, FF, GG, HH, II, Sine, Pick, Shift;
    Picks1();
    Shifts1();
    Sines1();
    a, b, c, d := a0, b0, c0, d0;
    StepRound1(Steps(s, x, 0), x, 0, 0, 7, 3614090360);
    a := FF(a, b, c, d, x[0], 7, 3614090360);
    StepRound1(Steps(s, x, 1), x, 1, 1, 12, 3905402710);
    d := FF(d, a, b, c, x[1], 12, 3905402710);
    StepRound1(Steps(s, x, 2), x, 2, 2, 17, 606105819);
    c := FF(c, d, a, b, x[2], 17, 606105819);
    StepRound1(Steps(s, x, 3), x, 3, 3, 22, 3250441966);
    b := FF(b, c, d, a, x[3], 22, 3250441966);
    StepRound1(Steps(s, x, 4), x, 4, 4, 7, 4118548399);
    a := FF(a, b, c, d, x[4], 7, 4118548399);
    StepRound1(Steps(s, x, 5), x, 5, 5, 12, 1200080426);
    d := FF(d, a, b, c, x[5], 12, 1200080426);
    StepRound1(Steps(s, x, 6), x, 6, 6, 17, 2821735955);
    c := FF(c, d, a, b, x[6], 17, 2821735955);
    StepRound1(Steps(s, x, 7), x, 7, 7, 22, 4249261313);
    b := FF(b, c, d, a, x[7], 22, 4249261313);
    StepRound1(Steps(s, x, 8), x, 8, 8, 7, 1770035416);
    a := FF(a, b, c, d, x[8], 7, 1770035416);
    StepRound1(Steps(s, x, 9), x, 9, 9, 12, 2336552879);
    d := FF(d, a, b, c, x[9], 12, 2336552879);
    StepRound1(Steps(s, x, 10), x, 10, 10, 17, 4294925233);
    c := FF(c, d, a, b, x[10], 17, 4294925233);
    StepRound1(Steps(s, x, 11), x, 11, 11, 22, 2304563134);
    b := FF(b, c, d, a, x[11], 22, 2304563134);
    StepRound1(Steps(s, x, 12), x, 12, 12, 7, 1804603682);
    a := FF(a, b, c, d, x[12], 7, 1804603682);
    StepRound1(Steps(s, x, 13), x, 13, 13, 12, 4254626195);
    d := FF(d, a, b, c, x[13], 12, 4254626195);
    StepRound1(Steps(s, x, 14), x, 14, 14, 17, 2792965006);
    c := FF(c, d, a, b, x[14], 17, 2792965006);
    StepRound1(Steps(s, x, 15), x, 15, 15, 22, 1236535329);
    b := FF(b, c, d, a, x[15], 22, 1236535329);
  }

  /** Round 2 of Transform. */
  method Round2(a0: Word, b0: Word, c0: Word, d0: Word, x: seq<Word>, ghost s: State)
    returns (a: Word, b: Word, c: Word, d: Word)
    requires |x| == 16 && State(a0, b0, c0, d0) == Steps(s, x, 16)
    ensures State(a, b, c, d) == Steps(s, x, 32)
  {
    hide Step, FF, GG, HH, II, Sine, Pick, Shift;
    Picks2();
    Shifts2();
    Sines2();
    a, b, c, d := a0, b0, c0, d0;
    StepRound2(Steps(s, x, 16), x, 16, 1, 5, 4129170786);
    a := GG(a, b, c, d, x[1], 5, 4129170786);
    StepRound2(Steps(s, x, 17), x, 17, 6, 9, 3225465664);
    d := GG(d, a, b, c, x[6], 9, 3225465664);
    StepRound2(Steps(s, x, 18), x, 18, 11, 14, 643717713);
    c := GG(c, d, a, b, x[11], 14, 643717713);
    StepRound2(Steps(s, x, 19), x, 19, 0, 20, 3921069994);
    b := GG(b, c, d, a, x[0], 20, 3921069994);
    StepRound2(Steps(s, x, 20), x, 20, 5, 5, 3593408605);
    a := GG(a, b, c, d, x[5], 5, 3593408605);
    StepRound2(Steps(s, x, 21), x, 21, 10, 9, 38016083);
    d := GG(d, a, b, c, x[10], 9, 38016083);
    StepRound2(Steps(s, x, 22), x, 22, 15, 14, 3634488961);
    c := GG(c, d, a, b, x[15], 14, 3634488961);
    StepRound2(Steps(s, x, 23), x, 23, 4, 20, 3889429448);
    b := GG(b, c, d, a, x[4], 20, 3889429448);
    StepRound2(Steps(s, x, 24), x, 24, 9, 5, 568446438);
    a := GG(a, b, c, d, x[9], 5, 568446438);
    StepRound2(Steps(s, x, 25), x, 25, 14, 9, 3275163606);
    d := GG(d, a, b, c, x[14], 9, 3275163606);
    StepRound2(Steps(s, x, 26), x, 26, 3, 14, 4107603335);
    c := GG(c, d, a, b, x[3], 14, 4107603335);
    StepRound2(Steps(s, x, 27), x, 27, 8, 20, 1163531501);
    b := GG(b, c, d, a, x[8], 20, 1163531501);
    StepRound2(Steps(s, x, 28), x, 28, 13, 5, 2850285829);
    a := GG(a, b, c, d, x[13], 5, 2850285829);
    StepRound2(Steps(s, x, 29), x, 29, 2, 9, 4243563512);
    d := GG(d, a, b, c, x[2], 9, 4243563512);
    StepRound2(Steps(s, x, 30), x, 30, 7, 14, 1735328473);
    c := GG(c, d, a, b, x[7], 14, 1735328473);
    StepRound2(Steps(s, x, 31), x, 31, 12, 20, 2368359562);
    b := GG(b, c, d, a, x[12], 20, 2368359562);
  }

  /** Round 3 of Transform. */
  method Round3(a0: Word, b0: Word, c0: Word, d0: Word, x: seq<Word>, ghost s: State)
    returns (a: Word, b: Word, c: Word, d: Word)
    requires |x| == 16 && State(a0, b0, c0, d0) == Steps(s, x, 32)
    ensures State(a, b, c, d) == Steps(s, x, 48)
  {
    hide Step, FF, GG, HH, II, Sine, Pick, Shift;
    Picks3();
    Shifts3();
    Sines3();
    a, b, c, d := a0, b0, c0, d0;
    StepRound3(Steps(s, x, 32), x, 32, 5, 4, 4294588738);
    a := HH(a, b, c, d, x[5], 4, 4294588738);
    StepRound3(Steps(s, x, 33), x, 33, 8, 11, 2272392833);
    d := HH(d, a, b, c, x[8], 11, 2272392833);
    StepRound3(Steps(s, x, 34), x, 34, 11, 16, 1839030562);
    c := HH(c, d, a, b, x[11], 16, 1839030562);
    StepRound3(Steps(s, x, 35), x, 35, 14, 23, 4259657740);
    b := HH(b, c, d, a, x[14], 23, 4259657740);
    StepRound3(Steps(s, x, 36), x, 36, 1, 4, 2763975236);
    a := HH(a, b, c, d, x[1], 4, 2763975236);
    StepRound3(Steps(s, x, 37), x, 37, 4, 11, 1272893353);
    d := HH(d, a, b, c, x[4], 11, 1272893353);
    StepRound3(Steps(s, x, 38), x, 38, 7, 16, 4139469664);
    c := HH(c, d, a, b, x[7], 16, 4139469664);
    StepRound3(Steps(s, x, 39), x, 39, 10, 23, 3200236656);
    b := HH(b, c, d, a, x[10], 23, 3200236656);
    StepRound3(Steps(s, x, 40), x, 40, 13, 4, 681279174);
    a := HH(a, b, c, d, x[13], 4, 681279174);
    StepRound3(Steps(s, x, 41), x, 41, 0, 11, 3936430074);
    d := HH(d, a, b, c, x[0], 11, 3936430074);
    StepRound3(Steps(s, x, 42), x, 42, 3, 16, 3572445317);
    c := HH(c, d, a, b, x[3], 16, 3572445317);
    StepRound3(Steps(s, x, 43), x, 43, 6, 23, 76029189);
    b := HH(b, c, d, a, x[6], 23, 76029189);
    StepRound3(Steps(s, x, 44), x, 44, 9, 4, 3654602809);
    a := HH(a, b, c, d, x[9], 4, 3654602809);
    StepRound3(Steps(s, x, 45), x, 45, 12, 11, 3873151461);
    d := HH(d, a, b, c, x[12], 11, 3873151461);
    StepRound3(Steps(s, x, 46), x, 46, 15, 16, 530742520);
    c := HH(c, d, a, b, x[15], 16, 530742520);
    StepRound3(Steps(s, x, 47), x, 47, 2, 23, 3299628645);
    b := HH(b, c, d, a, x[2], 23, 3299628645);
  }

  /** Round 4 of Transform. */
  method Round4(a0: Word, b0: Word, c0: Word, d0: Word, x: seq<Word>, ghost s: State)
    returns (a: Word, b: Word, c: Word, d: Word)
    requires |x| == 16 && State(a0, b0, c0, d0) == Steps(s, x, 48)
    ensures State(a, b, c, d) == Steps(s, x, 64)
  {
    hide Step, FF, GG, HH, II, Sine, Pick, Shift;
    Picks4();
    Shifts4();
    Sines4();
    a, b, c, d := a0, b0, c0, d0;
    StepRound4(Steps(s, x, 48), x, 48, 0, 6, 4096336452);
    a := II(a, b, c, d, x[0], 6, 4096336452);
    StepRound4(Steps(s, x, 49), x, 49, 7, 10, 1126891415);
    d := II(d, a, b, c, x[7], 10, 1126891415);
    StepRound4(Steps(s, x, 50), x, 50, 14, 15, 2878612391);
    c := II(c, d, a, b, x[14], 15, 2878612391);
    StepRound4(Steps(s, x, 51), x, 51, 5, 21, 4237533241);
    b := II(b, c, d, a, x[5], 21, 4237533241);
    StepRound4(Steps(s, x, 52), x, 52, 12, 6, 1700485571);
    a := II(a, b, c, d, x[12], 6, 1700485571);
    StepRound4(Steps(s, x, 53), x, 53, 3, 10, 2399980690);
    d := II(d, a, b, c, x[3], 10, 2399980690);
    StepRound4(Steps(s, x, 54), x, 54, 10, 15, 4293915773);
    c := II(c, d, a, b, x[10], 15, 4293915773);
    StepRound4(Steps(s, x, 55), x, 55, 1, 21, 2240044497);
    b := II(b, c, d, a, x[1], 21, 2240044497);
    StepRound4(Steps(s, x, 56), x, 56, 8, 6, 1873313359);
    a := II(a, b, c, d, x[8], 6, 1873313359);
    StepRound4(Steps(s, x, 57), x, 57, 15, 10, 4264355552);
    d := II(d, a, b, c, x[15], 10, 4264355552);
    StepRound4(Steps(s, x, 58), x, 58, 6, 15, 2734768916);
    c := II(c, d, a, b, x[6], 15, 2734768916);
    StepRound4(Steps(s, x, 59), x, 59, 13, 21, 1309151649);
    b := II(b, c, d, a, x[13], 21, 1309151649);
    StepRound4(Steps(s, x, 60), x, 60, 4, 6, 4149444226);
    a := II(a, b, c, d, x[4], 6, 4149444226);
    StepRound4(Steps(s, x, 61), x, 61, 11, 10, 3174756917);
    d := II(d, a, b, c, x[11], 10, 3174756917);
    StepRound4(Steps(s, x, 62), x, 62, 2, 15, 718787259);
    c := II(c, d, a, b, x[2], 15, 718787259);
    StepRound4(Steps(s, x, 63), x, 63, 9, 21, 3951481745);
    b := II(b, c, d, a, x[9], 21, 3951481745);
  }

  /** The four words of a state in an array. */
  ghost function StateOf(buf: seq<Word>): State
    requires |buf| == 4
  {
    State(buf[0], buf[1], buf[2], buf[3])
  }

  /** Transform adds the compressed block to the four words of the state. */
  method Transform(buf: array<Word>, x: array<Word>)
    requires buf.Length == 4 && x.Length == 16 && buf != x
    modifies buf
    ensures StateOf(buf[..]) == Compress(old(StateOf(buf[..])), x[..])
  {
    hide Steps, Plus;
    ghost var s := StateOf(buf[..]);
    StepsStart(s, x[..]);
    var a, b, c, d := Round1(buf[0], buf[1], buf[2], buf[3], x[..], s);
    a, b, c, d := Round2(a, b, c, d, x[..], s);
    a, b, c, d := Round3(a, b, c, d, x[..], s);
    a, b, c, d := Round4(a, b, c, d, x[..], s);
    buf[0], buf[1], buf[2], buf[3] := Plus(buf[0], a), Plus(buf[1], b), Plus(buf[2], c), Plus(buf[3], d);
  }

  lemma StepsStart(s: State, x: seq<Word>)
    requires |x| == 16
    ensures Steps(s, x, 0) == State(s.a, s.b, s.c, s.d)
  {
  }

  // ----- sections 3.1 to 3.3 and 3.5: padding, length, blocks, output -----

  const INIT: State := State(0x67452301, 0xefcdab89, 0x98badcfe, 0x10325476)

  /** Section 2: four bytes make a word, low-order byte first. */
  function WordAt(m: seq<byte>, i: nat): Word
    requires i + 4 <= |m|
  {
    m[i] as int + 0x100 * m[i + 1] as int + 0x1_0000 * m[i + 2] as int + 0x100_0000 * m[i + 3] as int
  }

  function Words(block: seq<byte>): (x: seq<Word>)
    requires |block| == 64
    ensures |x| == 16
  {
    seq(16, i requires 0 <= i < 16 => WordAt(block, 4 * i))
  }

  /** Section 3.4 over a message of whole blocks. */
  function Blocks(m: seq<byte>): State {
    if |m| < 64 then INIT else Compress(Blocks(m[..|m| - 64]), Words(m[|m| - 64..]))
  }

  /** The bytes of a word, low-order byte first. */
  function Bytes(w: Word): (s: seq<byte>)
    ensures |s| == 4
  {
    [(w % 0x100) as byte, (w / 0x100 % 0x100) as byte, (w / 0x1_0000 % 0x100) as byte, (w / 0x100_0000) as byte]
  }

  lemma BytesSpell(w: Word)
    ensures WordAt(Bytes(w), 0) == w
  {
    var q1, q2 := w / 0x100, w / 0x1_0000;
    assert w == 0x100 * q1 + w % 0x100;
    assert q1 == 0x100 * q2 + q1 % 0x100;
    assert q2 == 0x100 * (w / 0x100_0000) + q2 % 0x100;
  }

  /** Section 3.1: the padding, of 1 to 64 bytes, that makes the length congruent to 56 modulo 64. */
  function PadLength(n: nat): (p: nat)
    ensures 1 <= p <= 64 && (n + p) % 64 == 56
  {
    1 + (119 - n % 64) % 64
  }

  function CountBytes(n: nat): (s: seq<byte>)
    ensures |s| == 8
  {
    var bits := 8 * n % MM;
    Bytes(bits % M) + Bytes(bits / M)
  }

  /** The length is the number of bits in eight bytes, low-order byte first, modulo 2 to the 64. */
  lemma CountSpells(n: nat)
    ensures WordAt(CountBytes(n), 0) + 0x1_0000_0000 * WordAt(CountBytes(n), 4) == 8 * n % 0x1_0000_0000_0000_0000
  {
    hide Bytes;
    var bits := 8 * n % MM;
    BytesSpell(bits % M);
    BytesSpell(bits / M);
    assert CountBytes(n)[..4] == Bytes(bits % M) && CountBytes(n)[4..] == Bytes(bits / M);
    assert WordAt(CountBytes(n), 4) == WordAt(Bytes(bits / M), 0);
  }

  lemma PadLengthIs(n: nat, p: nat)
    requires p == if n % 64 < 56 then 56 - n % 64 else 120 - n % 64
    ensures p == PadLength(n)
  {
  }

  /** Sections 3.1 and 3.2: a bit 1, zeros, and the number of bits modulo 2 to the 64, low-order word first. */
  function Padded(m: seq<byte>): (p: seq<byte>)
    ensures |p| % 64 == 0
  {
    assert (|m| + PadLength(|m|) + 8) % 64 == 0;
    m + [0x80] + Zeros(PadLength(|m|) - 1) + CountBytes(|m|)
  }

  function Spelled(words: seq<Word>): (s: seq<byte>)
    ensures |s| == 4 * |words|
  {
    if words == [] then [] else Spelled(words[..|words| - 1]) + Bytes(words[|words| - 1])
  }

  /** Section 3.5. */
  function Output(s: State): (d: seq<byte>)
    ensures |d| == 16
  {
    Spelled([s.a, s.b, s.c, s.d])
  }

  /** The one-shot digest. */
  function Md5Digest(m: seq<byte>): (d: seq<byte>)
    ensures |d| == 16
  {
    Output(Blocks(Padded(m)))
  }

  // ----- the context -----

  /** The bit count in two words, modulo 2 to the 64. */
  ghost predicate Counts(low: Word, high: Word, n: nat) {
    high * M + low == 8 * n % MM
  }

  /** Addition with carry, as the code writes it. */
  lemma PlusCarries(x: Word, y: Word)
    ensures x + y == (if Plus(x, y) < x then M else 0) + Plus(x, y)
  {
  }

  lemma ModUnique(n: int, q: int, r: int)
    requires n == q * MM + r && 0 <= r < MM
    ensures n % MM == r
  {
  }

  lemma PlusTwice(x: Word, y: Word, z: Word) returns (q: nat)
    ensures x + y + z == q * M + Plus(Plus(x, y), z)
  {
    q := (x + y) / M + ((x + y) % M + z) / M;
  }

  /** The two-word bit count after `k` more bytes. */
  lemma CountAdds(low: Word, high: Word, n: nat, k: nat)
    requires Counts(low, high, n) && k < M
    ensures Counts(Plus(low, 8 * k % M), Plus(Plus(high, if Plus(low, 8 * k % M) < low then 1 else 0), k / 0x2000_0000), n + k)
  {
    hide Plus;
    var bits, carry := 8 * k % M, if Plus(low, 8 * k % M) < low then 1 else 0;
    var low' := Plus(low, bits);
    PlusCarries(low, bits);
    var q := PlusTwice(high, carry, k / 0x2000_0000);
    var high' := Plus(Plus(high, carry), k / 0x2000_0000);
    assert 8 * k == k / 0x2000_0000 * M + bits;
    assert high * M + low + 8 * k == q * MM + high' * M + low';
    var p := CountQuotient(low, high, n);
    ModUnique(8 * (n + k), p + q, high' * M + low');
  }

  lemma CountQuotient(low: Word, high: Word, n: nat) returns (p: nat)
    requires Counts(low, high, n)
    ensures 8 * n == p * MM + high * M + low
  {
    p := 8 * n / MM;
  }

  lemma Mod64(n: int, t: int, k: int)
    requires n == t + 64 * k
    ensures n % 64 == t % 64
  {
  }

  /** The count modulo 64 is the fill of the buffer. */
  lemma CountFill(low: Word, high: Word, n: nat)
    requires Counts(low, high, n)
    ensures low / 8 % 64 == n % 64
  {
    hide Counts;
    var p := CountQuotient(low, high, n);
    var k := high * 0x80_0000 + p * 0x80_0000_0000_0000;
    assert low == 8 * (n - 64 * k);
    Mod64(n, low / 8, k);
  }

  /** A full buffer ends the whole blocks of the message. */
  lemma BlockDone(m: seq<byte>, block: seq<byte>)
    requires |block| == 64
    ensures Blocks(m + block) == Compress(Blocks(m), Words(block))
  {
  }

  /** Between two bytes of an update: the buffer holds the last `n` bytes, the state the blocks before them. */
  ghost predicate Fed(m: seq<byte>, n: nat, data: seq<byte>, s: State) {
    && |data| == 64 && n < 64 && |m| % 64 == n
    && data[..n] == m[|m| - n..]
    && s == Blocks(m[..|m| - n])
  }

  lemma FeedByte(m: seq<byte>, n: nat, data: seq<byte>, s: State, b: byte)
    requires Fed(m, n, data, s)
    ensures n < 63 ==> Fed(m + [b], n + 1, data[n := b], s)
    ensures n == 63 ==> Fed(m + [b], 0, data[n := b], Compress(s, Words(data[n := b])))
  {
    hide Blocks, Compress, Words;
    var m', data' := m + [b], data[n := b];
    assert data'[..n + 1] == data[..n] + [b] == m'[|m| - n..];
    assert m'[..|m| - n] == m[..|m| - n];
    if n == 63 {
      BlockDone(m[..|m| - n], data');
      assert m' == m[..|m| - n] + data' == m'[..|m'|];
    }
  }

  lemma CountBytesAre(low: Word, high: Word, n: nat)
    requires Counts(low, high, n)
    ensures CountBytes(n) == Bytes(low) + Bytes(high)
  {
    hide Bytes;
    var bits := 8 * n % MM;
    assert bits % M == low && bits / M == high;
  }

  lemma LastWords(data: seq<byte>, low: seq<byte>, high: seq<byte>, x: seq<Word>)
    requires |data| == 64 && |low| == 4 && |high| == 4
    requires |x| == 16 && x[..14] == Words(data)[..14] && x[14] == WordAt(low, 0) && x[15] == WordAt(high, 0)
    ensures Words(data[..56] + low + high) == x
  {
  }

  lemma BeforeTail(p: seq<byte>, before: seq<byte>, tail: seq<byte>, low: seq<byte>, high: seq<byte>)
    requires |p| >= 56 && before == p[..|p| - 56] && tail == p[|p| - 56..]
    ensures before + (tail + low + high) == p + (low + high)
  {
  }

  /** The last block: the tail of the padded message and the two words of the count. */
  lemma LastBlock(p: seq<byte>, data: seq<byte>, s: State, low: seq<byte>, high: seq<byte>, x: seq<Word>)
    requires Fed(p, 56, data, s) && |low| == 4 && |high| == 4
    requires |x| == 16 && x[..14] == Words(data)[..14] && x[14] == WordAt(low, 0) && x[15] == WordAt(high, 0)
    ensures |p| % 64 == 56 && Compress(s, x) == Blocks(p + (low + high))
  {
    hide Blocks, Compress, Words, WordAt;
    var before, tail := p[..|p| - 56], data[..56];
    BeforeTail(p, before, tail, low, high);
    BlockDone(before, tail + low + high);
    LastWords(data, low, high, x);
  }

  /** MD5_CTX. */
  class Context {
    var low: Word               // i[0], the bits modulo 2 to the 32
    var high: Word              // i[1]
    const buf: array<Word>
    const data: array<byte>     // in[64]
    const digest: array<byte>
    ghost var fed: seq<byte>    // the message so far

    /** The count is the length, the buffer the tail, and the state the blocks of the message so far. */
    ghost predicate Valid()
      reads this, buf, data
    {
      && buf.Length == 4 && data.Length == 64 && digest.Length == 16 && digest != data
      && Counts(low, high, |fed|)
      && Fed(fed, |fed| % 64, data[..], StateOf(buf[..]))
    }

    /** MD5Init. */
    constructor ()
      ensures Valid() && fresh(buf) && fresh(data) && fresh(digest)
      ensures fed == []
    {
      low, high := 0, 0;
      buf := new Word[4] [INIT.a, INIT.b, INIT.c, INIT.d];
      data := new byte[64];
      digest := new byte[16];
      fed := [];
    }

    /** The first words of the buffer, low-order byte first. */
    method Load(n: nat) returns (x: array<Word>)
      requires data.Length == 64 && n <= 16
      ensures fresh(x) && x.Length == 16
      ensures x[..n] == Words(data[..])[..n]
    {
      x := new Word[16];
      var i: nat, ii: nat := 0, 0;
      while i < n
        invariant i <= n && ii == 4 * i
        invariant forall j :: 0 <= j < i ==> x[j] == WordAt(data[..], 4 * j)
      {
        x[i] := data[ii + 3] as int * 0x100_0000 + data[ii + 2] as int * 0x1_0000 + data[ii + 1] as int * 0x100
          + data[ii] as int;
        i := i + 1;
        ii := ii + 4;
      }
    }

    /** The loop body of MD5Update: one byte goes to the buffer, and a full buffer is transformed. */
    method Take(ghost m: seq<byte>, mdi0: nat, b: byte) returns (mdi: nat)
      requires buf.Length == 4 && data.Length == 64 && mdi0 == |m| % 64 && Fed(m, mdi0, data[..], StateOf(buf[..]))
      modifies buf, data
      ensures mdi == (|m| + 1) % 64 && Fed(m + [b], mdi, data[..], StateOf(buf[..]))
    {
      hide Counts, Fed, Words, Compress, Plus, WordAt;
      FeedByte(m, mdi0, data[..], StateOf(buf[..]), b);
      ghost var data' := data[..][mdi0 := b];
      data[mdi0] := b;
      assert data[..] == data';
      mdi := mdi0 + 1;
      if mdi == 64 {
        var x := Load(16);
        assert x[..] == x[..16] == Words(data')[..16] == Words(data');
        Transform(buf, x);
        mdi := 0;
      }
    }

    /** MD5Update: the message grows by the bytes given. */
    method Update(inBuf: seq<byte>)
      requires Valid() && |inBuf| < M
      modifies `low, `high, `fed, buf, data
      ensures Valid()
      ensures fed == old(fed) + inBuf
    {
      hide Counts, Fed, Words, Compress, Plus, WordAt;
      var mdi: nat := low / 8 % 64;
      CountFill(low, high, |fed|);
      CountAdds(low, high, |fed|, |inBuf|);
      var bits := 8 * |inBuf| % M;
      high := Plus(high, if Plus(low, bits) < low then 1 else 0);
      low := Plus(low, bits);
      high := Plus(high, |inBuf| / 0x2000_0000);
      var k: nat := 0;
      while k < |inBuf|
        invariant k <= |inBuf| && fed == old(fed) + inBuf[..k]
        invariant Counts(low, high, |old(fed)| + |inBuf|)
        invariant mdi == |fed| % 64
        invariant Fed(fed, mdi, data[..], StateOf(buf[..]))
      {
        mdi := Take(fed, mdi, inBuf[k]);
        assert inBuf[..k + 1] == inBuf[..k] + [inBuf[k]];
        fed := fed + [inBuf[k]];
        k := k + 1;
      }
      assert inBuf[..k] == inBuf;
    }

    /** MD5Final: the digest of the message, however it was cut. */
    method Final()
      requires Valid()
      modifies `low, `high, `fed, buf, data, digest
      ensures digest[..] == Md5Digest(old(fed))
    {
      hide Counts, Fed, Words, Compress, Blocks, PadLength, CountBytes, Plus, Bytes, WordAt;
      ghost var m := fed;
      var low0, high0 := low, high;
      var mdi: nat := low / 8 % 64;
      CountFill(low, high, |fed|);
      var padLen := if mdi < 56 then 56 - mdi else 120 - mdi;
      Update([0x80] + Zeros(padLen - 1));
      PadLengthIs(|m|, padLen);
      assert fed == m + [0x80] + Zeros(padLen - 1);
      var x := Load(14);
      x[14], x[15] := low0, high0;
      CountBytesAre(low0, high0, |m|);
      BytesSpell(low0);
      BytesSpell(high0);
      LastBlock(fed, data[..], StateOf(buf[..]), Bytes(low0), Bytes(high0), x[..]);
      Transform(buf, x);
      Store();
    }

    /** The digest is the four words, low-order byte first. */
    method Store()
      requires buf.Length == 4 && digest.Length == 16
      modifies digest
      ensures digest[..] == Output(StateOf(buf[..]))
    {
      hide WordAt;
      var i: nat, ii: nat := 0, 0;
      while i < 4
        invariant i <= 4 && ii == 4 * i
        invariant digest[..ii] == Spelled(buf[..i])
      {
        ghost var done := digest[..ii];
        digest[ii] := (buf[i] % 0x100) as byte;
        digest[ii + 1] := (buf[i] / 0x100 % 0x100) as byte;
        digest[ii + 2] := (buf[i] / 0x1_0000 % 0x100) as byte;
        digest[ii + 3] := (buf[i] / 0x100_0000 % 0x100) as byte;
        assert buf[..i + 1][..i] == buf[..i];
        assert digest[..ii + 4] == done + Bytes(buf[i]);
        i := i + 1;
        ii := ii + 4;
      }
      assert digest[..] == digest[..16] && buf[..4] == [buf[0], buf[1], buf[2], buf[3]];
    }
  }

  ghost function Joined(chunks: seq<seq<byte>>): seq<byte> {
    if chunks == [] then [] else Joined(chunks[..|chunks| - 1]) + chunks[|chunks| - 1]
  }

  /** Every way to cut a message into updates gives the one-shot digest of the message. */
  method DigestChunks(chunks: seq<seq<byte>>) returns (d: seq<byte>)
    requires forall c :: c in chunks ==> |c| < M
    ensures d == Md5Digest(Joined(chunks))
  {
    hide Md5Digest, Counts, Fed;
    var context := new Context();
    var i: nat := 0;
    while i < |chunks|
      invariant i <= |chunks| && context.Valid() && fresh(context.buf) && fresh(context.data) && fresh(context.digest)
      invariant context.fed == Joined(chunks[..i])
    {
      context.Update(chunks[i]);
      assert chunks[..i + 1][..i] == chunks[..i];
      i := i + 1;
    }
    assert chunks[..i] == chunks;
    context.Final();
    d := context.digest[..];
  }
}
