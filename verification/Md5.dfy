/** The MD5 of `ngx_md5.c`, against the definition of RFC 1321. */
module Md5 {

  type byte = bv8
  const BYTES_END: nat := 0x1_0000_0000_0000_0000

  /** The four words of the sum. */
  datatype Chain = Chain(a: bv32, b: bv32, c: bv32, d: bv32)

  /** Section 3.3 of RFC 1321. */
  const START: Chain := Chain(0x67452301, 0xefcdab89, 0x98badcfe, 0x10325476)

  // ---------- the definition ----------

  // The functions of section 3.4 of RFC 1321.

  function FRfc(x: bv32, y: bv32, z: bv32): bv32 {
    (x & y) | (!x & z)
  }

  function GRfc(x: bv32, y: bv32, z: bv32): bv32 {
    (x & z) | (y & !z)
  }

  function H(x: bv32, y: bv32, z: bv32): bv32 {
    x ^ y ^ z
  }

  function I(x: bv32, y: bv32, z: bv32): bv32 {
    y ^ (x | !z)
  }

  function Mix(i: nat, x: bv32, y: bv32, z: bv32): bv32 {
    if i < 16 then FRfc(x, y, z) else if i < 32 then GRfc(x, y, z) else if i < 48 then H(x, y, z) else I(x, y, z)
  }

  /** The word of the block that a step takes. */
  function Order(i: nat): (k: nat)
    ensures k < 16
  {
    (if i < 16 then i else if i < 32 then 5 * i + 1 else if i < 48 then 3 * i + 5 else 7 * i) % 16
  }

  /** The places that a step rotates by. */
  function Turn(i: nat): nat {
    var n := i % 4;
    if i < 16 then (if n == 0 then 7 else if n == 1 then 12 else if n == 2 then 17 else 22)
    else if i < 32 then (if n == 0 then 5 else if n == 1 then 9 else if n == 2 then 14 else 20)
    else if i < 48 then (if n == 0 then 4 else if n == 1 then 11 else if n == 2 then 16 else 23)
    else (if n == 0 then 6 else if n == 1 then 10 else if n == 2 then 15 else 21)
  }

  /** The table T of section 3.4 of RFC 1321. */
  function Sine(i: nat): bv32
    requires i < 64
  {
    match i
    case 0 => 0xd76aa478 case 1 => 0xe8c7b756 case 2 => 0x242070db case 3 => 0xc1bdceee
    case 4 => 0xf57c0faf case 5 => 0x4787c62a case 6 => 0xa8304613 case 7 => 0xfd469501
    case 8 => 0x698098d8 case 9 => 0x8b44f7af case 10 => 0xffff5bb1 case 11 => 0x895cd7be
    case 12 => 0x6b901122 case 13 => 0xfd987193 case 14 => 0xa679438e case 15 => 0x49b40821
    case 16 => 0xf61e2562 case 17 => 0xc040b340 case 18 => 0x265e5a51 case 19 => 0xe9b6c7aa
    case 20 => 0xd62f105d case 21 => 0x02441453 case 22 => 0xd8a1e681 case 23 => 0xe7d3fbc8
    case 24 => 0x21e1cde6 case 25 => 0xc33707d6 case 26 => 0xf4d50d87 case 27 => 0x455a14ed
    case 28 => 0xa9e3e905 case 29 => 0xfcefa3f8 case 30 => 0x676f02d9 case 31 => 0x8d2a4c8a
    case 32 => 0xfffa3942 case 33 => 0x8771f681 case 34 => 0x6d9d6122 case 35 => 0xfde5380c
    case 36 => 0xa4beea44 case 37 => 0x4bdecfa9 case 38 => 0xf6bb4b60 case 39 => 0xbebfbc70
    case 40 => 0x289b7ec6 case 41 => 0xeaa127fa case 42 => 0xd4ef3085 case 43 => 0x04881d05
    case 44 => 0xd9d4d039 case 45 => 0xe6db99e5 case 46 => 0x1fa27cf8 case 47 => 0xc4ac5665
    case 48 => 0xf4292244 case 49 => 0x432aff97 case 50 => 0xab9423a7 case 51 => 0xfc93a039
    case 52 => 0x655b59c3 case 53 => 0x8f0ccc92 case 54 => 0xffeff47d case 55 => 0x85845dd1
    case 56 => 0x6fa87e4f case 57 => 0xfe2ce6e0 case 58 => 0xa3014314 case 59 => 0x4e0811a1
    case 60 => 0xf7537e82 case 61 => 0xbd3af235 case 62 => 0x2ad7d2bb case _ => 0xeb86d391
  }

  function Add(x: bv32, y: bv32): bv32 {
    x + y
  }

  function Rotate(x: bv32, s: nat): bv32
    requires s < 32
  {
    (x << s) | (x >> (32 - s))
  }

  function Words(p: seq<byte>): (w: seq<bv32>)
    requires |p| == 64
    ensures |w| == 16
  {
    seq(16, n requires 0 <= n < 16 => WordAt(p, n))
  }

  /** Four bytes, the low one first. */
  function WordAt(p: seq<byte>, n: nat): bv32
    requires |p| == 64 && n < 16
  {
    (p[4 * n] as bv32) | ((p[4 * n + 1] as bv32) << 8) | ((p[4 * n + 2] as bv32) << 16) | ((p[4 * n + 3] as bv32) << 24)
  }

  /** One step: the word that changes is the last one of the next step. */
  function Step(s: Chain, w: seq<bv32>, i: nat): Chain
    requires |w| == 16 && i < 64
  {
    var sum := Add(Add(Add(s.a, Mix(i, s.b, s.c, s.d)), w[Order(i)]), Sine(i));
    Chain(s.d, Add(Rotate(sum, Turn(i)), s.b), s.b, s.c)
  }

  function Steps(s: Chain, w: seq<bv32>, i: nat, n: nat): Chain
    requires |w| == 16 && i + n <= 64
    decreases n
  {
    if n == 0 then s else Steps(Step(s, w, i), w, i + 1, n - 1)
  }

  function Compress(s: Chain, p: seq<byte>): Chain
    requires |p| == 64
  {
    var t := Steps(s, Words(p), 0, 64);
    Chain(Add(t.a, s.a), Add(t.b, s.b), Add(t.c, s.c), Add(t.d, s.d))
  }

  // ---------- the steps of the code ----------

  function F(x: bv32, y: bv32, z: bv32): bv32 {
    z ^ (x & (y ^ z))
  }

  function G(x: bv32, y: bv32, z: bv32): bv32 {
    y ^ (z & (x ^ y))
  }

  lemma FBits(x: bv32, y: bv32, z: bv32)
    ensures z ^ (x & (y ^ z)) == (x & y) | (!x & z)
  {
  }

  /** The functions without AND-NOT are those of the definition. */
  lemma FIs(x: bv32, y: bv32, z: bv32)
    ensures F(x, y, z) == FRfc(x, y, z)
  {
    FBits(x, y, z);
  }

  lemma GBits(x: bv32, y: bv32, z: bv32)
    ensures y ^ (z & (x ^ y)) == (x & z) | (y & !z)
  {
  }

  lemma GIs(x: bv32, y: bv32, z: bv32)
    ensures G(x, y, z) == GRfc(x, y, z)
  {
    GBits(x, y, z);
  }

  /** `STEP` */
  function StepOf(f: bv32, a: bv32, b: bv32, x: bv32, t: bv32, s: nat): bv32
    requires s < 32
  {
    Add(Rotate(Add(Add(Add(a, f), x), t), s), b)
  }

  function Changed(s: Chain, w: seq<bv32>, i: nat): bv32
    requires |w| == 16 && i < 64
  {
    StepOf(Mix(i, s.b, s.c, s.d), s.a, s.b, w[Order(i)], Sine(i), Turn(i))
  }

  /** Four steps, with each word in its place again. */
  function Quad(s: Chain, w: seq<bv32>, i: nat): Chain
    requires |w| == 16 && i + 4 <= 64
  {
    var a := Changed(s, w, i);
    var d := Changed(Chain(s.d, a, s.b, s.c), w, i + 1);
    var c := Changed(Chain(s.c, d, a, s.b), w, i + 2);
    var b := Changed(Chain(s.b, c, d, a), w, i + 3);
    Chain(a, b, c, d)
  }

  lemma QuadIs(s: Chain, w: seq<bv32>, i: nat, n: nat)
    requires |w| == 16 && i + 4 + n <= 64
    ensures Steps(s, w, i, n + 4) == Steps(Quad(s, w, i), w, i + 4, n)
  {
    hide Mix, Order, Turn, Sine, Add, Rotate;
    var s1 := Step(s, w, i);
    var s2 := Step(s1, w, i + 1);
    var s3 := Step(s2, w, i + 2);
    assert Steps(s, w, i, n + 4) == Steps(s1, w, i + 1, n + 3) == Steps(s2, w, i + 2, n + 2) == Steps(s3, w, i + 3, n + 1);
  }

  method Quad0(s: Chain, w: seq<bv32>) returns (t: Chain)
    requires |w| == 16
    ensures t == Quad(s, w, 0)
  {
    hide F, G, H, I, FRfc, GRfc, StepOf;
    var a, b, c, d := s.a, s.b, s.c, s.d;
    FIs(b, c, d);
    a := StepOf(F(b, c, d), a, b, w[0], 0xd76aa478, 7);
    FIs(a, b, c);
    d := StepOf(F(a, b, c), d, a, w[1], 0xe8c7b756, 12);
    FIs(d, a, b);
    c := StepOf(F(d, a, b), c, d, w[2], 0x242070db, 17);
    FIs(c, d, a);
    b := StepOf(F(c, d, a), b, c, w[3], 0xc1bdceee, 22);
    t := Chain(a, b, c, d);
  }

  method Quad1(s: Chain, w: seq<bv32>) returns (t: Chain)
    requires |w| == 16
    ensures t == Quad(s, w, 4)
  {
    hide F, G, H, I, FRfc, GRfc, StepOf;
    var a, b, c, d := s.a, s.b, s.c, s.d;
    FIs(b, c, d);
    a := StepOf(F(b, c, d), a, b, w[4], 0xf57c0faf, 7);
    FIs(a, b, c);
    d := StepOf(F(a, b, c), d, a, w[5], 0x4787c62a, 12);
    FIs(d, a, b);
    c := StepOf(F(d, a, b), c, d, w[6], 0xa8304613, 17);
    FIs(c, d, a);
    b := StepOf(F(c, d, a), b, c, w[7], 0xfd469501, 22);
    t := Chain(a, b, c, d);
  }

  method Quad2(s: Chain, w: seq<bv32>) returns (t: Chain)
    requires |w| == 16
    ensures t == Quad(s, w, 8)
  {
    hide F, G, H, I, FRfc, GRfc, StepOf;
    var a, b, c, d := s.a, s.b, s.c, s.d;
    FIs(b, c, d);
    a := StepOf(F(b, c, d), a, b, w[8], 0x698098d8, 7);
    FIs(a, b, c);
    d := StepOf(F(a, b, c), d, a, w[9], 0x8b44f7af, 12);
    FIs(d, a, b);
    c := StepOf(F(d, a, b), c, d, w[10], 0xffff5bb1, 17);
    FIs(c, d, a);
    b := StepOf(F(c, d, a), b, c, w[11], 0x895cd7be, 22);
    t := Chain(a, b, c, d);
  }

  method Quad3(s: Chain, w: seq<bv32>) returns (t: Chain)
    requires |w| == 16
    ensures t == Quad(s, w, 12)
  {
    hide F, G, H, I, FRfc, GRfc, StepOf;
    var a, b, c, d := s.a, s.b, s.c, s.d;
    FIs(b, c, d);
    a := StepOf(F(b, c, d), a, b, w[12], 0x6b901122, 7);
    FIs(a, b, c);
    d := StepOf(F(a, b, c), d, a, w[13], 0xfd987193, 12);
    FIs(d, a, b);
    c := StepOf(F(d, a, b), c, d, w[14], 0xa679438e, 17);
    FIs(c, d, a);
    b := StepOf(F(c, d, a), b, c, w[15], 0x49b40821, 22);
    t := Chain(a, b, c, d);
  }

  method Quad4(s: Chain, w: seq<bv32>) returns (t: Chain)
    requires |w| == 16
    ensures t == Quad(s, w, 16)
  {
    hide F, G, H, I, FRfc, GRfc, StepOf;
    var a, b, c, d := s.a, s.b, s.c, s.d;
    GIs(b, c, d);
    a := StepOf(G(b, c, d), a, b, w[1], 0xf61e2562, 5);
    GIs(a, b, c);
    d := StepOf(G(a, b, c), d, a, w[6], 0xc040b340, 9);
    GIs(d, a, b);
    c := StepOf(G(d, a, b), c, d, w[11], 0x265e5a51, 14);
    GIs(c, d, a);
    b := StepOf(G(c, d, a), b, c, w[0], 0xe9b6c7aa, 20);
    t := Chain(a, b, c, d);
  }

  method Quad5(s: Chain, w: seq<bv32>) returns (t: Chain)
    requires |w| == 16
    ensures t == Quad(s, w, 20)
  {
    hide F, G, H, I, FRfc, GRfc, StepOf;
    var a, b, c, d := s.a, s.b, s.c, s.d;
    GIs(b, c, d);
    a := StepOf(G(b, c, d), a, b, w[5], 0xd62f105d, 5);
    GIs(a, b, c);
    d := StepOf(G(a, b, c), d, a, w[10], 0x02441453, 9);
    GIs(d, a, b);
    c := StepOf(G(d, a, b), c, d, w[15], 0xd8a1e681, 14);
    GIs(c, d, a);
    b := StepOf(G(c, d, a), b, c, w[4], 0xe7d3fbc8, 20);
    t := Chain(a, b, c, d);
  }

  method Quad6(s: Chain, w: seq<bv32>) returns (t: Chain)
    requires |w| == 16
    ensures t == Quad(s, w, 24)
  {
    hide F, G, H, I, FRfc, GRfc, StepOf;
    var a, b, c, d := s.a, s.b, s.c, s.d;
    GIs(b, c, d);
    a := StepOf(G(b, c, d), a, b, w[9], 0x21e1cde6, 5);
    GIs(a, b, c);
    d := StepOf(G(a, b, c), d, a, w[14], 0xc33707d6, 9);
    GIs(d, a, b);
    c := StepOf(G(d, a, b), c, d, w[3], 0xf4d50d87, 14);
    GIs(c, d, a);
    b := StepOf(G(c, d, a), b, c, w[8], 0x455a14ed, 20);
    t := Chain(a, b, c, d);
  }

  method Quad7(s: Chain, w: seq<bv32>) returns (t: Chain)
    requires |w| == 16
    ensures t == Quad(s, w, 28)
  {
    hide F, G, H, I, FRfc, GRfc, StepOf;
    var a, b, c, d := s.a, s.b, s.c, s.d;
    GIs(b, c, d);
    a := StepOf(G(b, c, d), a, b, w[13], 0xa9e3e905, 5);
    GIs(a, b, c);
    d := StepOf(G(a, b, c), d, a, w[2], 0xfcefa3f8, 9);
    GIs(d, a, b);
    c := StepOf(G(d, a, b), c, d, w[7], 0x676f02d9, 14);
    GIs(c, d, a);
    b := StepOf(G(c, d, a), b, c, w[12], 0x8d2a4c8a, 20);
    t := Chain(a, b, c, d);
  }

  method Quad8(s: Chain, w: seq<bv32>) returns (t: Chain)
    requires |w| == 16
    ensures t == Quad(s, w, 32)
  {
    hide F, G, H, I, FRfc, GRfc, StepOf;
    var a, b, c, d := s.a, s.b, s.c, s.d;
    a := StepOf(H(b, c, d), a, b, w[5], 0xfffa3942, 4);
    d := StepOf(H(a, b, c), d, a, w[8], 0x8771f681, 11);
    c := StepOf(H(d, a, b), c, d, w[11], 0x6d9d6122, 16);
    b := StepOf(H(c, d, a), b, c, w[14], 0xfde5380c, 23);
    t := Chain(a, b, c, d);
  }

  method Quad9(s: Chain, w: seq<bv32>) returns (t: Chain)
    requires |w| == 16
    ensures t == Quad(s, w, 36)
  {
    hide F, G, H, I, FRfc, GRfc, StepOf;
    var a, b, c, d := s.a, s.b, s.c, s.d;
    a := StepOf(H(b, c, d), a, b, w[1], 0xa4beea44, 4);
    d := StepOf(H(a, b, c), d, a, w[4], 0x4bdecfa9, 11);
    c := StepOf(H(d, a, b), c, d, w[7], 0xf6bb4b60, 16);
    b := StepOf(H(c, d, a), b, c, w[10], 0xbebfbc70, 23);
    t := Chain(a, b, c, d);
  }

  method Quad10(s: Chain, w: seq<bv32>) returns (t: Chain)
    requires |w| == 16
    ensures t == Quad(s, w, 40)
  {
    hide F, G, H, I, FRfc, GRfc, StepOf;
    var a, b, c, d := s.a, s.b, s.c, s.d;
    a := StepOf(H(b, c, d), a, b, w[13], 0x289b7ec6, 4);
    d := StepOf(H(a, b, c), d, a, w[0], 0xeaa127fa, 11);
    c := StepOf(H(d, a, b), c, d, w[3], 0xd4ef3085, 16);
    b := StepOf(H(c, d, a), b, c, w[6], 0x04881d05, 23);
    t := Chain(a, b, c, d);
  }

  method Quad11(s: Chain, w: seq<bv32>) returns (t: Chain)
    requires |w| == 16
    ensures t == Quad(s, w, 44)
  {
    hide F, G, H, I, FRfc, GRfc, StepOf;
    var a, b, c, d := s.a, s.b, s.c, s.d;
    a := StepOf(H(b, c, d), a, b, w[9], 0xd9d4d039, 4);
    d := StepOf(H(a, b, c), d, a, w[12], 0xe6db99e5, 11);
    c := StepOf(H(d, a, b), c, d, w[15], 0x1fa27cf8, 16);
    b := StepOf(H(c, d, a), b, c, w[2], 0xc4ac5665, 23);
    t := Chain(a, b, c, d);
  }

  method Quad12(s: Chain, w: seq<bv32>) returns (t: Chain)
    requires |w| == 16
    ensures t == Quad(s, w, 48)
  {
    hide F, G, H, I, FRfc, GRfc, StepOf;
    var a, b, c, d := s.a, s.b, s.c, s.d;
    a := StepOf(I(b, c, d), a, b, w[0], 0xf4292244, 6);
    d := StepOf(I(a, b, c), d, a, w[7], 0x432aff97, 10);
    c := StepOf(I(d, a, b), c, d, w[14], 0xab9423a7, 15);
    b := StepOf(I(c, d, a), b, c, w[5], 0xfc93a039, 21);
    t := Chain(a, b, c, d);
  }

  method Quad13(s: Chain, w: seq<bv32>) returns (t: Chain)
    requires |w| == 16
    ensures t == Quad(s, w, 52)
  {
    hide F, G, H, I, FRfc, GRfc, StepOf;
    var a, b, c, d := s.a, s.b, s.c, s.d;
    a := StepOf(I(b, c, d), a, b, w[12], 0x655b59c3, 6);
    d := StepOf(I(a, b, c), d, a, w[3], 0x8f0ccc92, 10);
    c := StepOf(I(d, a, b), c, d, w[10], 0xffeff47d, 15);
    b := StepOf(I(c, d, a), b, c, w[1], 0x85845dd1, 21);
    t := Chain(a, b, c, d);
  }

  method Quad14(s: Chain, w: seq<bv32>) returns (t: Chain)
    requires |w| == 16
    ensures t == Quad(s, w, 56)
  {
    hide F, G, H, I, FRfc, GRfc, StepOf;
    var a, b, c, d := s.a, s.b, s.c, s.d;
    a := StepOf(I(b, c, d), a, b, w[8], 0x6fa87e4f, 6);
    d := StepOf(I(a, b, c), d, a, w[15], 0xfe2ce6e0, 10);
    c := StepOf(I(d, a, b), c, d, w[6], 0xa3014314, 15);
    b := StepOf(I(c, d, a), b, c, w[13], 0x4e0811a1, 21);
    t := Chain(a, b, c, d);
  }

  method Quad15(s: Chain, w: seq<bv32>) returns (t: Chain)
    requires |w| == 16
    ensures t == Quad(s, w, 60)
  {
    hide F, G, H, I, FRfc, GRfc, StepOf;
    var a, b, c, d := s.a, s.b, s.c, s.d;
    a := StepOf(I(b, c, d), a, b, w[4], 0xf7537e82, 6);
    d := StepOf(I(a, b, c), d, a, w[11], 0xbd3af235, 10);
    c := StepOf(I(d, a, b), c, d, w[2], 0x2ad7d2bb, 15);
    b := StepOf(I(c, d, a), b, c, w[9], 0xeb86d391, 21);
    t := Chain(a, b, c, d);
  }

  lemma NoSteps(s: Chain, w: seq<bv32>, i: nat)
    requires |w| == 16 && i <= 64
    ensures Steps(s, w, i, 0) == s
  {
  }

  lemma {:induction false} StepsSum(s: Chain, w: seq<bv32>, i: nat, m: nat, n: nat)
    requires |w| == 16 && i + m + n <= 64
    ensures Steps(s, w, i, m + n) == Steps(Steps(s, w, i, m), w, i + m, n)
    decreases m
  {
    hide Step;
    if m > 0 {
      StepsSum(Step(s, w, i), w, i + 1, m - 1, n);
    }
  }

  method Round1(s: Chain, w: seq<bv32>) returns (t: Chain)
    requires |w| == 16
    ensures t == Steps(s, w, 0, 16)
  {
    hide Quad, Steps;
    t := s;
    QuadIs(t, w, 0, 12);
    t := Quad0(t, w);
    QuadIs(t, w, 4, 8);
    t := Quad1(t, w);
    QuadIs(t, w, 8, 4);
    t := Quad2(t, w);
    QuadIs(t, w, 12, 0);
    t := Quad3(t, w);
    NoSteps(t, w, 16);
  }

  method Round2(s: Chain, w: seq<bv32>) returns (t: Chain)
    requires |w| == 16
    ensures t == Steps(s, w, 16, 16)
  {
    hide Quad, Steps;
    t := s;
    QuadIs(t, w, 16, 12);
    t := Quad4(t, w);
    QuadIs(t, w, 20, 8);
    t := Quad5(t, w);
    QuadIs(t, w, 24, 4);
    t := Quad6(t, w);
    QuadIs(t, w, 28, 0);
    t := Quad7(t, w);
    NoSteps(t, w, 32);
  }

  method Round3(s: Chain, w: seq<bv32>) returns (t: Chain)
    requires |w| == 16
    ensures t == Steps(s, w, 32, 16)
  {
    hide Quad, Steps;
    t := s;
    QuadIs(t, w, 32, 12);
    t := Quad8(t, w);
    QuadIs(t, w, 36, 8);
    t := Quad9(t, w);
    QuadIs(t, w, 40, 4);
    t := Quad10(t, w);
    QuadIs(t, w, 44, 0);
    t := Quad11(t, w);
    NoSteps(t, w, 48);
  }

  method Round4(s: Chain, w: seq<bv32>) returns (t: Chain)
    requires |w| == 16
    ensures t == Steps(s, w, 48, 16)
  {
    hide Quad, Steps;
    t := s;
    QuadIs(t, w, 48, 12);
    t := Quad12(t, w);
    QuadIs(t, w, 52, 8);
    t := Quad13(t, w);
    QuadIs(t, w, 56, 4);
    t := Quad14(t, w);
    QuadIs(t, w, 60, 0);
    t := Quad15(t, w);
    NoSteps(t, w, 64);
  }

  /** The four rounds of a block. */
  method AllSteps(s: Chain, w: seq<bv32>) returns (t: Chain)
    requires |w| == 16
    ensures t == Steps(s, w, 0, 64)
  {
    hide Steps;
    t := Round1(s, w);
    StepsSum(s, w, 0, 16, 48);
    StepsSum(t, w, 16, 16, 32);
    t := Round2(t, w);
    StepsSum(t, w, 32, 16, 16);
    t := Round3(t, w);
    t := Round4(t, w);
  }

  // ---------- blocks and padding ----------

  /** The blocks of a text, one after the other. */
  function Blocks(s: Chain, m: seq<byte>): Chain
    decreases |m|
  {
    if |m| < 64 then s else Blocks(Compress(s, m[..64]), m[64..])
  }

  predicate Whole(m: seq<byte>) {
    |m| % 64 == 0
  }

  lemma {:induction false} BlocksSplit(s: Chain, m: seq<byte>, r: seq<byte>)
    requires Whole(m)
    ensures Blocks(s, m + r) == Blocks(Blocks(s, m), r)
    decreases |m|
  {
    hide Compress;
    if m == [] {
      assert m + r == r;
    } else {
      assert (m + r)[..64] == m[..64] && (m + r)[64..] == m[64..] + r;
      BlocksSplit(Compress(s, m[..64]), m[64..], r);
    }
  }

  function Zeros(n: nat): (z: seq<byte>)
    ensures |z| == n
  {
    seq(n, _ => 0)
  }

  /** Eight bytes of a number, the low one first. */
  function Bytes8(n: nat): (b: seq<byte>)
    ensures |b| == 8
  {
    [ByteAt(n, 1), ByteAt(n, 0x100), ByteAt(n, 0x1_0000), ByteAt(n, 0x100_0000), ByteAt(n, 0x1_0000_0000),
     ByteAt(n, 0x100_0000_0000), ByteAt(n, 0x1_0000_0000_0000), ByteAt(n, 0x100_0000_0000_0000)]
  }

  function ByteAt(n: nat, unit: nat): byte
    requires unit > 0
  {
    (n / unit % 256) as byte
  }

  /** The zeros that fill a block up to the length. */
  function Fill(n: nat): (k: nat)
    ensures (n + 1 + k + 8) % 64 == 0 && k < 64
  {
    (119 - n % 64) % 64
  }

  /** Sections 3.1 and 3.2 of RFC 1321: one bit, zeros up to 448 bits modulo 512, and the length
      in bits modulo 2 to the 64. */
  function Padded(m: seq<byte>): seq<byte> {
    m + [0x80] + Zeros(Fill(|m|)) + Bytes8(8 * |m| % BYTES_END)
  }

  /** Section 3.5. */
  function Output(s: Chain): (r: seq<byte>)
    ensures |r| == 16
  {
    WordBytes(s.a) + WordBytes(s.b) + WordBytes(s.c) + WordBytes(s.d)
  }

  function WordBytes(w: bv32): (r: seq<byte>)
    ensures |r| == 4
  {
    [(w & 0xff) as byte, ((w >> 8) & 0xff) as byte, ((w >> 16) & 0xff) as byte, ((w >> 24) & 0xff) as byte]
  }

  function Digest(m: seq<byte>): seq<byte> {
    Output(Blocks(START, Padded(m)))
  }

  // ---------- the context ----------

  /** `ngx_md5_t`; the text so far is kept in two parts, the one that was compressed and the rest. */
  class Context {
    var bytes: nat
    var chain: Chain
    const buffer: array<byte>
    ghost var before: seq<byte>
    ghost var rest: seq<byte>

    ghost predicate Valid()
      reads this, buffer
    {
      && buffer.Length == 64 && |rest| < 64 && Whole(before) && buffer[..|rest|] == rest
      && chain == Blocks(START, before) && bytes == (|before| + |rest|) % BYTES_END
    }

    /** All that was given. */
    ghost function Text(): seq<byte>
      reads this
    {
      before + rest
    }

    /** `ngx_md5_init` */
    constructor ()
      ensures Valid() && Text() == [] && fresh(buffer)
    {
      bytes, chain, before, rest := 0, START, [], [];
      buffer := new byte[64];
    }

    /** `ngx_md5_body`: the blocks of the data, at least one. */
    method Body(data: seq<byte>)
      requires data != [] && Whole(data)
      modifies this`chain
      ensures chain == Blocks(old(chain), data)
    {
      hide Steps, Words;
      var p := 0;
      while true
        invariant 0 <= p < |data| && Whole(data[p..]) && Blocks(old(chain), data) == Blocks(chain, data[p..])
        decreases |data| - p
      {
        var s := chain;
        var t := AllSteps(s, Words(data[p..p + 64]));
        assert data[p..][..64] == data[p..p + 64] && data[p..][64..] == data[p + 64..];
        chain := Chain(Add(t.a, s.a), Add(t.b, s.b), Add(t.c, s.c), Add(t.d, s.d));
        p := p + 64;
        if p == |data| {
          break;
        }
      }
    }

    /** `ngx_memcpy` into the buffer. */
    method Copy(used: nat, data: seq<byte>)
      requires used + |data| <= buffer.Length
      modifies buffer
      ensures buffer[..used + |data|] == old(buffer[..used]) + data
    {
      forall i | 0 <= i < |data| { buffer[used + i] := data[i]; }
      assert buffer[..used] == old(buffer[..used]) && buffer[used..used + |data|] == data;
      assert buffer[..used + |data|] == buffer[..used] + buffer[used..used + |data|];
    }

    /** A full buffer is compressed. */
    method Flush(ghost full: seq<byte>)
      requires buffer.Length == 64 && buffer[..64] == full && Whole(before) && chain == Blocks(START, before)
      modifies this`chain, this`before
      ensures before == old(before) + full && Whole(before) && chain == Blocks(START, before)
    {
      hide Blocks;
      assert buffer[..] == full;
      Body(buffer[..]);
      BlocksSplit(START, before, full);
      WholeSum(before, full);
      before := before + full;
    }

    /** Lines 56-61: the whole blocks of the data are compressed, and the rest is kept. */
    method Tail(data0: seq<byte>)
      requires buffer.Length == 64 && Whole(before) && chain == Blocks(START, before) && bytes == (|before| + |data0|) % BYTES_END
      modifies this`chain, this`before, this`rest, buffer
      ensures Valid() && Text() == old(before) + data0
    {
      hide Blocks;
      var data := data0;
      ghost var text := before + data;
      if |data| >= 64 {
        var n := |data| / 64 * 64;
        WholePart(data);
        Body(data[..n]);
        BlocksSplit(START, before, data[..n]);
        WholeSum(before, data[..n]);
        before := before + data[..n];
        data := data[n..];
        assert text == before + data;
        assert |before| + |data| == |text|;
      }
      Copy(0, data);
      rest := data;
    }

    /** `ngx_md5_update` */
    method Update(data0: seq<byte>)
      requires Valid()
      modifies this, buffer
      ensures Valid() && Text() == old(Text()) + data0
    {
      hide Blocks;
      Used(|before|, |rest|);
      ModAdd(|before| + |rest|, |data0|);
      var used := bytes % 64;
      var data := data0;
      bytes := (bytes + |data|) % BYTES_END;
      if used > 0 {
        var free := 64 - used;
        if |data| < free {
          Copy(used, data);
          ghost var text := before + (rest + data);
          assert text == Text() + data;
          rest := rest + data;
          return;
        }
        Copy(used, data[..free]);
        data := data[free..];
        Joined(before, rest, data0, free);
        Flush(rest + data0[..free]);
      } else {
        assert before + rest == before;
      }
      Tail(data);
    }

    /** Lines 83-93 and the block after them: the length is put behind zeros, in the last block. */
    method LastBlock(used: nat, n: nat, ghost r: seq<byte>)
      requires buffer.Length == 64 && used == |r| <= 56 && buffer[..used] == r && Whole(before) && chain == Blocks(START, before)
      modifies this`chain, this`before, buffer
      ensures before == old(before) + (r + Zeros(56 - |r|) + Bytes8(n)) && chain == Blocks(START, before)
    {
      hide Blocks, Bytes8;
      Copy(used, Zeros(56 - used));
      Copy(56, Bytes8(n));
      Flush(r + Zeros(56 - |r|) + Bytes8(n));
    }

    /** `ngx_md5_final`: the sum of everything that was given, however it was given. */
    method Final() returns (result: seq<byte>)
      requires Valid()
      modifies this, buffer
      ensures result == Digest(old(Text()))
    {
      hide Blocks, Bytes8;
      ghost var b, r := before, rest;
      Used(|b|, |r|);
      var used := bytes % 64;
      Copy(used, [0x80]);
      used := used + 1;
      ghost var t := r + [0x80];
      if 64 - used < 8 {
        Copy(used, Zeros(64 - used));
        Flush(t + Zeros(64 - |t|));
        used := 0;
        t := [];
      }
      bytes := bytes * 8 % BYTES_END;
      BitLength(|b| + |r|);
      LastBlock(used, bytes, t);
      PaddedIs(b, r);
      result := Output(chain);
      bytes, chain := 0, Chain(0, 0, 0, 0);
      forall i | 0 <= i < 64 { buffer[i] := 0; }
    }
  }

  // ---------- arithmetic of lengths ----------

  lemma WholeSum(a: seq<byte>, b: seq<byte>)
    requires Whole(a) && Whole(b)
    ensures Whole(a + b)
  {
    assert |a| == |a| / 64 * 64 && |b| == |b| / 64 * 64;
  }

  lemma WholePart(data: seq<byte>)
    requires |data| >= 64
    ensures var n := |data| / 64 * 64; 64 <= n <= |data| && Whole(data[..n]) && |data| - n < 64
  {
  }

  lemma Used(b: nat, r: nat)
    requires b % 64 == 0 && r < 64
    ensures (b + r) % BYTES_END % 64 == r
  {
    var n, k := b + r, BYTES_END / 64;
    assert n == n / BYTES_END * k * 64 + n % BYTES_END;
    Multiple(n / BYTES_END * k, n % BYTES_END);
    Multiple(b / 64, r);
  }

  lemma Multiple(q: nat, m: nat)
    ensures (q * 64 + m) % 64 == m % 64
  {
  }

  lemma ModAdd(n: nat, k: nat)
    ensures (n % BYTES_END + k) % BYTES_END == (n + k) % BYTES_END
  {
  }

  lemma BitLength(n: nat)
    ensures n % BYTES_END * 8 % BYTES_END == 8 * n % BYTES_END
  {
    var q, m := n / BYTES_END, n % BYTES_END;
    Multiples(8 * q, 8 * m);
    assert 8 * n == 8 * q * BYTES_END + 8 * m;
  }

  lemma Multiples(q: nat, m: nat)
    ensures (q * BYTES_END + m) % BYTES_END == m % BYTES_END
  {
  }

  lemma Joined(b: seq<byte>, r: seq<byte>, data: seq<byte>, free: nat)
    requires free <= |data|
    ensures b + r + data == b + (r + data[..free]) + data[free..]
    ensures |b| + |r| + |data| == |b + (r + data[..free])| + |data[free..]|
  {
    assert data == data[..free] + data[free..];
  }

  /** The padding, by the blocks that it makes. */
  lemma PaddedIs(b: seq<byte>, r: seq<byte>)
    requires Whole(b) && |r| < 64
    ensures var n := 8 * (|b| + |r|) % BYTES_END;
      Padded(b + r) == if |r| < 56 then b + (r + [0x80] + Zeros(55 - |r|) + Bytes8(n))
                       else b + (r + [0x80] + Zeros(63 - |r|)) + ([] + Zeros(56) + Bytes8(n))
  {
    hide Bytes8;
    Multiple(|b| / 64, |r|);
    assert |b + r| % 64 == |r|;
    if |r| >= 56 {
      assert Zeros(119 - |r|) == Zeros(63 - |r|) + Zeros(56);
    }
  }
}
