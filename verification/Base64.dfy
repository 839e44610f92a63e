/** Base64 of `ngx_string.c`, in the alphabets of sections 4 and 5 of RFC 4648. */
module Base64 {
  import opened Octets
  import opened Options

  type six = n: nat | n < 64

  const NOT_IN: nat := 77           // of the tables of the decoder
  const PAD: byte := 61             // '='

  /** `basis64` of the encoders; `url` tells which alphabet is meant. */
  function Letter(n: six, url: bool): byte {
    if n < 26 then 65 + n else if n < 52 then 71 + n else if n < 62 then n - 4
    else if n == 62 then (if url then 45 else 43) else if url then 95 else 47
  }

  /** `basis64` of the decoders. */
  function Value(c: byte, url: bool): nat {
    if 65 <= c <= 90 then c - 65 else if 97 <= c <= 122 then c - 71 else if 48 <= c <= 57 then c + 4
    else if c == (if url then 45 else 43) then 62 else if c == (if url then 95 else 47) then 63 else NOT_IN
  }

  lemma ValueOfLetter(n: six, url: bool)
    ensures Value(Letter(n, url), url) == n && Letter(n, url) != PAD
  {
  }

  lemma LetterOfValue(c: byte, url: bool)
    requires Value(c, url) != NOT_IN
    ensures Value(c, url) < 64 && Letter(Value(c, url), url) == c
  {
  }

  // ---------- what is written and read ----------

  /** Three bytes are four numbers of six bits. */
  function Split(a: byte, b: byte, c: byte): (six, six, six, six) {
    (a / 4, a % 4 * 16 + b / 16, b % 16 * 4 + c / 64, c % 64)
  }

  function Join(p: nat, q: nat, r: nat, s: nat): (byte, byte, byte) {
    ((p * 4 + q / 16) % 256, (q * 16 + r / 4) % 256, (r * 64 + s) % 256)
  }

  lemma FirstByte(a: byte, b: byte)
    ensures (a / 4 * 4 + (a % 4 * 16 + b / 16) / 16) % 256 == a
  {
    var x: int := b / 16;
    assert (a % 4 * 16 + x) / 16 == a % 4;
  }

  lemma SecondByte(a: byte, b: byte, c: byte)
    ensures ((a % 4 * 16 + b / 16) * 16 + (b % 16 * 4 + c / 64) / 4) % 256 == b
  {
    var x: int, q: int := c / 64, a % 4;
    assert (b % 16 * 4 + x) / 4 == b % 16;
    assert (q * 16 + b / 16) * 16 + b % 16 == q * 256 + b;
  }

  lemma ThirdByte(b: byte, c: byte)
    ensures ((b % 16 * 4 + c / 64) * 64 + c % 64) % 256 == c
  {
    var q: int := b % 16;
    assert (q * 4 + c / 64) * 64 + c % 64 == q * 256 + c;
  }

  lemma JoinSplit(a: byte, b: byte, c: byte)
    ensures var (p, q, r, s) := Split(a, b, c); Join(p, q, r, s) == (a, b, c)
  {
    FirstByte(a, b);
    SecondByte(a, b, c);
    ThirdByte(b, c);
  }

  lemma JoinFirst(p: six, q: six)
    ensures (p * 4 + q / 16) % 256 / 4 == p && (p * 4 + q / 16) % 256 % 4 == q / 16
  {
    var x: int := q / 16;
    assert (p * 4 + x) / 4 == p && (p * 4 + x) % 4 == x;
  }

  lemma JoinSecond(q: six, r: six)
    ensures (q * 16 + r / 4) % 256 / 16 == q % 16 && (q * 16 + r / 4) % 256 % 16 == r / 4
  {
    var x: int, y: int, h: int := r / 4, q / 16, q % 16;
    Wrap(y, h * 16 + x);
    assert q * 16 + x == 256 * y + (h * 16 + x);
    assert (h * 16 + x) / 16 == h && (h * 16 + x) % 16 == x;
  }

  lemma JoinThird(r: six, s: six)
    ensures (r * 64 + s) % 256 / 64 == r % 4 && (r * 64 + s) % 256 % 64 == s
  {
    var y: int, h: int := r / 4, r % 4;
    Wrap(y, h * 64 + s);
    assert (h * 64 + s) / 64 == h && (h * 64 + s) % 64 == s;
  }

  lemma Wrap(y: int, k: int)
    requires 0 <= k < 256
    ensures (256 * y + k) % 256 == k
  {
  }

  lemma SplitJoin(p: six, q: six, r: six, s: six)
    ensures var (a, b, c) := Join(p, q, r, s); Split(a, b, c) == (p, q, r, s)
  {
    JoinFirst(p, q);
    JoinSecond(q, r);
    JoinThird(r, s);
    var (a, b, c) := Join(p, q, r, s);
    assert a / 4 == p && a % 4 * 16 + b / 16 == q / 16 * 16 + q % 16;
    assert b % 16 * 4 + c / 64 == r / 4 * 4 + r % 4;
  }

  function Four(a: byte, b: byte, c: byte, url: bool): (f: seq<byte>)
    ensures |f| == 4
  {
    var (p, q, r, s) := Split(a, b, c);
    [Letter(p, url), Letter(q, url), Letter(r, url), Letter(s, url)]
  }

  function Encoded(src: seq<byte>, url: bool): seq<byte>
    decreases |src|
  {
    if |src| > 2 then
      Four(src[0], src[1], src[2], url) + Encoded(src[3..], url)
    else if |src| == 2 then
      var (p, q, r, s) := Split(src[0], src[1], 0);
      [Letter(p, url), Letter(q, url), Letter(r, url)] + (if url then [] else [PAD])
    else if |src| == 1 then
      var (p, q, r, s) := Split(src[0], 0, 0);
      [Letter(p, url), Letter(q, url)] + (if url then [] else [PAD, PAD])
    else []
  }

  /** The characters before the first sign of padding. */
  function Body(src: seq<byte>): (b: seq<byte>)
    ensures b <= src && PAD !in b
    decreases |src|
  {
    if src == [] || src[0] == PAD then [] else [src[0]] + Body(src[1..])
  }

  predicate AllIn(src: seq<byte>, url: bool) {
    forall i :: 0 <= i < |src| ==> Value(src[i], url) != NOT_IN
  }

  function Read(t: seq<byte>, url: bool): seq<byte>
    decreases |t|
  {
    if |t| > 3 then
      var (a, b, c) := Join(Value(t[0], url), Value(t[1], url), Value(t[2], url), Value(t[3], url));
      [a, b, c] + Read(t[4..], url)
    else if |t| == 3 then
      var (a, b, c) := Join(Value(t[0], url), Value(t[1], url), Value(t[2], url), 0);
      [a, b]
    else if |t| == 2 then
      var (a, b, c) := Join(Value(t[0], url), Value(t[1], url), 0, 0);
      [a]
    else []
  }

  function Decoded(src: seq<byte>, url: bool): Option<seq<byte>> {
    var t := Body(src);
    if AllIn(t, url) && |t| % 4 != 1 then Some(Read(t, url)) else None
  }

  // ---------- in place ----------

  /** Lines 1134-1137. */
  method PutFour(dst: array<byte>, d: nat, a: byte, b: byte, c: byte, url: bool, ghost done: seq<byte>)
    requires Holds(dst, d, done) && d + 4 <= dst.Length
    modifies dst
    ensures Holds(dst, d + 4, done + Four(a, b, c, url))
  {
    hide Letter;
    Put(dst, d, Letter(a / 4 % 64, url), done);
    ghost var t := done + [Letter(a / 4, url)];
    Put(dst, d + 1, Letter(a % 4 * 16 + b / 16, url), t);
    t := t + [Letter(a % 4 * 16 + b / 16, url)];
    Put(dst, d + 2, Letter(b % 16 * 4 + c / 64, url), t);
    t := t + [Letter(b % 16 * 4 + c / 64, url)];
    Put(dst, d + 3, Letter(c % 64, url), t);
    assert t + [Letter(c % 64, url)] == done + Four(a, b, c, url);
  }

  /** `ngx_encode_base64_internal` */
  method Encode(src: seq<byte>, dst: array<byte>, url: bool) returns (d: nat)
    requires dst.Length >= (|src| + 2) / 3 * 4
    modifies dst
    ensures Holds(dst, d, Encoded(src, url))
  {
    hide Four;
    EncodedLength(src, url);
    var i: nat := 0;
    d := 0;
    ghost var done: seq<byte> := [];
    while |src| - i > 2
      invariant i <= |src| && Holds(dst, d, done) && done + Encoded(src[i..], url) == Encoded(src, url)
      invariant d + |Encoded(src[i..], url)| <= dst.Length
    {
      assert src[i..][3..] == src[i + 3..];
      PutFour(dst, d, src[i], src[i + 1], src[i + 2], url, done);
      ghost var four := Four(src[i], src[i + 1], src[i + 2], url);
      Associative(done, four, Encoded(src[i + 3..], url));
      done := done + four;
      d, i := d + 4, i + 3;
    }
    if |src| - i > 0 {
      d := EncodeEnd(src[i..], dst, d, url, done);
    } else {
      assert done + [] == done;
    }
  }

  lemma {:induction false} EncodedLength(src: seq<byte>, url: bool)
    ensures |Encoded(src, url)| <= (|src| + 2) / 3 * 4
    decreases |src|
  {
    if |src| > 2 {
      EncodedLength(src[3..], url);
    }
  }

  /** Lines 1143-1160: the last one or two bytes. */
  method EncodeEnd(s: seq<byte>, dst: array<byte>, d0: nat, url: bool, ghost done: seq<byte>) returns (d: nat)
    requires 1 <= |s| <= 2 && Holds(dst, d0, done) && d0 + |Encoded(s, url)| <= dst.Length
    modifies dst
    ensures Holds(dst, d, done + Encoded(s, url))
  {
    hide Letter;
    Put(dst, d0, Letter(s[0] / 4 % 64, url), done);
    ghost var t := done + [Letter(s[0] / 4, url)];
    if |s| == 1 {
      Put(dst, d0 + 1, Letter(s[0] % 4 * 16, url), t);
      t := t + [Letter(s[0] % 4 * 16, url)];
      d := d0 + 2;
      if !url {
        Put(dst, d, PAD, t);
        t := t + [PAD];
        d := d + 1;
      }
    } else {
      Put(dst, d0 + 1, Letter(s[0] % 4 * 16 + s[1] / 16, url), t);
      t := t + [Letter(s[0] % 4 * 16 + s[1] / 16, url)];
      Put(dst, d0 + 2, Letter(s[1] % 16 * 4, url), t);
      t := t + [Letter(s[1] % 16 * 4, url)];
      d := d0 + 3;
    }
    if !url {
      Put(dst, d, PAD, t);
      t := t + [PAD];
      d := d + 1;
    }
    assert t == done + Encoded(s, url);
  }

  /** Lines 1240-1260, for the characters that are kept. */
  method Fill(t: seq<byte>, dst: array<byte>, url: bool) returns (d: nat)
    requires |t| % 4 != 1 && dst.Length >= (|t| + 3) / 4 * 3
    modifies dst
    ensures Holds(dst, d, Read(t, url))
  {
    hide Value, Join;
    ReadLength(t, url);
    var i: nat := 0;
    d := 0;
    ghost var done: seq<byte> := [];
    ghost var groups: nat := 0;
    while |t| - i > 3
      invariant i <= |t| && i == 4 * groups && Holds(dst, d, done) && done + Read(t[i..], url) == Read(t, url)
      invariant d + |Read(t[i..], url)| <= dst.Length
    {
      assert t[i..][4..] == t[i + 4..];
      ghost var three := PutThree(dst, d, Value(t[i], url), Value(t[i + 1], url), Value(t[i + 2], url), Value(t[i + 3], url), done);
      Associative(done, three, Read(t[i + 4..], url));
      done := done + three;
      d, i, groups := d + 3, i + 4, groups + 1;
    }
    Remainder(|t|, groups);
    d := FillEnd(t[i..], dst, d, url, done);
  }

  lemma Remainder(n: nat, g: nat)
    ensures n == 4 * g + 1 ==> n % 4 == 1
  {
  }

  lemma {:induction false} ReadLength(t: seq<byte>, url: bool)
    ensures |Read(t, url)| <= (|t| + 3) / 4 * 3
    decreases |t|
  {
    hide Value, Join;
    if |t| > 3 {
      ReadLength(t[4..], url);
    }
  }

  method PutThree(dst: array<byte>, d: nat, p: nat, q: nat, r: nat, s: nat, ghost done: seq<byte>) returns (ghost three: seq<byte>)
    requires Holds(dst, d, done) && d + 3 <= dst.Length
    modifies dst
    ensures var (a, b, c) := Join(p, q, r, s); three == [a, b, c]
    ensures Holds(dst, d + 3, done + three)
  {
    Put(dst, d, (p * 4 + q / 16) % 256, done);
    ghost var t := done + [(p * 4 + q / 16) % 256];
    Put(dst, d + 1, (q * 16 + r / 4) % 256, t);
    t := t + [(q * 16 + r / 4) % 256];
    Put(dst, d + 2, (r * 64 + s) % 256, t);
    three := [(p * 4 + q / 16) % 256, (q * 16 + r / 4) % 256, (r * 64 + s) % 256];
    assert t + [(r * 64 + s) % 256] == done + three;
  }

  /** Lines 1252-1258. */
  method FillEnd(t: seq<byte>, dst: array<byte>, d0: nat, url: bool, ghost done: seq<byte>) returns (d: nat)
    requires |t| <= 3 && |t| != 1 && Holds(dst, d0, done) && d0 + |Read(t, url)| <= dst.Length
    modifies dst
    ensures Holds(dst, d, done + Read(t, url))
  {
    hide Value;
    d := d0;
    ghost var all := done;
    if |t| > 1 {
      Put(dst, d, (Value(t[0], url) * 4 + Value(t[1], url) / 16) % 256, all);
      all := all + [(Value(t[0], url) * 4 + Value(t[1], url) / 16) % 256];
      d := d + 1;
    }
    if |t| > 2 {
      Put(dst, d, (Value(t[1], url) * 16 + Value(t[2], url) / 4) % 256, all);
      all := all + [(Value(t[1], url) * 16 + Value(t[2], url) / 4) % 256];
      d := d + 1;
    }
    assert all == done + Read(t, url);
  }

  /** Lines 1226-1234: the letters up to the padding. */
  method Scan(src: seq<byte>, url: bool) returns (ok: bool, len: nat)
    ensures ok == AllIn(Body(src), url) && (ok ==> len <= |src| && Body(src) == src[..len])
  {
    hide Value, Body;
    len := 0;
    while len < |src|
      invariant len <= |src| && forall k :: 0 <= k < len ==> src[k] != PAD && Value(src[k], url) != NOT_IN
    {
      if src[len] == PAD {
        break;
      }
      if Value(src[len], url) == NOT_IN {
        BodyAtLeast(src, len + 1);
        assert Body(src)[len] == src[len];
        return false, 0;
      }
      len := len + 1;
    }
    BodyIs(src, len);
    return true, len;
  }

  /** `ngx_decode_base64_internal` */
  method Decode(src: seq<byte>, dst: array<byte>, url: bool) returns (ok: bool, d: nat)
    requires dst.Length >= (|src| + 3) / 4 * 3
    modifies dst
    ensures ok == Decoded(src, url).Some? && (ok ==> Holds(dst, d, Decoded(src, url).value))
  {
    var len;
    ok, len := Scan(src, url);
    hide AllIn, Read;
    d := 0;
    if !ok || len % 4 == 1 {
      return false, 0;
    }
    d := Fill(src[..len], dst, url);
  }

  lemma {:induction false} BodyAtLeast(src: seq<byte>, n: nat)
    requires n <= |src| && forall k :: 0 <= k < n ==> src[k] != PAD
    ensures n <= |Body(src)|
    decreases n
  {
    if n > 0 {
      BodyAtLeast(src[1..], n - 1);
    }
  }

  lemma {:induction false} BodyIs(src: seq<byte>, n: nat)
    requires n <= |src| && (n < |src| ==> src[n] == PAD) && forall k :: 0 <= k < n ==> src[k] != PAD
    ensures Body(src) == src[..n]
    decreases n
  {
    if n > 0 {
      BodyIs(src[1..], n - 1);
      assert src[..n] == [src[0]] + src[1..][..n - 1];
    }
  }

  // ---------- the round trips ----------

  lemma {:induction false} BodyOf(s: seq<byte>, pads: seq<byte>)
    requires PAD !in s && (pads != [] ==> pads[0] == PAD)
    ensures Body(s + pads) == s
    decreases |s|
  {
    if s != [] {
      assert (s + pads)[1..] == s[1..] + pads;
      BodyOf(s[1..], pads);
    } else {
      assert s + pads == pads;
    }
  }

  /** The letters that are written, without the padding. */
  function Letters(src: seq<byte>, url: bool): seq<byte>
    decreases |src|
  {
    if |src| > 2 then Four(src[0], src[1], src[2], url) + Letters(src[3..], url)
    else if |src| == 2 then Four(src[0], src[1], 0, url)[..3]
    else if |src| == 1 then Four(src[0], 0, 0, url)[..2]
    else []
  }

  function Pads(n: nat): seq<byte> {
    if n % 3 == 2 then [PAD] else if n % 3 == 1 then [PAD, PAD] else []
  }

  lemma {:induction false} EncodedIs(src: seq<byte>, url: bool)
    ensures Encoded(src, url) == Letters(src, url) + (if url then [] else Pads(|src|))
    decreases |src|
  {
    hide Letter;
    if |src| > 2 {
      EncodedIs(src[3..], url);
      Associative(Four(src[0], src[1], src[2], url), Letters(src[3..], url), if url then [] else Pads(|src|));
      hide Four;
    }
  }

  lemma FourIn(a: byte, b: byte, c: byte, url: bool)
    ensures var f := Four(a, b, c, url);
      PAD !in f && AllIn(f, url) && Join(Value(f[0], url), Value(f[1], url), Value(f[2], url), Value(f[3], url)) == (a, b, c)
  {
    var (p, q, r, s) := Split(a, b, c);
    ValueOfLetter(p, url);
    ValueOfLetter(q, url);
    ValueOfLetter(r, url);
    ValueOfLetter(s, url);
    JoinSplit(a, b, c);
    hide Letter, Value, Join, Split;
  }

  lemma {:induction false} ReadLetters(src: seq<byte>, url: bool)
    ensures var t := Letters(src, url);
      PAD !in t && AllIn(t, url) && |t| % 4 != 1 && Read(t, url) == src
    decreases |src|
  {
    if |src| > 2 {
      ReadLetters(src[3..], url);
      ReadGroup(src[0], src[1], src[2], Letters(src[3..], url), url);
      LettersStep(src, url);
      hide Letters, Read, AllIn;
      assert src == [src[0], src[1], src[2]] + src[3..];
    } else if |src| == 2 {
      ReadTwo(src[0], src[1], url);
      hide Read, AllIn, Four;
      assert src == [src[0], src[1]];
    } else if |src| == 1 {
      ReadOne(src[0], url);
      hide Read, AllIn, Four;
      assert src == [src[0]];
    }
  }

  lemma LettersStep(src: seq<byte>, url: bool)
    requires |src| > 2
    ensures Letters(src, url) == Four(src[0], src[1], src[2], url) + Letters(src[3..], url)
  {
  }

  lemma ReadGroup(a: byte, b: byte, c: byte, t: seq<byte>, url: bool)
    requires PAD !in t && AllIn(t, url)
    ensures var u := Four(a, b, c, url) + t;
      PAD !in u && AllIn(u, url) && |u| % 4 == |t| % 4 && Read(u, url) == [a, b, c] + Read(t, url)
  {
    FourIn(a, b, c, url);
    hide Value, Join, Four;
    var f := Four(a, b, c, url);
    assert (f + t)[4..] == t;
    PlusFour(|t|);
  }

  lemma PlusFour(n: nat)
    ensures (n + 4) % 4 == n % 4
  {
  }

  lemma ReadTwo(a: byte, b: byte, url: bool)
    ensures var u := Four(a, b, 0, url)[..3];
      PAD !in u && AllIn(u, url) && Read(u, url) == [a, b]
  {
    FourIn(a, b, 0, url);
    var f := Four(a, b, 0, url);
    JoinLess(Value(f[0], url), Value(f[1], url), Value(f[2], url), Value(f[3], url));
    hide Value, Four, Join;
  }

  /** The first bytes do not need the later numbers. */
  lemma JoinLess(p: nat, q: nat, r: nat, s: nat)
    ensures Join(p, q, r, 0).0 == Join(p, q, 0, 0).0 == Join(p, q, r, s).0 && Join(p, q, r, 0).1 == Join(p, q, r, s).1
  {
  }

  lemma ReadOne(a: byte, url: bool)
    ensures var u := Four(a, 0, 0, url)[..2];
      PAD !in u && AllIn(u, url) && Read(u, url) == [a]
  {
    FourIn(a, 0, 0, url);
    var f := Four(a, 0, 0, url);
    JoinLess(Value(f[0], url), Value(f[1], url), Value(f[2], url), Value(f[3], url));
    hide Value, Four, Join;
  }

  /** What was encoded is decoded, in both alphabets. */
  lemma DecodeEncode(src: seq<byte>, url: bool)
    ensures Decoded(Encoded(src, url), url) == Some(src)
  {
    hide Value, Letter, Letters, Read, Four;
    EncodedIs(src, url);
    ReadLetters(src, url);
    BodyOf(Letters(src, url), if url then [] else Pads(|src|));
  }

  lemma FourOfFour(f: seq<byte>, url: bool)
    requires |f| == 4 && AllIn(f, url)
    ensures var (a, b, c) := Join(Value(f[0], url), Value(f[1], url), Value(f[2], url), Value(f[3], url)); Four(a, b, c, url) == f
  {
    assert forall i :: 0 <= i < 4 ==> Value(f[i], url) != NOT_IN;
    LetterOfValue(f[0], url);
    LetterOfValue(f[1], url);
    LetterOfValue(f[2], url);
    LetterOfValue(f[3], url);
    SplitJoin(Value(f[0], url), Value(f[1], url), Value(f[2], url), Value(f[3], url));
    hide Letter, Value, Join, Split;
  }

  /** A text of whole groups is the one that what it says is encoded as. */
  lemma {:induction false} EncodeDecode(t: seq<byte>, url: bool)
    requires |t| % 4 == 0 && AllIn(t, url)
    ensures Encoded(Read(t, url), url) == t
    decreases |t|
  {
    hide Value, Join, Four;
    if t != [] {
      var f, rest := t[..4], t[4..];
      FourOfFour(f, url);
      EncodeDecode(rest, url);
      var (a, b, c) := Join(Value(t[0], url), Value(t[1], url), Value(t[2], url), Value(t[3], url));
      assert Read(t, url)[3..] == Read(rest, url);
      assert t == f + rest;
    }
  }
}
