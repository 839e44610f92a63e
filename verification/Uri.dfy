/** Escaping and unescaping of URIs, `ngx_escape_uri` and `ngx_unescape_uri` of `ngx_string.c`. */
module Uri {
  import opened Bits
  import opened Octets
  import opened Options

  const PERCENT: byte := 37
  const QUESTION: byte := 63
  const REFRESH: nat := 4           // `NGX_ESCAPE_REFRESH`
  const TYPES: nat := 7

  // ---------- escaping ----------

  /** The words of the seven tables; the table of mail_auth is the one of memcached. */
  function Table(t: nat, n: nat): nat
    requires t < TYPES && n < 8
  {
    if n == 0 then 0xffff_ffff
    else if n == 1 then
      (match t case 0 => 0x8000_0029 case 1 => 0x8800_0869 case 2 => 0xfc00_9fff case 3 => 0xad case 4 => 0x85 case _ => 0x21)
    else if n == 2 then (if t == 2 then 0x7800_0001 else 0)
    else if n == 3 then (if t == 2 then 0xb800_0001 else if t < 5 then 0x8000_0000 else 0)
    else if t < 5 then 0xffff_ffff else 0
  }

  predicate Escaped(t: nat, c: byte)
    requires t < TYPES
  {
    Bit(Table(t, c / 32), c % 32)
  }

  /** `hex` */
  function HexDigit(d: nat): byte
    requires d < 16
  {
    if d < 10 then 48 + d else 87 + d
  }

  function EscapedByte(t: nat, c: byte): seq<byte>
    requires t < TYPES
  {
    if Escaped(t, c) then [PERCENT, HexDigit(c / 16), HexDigit(c % 16)] else [c]
  }

  function Escape(t: nat, s: seq<byte>): seq<byte>
    requires t < TYPES
  {
    if s == [] then [] else EscapedByte(t, s[0]) + Escape(t, s[1..])
  }

  /** How many characters are escaped. */
  function Count(t: nat, s: seq<byte>): nat
    requires t < TYPES
  {
    if s == [] then 0 else (if Escaped(t, s[0]) then 1 else 0) + Count(t, s[1..])
  }

  lemma {:induction false} EscapeLength(t: nat, s: seq<byte>)
    requires t < TYPES
    ensures |Escape(t, s)| == |s| + 2 * Count(t, s)
  {
    hide Escaped, HexDigit;
    if s != [] {
      EscapeLength(t, s[1..]);
    }
  }

  /** `ngx_escape_uri`: without a place for the output it counts what is escaped, and an output of
      the size plus twice that number is long enough. */
  method EscapeUri(dst: array?<byte>, src: seq<byte>, t: nat) returns (n: nat)
    requires t < TYPES && (dst != null ==> dst.Length >= |src| + 2 * Count(t, src))
    modifies dst
    ensures dst == null ==> n == Count(t, src)
    ensures dst != null ==> Holds(dst, n, Escape(t, src)) && n == |src| + 2 * Count(t, src)
  {
    if dst == null {
      n := CountEscaped(src, t);
    } else {
      EscapeLength(t, src);
      n := WriteEscaped(dst, src, t);
    }
  }

  method CountEscaped(src: seq<byte>, t: nat) returns (n: nat)
    requires t < TYPES
    ensures n == Count(t, src)
  {
    hide Escaped;
    n := 0;
    var i := 0;
    while i < |src|
      invariant 0 <= i <= |src| && n + Count(t, src[i..]) == Count(t, src)
    {
      assert src[i..][1..] == src[i + 1..];
      if Escaped(t, src[i]) {
        n := n + 1;
      }
      i := i + 1;
    }
  }

  method PutByte(dst: array<byte>, d: nat, c: byte, t: nat, ghost s: seq<byte>) returns (e: nat)
    requires t < TYPES && Holds(dst, d, s) && d + |EscapedByte(t, c)| <= dst.Length
    modifies dst
    ensures Holds(dst, e, s + EscapedByte(t, c))
  {
    hide Escaped, HexDigit;
    e := d;
    if Escaped(t, c) {
      Put(dst, e, PERCENT, s);
      Put(dst, e + 1, HexDigit(c / 16), s + [PERCENT]);
      Put(dst, e + 2, HexDigit(c % 16), s + [PERCENT] + [HexDigit(c / 16)]);
      e := e + 3;
      assert s + [PERCENT] + [HexDigit(c / 16)] + [HexDigit(c % 16)] == s + EscapedByte(t, c);
    } else {
      Put(dst, e, c, s);
      e := e + 1;
    }
  }

  method WriteEscaped(dst: array<byte>, src: seq<byte>, t: nat) returns (d: nat)
    requires t < TYPES && dst.Length >= |Escape(t, src)|
    modifies dst
    ensures Holds(dst, d, Escape(t, src))
  {
    hide EscapedByte;
    d := 0;
    var i := 0;
    ghost var done: seq<byte> := [];
    while i < |src|
      invariant 0 <= i <= |src| && Holds(dst, d, done) && done + Escape(t, src[i..]) == Escape(t, src)
      invariant d + |Escape(t, src[i..])| <= dst.Length
    {
      assert src[i..][1..] == src[i + 1..];
      d := PutByte(dst, d, src[i], t, done);
      Associative(done, EscapedByte(t, src[i]), Escape(t, src[i + 1..]));
      done := done + EscapedByte(t, src[i]);
      i := i + 1;
    }
    assert done + [] == done;
  }

  // ---------- unescaping ----------

  const UNESCAPE_URI: nat := 1
  const UNESCAPE_REDIRECT: nat := 2

  /** The states of the loop; the first digit is kept as it stands in the text. */
  datatype State = Usual | Quoted | Second(first: byte)

  /** What a character does. */
  datatype Move = Move(state: State, out: seq<byte>, stop: bool)

  /** The value of a digit; `ch | 0x20` makes the letters small. */
  function Hex(c: byte): Option<byte> {
    if 48 <= c <= 57 then Some(c - 48) else if 97 <= c <= 102 then Some(c - 87) else if 65 <= c <= 70 then Some(c - 55) else None
  }

  predicate Has(kind: nat, flag: nat)
    requires flag > 0
  {
    kind / flag % 2 == 1
  }

  /** Lines 1641-1650 and 1677-1683: a redirect decodes only what may stand in it. */
  function Redirected(first: byte, ch: byte, v: byte): seq<byte> {
    if PERCENT < v < 0x7f then [v] else [PERCENT, first, ch]
  }

  function Step(s: State, ch: byte, kind: nat): Move {
    match s
    case Usual =>
      if ch == QUESTION && (Has(kind, UNESCAPE_URI) || Has(kind, UNESCAPE_REDIRECT)) then Move(Usual, [ch], true)
      else if ch == PERCENT then Move(Quoted, [], false)
      else Move(Usual, [ch], false)
    case Quoted =>
      if Hex(ch).Some? then Move(Second(ch), [], false) else Move(Usual, [ch], false)
    case Second(first) =>
      if Hex(ch).None? || Hex(first).None? then Move(Usual, [], false) else
        var v := (Hex(first).value * 16 + Hex(ch).value) % 256;
        if 48 <= ch <= 57 then Move(Usual, if Has(kind, UNESCAPE_REDIRECT) then Redirected(first, ch, v) else [v], false)
        else if Has(kind, UNESCAPE_URI) then Move(Usual, [v], v == QUESTION)
        else if Has(kind, UNESCAPE_REDIRECT) then (if v == QUESTION then Move(Usual, [v], true) else Move(Usual, Redirected(first, ch, v), false))
        else Move(Usual, [v], false)
  }

  /** What is written, and how many characters are read. */
  function Unescape(src: seq<byte>, s: State, kind: nat): (seq<byte>, nat)
    decreases |src|
  {
    if src == [] then ([], 0) else
      var m := Step(s, src[0], kind);
      if m.stop then (m.out, 1) else
        var (out, used) := Unescape(src[1..], m.state, kind);
        (m.out + out, used + 1)
  }

  /** The characters that are read but not yet written. */
  function Pending(s: State): nat {
    match s case Usual => 0 case Quoted => 1 case Second(_) => 2
  }

  lemma StepOut(s: State, ch: byte, kind: nat)
    ensures var m := Step(s, ch, kind);
      |m.out| + Pending(m.state) <= Pending(s) + 1 && (m.state.Second? ==> m.state.first == ch) && (m.stop ==> m.state == Usual)
  {
  }

  /** The output stands from a place on, and all else is as it was. */
  ghost predicate Written(buf: array<byte>, text: seq<byte>, d0: nat, out: seq<byte>)
    reads buf
  {
    && |text| == buf.Length && d0 + |out| <= buf.Length
    && (forall k :: 0 <= k < d0 ==> buf[k] == text[k])
    && (forall k :: 0 <= k < |out| ==> buf[d0 + k] == out[k])
    && (forall k :: d0 + |out| <= k < |text| ==> buf[k] == text[k])
  }

  /** The destination is not within or shortly behind the source. */
  predicate Places(d0: nat, s0: nat, size: nat, len: nat) {
    s0 + size <= len && (d0 <= s0 || (s0 + size <= d0 && d0 + size <= len))
  }

  method PutAll(buf: array<byte>, d: nat, out: seq<byte>, ghost text: seq<byte>, ghost d0: nat, ghost done: seq<byte>) returns (e: nat)
    requires Written(buf, text, d0, done) && d == d0 + |done| && d + |out| <= buf.Length
    modifies buf
    ensures e == d + |out| && Written(buf, text, d0, done + out)
  {
    forall k | 0 <= k < |out| { buf[d + k] := out[k]; }
    e := d + |out|;
    forall k | |done| <= k < |done + out| ensures buf[d0 + k] == (done + out)[k] {
      var j := k - |done|;
      assert buf[d + j] == out[j];
    }
  }

  /** `ngx_unescape_uri`, into the same place, or a place before the source or apart from it: what
      is written never overtakes what is read, and nothing else changes. */
  method UnescapeUri(buf: array<byte>, d0: nat, s0: nat, size: nat, kind: nat) returns (d: nat, s: nat)
    requires Places(d0, s0, size, buf.Length)
    modifies buf
    ensures var (out, used) := Unescape(old(buf[s0..s0 + size]), Usual, kind);
      && d == d0 + |out| && s == s0 + used && |out| <= used <= size && Written(buf, old(buf[..]), d0, out)
  {
    hide Step, Written;
    ghost var text := buf[..];
    ghost var src := buf[s0..s0 + size];
    ghost var done: seq<byte> := [];
    var state := Usual;
    d, s := d0, s0;
    AtStart(buf, text, d0);
    assert text[s0..s0 + size] == src && forall o: seq<byte> {:trigger done + o} :: done + o == o;
    while s < s0 + size
      invariant s0 <= s <= s0 + size && d == d0 + |done| && |done| + Pending(state) <= s - s0
      invariant |text| == buf.Length && Written(buf, text, d0, done)
      invariant state.Second? ==> s > s0 && state.first == text[s - 1]
      invariant Unescape(src, Usual, kind) == Rest(text[s..s0 + size], state, kind, done, s - s0)
    {
      RestStep(text[s..s0 + size], state, kind, done, s - s0);
      assert text[s..s0 + size][1..] == text[s + 1..s0 + size];
      ghost var was := state;
      var stop;
      state, d, stop := OneCharacter(buf, text, state, d, d0, s, s0, size, kind, done);
      done := done + Step(was, text[s], kind).out;
      s := s + 1;
      if stop {
        return;
      }
    }
    assert done + [] == done;
  }

  /** The body of the loop; the first digit is taken from the buffer again. */
  method OneCharacter(buf: array<byte>, ghost text: seq<byte>, state: State, d: nat, ghost d0: nat, s: nat, ghost s0: nat, ghost size: nat, kind: nat, ghost done: seq<byte>)
    returns (next: State, e: nat, stop: bool)
    requires Places(d0, s0, size, |text|) && |text| == buf.Length && s0 <= s < s0 + size && d == d0 + |done| && |done| + Pending(state) <= s - s0
    requires Written(buf, text, d0, done)
    requires state.Second? ==> s > s0 && state.first == text[s - 1]
    modifies buf
    ensures var m := Step(state, text[s], kind);
      && next == m.state && stop == m.stop && e == d0 + |done + m.out| && |done + m.out| + Pending(next) <= s + 1 - s0
      && Written(buf, text, d0, done + m.out)
      && (stop ==> next == Usual) && (next.Second? ==> next.first == text[s])
  {
    hide Step, Written;
    Unread(buf, text, d0, done, s);
    if state.Second? {
      Unread(buf, text, d0, done, s - 1);
    }
    var ch := buf[s];
    StepOut(state, ch, kind);
    var m := Step(if state.Second? then Second(buf[s - 1]) else state, ch, kind);
    e := PutAll(buf, d, m.out, text, d0, done);
    next, stop := m.state, m.stop;
  }

  lemma AtStart(buf: array<byte>, text: seq<byte>, d0: nat)
    requires text == buf[..] && d0 <= buf.Length
    ensures Written(buf, text, d0, [])
  {
  }

  /** What is before the destination or behind the output is still text. */
  lemma Unread(buf: array<byte>, text: seq<byte>, d0: nat, done: seq<byte>, k: nat)
    requires Written(buf, text, d0, done) && k < |text| && (k < d0 || d0 + |done| <= k)
    ensures buf[k] == text[k]
  {
  }

  /** What is still to be done, after what was done. */
  ghost function Rest(src: seq<byte>, s: State, kind: nat, done: seq<byte>, n: nat): (seq<byte>, nat) {
    var (out, used) := Unescape(src, s, kind);
    (done + out, n + used)
  }

  lemma RestStep(src: seq<byte>, s: State, kind: nat, done: seq<byte>, n: nat)
    requires src != []
    ensures var m := Step(s, src[0], kind);
      Rest(src, s, kind, done, n) == if m.stop then (done + m.out, n + 1) else Rest(src[1..], m.state, kind, done + m.out, n + 1)
  {
    hide Step;
    var m := Step(s, src[0], kind);
    Associative(done, m.out, Unescape(src[1..], m.state, kind).0);
  }

  // ---------- the round trip ----------

  /** Every table but the one of REFRESH escapes the percent sign. */
  lemma PercentEscaped(t: nat)
    requires t < TYPES
    ensures Escaped(t, PERCENT) <==> t != REFRESH
  {
    assert Bit(0x8000_0029, 5) && Bit(0x8800_0869, 5) && Bit(0xfc00_9fff, 5) && Bit(0xad, 5) && !Bit(0x85, 5) && Bit(0x21, 5);
  }

  /** The bits of a word from `lo` on are clear. */
  predicate NoBits(w: nat, lo: nat, n: nat)
    decreases lo + n
  {
    if lo > 0 then NoBits(w / 2, lo - 1, n) else n == 0 || (w % 2 == 0 && NoBits(w / 2, 0, n - 1))
  }

  lemma {:induction false} NoBitsAt(w: nat, lo: nat, n: nat, i: nat)
    requires NoBits(w, lo, n) && i < n
    ensures !Bit(w, lo + i)
    decreases lo + n
  {
    if lo > 0 {
      NoBitsAt(w / 2, lo - 1, n, i);
    } else if i > 0 {
      NoBitsAt(w / 2, 0, n - 1, i - 1);
    }
  }

  /** No table escapes the digits that an escape is written with. */
  lemma DigitNotEscaped(t: nat, d: nat)
    requires t < TYPES && d < 16
    ensures !Escaped(t, HexDigit(d))
  {
    if d < 10 {
      DigitBits(t);
      NoBitsAt(Table(t, 1), 16, 10, d);
    } else {
      LetterBits(t);
      NoBitsAt(Table(t, 3), 1, 6, d - 10);
    }
  }

  lemma DigitBits(t: nat)
    requires t < TYPES
    ensures NoBits(Table(t, 1), 16, 10)
  {
    NoBitsUpper(Table(t, 1), 10);
    UpperHalves();
    UpperHalf(t);
    hide Table, NoBits;
  }

  lemma UpperHalf(t: nat)
    requires t < TYPES
    ensures Table(t, 1) / 0x1_0000 in {0, 0x8000, 0x8800, 0xfc00}
  {
  }

  lemma UpperHalves()
    ensures NoBits(0, 0, 10) && NoBits(0x8000, 0, 10) && NoBits(0x8800, 0, 10) && NoBits(0xfc00, 0, 10)
  {
    NoBitsMultiple(0, 10);
    NoBitsMultiple(32, 10);
    NoBitsMultiple(34, 10);
    NoBitsMultiple(63, 10);
    assert Pow2(10) == 1024;
    hide NoBits, Pow2;
  }

  lemma {:induction false} NoBitsMultiple(k: nat, n: nat)
    ensures NoBits(k * Pow2(n), 0, n)
    decreases n
  {
    if n > 0 {
      NoBitsMultiple(k, n - 1);
      NoBitsDouble(k * Pow2(n - 1), n - 1);
      hide NoBits;
      assert k * Pow2(n) == 2 * (k * Pow2(n - 1));
    }
  }

  lemma NoBitsDouble(m: nat, n: nat)
    requires NoBits(m, 0, n)
    ensures NoBits(2 * m, 0, n + 1)
  {
  }

  lemma NoBitsUpper(w: nat, n: nat)
    ensures NoBits(w, 16, n) == NoBits(w / 0x1_0000, 0, n)
  {
    hide NoBits;
    NoBitsFour(w, 12, n);
    NoBitsFour(w / 16, 8, n);
    NoBitsFour(w / 16 / 16, 4, n);
    NoBitsFour(w / 16 / 16 / 16, 0, n);
    Sixteens(w);
  }

  lemma Sixteens(w: nat)
    ensures w / 16 / 16 / 16 / 16 == w / 0x1_0000
  {
    assert w / 16 / 16 == w / 256;
    assert w / 256 / 16 == w / 4096;
  }

  lemma NoBitsFour(w: nat, lo: nat, n: nat)
    ensures NoBits(w, lo + 4, n) == NoBits(w / 16, lo, n)
  {
    assert NoBits(w, lo + 4, n) == NoBits(w / 2 / 2, lo + 2, n);
    hide NoBits;
    assert w / 2 / 2 / 2 / 2 == w / 16;
  }

  lemma LetterBits(t: nat)
    requires t < TYPES
    ensures NoBits(Table(t, 3), 1, 6)
  {
    assert NoBits(0xb800_0001, 1, 6) && NoBits(0x8000_0000, 1, 6) && NoBits(0, 1, 6);
  }

  lemma HexOfDigit(d: nat)
    requires d < 16
    ensures Hex(HexDigit(d)) == Some(d) && HexDigit(d) != PERCENT
  {
  }

  /** The output from a state, when nothing ends the text early. */
  function Plain(src: seq<byte>, s: State): seq<byte> {
    Unescape(src, s, 0).0
  }

  lemma PlainStep(c: byte, src: seq<byte>, s: State)
    ensures var m := Step(s, c, 0); !m.stop && Plain([c] + src, s) == m.out + Plain(src, m.state)
  {
    assert ([c] + src)[1..] == src;
    assert !Has(0, UNESCAPE_URI) && !Has(0, UNESCAPE_REDIRECT);
  }

  lemma PlainByte(c: byte, src: seq<byte>)
    requires c != PERCENT
    ensures Plain([c] + src, Usual) == [c] + Plain(src, Usual)
  {
    PlainStep(c, src, Usual);
  }

  lemma PlainEscape(c: byte, src: seq<byte>)
    ensures Plain([PERCENT, HexDigit(c / 16), HexDigit(c % 16)] + src, Usual) == [c] + Plain(src, Usual)
  {
    var h, l := HexDigit(c / 16), HexDigit(c % 16);
    HexOfDigit(c / 16);
    HexOfDigit(c % 16);
    assert [PERCENT, h, l] + src == [PERCENT] + ([h] + ([l] + src));
    PlainStep(PERCENT, [h] + ([l] + src), Usual);
    PlainStep(h, [l] + src, Quoted);
    PlainStep(l, src, Second(h));
    hide Plain, HexDigit;
  }

  /** What was escaped is unescaped. */
  lemma {:induction false} UnescapeEscape(t: nat, s: seq<byte>)
    requires t < TYPES && (Escaped(t, PERCENT) || PERCENT !in s)
    ensures Plain(Escape(t, s), Usual) == s
    decreases |s|
  {
    hide Escaped, HexDigit;
    if s == [] {
      assert Plain([], Usual) == [];
    } else {
      hide Plain;
      var c, rest := s[0], Escape(t, s[1..]);
      UnescapeEscape(t, s[1..]);
      if Escaped(t, c) {
        PlainEscape(c, rest);
      } else {
        PlainByte(c, rest);
      }
      assert s == [c] + s[1..];
    }
  }

  // ---------- without the percent sign in the table ----------

  /** A character counts 5 if it is escaped and 2 if not. */
  function Weight(t: nat, s: seq<byte>): nat
    requires t < TYPES
  {
    if s == [] then 0 else (if Escaped(t, s[0]) then 5 else 2) + Weight(t, s[1..])
  }

  lemma {:induction false} WeightAdd(t: nat, a: seq<byte>, b: seq<byte>)
    requires t < TYPES
    ensures Weight(t, a + b) == Weight(t, a) + Weight(t, b)
    decreases |a|
  {
    hide Escaped;
    if a == [] {
      assert a + b == b;
    } else {
      WeightAdd(t, a[1..], b);
      assert (a + b)[1..] == a[1..] + b;
    }
  }

  lemma WeightOne(t: nat, c: byte)
    requires t < TYPES
    ensures Weight(t, [c]) == (if Escaped(t, c) then 5 else 2)
  {
    hide Escaped;
    assert [c][1..] == [];
  }

  /** What a percent sign of the text makes of the text after it: it is shorter by weight. */
  lemma {:induction false} Lighter(t: nat, s: seq<byte>)
    requires t < TYPES && !Escaped(t, PERCENT)
    ensures var w := Weight(t, Plain(Escape(t, s), Usual));
      if PERCENT in s then w < Weight(t, s) else w == Weight(t, s)
    decreases |s|, 2
  {
    hide Escaped, HexDigit, Plain, Step;
    if PERCENT !in s {
      UnescapeEscape(t, s);
    } else if s[0] == PERCENT {
      AfterPercent(t, s);
    } else {
      var c, rest := s[0], s[1..];
      assert s == [c] + rest;
      Lighter(t, rest);
      WeightAdd(t, [c], rest);
      WeightAdd(t, [c], Plain(Escape(t, rest), Usual));
      if Escaped(t, c) {
        PlainEscape(c, Escape(t, rest));
      } else {
        PlainByte(c, Escape(t, rest));
      }
    }
  }

  /** The digits of an escape that is read as text. */
  lemma DigitsAsText(t: nat, c: byte, src: seq<byte>)
    requires t < TYPES
    ensures var h, l := HexDigit(c / 16), HexDigit(c % 16);
      Plain([h, l] + src, Usual) == [h, l] + Plain(src, Usual) && Weight(t, [h, l] + Plain(src, Usual)) == 4 + Weight(t, Plain(src, Usual))
  {
    var h, l := HexDigit(c / 16), HexDigit(c % 16);
    HexOfDigit(c / 16);
    HexOfDigit(c % 16);
    DigitNotEscaped(t, c / 16);
    DigitNotEscaped(t, c % 16);
    hide HexDigit, Escaped;
    assert [h, l] + src == [h] + ([l] + src);
    PlainByte(h, [l] + src);
    PlainByte(l, src);
    hide Plain;
    assert [h, l] + Plain(src, Usual) == [h] + ([l] + Plain(src, Usual));
    WeightAdd(t, [h], [l] + Plain(src, Usual));
    WeightAdd(t, [l], Plain(src, Usual));
    WeightOne(t, h);
    WeightOne(t, l);
  }

  lemma AfterPercent(t: nat, s: seq<byte>)
    requires t < TYPES && !Escaped(t, PERCENT) && s != [] && s[0] == PERCENT
    ensures Weight(t, Plain(Escape(t, s), Usual)) < Weight(t, s)
    decreases |s|, 0
  {
    hide Escaped, HexDigit, Plain;
    PlainStep(PERCENT, Escape(t, s[1..]), Usual);
    assert [] + Plain(Escape(t, s[1..]), Quoted) == Plain(Escape(t, s[1..]), Quoted);
    AfterOne(t, s[1..]);
  }

  /** After one, two escapes are text but for the sign. */
  lemma SignAsText(t: nat, s: seq<byte>)
    requires t < TYPES && s != [] && Escaped(t, s[0]) && !Escaped(t, PERCENT)
    ensures Weight(t, Plain(Escape(t, s), Quoted)) == 6 + Weight(t, Plain(Escape(t, s[1..]), Usual))
    ensures forall first: byte :: Hex(first).Some? ==>
      Weight(t, Plain(Escape(t, s), Second(first))) == 4 + Weight(t, Plain(Escape(t, s[1..]), Usual))
  {
    var c, rest := s[0], Escape(t, s[1..]);
    var dl := [HexDigit(c / 16), HexDigit(c % 16)] + rest;
    assert Escape(t, s) == [PERCENT] + dl;
    hide Escaped, HexDigit, Plain, Escape;
    DigitsAsText(t, c, rest);
    PlainStep(PERCENT, dl, Quoted);
    WeightAdd(t, [PERCENT], Plain(dl, Usual));
    WeightOne(t, PERCENT);
    forall first: byte | Hex(first).Some?
      ensures Weight(t, Plain([PERCENT] + dl, Second(first))) == 4 + Weight(t, Plain(rest, Usual))
    {
      PlainStep(PERCENT, dl, Second(first));
      assert [] + Plain(dl, Usual) == Plain(dl, Usual);
    }
  }

  lemma AfterOne(t: nat, s: seq<byte>)
    requires t < TYPES && !Escaped(t, PERCENT)
    ensures Weight(t, Plain(Escape(t, s), Quoted)) < 2 + Weight(t, s)
    decreases |s|, 1
  {
    hide Escaped, HexDigit;
    if s == [] {
      assert Plain([], Quoted) == [];
    } else {
      hide Plain;
      var c, rest := s[0], Escape(t, s[1..]);
      Lighter(t, s[1..]);
      if Escaped(t, c) {
        SignAsText(t, s);
      } else if Hex(c).Some? {
        PlainStep(c, rest, Quoted);
        assert [] + Plain(rest, Second(c)) == Plain(rest, Second(c));
        AfterTwo(t, c, s[1..]);
      } else {
        PlainStep(c, rest, Quoted);
        WeightAdd(t, [c], Plain(rest, Usual));
        WeightOne(t, c);
      }
    }
  }

  lemma AfterTwo(t: nat, first: byte, s: seq<byte>)
    requires t < TYPES && !Escaped(t, PERCENT) && Hex(first).Some?
    ensures Weight(t, Plain(Escape(t, s), Second(first))) < 4 + Weight(t, s)
    decreases |s|, 1
  {
    hide Escaped, HexDigit;
    if s == [] {
      assert Plain([], Second(first)) == [];
    } else {
      hide Plain;
      Lighter(t, s[1..]);
      var c, rest := s[0], Escape(t, s[1..]);
      if Escaped(t, c) {
        SignAsText(t, s);
      } else {
        PlainStep(c, rest, Second(first));
        var out := Step(Second(first), c, 0).out;
        OutOfSecond(t, first, c);
        WeightAdd(t, out, Plain(rest, Usual));
      }
    }
  }

  lemma OutOfSecond(t: nat, first: byte, c: byte)
    requires t < TYPES
    ensures var m := Step(Second(first), c, 0); m.state == Usual && Weight(t, m.out) <= 5
  {
    hide Escaped;
    var m := Step(Second(first), c, 0);
    if m.out != [] {
      WeightOne(t, m.out[0]);
      assert !Has(0, UNESCAPE_REDIRECT) && m.out == [m.out[0]];
    }
  }

  /** Nothing ends the text early with type 0. */
  lemma {:induction false} ReadsAll(src: seq<byte>, s: State)
    ensures Unescape(src, s, 0).1 == |src|
    decreases |src|
  {
    if src != [] {
      PlainStep(src[0], src[1..], s);
      assert src == [src[0]] + src[1..];
      ReadsAll(src[1..], Step(s, src[0], 0).state);
    }
  }

  /** Unescaping undoes escaping with a table when and only when the table escapes the percent sign
      or the text has none: for all texts with every table but the one of REFRESH. All of the text
      is read. */
  lemma RoundTrip(t: nat, s: seq<byte>)
    requires t < TYPES
    ensures Unescape(Escape(t, s), Usual, 0).0 == s <==> t != REFRESH || PERCENT !in s
    ensures Unescape(Escape(t, s), Usual, 0).1 == |Escape(t, s)|
  {
    ReadsAll(Escape(t, s), Usual);
    PercentEscaped(t);
    if t != REFRESH || PERCENT !in s {
      UnescapeEscape(t, s);
    } else {
      Lighter(t, s);
    }
  }
}
