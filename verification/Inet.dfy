/** IPv6 addresses as text: `ngx_inet_addr`, `ngx_inet6_addr` and `ngx_inet6_ntop` of
    `ngx_inet.c`. An address is eight words of 16 bits, stored as 16 bytes. */
module Inet {
  import opened Octets
  import opened Options

  type word = w: nat | w < 0x1_0000

  const NONE: nat := 0xffff_ffff        // `INADDR_NONE`
  const WIDE: nat := 0x1_0000_0000_0000_0000
  const ADDR_STRLEN: nat := 45          // `NGX_INET6_ADDRSTRLEN`

  function High(w: nat): byte {
    w / 256 % 256
  }

  function Low(w: nat): byte {
    w % 256
  }

  function Bytes(ws: seq<word>): (b: seq<byte>)
    ensures |b| == 2 * |ws|
  {
    if ws == [] then [] else [High(ws[0]), Low(ws[0])] + Bytes(ws[1..])
  }

  function Zeros(n: nat): (z: seq<word>)
    ensures |z| == n
  {
    seq(n, _ => 0)
  }

  // ---------- four numbers with dots ----------

  /** The loop of `ngx_inet_addr` from a place on: the sum so far, the number that is read, and the
      dots. The number has 64 bits and the sum 32. */
  function Inet4From(text: string, k: nat, addr: nat, octet: nat, n: nat): (r: nat)
    requires k <= |text|
    ensures r <= NONE
    decreases |text| - k
  {
    if k == |text| then
      if n == 3 && octet < 256 then (addr * 256 + octet) % 0x1_0000_0000 else NONE
    else if '0' <= text[k] <= '9' then
      Inet4From(text, k + 1, addr, (octet * 10 + (text[k] - '0') as nat) % WIDE, n)
    else if text[k] == '.' && octet < 256 then
      Inet4From(text, k + 1, (addr * 256 + octet) % 0x1_0000_0000, 0, n + 1)
    else NONE
  }

  // ---------- which texts are addresses with dots ----------

  /** The text between the dots. */
  function Parts(text: string): (parts: seq<string>)
    ensures |parts| > 0
  {
    if text == "" then [""]
    else if text[0] == '.' then [""] + Parts(text[1..])
    else var parts := Parts(text[1..]); [[text[0]] + parts[0]] + parts[1..]
  }

  function Joined(parts: seq<string>): string
    requires |parts| > 0
  {
    if |parts| == 1 then parts[0] else parts[0] + ("." + Joined(parts[1..]))
  }

  lemma {:induction false} PartsJoined(text: string)
    ensures Joined(Parts(text)) == text
  {
    if text != "" {
      PartsJoined(text[1..]);
      var parts := Parts(text[1..]);
      if text[0] == '.' {
        assert ([""] + parts)[1..] == parts;
        assert text == "" + ("." + text[1..]);
      } else {
        assert ([[text[0]] + parts[0]] + parts[1..])[1..] == parts[1..];
        assert text == [text[0]] + text[1..];
      }
    }
  }

  predicate Digits(t: string) {
    forall i :: 0 <= i < |t| ==> '0' <= t[i] <= '9'
  }

  /** The number that digits stand for; no digits stand for 0. */
  function Number(t: string): nat
    requires Digits(t)
  {
    if t == "" then 0 else Number(t[..|t| - 1]) * 10 + (t[|t| - 1] - '0') as nat
  }

  /** A part is taken for a byte. */
  predicate Octet(t: string) {
    Digits(t) && Number(t) % WIDE < 256
  }

  predicate FourOctets(parts: seq<string>) {
    |parts| == 4 && Octet(parts[0]) && Octet(parts[1]) && Octet(parts[2]) && Octet(parts[3])
  }

  function OctetOf(t: string): (b: byte)
    requires Octet(t)
  {
    Number(t) % WIDE
  }

  function SumOf(parts: seq<string>): (v: nat)
    requires FourOctets(parts)
    ensures v <= NONE
  {
    ((OctetOf(parts[0]) * 256 + OctetOf(parts[1])) * 256 + OctetOf(parts[2])) * 256 + OctetOf(parts[3])
  }

  /** The loop over the parts, when the digits of the first one that were read are `done`. */
  function OverParts(parts: seq<string>, done: string, addr: nat, n: nat): nat
    requires |parts| > 0 && Digits(done)
  {
    if !Octet(done + parts[0]) then NONE
    else
      var sum := (addr * 256 + OctetOf(done + parts[0])) % 0x1_0000_0000;
      if |parts| == 1 then if n == 3 then sum else NONE
      else OverParts(parts[1..], "", sum, n + 1)
  }

  lemma NumberStep(done: string, c: char)
    requires Digits(done) && '0' <= c <= '9'
    ensures Digits(done + [c]) && Number(done + [c]) % WIDE == (Number(done) % WIDE * 10 + (c - '0') as nat) % WIDE
  {
    assert (done + [c])[..|done|] == done;
    var q := Number(done) / WIDE;
    assert Number(done) * 10 + (c - '0') as nat == (q * 10) * WIDE + (Number(done) % WIDE * 10 + (c - '0') as nat);
    Multiples(q * 10, Number(done) % WIDE * 10 + (c - '0') as nat);
  }

  lemma Multiples(q: nat, r: nat)
    ensures (q * WIDE + r) % WIDE == r % WIDE
  {
  }

  lemma DigitPart(part: string, more: seq<string>, done: string, c: char, addr: nat, n: nat)
    requires Digits(done) && '0' <= c <= '9'
    ensures Digits(done + [c]) && OverParts([[c] + part] + more, done, addr, n) == OverParts([part] + more, done + [c], addr, n)
  {
    assert (done + [c]) + part == done + ([c] + part);
    assert ([[c] + part] + more)[1..] == more == ([part] + more)[1..];
  }

  lemma OtherPart(part: string, more: seq<string>, done: string, c: char, addr: nat, n: nat)
    requires Digits(done) && !('0' <= c <= '9')
    ensures OverParts([[c] + part] + more, done, addr, n) == NONE
  {
    assert (done + ([c] + part))[|done|] == c;
  }

  lemma DotPart(parts: seq<string>, done: string, addr: nat, n: nat)
    requires |parts| > 0 && Digits(done)
    ensures OverParts([""] + parts, done, addr, n) ==
      if Octet(done) then OverParts(parts, "", (addr * 256 + OctetOf(done)) % 0x1_0000_0000, n + 1) else NONE
  {
    assert done + "" == done && ([""] + parts)[1..] == parts;
  }

  lemma LastPart(done: string, addr: nat, n: nat)
    requires Digits(done)
    ensures OverParts([""], done, addr, n) == if Octet(done) && n == 3 then (addr * 256 + OctetOf(done)) % 0x1_0000_0000 else NONE
  {
    assert done + "" == done;
  }

  /** The loop over characters is the loop over parts. */
  lemma {:induction false} CharsAreParts(text: string, k: nat, done: string, addr: nat, n: nat)
    requires k <= |text| && Digits(done)
    ensures Inet4From(text, k, addr, Number(done) % WIDE, n) == OverParts(Parts(text[k..]), done, addr, n)
    decreases |text| - k
  {
    hide OverParts, Number;
    if k == |text| {
      LastPart(done, addr, n);
    } else {
      var rest := Parts(text[k + 1..]);
      assert text[k..][1..] == text[k + 1..];
      if '0' <= text[k] <= '9' {
        NumberStep(done, text[k]);
        CharsAreParts(text, k + 1, done + [text[k]], addr, n);
        DigitPart(rest[0], rest[1..], done, text[k], addr, n);
        assert [rest[0]] + rest[1..] == rest;
      } else if text[k] == '.' {
        DotPart(rest, done, addr, n);
        EmptyNumber();
        CharsAreParts(text, k + 1, "", (addr * 256 + Number(done) % WIDE) % 0x1_0000_0000, n + 1);
      } else {
        OtherPart(rest[0], rest[1..], done, text[k], addr, n);
      }
    }
  }

  lemma EmptyNumber()
    ensures Number("") == 0
  {
  }

  /** Another number of parts than four is refused. */
  lemma {:induction false} WrongCount(parts: seq<string>, addr: nat, n: nat)
    requires |parts| > 0 && n + |parts| != 4
    ensures OverParts(parts, "", addr, n) == NONE
    decreases |parts|
  {
    hide Octet;
    if |parts| > 1 && Octet("" + parts[0]) {
      WrongCount(parts[1..], (addr * 256 + OctetOf("" + parts[0])) % 0x1_0000_0000, n + 1);
    }
  }

  lemma OnePart(parts: seq<string>, addr: nat, n: nat)
    requires |parts| > 0 && addr < 0x100_0000
    ensures OverParts(parts, "", addr, n) ==
      if !Octet(parts[0]) then NONE
      else if |parts| == 1 then if n == 3 then addr * 256 + OctetOf(parts[0]) else NONE
      else OverParts(parts[1..], "", addr * 256 + OctetOf(parts[0]), n + 1)
  {
    assert "" + parts[0] == parts[0];
  }

  lemma FourParts(parts: seq<string>)
    requires |parts| == 4
    ensures OverParts(parts, "", 0, 0) == if FourOctets(parts) then SumOf(parts) else NONE
  {
    hide Octet, OverParts;
    var b, c, d := parts[1..], parts[2..], parts[3..];
    assert b[1..] == c && c[1..] == d && b[0] == parts[1] && c[0] == parts[2] && d[0] == parts[3];
    OnePart(parts, 0, 0);
    if Octet(parts[0]) {
      var x := OctetOf(parts[0]);
      OnePart(b, x, 1);
      if Octet(parts[1]) {
        var y := x * 256 + OctetOf(parts[1]);
        OnePart(c, y, 2);
        if Octet(parts[2]) {
          OnePart(d, y * 256 + OctetOf(parts[2]), 3);
        }
      }
    }
  }

  /** A text is taken for an address when and only when it is four parts with dots between them, each
      of no characters but digits, and a byte modulo the range of a 64-bit word. */
  lemma InetAddrIff(text: string)
    ensures var parts, r := Parts(text), Inet4From(text, 0, 0, 0, 0);
      Joined(parts) == text && r == if FourOctets(parts) then SumOf(parts) else NONE
  {
    PartsJoined(text);
    CharsAreParts(text, 0, "", 0, 0);
    assert text[0..] == text;
    hide Inet4From, OverParts, Octet;
    if |Parts(text)| == 4 {
      FourParts(Parts(text));
    } else {
      WrongCount(Parts(text), 0, 0);
    }
  }

  /** `ngx_inet_addr`, in host order. */
  method InetAddr(text: string) returns (r: nat)
    ensures r == Inet4From(text, 0, 0, 0, 0)
    ensures var parts := Parts(text); r == if FourOctets(parts) then SumOf(parts) else NONE
  {
    InetAddrIff(text);
    hide FourOctets, Parts, SumOf;
    var addr: nat, octet: nat, n: nat := 0, 0, 0;
    var p := 0;
    while p < |text|
      invariant p <= |text| && Inet4From(text, p, addr, octet, n) == Inet4From(text, 0, 0, 0, 0)
    {
      var c := text[p];
      p := p + 1;
      if '0' <= c <= '9' {
        octet := (octet * 10 + (c - '0') as nat) % WIDE;
        continue;
      }
      if c == '.' && octet < 256 {
        addr := (addr * 256 + octet) % 0x1_0000_0000;
        octet := 0;
        n := n + 1;
        continue;
      }
      return NONE;
    }
    if n == 3 && octet < 256 {
      return (addr * 256 + octet) % 0x1_0000_0000;
    }
    return NONE;
  }

  /** Three dots alone are taken for 0.0.0.0. */
  lemma DotsAlone()
    ensures Inet4From("...", 0, 0, 0, 0) == 0
  {
  }

  // ---------- the parser ----------

  /** What `word * 16` grows by; both cases of the letters are read. */
  function Digit(c: char): Option<nat> {
    if '0' <= c <= '9' then Some((c - '0') as nat)
    else if 'a' <= c <= 'f' then Some((c - 'a') as nat + 10)
    else if 'A' <= c <= 'F' then Some((c - 'A') as nat + 10)
    else None
  }

  /** The parser within a text: the words that are stored, where the run of zeros comes among them,
      where the text after the last colon begins, and the word that is read. */
  datatype State = State(words: seq<word>, zero: Option<nat>, digit: Option<nat>, nibbles: nat, word: word)

  predicate Fits(s: State) {
    |s.words| <= 7 && s.nibbles <= 4 && (s.zero.Some? ==> s.zero.value <= |s.words|)
    && (s.nibbles < 4 ==> s.word < [1, 0x10, 0x100, 0x1000][s.nibbles])
  }

  /** The last word is stored, and the run of zeros filled in. */
  function Finish(s: State): (r: Option<seq<word>>)
    requires |s.words| <= 7 && (s.zero.Some? ==> s.zero.value <= |s.words|)
    ensures r.Some? ==> |r.value| == 8
  {
    var ws := s.words + [s.word];
    if s.nibbles == 0 && s.zero.None? then None
    else if |ws| < 8 then
      if s.zero.Some? then Some(ws[..s.zero.value] + Zeros(8 - |ws|) + ws[s.zero.value..]) else None
    else if s.zero.None? then Some(ws) else None
  }

  /** The text after the last colon is an address with dots. */
  function AfterDot(text: string, s: State): (r: Option<seq<word>>)
    requires Fits(s) && (s.digit.Some? ==> s.digit.value <= |text|)
    ensures r.Some? ==> |r.value| == 8
  {
    if |s.words| == 7 || s.digit.None? then None else
      var v := Inet4From(text[s.digit.value..], 0, 0, 0, 0);
      if v == NONE then None else Finish(State(s.words + [v / 0x1_0000], s.zero, None, 1, v % 0x1_0000))
  }

  /** One character: the next state, or the result. */
  datatype Step = Go(s: State) | Stop(r: Option<seq<word>>)

  function One(text: string, k: nat, s: State): (t: Step)
    requires k < |text| && Fits(s) && (s.digit.Some? ==> s.digit.value <= k)
    ensures t.Go? ==> Fits(t.s) && (t.s.digit.Some? ==> t.s.digit.value <= k + 1)
    ensures t.Stop? && t.r.Some? ==> |t.r.value| == 8
  {
    var c := text[k];
    if c == ':' then
      if s.nibbles > 0 then
        if |s.words| == 7 then Stop(None) else Go(State(s.words + [s.word], s.zero, Some(k + 1), 0, 0))
      else if s.zero.None? then Go(s.(zero := Some(|s.words|), digit := Some(k + 1)))
      else Stop(None)
    else if c == '.' && s.nibbles > 0 then
      Stop(AfterDot(text, s))
    else if s.nibbles == 4 then Stop(None)
    else
      match Digit(c)
      case None => Stop(None)
      case Some(d) => Go(s.(nibbles := s.nibbles + 1, word := s.word * 16 + d))
  }

  function ParseFrom(text: string, k: nat, s: State): (r: Option<seq<word>>)
    requires k <= |text| && Fits(s) && (s.digit.Some? ==> s.digit.value <= k)
    ensures r.Some? ==> |r.value| == 8
    decreases |text| - k
  {
    if k == |text| then Finish(s) else
      match One(text, k, s)
      case Go(t) => ParseFrom(text, k + 1, t)
      case Stop(r) => r
  }

  const START: State := State([], None, None, 0, 0)

  function Parse(text: string): (r: Option<seq<word>>)
    ensures r.Some? ==> |r.value| == 8
  {
    if text == [] then None else ParseFrom(text, if text[0] == ':' then 1 else 0, START)
  }

  // ---------- the parser in place ----------

  /** The first bytes of the address are those of the words. */
  ghost predicate Holds(addr: array<byte>, ws: seq<word>)
    reads addr
  {
    2 * |ws| <= addr.Length && addr[..2 * |ws|] == Bytes(ws)
  }

  lemma {:induction false} BytesAppend(ws: seq<word>, vs: seq<word>)
    ensures Bytes(ws + vs) == Bytes(ws) + Bytes(vs)
  {
    if ws == [] {
      assert ws + vs == vs;
    } else {
      BytesAppend(ws[1..], vs);
      assert (ws + vs)[1..] == ws[1..] + vs && (ws + vs)[0] == ws[0];
      Associative([High(ws[0]), Low(ws[0])], Bytes(ws[1..]), Bytes(vs));
    }
  }

  lemma BytesOfOne(w: nat)
    ensures Bytes([w % 0x1_0000]) == [w / 256 % 256, w % 256]
  {
    var v: word := w % 0x1_0000;
    LowWord(w);
    assert [v][1..] == [];
  }

  lemma LowWord(w: nat)
    ensures High(w % 0x1_0000) == w / 256 % 256 && Low(w % 0x1_0000) == w % 256
  {
    var q: nat, v: nat := w / 0x1_0000, w % 0x1_0000;
    assert w / 256 == q * 256 + v / 256;
  }

  /** Two bytes are stored, the high one first. */
  method Push(addr: array<byte>, a: nat, ghost ws: seq<word>, w: nat)
    requires a == 2 * |ws| && Holds(addr, ws) && a + 2 <= addr.Length
    modifies addr
    ensures Holds(addr, ws + [w % 0x1_0000])
  {
    hide Bytes;
    BytesAppend(ws, [w % 0x1_0000]);
    BytesOfOne(w);
    addr[a], addr[a + 1] := w / 256 % 256, w % 256;
    assert addr[..a + 2] == addr[..a] + [w / 256 % 256, w % 256];
    assert addr[..a] == old(addr[..a]);
  }

  /** `t` is `b` with its bytes from `zero` to `a` moved up by `n`, and zeros in between. */
  ghost predicate Moved(b: seq<byte>, t: seq<byte>, a: nat, zero: nat, n: nat) {
    && |b| == |t| == a + n && zero <= a
    && (forall i :: 0 <= i < zero ==> t[i] == b[i])
    && (forall i :: zero <= i < zero + n ==> t[i] == 0)
    && (forall i :: zero + n <= i < |t| ==> t[i] == b[i - n])
  }

  /** Lines 155-160: what follows the run of zeros moves to the end, and the run is filled in. */
  method Spread(addr: array<byte>, a: nat, zero: nat, n: nat)
    requires zero <= a && a + n == addr.Length
    modifies addr
    ensures Moved(old(addr[..]), addr[..], a, zero, n)
  {
    var s: int, d: int := a - 1, a - 1 + n;
    while s >= zero
      invariant zero - 1 <= s < a && d == s + n
      invariant forall i :: 0 <= i <= s ==> addr[i] == old(addr[i])
      invariant forall i :: d < i < addr.Length ==> addr[i] == old(addr[i - n])
      decreases s
    {
      addr[d] := addr[s];
      d, s := d - 1, s - 1;
    }
    forall i | zero <= i < zero + n { addr[i] := 0; }
  }

  lemma MovedIs(b: seq<byte>, t: seq<byte>, a: nat, zero: nat, n: nat)
    requires Moved(b, t, a, zero, n)
    ensures t == b[..zero] + seq(n, _ => 0) + b[zero..a]
  {
  }

  /** The bytes of the words with the run of zeros filled in. */
  lemma SpreadWords(b: seq<byte>, t: seq<byte>, ws: seq<word>, z: nat)
    requires |b| == 16 && |ws| < 8 && z <= |ws| && b[..2 * |ws|] == Bytes(ws)
    requires Moved(b, t, 2 * |ws|, 2 * z, 16 - 2 * |ws|)
    ensures t == Bytes(ws[..z] + Zeros(8 - |ws|) + ws[z..])
  {
    hide Bytes, Moved, Zeros;
    SpreadParts(b, t, ws, z);
    BytesThree(ws[..z], Zeros(8 - |ws|), ws[z..]);
  }

  lemma BytesThree(a: seq<word>, b: seq<word>, c: seq<word>)
    ensures Bytes(a + b + c) == Bytes(a) + Bytes(b) + Bytes(c)
  {
    hide Bytes;
    BytesAppend(a + b, c);
    BytesAppend(a, b);
  }

  lemma SpreadParts(b: seq<byte>, t: seq<byte>, ws: seq<word>, z: nat)
    requires |b| == 16 && |ws| < 8 && z <= |ws| && b[..2 * |ws|] == Bytes(ws)
    requires Moved(b, t, 2 * |ws|, 2 * z, 16 - 2 * |ws|)
    ensures t == Bytes(ws[..z]) + Bytes(Zeros(8 - |ws|)) + Bytes(ws[z..])
  {
    hide Bytes, Moved;
    BytesSlice(ws, z);
    BytesZeros(8 - |ws|);
    MovedIs(b, t, 2 * |ws|, 2 * z, 16 - 2 * |ws|);
    assert b[..2 * z] == b[..2 * |ws|][..2 * z];
    assert b[2 * z..2 * |ws|] == b[..2 * |ws|][2 * z..];
  }

  lemma {:induction false} BytesSlice(ws: seq<word>, z: nat)
    requires z <= |ws|
    ensures Bytes(ws[..z]) == Bytes(ws)[..2 * z] && Bytes(ws[z..]) == Bytes(ws)[2 * z..]
  {
    BytesAppend(ws[..z], ws[z..]);
    assert ws == ws[..z] + ws[z..];
  }

  lemma {:induction false} BytesZeros(n: nat)
    ensures Bytes(Zeros(n)) == seq(2 * n, _ => 0)
  {
    if n > 0 {
      BytesZeros(n - 1);
      assert Zeros(n)[1..] == Zeros(n - 1);
      assert seq(2 * n, _ => 0) == [0, 0] + seq(2 * (n - 1), _ => 0);
    }
  }

  /** Lines 145-170: the last word, and the run of zeros. */
  method Close(addr: array<byte>, a: nat, zero: Option<nat>, nibbles: nat, w: nat, n0: nat, ghost s: State) returns (ok: bool)
    requires |s.words| <= 7 && addr.Length == 16 && a == 2 * |s.words| && n0 == 8 - |s.words| && Holds(addr, s.words)
    requires w % 0x1_0000 == s.word && (nibbles == 0 <==> s.nibbles == 0) && Twice(zero, s.zero) && (s.zero.Some? ==> s.zero.value <= |s.words|)
    modifies addr
    ensures ok == Finish(s).Some? && (ok ==> addr[..] == Bytes(Finish(s).value))
  {
    hide Moved, Bytes;
    if nibbles == 0 && zero.None? {
      return false;
    }
    Push(addr, a, s.words, w);
    ghost var ws := s.words + [s.word];
    var n := n0 - 1;
    if n > 0 {
      if zero.Some? {
        n := n * 2;
        ghost var b := addr[..];
        assert b[..2 * |ws|] == addr[..2 * |ws|];
        Spread(addr, a + 2, zero.value, n);
        SpreadWords(b, addr[..], ws, s.zero.value);
        return true;
      }
    } else if zero.None? {
      assert addr[..16] == addr[..];
      return true;
    }
    return false;
  }

  predicate Twice(bytes: Option<nat>, words: Option<nat>) {
    if words.Some? then bytes == Some(2 * words.value) else bytes.None?
  }

  lemma Unfold(text: string, k: nat, s: State)
    requires k <= |text| && Fits(s) && (s.digit.Some? ==> s.digit.value <= k)
    ensures ParseFrom(text, k, s) ==
      if k == |text| then Finish(s) else if One(text, k, s).Go? then ParseFrom(text, k + 1, One(text, k, s).s) else One(text, k, s).r
  {
  }

  /** Lines 109-124: the rest of the text is an address with dots. */
  method CloseQuad(text: string, addr: array<byte>, a: nat, zero: Option<nat>, digit: Option<nat>, n: nat, ghost s: State) returns (ok: bool)
    requires Fits(s) && s.digit == digit && (digit.Some? ==> digit.value <= |text|) && addr.Length == 16
    requires a == 2 * |s.words| && n == 8 - |s.words| && Twice(zero, s.zero) && Holds(addr, s.words)
    modifies addr
    ensures var r := AfterDot(text, s); ok == r.Some? && (ok ==> addr[..] == Bytes(r.value))
  {
    hide Finish, Bytes, Inet4From;
    if n < 2 || digit.None? {
      return false;
    }
    var w := InetAddr(text[digit.value..]);
    if w == NONE {
      return false;
    }
    Push(addr, a, s.words, w / 0x1_0000);
    ok := Close(addr, a + 2, zero, 1, w, n - 1, State(s.words + [w / 0x1_0000], s.zero, None, 1, w % 0x1_0000));
  }

  /** `ngx_inet6_addr`. */
  method Inet6Addr(text: string, addr: array<byte>) returns (ok: bool)
    requires addr.Length == 16
    modifies addr
    ensures ok == Parse(text).Some? && (ok ==> addr[..] == Bytes(Parse(text).value))
  {
    if |text| == 0 {
      return false;
    }
    hide Finish, Bytes, AfterDot;
    var zero: Option<nat>, digit: Option<nat> := None, None;
    var nibbles: nat, w: nat, n: nat := 0, 0, 8;
    var a: nat := 0;
    var k: nat := if text[0] == ':' then 1 else 0;
    ghost var s := START;
    hide ParseFrom;
    assert addr[..0] == Bytes([]);
    while k < |text|
      invariant k <= |text| && Fits(s) && s.nibbles == nibbles && s.word == w && s.digit == digit && (digit.Some? ==> digit.value <= k)
      invariant a == 2 * |s.words| && n == 8 - |s.words| && Twice(zero, s.zero) && Holds(addr, s.words)
      invariant ParseFrom(text, k, s) == Parse(text)
    {
      var c := text[k];
      k := k + 1;
      ghost var t := One(text, k - 1, s);
      Unfold(text, k - 1, s);
      if c == ':' {
        if nibbles > 0 {
          digit := Some(k);
          Push(addr, a, s.words, w);
          a := a + 2;
          n := n - 1;
          if n == 0 {
            return false;
          }
          nibbles, w := 0, 0;
        } else if zero.None? {
          digit := Some(k);
          zero := Some(a);
        } else {
          return false;
        }
      } else if c == '.' && nibbles > 0 {
        ok := CloseQuad(text, addr, a, zero, digit, n, s);
        return;
      } else {
        nibbles := nibbles + 1;
        if nibbles > 4 {
          return false;
        }
        var d := Digit(c);
        if d.None? {
          return false;
        }
        w := w * 16 + d.value;
      }
      s := t.s;
    }
    Unfold(text, k, s);
    ok := Close(addr, a, zero, nibbles, w, n, s);
  }

  // ---------- the printer ----------

  /** The run of zeros that is left out: its place or -1, and its length. */
  datatype Run = Run(zero: int, max: nat)

  predicate IsRun(w: seq<word>, a: int, n: nat) {
    0 <= a && a + n <= |w| && forall i :: a <= i < a + n ==> w[i] == 0
  }

  /** The loop of lines 301-322 from a word on. */
  function Scan(w: seq<word>, i: nat, n: nat, last: int, r: Run): Run
    requires i <= |w|
    decreases |w| - i
  {
    if i == |w| then if r.max < n then Run(last, n) else r
    else if w[i] != 0 then Scan(w, i + 1, 0, last, if r.max < n then Run(last, n) else r)
    else Scan(w, i + 1, n + 1, if n == 0 then i else last, r)
  }

  function Longest(w: seq<word>): Run {
    Scan(w, 0, 0, -1, Run(-1, 1))
  }

  /** No run is longer, and of the longest ones it is the first; a single zero is not left out. */
  ghost predicate IsLongest(w: seq<word>, r: Run) {
    && (if r.zero < 0 then r == Run(-1, 1) else r.max >= 2 && IsRun(w, r.zero, r.max))
    && forall a: nat, n: nat :: IsRun(w, a, n) ==> n <= r.max && (n == r.max >= 2 ==> r.zero <= a)
  }

  function HexChar(d: nat): char
    requires d < 16
  {
    "0123456789abcdef"[d]
  }

  /** `%uxi` */
  function Hex(v: nat): (s: string)
    ensures |s| >= 1 && (v < 0x10 ==> |s| == 1) && (v < 0x100 ==> |s| <= 2) && (v < 0x1000 ==> |s| <= 3) && (v < 0x1_0000 ==> |s| <= 4)
    ensures (|s| == 1 ==> v < 0x10) && (|s| == 2 ==> v < 0x100) && (|s| == 3 ==> v < 0x1000)
  {
    if v < 16 then [HexChar(v)] else Hex(v / 16) + [HexChar(v % 16)]
  }

  /** `%ud` */
  function Dec(v: nat): (s: string)
    ensures |s| >= 1 && (v < 10 ==> |s| == 1) && (v < 100 ==> |s| <= 2) && (v < 1000 ==> |s| <= 3)
  {
    if v < 10 then [HexChar(v)] else Dec(v / 10) + [HexChar(v % 10)]
  }

  /** The last two words are written as four numbers. */
  predicate Dotted(w: seq<word>, r: Run)
    requires |w| == 8
  {
    r.zero == 0 && ((r.max == 5 && w[5] == 0xffff) || r.max == 6 || (r.max == 7 && High(w[7]) != 0 && Low(w[7]) != 1))
  }

  /** The loop of lines 339-352 from a word on, up to the word `n`. */
  function Groups(w: seq<word>, i: nat, n: nat, r: Run): string
    requires |w| == 8 && n <= 8 && (r.zero >= 0 ==> r.max > 0)
    decreases 8 - i
  {
    if i >= n then ""
    else if i == r.zero then ":" + Groups(w, i + r.max, n, r)
    else Hex(w[i]) + (if i < 7 then ":" else "") + Groups(w, i + 1, n, r)
  }

  function Quad(w: seq<word>): string
    requires |w| == 8
  {
    Dec(High(w[6])) + ("." + QuadRest(w))
  }

  function QuadRest(w: seq<word>): string
    requires |w| == 8
  {
    Dec(Low(w[6])) + ("." + (Dec(High(w[7])) + ("." + Dec(Low(w[7])))))
  }

  function TextOf(w: seq<word>, r: Run): string
    requires |w| == 8 && (r.zero >= 0 ==> r.max > 0)
  {
    (if r.zero == 0 then ":" else "") + Groups(w, 0, if Dotted(w, r) then 6 else 8, r) + (if Dotted(w, r) then Quad(w) else "")
  }

  // ---------- what is printed is parsed ----------

  ghost predicate At(text: string, k: nat, s: string) {
    k + |s| <= |text| && text[k..k + |s|] == s
  }

  lemma AtParts(text: string, k: nat, a: string, b: string)
    requires At(text, k, a + b)
    ensures At(text, k, a) && At(text, k + |a|, b)
    ensures |a| == 1 ==> text[k] == a[0]
  {
    assert text[k..k + |a|] == text[k..k + |a + b|][..|a|] == a;
    assert text[k + |a|..k + |a| + |b|] == text[k..k + |a + b|][|a|..] == b;
  }

  predicate Ready(s: State) {
    Fits(s) && s.nibbles == 0 && s.word == 0
  }

  lemma DigitOf(d: nat)
    requires d < 16
    ensures Digit(HexChar(d)) == Some(d) && HexChar(d) != ':' && HexChar(d) != '.'
    ensures d < 10 ==> '0' <= HexChar(d) <= '9' && (HexChar(d) - '0') as nat == d
  {
  }

  lemma HexStep(text: string, k: nat, s: State, d: nat) returns (t: State)
    requires d < 16 && At(text, k, [HexChar(d)]) && Fits(s) && s.nibbles < 4 && (s.digit.Some? ==> s.digit.value <= k)
    ensures t == s.(nibbles := s.nibbles + 1, word := s.word * 16 + d) && Fits(t) && ParseFrom(text, k, s) == ParseFrom(text, k + 1, t)
  {
    DigitOf(d);
    assert text[k..k + 1][0] == HexChar(d);
    hide Inet4From, Finish, Digit, HexChar;
    t := One(text, k, s).s;
  }

  /** A word is read back. */
  lemma {:induction false} ReadHex(text: string, k: nat, s: State, v: nat) returns (t: State)
    requires At(text, k, Hex(v)) && v < 0x1_0000 && Ready(s) && (s.digit.Some? ==> s.digit.value <= k)
    ensures t == s.(nibbles := |Hex(v)|, word := v) && Fits(t)
    ensures ParseFrom(text, k, s) == ParseFrom(text, k + |Hex(v)|, t)
    decreases v
  {
    hide ParseFrom, HexChar;
    if v >= 16 {
      AtParts(text, k, Hex(v / 16), [HexChar(v % 16)]);
      t := ReadHex(text, k, s, v / 16);
      t := HexStep(text, k + |Hex(v / 16)|, t, v % 16);
    } else {
      t := HexStep(text, k, s, v);
    }
  }

  /** The digits of a number are taken for hexadecimal ones first. */
  lemma {:induction false} SkipDec(text: string, k: nat, s: State, v: nat) returns (t: State)
    requires At(text, k, Dec(v)) && v < 1000 && Ready(s) && (s.digit.Some? ==> s.digit.value <= k)
    ensures t == s.(nibbles := |Dec(v)|, word := t.word) && Fits(t)
    ensures ParseFrom(text, k, s) == ParseFrom(text, k + |Dec(v)|, t)
    decreases v
  {
    hide ParseFrom, HexChar;
    if v >= 10 {
      AtParts(text, k, Dec(v / 10), [HexChar(v % 10)]);
      t := SkipDec(text, k, s, v / 10);
      t := HexStep(text, k + |Dec(v / 10)|, t, v % 10);
    } else {
      t := HexStep(text, k, s, v);
    }
  }

  lemma DecStep(text: string, k: nat, addr: nat, octet: nat, n: nat, d: nat)
    requires d < 10 && At(text, k, [HexChar(d)]) && octet < 1000
    ensures Inet4From(text, k, addr, octet, n) == Inet4From(text, k + 1, addr, octet * 10 + d, n)
  {
    DigitOf(d);
    hide HexChar;
    assert text[k..k + 1][0] == HexChar(d);
  }

  lemma {:induction false} ReadDec(text: string, k: nat, addr: nat, n: nat, v: nat)
    requires At(text, k, Dec(v)) && v < 1000
    ensures Inet4From(text, k, addr, 0, n) == Inet4From(text, k + |Dec(v)|, addr, v, n)
    decreases v
  {
    hide Inet4From, HexChar;
    if v >= 10 {
      AtParts(text, k, Dec(v / 10), [HexChar(v % 10)]);
      ReadDec(text, k, addr, n, v / 10);
      DecStep(text, k + |Dec(v / 10)|, addr, v / 10, n, v % 10);
    } else {
      DecStep(text, k, addr, 0, n, v);
    }
  }

  /** A number and the dot after it. */
  lemma ReadDot(text: string, k: nat, addr: nat, n: nat, v: byte, rest: string) returns (j: nat)
    requires At(text, k, Dec(v) + ("." + rest)) && addr < 0x100_0000
    ensures j == k + |Dec(v)| + 1 && At(text, j, rest) && Inet4From(text, k, addr, 0, n) == Inet4From(text, j, addr * 256 + v as int, 0, n + 1)
  {
    hide Inet4From, Dec;
    AtParts(text, k, Dec(v), "." + rest);
    AtParts(text, k + |Dec(v)|, ".", rest);
    ReadDec(text, k, addr, n, v);
    j := k + |Dec(v)| + 1;
    DotStep(text, j - 1, addr, v, n);
  }

  lemma DotStep(text: string, k: nat, addr: nat, octet: byte, n: nat)
    requires k < |text| && text[k] == '.' && addr < 0x100_0000
    ensures Inet4From(text, k, addr, octet, n) == Inet4From(text, k + 1, addr * 256 + octet as int, 0, n + 1)
  {
  }

  /** The four numbers are read back. */
  lemma ReadQuad(w: seq<word>)
    requires |w| == 8
    ensures Inet4From(Quad(w), 0, 0, 0, 0) == w[6] as int * 0x1_0000 + w[7] as int
  {
    hide Inet4From, Dec;
    var a: nat, b: nat, c: nat, d: nat := High(w[6]), Low(w[6]), High(w[7]), Low(w[7]);
    var text := Quad(w);
    assert text[0..0 + |text|] == text;
    var j := ReadDot(text, 0, 0, 0, a, Dec(b) + ("." + (Dec(c) + ("." + Dec(d)))));
    j := ReadDot(text, j, a, 1, b, Dec(c) + ("." + Dec(d)));
    j := ReadDot(text, j, a * 256 + b, 2, c, Dec(d));
    ReadDec(text, j, (a * 256 + b) * 256 + c, 3, d);
    EndOfQuad(text, (a * 256 + b) * 256 + c, d);
    assert w[6] == a * 256 + b && w[7] == c * 256 + d;
  }

  lemma EndOfQuad(text: string, addr: nat, octet: byte)
    requires addr < 0x100_0000
    ensures Inet4From(text, |text|, addr, octet, 3) == addr * 256 + octet as int
  {
  }

  /** The run that is left out is one, and it has at least two words. */
  predicate RunOk(w: seq<word>, r: Run) {
    r.zero == -1 || (r.max >= 2 && IsRun(w, r.zero, r.max))
  }

  /** What the parser knows before the word `i`. */
  ghost predicate Before(w: seq<word>, i: nat, r: Run, s: State)
    requires |w| == 8 && i <= 8 && RunOk(w, r)
  {
    && Ready(s)
    && if r.zero < 0 || i <= r.zero then i < 8 && s.words == w[..i] && s.zero.None?
       else i >= r.zero + r.max && s.words == w[..r.zero] + w[r.zero + r.max..i] && s.zero == Some(r.zero)
  }

  /** A colon between words, or the one that begins the run of zeros. */
  lemma Colon(text: string, k: nat, s: State) returns (t: State)
    requires k < |text| && text[k] == ':' && Fits(s) && (s.digit.Some? ==> s.digit.value <= k)
    requires if s.nibbles > 0 then |s.words| < 7 else s.zero.None?
    ensures t == if s.nibbles > 0 then State(s.words + [s.word], s.zero, Some(k + 1), 0, 0) else s.(zero := Some(|s.words|), digit := Some(k + 1))
    ensures Fits(t) && ParseFrom(text, k, s) == ParseFrom(text, k + 1, t)
  {
    Unfold(text, k, s);
    t := One(text, k, s).s;
  }

  /** The end of the text after the last word. */
  lemma LastWord(w: seq<word>, r: Run, s: State, t: State)
    requires |w| == 8 && RunOk(w, r) && Before(w, 7, r, s) && t == s.(nibbles := t.nibbles, word := w[7]) && t.nibbles > 0 && Fits(t)
    ensures Finish(t) == Some(w)
  {
    if r.zero >= 0 {
      var z, e := r.zero, r.zero + r.max;
      assert t.words + [w[7]] == w[..z] + (w[e..7] + [w[7]]);
      assert (t.words + [w[7]])[..z] == w[..z];
      assert (t.words + [w[7]])[z..] == w[e..7] + [w[7]] == w[e..];
      assert Zeros(r.max) == w[z..e];
      assert w == w[..z] + w[z..e] + w[e..];
    } else {
      assert w == w[..7] + [w[7]];
    }
  }

  /** The end of the text after a run of zeros. */
  lemma LastZeros(w: seq<word>, r: Run, s: State)
    requires |w| == 8 && RunOk(w, r) && Before(w, 8, r, s)
    requires r.zero >= 0 && r.zero + r.max == 8
    ensures Finish(s) == Some(w)
  {
    var z := r.zero;
    var ws := s.words + [0];
    assert s.words == w[..z];
    assert ws[..z] == w[..z] && ws[z..] == [0];
    assert w == w[..z] + Zeros(8 - |ws|) + [0];
  }

  lemma NextWord(w: seq<word>, i: nat, r: Run, s: State, t: State)
    requires |w| == 8 && i < 7 && i != r.zero && RunOk(w, r) && Before(w, i, r, s)
    requires t == State(s.words + [w[i]], s.zero, t.digit, 0, 0)
    ensures Before(w, i + 1, r, t)
  {
    if r.zero < 0 || i < r.zero {
      assert w[..i + 1] == w[..i] + [w[i]];
    } else {
      assert w[r.zero + r.max..i + 1] == w[r.zero + r.max..i] + [w[i]];
    }
  }

  lemma AfterRun(w: seq<word>, r: Run, s: State, t: State)
    requires |w| == 8 && RunOk(w, r) && 0 <= r.zero < 8 && Before(w, r.zero, r, s)
    requires t == s.(zero := Some(|s.words|), digit := t.digit)
    ensures Before(w, r.zero + r.max, r, t)
  {
    assert w[r.zero + r.max..r.zero + r.max] == [];
    assert s.words + [] == s.words;
  }

  /** A word and the colon after it. */
  lemma OneGroup(text: string, k: nat, s: State, w: seq<word>, i: nat, r: Run, rest: string) returns (j: nat, t: State)
    requires |w| == 8 && i < 7 && i != r.zero && RunOk(w, r) && Before(w, i, r, s) && (s.digit.Some? ==> s.digit.value <= k)
    requires At(text, k, Hex(w[i]) + (":" + rest))
    ensures j == k + |Hex(w[i])| + 1 && At(text, j, rest) && Before(w, i + 1, r, t) && t.digit == Some(j)
    ensures ParseFrom(text, k, s) == ParseFrom(text, j, t)
  {
    hide ParseFrom, Hex, One;
    AtParts(text, k, Hex(w[i]), ":" + rest);
    var u := ReadHex(text, k, s, w[i]);
    j := k + |Hex(w[i])|;
    AtParts(text, j, ":", rest);
    t := Colon(text, j, u);
    NextWord(w, i, r, s, t);
    j := j + 1;
  }

  lemma LastGroup(text: string, k: nat, s: State, w: seq<word>, r: Run)
    requires |w| == 8 && RunOk(w, r) && Before(w, 7, r, s) && (s.digit.Some? ==> s.digit.value <= k)
    requires At(text, k, Hex(w[7])) && k + |Hex(w[7])| == |text|
    ensures ParseFrom(text, k, s) == Some(w)
  {
    hide ParseFrom, Hex, One, Finish;
    var t := ReadHex(text, k, s, w[7]);
    Unfold(text, |text|, t);
    LastWord(w, r, s, t);
  }

  /** The words from the word `i` on are read back. */
  lemma {:induction false} ReadGroups(text: string, k: nat, s: State, w: seq<word>, i: nat, r: Run)
    requires |w| == 8 && i <= 8 && RunOk(w, r) && Before(w, i, r, s) && (s.digit.Some? ==> s.digit.value <= k)
    requires At(text, k, Groups(w, i, 8, r)) && k + |Groups(w, i, 8, r)| == |text|
    requires i == 8 ==> r.zero >= 0 && r.zero + r.max == 8
    ensures ParseFrom(text, k, s) == Some(w)
    decreases 8 - i
  {
    GroupsAt(w, i, r);
    hide Finish, ParseFrom, Hex, One, Groups, Before, At, Ready, Fits;
    if i == 8 {
      EndGroups(text, k, s, w, r);
    } else if i == r.zero {
      var t := RunColon(text, k, s, w, r);
      ReadGroups(text, k + 1, t, w, i + r.max, r);
    } else if i == 7 {
      LastGroup(text, k, s, w, r);
    } else {
      var j, t := OneGroup(text, k, s, w, i, r, Groups(w, i + 1, 8, r));
      ReadGroups(text, j, t, w, i + 1, r);
    }
  }

  lemma GroupsAt(w: seq<word>, i: nat, r: Run)
    requires |w| == 8 && i <= 8 && RunOk(w, r)
    ensures i == 8 ==> Groups(w, i, 8, r) == ""
    ensures i < 8 && i == r.zero ==> Groups(w, i, 8, r) == ":" + Groups(w, i + r.max, 8, r)
    ensures i == 7 && i != r.zero ==> Groups(w, i, 8, r) == Hex(w[7])
    ensures i < 7 && i != r.zero ==> Groups(w, i, 8, r) == Hex(w[i]) + (":" + Groups(w, i + 1, 8, r))
  {
    hide Hex;
    if i == 7 && i != r.zero {
      assert Groups(w, 8, 8, r) == "" && Hex(w[7]) + "" + "" == Hex(w[7]);
    } else if i < 7 && i != r.zero {
      Associative(Hex(w[i]), ":", Groups(w, i + 1, 8, r));
    }
  }

  lemma EndGroups(text: string, k: nat, s: State, w: seq<word>, r: Run)
    requires |w| == 8 && RunOk(w, r) && Before(w, 8, r, s) && (s.digit.Some? ==> s.digit.value <= k) && k == |text|
    requires r.zero >= 0 && r.zero + r.max == 8
    ensures ParseFrom(text, k, s) == Some(w)
  {
    hide ParseFrom, Finish;
    Unfold(text, k, s);
    LastZeros(w, r, s);
  }

  /** The second colon before the run of zeros. */
  lemma RunColon(text: string, k: nat, s: State, w: seq<word>, r: Run) returns (t: State)
    requires |w| == 8 && RunOk(w, r) && 0 <= r.zero < 8 && Before(w, r.zero, r, s) && (s.digit.Some? ==> s.digit.value <= k)
    requires At(text, k, ":" + Groups(w, r.zero + r.max, 8, r))
    ensures At(text, k + 1, Groups(w, r.zero + r.max, 8, r)) && Before(w, r.zero + r.max, r, t) && t.digit == Some(k + 1)
    ensures ParseFrom(text, k, s) == ParseFrom(text, k + 1, t)
  {
    hide ParseFrom, Groups;
    AtParts(text, k, ":", Groups(w, r.zero + r.max, 8, r));
    t := Colon(text, k, s);
    AfterRun(w, r, s, t);
  }

  /** The address with dots at the end is read back, unless all its bytes are 255. */
  lemma ReadEnd(text: string, k: nat, s: State, w: seq<word>)
    requires |w| == 8 && Ready(s) && |s.words| < 7 && s.digit == Some(k) && s.zero.Some?
    requires At(text, k, Quad(w)) && k + |Quad(w)| == |text|
    ensures ParseFrom(text, k, s) ==
      if w[6] == 0xffff && w[7] == 0xffff then None else Finish(State(s.words + [w[6]], s.zero, None, 1, w[7]))
  {
    hide ParseFrom, Finish, Dec, One, QuadRest;
    var a, rest := Dec(High(w[6])), QuadRest(w);
    assert text[k..] == text[k..k + |Quad(w)|] == Quad(w);
    assert At(text, k, a + ("." + rest));
    AtParts(text, k, a, "." + rest);
    AtParts(text, k + |a|, ".", rest);
    var t := SkipDec(text, k, s, High(w[6]));
    AtDot(text, k + |a|, t);
    ReadQuad(w);
    AfterQuad(text, t, w);
    hide AfterDot, Quad;
    assert t.words == s.words && t.zero == s.zero;
  }

  lemma AtDot(text: string, k: nat, s: State)
    requires k < |text| && text[k] == '.' && Fits(s) && s.nibbles > 0 && (s.digit.Some? ==> s.digit.value <= k)
    ensures ParseFrom(text, k, s) == AfterDot(text, s)
  {
    hide AfterDot;
    Unfold(text, k, s);
  }

  lemma AfterQuad(text: string, t: State, w: seq<word>)
    requires |w| == 8 && Fits(t) && |t.words| < 7 && t.digit.Some? && t.digit.value <= |text| && text[t.digit.value..] == Quad(w)
    requires Inet4From(Quad(w), 0, 0, 0, 0) == w[6] as int * 0x1_0000 + w[7] as int
    ensures AfterDot(text, t) == if w[6] == 0xffff && w[7] == 0xffff then None else Finish(State(t.words + [w[6]], t.zero, None, 1, w[7]))
  {
    hide Inet4From, Quad, Finish;
    var v: nat := w[6] as int * 0x1_0000 + w[7] as int;
    assert v / 0x1_0000 == w[6] && v % 0x1_0000 == w[7];
  }

  /** The words before the address with dots. */
  lemma ReadFront(text: string, w: seq<word>, r: Run)
    requires |w| == 8 && RunOk(w, r) && Dotted(w, r) && text == TextOf(w, r)
    ensures Parse(text) == if w[6] == 0xffff && w[7] == 0xffff then None else Some(w)
  {
    FrontText(text, w, r);
    hide ParseFrom, Hex, One, Finish, Quad, TextOf, Groups, RunOk, Dotted, At;
    var g := if r.max == 5 then Hex(0xffff) + ":" else "";
    var s := FrontColons(text, g + Quad(w));
    AtParts(text, 2, g, Quad(w));
    var k := 2;
    if r.max == 5 {
      k, s := FrontWord(text, s);
    }
    ReadEnd(text, k, s, w);
    FinishFront(w, r, s);
  }

  lemma FrontText(text: string, w: seq<word>, r: Run)
    requires |w| == 8 && RunOk(w, r) && Dotted(w, r) && text == TextOf(w, r)
    ensures text == ":" + (":" + ((if r.max == 5 then Hex(0xffff) + ":" else "") + Quad(w)))
  {
    hide Hex, Quad;
    FrontGroups(w, r);
  }

  lemma FrontColons(text: string, rest: string) returns (s: State)
    requires text == ":" + (":" + rest)
    ensures At(text, 2, rest) && s == START.(zero := Some(0), digit := Some(2)) && Parse(text) == ParseFrom(text, 2, s)
  {
    hide ParseFrom;
    assert At(text, 0, text);
    AtParts(text, 0, ":", ":" + rest);
    AtParts(text, 1, ":", rest);
    s := Colon(text, 1, START);
  }

  lemma FrontWord(text: string, s: State) returns (k: nat, t: State)
    requires At(text, 2, Hex(0xffff) + ":") && s == START.(zero := Some(0), digit := Some(2))
    ensures k == 2 + |Hex(0xffff) + ":"| && t == State([0xffff], Some(0), Some(k), 0, 0) && ParseFrom(text, 2, s) == ParseFrom(text, k, t)
  {
    hide ParseFrom, Hex;
    AtParts(text, 2, Hex(0xffff), ":");
    t := ReadHex(text, 2, s, 0xffff);
    k := 2 + |Hex(0xffff)|;
    t := Colon(text, k, t);
    k := k + 1;
  }

  lemma FrontGroups(w: seq<word>, r: Run)
    requires |w| == 8 && RunOk(w, r) && Dotted(w, r)
    ensures Groups(w, 0, 6, r) == ":" + if r.max == 5 then Hex(0xffff) + ":" else ""
  {
    hide Hex;
    assert Groups(w, 0, 6, r) == ":" + Groups(w, r.max, 6, r);
    if r.max == 5 {
      assert Groups(w, 6, 6, r) == "";
      assert Groups(w, 5, 6, r) == Hex(w[5]) + ":" + "" == Hex(w[5]) + ":";
    }
  }

  lemma FinishFront(w: seq<word>, r: Run, s: State)
    requires |w| == 8 && RunOk(w, r) && Dotted(w, r)
    requires s.words == (if r.max == 5 then [0xffff] else []) && s.zero == Some(0)
    ensures Finish(State(s.words + [w[6]], s.zero, None, 1, w[7])) == Some(w)
  {
    var ws := s.words + [w[6]] + [w[7]];
    var n := 8 - |ws|;
    assert ws[..0] == [] && ws[0..] == ws;
    assert forall i :: 0 <= i < n ==> w[i] == 0;
    assert forall i :: n <= i < 8 ==> w[i] == ws[i - n];
    assert w == ws[..0] + Zeros(n) + ws[0..];
  }

  /** The text that is printed for an address is read back as that address, when and only when it
      does not end in 255.255.255.255. */
  lemma ReadText(w: seq<word>, r: Run)
    requires |w| == 8 && RunOk(w, r)
    ensures Parse(TextOf(w, r)) == if Dotted(w, r) && w[6] == 0xffff && w[7] == 0xffff then None else Some(w)
  {
    hide Parse, Groups, Quad;
    var text := TextOf(w, r);
    if Dotted(w, r) {
      ReadFront(text, w, r);
    } else if r.zero == 0 {
      assert text == ":" + Groups(w, 0, 8, r);
      ReadFromZeros(text, w, r);
    } else {
      assert text == Groups(w, 0, 8, r);
      ReadFromWord(text, w, r);
    }
  }

  lemma ReadFromZeros(text: string, w: seq<word>, r: Run)
    requires |w| == 8 && RunOk(w, r) && r.zero == 0 && text == ":" + Groups(w, 0, 8, r)
    ensures Parse(text) == Some(w)
  {
    hide ParseFrom, Groups;
    assert At(text, 0, ":" + Groups(w, 0, 8, r));
    AtParts(text, 0, ":", Groups(w, 0, 8, r));
    assert w[..0] == [];
    ReadGroups(text, 1, START, w, 0, r);
  }

  lemma ReadFromWord(text: string, w: seq<word>, r: Run)
    requires |w| == 8 && RunOk(w, r) && r.zero != 0 && text == Groups(w, 0, 8, r)
    ensures Parse(text) == Some(w)
  {
    hide ParseFrom, Hex;
    assert At(text, 0, text) && w[..0] == [];
    HexFirst(w[0]);
    assert text[0] == Hex(w[0])[0];
    hide Groups;
    ReadGroups(text, 0, START, w, 0, r);
  }

  lemma {:induction false} HexFirst(v: nat)
    ensures Hex(v)[0] != ':'
  {
    if v >= 16 {
      HexFirst(v / 16);
    } else {
      DigitOf(v);
    }
  }

  // ---------- the longest run ----------

  /** What the scan knows before the word `i`: the run of `n` zeros that ends there, and the best
      one of those before it. */
  ghost predicate Seen(w: seq<word>, i: nat, n: nat, last: int, r: Run) {
    && n <= i <= |w| && IsRun(w, i - n, n) && (n > 0 ==> last == i - n) && (n < i ==> w[i - n - 1] != 0)
    && (r == Run(-1, 1) || (r.max >= 2 && IsRun(w, r.zero, r.max) && r.zero + r.max <= i - n))
    && BestOf(w, r, i - n)
  }

  /** Of the runs that begin before a place, none is better. */
  ghost predicate BestOf(w: seq<word>, r: Run, e: nat) {
    forall a: nat, l: nat :: IsRun(w, a, l) && a < e ==> l <= r.max && (l == r.max >= 2 ==> r.zero <= a)
  }

  /** The run that ends at `i` is compared with the best one. */
  lemma Compare(w: seq<word>, i: nat, n: nat, last: int, r: Run)
    requires Seen(w, i, n, last, r) && (i < |w| ==> w[i] != 0)
    ensures var t := if r.max < n then Run(last, n) else r;
      BestOf(w, t, i) && (t == Run(-1, 1) || (t.max >= 2 && IsRun(w, t.zero, t.max) && t.zero + t.max <= i))
  {
    var t := if r.max < n then Run(last, n) else r;
    forall a: nat, l: nat | IsRun(w, a, l) && a < i ensures l <= t.max && (l == t.max >= 2 ==> t.zero <= a) {
      assert a + l <= i;
    }
  }

  lemma {:induction false} ScanIsLongest(w: seq<word>, i: nat, n: nat, last: int, r: Run)
    requires |w| > 0 && Seen(w, i, n, last, r)
    ensures IsLongest(w, Scan(w, i, n, last, r))
    decreases |w| - i
  {
    if i == |w| {
      Compare(w, i, n, last, r);
      forall a: nat, l: nat | IsRun(w, a, l) ensures l <= Scan(w, i, n, last, r).max {
        if a == |w| { assert l == 0; }
      }
    } else if w[i] != 0 {
      Compare(w, i, n, last, r);
      var t := if r.max < n then Run(last, n) else r;
      assert forall l: nat :: IsRun(w, i, l) ==> l == 0;
      ScanIsLongest(w, i + 1, 0, last, t);
    } else {
      ScanIsLongest(w, i + 1, n + 1, if n == 0 then i else last, r);
    }
  }

  // ---------- the printer in place ----------

  function WordAt(p: seq<byte>, k: nat): word
    requires |p| == 16 && k < 8
  {
    p[2 * k] as int * 256 + p[2 * k + 1] as int
  }

  function WordsOf(p: seq<byte>): (w: seq<word>)
    requires |p| == 16
    ensures |w| == 8
  {
    seq(8, k requires 0 <= k < 8 => WordAt(p, k))
  }

  lemma HighLow(p: seq<byte>, k: nat)
    requires |p| == 16 && k < 8
    ensures High(WordAt(p, k)) == p[2 * k] && Low(WordAt(p, k)) == p[2 * k + 1]
  {
    var a: int, b: int := p[2 * k], p[2 * k + 1];
    assert (a * 256 + b) / 256 == a && (a * 256 + b) % 256 == b;
  }

  /** What is printed for an address. */
  function Ntop(w: seq<word>): string
    requires |w| == 8
  {
    LongestOk(w);
    TextOf(w, Longest(w))
  }

  lemma LongestOk(w: seq<word>)
    requires |w| == 8
    ensures IsLongest(w, Longest(w)) && RunOk(w, Longest(w))
  {
    ScanIsLongest(w, 0, 0, -1, Run(-1, 1));
  }

  /** Lines 296-322, with places counted in words. */
  method LongestRun(p: seq<byte>) returns (zero: int, max: nat)
    requires |p| == 16
    ensures Run(zero, max) == Longest(WordsOf(p))
  {
    zero, max := -1, 1;
    var last: int, n: nat := -1, 0;
    var i: nat := 0;
    while i < 8
      invariant i <= 8 && Scan(WordsOf(p), i, n, last, Run(zero, max)) == Longest(WordsOf(p))
    {
      assert WordsOf(p)[i] == WordAt(p, i);
      if p[2 * i] != 0 || p[2 * i + 1] != 0 {
        if max < n {
          zero := last;
          max := n;
        }
        n := 0;
      } else {
        if n == 0 {
          last := i;
        }
        n := n + 1;
      }
      i := i + 1;
    }
    if max < n {
      zero := last;
      max := n;
    }
  }

  /** `ngx_sprintf` to a place in the text. */
  method Put(text: array<char>, dst: nat, s: string) returns (end: nat)
    requires dst + |s| <= text.Length
    modifies text
    ensures end == dst + |s| && text[..end] == old(text[..dst]) + s
  {
    forall i | 0 <= i < |s| { text[dst + i] := s[i]; }
    end := dst + |s|;
    assert text[dst..end] == s && text[..dst] == old(text[..dst]);
    assert text[..end] == text[..dst] + text[dst..end];
  }

  lemma {:induction false} GroupsLength(w: seq<word>, i: nat, n: nat, r: Run)
    requires |w| == 8 && i <= n <= 8 && RunOk(w, r)
    ensures |Groups(w, i, n, r)| <= 5 * (8 - i)
    decreases 8 - i
  {
    hide Hex;
    if i < n {
      if i == r.zero {
        if i + r.max <= n { GroupsLength(w, i + r.max, n, r); }
      } else {
        GroupsLength(w, i + 1, n, r);
      }
    }
  }

  /** The text fits where `ADDR_STRLEN` characters do. */
  lemma TextFits(w: seq<word>, r: Run)
    requires |w| == 8 && RunOk(w, r)
    ensures |TextOf(w, r)| <= ADDR_STRLEN
  {
    GroupsLength(w, 0, 8, r);
    if Dotted(w, r) {
      FrontGroups(w, r);
    }
  }

  /** `ngx_inet6_ntop`. */
  method Inet6Ntop(p: seq<byte>, text: array<char>, len: nat) returns (size: nat)
    requires |p| == 16 && len <= text.Length
    modifies text
    ensures len < ADDR_STRLEN ==> size == 0 && text[..] == old(text[..])
    ensures len >= ADDR_STRLEN ==> size <= ADDR_STRLEN && text[..size] == Ntop(WordsOf(p))
  {
    if len < ADDR_STRLEN {
      return 0;
    }
    var zero, max := LongestRun(p);
    LongestOk(WordsOf(p));
    hide Longest, IsLongest, RunOk;
    size := PutText(p, text, zero, max);
  }

  /** Lines 324-358, when the run is known. */
  method PutText(p: seq<byte>, text: array<char>, zero: int, max: nat) returns (dst: nat)
    requires |p| == 16 && ADDR_STRLEN <= text.Length && RunOk(WordsOf(p), Run(zero, max))
    modifies text
    ensures dst <= ADDR_STRLEN && text[..dst] == TextOf(WordsOf(p), Run(zero, max))
  {
    TextFits(WordsOf(p), Run(zero, max));
    hide Hex, Dec, Quad, QuadRest, Groups, Dotted, RunOk, WordsOf;
    dst := 0;
    if zero == 0 {
      dst := Put(text, 0, ":");
    }
    assert text[..dst] == if zero == 0 then ":" else "";
    var quad := IsQuad(p, zero, max);
    hide WordAt;
    dst := PutGroups(text, dst, p, if quad then 6 else 8, zero, max);
    if quad {
      dst := PutQuad(text, dst, p);
    }
  }

  /** Lines 327-334. */
  method IsQuad(p: seq<byte>, zero: int, max: nat) returns (quad: bool)
    requires |p| == 16
    ensures quad == Dotted(WordsOf(p), Run(zero, max))
  {
    HighLow(p, 7);
    quad := zero == 0 && ((max == 5 && p[10] == 0xff && p[11] == 0xff) || max == 6 || (max == 7 && p[14] != 0 && p[15] != 1));
  }

  /** Line 355. */
  method PutQuad(text: array<char>, dst: nat, p: seq<byte>) returns (end: nat)
    requires |p| == 16 && dst + |Quad(WordsOf(p))| <= text.Length
    modifies text
    ensures var quad := Quad(WordsOf(p)); end == dst + |quad| && text[..end] == old(text[..dst]) + quad
  {
    HighLow(p, 6);
    HighLow(p, 7);
    hide Dec, High, Low;
    end := Put(text, dst, Dec(p[12]) + ("." + (Dec(p[13]) + ("." + (Dec(p[14]) + ("." + Dec(p[15])))))));
  }

  /** Lines 339-352. */
  method PutGroups(text: array<char>, dst0: nat, p: seq<byte>, n: nat, zero: int, max: nat) returns (dst: nat)
    requires |p| == 16 && n <= 8 && RunOk(WordsOf(p), Run(zero, max))
    requires dst0 + |Groups(WordsOf(p), 0, n, Run(zero, max))| <= text.Length
    modifies text
    ensures dst == dst0 + |Groups(WordsOf(p), 0, n, Run(zero, max))|
    ensures text[..dst] == old(text[..dst0]) + Groups(WordsOf(p), 0, n, Run(zero, max))
  {
    hide Hex;
    ghost var w, r := WordsOf(p), Run(zero, max);
    ghost var all := old(text[..dst0]) + Groups(w, 0, n, r);
    dst := dst0;
    var i: nat := 0;
    while i < n
      invariant i <= 8 && dst <= text.Length && text[..dst] + Groups(w, i, n, r) == all
      decreases 8 - i
    {
      ghost var was := text[..dst];
      if i == zero {
        dst := Put(text, dst, ":");
        i := i + (max - 1) + 1;
        Associative(was, ":", Groups(w, i, n, r));
      } else {
        dst := PutWord(text, dst, w, p, i);
        ghost var group := Hex(w[i]) + (if i < 7 then ":" else "");
        i := i + 1;
        Associative(was, group, Groups(w, i, n, r));
      }
    }
  }

  method PutWord(text: array<char>, dst: nat, ghost w: seq<word>, p: seq<byte>, i: nat) returns (end: nat)
    requires |p| == 16 && w == WordsOf(p) && i < 8 && dst + |Hex(w[i])| + (if i < 7 then 1 else 0) <= text.Length
    modifies text
    ensures var group := Hex(w[i]) + (if i < 7 then ":" else "");
      end == dst + |group| && text[..end] == old(text[..dst]) + group
  {
    hide Hex;
    end := Put(text, dst, Hex(p[2 * i] as int * 256 + p[2 * i + 1] as int));
    ghost var was := text[..end];
    if i < 7 {
      end := Put(text, end, ":");
      Associative(old(text[..dst]), Hex(w[i]), ":");
    }
  }

  // ---------- the round trip ----------

  lemma {:induction false} BytesAt(ws: seq<word>, i: nat)
    requires i < |ws|
    ensures Bytes(ws)[2 * i] == High(ws[i]) && Bytes(ws)[2 * i + 1] == Low(ws[i])
  {
    if i > 0 {
      BytesAt(ws[1..], i - 1);
    }
  }

  lemma BytesOfWords(p: seq<byte>)
    requires |p| == 16
    ensures Bytes(WordsOf(p)) == p
  {
    forall i | 0 <= i < 16 ensures Bytes(WordsOf(p))[i] == p[i] {
      BytesAt(WordsOf(p), i / 2);
      HighLow(p, i / 2);
      assert i == 2 * (i / 2) || i == 2 * (i / 2) + 1;
    }
  }

  lemma LastBytes(p: seq<byte>)
    requires |p| == 16
    ensures p[12..] == [255, 255, 255, 255] <==> WordsOf(p)[6] == 0xffff && WordsOf(p)[7] == 0xffff
  {
    assert WordsOf(p)[6] == WordAt(p, 6) && WordsOf(p)[7] == WordAt(p, 7);
    assert p[12..] == [p[12], p[13], p[14], p[15]];
  }

  /** The text that `ngx_inet6_ntop` gives for an address is read back by `ngx_inet6_addr` as the
      same 16 bytes; the one exception is the form with dots when it ends in 255.255.255.255, and
      that is refused. */
  lemma Inet6RoundTrip(p: seq<byte>)
    requires |p| == 16
    ensures var r, refused := Parse(Ntop(WordsOf(p))), Dotted(WordsOf(p), Longest(WordsOf(p))) && p[12..] == [255, 255, 255, 255];
      if refused then r.None? else r.Some? && Bytes(r.value) == p
  {
    hide Dotted, TextOf, Longest, IsLongest, RunOk, Parse, Bytes;
    var w := WordsOf(p);
    LongestOk(w);
    ReadText(w, Longest(w));
    BytesOfWords(p);
    LastBytes(p);
    hide WordsOf;
  }

  /** An address that is refused: ::255.255.255.255. */
  lemma RefusedAddress()
    ensures Parse(Ntop([0, 0, 0, 0, 0, 0, 0xffff, 0xffff])) == None
  {
    var w: seq<word> := [0, 0, 0, 0, 0, 0, 0xffff, 0xffff];
    LongestOk(w);
    var r := Longest(w);
    assert IsRun(w, 0, 6);
    assert r == Run(0, 6) by {
      assert w[6] != 0 && w[7] != 0;
    }
    ReadText(w, r);
  }
}
