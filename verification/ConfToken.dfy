/** The tokenizer of configuration files, `ngx_conf_read_token` of `ngx_conf_file.c`. It reads the
    file through a window of 4096 bytes that slides when it is used up; the same lexer run over
    the whole text gives the same tokens. */
module ConfToken {

  const CONF_BUFFER: nat := 4096

  datatype Rc = Ok | BlockStart | BlockDone | FileDone | UnexpectedEnd | UnexpectedChar | TooLong | ReadError

  /** The flags of lines 442-449. */
  datatype Flags = Flags(needSpace: bool, lastSpace: bool, comment: bool, variable: bool, quoted: bool, sQuoted: bool, dQuoted: bool)

  const START: Flags := Flags(false, true, false, false, false, false, false)

  /** What a character does: the token goes on; a token starts at it, or after it; a word ends
      before it, and the call returns or not; the call returns. */
  datatype Act = Next(f: Flags) | Begin(f: Flags, skip: nat) | Word(f: Flags) | WordStop(rc: Rc) | Stop(rc: Rc)

  predicate Space(ch: char) {
    ch == ' ' || ch == '\t' || ch == '\r' || ch == '\n'
  }

  /** Lines 538-732 without the words; `none` tells that there is no word yet. */
  function OnChar(f0: Flags, ch: char, none: bool): (a: Act)
    ensures a.Begin? ==> a.skip <= 1
    ensures a.Stop? || a.WordStop? ==> a.rc != TooLong && a.rc != ReadError
  {
    var f := if ch == '\n' then f0.(comment := false) else f0;
    if f.comment then Next(f)
    else if f.quoted then Next(f.(quoted := false))
    else if f.needSpace then
      if Space(ch) then Next(f.(lastSpace := true, needSpace := false))
      else if ch == ';' then Stop(Ok)
      else if ch == '{' then Stop(BlockStart)
      else if ch == ')' then AfterSpace(f.(lastSpace := true, needSpace := false), ch, none)
      else Stop(UnexpectedChar)
    else if f.lastSpace then AfterSpace(f, ch, none)
    else InToken(f, ch)
  }

  /** Lines 581-637. */
  function AfterSpace(f: Flags, ch: char, none: bool): Act {
    if Space(ch) then Next(f)
    else if ch == ';' then Stop(if none then UnexpectedChar else Ok)
    else if ch == '{' then Stop(if none then UnexpectedChar else BlockStart)
    else if ch == '}' then Stop(if none then BlockDone else UnexpectedChar)
    else if ch == '#' then Begin(f.(comment := true), 0)
    else if ch == '\\' then Begin(f.(quoted := true, lastSpace := false), 0)
    else if ch == '"' then Begin(f.(dQuoted := true, lastSpace := false), 1)
    else if ch == '\'' then Begin(f.(sQuoted := true, lastSpace := false), 1)
    else Begin(f.(lastSpace := false), 0)
  }

  /** Lines 639-732. */
  function InToken(f0: Flags, ch: char): Act {
    if ch == '{' && f0.variable then Next(f0) else
      var f := f0.(variable := false);
      if ch == '\\' then Next(f.(quoted := true))
      else if ch == '$' then Next(f.(variable := true))
      else if f.dQuoted then
        if ch == '"' then Word(f.(dQuoted := false, needSpace := true)) else Next(f)
      else if f.sQuoted then
        if ch == '\'' then Word(f.(sQuoted := false, needSpace := true)) else Next(f)
      else if ch == ';' then WordStop(Ok)
      else if ch == '{' then WordStop(BlockStart)
      else if Space(ch) then Word(f.(lastSpace := true))
      else Next(f)
  }

  /** Lines 692-715: the character that a backslash and the one after it give, and how many of
      the two are used. */
  function Escaped(ch: char): (r: (char, nat))
    ensures 1 <= r.1 <= 2
  {
    match ch
    case '"' => (ch, 2)
    case '\'' => (ch, 2)
    case '\\' => (ch, 2)
    case 't' => ('\t', 2)
    case 'r' => ('\r', 2)
    case 'n' => ('\n', 2)
    case _ => ('\\', 1)
  }

  /** Lines 688-718: the word from `i` to `end`; the character at `end` is the one after it. */
  function Unescape(text: seq<char>, i: nat, end: nat): seq<char>
    requires end < |text|
    decreases end - i
  {
    if i >= end then []
    else if text[i] == '\\' then
      var (ch, size) := Escaped(text[i + 1]);
      [ch] + Unescape(text, i + size, end)
    else [text[i]] + Unescape(text, i + 1, end)
  }

  /** The lexer in the middle of a call. */
  datatype State = State(pos: nat, start: nat, line: nat, f: Flags, args: seq<seq<char>>)

  /** The state at the start of a call. */
  function Fresh(pos: nat, line: nat): State {
    State(pos, pos, line, START, [])
  }

  /** What a call gives: its code, the words, and where it stopped. */
  datatype Result = Result(rc: Rc, args: seq<seq<char>>, pos: nat, line: nat)

  function Line(line: nat, ch: char): nat {
    if ch == '\n' then line + 1 else line
  }

  /** One character of the whole text: the state after it, or the result. */
  datatype Step = Go(next: State) | Done(result: Result)

  function One(text: seq<char>, s: State): (t: Step)
    requires s.pos < |text|
    ensures t.Go? ==> t.next.pos == s.pos + 1
  {
    var ch := text[s.pos];
    var line := Line(s.line, ch);
    match OnChar(s.f, ch, s.args == [])
    case Next(f) => Go(State(s.pos + 1, s.start, line, f, s.args))
    case Begin(f, skip) => Go(State(s.pos + 1, s.pos + skip, line, f, s.args))
    case Word(f) => Go(State(s.pos + 1, s.start, line, f, s.args + [Unescape(text, s.start, s.pos)]))
    case WordStop(rc) => Done(Result(rc, s.args + [Unescape(text, s.start, s.pos)], s.pos + 1, line))
    case Stop(rc) => Done(Result(rc, s.args, s.pos + 1, line))
  }

  function AtEnd(s: State): Result {
    Result(if s.args != [] || !s.f.lastSpace then UnexpectedEnd else FileDone, s.args, s.pos, s.line)
  }

  /** The lexer over the whole text. */
  function Lex(text: seq<char>, s: State): Result
    requires s.pos <= |text|
    decreases |text| - s.pos
  {
    if s.pos == |text| then AtEnd(s) else
      match One(text, s)
      case Go(t) => Lex(text, t)
      case Done(r) => r
  }

  /** The lexer never needs a further character when its token, or what it takes for one, already
      fills the window. White space and comments count too, from where `start` was last set. */
  predicate Fits(text: seq<char>, s: State)
    requires s.pos <= |text|
    decreases |text| - s.pos
  {
    s.pos == |text| ||
      (s.pos != s.start + CONF_BUFFER && match One(text, s)
                                         case Go(t) => Fits(text, t)
                                         case Done(_) => true)
  }

  lemma AtWordEnd(text: seq<char>, start: nat, end: nat)
    requires start <= end < |text|
    ensures forall i: nat :: i >= end ==> Unescape(text, i, end) == []
    ensures [] + Unescape(text, start, end) == Unescape(text, start, end)
  {
  }

  lemma UnescapeAt(text: seq<char>, i: nat, end: nat)
    requires i < end < |text|
    ensures var (ch, size) := if text[i] == '\\' then Escaped(text[i + 1]) else (text[i], 1);
      Unescape(text, i, end) == [ch] + Unescape(text, i + size, end)
  {
    hide Escaped;
  }

  /** One round of the loop of lines 688-718, after the words before it. */
  lemma EscapeStep(text: seq<char>, i: nat, end: nat, word: seq<char>)
    requires i < end < |text|
    ensures var (ch, size) := if text[i] == '\\' then Escaped(text[i + 1]) else (text[i], 1);
      word + Unescape(text, i, end) == (word + [ch]) + Unescape(text, i + size, end)
  {
    hide Unescape, Escaped;
    var (ch, size) := if text[i] == '\\' then Escaped(text[i + 1]) else (text[i], 1);
    UnescapeAt(text, i, end);
    var rest := Unescape(text, i + size, end);
    assert word + ([ch] + rest) == (word + [ch]) + rest;
  }

  lemma Unfold(text: seq<char>, s: State)
    requires s.pos < |text|
    ensures One(text, s).Go? ==> Lex(text, s) == Lex(text, One(text, s).next)
    ensures One(text, s).Done? ==> Lex(text, s) == One(text, s).result
    ensures Fits(text, s) == (s.pos != s.start + CONF_BUFFER && (One(text, s).Go? ==> Fits(text, One(text, s).next)))
  {
  }

  lemma EndOfText(text: seq<char>, s: State)
    requires s.pos == |text|
    ensures Lex(text, s) == AtEnd(s) && Fits(text, s)
  {
  }

  // ---------- words in double quotes are read back ----------

  /** A word with its double quotes and backslashes escaped. */
  function Escape(w: seq<char>): seq<char> {
    if w == [] then []
    else (if w[0] == '"' || w[0] == '\\' then ['\\', w[0]] else [w[0]]) + Escape(w[1..])
  }

  /** The words in double quotes, with a space between them and a semicolon at the end. */
  function Written(words: seq<seq<char>>): seq<char>
    requires words != []
  {
    ['"'] + Escape(words[0]) + ['"'] + (if |words| == 1 then [';'] else [' '] + Written(words[1..]))
  }

  function Lines(line: nat, w: seq<char>): nat
    decreases |w|
  {
    if w == [] then line else Lines(Line(line, w[0]), w[1..])
  }

  function AllLines(line: nat, words: seq<seq<char>>): nat
    decreases |words|
  {
    if words == [] then line else AllLines(Lines(line, words[0]), words[1..])
  }

  /** No word is so long that the window is full before the character after its quotes is read. */
  predicate Short(words: seq<seq<char>>) {
    words != [] ==>
      |Escape(words[0])| + (if |words| == 1 then 1 else 2) < CONF_BUFFER && Short(words[1..])
  }

  ghost predicate At(text: seq<char>, i: nat, s: seq<char>) {
    i + |s| <= |text| && text[i..i + |s|] == s
  }

  const INSIDE: Flags := Flags(false, false, false, false, false, false, true)
  const AFTER: Flags := Flags(true, false, false, false, false, false, false)

  lemma AtParts(text: seq<char>, i: nat, a: seq<char>, b: seq<char>)
    requires At(text, i, a + b)
    ensures At(text, i, a) && At(text, i + |a|, b)
  {
    assert text[i..i + |a|] == text[i..i + |a + b|][..|a|] == a;
    assert text[i + |a|..i + |a| + |b|] == text[i..i + |a + b|][|a|..] == b;
  }

  /** What was escaped is unescaped. */
  lemma {:induction false} UnescapeEscape(text: seq<char>, i: nat, w: seq<char>)
    requires At(text, i, Escape(w)) && i + |Escape(w)| < |text|
    ensures Unescape(text, i, i + |Escape(w)|) == w
    decreases |w|
  {
    if w != [] {
      var h := if w[0] == '"' || w[0] == '\\' then ['\\', w[0]] else [w[0]];
      AtParts(text, i, h, Escape(w[1..]));
      assert text[i] == h[0] && (|h| == 2 ==> text[i + 1] == h[1]);
      UnescapeEscape(text, i + |h|, w[1..]);
      assert w == [w[0]] + w[1..];
    }
  }

  /** A character of a word in quotes, written as `h`, is passed over. */
  lemma PassOver(text: seq<char>, s: State, c: char, h: seq<char>) returns (t: State)
    requires h == if c == '"' || c == '\\' then ['\\', c] else [c]
    requires At(text, s.pos, h) && s.f == INSIDE.(variable := s.f.variable) && s.start <= s.pos
    ensures t == State(s.pos + |h|, s.start, Line(s.line, c), INSIDE.(variable := t.f.variable), s.args)
    ensures Lex(text, s) == Lex(text, t)
    ensures s.pos <= s.start + CONF_BUFFER ==> (Fits(text, s) <==> t.pos <= s.start + CONF_BUFFER && Fits(text, t))
  {
    hide Lex, Fits, Unescape;
    assert text[s.pos] == h[0] && (|h| == 2 ==> text[s.pos + 1] == h[1]);
    Unfold(text, s);
    t := One(text, s).next;
    if |h| == 2 {
      Unfold(text, t);
      t := One(text, t).next;
    }
  }

  /** Inside the quotes the lexer goes to the closing one. */
  lemma {:induction false} ToQuote(text: seq<char>, s: State, w: seq<char>, end: nat, t: State)
    requires At(text, s.pos, Escape(w)) && end == s.pos + |Escape(w)| < |text| && text[end] == '"'
    requires s.f == INSIDE.(variable := s.f.variable) && s.start <= s.pos
    requires t == State(end + 1, s.start, Lines(s.line, w), AFTER, s.args + [Unescape(text, s.start, end)])
    ensures Lex(text, s) == Lex(text, t)
    ensures s.pos <= s.start + CONF_BUFFER ==> (Fits(text, s) <==> end < s.start + CONF_BUFFER && Fits(text, t))
    decreases |w|
  {
    hide Lex, Fits, Unescape;
    if w == [] {
      Unfold(text, s);
    } else {
      var h := if w[0] == '"' || w[0] == '\\' then ['\\', w[0]] else [w[0]];
      AtParts(text, s.pos, h, Escape(w[1..]));
      var u := PassOver(text, s, w[0], h);
      ToQuote(text, u, w[1..], end, t);
    }
  }

  /** From an opening quote to the state after the closing one. */
  lemma OneWord(text: seq<char>, s: State, w: seq<char>, end: nat, t: State)
    requires At(text, s.pos, ['"'] + Escape(w) + ['"']) && s.f == START && end == s.pos + |Escape(w)| + 2
    requires s.start <= s.pos
    requires t == State(end, s.pos + 1, Lines(s.line, w), AFTER, s.args + [w])
    ensures Lex(text, s) == Lex(text, t)
    ensures Fits(text, s) <==> s.pos != s.start + CONF_BUFFER && |Escape(w)| < CONF_BUFFER && Fits(text, t)
  {
    hide Lex, Fits, Unescape;
    AtParts(text, s.pos, ['"'] + Escape(w), ['"']);
    AtParts(text, s.pos, ['"'], Escape(w));
    assert text[s.pos..s.pos + 1][0] == text[s.pos] == '"' && text[end - 1..end][0] == text[end - 1] == '"';
    Unfold(text, s);
    var u := One(text, s).next;
    assert u == State(s.pos + 1, s.pos + 1, s.line, INSIDE, s.args);
    UnescapeEscape(text, u.pos, w);
    ToQuote(text, u, w, end - 1, t);
  }

  lemma WrittenParts(words: seq<seq<char>>)
    requires words != []
    ensures Written(words) == (['"'] + Escape(words[0]) + ['"']) + AfterFirst(words)
  {
  }

  /** What is written after the first word. */
  function AfterFirst(words: seq<seq<char>>): seq<char>
    requires words != []
  {
    if |words| == 1 then [';'] else [' '] + Written(words[1..])
  }

  /** The character after a word: the end of the list, or a space. */
  lemma AfterWord(text: seq<char>, t: State, words: seq<seq<char>>)
    requires words != [] && At(text, t.pos, AfterFirst(words)) && t.f == AFTER && t.args != []
    ensures |words| == 1 ==> Lex(text, t) == Result(Ok, t.args, t.pos + 1, t.line)
    ensures |words| == 1 ==> (Fits(text, t) <==> t.pos != t.start + CONF_BUFFER)
    ensures |words| > 1 ==> At(text, t.pos + 1, Written(words[1..]))
    ensures |words| > 1 ==> var u := State(t.pos + 1, t.start, t.line, START, t.args);
      Lex(text, t) == Lex(text, u) && (Fits(text, t) <==> t.pos != t.start + CONF_BUFFER && Fits(text, u))
  {
    hide Lex, Fits, Unescape, Written;
    var rest := AfterFirst(words);
    assert text[t.pos..t.pos + |rest|][0] == text[t.pos] == rest[0];
    Unfold(text, t);
    if |words| > 1 {
      AtParts(text, t.pos, [' '], Written(words[1..]));
    }
  }

  /** The first word, and where the rest of the list is. */
  lemma FirstWord(text: seq<char>, s: State, words: seq<seq<char>>) returns (t: State)
    requires words != [] && At(text, s.pos, Written(words)) && s.f == START && s.start <= s.pos
    ensures t == State(t.pos, s.pos + 1, Lines(s.line, words[0]), AFTER, s.args + [words[0]])
    ensures t.pos == s.pos + |Escape(words[0])| + 2 && At(text, t.pos, AfterFirst(words))
    ensures |Written(words)| == |Escape(words[0])| + 2 + |AfterFirst(words)|
    ensures Lex(text, s) == Lex(text, t)
    ensures Fits(text, s) <==> s.pos != s.start + CONF_BUFFER && |Escape(words[0])| < CONF_BUFFER && Fits(text, t)
  {
    hide Lex, Fits, Unescape, One;
    var w := words[0];
    var q := ['"'] + Escape(w) + ['"'];
    WrittenParts(words);
    AtParts(text, s.pos, q, AfterFirst(words));
    t := State(s.pos + |q|, s.pos + 1, Lines(s.line, w), AFTER, s.args + [w]);
    OneWord(text, s, w, t.pos, t);
  }

  lemma OnlyWord(text: seq<char>, s: State, words: seq<seq<char>>)
    requires |words| == 1 && At(text, s.pos, Written(words)) && s.f == START && s.start <= s.pos
    ensures Lex(text, s) == Result(Ok, s.args + words, s.pos + |Written(words)|, AllLines(s.line, words))
    ensures Fits(text, s) <==> s.pos != s.start + CONF_BUFFER && Short(words)
  {
    hide Lex, Fits, Unescape, At, One, Written, Escape, Lines;
    var t := FirstWord(text, s, words);
    AfterWord(text, t, words);
    assert words == [words[0]];
  }

  /** The words from any place between two of them on. */
  lemma {:induction false} QuotedWords(text: seq<char>, s: State, words: seq<seq<char>>)
    requires words != [] && At(text, s.pos, Written(words)) && s.f == START && s.start <= s.pos
    ensures Lex(text, s) == Result(Ok, s.args + words, s.pos + |Written(words)|, AllLines(s.line, words))
    ensures Fits(text, s) <==> s.pos != s.start + CONF_BUFFER && Short(words)
    decreases |words|
  {
    hide Lex, Fits, Unescape, At, One, Written, Escape, Lines;
    if |words| == 1 {
      OnlyWord(text, s, words);
    } else {
      var t := FirstWord(text, s, words);
      AfterWord(text, t, words);
      QuotedWords(text, State(t.pos + 1, t.start, t.line, START, t.args), words[1..]);
      assert t.args + words[1..] == s.args + words;
    }
  }

  /** Any non-empty list of words, in double quotes with quotes and backslashes escaped, is read
      back as it is, wherever it stands in the text; the window is large enough for it when and
      only when the words are short. */
  lemma QuotedWordsReadBack(text: seq<char>, at: nat, line: nat, words: seq<seq<char>>)
    requires words != [] && At(text, at, Written(words))
    ensures Lex(text, Fresh(at, line)) == Result(Ok, words, at + |Written(words)|, AllLines(line, words))
    ensures Fits(text, Fresh(at, line)) <==> Short(words)
  {
    hide Lex, Fits, Unescape;
    QuotedWords(text, Fresh(at, line), words);
    assert [] + words == words;
  }

  // ---------- the window ----------

  /** `cf->conf_file`. */
  class ConfFile {
    const text: seq<char>          // the file
    var offset: nat                // of the next read
    var line: nat
    const buffer: array<char>
    var pos: nat
    var last: nat

    /** The first characters of the window are the text from `at` on. */
    ghost predicate Holds(n: nat, at: nat)
      reads buffer
    {
      && n <= buffer.Length && at + n <= |text|
      && forall i :: 0 <= i < n ==> buffer[i] == text[at + i]
    }

    /** The window holds the text before the offset. */
    ghost predicate Valid()
      reads this, buffer
    {
      buffer.Length == CONF_BUFFER && pos <= last <= offset && Holds(last, offset - last)
    }

    /** The place in the text of an index of the window. */
    ghost function Place(i: nat): (at: nat)
      reads this, buffer
      requires Valid()
      ensures i <= last ==> at <= |text|
    {
      offset - last + i
    }

    constructor (file: seq<char>)
      ensures Valid() && text == file && Place(pos) == 0 && line == 1 && fresh(buffer)
    {
      text, offset, line, pos, last := file, 0, 1, 0, 0;
      buffer := new char[CONF_BUFFER](_ => ' ');
    }

    /** Lines 506-508. */
    method Move(start: nat, len: nat, ghost at: nat)
      requires start + len <= buffer.Length && Holds(start + len, at)
      modifies buffer
      ensures Holds(len, at + start)
    {
      forall i | 0 <= i < len { buffer[i] := buffer[start + i]; }
      assert forall i :: 0 <= i < len ==> buffer[i] == old(buffer[start + i]) && old(buffer[start + i]) == text[at + (start + i)];
    }

    /** Lines 516-528: a read of `size` characters that may fail. */
    method Load(len: nat, size: nat) returns (ok: bool)
      requires len <= offset && offset + size <= |text| && len + size <= buffer.Length && Holds(len, offset - len)
      modifies buffer
      ensures ok ==> Holds(len + size, offset - len)
    {
      ok := *;
      if ok {
        forall i | 0 <= i < size { buffer[len + i] := text[offset + i]; }
        forall i | len <= i < len + size ensures buffer[i] == text[offset - len + i] {
          var k := i - len;
          assert buffer[len + k] == text[offset + k];
        }
      }
    }

    /** Lines 482-533: what there is of the current token moves to the front and more is read
        behind it. */
    method Refill(start: nat) returns (rc: Rc)
      requires Valid() && start <= pos == last && offset < |text|
      modifies this`offset, this`pos, this`last, buffer
      ensures rc == Ok || rc == TooLong || rc == ReadError
      ensures rc == TooLong <==> old(pos) == start + CONF_BUFFER
      ensures rc != ReadError ==> Valid() && Place(pos) == old(Place(pos))
      ensures rc == Ok ==> pos == old(pos) - start < last && line == old(line)
    {
      var len := pos - start;
      if len == CONF_BUFFER {
        return TooLong;
      }
      Move(start, len, offset - last);
      var size := |text| - offset;
      if size > CONF_BUFFER - len {
        size := CONF_BUFFER - len;
      }
      var ok := Load(len, size);
      if !ok {
        return ReadError;
      }
      pos, last := len, len + size;
      offset := offset + size;
      return Ok;
    }

    /** Lines 502-540: the next character, with the start of the token where it is then. */
    method ReadChar(start: nat) returns (rc: Rc, ch: char, moved: nat)
      requires Valid() && start <= pos && Place(pos) < |text|
      modifies this`offset, this`line, this`pos, this`last, buffer
      ensures rc == Ok || rc == TooLong || rc == ReadError
      ensures rc != ReadError ==> Valid() && (rc == TooLong <==> old(Place(pos)) == old(Place(start)) + CONF_BUFFER)
      ensures rc == Ok ==> moved < pos && Place(moved) == old(Place(start)) && Place(pos) == old(Place(pos)) + 1
      ensures rc == Ok ==> ch == text[old(Place(pos))] && line == Line(old(line), ch)
    {
      rc, ch, moved := Ok, ' ', start;
      if pos >= last {
        rc := Refill(start);
        if rc != Ok {
          return;
        }
        moved := 0;
      }
      ch := buffer[pos];
      pos := pos + 1;
      if ch == '\n' {
        line := line + 1;
      }
    }

    /** A character of the window and of the text. */
    lemma HeldAt(i: nat)
      requires Valid() && i < last
      ensures Place(i) < |text| && buffer[i] == text[Place(i)]
    {
    }

    /** Lines 683-720. */
    method ReadWord(start: nat, end: nat) returns (word: seq<char>)
      requires Valid() && start <= end < last
      ensures word == Unescape(text, Place(start), Place(end))
    {
      hide Unescape, Escaped;
      ghost var base := Place(0);
      AtWordEnd(text, base + start, base + end);
      var src := start;
      word := [];
      while src < end
        invariant start <= src <= end + 1
        invariant Unescape(text, base + start, base + end) == word + Unescape(text, base + src, base + end)
        decreases end - src
      {
        HeldAt(src);
        HeldAt(src + 1);
        var ch, size := buffer[src], 1;
        if ch == '\\' {
          var e := Escaped(buffer[src + 1]);
          ch, size := e.0, e.1;
        }
        EscapeStep(text, base + src, base + end, word);
        word := word + [ch];
        src := src + size;
      }
    }

    /** `ngx_conf_read_token`: unless a read fails, the words, the code, the place and the line are
        those of the lexer over the whole text; the call fails with "too long parameter" when and
        only when that lexer does not fit the window. */
    method ReadToken() returns (r: Result)
      requires Valid()
      modifies this`offset, this`line, this`pos, this`last, buffer
      ensures r.rc != ReadError ==> Valid()
      ensures r.rc != ReadError ==> (r.rc == TooLong <==> !Fits(text, Fresh(old(Place(pos)), old(line))))
      ensures r.rc != TooLong && r.rc != ReadError ==>
        r == Lex(text, Fresh(old(Place(pos)), old(line))) && Place(pos) == r.pos && line == r.line
    {
      hide OnChar, AfterSpace, InToken, Unescape, Lex, Fits;
      var f, args := START, [];
      var start: nat, startLine: nat := pos, line;
      ghost var s := Fresh(Place(pos), line);
      ghost var whole, fits := Lex(text, s), Fits(text, s);
      while true
        invariant Valid() && start <= pos
        invariant s == State(Place(pos), Place(start), line, f, args)
        invariant whole == Lex(text, s) && fits == Fits(text, s)
        decreases |text| - s.pos
      {
        if pos >= last && offset >= |text| {
          EndOfText(text, s);
          return Result(if args != [] || !f.lastSpace then UnexpectedEnd else FileDone, args, offset, line);
        }
        var rc, ch, moved := ReadChar(start);
        if rc != Ok {
          Unfold(text, s);
          if rc == TooLong { line := startLine; }
          return Result(rc, args, 0, line);
        }
        start := moved;
        Unfold(text, s);
        var a := OnChar(f, ch, args == []);
        if a.Word? || a.WordStop? {
          var word := ReadWord(start, pos - 1);
          args := args + [word];
        }
        if a.Stop? || a.WordStop? {
          return Result(a.rc, args, offset - last + pos, line);
        }
        if a.Begin? {
          start := pos - 1 + a.skip;
          startLine := line;
        }
        f := a.f;
        s := One(text, s).next;
      }
    }
  }
}
