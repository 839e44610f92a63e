/** The wildcard hashes of `ngx_hash.c`. A name pattern is kept with its labels in the order they
    are looked up: ".example.com" as "com.example" and "*.example.com" as "com.example."; a
    pattern "www.example.*" as "www.example". */
module Wildcard {
  import opened Options

  /** `ngx_hash_key_t`, lower-case. */
  datatype Pat = Pat(text: string, value: nat)

  /** A value of the hash: a data pointer with its low bit used as a mark, or a pointer to the
      hash of the next labels with its two low bits, 2 or 3. */
  datatype Entry = Data(word: nat) | Link(next: Wdc, tag: nat)
  datatype Row = Row(key: string, entry: Entry)

  /** `ngx_hash_wildcard_t`; the hash finds the first row of a label (HashTable.Hash.Find). */
  datatype Wdc = Wdc(rows: seq<Row>, value: nat)

  function Lookup(rows: seq<Row>, name: string): Option<Entry> {
    if rows == [] then None
    else if rows[0].key == name then Some(rows[0].entry)
    else Lookup(rows[1..], name)
  }

  // ---------- labels ----------

  /** The index of the first dot, or the length. */
  function Dot(s: string): (d: nat)
    ensures d <= |s| && (d < |s| ==> s[d] == '.') && forall i :: 0 <= i < d ==> s[i] != '.'
  {
    if s == "" || s[0] == '.' then 0 else 1 + Dot(s[1..])
  }

  predicate Dotted(s: string) {
    Dot(s) < |s|
  }

  function Head(s: string): string {
    s[..Dot(s)]
  }

  function Tail(s: string): (t: string)
    ensures Dotted(s) ==> |t| < |s|
  {
    if Dotted(s) then s[Dot(s) + 1..] else ""
  }

  /** The labels of a pattern; a dot at the end adds none, */
  ghost function Labels(s: string): (l: seq<string>)
    ensures l != []
    decreases |s|
  {
    if Tail(s) == "" then [Head(s)] else [Head(s)] + Labels(Tail(s))
  }

  /** it says that only longer names match. */
  ghost predicate Below(s: string) {
    s != "" && s[|s| - 1] == '.'
  }

  lemma TailBelow(s: string)
    ensures Tail(s) != "" ==> (Below(s) <==> Below(Tail(s)))
    ensures Tail(s) == "" ==> (Below(s) <==> Dotted(s))
  {
  }

  /** The index after the last dot. */
  function LabelStart(s: string): (n: nat)
    ensures n <= |s| && (n > 0 ==> s[n - 1] == '.') && forall i :: n <= i < |s| ==> s[i] != '.'
  {
    if s == "" || s[|s| - 1] == '.' then |s| else LabelStart(s[..|s| - 1])
  }

  /** The labels of a name from the last to the first. */
  ghost function LabelsBack(s: string): (l: seq<string>)
    ensures l != []
    decreases |s|
  {
    var n := LabelStart(s);
    if n == 0 then [s] else [s[n..]] + LabelsBack(s[..n - 1])
  }

  /** and from the first to the last. */
  ghost function LabelsForth(s: string): (l: seq<string>)
    ensures l != []
    decreases |s|
  {
    if Dotted(s) then [Head(s)] + LabelsForth(Tail(s)) else [s]
  }

  // ---------- what matches ----------

  /** "example.com" in ".example.com", or only below it. */
  ghost predicate Matches(p: Pat, l: seq<string>) {
    Labels(p.text) <= l && (Below(p.text) ==> |l| > |Labels(p.text)|)
  }

  ghost predicate MatchesTail(p: Pat, l: seq<string>) {
    Labels(p.text) <= l && |l| > |Labels(p.text)|
  }

  ghost predicate MatchesAs(tail: bool, p: Pat, l: seq<string>) {
    if tail then MatchesTail(p, l) else Matches(p, l)
  }

  /** `v` is the value of the longest pattern that matches, or `otherwise` when none does. */
  ghost predicate Longest(tail: bool, names: seq<Pat>, l: seq<string>, v: nat, otherwise: set<nat>) {
    if exists p :: p in names && MatchesAs(tail, p, l)
    then exists p :: p in names && MatchesAs(tail, p, l) && v == p.value && IsLongest(tail, names, l, p)
    else v in otherwise
  }

  ghost predicate IsLongest(tail: bool, names: seq<Pat>, l: seq<string>, p: Pat) {
    forall q :: q in names && MatchesAs(tail, q, l) ==> |Labels(q.text)| <= |Labels(p.text)|
  }

  // ---------- ngx_hash_find_wc_head and ngx_hash_find_wc_tail ----------

  /** Lines 52-143. */
  function FindHead(w: Wdc, name: string): nat
    decreases |name|
  {
    var n := LabelStart(name);
    match Lookup(w.rows, name[n..])
    case None => w.value
    case Some(Link(next, tag)) =>
      if n == 0 then (if tag % 2 == 1 then 0 else next.value)
      else var v := FindHead(next, name[..n - 1]); if v != 0 then v else next.value
    case Some(Data(word)) =>
      if word % 2 == 1 then (if n == 0 then 0 else word - word % 4) else word
  }

  /** Lines 146-207. */
  function FindTail(w: Wdc, name: string): nat
    decreases |name|
  {
    if !Dotted(name) then 0 else
      match Lookup(w.rows, Head(name))
      case None => w.value
      case Some(Link(next, _)) =>
        var v := FindTail(next, Tail(name)); if v != 0 then v else next.value
      case Some(Data(word)) => word
  }

  // ---------- ngx_hash_wildcard_init ----------

  /** Lines 537-546: `b` goes with `a`. */
  predicate Together(a: string, b: string) {
    var len := Dot(a) + if Dotted(a) then 1 else 0;
    len <= |b| && a[..len] == b[..len] && (Dotted(a) || |b| <= len || b[len] == '.')
  }

  function GroupEnd(names: seq<Pat>, i: nat): (k: nat)
    requires 1 <= i <= |names|
    ensures i <= k <= |names| && (forall j :: i <= j < k ==> Together(names[0].text, names[j].text))
    ensures k < |names| ==> !Together(names[0].text, names[k].text)
    decreases |names| - i
  {
    if i == |names| || !Together(names[0].text, names[i].text) then i else GroupEnd(names, i + 1)
  }

  function From(s: string, n: nat): string {
    if n <= |s| then s[n..] else ""
  }

  function Rest(p: Pat, n: nat): Pat {
    Pat(From(p.text, n), p.value)
  }

  /** Lines 517-562: what is left of the names of a group for the next hash. */
  function Subs(g: seq<Pat>): seq<Pat>
    requires g != []
  {
    var cut := Dot(g[0].text) + 1;
    (if Tail(g[0].text) != "" then [Rest(g[0], cut)] else []) + seq(|g| - 1, i requires 0 <= i < |g| - 1 => Rest(g[i + 1], cut))
  }

  function Chars(names: seq<Pat>): nat {
    if names == [] then 0 else |names[0].text| + 1 + Chars(names[1..])
  }

  lemma {:induction false} CharsAppend(a: seq<Pat>, b: seq<Pat>)
    ensures Chars(a + b) == Chars(a) + Chars(b)
  {
    if a == [] {
      assert a + b == b;
    } else {
      assert (a + b)[1..] == a[1..] + b;
      CharsAppend(a[1..], b);
    }
  }

  lemma {:induction false} CharsLess(a: seq<Pat>, b: seq<Pat>)
    requires |a| == |b| && forall i :: 0 <= i < |a| ==> |a[i].text| <= |b[i].text|
    ensures Chars(a) <= Chars(b)
  {
    if a != [] { CharsLess(a[1..], b[1..]); }
  }

  lemma SubsShorter(g: seq<Pat>)
    requires g != []
    ensures Chars(Subs(g)) < Chars(g)
  {
    var cut := Dot(g[0].text) + 1;
    var rest := seq(|g| - 1, i requires 0 <= i < |g| - 1 => Rest(g[i + 1], cut));
    CharsLess(rest, g[1..]);
    var first := if Tail(g[0].text) != "" then [Rest(g[0], cut)] else [];
    CharsAppend(first, rest);
    if first != [] { assert first[1..] == []; }
  }

  /** Lines 480-587 as a function of the names. */
  function Rows(names: seq<Pat>): seq<Row>
    decreases Chars(names), 1
  {
    if names == [] then [] else
      var k := GroupEnd(names, 1);
      Shorter(names, k);
      [Row(Head(names[0].text), GroupEntry(names[..k]))] + Rows(names[k..])
  }

  lemma Shorter(names: seq<Pat>, k: nat)
    requires 1 <= k <= |names|
    ensures Chars(names[..k]) <= Chars(names) && Chars(names[k..]) < Chars(names)
  {
    assert names == names[..k] + names[k..];
    CharsAppend(names[..k], names[k..]);
  }

  /** Lines 564-586. */
  function GroupEntry(g: seq<Pat>): Entry
    requires g != []
    decreases Chars(g), 0
  {
    var first := g[0];
    if Subs(g) != [] then
      SubsShorter(g);
      Link(Wdc(Rows(Subs(g)), if Tail(first.text) == "" then first.value else 0), if Dotted(first.text) then 3 else 2)
    else Data(if Dotted(first.text) then first.value + 1 else first.value)
  }

  // ---------- the order of ngx_dns_strcmp ----------

  /** Lines 847-850 of ngx_string.c: a dot comes before every other character of a name. */
  function Rank(c: char): char {
    if c == '.' then ' ' else c
  }

  /** `ngx_dns_strcmp(a, b) < 0` for lower-case names. */
  ghost predicate Before(a: string, b: string) {
    b != "" && (a == "" || (if a[0] == b[0] then Before(a[1..], b[1..]) else Rank(a[0]) < Rank(b[0])))
  }

  ghost predicate Clean(s: string) {
    forall i :: 0 <= i < |s| ==> s[i] == '.' || s[i] > ' '
  }

  lemma CleanRest(s: string)
    requires Clean(s) && s != ""
    ensures Clean(s[1..]) && (s[0] == '.' || s[0] > ' ')
  {
  }

  /** Names that start with the same label stand together. */
  lemma {:induction false} SameHeadBetween(a: string, b: string, c: string)
    requires Clean(a) && Clean(b) && Clean(c) && Before(a, b) && Before(b, c) && Head(a) == Head(c)
    ensures Head(b) == Head(a)
    decreases |a|
  {
    CleanRest(b);
    CleanRest(c);
    if Head(a) == "" {
    } else {
      CleanRest(a);
      assert a[0] == Head(a)[0] == Head(c)[0] == c[0];
      assert Head(a)[1..] == Head(a[1..]) && Head(c)[1..] == Head(c[1..]);
      SameHeadBetween(a[1..], b[1..], c[1..]);
      assert Head(b) == [b[0]] + Head(b[1..]) && Head(a) == [a[0]] + Head(a[1..]);
    }
  }

  /** With the same first label the order is that of the rest, a name without a dot first. */
  lemma {:induction false} OrderOfTails(a: string, b: string)
    requires Clean(a) && Clean(b) && Before(a, b) && Head(a) == Head(b)
    ensures Dotted(a) ==> Dotted(b) && Before(Tail(a), Tail(b))
    ensures Dotted(a) || Dotted(b)
    decreases |a|
  {
    CleanRest(b);
    if Head(a) == "" {
      if a != "" {
        assert a[1..] == Tail(a) && b[1..] == Tail(b);
      }
    } else {
      CleanRest(a);
      assert a[0] == Head(a)[0] == Head(b)[0] == b[0];
      assert Head(a)[1..] == Head(a[1..]) && Head(b)[1..] == Head(b[1..]);
      OrderOfTails(a[1..], b[1..]);
    }
  }

  lemma TailClean(s: string)
    requires Clean(s)
    ensures Clean(Tail(s))
  {
  }

  /** Names as ngx_hash_wildcard_init gets them: sorted, no two for the same labels, and values
      that are aligned pointers; tail patterns have no dot at the end. */
  ghost predicate Proper(tail: bool, names: seq<Pat>) {
    && (forall i :: 0 <= i < |names| ==> PatOk(tail, names[i]))
    && (forall i, j :: 0 <= i < j < |names| ==> Ordered(names[i].text, names[j].text))
  }

  ghost predicate PatOk(tail: bool, p: Pat) {
    Clean(p.text) && p.text != "" && p.value > 0 && p.value % 4 == 0 && (tail ==> !Below(p.text))
  }

  ghost predicate Ordered(a: string, b: string) {
    Before(a, b) && Labels(a) != Labels(b)
  }

  lemma ProperPart(tail: bool, names: seq<Pat>, i: nat, k: nat)
    requires Proper(tail, names) && i <= k <= |names|
    ensures Proper(tail, names[i..k])
  {
  }

  /** Lines 537-546 go on exactly as long as the first label is the same. */
  lemma TogetherMeans(a: string, b: string)
    requires Clean(a) && Clean(b) && Before(a, b)
    ensures Together(a, b) <==> Head(a) == Head(b)
  {
    var len := Dot(a) + if Dotted(a) then 1 else 0;
    if Together(a, b) {
      assert a[..len] == b[..len];
      HeadOf(b, Dot(a));
    }
    if Head(a) == Head(b) {
      OrderOfTails(a, b);
      HeadSame(a, b);
    }
  }

  lemma HeadOf(b: string, d: nat)
    requires d <= |b| && (d == |b| || b[d] == '.')
    ensures (forall i :: 0 <= i < d ==> b[i] != '.') ==> Dot(b) == d && Head(b) == b[..d]
  {
  }

  lemma HeadSame(a: string, b: string)
    requires Head(a) == Head(b)
    ensures Dot(a) == Dot(b) && a[..Dot(a)] == b[..Dot(a)]
    ensures Dotted(a) && Dotted(b) ==> a[..Dot(a) + 1] == b[..Dot(a) + 1]
  {
    assert |Head(a)| == Dot(a) && |Head(b)| == Dot(b);
    if Dotted(a) && Dotted(b) {
      assert a[..Dot(a) + 1] == Head(a) + ['.'] && b[..Dot(a) + 1] == Head(b) + ['.'];
    }
  }

  /** The group at the front has all names with its label. */
  lemma GroupIsAll(tail: bool, names: seq<Pat>)
    requires Proper(tail, names) && names != []
    ensures var k := GroupEnd(names, 1); forall i :: 0 <= i < |names| ==> (Head(names[i].text) == Head(names[0].text) <==> i < k)
  {
    var k := GroupEnd(names, 1);
    forall i | 0 <= i < |names| ensures Head(names[i].text) == Head(names[0].text) <==> i < k {
      assert PatOk(tail, names[0]) && PatOk(tail, names[i]);
      if i > 0 {
        assert Ordered(names[0].text, names[i].text);
        TogetherMeans(names[0].text, names[i].text);
        if k < i {
          assert Ordered(names[0].text, names[k].text) && Ordered(names[k].text, names[i].text) && PatOk(tail, names[k]);
          TogetherMeans(names[0].text, names[k].text);
          if Head(names[i].text) == Head(names[0].text) {
            SameHeadBetween(names[0].text, names[k].text, names[i].text);
          }
        }
      }
    }
  }

  /** The names split into the group at the front and the others. */
  lemma SplitGroup(tail: bool, names: seq<Pat>, name: string)
    requires Proper(tail, names) && names != []
    ensures var k := GroupEnd(names, 1);
      && Proper(tail, names[..k]) && Proper(tail, names[k..]) && Chars(names[..k]) <= Chars(names) && Chars(names[k..]) <= Chars(names)
      && (Head(names[0].text) == name ==> forall p :: p in names[..k] <==> p in names && Head(p.text) == name)
      && (Head(names[0].text) != name ==> forall p :: p in names[k..] && Head(p.text) == name <==> p in names && Head(p.text) == name)
  {
    var k := GroupEnd(names, 1);
    GroupIsAll(tail, names);
    ProperPart(tail, names, 0, k);
    ProperPart(tail, names, k, |names|);
    Shorter(names, k);
    assert names[k..|names|] == names[k..] && names[0..k] == names[..k];
    hide Proper, Head, Chars, GroupEnd;
    SplitMembers(names, k);
    HeadsOf(names, k);
  }

  lemma SplitMembers(names: seq<Pat>, k: nat)
    requires k <= |names|
    ensures forall p :: p in names <==> p in names[..k] || p in names[k..]
  {
    assert names == names[..k] + names[k..];
  }

  lemma HeadsOf(names: seq<Pat>, k: nat)
    requires k <= |names| && names != [] && forall i :: 0 <= i < |names| ==> (Head(names[i].text) == Head(names[0].text) <==> i < k)
    ensures forall p :: p in names[..k] ==> Head(p.text) == Head(names[0].text)
    ensures forall p :: p in names[k..] ==> Head(p.text) != Head(names[0].text)
  {
    hide Head;
    forall p | p in names[k..] ensures Head(p.text) != Head(names[0].text) {
      var i :| 0 <= i < |names| - k && names[k..][i] == p;
      assert names[k + i] == p;
    }
  }

  /** What the hash of `names` has for a label: the entry of all names that start with it. */
  lemma {:induction false} LookupRows(tail: bool, names: seq<Pat>, name: string) returns (g: seq<Pat>)
    requires Proper(tail, names)
    ensures Proper(tail, g) && Chars(g) <= Chars(names)
    ensures forall p :: p in g <==> p in names && Head(p.text) == name
    ensures Lookup(Rows(names), name) == if g == [] then None else Some(GroupEntry(g))
    decreases |names|
  {
    if names == [] {
      g := [];
    } else {
      var k := GroupEnd(names, 1);
      SplitGroup(tail, names, name);
      FirstRow(names, name);
      hide Proper, Head, Chars, Rows, GroupEntry, Lookup;
      if Head(names[0].text) == name {
        g := names[..k];
      } else {
        g := LookupRows(tail, names[k..], name);
      }
    }
  }

  lemma FirstRow(names: seq<Pat>, name: string)
    requires names != []
    ensures var k := GroupEnd(names, 1);
      Lookup(Rows(names), name) == if Head(names[0].text) == name then Some(GroupEntry(names[..k])) else Lookup(Rows(names[k..]), name)
  {
    var k := GroupEnd(names, 1);
    Shorter(names, k);
    var row := Row(Head(names[0].text), GroupEntry(names[..k]));
    assert Rows(names) == [row] + Rows(names[k..]) && Rows(names)[1..] == Rows(names[k..]);
  }

  // ---------- the names of the next hash ----------

  /** `s` is what follows the first label of some name of the group. */
  lemma SubsAre(tail: bool, g: seq<Pat>, name: string)
    requires Proper(tail, g) && g != [] && forall p :: p in g ==> Head(p.text) == name
    ensures forall i :: 0 < i < |g| ==> Tail(g[i].text) != "" && Rest(g[i], Dot(g[0].text) + 1) == Pat(Tail(g[i].text), g[i].value)
    ensures Rest(g[0], Dot(g[0].text) + 1) == Pat(Tail(g[0].text), g[0].value)
  {
    assert g[0] in g;
    forall i | 0 < i < |g| ensures Tail(g[i].text) != "" && Rest(g[i], Dot(g[0].text) + 1) == Pat(Tail(g[i].text), g[i].value) {
      assert g[i] in g && Ordered(g[0].text, g[i].text) && PatOk(tail, g[0]) && PatOk(tail, g[i]);
      OrderOfTails(g[0].text, g[i].text);
      HeadSame(g[0].text, g[i].text);
    }
  }

  /** The names of the next hash as tails of the names of the group. */
  ghost function TailPat(p: Pat): Pat {
    Pat(Tail(p.text), p.value)
  }

  /** The first name of the group that goes on. */
  function Skip(g: seq<Pat>): nat
    requires g != []
  {
    if Tail(g[0].text) == "" then 1 else 0
  }

  lemma SubsAt(g: seq<Pat>, i: nat)
    requires g != []
    ensures |Subs(g)| == |g| - Skip(g)
    ensures i < |Subs(g)| ==> Subs(g)[i] == Rest(g[i + Skip(g)], Dot(g[0].text) + 1)
  {
    hide Tail, Dot, Rest;
  }

  ghost predicate Grouped(tail: bool, g: seq<Pat>, name: string) {
    Proper(tail, g) && g != [] && forall p :: p in g ==> Head(p.text) == name
  }

  lemma SubIs(tail: bool, g: seq<Pat>, name: string, i: nat)
    requires Grouped(tail, g, name) && i < |Subs(g)|
    ensures i + Skip(g) < |g| && Subs(g)[i] == TailPat(g[i + Skip(g)]) && PatOk(tail, g[i + Skip(g)]) && Tail(g[i + Skip(g)].text) != ""
    ensures Head(g[i + Skip(g)].text) == name
  {
    SubsAre(tail, g, name);
    SubsAt(g, i);
    assert g[i + Skip(g)] in g;
    hide Subs, Rest, Dot, Head, Tail;
  }

  lemma TailOk(tail: bool, p: Pat)
    requires PatOk(tail, p) && Tail(p.text) != ""
    ensures PatOk(tail, TailPat(p))
  {
    TailClean(p.text);
    TailBelow(p.text);
    hide Clean, Below;
  }

  lemma TailsOrdered(tail: bool, a: Pat, b: Pat)
    requires PatOk(tail, a) && PatOk(tail, b) && Head(a.text) == Head(b.text) && Ordered(a.text, b.text) && Tail(a.text) != "" && Tail(b.text) != ""
    ensures Ordered(Tail(a.text), Tail(b.text))
  {
    OrderOfTails(a.text, b.text);
    LabelsOf(a.text);
    LabelsOf(b.text);
    hide Labels, Before;
  }

  lemma SubsProper(tail: bool, g: seq<Pat>, name: string)
    requires Grouped(tail, g, name)
    ensures Proper(tail, Subs(g))
  {
    hide Subs, Ordered, PatOk, Tail, Dot, Rest, Head;
    forall i | 0 <= i < |Subs(g)| ensures PatOk(tail, Subs(g)[i]) {
      SubIs(tail, g, name, i);
      TailOk(tail, g[i + Skip(g)]);
    }
    forall i, j | 0 <= i < j < |Subs(g)| ensures Ordered(Subs(g)[i].text, Subs(g)[j].text) {
      SubIs(tail, g, name, i);
      SubIs(tail, g, name, j);
      TailsOrdered(tail, g[i + Skip(g)], g[j + Skip(g)]);
    }
  }

  lemma LabelsOf(s: string)
    ensures Tail(s) == "" ==> Labels(s) == [Head(s)]
    ensures Tail(s) != "" ==> Labels(s) == [Head(s)] + Labels(Tail(s))
  {
  }

  // ---------- finding, on labels ----------

  /** The two find functions on the labels of a name in the order they are looked up. */
  ghost function FindL(tail: bool, w: Wdc, l: seq<string>): nat
    requires l != []
    decreases |l|
  {
    if tail && |l| == 1 then 0 else
      match Lookup(w.rows, l[0])
      case None => w.value
      case Some(Link(next, tag)) =>
        if |l| == 1 then (if tag % 2 == 1 then 0 else next.value)
        else var v := FindL(tail, next, l[1..]); if v != 0 then v else next.value
      case Some(Data(word)) =>
        if !tail && word % 2 == 1 then (if |l| == 1 then 0 else word - word % 4) else word
  }

  lemma {:induction false} FindHeadL(w: Wdc, name: string)
    ensures FindHead(w, name) == FindL(false, w, LabelsBack(name))
    decreases |name|
  {
    var n := LabelStart(name);
    if n > 0 {
      var rest := LabelsBack(name[..n - 1]);
      assert LabelsBack(name)[1..] == rest;
      match Lookup(w.rows, name[n..])
      case Some(Link(next, tag)) => FindHeadL(next, name[..n - 1]);
      case _ =>
    } else {
      assert name[0..] == name;
    }
  }

  lemma {:induction false} FindTailL(w: Wdc, name: string)
    ensures FindTail(w, name) == FindL(true, w, LabelsForth(name))
    decreases |name|
  {
    if Dotted(name) {
      assert LabelsForth(name)[1..] == LabelsForth(Tail(name));
      match Lookup(w.rows, Head(name)) {
        case Some(Link(next, _)) => FindTailL(next, Tail(name));
        case _ =>
      }
    }
  }

  // ---------- finding is finding the longest ----------

  /** A pattern matches a name when the rest of it matches the rest of the name. */
  lemma MatchRest(tail: bool, p: Pat, l: seq<string>)
    requires l != []
    ensures Tail(p.text) != "" ==> (MatchesAs(tail, p, l) <==> Head(p.text) == l[0] && |l| > 1 && MatchesAs(tail, TailPat(p), l[1..]))
    ensures Tail(p.text) == "" ==> (MatchesAs(tail, p, l) <==> Head(p.text) == l[0] && (tail || Dotted(p.text) ==> |l| > 1))
    ensures |Labels(p.text)| == 1 + if Tail(p.text) == "" then 0 else |Labels(Tail(p.text))|
  {
    LabelsOf(p.text);
    TailBelow(p.text);
    hide Labels, Below, Head, Dotted, Tail;
    if Tail(p.text) != "" {
      var k := Labels(Tail(p.text));
      if |l| > 1 { ConsPrefix(Head(p.text), k, l); }
    } else {
      ConsPrefix(Head(p.text), [], l);
    }
  }

  lemma ConsPrefix(x: string, k: seq<string>, l: seq<string>)
    requires l != []
    ensures [x] + k <= l <==> x == l[0] && k <= l[1..]
  {
    if x == l[0] && k <= l[1..] {
      assert l == [x] + l[1..];
    }
    if [x] + k <= l {
      assert l[0] == ([x] + k)[0];
      assert forall i :: 0 <= i < |k| ==> k[i] == ([x] + k)[i + 1] == l[i + 1];
    }
  }

  /** Only the names with the first label can match. */
  lemma LongestOfGroup(tail: bool, names: seq<Pat>, g: seq<Pat>, l: seq<string>, v: nat, otherwise: set<nat>)
    requires l != [] && (forall p :: p in g <==> p in names && Head(p.text) == l[0]) && Longest(tail, g, l, v, otherwise)
    ensures Longest(tail, names, l, v, otherwise)
  {
    forall p ensures MatchesAs(tail, p, l) ==> Head(p.text) == l[0] {
      MatchRest(tail, p, l);
    }
    hide MatchesAs, Labels, Head;
  }

  lemma OnlyFirst(tail: bool, g: seq<Pat>, name: string, p: Pat)
    requires Grouped(tail, g, name) && p in g
    ensures Tail(p.text) == "" ==> p == g[0]
    ensures Tail(p.text) != "" ==> TailPat(p) in Subs(g)
  {
    var i :| 0 <= i < |g| && g[i] == p;
    if Tail(p.text) != "" {
      TailIn(tail, g, name, i);
    } else {
      SubsAre(tail, g, name);
    }
  }

  lemma TailIn(tail: bool, g: seq<Pat>, name: string, i: nat)
    requires Grouped(tail, g, name) && i < |g| && Tail(g[i].text) != ""
    ensures TailPat(g[i]) in Subs(g)
  {
    hide Grouped, Subs, Tail, Rest, Dot, Skip;
    SkipOk(g, i);
    SubsAt(g, i - Skip(g));
    SubIs(tail, g, name, i - Skip(g));
  }

  lemma SkipOk(g: seq<Pat>, i: nat)
    requires i < |g| && Tail(g[i].text) != ""
    ensures Skip(g) <= i
  {
    hide Tail;
  }

  lemma SubFrom(tail: bool, g: seq<Pat>, name: string, q: Pat) returns (p: Pat)
    requires Grouped(tail, g, name) && q in Subs(g)
    ensures p in g && Tail(p.text) != "" && q == TailPat(p) && PatOk(tail, p) && Head(p.text) == name
  {
    var i :| 0 <= i < |Subs(g)| && Subs(g)[i] == q;
    SubIs(tail, g, name, i);
    p := g[i + Skip(g)];
  }

  lemma MemberFacts(tail: bool, g: seq<Pat>, l: seq<string>, p: Pat)
    requires l != [] && Grouped(tail, g, l[0]) && p in g
    ensures PatOk(tail, p) && Head(p.text) == l[0]
    ensures Tail(p.text) == "" ==> p == g[0] && |Labels(p.text)| == 1 && (MatchesAs(tail, p, l) <==> (tail || Dotted(p.text) ==> |l| > 1))
    ensures Tail(p.text) != "" ==>
      (TailPat(p) in Subs(g) && |Labels(p.text)| == 1 + |Labels(TailPat(p).text)| && (MatchesAs(tail, p, l) <==> |l| > 1 && MatchesAs(tail, TailPat(p), l[1..])))
  {
    var i :| 0 <= i < |g| && g[i] == p;
    MatchRest(tail, p, l);
    OnlyFirst(tail, g, l[0], p);
  }

  ghost predicate Best(tail: bool, names: seq<Pat>, l: seq<string>, v: nat, p: Pat) {
    p in names && MatchesAs(tail, p, l) && v == p.value && IsLongest(tail, names, l, p)
  }

  /** The longest match in the next hash is the longest of the group. */
  lemma BestUp(tail: bool, g: seq<Pat>, l: seq<string>, r: nat, q: Pat) returns (p: Pat)
    requires l != [] && |l| > 1 && Grouped(tail, g, l[0]) && Best(tail, Subs(g), l[1..], r, q)
    ensures r != 0 && Best(tail, g, l, r, p)
  {
    p := SubFrom(tail, g, l[0], q);
    MemberFacts(tail, g, l, p);
    hide MatchesAs, Labels, Subs, Grouped, Tail, Head, Dotted;
    forall p2 | p2 in g && MatchesAs(tail, p2, l) ensures |Labels(p2.text)| <= |Labels(p.text)| {
      MemberFacts(tail, g, l, p2);
    }
  }

  /** Some name of the next hash matches. */
  lemma LinkFound(tail: bool, g: seq<Pat>, l: seq<string>, r: nat)
    requires l != [] && |l| > 1 && Grouped(tail, g, l[0])
    requires exists q :: Best(tail, Subs(g), l[1..], r, q)
    ensures r != 0 && Longest(tail, g, l, r, {0})
  {
    var q :| Best(tail, Subs(g), l[1..], r, q);
    var p := BestUp(tail, g, l, r, q);
    hide MatchesAs, IsLongest, Grouped, Subs;
  }

  /** None does; then the whole name does, if it is there. */
  lemma LinkNone(tail: bool, g: seq<Pat>, l: seq<string>)
    requires l != [] && Grouped(tail, g, l[0]) && (|l| == 1 || forall q :: q in Subs(g) ==> !MatchesAs(tail, q, l[1..]))
    ensures Longest(tail, g, l, if Tail(g[0].text) == "" && (tail || Dotted(g[0].text) ==> |l| > 1) then g[0].value else 0, {0})
  {
    MemberFacts(tail, g, l, g[0]);
    hide MatchesAs, Labels, Subs, Proper, Tail, Head, Dotted;
    forall p | p in g && MatchesAs(tail, p, l) ensures p == g[0] && Tail(p.text) == "" {
      MemberFacts(tail, g, l, p);
    }
  }

  lemma DataFacts(tail: bool, g: seq<Pat>, name: string)
    requires Grouped(tail, g, name) && Subs(g) == []
    ensures g != [] && Tail(g[0].text) == "" && GroupEntry(g).Data? && (tail ==> !Dotted(g[0].text))
    ensures var word := GroupEntry(g).word;
      if Dotted(g[0].text) then word % 2 == 1 && word - word % 4 == g[0].value else word % 2 == 0 && word == g[0].value
  {
    hide Grouped, Subs, GroupEntry, Tail, Dotted, PatOk;
    NotEmpty(tail, g, name);
    SubsAt(g, 0);
    DataEntry(g);
    TagBits(tail, g[0]);
  }

  lemma DataStep(tail: bool, w: Wdc, l: seq<string>, word: nat)
    requires l != [] && Lookup(w.rows, l[0]) == Some(Data(word)) && (tail ==> |l| > 1)
    ensures FindL(tail, w, l) == if !tail && word % 2 == 1 then (if |l| == 1 then 0 else word - word % 4) else word
  {
    hide Lookup;
  }

  /** Lines 127-139: a label that leads to no other hash. */
  lemma DataRight(tail: bool, g: seq<Pat>, w: Wdc, l: seq<string>)
    requires l != [] && Grouped(tail, g, l[0]) && Lookup(w.rows, l[0]) == Some(GroupEntry(g)) && (tail ==> |l| > 1) && Subs(g) == []
    ensures Longest(tail, g, l, FindL(tail, w, l), {0})
  {
    hide Longest, GroupEntry, Lookup, Tail, Subs, Grouped, Dotted, FindL;
    DataFacts(tail, g, l[0]);
    DataStep(tail, w, l, GroupEntry(g).word);
    LinkNone(tail, g, l);
  }

  lemma NotEmpty(tail: bool, g: seq<Pat>, name: string)
    requires Grouped(tail, g, name)
    ensures g != [] && PatOk(tail, g[0])
  {
    hide PatOk;
  }

  /** Lines 103-114: the label is all of the name. */
  lemma LinkOne(tail: bool, g: seq<Pat>, l: seq<string>)
    requires |l| == 1 && !tail && Grouped(tail, g, l[0])
    ensures g != [] && Longest(tail, g, l, if Dotted(g[0].text) then 0 else WholeValue(g), {0})
  {
    NotEmpty(tail, g, l[0]);
    LinkNone(tail, g, l);
    UndottedHasNoTail(g[0].text);
    hide Longest, Dotted, Tail, Grouped;
  }

  /** Lines 101-125: a label that leads to another hash. */
  lemma LinkRight(tail: bool, g: seq<Pat>, w: Wdc, l: seq<string>, next: Wdc, tag: nat)
    requires l != [] && Grouped(tail, g, l[0]) && Lookup(w.rows, l[0]) == Some(Link(next, tag)) && (tail ==> |l| > 1)
    requires g != [] && next.value == WholeValue(g) && (tag % 2 == 1 <==> Dotted(g[0].text))
    requires |l| > 1 ==> Longest(tail, Subs(g), l[1..], FindL(tail, next, l[1..]), {WholeValue(g), 0})
    ensures Longest(tail, g, l, FindL(tail, w, l), {0})
  {
    hide Lookup, Longest, WholeValue, FindL, Grouped, Dotted, Subs;
    LinkStep(tail, w, l, next, tag);
    if |l| == 1 {
      LinkOne(tail, g, l);
    } else {
      LinkMore(tail, g, l, FindL(tail, next, l[1..]));
    }
  }

  lemma LinkMore(tail: bool, g: seq<Pat>, l: seq<string>, r: nat)
    requires |l| > 1 && Grouped(tail, g, l[0]) && g != [] && Longest(tail, Subs(g), l[1..], r, {WholeValue(g), 0})
    ensures Longest(tail, g, l, if r != 0 then r else WholeValue(g), {0})
  {
    if exists q :: q in Subs(g) && MatchesAs(tail, q, l[1..]) {
      var q :| q in Subs(g) && MatchesAs(tail, q, l[1..]) && r == q.value && IsLongest(tail, Subs(g), l[1..], q);
      assert Best(tail, Subs(g), l[1..], r, q);
      LinkFound(tail, g, l, r);
    } else {
      LinkNone(tail, g, l);
      hide Longest, MatchesAs, Subs, Grouped;
    }
  }

  lemma UndottedHasNoTail(s: string)
    ensures !Dotted(s) ==> Tail(s) == ""
  {
  }

  lemma LinkStep(tail: bool, w: Wdc, l: seq<string>, next: Wdc, tag: nat)
    requires l != [] && Lookup(w.rows, l[0]) == Some(Link(next, tag)) && (tail ==> |l| > 1)
    ensures |l| == 1 ==> FindL(tail, w, l) == if tag % 2 == 1 then 0 else next.value
    ensures |l| > 1 ==> FindL(tail, w, l) == var v := FindL(tail, next, l[1..]); if v != 0 then v else next.value
  {
  }

  /** Lines 578-580. */
  ghost function WholeValue(g: seq<Pat>): nat
    requires g != []
  {
    if Tail(g[0].text) == "" then g[0].value else 0
  }

  lemma DataEntry(g: seq<Pat>)
    requires g != [] && Subs(g) == []
    ensures GroupEntry(g) == Data(if Dotted(g[0].text) then g[0].value + 1 else g[0].value)
  {
  }

  lemma LinkEntry(g: seq<Pat>)
    requires g != [] && Subs(g) != []
    ensures GroupEntry(g) == Link(Wdc(Rows(Subs(g)), WholeValue(g)), if Dotted(g[0].text) then 3 else 2)
  {
    SubsShorter(g);
  }

  /** The low bit marks a pattern that matches only longer names. */
  lemma TagBits(tail: bool, p: Pat)
    requires PatOk(tail, p) && Tail(p.text) == ""
    ensures p.value % 2 == 0 && (p.value + 1) % 2 == 1 && p.value + 1 - (p.value + 1) % 4 == p.value
    ensures tail ==> !Dotted(p.text)
  {
    TailBelow(p.text);
  }

  lemma GroupRight(tail: bool, g: seq<Pat>, w: Wdc, l: seq<string>)
    requires l != [] && Grouped(tail, g, l[0]) && Lookup(w.rows, l[0]) == Some(GroupEntry(g)) && (tail ==> |l| > 1) && g != []
    requires Subs(g) != [] && |l| > 1 ==> Longest(tail, Subs(g), l[1..], FindL(tail, Wdc(Rows(Subs(g)), WholeValue(g)), l[1..]), {WholeValue(g), 0})
    ensures Longest(tail, g, l, FindL(tail, w, l), {0})
  {
    hide Rows, GroupEntry, Lookup, Longest, WholeValue, FindL, Grouped, Dotted, Subs;
    if Subs(g) == [] {
      DataRight(tail, g, w, l);
    } else {
      LinkEntry(g);
      LinkRight(tail, g, w, l, Wdc(Rows(Subs(g)), WholeValue(g)), if Dotted(g[0].text) then 3 else 2);
    }
  }

  lemma {:induction false} FindLRight(tail: bool, names: seq<Pat>, v0: nat, l: seq<string>)
    requires Proper(tail, names) && l != []
    ensures Longest(tail, names, l, FindL(tail, Wdc(Rows(names), v0), l), {v0, 0})
    decreases |l|
  {
    var w := Wdc(Rows(names), v0);
    if tail && |l| == 1 {
      forall p ensures !MatchesAs(tail, p, l) { MatchRest(tail, p, l); }
    } else {
      var g := LookupRows(tail, names, l[0]);
      hide Rows, Lookup, GroupEntry, Proper;
      if g != [] {
        SubsProper(tail, g, l[0]);
        if |l| > 1 { FindLRight(tail, Subs(g), WholeValue(g), l[1..]); }
        hide FindL;
        GroupRight(tail, g, w, l);
      }
      hide FindL, Subs;
      LongestWeaker(tail, g, l, FindL(tail, w, l), v0);
      LongestOfGroup(tail, names, g, l, FindL(tail, w, l), {v0, 0});
    }
  }

  lemma LongestWeaker(tail: bool, g: seq<Pat>, l: seq<string>, v: nat, v0: nat)
    requires Longest(tail, g, l, v, {0}) || (g == [] && v == v0)
    ensures Longest(tail, g, l, v, {v0, 0})
  {
    hide MatchesAs, IsLongest;
  }

  // ---------- the results ----------

  /** The value of the longest pattern ".s" or "*.s" that matches the name, or NULL. */
  lemma FindHeadLongest(names: seq<Pat>, name: string)
    requires Proper(false, names)
    ensures Longest(false, names, LabelsBack(name), FindHead(Wdc(Rows(names), 0), name), {0})
  {
    FindHeadL(Wdc(Rows(names), 0), name);
    FindLRight(false, names, 0, LabelsBack(name));
    assert {0, 0} == {0};
  }

  /** The value of the longest pattern "p.*" that matches the name, or NULL. */
  lemma FindTailLongest(names: seq<Pat>, name: string)
    requires Proper(true, names)
    ensures Longest(true, names, LabelsForth(name), FindTail(Wdc(Rows(names), 0), name), {0})
  {
    FindTailL(Wdc(Rows(names), 0), name);
    FindLRight(true, names, 0, LabelsForth(name));
    assert {0, 0} == {0};
  }

  // ---------- the loops ----------

  /** Lines 489-494 and 158-164. */
  method ScanLabel(s: string) returns (len: nat, dot: bool)
    ensures len == Dot(s) && dot == Dotted(s)
  {
    len := 0;
    while len < |s| && s[len] != '.'
      invariant len <= Dot(s)
    {
      len := len + 1;
    }
    dot := len < |s|;
  }

  /** `ngx_strncmp(a, b, n) == 0` for names that end with a null. */
  predicate SameStart(a: string, b: string, n: nat) {
    n <= |a| && n <= |b| && a[..n] == b[..n]
  }

  lemma RowsStep(names: seq<Pat>)
    requires names != []
    ensures var k := GroupEnd(names, 1);
      Rows(names) == [Row(Head(names[0].text), GroupEntry(names[..k]))] + Rows(names[k..]) && Chars(names[k..]) < Chars(names)
  {
    Shorter(names, GroupEnd(names, 1));
  }

  /** Lines 455-597. */
  method WildcardInit(names: seq<Pat>, ghost tail: bool) returns (w: Wdc)
    requires Proper(tail, names)
    ensures w == Wdc(Rows(names), 0)
    decreases Chars(names), 1
  {
    hide Proper, Rows, GroupEntry, Head;
    var curr: seq<Row> := [];
    var rest := names;
    while rest != []
      invariant Proper(tail, rest) && Chars(rest) <= Chars(names) && Rows(names) == curr + Rows(rest)
      decreases |rest|
    {
      var row, i := WildcardGroup(rest, tail);
      RowsStep(rest);
      ProperPart(tail, rest, i, |rest|);
      assert rest[i..|rest|] == rest[i..];
      Snoc(curr, row, Rows(rest[i..]));
      curr := curr + [row];
      rest := rest[i..];
    }
    NoRows();
    assert curr + [] == curr;
    w := Wdc(curr, 0);
  }

  lemma NoRows()
    ensures Rows([]) == []
  {
  }

  lemma Snoc(a: seq<Row>, x: Row, b: seq<Row>)
    ensures a + ([x] + b) == (a + [x]) + b
  {
  }

  /** Lines 487-586: the names at the front that share a label; `i` is the first that does not. */
  method WildcardGroup(names: seq<Pat>, ghost tail: bool) returns (row: Row, i: nat)
    requires Proper(tail, names) && names != []
    ensures i == GroupEnd(names, 1) && row == Row(Head(names[0].text), GroupEntry(names[..i]))
    decreases Chars(names), 0
  {
    hide Proper, Subs, Rows, GroupEntry, Dot, Tail, GroupEnd, Chars;
    var len, dot := ScanLabel(names[0].text);
    var name := names[0].text[..len];
    var next;
    next, i := CollectNext(names, len, dot);
    if dot {
      len := len + 1;
    }
    var value := names[0].value;
    SubsOfGroup(tail, names);
    TailLength(names[0].text);
    if next != [] {
      LinkEntry(names[..i]);
      var sub := WildcardInit(next, tail);
      var wdc := Wdc(sub.rows, if |names[0].text| == len then value else 0);
      row := Row(name, Link(wdc, if dot then 3 else 2));
    } else {
      DataEntry(names[..i]);
      row := Row(name, Data(if dot then value + 1 else value));
    }
  }

  lemma TailLength(s: string)
    ensures Tail(s) == "" <==> |s| == Dot(s) + if Dotted(s) then 1 else 0
  {
  }

  lemma SubsOfGroup(tail: bool, names: seq<Pat>)
    requires Proper(tail, names) && names != []
    ensures var g := names[..GroupEnd(names, 1)]; g != [] && g[0] == names[0] && Proper(tail, Subs(g)) && Chars(Subs(g)) < Chars(names)
  {
    var k := GroupEnd(names, 1);
    SplitGroup(tail, names, Head(names[0].text));
    SubsProper(tail, names[..k], Head(names[0].text));
    SubsShorter(names[..k]);
  }

  /** Lines 511-562. */
  method CollectNext(names: seq<Pat>, labelLen: nat, dot: bool) returns (next: seq<Pat>, i: nat)
    requires names != [] && labelLen == Dot(names[0].text) && dot == Dotted(names[0].text)
    ensures i == GroupEnd(names, 1) && next == Subs(names[..i])
  {
    var len, dotLen := labelLen, labelLen + 1;
    if dot {
      len := len + 1;
    }
    next := [];
    if |names[0].text| != len {
      next := [Pat(names[0].text[len..], names[0].value)];
    }
    i := 1;
    SubsOne(names);
    TailLength(names[0].text);
    while i < |names|
      && SameStart(names[0].text, names[i].text, len)
      && (dot || |names[i].text| <= len || names[i].text[len] == '.')
      invariant 1 <= i <= |names| && GroupEnd(names, 1) == GroupEnd(names, i) && next == Subs(names[..i])
    {
      SubsMore(names, i);
      next := next + [Pat(From(names[i].text, dotLen), names[i].value)];
      i := i + 1;
    }
  }

  lemma SubsOne(names: seq<Pat>)
    requires names != []
    ensures var s := names[0].text; Subs(names[..1]) == if Tail(s) != "" then [Pat(s[Dot(s) + 1..], names[0].value)] else []
  {
  }

  lemma SubsMore(names: seq<Pat>, i: nat)
    requires 1 <= i < |names|
    ensures Subs(names[..i + 1]) == Subs(names[..i]) + [Rest(names[i], Dot(names[0].text) + 1)]
  {
    hide Dot, Tail, Rest;
  }

  // ---------- ngx_hash_add_key: turning a name around ----------

  /** The labels with dots between them. */
  ghost function Joined(l: seq<string>): string
    requires l != []
  {
    if |l| == 1 then l[0] else WithDot(l[0], Joined(l[1..]))
  }

  ghost function WithDot(x: string, r: string): string {
    x + ['.'] + r
  }

  ghost function Cat(a: string, b: string): string {
    a + b
  }

  /** Taking the last label off. */
  lemma JoinedBack(s: string, n: nat)
    requires n <= |s| && (n > 0 ==> s[n - 1] == '.') && forall j :: n <= j < |s| ==> s[j] != '.'
    ensures Joined(LabelsBack(s)) == if n == 0 then s else WithDot(s[n..], Joined(LabelsBack(s[..n - 1])))
  {
    StartIs(s, n);
    hide LabelStart, WithDot;
    if n > 0 {
      assert LabelsBack(s) == [s[n..]] + LabelsBack(s[..n - 1]);
      assert LabelsBack(s)[1..] == LabelsBack(s[..n - 1]);
    }
  }

  lemma {:induction false} StartIs(s: string, n: nat)
    requires n <= |s| && (n > 0 ==> s[n - 1] == '.') && forall j :: n <= j < |s| ==> s[j] != '.'
    ensures LabelStart(s) == n
    decreases |s|
  {
    if n < |s| { StartIs(s[..|s| - 1], n); }
  }

  lemma TurnStep(data: string, p: string, i: nat, len: nat)
    requires 1 <= i && i + 1 + len <= |data| && data[i] == '.' && forall j :: i + 1 <= j < i + 1 + len ==> data[j] != '.'
    ensures Cat(p, Joined(LabelsBack(data[1..i + 1 + len]))) == Cat(p + data[i + 1..i + 1 + len] + ['.'], Joined(LabelsBack(data[1..i])))
  {
    var s := data[1..i + 1 + len];
    JoinedBack(s, i);
    assert s[i..] == data[i + 1..i + 1 + len] && s[..i - 1] == data[1..i];
    Regroup(p, data[i + 1..i + 1 + len], Joined(LabelsBack(data[1..i])));
    hide Joined, LabelsBack, Cat, WithDot;
  }

  lemma Regroup(p: string, x: string, r: string)
    ensures Cat(p, WithDot(x, r)) == Cat(p + x + ['.'], r)
  {
  }

  /** What is still to be turned around: the characters up to the last label read. */
  ghost predicate Turning(data: string, p: string, i: nat, len: nat) {
    && i + 1 + len <= |data| && 1 <= |data| && (forall j :: i + 1 <= j < i + 1 + len ==> data[j] != '.')
    && Joined(LabelsBack(data[1..])) == Cat(p, Joined(LabelsBack(data[1..i + 1 + len])))
  }

  /** Lines 885-893. */
  method TurnOne(data: string, p: string, i: nat, len: nat) returns (q: string, l: nat)
    requires 1 <= i && Turning(data, p, i, len)
    ensures Turning(data, q, i - 1, l)
  {
    if data[i] == '.' {
      TurnStep(data, p, i, len);
      hide Joined, LabelsBack, Cat;
      q := p + data[i + 1..i + 1 + len] + ['.'];
      l := 0;
    } else {
      hide Joined, LabelsBack, Cat;
      q, l := p, len + 1;
    }
  }

  lemma TurnStart(data: string)
    requires |data| >= 2
    ensures Turning(data, "", |data| - 1, 0)
  {
    assert data[1..|data|] == data[1..];
    CatEmpty(Joined(LabelsBack(data[1..])));
    hide Joined, LabelsBack, Cat;
  }

  lemma TurnEnd(data: string, p: string, len: nat)
    requires Turning(data, p, 0, len)
    ensures Joined(LabelsBack(data[1..])) == if len == 0 then p else p + data[1..1 + len]
  {
    JoinedBack(data[1..1 + len], 0);
    CatIs(p, data[1..1 + len]);
    hide Joined, LabelsBack, Cat;
  }

  /** Lines 881-899: everything after the first character with its labels turned around. */
  method TurnAround(data: string) returns (p: string)
    requires |data| >= 2
    ensures p == Joined(LabelsBack(data[1..]))
  {
    hide Joined, LabelsBack;
    p := "";
    var i, len := |data| - 1, 0;
    TurnStart(data);
    while i != 0
      invariant i >= 0 && Turning(data, p, i, len)
      decreases i
    {
      p, len := TurnOne(data, p, i, len);
      i := i - 1;
    }
    TurnEnd(data, p, len);
    if len != 0 {
      p := p + data[1..1 + len];
    }
  }

  lemma CatEmpty(a: string)
    ensures Cat("", a) == a
  {
  }

  lemma CatIs(a: string, b: string)
    ensures Cat(a, b) == if b == "" then a else a + b
  {
  }

  /** A label with characters and no dot. */
  ghost predicate IsLabel(x: string) {
    x != "" && forall i :: 0 <= i < |x| ==> x[i] != '.'
  }

  ghost predicate AllLabels(l: seq<string>) {
    forall i :: 0 <= i < |l| ==> IsLabel(l[i])
  }

  ghost function Marked(l: seq<string>, mark: bool): (m: seq<string>)
    requires l != []
    ensures m != []
  {
    if mark then l + [""] else l
  }

  lemma MarkedTail(l: seq<string>, mark: bool)
    requires |l| > 1
    ensures Joined(Marked(l, mark)) == WithDot(l[0], Joined(Marked(l[1..], mark)))
  {
    var m := Marked(l, mark);
    assert m[0] == l[0] && m[1..] == Marked(l[1..], mark);
    hide WithDot;
  }

  lemma MarkedOne(x: string)
    ensures Joined(Marked([x], true)) == WithDot(x, "") && Joined(Marked([x], false)) == x
  {
    assert Marked([x], true)[1..] == [""];
    hide WithDot;
  }

  /** Cutting the joined labels gives them back; an empty one at the end is the mark. */
  lemma {:induction false} LabelsOfJoined(l: seq<string>, mark: bool)
    requires l != [] && AllLabels(l)
    ensures var s := Joined(Marked(l, mark)); Labels(s) == l && (Below(s) <==> mark) && s != ""
    decreases |l|
  {
    assert IsLabel(l[0]);
    if |l| == 1 {
      assert l == [l[0]];
      MarkedOne(l[0]);
      OneLabel(l[0], mark);
    } else {
      LabelsOfJoined(l[1..], mark);
      MarkedTail(l, mark);
      assert [l[0]] + l[1..] == l;
      hide Joined, Marked, Labels, Below, IsLabel, WithDot;
      MoreLabels(l[0], Joined(Marked(l[1..], mark)));
    }
  }

  lemma OneLabel(x: string, mark: bool)
    requires IsLabel(x)
    ensures var s := if mark then WithDot(x, "") else x; Labels(s) == [x] && (Below(s) <==> mark) && s != ""
  {
    if mark { WithDotFacts(x, ""); } else { HeadIs(x, |x|); assert x[..|x|] == x; }
    var s := if mark then WithDot(x, "") else x;
    LabelsOf(s);
    TailBelow(s);
    hide WithDot, Labels, Below;
  }

  lemma MoreLabels(x: string, r: string)
    requires IsLabel(x) && r != ""
    ensures Labels(WithDot(x, r)) == [x] + Labels(r) && (Below(WithDot(x, r)) <==> Below(r)) && WithDot(x, r) != ""
  {
    WithDotFacts(x, r);
    LabelsOf(WithDot(x, r));
    TailBelow(WithDot(x, r));
    hide WithDot, Labels, Below;
  }

  lemma WithDotFacts(x: string, r: string)
    requires IsLabel(x)
    ensures var s := WithDot(x, r); Head(s) == x && Tail(s) == r && Dotted(s) && s != ""
  {
    var s := WithDot(x, r);
    HeadIs(s, |x|);
    assert s[|x| + 1..] == r && s[..|x|] == x;
  }

  lemma HeadIs(s: string, d: nat)
    requires d <= |s| && (d < |s| ==> s[d] == '.') && forall i :: 0 <= i < d ==> s[i] != '.'
    ensures Dot(s) == d && Head(s) == s[..d] && Tail(s) == if d < |s| then s[d + 1..] else ""
  {
  }

  /** Lines 869-905: ".example.com" and "*.example.com" become patterns with the labels of
      "example.com" from the last to the first, for that name and only below it. */
  lemma TurnedAround(data: string, suffix: string)
    requires AllLabels(LabelsBack(suffix)) && (data == ['.'] + suffix || data == ['*', '.'] + suffix)
    ensures |data| >= 2
    ensures var p := Joined(LabelsBack(data[1..])); Labels(p) == LabelsBack(suffix) && (Below(p) <==> data == ['*', '.'] + suffix)
  {
    var l := LabelsBack(suffix);
    assert suffix != "" by { assert IsLabel(l[0]); }
    if data == ['*', '.'] + suffix {
      DotFirst(suffix, data[1..]);
      LabelsOfJoined(l, true);
    } else {
      assert data[1..] == suffix && data[0] == '.';
      LabelsOfJoined(l, false);
    }
  }

  lemma {:induction false} DotFirst(s: string, t: string)
    requires t == ['.'] + s
    ensures LabelsBack(t) == LabelsBack(s) + [""]
    decreases |s|
  {
    var n := LabelStart(s);
    StartIs(t, n + 1);
    assert t[n + 1..] == s[n..];
    hide LabelStart;
    if n == 0 {
      assert t[..0] == "";
      StartIs("", 0);
      assert LabelsBack(t) == [s] + LabelsBack("") && LabelsBack("") == [""];
    } else {
      assert t[..n] == ['.'] + s[..n - 1];
      DotFirst(s[..n - 1], t[..n]);
      ConsSnoc(s[n..], LabelsBack(s[..n - 1]), "");
      assert LabelsBack(s) == [s[n..]] + LabelsBack(s[..n - 1]);
      assert LabelsBack(t) == [s[n..]] + LabelsBack(t[..n]);
    }
  }

  lemma ConsSnoc(a: string, b: seq<string>, c: string)
    ensures [a] + (b + [c]) == ([a] + b) + [c]
  {
  }
}
