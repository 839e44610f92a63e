/** The comparison callbacks that a tree is used with. Each decides only one thing: whether a
    new node goes to the left of a node that is already there. */
module RbOrder {
  import opened RbShape

  const WORD: nat := 0x1_0000_0000_0000_0000
  const HALF: nat := 0x8000_0000_0000_0000

  datatype Order =
    | ByKey       // ngx_rbtree_insert_value
    | ByTimer     // ngx_rbtree_insert_timer_value
    | ByString    // ngx_str_rbtree_insert_value
    | ByFileName  // ngx_open_file_cache_rbtree_insert_value

  /** The 64-bit difference of two keys. */
  function Minus(a: nat, b: nat): (d: nat)
    ensures d < WORD
  {
    (a - b) % WORD
  }

  /** The sign of `memcmp` on equal lengths, and of `strcmp` on any: negative iff true. */
  predicate LexLess(a: seq<nat>, b: seq<nat>) {
    if a == [] || b == [] then a == [] && b != []
    else a[0] < b[0] || (a[0] == b[0] && LexLess(a[1..], b[1..]))
  }

  predicate GoesLeft(o: Order, a: Item, b: Item) {
    match o
    case ByKey => a.key < b.key
    case ByTimer => Minus(a.key, b.key) >= HALF   // negative as a signed 64-bit number
    case ByString =>
      if a.key != b.key then a.key < b.key
      else if |a.name| != |b.name| then |a.name| < |b.name|
      else LexLess(a.name, b.name)
    case ByFileName =>
      if a.key != b.key then a.key < b.key
      else LexLess(a.name, b.name)
  }

  /** The items a tree must hold for its comparison to be an order: any at all, except that
      timers must expire within half the range of the clock, counted from some moment. */
  ghost predicate InWindow(o: Order, base: nat, x: Item) {
    x.key < WORD && (o.ByTimer? ==> Minus(x.key, base) < HALF)
  }

  lemma {:induction false} LexTrans(a: seq<nat>, b: seq<nat>, c: seq<nat>)
    requires !LexLess(a, b) && !LexLess(b, c)
    ensures !LexLess(a, c)
    decreases |a|
  {
    if a != [] && b != [] && c != [] && a[0] == b[0] == c[0] {
      LexTrans(a[1..], b[1..], c[1..]);
    }
  }

  lemma {:induction false} LexTotal(a: seq<nat>, b: seq<nat>)
    requires !LexLess(a, b) && !LexLess(b, a)
    ensures a == b
    decreases |a|
  {
    if a != [] && b != [] {
      LexTotal(a[1..], b[1..]);
      assert a == [a[0]] + a[1..] && b == [b[0]] + b[1..];
    }
  }

  lemma {:induction false} LexIrreflexive(a: seq<nat>)
    ensures !LexLess(a, a)
    decreases |a|
  {
    if a != [] { LexIrreflexive(a[1..]); }
  }

  /** Inside a window the wrapped comparison is the comparison of distances from its start. */
  lemma TimerOrder(base: nat, a: Item, b: Item)
    requires InWindow(ByTimer, base, a) && InWindow(ByTimer, base, b)
    ensures GoesLeft(ByTimer, a, b) <==> Minus(a.key, base) < Minus(b.key, base)
  {
    var da, db := Minus(a.key, base), Minus(b.key, base);
    var ka, kb := (a.key - base) / WORD, (b.key - base) / WORD;
    assert a.key - base == ka * WORD + da && b.key - base == kb * WORD + db;
    ModShift(da - db, ka - kb);
    assert a.key - b.key == (da - db) + (ka - kb) * WORD;
  }

  lemma {:induction false} ModShift(d: int, k: int)
    ensures (d + k * WORD) % WORD == d % WORD
    decreases if k < 0 then -k else k
  {
    if k > 0 { ModShift(d, k - 1); assert d + k * WORD == (d + (k - 1) * WORD) + WORD; }
    else if k < 0 { ModShift(d, k + 1); assert d + k * WORD == (d + (k + 1) * WORD) - WORD; }
  }

  /** "Does not go to the left of" is transitive, so a search path tells where an item belongs. */
  lemma NotLeftTrans(o: Order, base: nat, a: Item, b: Item, c: Item)
    requires InWindow(o, base, a) && InWindow(o, base, b) && InWindow(o, base, c)
    requires !GoesLeft(o, a, b) && !GoesLeft(o, b, c)
    ensures !GoesLeft(o, a, c)
  {
    match o
    case ByKey =>
    case ByTimer => TimerOrder(base, a, b); TimerOrder(base, b, c); TimerOrder(base, a, c);
    case ByString =>
      if a.key == b.key == c.key && |a.name| == |b.name| == |c.name| { LexTrans(a.name, b.name, c.name); }
    case ByFileName =>
      if a.key == b.key == c.key { LexTrans(a.name, b.name, c.name); }
  }

  lemma Irreflexive(o: Order, a: Item)
    ensures !GoesLeft(o, a, a)
  {
    LexIrreflexive(a.name);
  }

  /** No item goes to the left of one that goes to its left. */
  lemma LeftAsymmetric(o: Order, base: nat, a: Item, b: Item)
    requires InWindow(o, base, a) && InWindow(o, base, b)
    requires GoesLeft(o, a, b)
    ensures !GoesLeft(o, b, a)
  {
    match o
    case ByKey =>
    case ByTimer => TimerOrder(base, a, b); TimerOrder(base, b, a);
    case ByString =>
      if GoesLeft(o, b, a) { LexAsymmetric(a.name, b.name); }
    case ByFileName =>
      if GoesLeft(o, b, a) { LexAsymmetric(a.name, b.name); }
  }

  lemma {:induction false} LexAsymmetric(a: seq<nat>, b: seq<nat>)
    requires LexLess(a, b)
    ensures !LexLess(b, a)
    decreases |a|
  {
    if a != [] && b != [] && a[0] == b[0] { LexAsymmetric(a[1..], b[1..]); }
  }

  /** Without the half-range window the timer comparison is no order: three expiry times, each
      a third of the clock range after the one before, go round in a circle. */
  lemma TimerCircle()
    ensures exists a: Item, b: Item, c: Item ::
              && a.key < WORD && b.key < WORD && c.key < WORD
              && GoesLeft(ByTimer, a, b) && GoesLeft(ByTimer, b, c) && GoesLeft(ByTimer, c, a)
  {
    var third := 0x5555_5555_5555_5555;
    var a, b, c := Item(0, []), Item(third, []), Item(2 * third, []);
    assert GoesLeft(ByTimer, a, b) && GoesLeft(ByTimer, b, c) && GoesLeft(ByTimer, c, a);
  }

  predicate Before(a: nat, b: nat) {
    GoesLeft(ByTimer, Item(a, []), Item(b, []))
  }

  /** The timer comparison is an order of these expiry times. */
  ghost predicate IsOrder(keys: set<nat>) {
    && (forall a, b :: a in keys && b in keys && Before(a, b) ==> !Before(b, a))
    && (forall a, b, c :: a in keys && b in keys && c in keys && Before(a, b) && Before(b, c) ==> Before(a, c))
  }

  ghost predicate InHalf(keys: set<nat>, base: nat) {
    forall a :: a in keys ==> Minus(a, base) < HALF
  }

  /** Of two expiry times one comes first; if they are half the range apart both do. */
  lemma OneFirst(a: nat, b: nat)
    requires a < WORD && b < WORD && a != b
    ensures Minus(a, b) + Minus(b, a) == WORD && (Before(a, b) || Before(b, a))
    ensures Before(a, b) && !Before(b, a) ==> Minus(b, a) < HALF
  {
  }

  /** An order has a first expiry time. */
  lemma {:induction false} FirstTimer(keys: set<nat>) returns (m: nat)
    requires keys != {} && IsOrder(keys) && forall a :: a in keys ==> a < WORD
    ensures m in keys && forall a :: a in keys && a != m ==> Before(m, a)
    decreases |keys|
  {
    m :| m in keys;
    var rest := keys - {m};
    if rest != {} {
      var n := FirstTimer(rest);
      OneFirst(m, n);
      if Before(n, m) {
        m := n;
      }
    }
  }

  /** An order lies in the half of the clock that its first expiry time begins. */
  lemma OrderInHalf(keys: set<nat>) returns (m: nat)
    requires keys != {} && IsOrder(keys) && forall a :: a in keys ==> a < WORD
    ensures m < WORD && InHalf(keys, m)
  {
    m := FirstTimer(keys);
    forall a | a in keys ensures Minus(a, m) < HALF {
      if a != m { OneFirst(m, a); }
    }
  }

  lemma HalfIsOrder(keys: set<nat>, base: nat)
    requires InHalf(keys, base) && forall a :: a in keys ==> a < WORD
    ensures IsOrder(keys)
  {
    forall a, b | a in keys && b in keys ensures Before(a, b) <==> Minus(a, base) < Minus(b, base) {
      TimerOrder(base, Item(a, []), Item(b, []));
    }
    hide Before, Minus;
  }

  /** The timer comparison is an order of a set of expiry times when and only when they lie within
      half the range of the clock. */
  lemma TimerOrderIff(keys: set<nat>)
    requires forall a :: a in keys ==> a < WORD
    ensures IsOrder(keys) <==> exists base: nat :: InHalf(keys, base)
  {
    hide IsOrder, Minus;
    if keys == {} {
      assert InHalf(keys, 0);
      HalfIsOrder(keys, 0);
    } else if IsOrder(keys) {
      var m := OrderInHalf(keys);
    }
    if base: nat :| InHalf(keys, base) {
      HalfIsOrder(keys, base);
    }
  }

  // ---------- sorted sequences ----------

  ghost predicate Sorted(o: Order, es: seq<Elem>) {
    forall i, j :: 0 <= i < j < |es| ==> !GoesLeft(o, es[j].x, es[i].x)
  }

  ghost predicate AllInWindow(o: Order, base: nat, es: seq<Elem>) {
    forall i :: 0 <= i < |es| ==> InWindow(o, base, es[i].x)
  }

  /** Position `i` is the place of `x`: behind everything it does not go to the left of, in
      front of everything it goes to the left of. */
  ghost predicate PlaceOf(o: Order, es: seq<Elem>, x: Item, i: nat) {
    && i <= |es|
    && (forall j :: 0 <= j < i ==> !GoesLeft(o, x, es[j].x))
    && (forall j :: i <= j < |es| ==> GoesLeft(o, x, es[j].x))
  }

  lemma InsertKeepsSorted(o: Order, base: nat, es: seq<Elem>, e: Elem, i: nat)
    requires Sorted(o, es) && PlaceOf(o, es, e.x, i)
    requires AllInWindow(o, base, es) && InWindow(o, base, e.x)
    ensures Sorted(o, es[..i] + [e] + es[i..])
  {
    var r := es[..i] + [e] + es[i..];
    forall a, b | 0 <= a < b < |r| ensures !GoesLeft(o, r[b].x, r[a].x) {
      if a == i {
        LeftAsymmetric(o, base, e.x, es[b - 1].x);
      }
    }
  }
}
