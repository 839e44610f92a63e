/** The 32-bit radix tree of `ngx_radix_tree.c`. Nodes live in one store and a pointer is an index
    into it or `NIL`. A node is known by its path, the bits that lead to it from the root. */
module Radix {
  import opened Bits

  const NIL: int := -1
  const NO_VALUE: int := -1
  const KEY_BITS: nat := 32

  type key = k: nat | k < 0x1_0000_0000
  type Path = seq<bool>

  datatype Node = Node(left: int, right: int, parent: int, value: int)

  /** `key & bit` for `bit` being `0x80000000 >> i`; past the last bit it is 0. */
  predicate KeyBit(k: key, i: nat) {
    i < KEY_BITS && Bit(k, KEY_BITS - 1 - i)
  }

  /** The mask is the one of a prefix of `n` bits. */
  ghost predicate MaskOf(mask: key, n: nat) {
    n <= KEY_BITS && forall i: nat :: i < KEY_BITS ==> (KeyBit(mask, i) <==> i < n)
  }

  function Down(p: Path, b: bool): (q: Path)
    ensures |q| == |p| + 1
  {
    p + [b]
  }

  function Up(p: Path): (q: Path)
    requires p != []
    ensures |q| == |p| - 1
  {
    p[..|p| - 1]
  }

  lemma UpDown(p: Path, b: bool)
    ensures Up(Down(p, b)) == p
    ensures p != [] ==> Down(Up(p), p[|p| - 1]) == p
  {
  }

  lemma DownOnly(p: Path, b: bool, q: Path, c: bool)
    requires Down(p, b) == Down(q, c)
    ensures p == q && b == c
  {
    UpDown(p, b);
    UpDown(q, c);
    assert Down(p, b)[|p|] == b && Down(q, c)[|q|] == c;
  }

  /** The first `n` bits of a key. */
  function Prefix(k: key, n: nat): (p: Path)
    ensures |p| == n
  {
    if n == 0 then [] else Down(Prefix(k, n - 1), KeyBit(k, n - 1))
  }

  function Child(d: Node, b: bool): int {
    if b then d.right else d.left
  }

  function WithChild(d: Node, b: bool, c: int): Node {
    if b then d.(right := c) else d.(left := c)
  }

  // ---------- the invariant ----------

  /** `tree` names the node of each path, `idle` lists the free nodes. */
  datatype State = State(nodes: seq<Node>, free: int, tree: map<Path, nat>, idle: seq<nat>)

  /** The child pointer of a node is the node of the longer path. */
  ghost predicate ChildOk(s: State, p: Path, b: bool)
    requires p in s.tree && s.tree[p] < |s.nodes|
  {
    Child(s.nodes[s.tree[p]], b) == if Down(p, b) in s.tree then s.tree[Down(p, b)] else NIL
  }

  ghost predicate ParentOk(s: State, p: Path)
    requires p in s.tree && s.tree[p] < |s.nodes|
  {
    if p == [] then s.nodes[s.tree[p]].parent == NIL
    else Up(p) in s.tree && s.nodes[s.tree[p]].parent == s.tree[Up(p)]
  }

  ghost predicate NodeOk(s: State, p: Path) {
    p in s.tree ==>
      && |p| <= KEY_BITS && s.tree[p] < |s.nodes| && s.nodes[s.tree[p]].value >= NO_VALUE
      && ParentOk(s, p) && ChildOk(s, p, false) && ChildOk(s, p, true)
  }

  ghost predicate Unique(s: State) {
    forall p, q :: p in s.tree && q in s.tree && s.tree[p] == s.tree[q] ==> p == q
  }

  ghost predicate Linked(nodes: seq<Node>, free: int, idle: seq<nat>) {
    && (free == if idle == [] then NIL else idle[0])
    && forall i: nat :: LinkAt(nodes, idle, i)
  }

  ghost predicate LinkAt(nodes: seq<Node>, idle: seq<nat>, i: nat) {
    i < |idle| ==> idle[i] < |nodes| && nodes[idle[i]].right == if i + 1 < |idle| then idle[i + 1] else NIL
  }

  lemma LinkedFrame(nodes: seq<Node>, nodes': seq<Node>, free: int, idle: seq<nat>)
    requires Linked(nodes, free, idle) && |nodes'| >= |nodes|
    requires forall x :: x in idle && x < |nodes| ==> nodes'[x].right == nodes[x].right
    ensures Linked(nodes', free, idle)
  {
    forall i: nat ensures LinkAt(nodes', idle, i) {
      assert LinkAt(nodes, idle, i);
    }
  }

  lemma PopLinked(nodes: seq<Node>, free: int, idle: seq<nat>)
    requires Linked(nodes, free, idle) && idle != []
    ensures idle[0] < |nodes| && free == idle[0] && Linked(nodes, nodes[idle[0]].right, idle[1..])
  {
    assert LinkAt(nodes, idle, 0);
    forall i: nat ensures LinkAt(nodes, idle[1..], i) {
      assert LinkAt(nodes, idle, i + 1);
    }
  }

  lemma PushLinked(nodes: seq<Node>, free: int, idle: seq<nat>, x: nat)
    requires Linked(nodes, free, idle) && x < |nodes| && nodes[x].right == free
    ensures Linked(nodes, x, [x] + idle)
  {
    forall i: nat ensures LinkAt(nodes, [x] + idle, i) {
      if i > 0 { assert LinkAt(nodes, idle, i - 1); }
    }
  }

  /** Every node is in the tree or free, and never both; `loose` may be neither. */
  ghost predicate Parted(s: State, loose: int) {
    && (forall i, j :: 0 <= i < j < |s.idle| ==> s.idle[i] != s.idle[j])
    && (forall p :: p in s.tree ==> s.tree[p] !in s.idle)
    && (forall x: nat :: x < |s.nodes| && x != loose ==> x in s.idle || InTree(s, x))
  }

  ghost predicate InTree(s: State, x: nat) {
    exists p :: p in s.tree && s.tree[p] == x
  }

  ghost predicate NodesOk(s: State) {
    [] in s.tree && s.tree[[]] == 0 && Unique(s) && forall p :: NodeOk(s, p)
  }

  ghost predicate Shape(s: State) {
    NodesOk(s) && Linked(s.nodes, s.free, s.idle) && Parted(s, NIL)
  }

  ghost predicate Leaf(s: State, p: Path) {
    Down(p, false) !in s.tree && Down(p, true) !in s.tree
  }

  ghost function Value(s: State, p: Path): int {
    if p in s.tree && s.tree[p] < |s.nodes| then s.nodes[s.tree[p]].value else NO_VALUE
  }

  /** Leaves other than the root, and other than `p`, carry values. */
  ghost predicate LeavesBut(s: State, p: Path) {
    forall q :: LeafOk(s, q, p)
  }

  ghost predicate LeafOk(s: State, q: Path, p: Path) {
    q in s.tree && q != [] && q != p && Leaf(s, q) ==> Value(s, q) != NO_VALUE
  }

  ghost predicate Inv(s: State) {
    Shape(s) && LeavesBut(s, [])
  }

  // ---------- steps ----------

  ghost function SetValue(s: State, p: Path, v: int): State
    requires p in s.tree && s.tree[p] < |s.nodes|
  {
    s.(nodes := s.nodes[s.tree[p] := s.nodes[s.tree[p]].(value := v)])
  }

  lemma SetValueOk(s: State, p: Path, v: int)
    requires Shape(s) && p in s.tree && v >= NO_VALUE
    ensures s.tree[p] < |s.nodes| && Shape(SetValue(s, p, v))
    ensures forall q :: Value(SetValue(s, p, v), q) == if q == p then v else Value(s, q)
  {
    assert NodeOk(s, p);
    var s' := SetValue(s, p, v);
    LinkedFrame(s.nodes, s'.nodes, s.free, s.idle);
    hide Up, Down;
    forall q ensures NodeOk(s', q) {
      assert NodeOk(s, q);
    }
    forall q ensures Value(s', q) == if q == p then v else Value(s, q) {
      if q in s.tree { assert NodeOk(s, q); }
    }
    assert forall x: nat :: InTree(s, x) ==> InTree(s', x);
  }

  /** The node that `ngx_radix_alloc` hands out. */
  ghost function FreshNode(s: State): nat {
    if s.idle == [] then |s.nodes| else s.idle[0]
  }

  /** Lines 463-488: a node that is neither in the tree nor free any more. */
  ghost function Alloc(s: State, d: Node): State
    requires s.idle != [] ==> s.idle[0] < |s.nodes|
  {
    if s.idle == [] then s.(nodes := s.nodes + [d])
    else s.(nodes := s.nodes[s.idle[0] := d], free := s.nodes[s.idle[0]].right, idle := s.idle[1..])
  }

  /** A node outside the tree. */
  ghost predicate Loose(s: State, x: nat) {
    NodesOk(s) && Linked(s.nodes, s.free, s.idle) && Parted(s, x) && x < |s.nodes| && x !in s.idle && !InTree(s, x)
  }

  lemma SameNodes(s: State, s': State)
    requires NodesOk(s) && s'.tree == s.tree && |s'.nodes| >= |s.nodes|
    requires forall p :: p in s.tree && s.tree[p] < |s.nodes| ==> s'.nodes[s.tree[p]] == s.nodes[s.tree[p]]
    ensures NodesOk(s')
  {
    hide Up, Down;
    forall p ensures NodeOk(s', p) {
      assert NodeOk(s, p);
    }
  }

  lemma AllocOk(s: State, d: Node)
    requires Shape(s)
    ensures (s.idle != [] ==> s.idle[0] < |s.nodes|) && Loose(Alloc(s, d), FreshNode(s))
    ensures Alloc(s, d).nodes[FreshNode(s)] == d && Alloc(s, d).tree == s.tree
    ensures forall q :: Value(Alloc(s, d), q) == Value(s, q)
  {
    if s.idle != [] { PopLinked(s.nodes, s.free, s.idle); }
    var s', x := Alloc(s, d), FreshNode(s);
    forall p | p in s.tree ensures s.tree[p] != x && s.tree[p] < |s.nodes| { assert NodeOk(s, p); }
    SameNodes(s, s');
    hide NodesOk, Up, Down;
    LinkedFrame(s.nodes, s'.nodes, s'.free, s'.idle);
    assert forall y: nat :: InTree(s, y) <==> InTree(s', y);
    assert Parted(s', x) by {
      forall y: nat | y < |s'.nodes| && y != x ensures y in s'.idle || InTree(s', y) {
        if y in s.idle {
          var i :| 0 <= i < |s.idle| && s.idle[i] == y;
          assert s'.idle[i - 1] == y;
        }
      }
    }
  }

  /** Lines 151-161: the node `x` becomes the child of the node of `p`. */
  ghost function Link(s: State, p: Path, b: bool, x: nat): State
    requires p in s.tree && s.tree[p] < |s.nodes|
  {
    s.(nodes := s.nodes[s.tree[p] := WithChild(s.nodes[s.tree[p]], b, x)], tree := s.tree[Down(p, b) := x])
  }

  ghost predicate CanLink(s: State, p: Path, b: bool, x: nat) {
    Loose(s, x) && p in s.tree && s.tree[p] < |s.nodes| && Down(p, b) !in s.tree && |p| < KEY_BITS && s.nodes[x] == Node(NIL, NIL, s.tree[p], NO_VALUE)
  }

  lemma LinkNew(s: State, p: Path, b: bool, x: nat)
    requires CanLink(s, p, b, x)
    ensures NodeOk(Link(s, p, b, x), Down(p, b))
  {
    var s', q := Link(s, p, b, x), Down(p, b);
    UpDown(p, b);
    forall c ensures Down(q, c) !in s'.tree {
      if Down(q, c) in s.tree {
        assert NodeOk(s, Down(q, c));
        UpDown(q, c);
      }
    }
    hide Down, Up;
  }

  lemma LinkParent(s: State, p: Path, b: bool, x: nat)
    requires CanLink(s, p, b, x)
    ensures NodeOk(Link(s, p, b, x), p)
  {
    assert NodeOk(s, p);
    if Down(p, !b) == Down(p, b) { DownOnly(p, !b, p, b); }
    hide Down, Up;
  }

  lemma LinkOther(s: State, p: Path, b: bool, x: nat, q: Path)
    requires CanLink(s, p, b, x) && q in s.tree && q != p
    ensures NodeOk(Link(s, p, b, x), q)
  {
    assert NodeOk(s, q);
    forall c ensures Down(q, c) != Down(p, b) {
      if Down(q, c) == Down(p, b) { DownOnly(q, c, p, b); }
    }
    hide Down;
  }

  lemma LinkOk(s: State, p: Path, b: bool, x: nat)
    requires CanLink(s, p, b, x)
    ensures Shape(Link(s, p, b, x))
    ensures forall q :: Value(Link(s, p, b, x), q) == Value(s, q)
  {
    var s' := Link(s, p, b, x);
    assert InTree(s, s.tree[p]) && s.tree[p] !in s.idle;
    LinkedFrame(s.nodes, s'.nodes, s.free, s.idle);
    forall q ensures NodeOk(s', q) {
      if q == Down(p, b) { LinkNew(s, p, b, x); }
      else if q == p { LinkParent(s, p, b, x); }
      else if q in s.tree { LinkOther(s, p, b, x, q); }
    }
    assert Down(p, b) != [];
    hide Down, Up, NodeOk;
    assert s'.tree[Down(p, b)] == x;
    forall y: nat | InTree(s, y) || y == x ensures InTree(s', y) {
      if y != x {
        var q :| q in s.tree && s.tree[q] == y;
        assert q in s'.tree && s'.tree[q] == y;
      }
    }
  }

  // ---------- removing a leaf ----------

  /** Lines 207-215: the node of the leaf `q` is unlinked and put on the free list. */
  ghost function Cut(s: State, q: Path): State
    requires q in s.tree && q != [] && Up(q) in s.tree && s.tree[Up(q)] < |s.nodes| && s.tree[q] < |s.nodes|
  {
    var x, d := s.tree[q], s.nodes[s.tree[Up(q)]];
    var nodes := s.nodes[s.tree[Up(q)] := WithChild(d, d.right == x, NIL)];
    State(nodes[x := nodes[x].(right := s.free)], x, s.tree - {q}, [x] + s.idle)
  }

  ghost predicate CanCut(s: State, q: Path) {
    Shape(s) && q in s.tree && q != [] && Leaf(s, q)
  }

  lemma CutReady(s: State, q: Path)
    requires CanCut(s, q)
    ensures Up(q) in s.tree && s.tree[q] < |s.nodes| && s.tree[Up(q)] < |s.nodes| && s.tree[q] != s.tree[Up(q)]
    ensures s.tree[q] !in s.idle && s.tree[Up(q)] !in s.idle
    ensures s.nodes[s.tree[q]].parent == s.tree[Up(q)]
    ensures (s.nodes[s.tree[Up(q)]].right == s.tree[q]) <==> q[|q| - 1]
  {
    assert NodeOk(s, q) && NodeOk(s, Up(q));
    UpDown(q, true);
    var b := q[|q| - 1];
    assert ChildOk(s, Up(q), b);
    if !b && Down(Up(q), true) in s.tree && s.tree[Down(Up(q), true)] == s.tree[q] {
      DownOnly(Up(q), true, Up(q), false);
    }
    hide Down, Up;
  }

  lemma CutParent(s: State, q: Path)
    requires CanCut(s, q)
    ensures Up(q) in s.tree && s.tree[q] < |s.nodes| && s.tree[Up(q)] < |s.nodes|
    ensures NodeOk(Cut(s, q), Up(q))
  {
    CutReady(s, q);
    var p, b := Up(q), q[|q| - 1];
    assert NodeOk(s, p) && NodeOk(s, q);
    UpDown(q, true);
    if Down(p, !b) == q { DownOnly(p, !b, p, b); }
    hide Down, Up;
  }

  lemma CutOther(s: State, q: Path, p: Path)
    requires CanCut(s, q) && p in s.tree && p != q && p != Up(q)
    ensures Up(q) in s.tree && s.tree[q] < |s.nodes| && s.tree[Up(q)] < |s.nodes|
    ensures NodeOk(Cut(s, q), p)
  {
    CutReady(s, q);
    assert NodeOk(s, p);
    forall c ensures Down(p, c) != q {
      UpDown(p, c);
    }
    UpDown(p, true);
    assert s.tree[p] != s.tree[q] && s.tree[p] != s.tree[Up(q)];
    hide Down, Up;
  }

  lemma CutOk(s: State, q: Path)
    requires CanCut(s, q)
    ensures Up(q) in s.tree && s.tree[q] < |s.nodes| && s.tree[Up(q)] < |s.nodes|
    ensures Shape(Cut(s, q))
    ensures forall p :: Value(Cut(s, q), p) == if p == q then NO_VALUE else Value(s, p)
  {
    CutReady(s, q);
    var s', x := Cut(s, q), s.tree[q];
    forall p ensures NodeOk(s', p) {
      if p == Up(q) { CutParent(s, q); }
      else if p in s.tree && p != q { CutOther(s, q, p); }
    }
    hide Down, NodeOk, Up;
    LinkedFrame(s.nodes, s'.nodes, s.free, s.idle);
    PushLinked(s'.nodes, s.free, s.idle, x);
    assert Parted(s', NIL) by {
      forall y: nat | y < |s'.nodes| ensures y in s'.idle || InTree(s', y) {
        if y == x {
          assert s'.idle[0] == x;
        } else if y in s.idle {
          var i :| 0 <= i < |s.idle| && s.idle[i] == y;
          assert s'.idle[i + 1] == y;
        } else {
          var p :| p in s.tree && s.tree[p] == y;
          assert p in s'.tree && s'.tree[p] == y;
        }
      }
    }
  }

  // ---------- which leaves carry values ----------

  lemma LinkLeaves(s: State, p: Path, b: bool, x: nat)
    requires CanLink(s, p, b, x) && LeavesBut(s, p)
    ensures LeavesBut(Link(s, p, b, x), Down(p, b))
  {
    var s' := Link(s, p, b, x);
    LinkOk(s, p, b, x);
    hide Down;
    forall q ensures LeafOk(s', q, Down(p, b)) {
      assert LeafOk(s, q, p);
    }
  }

  lemma SetLeaves(s: State, p: Path, v: int)
    requires Shape(s) && p in s.tree && LeavesBut(s, p) && v >= NO_VALUE && (v != NO_VALUE || !Leaf(s, p))
    ensures s.tree[p] < |s.nodes| && LeavesBut(SetValue(s, p, v), [])
  {
    SetValueOk(s, p, v);
    hide Down;
    forall q ensures LeafOk(SetValue(s, p, v), q, []) {
      assert LeafOk(s, q, p);
    }
  }

  lemma CutLeaves(s: State, q: Path)
    requires CanCut(s, q) && LeavesBut(s, q)
    ensures Up(q) in s.tree && s.tree[q] < |s.nodes| && s.tree[Up(q)] < |s.nodes| && LeavesBut(Cut(s, q), Up(q))
  {
    CutOk(s, q);
    var s' := Cut(s, q);
    forall p ensures LeafOk(s', p, Up(q)) {
      assert LeafOk(s, p, q);
      UpDown(p, false);
      UpDown(p, true);
    }
  }

  lemma Settled(s: State, p: Path, p': Path)
    requires LeavesBut(s, p) && (p == [] || !Leaf(s, p) || Value(s, p) != NO_VALUE)
    ensures LeavesBut(s, p')
  {
    forall q ensures LeafOk(s, q, p') {
      assert LeafOk(s, q, p);
    }
  }

  // ---------- reading ----------

  lemma NodeAt(s: State, p: Path)
    requires Shape(s) && p in s.tree
    ensures |p| <= KEY_BITS && s.tree[p] < |s.nodes| && ChildOk(s, p, false) && ChildOk(s, p, true) && ParentOk(s, p)
    ensures s.nodes[s.tree[p]].value >= NO_VALUE
  {
    assert NodeOk(s, p);
  }

  /** A path in the tree has all its prefixes there. */
  lemma {:induction false} PrefixIn(s: State, k: key, m: nat, n: nat)
    requires Shape(s) && Prefix(k, n) in s.tree && m <= n
    ensures Prefix(k, m) in s.tree
    decreases n
  {
    if m < n {
      NodeAt(s, Prefix(k, n));
      UpDown(Prefix(k, n - 1), KeyBit(k, n - 1));
      PrefixIn(s, k, m, n - 1);
    }
  }

  /** `node->parent` is null only for the root, so line 207 fails exactly when the prefix of no
      bits is deleted from a root without children. */
  lemma OnlyRootHasNoParent(s: State, k: key, n: nat)
    requires Shape(s) && Prefix(k, n) in s.tree && Leaf(s, Prefix(k, n))
    ensures s.tree[Prefix(k, n)] < |s.nodes|
    ensures s.nodes[s.tree[Prefix(k, n)]].parent == NIL <==> n == 0
  {
    NodeAt(s, Prefix(k, n));
  }

  datatype Rc = Ok | Busy | Error

  class RadixTree {
    var nodes: seq<Node>
    var free: int
    ghost var tree: map<Path, nat>
    ghost var idle: seq<nat>

    ghost function St(): State
      reads this
    {
      State(nodes, free, tree, idle)
    }

    ghost predicate Valid()
      reads this
    {
      Inv(St())
    }

    /** The value stored for a prefix, or `NO_VALUE`. */
    ghost function Val(p: Path): int
      reads this
    {
      Value(St(), p)
    }

    /** Lines 15-43: the root alone. */
    constructor ()
      ensures Valid() && forall p :: Val(p) == NO_VALUE
    {
      nodes, free := [Node(NIL, NIL, NIL, NO_VALUE)], NIL;
      tree, idle := map[[] := 0], [];
      new;
      forall p ensures NodeOk(St(), p) && LeafOk(St(), p, []) {
      }
      assert InTree(St(), 0) by { assert [] in tree; }
    }

    /** The value of the longest stored prefix of the key. */
    method Find(k: key) returns (value: int, ghost m: nat)
      requires Valid()
      ensures m <= KEY_BITS && value == Val(Prefix(k, m))
      ensures forall j: nat :: m < j <= KEY_BITS ==> Val(Prefix(k, j)) == NO_VALUE
      ensures value == NO_VALUE ==> forall j: nat :: j <= KEY_BITS ==> Val(Prefix(k, j)) == NO_VALUE
    {
      hide Shape, LeavesBut, KeyBit, Prefix;
      var node, i := 0, 0;
      value, m := NO_VALUE, 0;
      RootAt(St(), k);
      ghost var s := St();
      while node != NIL
        invariant i <= KEY_BITS + 1 && m <= i && m <= KEY_BITS && Shape(s)
        invariant node != NIL ==> Prefix(k, i) in s.tree && node == s.tree[Prefix(k, i)]
        invariant node == NIL ==> Prefix(k, i) !in s.tree
        invariant value == NO_VALUE ==> forall j: nat :: j < i ==> Value(s, Prefix(k, j)) == NO_VALUE
        invariant value != NO_VALUE ==> m < i && value == Value(s, Prefix(k, m)) && forall j: nat :: m < j < i ==> Value(s, Prefix(k, j)) == NO_VALUE
        decreases KEY_BITS + 1 - i, node != NIL
      {
        ghost var p := Prefix(k, i);
        NodeAt(s, p);
        if nodes[node].value != NO_VALUE {
          value, m := nodes[node].value, i;
        }
        StepDown(s, k, i);
        node := if KeyBit(k, i) then nodes[node].right else nodes[node].left;
        i := i + 1;
      }
      forall j: nat | i <= j <= KEY_BITS ensures Value(s, Prefix(k, j)) == NO_VALUE {
        if Prefix(k, j) in s.tree { PrefixIn(s, k, i, j); }
      }
      if value == NO_VALUE { m := 0; }
    }

    /** Lines 115-134 and 179-191: the node where the walk down the prefix of `n` bits ends. */
    method Walk(k: key, mask: key, ghost n: nat) returns (node: nat, next: int, i: nat)
      requires Valid() && MaskOf(mask, n)
      ensures i <= n && Prefix(k, i) in tree && node == tree[Prefix(k, i)] && node < |nodes|
      ensures next != NIL ==> i == n
      ensures next == NIL ==> i < n && Prefix(k, i + 1) !in tree && Prefix(k, n) !in tree
    {
      hide Shape, LeavesBut, Prefix;
      ghost var s := St();
      RootAt(s, k);
      node, next, i := 0, 0, 0;
      NodeAt(s, Prefix(k, 0));
      while KeyBit(mask, i)
        invariant i <= n && Prefix(k, i) in tree && node == tree[Prefix(k, i)] && node < |nodes| && next != NIL
        decreases n - i
      {
        StepDown(s, k, i);
        next := if KeyBit(k, i) then nodes[node].right else nodes[node].left;
        if next == NIL {
          if Prefix(k, n) in tree { PrefixIn(s, k, i + 1, n); }
          return;
        }
        i := i + 1;
        node := next;
        NodeAt(s, Prefix(k, i));
      }
    }

    /** Lines 146-161: a new child of the node of `p`. */
    method AddChild(node: nat, b: bool, ghost p: Path) returns (x: nat)
      requires Shape(St()) && p in tree && node == tree[p] && |p| < KEY_BITS && Down(p, b) !in tree && LeavesBut(St(), p)
      modifies this
      ensures Shape(St()) && LeavesBut(St(), Down(p, b)) && tree == old(tree)[Down(p, b) := x] && x < |nodes|
      ensures forall q :: Val(q) == old(Val(q))
      ensures forall c :: Down(Down(p, b), c) !in tree
    {
      ghost var s := St();
      var d := Node(NIL, NIL, node, NO_VALUE);
      NodeAt(s, p);
      NoneBelow(s, Down(p, b), false);
      NoneBelow(s, Down(p, b), true);
      AllocOk(s, d);
      if free != NIL {
        PopLinked(nodes, free, idle);
        x := free;
        free := nodes[free].right;
        nodes := nodes[x := d];
        idle := idle[1..];
      } else {
        Exhausted(s);
        x := |nodes|;
        nodes := nodes + [d];
      }
      ghost var s1 := St();
      assert s1 == Alloc(s, d);
      hide Shape, Loose, LeavesBut, Alloc;
      LinkReady(s, d, p, b, x);
      LinkOk(s1, p, b, x);
      LinkLeaves(s1, p, b, x);
      nodes := nodes[node := WithChild(nodes[node], b, x)];
      tree := tree[Down(p, b) := x];
    }

    /** Inserting reports `NGX_BUSY` exactly when the prefix is stored; else it is stored now. */
    method Insert(k: key, mask: key, value: int, ghost n: nat) returns (rc: Rc)
      requires Valid() && MaskOf(mask, n) && value > NO_VALUE
      modifies this
      ensures Valid() && (rc == Busy || rc == Ok)
      ensures rc == Busy <==> old(Val(Prefix(k, n))) != NO_VALUE
      ensures rc == Busy ==> St() == old(St())
      ensures rc == Ok ==> forall q :: Val(q) == if q == Prefix(k, n) then value else old(Val(q))
    {
      var node, next, i := Walk(k, mask, n);
      hide Shape, LeavesBut;
      Settled(St(), [], Prefix(k, i));
      if next != NIL {
        if nodes[node].value != NO_VALUE {
          return Busy;
        }
      } else {
        while KeyBit(mask, i)
          invariant i <= n && Shape(St()) && LeavesBut(St(), Prefix(k, i)) && Prefix(k, i) in tree && node == tree[Prefix(k, i)] && node < |nodes|
          invariant i < n ==> Prefix(k, i + 1) !in tree
          invariant forall q :: Val(q) == old(Val(q))
          decreases n - i
        {
          node := AddChild(node, KeyBit(k, i), Prefix(k, i));
          i := i + 1;
        }
      }
      SetValueOk(St(), Prefix(k, n), value);
      SetLeaves(St(), Prefix(k, n), value);
      nodes := nodes[node := nodes[node].(value := value)];
      return Ok;
    }

    /** Deleting succeeds exactly when the prefix is stored, and then only it is gone. A root
        without children has no parent to unlink it from, so for it the prefix has bits. */
    method Delete(k: key, mask: key, ghost n: nat) returns (rc: Rc)
      requires Valid() && MaskOf(mask, n) && (n > 0 || !Leaf(St(), []))
      modifies this
      ensures Valid() && (rc == Ok || rc == Error)
      ensures rc == Ok <==> old(Val(Prefix(k, n))) != NO_VALUE
      ensures rc == Error ==> St() == old(St())
      ensures rc == Ok ==> forall q :: Val(q) == if q == Prefix(k, n) then NO_VALUE else old(Val(q))
    {
      var node, next, i := Walk(k, mask, n);
      ghost var p := Prefix(k, n);
      if next == NIL {
        return Error;
      }
      NodeAt(St(), p);
      if nodes[node].right != NIL || nodes[node].left != NIL {
        if nodes[node].value != NO_VALUE {
          Settled(St(), [], p);
          SetValueOk(St(), p, NO_VALUE);
          SetLeaves(St(), p, NO_VALUE);
          nodes := nodes[node := nodes[node].(value := NO_VALUE)];
          return Ok;
        }
        return Error;
      }
      assert LeafOk(St(), p, []);
      Settled(St(), [], p);
      Prune(node, p);
      return Ok;
    }

    /** Lines 206-230: the leaf and then the parents that are left without a value are freed. */
    method Prune(leaf: nat, ghost p: Path)
      requires Shape(St()) && p in tree && p != [] && Leaf(St(), p) && leaf == tree[p] && LeavesBut(St(), p)
      modifies this
      ensures Valid() && forall q :: Val(q) == if q == p then NO_VALUE else old(Val(q))
    {
      var node := leaf;
      ghost var q := p;
      hide Shape, LeavesBut, Leaf, Down, Up;
      while true
        invariant Shape(St()) && q in tree && q != [] && Leaf(St(), q) && node == tree[q] && LeavesBut(St(), q)
        invariant q != p ==> Val(q) == NO_VALUE
        invariant forall r :: Val(r) == old(Val(r)) || (r == p && q != p && Val(r) == NO_VALUE)
        invariant q != p ==> Val(p) == NO_VALUE
        decreases |q|
      {
        node := Unlink(node, q);
        q := Up(q);
        NodeAt(St(), q);
        LeafAt(St(), q);
        if nodes[node].right != NIL || nodes[node].left != NIL {
          break;
        }
        if nodes[node].value != NO_VALUE {
          break;
        }
        if nodes[node].parent == NIL {
          break;
        }
      }
      Settled(St(), q, []);
    }

    /** Lines 207-217. */
    method Unlink(node: nat, ghost q: Path) returns (parent: nat)
      requires CanCut(St(), q) && node == tree[q] && LeavesBut(St(), q)
      modifies this
      ensures Shape(St()) && Up(q) in tree && parent == tree[Up(q)] && LeavesBut(St(), Up(q))
      ensures forall r :: Val(r) == if r == q then NO_VALUE else old(Val(r))
    {
      CutReady(St(), q);
      CutOk(St(), q);
      CutLeaves(St(), q);
      hide Shape, LeavesBut, CanCut;
      parent := nodes[node].parent;
      nodes := nodes[parent := WithChild(nodes[parent], nodes[parent].right == node, NIL)];
      nodes := nodes[node := nodes[node].(right := free)];
      free := node;
      tree, idle := tree - {q}, [node] + idle;
    }
  }

  lemma RootAt(s: State, k: key)
    requires Inv(s)
    ensures Shape(s) && Prefix(k, 0) in s.tree && s.tree[Prefix(k, 0)] == 0
  {
  }

  lemma StepDown(s: State, k: key, i: nat)
    requires Shape(s) && Prefix(k, i) in s.tree
    ensures s.tree[Prefix(k, i)] < |s.nodes| && i <= KEY_BITS
    ensures var c := Child(s.nodes[s.tree[Prefix(k, i)]], KeyBit(k, i));
      if Prefix(k, i + 1) in s.tree then i < KEY_BITS && c == s.tree[Prefix(k, i + 1)] else c == NIL
  {
    NodeAt(s, Prefix(k, i));
    if Prefix(k, i + 1) in s.tree { NodeAt(s, Prefix(k, i + 1)); }
  }

  lemma Exhausted(s: State)
    requires Shape(s) && s.free == NIL
    ensures s.idle == []
  {
  }

  lemma LinkReady(s: State, d: Node, p: Path, b: bool, x: nat)
    requires Shape(s) && p in s.tree && s.tree[p] < |s.nodes| && d == Node(NIL, NIL, s.tree[p], NO_VALUE)
    requires Down(p, b) !in s.tree && |p| < KEY_BITS && x == FreshNode(s) && LeavesBut(s, p) && (s.idle != [] ==> s.idle[0] < |s.nodes|)
    ensures CanLink(Alloc(s, d), p, b, x) && LeavesBut(Alloc(s, d), p)
  {
    AllocOk(s, d);
    hide Shape, Loose, Down;
    forall q ensures LeafOk(Alloc(s, d), q, p) {
      assert LeafOk(s, q, p);
    }
  }

  /** A leaf is a node without children. */
  lemma LeafAt(s: State, q: Path)
    requires Shape(s) && q in s.tree
    ensures s.tree[q] < |s.nodes|
    ensures var d := s.nodes[s.tree[q]]; (d.right == NIL && d.left == NIL <==> Leaf(s, q)) && (d.parent == NIL <==> q == [])
  {
    NodeAt(s, q);
  }

  lemma NoneBelow(s: State, q: Path, c: bool)
    requires Shape(s) && q !in s.tree
    ensures Down(q, c) !in s.tree
  {
    UpDown(q, c);
    if Down(q, c) in s.tree { NodeAt(s, Down(q, c)); }
  }
}
