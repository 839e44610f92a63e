/** The vocabulary of the red-black tree: the node objects that the code links together,
    the algebraic tree a linked structure stands for, and one-hole contexts of such trees.
    A heap fact is always stated as "these objects spell that tree" (`Rep`) or "these
    objects spell that context" (`RepC`); everything else is about plain values. */
module RbShape {
  import opened Bits

  /** What the insertion callbacks compare: the unsigned 64-bit key of the node, and the
      byte string that the enclosing structure adds to it (empty for plain trees). */
  datatype Item = Item(key: nat, name: seq<nat>)

  /** `ngx_rbtree_node_t`. Links are nullable because deletion clears them. */
  class Node {
    var key: nat
    const name: seq<nat>
    var left: Node?
    var right: Node?
    var parent: Node?
    var red: bool

    constructor (key: nat, name: seq<nat>)
      ensures this.key == key && this.name == name && !red
      ensures left == null && right == null && parent == null
    {
      this.key := key;
      this.name := name;
      left, right, parent := null, null, null;
      red := false;
    }
  }

  function ItemOf(n: Node): Item
    reads n`key
  {
    Item(n.key, n.name)
  }

  datatype Tree = Leaf | Br(l: Tree, n: Node, x: Item, red: bool, r: Tree)

  /** A tree with one subtree missing. `Lf` says the hole is the left child of `n`. */
  datatype Ctx = Top
               | Lf(up: Ctx, n: Node, x: Item, red: bool, sib: Tree)
               | Rt(up: Ctx, sib: Tree, n: Node, x: Item, red: bool)

  ghost function Plug(c: Ctx, t: Tree): Tree {
    match c
    case Top => t
    case Lf(up, n, x, red, sib) => Plug(up, Br(t, n, x, red, sib))
    case Rt(up, sib, n, x, red) => Plug(up, Br(sib, n, x, red, t))
  }

  // ---------- the objects of a tree and of a context ----------

  ghost function Nodes(t: Tree): set<Node> {
    match t
    case Leaf => {}
    case Br(l, n, _, _, r) => {n} + Nodes(l) + Nodes(r)
  }

  ghost function CNodes(c: Ctx): set<Node> {
    match c
    case Top => {}
    case Lf(up, n, _, _, sib) => {n} + Nodes(sib) + CNodes(up)
    case Rt(up, sib, n, _, _) => {n} + Nodes(sib) + CNodes(up)
  }

  ghost predicate Distinct(t: Tree) {
    match t
    case Leaf => true
    case Br(l, n, _, _, r) =>
      && n !in Nodes(l) && n !in Nodes(r) && Nodes(l) !! Nodes(r)
      && Distinct(l) && Distinct(r)
  }

  ghost predicate DistinctC(c: Ctx) {
    match c
    case Top => true
    case Lf(up, n, _, _, sib) =>
      && n !in Nodes(sib) && n !in CNodes(up) && Nodes(sib) !! CNodes(up)
      && Distinct(sib) && DistinctC(up)
    case Rt(up, sib, n, _, _) =>
      && n !in Nodes(sib) && n !in CNodes(up) && Nodes(sib) !! CNodes(up)
      && Distinct(sib) && DistinctC(up)
  }

  lemma {:induction false} PlugNodes(c: Ctx, t: Tree)
    ensures Nodes(Plug(c, t)) == Nodes(t) + CNodes(c)
    ensures Distinct(Plug(c, t)) <==> Distinct(t) && DistinctC(c) && Nodes(t) !! CNodes(c)
    decreases c
  {
    match c
    case Top =>
    case Lf(up, n, x, red, sib) => PlugNodes(up, Br(t, n, x, red, sib));
    case Rt(up, sib, n, x, red) => PlugNodes(up, Br(sib, n, x, red, t));
  }

  // ---------- the objects spell the tree ----------

  /** What one node object holds. */
  datatype Cell = Cell(x: Item, red: bool, left: Node?, right: Node?, parent: Node?)

  ghost function CellOf(n: Node): Cell
    reads n
  {
    Cell(Item(n.key, n.name), n.red, n.left, n.right, n.parent)
  }

  ghost predicate Agree(m: map<Node, Cell>)
    reads m.Keys
  {
    forall n :: n in m ==> CellOf(n) == m[n]
  }

  /** The pointer that denotes `t`: its top node, or the shared sentinel. */
  ghost function Ptr(t: Tree, s: Node): Node {
    if t.Leaf? then s else t.n
  }

  /** The cells spell `t` below the node `p`: every node of `t` has the item, the colour and
      the children that `t` says, and points back to its parent. */
  ghost predicate Spells(m: map<Node, Cell>, t: Tree, s: Node, p: Node?) {
    t.Br? ==>
      && t.n in m && m[t.n] == Cell(t.x, t.red, Ptr(t.l, s), Ptr(t.r, s), p)
      && Spells(m, t.l, s, t.n) && Spells(m, t.r, s, t.n)
  }

  /** The node whose child the hole is; `p` stands in for the parent of the whole tree. */
  ghost function Above(c: Ctx, p: Node?): Node? {
    if c.Top? then p else c.n
  }

  /** The cells spell `c` with the pointer `h` in its hole. */
  ghost predicate SpellsC(m: map<Node, Cell>, c: Ctx, h: Node, s: Node, p: Node?) {
    !c.Top? ==>
      && c.n in m
      && m[c.n] == (if c.Lf? then Cell(c.x, c.red, h, Ptr(c.sib, s), Above(c.up, p))
                    else Cell(c.x, c.red, Ptr(c.sib, s), h, Above(c.up, p)))
      && Spells(m, c.sib, s, c.n) && SpellsC(m, c.up, c.n, s, p)
  }

  /** The root pointer of the whole, given the pointer in the hole. */
  ghost function RootPtr(c: Ctx, h: Node): Node {
    if c.Top? then h else RootPtr(c.up, c.n)
  }

  /** All the nodes are different. */
  ghost predicate Apart(c: Ctx, t: Tree, s: Node) {
    && Distinct(t) && DistinctC(c) && Nodes(t) !! CNodes(c)
    && s !in Nodes(t) && s !in CNodes(c)
  }

  /** Only the cells of a tree decide what it spells. */
  lemma {:induction false} SpellsFrame(m: map<Node, Cell>, m': map<Node, Cell>, t: Tree, s: Node, p: Node?)
    requires Spells(m, t, s, p)
    requires forall n :: n in Nodes(t) && n in m ==> n in m' && m'[n] == m[n]
    ensures Spells(m', t, s, p)
  {
    if t.Br? {
      SpellsFrame(m, m', t.l, s, t.n);
      SpellsFrame(m, m', t.r, s, t.n);
    }
  }

  lemma {:induction false} SpellsCFrame(m: map<Node, Cell>, m': map<Node, Cell>, c: Ctx, h: Node, s: Node, p: Node?)
    requires SpellsC(m, c, h, s, p)
    requires forall n :: n in CNodes(c) && n in m ==> n in m' && m'[n] == m[n]
    ensures SpellsC(m', c, h, s, p)
    decreases c
  {
    if !c.Top? {
      SpellsFrame(m, m', c.sib, s, c.n);
      SpellsCFrame(m, m', c.up, c.n, s, p);
    }
  }

  /** Moving the hole changes nothing. */
  lemma {:induction false} PlugSpells(m: map<Node, Cell>, c: Ctx, t: Tree, s: Node, p: Node?)
    ensures Apart(c, t, s) <==> Apart(Top, Plug(c, t), s)
    ensures Spells(m, Plug(c, t), s, p) <==> Spells(m, t, s, Above(c, p)) && SpellsC(m, c, Ptr(t, s), s, p)
    ensures Ptr(Plug(c, t), s) == RootPtr(c, Ptr(t, s))
    decreases c
  {
    PlugNodes(c, t);
    match c
    case Top =>
    case Lf(up, n, x, red, sib) => PlugSpells(m, up, Br(t, n, x, red, sib), s, p); PlugNodes(up, Br(t, n, x, red, sib));
    case Rt(up, sib, n, x, red) => PlugSpells(m, up, Br(sib, n, x, red, t), s, p); PlugNodes(up, Br(sib, n, x, red, t));
  }

  lemma {:induction false} RootInside(c: Ctx, h: Node)
    requires !c.Top?
    ensures RootPtr(c, h) in CNodes(c)
    decreases c
  {
    if !c.up.Top? { RootInside(c.up, c.n); }
  }

  // ---------- the in-order sequence ----------

  datatype Elem = Elem(n: Node, x: Item)

  ghost function Elems(t: Tree): seq<Elem> {
    match t
    case Leaf => []
    case Br(l, n, x, _, r) => Elems(l) + [Elem(n, x)] + Elems(r)
  }

  ghost function NodeSet(es: seq<Elem>): set<Node> {
    set e | e in es :: e.n
  }

  lemma {:induction false} ElemNodes(t: Tree)
    ensures NodeSet(Elems(t)) == Nodes(t)
  {
    if t.Br? {
      ElemNodes(t.l);
      ElemNodes(t.r);
      assert forall e :: e in Elems(t) <==> e in Elems(t.l) || e == Elem(t.n, t.x) || e in Elems(t.r);
      assert Elem(t.n, t.x) in Elems(t);
    }
  }

  /** The elements in front of the hole, and those behind it. */
  ghost function Pre(c: Ctx): seq<Elem> {
    match c
    case Top => []
    case Lf(up, _, _, _, _) => Pre(up)
    case Rt(up, sib, n, x, _) => Pre(up) + Elems(sib) + [Elem(n, x)]
  }

  ghost function Post(c: Ctx): seq<Elem> {
    match c
    case Top => []
    case Lf(up, n, x, _, sib) => [Elem(n, x)] + Elems(sib) + Post(up)
    case Rt(up, _, _, _, _) => Post(up)
  }

  lemma {:induction false} PlugElems(c: Ctx, t: Tree)
    ensures Elems(Plug(c, t)) == Pre(c) + Elems(t) + Post(c)
    decreases c
  {
    match c
    case Top =>
    case Lf(up, n, x, red, sib) =>
      PlugElems(up, Br(t, n, x, red, sib));
      Regroup(Pre(up), Elems(t), [Elem(n, x)], Elems(sib), Post(up));
    case Rt(up, sib, n, x, red) =>
      PlugElems(up, Br(sib, n, x, red, t));
      Regroup(Pre(up), Elems(sib), [Elem(n, x)], Elems(t), Post(up));
  }

  lemma Regroup(a: seq<Elem>, b: seq<Elem>, e: seq<Elem>, d: seq<Elem>, f: seq<Elem>)
    ensures a + (b + e + d) + f == a + b + (e + d + f) == (a + b + e) + d + f
  {
  }

  // ---------- colours and black heights ----------

  ghost function BH(t: Tree): nat {
    if t.Leaf? then 0 else BH(t.l) + (if t.red then 0 else 1)
  }

  /** Every path of `t` below any of its nodes passes the same number of black nodes. */
  ghost predicate Balanced(t: Tree) {
    t.Br? ==> BH(t.l) == BH(t.r) && Balanced(t.l) && Balanced(t.r)
  }

  ghost predicate IsRed(t: Tree) {
    t.Br? && t.red
  }

  /** No red node has a red child. */
  ghost predicate RedOk(t: Tree) {
    t.Br? ==> (t.red ==> !IsRed(t.l) && !IsRed(t.r)) && RedOk(t.l) && RedOk(t.r)
  }

  ghost predicate RbOk(t: Tree) {
    Balanced(t) && RedOk(t) && !IsRed(t)
  }

  /** Filling the hole of `c` with a balanced tree of black height `h` gives a balanced tree. */
  ghost predicate CtxBal(c: Ctx, h: nat) {
    !c.Top? ==> Balanced(c.sib) && BH(c.sib) == h && CtxBal(c.up, h + if c.red then 0 else 1)
  }

  /** The context breaks no colour rule, and its outermost node is black. */
  ghost predicate CtxRedOk(c: Ctx) {
    !c.Top? ==> && RedOk(c.sib) && CtxRedOk(c.up)
                && (c.red ==> !IsRed(c.sib) && !c.up.Top? && !c.up.red)
  }

  /** The hole may hold a red node without breaking a colour rule. */
  ghost predicate RedFits(c: Ctx) {
    !c.Top? && !c.red
  }

  lemma {:induction false} PlugRb(c: Ctx, t: Tree)
    ensures Balanced(Plug(c, t)) <==> Balanced(t) && CtxBal(c, BH(t))
    ensures RedOk(Plug(c, t)) && !IsRed(Plug(c, t))
       <==> RedOk(t) && CtxRedOk(c) && (IsRed(t) ==> RedFits(c))
    decreases c
  {
    match c
    case Top =>
    case Lf(up, n, x, red, sib) => PlugRb(up, Br(t, n, x, red, sib));
    case Rt(up, sib, n, x, red) => PlugRb(up, Br(sib, n, x, red, t));
  }

  ghost function Height(t: Tree): nat {
    if t.Leaf? then 0 else 1 + if Height(t.l) > Height(t.r) then Height(t.l) else Height(t.r)
  }

  lemma {:induction false} SizeBound(t: Tree)
    requires Balanced(t) && RedOk(t)
    ensures Pow2(BH(t)) <= |Elems(t)| + 1
    ensures Height(t) <= 2 * BH(t) + if IsRed(t) then 1 else 0
  {
    if t.Br? {
      SizeBound(t.l);
      SizeBound(t.r);
    }
  }

  lemma {:induction false} Pow2Monotone(a: nat, b: nat)
    requires a <= b
    ensures Pow2(a) <= Pow2(b)
    decreases b - a
  {
    if a < b { Pow2Monotone(a, b - 1); }
  }

  /** A red-black tree of n elements is at most 2 * log2(n + 1) high. */
  lemma HeightBound(t: Tree)
    requires RbOk(t)
    ensures Pow2((Height(t) + 1) / 2) <= |Elems(t)| + 1
  {
    SizeBound(t);
    Pow2Monotone((Height(t) + 1) / 2, BH(t));
  }
}
