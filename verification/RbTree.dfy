/** `ngx_rbtree_t` and its operations on linked nodes with one shared sentinel. Two ghost
    fields go with the linked structure: `mem` repeats what the nodes hold, and `shape` is the
    tree they spell between operations. Inside an operation the invariant is `At(c, t)`:
    the nodes spell `t` in the hole of `c`. */
module RbTrees {
  import Bits
  import opened RbShape
  import opened RbOrder

  /** The cells spell `t` in the hole of `c`, and `root` points to the whole. */
  ghost predicate Holds(m: map<Node, Cell>, root: Node, s: Node, c: Ctx, t: Tree, p: Node?) {
    && Apart(c, t, s)
    && Spells(m, t, s, Above(c, p)) && SpellsC(m, c, Ptr(t, s), s, p)
    && root == RootPtr(c, Ptr(t, s))
  }

  lemma Focus(m: map<Node, Cell>, root: Node, s: Node, c: Ctx, t: Tree, p: Node?)
    ensures Holds(m, root, s, Top, Plug(c, t), p) <==> Holds(m, root, s, c, t, p)
  {
    PlugSpells(m, c, t, s, p);
  }

  // ---------- rotations, on cells ----------

  ghost function RotL(t: Tree): Tree
    requires t.Br? && t.r.Br?
  {
    Br(Br(t.l, t.n, t.x, t.red, t.r.l), t.r.n, t.r.x, t.r.red, t.r.r)
  }

  ghost function RotR(t: Tree): Tree
    requires t.Br? && t.l.Br?
  {
    Br(t.l.l, t.l.n, t.l.x, t.l.red, Br(t.l.r, t.n, t.x, t.red, t.r))
  }

  /** The node above the hole gets another child pointer. */
  ghost function WithHole(m: map<Node, Cell>, c: Ctx, h: Node): (m': map<Node, Cell>)
    requires !c.Top? ==> c.n in m
    ensures m'.Keys == m.Keys
  {
    if c.Top? then m
    else if c.Lf? then m[c.n := m[c.n].(left := h)]
    else m[c.n := m[c.n].(right := h)]
  }

  /** The top node of a tree gets another parent, if there is one. */
  ghost function WithParent(m: map<Node, Cell>, t: Tree, p: Node?): (m': map<Node, Cell>)
    requires t.Br? ==> t.n in m
    ensures m'.Keys == m.Keys
  {
    if t.Leaf? then m else m[t.n := m[t.n].(parent := p)]
  }

  lemma WithHoleSpells(m: map<Node, Cell>, c: Ctx, h: Node, h': Node, s: Node, p: Node?)
    requires SpellsC(m, c, h, s, p) && DistinctC(c)
    ensures SpellsC(WithHole(m, c, h'), c, h', s, p)
    ensures forall n :: n in m && n !in CNodes(c) ==> WithHole(m, c, h')[n] == m[n]
    ensures WithHole(m, c, h').Keys == m.Keys
  {
    if !c.Top? {
      SpellsFrame(m, WithHole(m, c, h'), c.sib, s, c.n);
      SpellsCFrame(m, WithHole(m, c, h'), c.up, c.n, s, p);
    }
  }

  lemma WithParentSpells(m: map<Node, Cell>, t: Tree, s: Node, p: Node?, p': Node?)
    requires Spells(m, t, s, p) && Distinct(t)
    ensures Spells(WithParent(m, t, p'), t, s, p')
    ensures forall n :: n in m && n !in Nodes(t) ==> WithParent(m, t, p')[n] == m[n]
    ensures WithParent(m, t, p').Keys == m.Keys
  {
    if t.Br? {
      SpellsFrame(m, WithParent(m, t, p'), t.l, s, t.n);
      SpellsFrame(m, WithParent(m, t, p'), t.r, s, t.n);
    }
  }

  ghost function RotLMem(m: map<Node, Cell>, c: Ctx, t: Tree): map<Node, Cell>
    requires t.Br? && t.r.Br? && t.n in m && t.r.n in m
    requires t.r.l.Br? ==> t.r.l.n in m
    requires !c.Top? ==> c.n in m
  {
    var m1 := WithHole(WithParent(m, t.r.l, t.n), c, t.r.n);
    m1[t.n := m1[t.n].(right := m1[t.r.n].left, parent := t.r.n)]
      [t.r.n := m1[t.r.n].(left := t.n, parent := m1[t.n].parent)]
  }

  lemma RotLApart(c: Ctx, t: Tree, s: Node)
    requires Apart(c, t, s) && t.Br? && t.r.Br?
    ensures Apart(c, RotL(t), s)
    ensures Nodes(t) == {t.n, t.r.n} + Nodes(t.l) + Nodes(t.r.l) + Nodes(t.r.r)
    ensures t.n != t.r.n && t.n !in Nodes(t.r.l) && t.n !in Nodes(t.r.r) && t.r.n !in Nodes(t.l)
    ensures Nodes(t.r.l) !! Nodes(t.l) && Nodes(t.r.l) !! Nodes(t.r.r) && Distinct(t.r.l)
    ensures t.r.l.Br? ==> t.r.l.n in Nodes(t.r.l)
    ensures !c.Top? ==> c.n !in Nodes(t)
    ensures t.n !in Nodes(t.l) && t.r.n !in Nodes(t.r.l) && t.r.n !in Nodes(t.r.r)
  {
    assert Distinct(t.r);
    assert Nodes(t.r) == {t.r.n} + Nodes(t.r.l) + Nodes(t.r.r);
    assert Nodes(RotL(t).l) == {t.n} + Nodes(t.l) + Nodes(t.r.l);
    assert Nodes(RotL(t)) == Nodes(t);
  }

  /** Which cells the rotation touches, and that it finds them. */
  lemma RotLCells(m: map<Node, Cell>, s: Node, c: Ctx, t: Tree, p: Node?)
    requires Spells(m, t, s, p) && t.Br? && t.r.Br? && (!c.Top? ==> c.n in m)
    ensures Spells(m, t.l, s, t.n) && Spells(m, t.r.l, s, t.r.n) && Spells(m, t.r.r, s, t.r.n)
    ensures t.n in m && t.r.n in m && (t.r.l.Br? ==> t.r.l.n in m)
    ensures m[t.n] == Cell(t.x, t.red, Ptr(t.l, s), Ptr(t.r, s), p)
    ensures m[t.r.n] == Cell(t.r.x, t.r.red, Ptr(t.r.l, s), Ptr(t.r.r, s), t.n)
    ensures RotLMem(m, c, t).Keys == m.Keys
    ensures forall n :: n in m && n != t.n && n != t.r.n && (t.r.l.Br? ==> n != t.r.l.n) && (!c.Top? ==> n != c.n)
              ==> RotLMem(m, c, t)[n] == m[n]
  {
    assert Spells(m, t.r, s, t.n) && Spells(m, t.r.l, s, t.r.n);
  }

  lemma RotLTree(m: map<Node, Cell>, s: Node, c: Ctx, t: Tree, p: Node?)
    requires Apart(c, t, s) && Spells(m, t, s, p) && t.Br? && t.r.Br? && (!c.Top? ==> c.n in m)
    ensures t.n in m && t.r.n in m && (t.r.l.Br? ==> t.r.l.n in m)
    ensures Spells(RotLMem(m, c, t), RotL(t), s, p)
  {
    hide Distinct, DistinctC, Apart, Nodes, CNodes;
    RotLApart(c, t, s);
    RotLCells(m, s, c, t, p);
    var m1, m' := WithParent(m, t.r.l, t.n), RotLMem(m, c, t);
    WithParentSpells(m, t.r.l, s, t.r.n, t.n);
    SpellsFrame(m1, m', t.r.l, s, t.n);
    SpellsFrame(m, m', t.l, s, t.n);
    SpellsFrame(m, m', t.r.r, s, t.r.n);
  }

  lemma RotLSpells(m: map<Node, Cell>, root: Node, s: Node, c: Ctx, t: Tree, p: Node?)
    requires Holds(m, root, s, c, t, p) && t.Br? && t.r.Br?
    ensures t.n in m && t.r.n in m && (t.r.l.Br? ==> t.r.l.n in m) && (!c.Top? ==> c.n in m)
    ensures Holds(RotLMem(m, c, t), if c.Top? then t.r.n else root, s, c, RotL(t), p)
    ensures RotLMem(m, c, t).Keys == m.Keys
  {
    RotLTree(m, s, c, t, Above(c, p));
    RotLCells(m, s, c, t, Above(c, p));
    RotLApart(c, t, s);
    var m2 := WithHole(m, c, t.r.n);
    WithHoleSpells(m, c, t.n, t.r.n, s, p);
    SpellsCFrame(m2, RotLMem(m, c, t), c, t.r.n, s, p);
    if !c.Top? { RootPtrSame(c, t.n, t.r.n); }
  }

  ghost function RotRMem(m: map<Node, Cell>, c: Ctx, t: Tree): map<Node, Cell>
    requires t.Br? && t.l.Br? && t.n in m && t.l.n in m
    requires t.l.r.Br? ==> t.l.r.n in m
    requires !c.Top? ==> c.n in m
  {
    var m1 := WithHole(WithParent(m, t.l.r, t.n), c, t.l.n);
    m1[t.n := m1[t.n].(left := m1[t.l.n].right, parent := t.l.n)]
      [t.l.n := m1[t.l.n].(right := t.n, parent := m1[t.n].parent)]
  }

  lemma RotRApart(c: Ctx, t: Tree, s: Node)
    requires Apart(c, t, s) && t.Br? && t.l.Br?
    ensures Apart(c, RotR(t), s)
    ensures Nodes(t) == {t.n, t.l.n} + Nodes(t.r) + Nodes(t.l.r) + Nodes(t.l.l)
    ensures t.n != t.l.n && t.n !in Nodes(t.l.r) && t.n !in Nodes(t.l.l) && t.l.n !in Nodes(t.r)
    ensures Nodes(t.l.r) !! Nodes(t.r) && Nodes(t.l.r) !! Nodes(t.l.l) && Distinct(t.l.r)
    ensures t.l.r.Br? ==> t.l.r.n in Nodes(t.l.r)
    ensures !c.Top? ==> c.n !in Nodes(t)
    ensures t.n !in Nodes(t.r) && t.l.n !in Nodes(t.l.r) && t.l.n !in Nodes(t.l.l)
  {
    assert Distinct(t.l);
    assert Nodes(t.l) == {t.l.n} + Nodes(t.l.r) + Nodes(t.l.l);
    assert Nodes(RotR(t).r) == {t.n} + Nodes(t.r) + Nodes(t.l.r);
    assert Nodes(RotR(t)) == Nodes(t);
  }

  /** Which cells the rotation touches, and that it finds them. */
  lemma RotRCells(m: map<Node, Cell>, s: Node, c: Ctx, t: Tree, p: Node?)
    requires Spells(m, t, s, p) && t.Br? && t.l.Br? && (!c.Top? ==> c.n in m)
    ensures Spells(m, t.r, s, t.n) && Spells(m, t.l.r, s, t.l.n) && Spells(m, t.l.l, s, t.l.n)
    ensures t.n in m && t.l.n in m && (t.l.r.Br? ==> t.l.r.n in m)
    ensures m[t.n] == Cell(t.x, t.red, Ptr(t.l, s), Ptr(t.r, s), p)
    ensures m[t.l.n] == Cell(t.l.x, t.l.red, Ptr(t.l.l, s), Ptr(t.l.r, s), t.n)
    ensures RotRMem(m, c, t).Keys == m.Keys
    ensures forall n :: n in m && n != t.n && n != t.l.n && (t.l.r.Br? ==> n != t.l.r.n) && (!c.Top? ==> n != c.n)
              ==> RotRMem(m, c, t)[n] == m[n]
  {
    assert Spells(m, t.l, s, t.n) && Spells(m, t.l.r, s, t.l.n);
  }

  lemma RotRTree(m: map<Node, Cell>, s: Node, c: Ctx, t: Tree, p: Node?)
    requires Apart(c, t, s) && Spells(m, t, s, p) && t.Br? && t.l.Br? && (!c.Top? ==> c.n in m)
    ensures t.n in m && t.l.n in m && (t.l.r.Br? ==> t.l.r.n in m)
    ensures Spells(RotRMem(m, c, t), RotR(t), s, p)
  {
    hide Distinct, DistinctC, Apart, Nodes, CNodes;
    RotRApart(c, t, s);
    RotRCells(m, s, c, t, p);
    var m1, m' := WithParent(m, t.l.r, t.n), RotRMem(m, c, t);
    WithParentSpells(m, t.l.r, s, t.l.n, t.n);
    SpellsFrame(m1, m', t.l.r, s, t.n);
    SpellsFrame(m, m', t.r, s, t.n);
    SpellsFrame(m, m', t.l.l, s, t.l.n);
  }

  lemma RotRSpells(m: map<Node, Cell>, root: Node, s: Node, c: Ctx, t: Tree, p: Node?)
    requires Holds(m, root, s, c, t, p) && t.Br? && t.l.Br?
    ensures t.n in m && t.l.n in m && (t.l.r.Br? ==> t.l.r.n in m) && (!c.Top? ==> c.n in m)
    ensures Holds(RotRMem(m, c, t), if c.Top? then t.l.n else root, s, c, RotR(t), p)
    ensures RotRMem(m, c, t).Keys == m.Keys
  {
    RotRTree(m, s, c, t, Above(c, p));
    RotRCells(m, s, c, t, Above(c, p));
    RotRApart(c, t, s);
    var m2 := WithHole(m, c, t.l.n);
    WithHoleSpells(m, c, t.n, t.l.n, s, p);
    SpellsCFrame(m2, RotRMem(m, c, t), c, t.l.n, s, p);
    if !c.Top? { RootPtrSame(c, t.n, t.l.n); }
  }

  /** The child of `up` that is `node` becomes `temp`. */
  ghost function HungUnder(m: map<Node, Cell>, up: Node, node: Node, temp: Node): map<Node, Cell>
    requires up in m
  {
    if m[up].left == node then m[up := m[up].(left := temp)] else m[up := m[up].(right := temp)]
  }

  ghost function HungUnderR(m: map<Node, Cell>, up: Node, node: Node, temp: Node): map<Node, Cell>
    requires up in m
  {
    if m[up].right == node then m[up := m[up].(right := temp)] else m[up := m[up].(left := temp)]
  }

  /** The cells that `ngx_rbtree_left_rotate` leaves. */
  ghost function LinkedL(m: map<Node, Cell>, node: Node, s: Node, root: Node): map<Node, Cell>
    requires node in m && m[node].right != null && m[node].right in m
    requires m[m[node].right].left != null
    requires m[m[node].right].left != s ==> m[m[node].right].left in m
    requires node != root ==> m[node].parent != null && m[node].parent in m
  {
    var temp: Node := m[node].right;
    var kid: Node := m[temp].left;
    var m1 := m[node := m[node].(right := kid)];
    var m2 := if kid != s then m1[kid := m1[kid].(parent := node)] else m1;
    var m3 := m2[temp := m2[temp].(parent := m2[node].parent)];
    var m4 := if node == root then m3 else HungUnder(m3, m[node].parent, node, temp);
    var m5 := m4[temp := m4[temp].(left := node)];
    m5[node := m5[node].(parent := temp)]
  }

  lemma RotLLinked(m: map<Node, Cell>, root: Node, s: Node, c: Ctx, t: Tree, p: Node?)
    requires Holds(m, root, s, c, t, p) && t.Br? && t.r.Br? && s !in m
    requires t.n in m && t.r.n in m && (t.r.l.Br? ==> t.r.l.n in m) && (!c.Top? ==> c.n in m)
    ensures m[t.n].right == t.r.n != t.n && m[t.r.n].left == Ptr(t.r.l, s)
    ensures Ptr(t.r.l, s) !in {t.n, t.r.n}
    ensures t.n == root <==> c.Top?
    ensures !c.Top? ==> m[t.n].parent == c.n && c.n !in {t.n, t.r.n, Ptr(t.r.l, s)}
    ensures RotLMem(m, c, t) == LinkedL(m, t.n, s, root)
  {
    hide Distinct, DistinctC;
    RotLApart(c, t, s);
    assert Spells(m, t.r, s, t.n);
    if !c.Top? { RootInside(c, t.n); }
  }

  /** The cells that `ngx_rbtree_right_rotate` leaves. */
  ghost function LinkedR(m: map<Node, Cell>, node: Node, s: Node, root: Node): map<Node, Cell>
    requires node in m && m[node].left != null && m[node].left in m
    requires m[m[node].left].right != null
    requires m[m[node].left].right != s ==> m[m[node].left].right in m
    requires node != root ==> m[node].parent != null && m[node].parent in m
  {
    var temp: Node := m[node].left;
    var kid: Node := m[temp].right;
    var m1 := m[node := m[node].(left := kid)];
    var m2 := if kid != s then m1[kid := m1[kid].(parent := node)] else m1;
    var m3 := m2[temp := m2[temp].(parent := m2[node].parent)];
    var m4 := if node == root then m3 else HungUnderR(m3, m[node].parent, node, temp);
    var m5 := m4[temp := m4[temp].(right := node)];
    m5[node := m5[node].(parent := temp)]
  }

  lemma RotRLinked(m: map<Node, Cell>, root: Node, s: Node, c: Ctx, t: Tree, p: Node?)
    requires Holds(m, root, s, c, t, p) && t.Br? && t.l.Br? && s !in m
    requires t.n in m && t.l.n in m && (t.l.r.Br? ==> t.l.r.n in m) && (!c.Top? ==> c.n in m)
    ensures m[t.n].left == t.l.n != t.n && m[t.l.n].right == Ptr(t.l.r, s)
    ensures Ptr(t.l.r, s) !in {t.n, t.l.n}
    ensures t.n == root <==> c.Top?
    ensures !c.Top? ==> m[t.n].parent == c.n && c.n !in {t.n, t.l.n, Ptr(t.l.r, s)}
    ensures RotRMem(m, c, t) == LinkedR(m, t.n, s, root)
  {
    hide Distinct, DistinctC;
    RotRApart(c, t, s);
    assert Spells(m, t.l, s, t.n);
    if !c.Top? { RootInside(c, t.n); }
  }

  lemma PaintSpells(m: map<Node, Cell>, root: Node, s: Node, c: Ctx, t: Tree, p: Node?, red: bool)
    requires Holds(m, root, s, c, t, p) && t.Br?
    ensures Holds(m[t.n := m[t.n].(red := red)], root, s, c, t.(red := red), p)
  {
    var m' := m[t.n := m[t.n].(red := red)];
    SpellsFrame(m, m', t.l, s, t.n);
    SpellsFrame(m, m', t.r, s, t.n);
    SpellsCFrame(m, m', c, t.n, s, p);
  }

  ghost function Up(c: Ctx, t: Tree): (u: Tree)
    requires !c.Top?
    ensures u.Br?
  {
    if c.Lf? then Br(t, c.n, c.x, c.red, c.sib) else Br(c.sib, c.n, c.x, c.red, t)
  }

  ghost function Black(t: Tree): Tree {
    if t.Leaf? then Leaf else t.(red := false)
  }

  // ---------- what insertion does to the colours ----------

  /** Everything is a red-black tree, except that the red node on top of `t` may hang below a
      red node or be the root. */
  ghost predicate InsertOk(c: Ctx, t: Tree) {
    && t.Br? && t.red
    && RedOk(t) && Balanced(t) && CtxRedOk(c) && CtxBal(c, BH(t))
  }

  ghost function RedLeaf(n: Node, x: Item): Tree {
    Br(Leaf, n, x, true, Leaf)
  }

  /** `x` belongs into the hole of `c`. */
  ghost predicate Between(o: Order, x: Item, c: Ctx) {
    && (forall i :: 0 <= i < |Pre(c)| ==> !GoesLeft(o, x, Pre(c)[i].x))
    && (forall i :: 0 <= i < |Post(c)| ==> GoesLeft(o, x, Post(c)[i].x))
  }

  lemma PlacedBetween(o: Order, x: Item, c: Ctx)
    requires Between(o, x, c)
    ensures PlaceOf(o, Elems(Plug(c, Leaf)), x, |Pre(c)|)
  {
    PlugElems(c, Leaf);
    assert Elems(Plug(c, Leaf)) == Pre(c) + Post(c);
  }

  lemma InsertElems(c: Ctx, n: Node, x: Item)
    ensures var es, i := Elems(Plug(c, Leaf)), |Pre(c)|;
      i <= |es| && Elems(Plug(c, RedLeaf(n, x))) == es[..i] + [Elem(n, x)] + es[i..]
    ensures Nodes(Plug(c, RedLeaf(n, x))) == Nodes(Plug(c, Leaf)) + {n}
  {
    var es, i := Elems(Plug(c, Leaf)), |Pre(c)|;
    PlugElems(c, Leaf);
    PlugElems(c, RedLeaf(n, x));
    assert es == Pre(c) + Post(c) && es[..i] == Pre(c) && es[i..] == Post(c);
    PlugNodes(c, Leaf);
    PlugNodes(c, RedLeaf(n, x));
  }

  lemma SameNodes(t: Tree, t': Tree)
    requires Elems(t) == Elems(t')
    ensures Nodes(t) == Nodes(t')
  {
    ElemNodes(t);
    ElemNodes(t');
  }

  lemma RedLeafOk(c: Ctx, n: Node, x: Item)
    requires RbOk(Plug(c, Leaf))
    ensures InsertOk(c, RedLeaf(n, x))
  {
    PlugRb(c, Leaf);
  }

  /** One comparison of the descent decides about a whole subtree. */
  lemma StepLeft(o: Order, base: nat, x: Item, y: Item, es: seq<Elem>)
    requires GoesLeft(o, x, y) && InWindow(o, base, x) && InWindow(o, base, y) && AllInWindow(o, base, es)
    requires forall i :: 0 <= i < |es| ==> !GoesLeft(o, es[i].x, y)
    ensures forall i :: 0 <= i < |es| ==> GoesLeft(o, x, es[i].x)
  {
    forall i | 0 <= i < |es| ensures GoesLeft(o, x, es[i].x) {
      if !GoesLeft(o, x, es[i].x) { NotLeftTrans(o, base, x, es[i].x, y); }
    }
  }

  lemma StepRight(o: Order, base: nat, x: Item, y: Item, es: seq<Elem>)
    requires !GoesLeft(o, x, y) && InWindow(o, base, x) && InWindow(o, base, y) && AllInWindow(o, base, es)
    requires forall i :: 0 <= i < |es| ==> !GoesLeft(o, y, es[i].x)
    ensures forall i :: 0 <= i < |es| ==> !GoesLeft(o, x, es[i].x)
  {
    forall i | 0 <= i < |es| ensures !GoesLeft(o, x, es[i].x) {
      NotLeftTrans(o, base, x, y, es[i].x);
    }
  }

  /** The sorted sequence around the node in focus. */
  lemma AroundSorted(o: Order, c: Ctx, t: Tree)
    requires t.Br? && Sorted(o, Elems(Plug(c, t)))
    ensures forall i :: 0 <= i < |Elems(t.l)| ==> !GoesLeft(o, t.x, Elems(t.l)[i].x)
    ensures forall i :: 0 <= i < |Elems(t.r)| ==> !GoesLeft(o, Elems(t.r)[i].x, t.x)
  {
    hide GoesLeft, Plug, Pre, Post;
    var es, a, k := Elems(Plug(c, t)), |Pre(c)|, |Pre(c)| + |Elems(t.l)|;
    PlugElems(c, t);
    assert es == Pre(c) + (Elems(t.l) + [Elem(t.n, t.x)] + Elems(t.r)) + Post(c);
    assert es[k] == Elem(t.n, t.x);
    assert forall i :: 0 <= i < |Elems(t.l)| ==> Elems(t.l)[i] == es[a + i];
    assert forall i :: 0 <= i < |Elems(t.r)| ==> Elems(t.r)[i] == es[k + 1 + i];
  }

  lemma AroundWindow(o: Order, base: nat, c: Ctx, t: Tree)
    requires t.Br? && AllInWindow(o, base, Elems(Plug(c, t)))
    ensures InWindow(o, base, t.x) && AllInWindow(o, base, Elems(t.l)) && AllInWindow(o, base, Elems(t.r))
  {
    hide InWindow, Plug, Pre, Post;
    var es, a, k := Elems(Plug(c, t)), |Pre(c)|, |Pre(c)| + |Elems(t.l)|;
    PlugElems(c, t);
    assert es == Pre(c) + (Elems(t.l) + [Elem(t.n, t.x)] + Elems(t.r)) + Post(c);
    assert es[k] == Elem(t.n, t.x);
    assert forall i :: 0 <= i < |Elems(t.l)| ==> Elems(t.l)[i] == es[a + i];
    assert forall i :: 0 <= i < |Elems(t.r)| ==> Elems(t.r)[i] == es[k + 1 + i];
  }

  lemma StepDown(o: Order, base: nat, x: Item, c: Ctx, t: Tree)
    requires t.Br? && Between(o, x, c)
    requires Sorted(o, Elems(Plug(c, t))) && AllInWindow(o, base, Elems(Plug(c, t))) && InWindow(o, base, x)
    ensures if GoesLeft(o, x, t.x) then Between(o, x, Lf(c, t.n, t.x, t.red, t.r))
            else Between(o, x, Rt(c, t.l, t.n, t.x, t.red))
  {
    hide GoesLeft, InWindow, AllInWindow, Sorted;
    AroundSorted(o, c, t);
    AroundWindow(o, base, c, t);
    if GoesLeft(o, x, t.x) {
      StepLeft(o, base, x, t.x, Elems(t.r));
      var d := Lf(c, t.n, t.x, t.red, t.r);
      assert Pre(d) == Pre(c) && Post(d) == [Elem(t.n, t.x)] + Elems(t.r) + Post(c);
      assert Between(o, x, d);
    } else {
      StepRight(o, base, x, t.x, Elems(t.l));
      var d := Rt(c, t.l, t.n, t.x, t.red);
      assert Post(d) == Post(c) && Pre(d) == Pre(c) + Elems(t.l) + [Elem(t.n, t.x)];
      assert Between(o, x, d);
    }
  }

  // ---------- searching ----------

  ghost predicate NoneIs(x: Item, es: seq<Elem>) {
    forall i :: 0 <= i < |es| ==> es[i].x != x
  }

  /** `x` is nowhere outside the hole of `c`. */
  ghost predicate NotAside(x: Item, c: Ctx) {
    NoneIs(x, Pre(c)) && NoneIs(x, Post(c))
  }

  lemma TopAside(x: Item)
    ensures NotAside(x, Top)
  {
  }

  lemma NowhereElse(x: Item, c: Ctx)
    requires NotAside(x, c)
    ensures NoneIs(x, Elems(Plug(c, Leaf)))
  {
    PlugElems(c, Leaf);
  }

  /** A comparison that sends the search to the left rules out the node and what is right of it. */
  lemma AsideRight(o: Order, x: Item, c: Ctx, t: Tree)
    requires t.Br? && NotAside(x, c) && Sorted(o, Elems(Plug(c, t))) && GoesLeft(o, x, t.x) && !o.ByTimer?
    ensures NotAside(x, Lf(c, t.n, t.x, t.red, t.r))
  {
    AroundSorted(o, c, t);
    Irreflexive(o, x);
    var d := Lf(c, t.n, t.x, t.red, t.r);
    assert Pre(d) == Pre(c) && Post(d) == [Elem(t.n, t.x)] + Elems(t.r) + Post(c);
  }

  lemma AsideLeft(o: Order, x: Item, c: Ctx, t: Tree)
    requires t.Br? && NotAside(x, c) && Sorted(o, Elems(Plug(c, t))) && !GoesLeft(o, x, t.x) && x != t.x && !o.ByTimer?
    requires o.ByString? || o.ByFileName?
    ensures NotAside(x, Rt(c, t.l, t.n, t.x, t.red))
  {
    AroundSorted(o, c, t);
    if !GoesLeft(o, t.x, x) { LexTotal(x.name, t.x.name); }
    var d := Rt(c, t.l, t.n, t.x, t.red);
    assert Post(d) == Post(c) && Pre(d) == Pre(c) + Elems(t.l) + [Elem(t.n, t.x)];
  }

  ghost function Depth(c: Ctx): nat {
    if c.Top? then 0 else 1 + Depth(c.up)
  }

  /** When the loop stops, blackening the root finishes the repair. */
  lemma BlackenOk(c: Ctx, t: Tree)
    requires InsertOk(c, t) && (c.Top? || !c.red)
    ensures Plug(c, t).Br? && RbOk(Plug(c, t).(red := false))
    ensures Elems(Plug(c, t).(red := false)) == Elems(Plug(c, t))
  {
    PlugRb(c, t);
    PlugElems(c, t);
    assert Plug(c, t).Leaf? ==> |Elems(Plug(c, t))| == 0;
  }

  /** Lines 52-58 and 72-78: parent and uncle turn black, the grandparent turns red. */
  ghost function Recolored(c: Ctx, t: Tree): Tree
    requires !c.Top? && !c.up.Top?
  {
    if c.up.Lf? then Br(Black(Up(c, t)), c.up.n, c.up.x, true, Black(c.up.sib))
    else Br(Black(c.up.sib), c.up.n, c.up.x, true, Black(Up(c, t)))
  }

  /** Lines 66-68: the parent takes the place of the grandparent. */
  ghost function PromotedL(c: Ctx): Ctx
    requires c.Lf? && c.up.Lf?
  {
    Lf(c.up.up, c.n, c.x, false, Br(c.sib, c.up.n, c.up.x, true, c.up.sib))
  }

  /** Lines 86-88, the mirror image. */
  ghost function PromotedR(c: Ctx): Ctx
    requires c.Rt? && c.up.Rt?
  {
    Rt(c.up.up, Br(c.up.sib, c.up.n, c.up.x, true, c.sib), c.n, c.x, false)
  }

  lemma RecolorOk(c: Ctx, t: Tree)
    requires InsertOk(c, t) && !c.Top? && c.red && IsRed(c.up.sib)
    ensures InsertOk(c.up.up, Recolored(c, t))
    ensures Elems(Plug(c.up.up, Recolored(c, t))) == Elems(Plug(c, t))
  {
    var g, r := Up(c.up, Up(c, t)), Recolored(c, t);
    assert CtxRedOk(c.up) && CtxBal(c.up, BH(Up(c, t)));
    assert RedOk(c.up.sib) && Balanced(c.up.sib) && RedOk(Black(c.up.sib)) && Balanced(Black(c.up.sib));
    assert RedOk(Black(Up(c, t))) && Balanced(Black(Up(c, t)));
    assert BH(r) == BH(g) && Balanced(r) && RedOk(r);
    assert Elems(r.l) == Elems(g.l) && Elems(r.r) == Elems(g.r);
    SameElems(c.up.up, g, r);
  }

  lemma PromoteOkL(c: Ctx, t: Tree)
    requires InsertOk(c, t) && c.Lf? && c.red && c.up.Lf? && !IsRed(c.up.sib)
    ensures InsertOk(PromotedL(c), t)
    ensures Elems(Plug(PromotedL(c), t)) == Elems(Plug(c, t))
  {
    assert CtxRedOk(c.up) && CtxBal(c.up, BH(Up(c, t)));
    assert RedOk(c.up.sib) && Balanced(c.up.sib);
    var a, b := Up(c.up, Up(c, t)), Up(PromotedL(c), t);
    assert Elems(a) == Elems(t) + [Elem(c.n, c.x)] + Elems(c.sib) + [Elem(c.up.n, c.up.x)] + Elems(c.up.sib);
    assert Elems(b) == Elems(t) + [Elem(c.n, c.x)] + (Elems(c.sib) + [Elem(c.up.n, c.up.x)] + Elems(c.up.sib));
    SameElems(c.up.up, a, b);
  }

  lemma PromoteOkR(c: Ctx, t: Tree)
    requires InsertOk(c, t) && c.Rt? && c.red && c.up.Rt? && !IsRed(c.up.sib)
    ensures InsertOk(PromotedR(c), t)
    ensures Elems(Plug(PromotedR(c), t)) == Elems(Plug(c, t))
  {
    assert CtxRedOk(c.up) && CtxBal(c.up, BH(Up(c, t)));
    assert RedOk(c.up.sib) && Balanced(c.up.sib);
    var a, b := Up(c.up, Up(c, t)), Up(PromotedR(c), t);
    assert Elems(a) == Elems(c.up.sib) + [Elem(c.up.n, c.up.x)] + (Elems(c.sib) + [Elem(c.n, c.x)] + Elems(t));
    assert Elems(b) == Elems(c.up.sib) + [Elem(c.up.n, c.up.x)] + Elems(c.sib) + [Elem(c.n, c.x)] + Elems(t);
    SameElems(c.up.up, a, b);
  }

  lemma TurnOutOkL(c: Ctx, t: Tree)
    requires InsertOk(c, t) && c.Rt? && c.red
    ensures var r := RotL(Up(c, t));
      && r.l.Br? && InsertOk(Lf(c.up, r.n, r.x, r.red, r.r), r.l)
      && Elems(Plug(c.up, r)) == Elems(Plug(c, t))
  {
    RotLElems(Up(c, t));
    assert RedOk(t.l) && RedOk(t.r) && BH(c.sib) == BH(t) == BH(t.l);
    SameElems(c.up, Up(c, t), RotL(Up(c, t)));
  }

  lemma TurnOutOkR(c: Ctx, t: Tree)
    requires InsertOk(c, t) && c.Lf? && c.red
    ensures var r := RotR(Up(c, t));
      && r.r.Br? && InsertOk(Rt(c.up, r.l, r.n, r.x, r.red), r.r)
      && Elems(Plug(c.up, r)) == Elems(Plug(c, t))
  {
    RotRElems(Up(c, t));
    assert RedOk(t.l) && RedOk(t.r) && BH(c.sib) == BH(t) == BH(t.r);
    SameElems(c.up, Up(c, t), RotR(Up(c, t)));
  }

  lemma RotLElems(t: Tree)
    requires t.Br? && t.r.Br?
    ensures Elems(RotL(t)) == Elems(t)
  {
    assert Elems(t) == Elems(t.l) + [Elem(t.n, t.x)] + (Elems(t.r.l) + [Elem(t.r.n, t.r.x)] + Elems(t.r.r));
    assert Elems(RotL(t)) == (Elems(t.l) + [Elem(t.n, t.x)] + Elems(t.r.l)) + [Elem(t.r.n, t.r.x)] + Elems(t.r.r);
  }

  lemma RotRElems(t: Tree)
    requires t.Br? && t.l.Br?
    ensures Elems(RotR(t)) == Elems(t)
  {
    RotLElems(RotR(t));
  }

  // ---------- what deletion does to the colours ----------

  /** Everything is a red-black tree, except that the paths into the hole are one black node
      short, and that the top of `t` may be red above a red node. */
  ghost predicate DeleteOk(c: Ctx, t: Tree) {
    RedOk(Black(t)) && Balanced(t) && CtxRedOk(c) && CtxBal(c, BH(t) + 1)
  }

  ghost function WithSib(c: Ctx, sib: Tree): (d: Ctx)
    requires !c.Top?
    ensures !d.Top? && (d.Lf? <==> c.Lf?)
    ensures d.up == c.up && d.sib == sib && d.n == c.n && d.red == c.red && d.x == c.x
  {
    if c.Lf? then Lf(c.up, c.n, c.x, c.red, sib) else Rt(c.up, sib, c.n, c.x, c.red)
  }

  /** When the loop stops, blackening the top node of `t` finishes the repair. */
  lemma DeleteDone(c: Ctx, t: Tree)
    requires DeleteOk(c, t) && (c.Top? || IsRed(t))
    ensures RbOk(Plug(c, Black(t)))
    ensures Elems(Plug(c, Black(t))) == Elems(Plug(c, t))
  {
    PlugRb(c, Black(t));
    assert c.Top? ==> Balanced(Black(t));
    SameElems(c, t, Black(t));
  }

  /** Lines 264-269: a red sibling moves up. */
  ghost function LiftedL(c: Ctx): Ctx
    requires c.Lf? && c.sib.Br?
  {
    Lf(Lf(c.up, c.sib.n, c.sib.x, false, c.sib.r), c.n, c.x, true, c.sib.l)
  }

  lemma LiftOkL(c: Ctx, t: Tree)
    requires DeleteOk(c, t) && c.Lf? && !IsRed(t)
    ensures c.sib.Br?
    ensures IsRed(c.sib) ==> && DeleteOk(LiftedL(c), t) && !IsRed(c.sib.l) && c.sib.l.Br? && !c.red
                             && Elems(Plug(LiftedL(c), t)) == Elems(Plug(c, t))
  {
    if IsRed(c.sib) {
      assert RedOk(c.sib.l) && RedOk(c.sib.r) && Balanced(c.sib.l) && Balanced(c.sib.r);
      RotLElems(Up(c, t));
      SameElems(c.up, Up(c, t), RotL(Up(c, t)));
      SameElems(c.up, RotL(Up(c, t)), Up(LiftedL(c).up, Up(LiftedL(c), t)));
    }
  }

  /** Lines 271-273: the sibling turns red and the problem moves up. */
  lemma SinkOkL(c: Ctx, t: Tree)
    requires DeleteOk(c, t) && c.Lf? && !IsRed(t) && c.sib.Br? && !IsRed(c.sib)
    requires !IsRed(c.sib.l) && !IsRed(c.sib.r)
    ensures DeleteOk(c.up, Up(WithSib(c, c.sib.(red := true)), t))
    ensures Elems(Plug(c.up, Up(WithSib(c, c.sib.(red := true)), t))) == Elems(Plug(c, t))
  {
    SameElems(c.up, Up(c, t), Up(WithSib(c, c.sib.(red := true)), t));
  }

  /** Lines 276-281: the red nephew on the near side takes the place of the sibling. */
  ghost function SwappedL(w: Tree): Tree
    requires w.Br? && w.l.Br?
  {
    RotR(w.(red := true, l := Black(w.l)))
  }

  lemma SwapTreeL(w: Tree)
    requires w.Br? && RedOk(w) && Balanced(w) && !w.red && IsRed(w.l) && !IsRed(w.r)
    ensures var v := SwappedL(w);
      && v.Br? && RedOk(v) && Balanced(v) && !v.red && IsRed(v.r) && BH(v) == BH(w) && Elems(v) == Elems(w)
  {
    var u := w.(red := true, l := Black(w.l));
    assert Elems(u) == Elems(w) by { assert Elems(u.l) == Elems(w.l); }
    RotRElems(u);
    assert RedOk(w.l) && Balanced(w.l);
    var v := SwappedL(w);
    assert RedOk(v.r) && Balanced(v.r);
  }

  lemma SwapOkL(c: Ctx, t: Tree)
    requires DeleteOk(c, t) && c.Lf? && c.sib.Br? && !IsRed(c.sib) && IsRed(c.sib.l) && !IsRed(c.sib.r)
    ensures var d := WithSib(c, SwappedL(c.sib));
      && DeleteOk(d, t) && !IsRed(d.sib) && d.sib.Br? && IsRed(d.sib.r)
      && Elems(Plug(d, t)) == Elems(Plug(c, t))
  {
    SwapTreeL(c.sib);
    SameElems(c.up, Up(c, t), Up(WithSib(c, SwappedL(c.sib)), t));
  }

  /** Lines 283-287: the sibling takes the place of the parent, and all is well. */
  ghost function SettledL(c: Ctx, t: Tree): Tree
    requires c.Lf? && c.sib.Br?
  {
    Br(Br(t, c.n, c.x, false, c.sib.l), c.sib.n, c.sib.x, c.red, Black(c.sib.r))
  }

  lemma SettleOkL(c: Ctx, t: Tree)
    requires DeleteOk(c, t) && c.Lf? && !IsRed(t) && c.sib.Br? && !IsRed(c.sib) && IsRed(c.sib.r)
    ensures DeleteOk(Top, Plug(c.up, SettledL(c, t)))
    ensures Elems(Plug(c.up, SettledL(c, t))) == Elems(Plug(c, t))
  {
    var w, g := c.sib, SettledL(c, t);
    assert RedOk(w.l) && RedOk(w.r) && Balanced(w.l) && Balanced(w.r);
    PlugRb(c.up, g);
    RotLElems(Up(c, t));
    SameElems(c.up, Up(c, t), RotL(Up(c, t)));
    SameElems(c.up, RotL(Up(c, t)), g);
  }

  /** Lines 293-298: a red sibling moves up. */
  ghost function LiftedR(c: Ctx): Ctx
    requires c.Rt? && c.sib.Br?
  {
    Rt(Rt(c.up, c.sib.l, c.sib.n, c.sib.x, false), c.sib.r, c.n, c.x, true)
  }

  lemma LiftOkR(c: Ctx, t: Tree)
    requires DeleteOk(c, t) && c.Rt? && !IsRed(t)
    ensures c.sib.Br?
    ensures IsRed(c.sib) ==> && DeleteOk(LiftedR(c), t) && !IsRed(c.sib.r) && c.sib.r.Br? && !c.red
                             && Elems(Plug(LiftedR(c), t)) == Elems(Plug(c, t))
  {
    if IsRed(c.sib) {
      assert RedOk(c.sib.l) && RedOk(c.sib.r) && Balanced(c.sib.l) && Balanced(c.sib.r);
      RotRElems(Up(c, t));
      SameElems(c.up, Up(c, t), RotR(Up(c, t)));
      SameElems(c.up, RotR(Up(c, t)), Up(LiftedR(c).up, Up(LiftedR(c), t)));
    }
  }

  /** Lines 300-302: the sibling turns red and the problem moves up. */
  lemma SinkOkR(c: Ctx, t: Tree)
    requires DeleteOk(c, t) && c.Rt? && !IsRed(t) && c.sib.Br? && !IsRed(c.sib)
    requires !IsRed(c.sib.l) && !IsRed(c.sib.r)
    ensures DeleteOk(c.up, Up(WithSib(c, c.sib.(red := true)), t))
    ensures Elems(Plug(c.up, Up(WithSib(c, c.sib.(red := true)), t))) == Elems(Plug(c, t))
  {
    SameElems(c.up, Up(c, t), Up(WithSib(c, c.sib.(red := true)), t));
  }

  /** Lines 305-310: the red nephew on the near side takes the place of the sibling. */
  ghost function SwappedR(w: Tree): Tree
    requires w.Br? && w.r.Br?
  {
    RotL(w.(red := true, r := Black(w.r)))
  }

  lemma SwapTreeR(w: Tree)
    requires w.Br? && RedOk(w) && Balanced(w) && !w.red && IsRed(w.r) && !IsRed(w.l)
    ensures var v := SwappedR(w);
      && v.Br? && RedOk(v) && Balanced(v) && !v.red && IsRed(v.l) && BH(v) == BH(w) && Elems(v) == Elems(w)
  {
    var u := w.(red := true, r := Black(w.r));
    assert Elems(u) == Elems(w) by { assert Elems(u.r) == Elems(w.r); }
    RotLElems(u);
    assert RedOk(w.r) && Balanced(w.r);
    var v := SwappedR(w);
    assert RedOk(v.l) && Balanced(v.l);
  }

  lemma SwapOkR(c: Ctx, t: Tree)
    requires DeleteOk(c, t) && c.Rt? && c.sib.Br? && !IsRed(c.sib) && IsRed(c.sib.r) && !IsRed(c.sib.l)
    ensures var d := WithSib(c, SwappedR(c.sib));
      && DeleteOk(d, t) && !IsRed(d.sib) && d.sib.Br? && IsRed(d.sib.l)
      && Elems(Plug(d, t)) == Elems(Plug(c, t))
  {
    SwapTreeR(c.sib);
    SameElems(c.up, Up(c, t), Up(WithSib(c, SwappedR(c.sib)), t));
  }

  /** Lines 312-316: the sibling takes the place of the parent, and all is well. */
  ghost function SettledR(c: Ctx, t: Tree): Tree
    requires c.Rt? && c.sib.Br?
  {
    Br(Black(c.sib.l), c.sib.n, c.sib.x, c.red, Br(c.sib.r, c.n, c.x, false, t))
  }

  lemma SettleOkR(c: Ctx, t: Tree)
    requires DeleteOk(c, t) && c.Rt? && !IsRed(t) && c.sib.Br? && !IsRed(c.sib) && IsRed(c.sib.l)
    ensures DeleteOk(Top, Plug(c.up, SettledR(c, t)))
    ensures Elems(Plug(c.up, SettledR(c, t))) == Elems(Plug(c, t))
  {
    var w, g := c.sib, SettledR(c, t);
    assert RedOk(w.l) && RedOk(w.r) && Balanced(w.l) && Balanced(w.r);
    PlugRb(c.up, g);
    RotRElems(Up(c, t));
    SameElems(c.up, Up(c, t), RotR(Up(c, t)));
    SameElems(c.up, RotR(Up(c, t)), g);
  }

  /** The loop of the deletion stops at a red node, or gets nearer to the root. */
  ghost function Measure(c: Ctx, t: Tree): nat {
    if IsRed(t) then 0 else Depth(c) + 1
  }

  lemma SameElems(c: Ctx, t: Tree, t': Tree)
    requires Elems(t) == Elems(t')
    ensures Elems(Plug(c, t)) == Elems(Plug(c, t'))
  {
    PlugElems(c, t);
    PlugElems(c, t');
  }

  lemma HangLeafSpells(m: map<Node, Cell>, root: Node, s: Node, c: Ctx, p: Node?, n: Node, x: Item)
    requires Holds(m, root, s, c, Leaf, p) && !c.Top? && n !in m && n != s
    ensures c.n in m && WithHole(m, c, n).Keys == m.Keys
    ensures Holds(WithHole(m, c, n)[n := Cell(x, true, s, s, c.n)], root, s, c, RedLeaf(n, x), p)
  {
    WithHoleSpells(m, c, s, n, s, p);
    InMem(m, c, s, s, p);
    SpellsCFrame(WithHole(m, c, n), WithHole(m, c, n)[n := Cell(x, true, s, s, c.n)], c, n, s, p);
    RootPtrSame(c, s, n);
  }

  lemma {:induction false} InMemT(m: map<Node, Cell>, t: Tree, s: Node, p: Node?)
    requires Spells(m, t, s, p)
    ensures Nodes(t) <= m.Keys
  {
    if t.Br? { InMemT(m, t.l, s, t.n); InMemT(m, t.r, s, t.n); }
  }

  lemma {:induction false} InMem(m: map<Node, Cell>, c: Ctx, h: Node, s: Node, p: Node?)
    requires SpellsC(m, c, h, s, p)
    ensures CNodes(c) <= m.Keys
    decreases c
  {
    if !c.Top? { InMemT(m, c.sib, s, c.n); InMem(m, c.up, c.n, s, p); }
  }

  lemma {:induction false} ElemsSpelled(m: map<Node, Cell>, t: Tree, s: Node, p: Node?, i: nat)
    requires Spells(m, t, s, p) && i < |Elems(t)|
    ensures Elems(t)[i].n in m && m[Elems(t)[i].n].x == Elems(t)[i].x
  {
    var k := |Elems(t.l)|;
    if i < k { ElemsSpelled(m, t.l, s, t.n, i); }
    else if i > k { ElemsSpelled(m, t.r, s, t.n, i - k - 1); }
  }

  // ---------- taking a node out, on cells ----------

  ghost function Compose(rel: Ctx, outer: Ctx): Ctx {
    match rel
    case Top => outer
    case Lf(up, n, x, red, sib) => Lf(Compose(up, outer), n, x, red, sib)
    case Rt(up, sib, n, x, red) => Rt(Compose(up, outer), sib, n, x, red)
  }

  lemma {:induction false} ComposePlug(rel: Ctx, outer: Ctx, t: Tree)
    ensures Plug(Compose(rel, outer), t) == Plug(outer, Plug(rel, t))
    decreases rel
  {
    if !rel.Top? { ComposePlug(rel.up, outer, Up(rel, t)); }
  }

  lemma {:induction false} Locate(c: Ctx, t: Tree, n: Node) returns (d: Ctx, u: Tree)
    requires n in Nodes(t)
    ensures Plug(d, u) == Plug(c, t) && u.Br? && u.n == n
    decreases t
  {
    if n == t.n { d, u := c, t; }
    else if n in Nodes(t.l) { d, u := Locate(Lf(c, t.n, t.x, t.red, t.r), t.l, n); }
    else { d, u := Locate(Rt(c, t.l, t.n, t.x, t.red), t.r, n); }
  }

  /** The path to the leftmost node of a subtree. */
  ghost predicate AllLf(rel: Ctx) {
    rel.Top? || (rel.Lf? && AllLf(rel.up))
  }

  /** A node with at most one child can be bypassed by that child. */
  ghost predicate OnlyChild(u: Tree, ch: Tree) {
    u.Br? && ((u.l.Leaf? && ch == u.r) || (u.r.Leaf? && ch == u.l))
  }

  lemma BypassSpells(m: map<Node, Cell>, root: Node, s: Node, c: Ctx, u: Tree, ch: Tree, p: Node?)
    requires Holds(m, root, s, c, u, p) && !c.Top? && OnlyChild(u, ch)
    ensures c.n in m && (ch.Br? ==> ch.n in m)
    ensures Holds(WithParent(WithHole(m, c, Ptr(ch, s)), ch, c.n) - {u.n}, root, s, c, ch, p)
    ensures Ptr(ch, s) != u.n
  {
    assert Nodes(u) == {u.n} + Nodes(ch);
    assert Distinct(ch) && u.n !in Nodes(ch) && Spells(m, ch, s, u.n);
    var m1 := WithHole(m, c, Ptr(ch, s));
    WithHoleSpells(m, c, u.n, Ptr(ch, s), s, p);
    SpellsFrame(m, m1, ch, s, u.n);
    var m2 := WithParent(m1, ch, c.n);
    WithParentSpells(m1, ch, s, u.n, c.n);
    SpellsCFrame(m1, m2, c, Ptr(ch, s), s, p);
    SpellsFrame(m2, m2 - {u.n}, ch, s, c.n);
    SpellsCFrame(m2, m2 - {u.n}, c, Ptr(ch, s), s, p);
    RootPtrSame(c, u.n, Ptr(ch, s));
  }

  /** Bypassing the root: what the new root has as its parent does not matter. */
  lemma BypassRoot(m: map<Node, Cell>, root: Node, s: Node, u: Tree, ch: Tree, p: Node?)
    requires Holds(m, root, s, Top, u, p) && OnlyChild(u, ch)
    ensures Holds(m - {u.n}, Ptr(ch, s), s, Top, ch, u.n)
    ensures Nodes(Black(ch)) == Nodes(u) - {u.n} && u.n != s && u.n !in Nodes(ch)
  {
    assert Nodes(u) == {u.n} + Nodes(ch);
    assert Distinct(ch) && u.n !in Nodes(ch) && Spells(m, ch, s, u.n);
    SpellsFrame(m, m - {u.n}, ch, s, u.n);
  }

  /** Lines 202-220 when the node has two children and `subst` on top of `u`, the leftmost node
      of the right subtree, is bypassed. */
  ghost function Bypassed(m: map<Node, Cell>, s: Node, t: Tree, rel: Ctx, u: Tree): map<Node, Cell>
    requires t.Br? && u.Br? && t.n in m && (!rel.Top? ==> rel.n in m) && (u.r.Br? ==> u.r.n in m)
  {
    var c := Compose(rel, Rt(Top, t.l, t.n, t.x, t.red));
    WithParent(WithHole(m, c, Ptr(u.r, s)), u.r, if rel.Top? then u.n else rel.n)
  }

  ghost predicate MinOfRight(t: Tree, rel: Ctx, u: Tree) {
    t.Br? && u.Br? && u.l.Leaf? && AllLf(rel) && Plug(rel, u) == t.r
  }

  lemma MinApart(c: Ctx, t: Tree, s: Node, rel: Ctx, u: Tree)
    requires Apart(c, t, s) && MinOfRight(t, rel, u)
    ensures var r := Plug(rel, u.r);
      && Nodes(t.r) == Nodes(r) + {u.n} && u.n !in Nodes(r) && Distinct(r) && t.n !in Nodes(r)
      && Apart(c, Br(t.l, u.n, u.x, t.red, r), s)
      && u.n !in Nodes(t.l) && u.n != t.n && u.n !in CNodes(c) && u.n != s
    ensures Apart(rel, u, s) && Nodes(u) == {u.n} + Nodes(u.r) && Nodes(u.r) !! CNodes(rel) && Distinct(u.r)
    ensures CNodes(rel) <= Nodes(t.r) && Nodes(u.r) <= Nodes(t.r) && Nodes(t.r) !! CNodes(c) && Nodes(t.r) !! Nodes(t.l)
  {
    PlugNodes(rel, u);
    PlugNodes(rel, u.r);
    assert Nodes(t) == {t.n} + Nodes(t.l) + Nodes(t.r);
  }

  lemma BypassedSpells(m: map<Node, Cell>, root: Node, s: Node, c: Ctx, t: Tree, p: Node?, rel: Ctx, u: Tree)
    requires Holds(m, root, s, c, t, p) && MinOfRight(t, rel, u)
    ensures t.n in m && u.n in m && (!rel.Top? ==> rel.n in m) && (u.r.Br? ==> u.r.n in m)
    ensures var m2, r := Bypassed(m, s, t, rel, u), Plug(rel, u.r);
      && Spells(m2, r, s, if rel.Top? then u.n else t.n)
      && Spells(m2, t.l, s, t.n) && SpellsC(m2, c, t.n, s, p) && m2.Keys == m.Keys
      && m2[t.n] == Cell(t.x, t.red, Ptr(t.l, s), Ptr(r, s), Above(c, p)) && m2[u.n] == m[u.n]
  {
    MinApart(c, t, s, rel, u);
    PlugSpells(m, rel, u, s, t.n);
    if rel.Top? { BypassedNear(m, s, c, t, p, u); }
    else { BypassedFar(m, s, c, t, p, rel, u); }
  }

  lemma BypassedNear(m: map<Node, Cell>, s: Node, c: Ctx, t: Tree, p: Node?, u: Tree)
    requires Apart(c, t, s) && MinOfRight(t, Top, u) && Spells(m, t, s, Above(c, p)) && SpellsC(m, c, t.n, s, p)
    ensures u.n in m && (u.r.Br? ==> u.r.n in m)
    ensures var m2 := Bypassed(m, s, t, Top, u);
      && Spells(m2, u.r, s, u.n)
      && Spells(m2, t.l, s, t.n) && SpellsC(m2, c, t.n, s, p) && m2.Keys == m.Keys
      && m2[t.n] == Cell(t.x, t.red, Ptr(t.l, s), Ptr(u.r, s), Above(c, p)) && m2[u.n] == m[u.n]
  {
    MinApart(c, t, s, Top, u);
    assert Spells(m, u, s, t.n) && Spells(m, u.r, s, u.n);
    var m1, m2 := m[t.n := m[t.n].(right := Ptr(u.r, s))], Bypassed(m, s, t, Top, u);
    SpellsFrame(m, m1, u.r, s, u.n);
    WithParentSpells(m1, u.r, s, u.n, u.n);
    SpellsFrame(m, m2, t.l, s, t.n);
    SpellsCFrame(m, m2, c, t.n, s, p);
  }

  lemma BypassedFar(m: map<Node, Cell>, s: Node, c: Ctx, t: Tree, p: Node?, rel: Ctx, u: Tree)
    requires Apart(c, t, s) && MinOfRight(t, rel, u) && !rel.Top?
    requires Spells(m, t, s, Above(c, p)) && SpellsC(m, c, t.n, s, p)
    ensures u.n in m && rel.n in m && (u.r.Br? ==> u.r.n in m)
    ensures var m2, r := Bypassed(m, s, t, rel, u), Plug(rel, u.r);
      && Spells(m2, r, s, t.n)
      && Spells(m2, t.l, s, t.n) && SpellsC(m2, c, t.n, s, p) && m2.Keys == m.Keys
      && m2[t.n] == Cell(t.x, t.red, Ptr(t.l, s), Ptr(r, s), Above(c, p)) && m2[u.n] == m[u.n]
  {
    MinApart(c, t, s, rel, u);
    PlugSpells(m, rel, u, s, t.n);
    assert Spells(m, u.r, s, u.n);
    var h := Ptr(u.r, s);
    var m1, m2 := WithHole(m, rel, h), Bypassed(m, s, t, rel, u);
    WithHoleSpells(m, rel, u.n, h, s, t.n);
    SpellsFrame(m, m1, u.r, s, u.n);
    WithParentSpells(m1, u.r, s, u.n, rel.n);
    SpellsCFrame(m1, m2, rel, h, s, t.n);
    PlugSpells(m2, rel, u.r, s, t.n);
    RootPtrSame(rel, u.n, h);
    SpellsFrame(m, m2, t.l, s, t.n);
    SpellsCFrame(m, m2, c, t.n, s, p);
  }

  /** Lines 222-251: `subst` takes the place of the node on top of `t`. */
  ghost function Replaced(m: map<Node, Cell>, c: Ctx, t: Tree, r: Tree, n: Node): map<Node, Cell>
    requires t.Br? && t.n in m && n in m && (!c.Top? ==> c.n in m) && (t.l.Br? ==> t.l.n in m) && (r.Br? ==> r.n in m)
  {
    var m3 := m[n := Cell(m[n].x, m[t.n].red, m[t.n].left, m[t.n].right, m[t.n].parent)];
    WithParent(WithParent(WithHole(m3, c, n), t.l, n), r, n) - {t.n}
  }

  lemma ReplacedSpells(m: map<Node, Cell>, root: Node, s: Node, c: Ctx, t: Tree, p: Node?, q: Node?, r: Tree, n: Node, x: Item)
    requires t.Br? && Apart(c, t, s) && Apart(c, Br(t.l, n, x, t.red, r), s) && t.n !in Nodes(r) && t.n != n
    requires Spells(m, r, s, q) && Spells(m, t.l, s, t.n) && SpellsC(m, c, t.n, s, p)
    requires t.n in m && m[t.n] == Cell(t.x, t.red, Ptr(t.l, s), Ptr(r, s), Above(c, p)) && n in m && m[n].x == x
    requires root == RootPtr(c, t.n)
    ensures (!c.Top? ==> c.n in m) && (t.l.Br? ==> t.l.n in m) && (r.Br? ==> r.n in m)
    ensures Holds(Replaced(m, c, t, r, n), if c.Top? then n else root, s, c, Br(t.l, n, x, t.red, r), p)
  {
    var g := Br(t.l, n, x, t.red, r);
    assert Nodes(g) == {n} + Nodes(t.l) + Nodes(r) && Distinct(t.l) && Distinct(r);
    assert Nodes(t) == {t.n} + Nodes(t.l) + Nodes(t.r);
    var m3 := m[n := Cell(x, t.red, Ptr(t.l, s), Ptr(r, s), Above(c, p))];
    SpellsFrame(m, m3, t.l, s, t.n);
    SpellsFrame(m, m3, r, s, q);
    SpellsCFrame(m, m3, c, t.n, s, p);
    PlacedSpells(m3, s, c, t.n, t.l, p, q, r, n);
    if !c.Top? { RootPtrSame(c, t.n, n); }
  }

  /** Lines 227-251, on cells, once the node `n` holds what the node `old_n` held. */
  lemma PlacedSpells(m: map<Node, Cell>, s: Node, c: Ctx, old_n: Node, l: Tree, p: Node?, q: Node?, r: Tree, n: Node)
    requires Nodes(l) !! Nodes(r) && Distinct(l) && Distinct(r) && Nodes(l) !! CNodes(c) && Nodes(r) !! CNodes(c) && DistinctC(c)
    requires old_n !in Nodes(l) && old_n !in Nodes(r) && old_n !in CNodes(c) && old_n != n
    requires n in m && n !in Nodes(l) && n !in Nodes(r) && n !in CNodes(c)
    requires Spells(m, l, s, old_n) && Spells(m, r, s, q) && SpellsC(m, c, old_n, s, p)
    ensures (!c.Top? ==> c.n in m) && (l.Br? ==> l.n in m) && (r.Br? ==> r.n in m)
    ensures var m' := WithParent(WithParent(WithHole(m, c, n), l, n), r, n) - {old_n};
      Spells(m', l, s, n) && Spells(m', r, s, n) && SpellsC(m', c, n, s, p) && n in m' && m'[n] == m[n]
  {
    var m4 := WithHole(m, c, n);
    WithHoleSpells(m, c, old_n, n, s, p);
    assert Spells(m4, l, s, old_n) by { SpellsFrame(m, m4, l, s, old_n); }
    assert Spells(m4, r, s, q) by { SpellsFrame(m, m4, r, s, q); }
    AdoptedKids(m4, s, c, p, old_n, l, q, r, n);
    DropAll(WithParent(WithParent(m4, l, n), r, n), s, c, n, l, r, p, old_n);
  }

  lemma DropAll(m: map<Node, Cell>, s: Node, c: Ctx, n: Node, l: Tree, r: Tree, p: Node?, old_n: Node)
    requires Spells(m, l, s, n) && Spells(m, r, s, n) && SpellsC(m, c, n, s, p)
    requires old_n !in Nodes(l) && old_n !in Nodes(r) && old_n !in CNodes(c)
    ensures Spells(m - {old_n}, l, s, n) && Spells(m - {old_n}, r, s, n) && SpellsC(m - {old_n}, c, n, s, p)
  {
    SpellsFrame(m, m - {old_n}, l, s, n);
    SpellsFrame(m, m - {old_n}, r, s, n);
    SpellsCFrame(m, m - {old_n}, c, n, s, p);
  }

  lemma AdoptedKids(m: map<Node, Cell>, s: Node, c: Ctx, p: Node?, old_n: Node, l: Tree, q: Node?, r: Tree, n: Node)
    requires Nodes(l) !! Nodes(r) && Distinct(l) && Distinct(r) && Nodes(l) !! CNodes(c) && Nodes(r) !! CNodes(c)
    requires Spells(m, l, s, old_n) && Spells(m, r, s, q) && SpellsC(m, c, n, s, p)
    ensures (l.Br? ==> l.n in m) && (r.Br? ==> r.n in m)
    ensures var m6 := WithParent(WithParent(m, l, n), r, n);
      && Spells(m6, l, s, n) && Spells(m6, r, s, n) && SpellsC(m6, c, n, s, p)
      && (n in m && n !in Nodes(l) && n !in Nodes(r) ==> m6[n] == m[n])
  {
    var m5 := WithParent(m, l, n);
    WithParentSpells(m, l, s, old_n, n);
    SpellsFrame(m, m5, r, s, q);
    var m6 := WithParent(m5, r, n);
    WithParentSpells(m5, r, s, q, n);
    SpellsFrame(m5, m6, l, s, n);
    SpellsCFrame(m, m6, c, n, s, p);
  }

  lemma InnerCells(m: map<Node, Cell>, root: Node, s: Node, c: Ctx, t: Tree, p: Node?, rel: Ctx, u: Tree)
    requires Holds(m, root, s, c, t, p) && s !in m && MinOfRight(t, rel, u)
    ensures t.n in m && u.n in m && (!rel.Top? ==> rel.n in m) && (u.r.Br? ==> u.r.n in m)
    ensures var m2, r := Bypassed(m, s, t, rel, u), Plug(rel, u.r);
      && m2.Keys == m.Keys && t.n != u.n
      && m2[t.n] == Cell(t.x, t.red, Ptr(t.l, s), Ptr(r, s), Above(c, p))
      && (!c.Top? ==> c.n in m && c.n !in {t.n, u.n})
      && (t.l.Br? ==> t.l.n in m && t.l.n !in {t.n, u.n}) && (r.Br? ==> r.n in m && r.n !in {t.n, u.n})
      && (c.Top? <==> t.n == root)
      && (!c.Top? ==> (t.n == m2[c.n].left <==> c.Lf?) && (t.l.Br? ==> t.l.n != c.n) && (r.Br? ==> r.n != c.n))
      && Replaced(m2, c, t, r, u.n).Keys == m.Keys - {t.n}
      && Holds(Replaced(m2, c, t, r, u.n), if c.Top? then u.n else root, s, c, Br(t.l, u.n, u.x, t.red, r), p)
  {
    hide Bypassed, WithHole, WithParent;
    var r := Plug(rel, u.r);
    MinApart(c, t, s, rel, u);
    BypassedSpells(m, root, s, c, t, p, rel, u);
    PlugSpells(m, rel, u, s, t.n);
    ReplacedSpells(Bypassed(m, s, t, rel, u), root, s, c, t, p, if rel.Top? then u.n else t.n, r, u.n, u.x);
    BypassedAbove(m, root, s, c, t, p, rel, u);
    ReplacedKeys(Bypassed(m, s, t, rel, u), c, t, r, u.n);
    if !c.Top? { RootInside(c, t.n); }
  }

  lemma ReplacedKeys(m: map<Node, Cell>, c: Ctx, t: Tree, r: Tree, n: Node)
    requires t.Br? && t.n in m && n in m && (!c.Top? ==> c.n in m) && (t.l.Br? ==> t.l.n in m) && (r.Br? ==> r.n in m)
    ensures Replaced(m, c, t, r, n).Keys == m.Keys - {t.n}
  {
  }

  lemma BypassedAbove(m: map<Node, Cell>, root: Node, s: Node, c: Ctx, t: Tree, p: Node?, rel: Ctx, u: Tree)
    requires Holds(m, root, s, c, t, p) && MinOfRight(t, rel, u) && s !in m
    requires t.n in m && u.n in m && (!rel.Top? ==> rel.n in m) && (u.r.Br? ==> u.r.n in m)
    requires SpellsC(Bypassed(m, s, t, rel, u), c, t.n, s, p)
    ensures !c.Top? ==> c.n in m && (t.n == Bypassed(m, s, t, rel, u)[c.n].left <==> c.Lf?)
  {
  }

  lemma TopPlug(t: Tree)
    ensures Plug(Top, t) == t
  {
  }

  lemma BypassNodes(c: Ctx, u: Tree, ch: Tree, s: Node)
    requires Apart(c, u, s) && OnlyChild(u, ch)
    ensures Nodes(Plug(c, ch)) == Nodes(Plug(c, u)) - {u.n}
  {
    PlugNodes(c, u);
    PlugNodes(c, ch);
  }

  lemma ReplaceNodes(c: Ctx, t: Tree, rel: Ctx, u: Tree, s: Node)
    requires Apart(c, t, s) && MinOfRight(t, rel, u)
    ensures Nodes(Plug(c, Br(t.l, u.n, u.x, t.red, Plug(rel, u.r)))) == Nodes(Plug(c, t)) - {t.n}
  {
    MinApart(c, t, s, rel, u);
    PlugNodes(c, t);
    PlugNodes(c, Br(t.l, u.n, u.x, t.red, Plug(rel, u.r)));
  }

  lemma StillSorted(o: Order, es: seq<Elem>, i: nat)
    requires Sorted(o, es) && i < |es|
    ensures Sorted(o, Without(es, i))
  {
  }

  ghost function Without(es: seq<Elem>, i: nat): seq<Elem>
    requires i < |es|
  {
    es[..i] + es[i + 1..]
  }

  /** After the node on top of `u` is bypassed. */
  lemma BypassOk(c: Ctx, u: Tree, ch: Tree)
    requires RbOk(Plug(c, u)) && OnlyChild(u, ch)
    ensures if u.red then RbOk(Plug(c, ch)) else DeleteOk(c, ch)
    ensures c.Top? ==> RbOk(Black(ch)) && Elems(Black(ch)) == Elems(ch)
  {
    hide Elems, CtxBal, CtxRedOk, Balanced, RedOk, BH, Black, Plug, OnlyChild;
    PlugRb(c, u);
    PlugRb(c, ch);
    ChildOk(u, ch);
    BlackElems(ch);
  }

  lemma ChildOk(u: Tree, ch: Tree)
    requires OnlyChild(u, ch) && Balanced(u) && RedOk(u)
    ensures Balanced(ch) && RedOk(ch) && Balanced(Black(ch)) && RedOk(Black(ch)) && !IsRed(Black(ch))
    ensures BH(ch) == 0 && BH(u) == (if u.red then 0 else 1) && (u.red ==> !IsRed(ch))
  {
  }

  lemma BrElems(t: Tree)
    requires t.Br?
    ensures Elems(t) == Elems(t.l) + [Elem(t.n, t.x)] + Elems(t.r)
  {
  }

  lemma LeafElems()
    ensures Elems(Leaf) == []
  {
  }

  lemma ChildElems(u: Tree, ch: Tree)
    requires OnlyChild(u, ch)
    ensures Elems(u) == Elems(u.l) + [Elem(u.n, u.x)] + Elems(u.r)
    ensures Elems(ch) == Elems(u.l) + Elems(u.r)
  {
    assert ch.Leaf? ==> Elems(ch) == [];
  }

  lemma BlackElems(t: Tree)
    ensures Elems(Black(t)) == Elems(t)
  {
  }

  lemma CutOut(a: seq<Elem>, l: seq<Elem>, e: Elem, r: seq<Elem>, b: seq<Elem>)
    ensures var es, i := a + (l + [e] + r) + b, |a| + |l|;
      i < |es| && es[i] == e && Without(es, i) == a + (l + r) + b
  {
    var es, i := a + (l + [e] + r) + b, |a| + |l|;
    assert es == (a + l) + [e] + (r + b);
    assert es[..i] == a + l && es[i + 1..] == r + b;
    assert (a + l) + (r + b) == a + (l + r) + b;
  }

  lemma BypassElems(c: Ctx, u: Tree, ch: Tree)
    requires OnlyChild(u, ch)
    ensures var es, i := Elems(Plug(c, u)), |Pre(c)| + |Elems(u.l)|;
      i < |es| && es[i] == Elem(u.n, u.x) && Elems(Plug(c, ch)) == Without(es, i)
  {
    hide Plug, Pre, Post, Without, Elems;
    PlugElems(c, u);
    PlugElems(c, ch);
    ChildElems(u, ch);
    CutOut(Pre(c), Elems(u.l), Elem(u.n, u.x), Elems(u.r), Post(c));
  }

  /** Two contexts of the same colours are as good as each other. */
  lemma {:induction false} SameColours(rel: Ctx, o: Ctx, o': Ctx, h: nat)
    requires o.Rt? && o'.Rt? && o.up == o'.up && o.sib == o'.sib && o.red == o'.red
    ensures CtxBal(Compose(rel, o), h) == CtxBal(Compose(rel, o'), h)
    ensures CtxRedOk(Compose(rel, o)) == CtxRedOk(Compose(rel, o'))
    ensures RedFits(Compose(rel, o)) == RedFits(Compose(rel, o'))
    decreases rel
  {
    if !rel.Top? { SameColours(rel.up, o, o', h + if rel.red then 0 else 1); }
  }

  /** The context of the gap that `subst` leaves, once it has taken the place of the node. */
  ghost function GapCtx(c: Ctx, t: Tree, rel: Ctx, u: Tree): Ctx
    requires t.Br? && u.Br?
  {
    Compose(rel, Rt(c, t.l, u.n, u.x, t.red))
  }

  lemma ReplaceOk(c: Ctx, t: Tree, rel: Ctx, u: Tree)
    requires RbOk(Plug(c, t)) && MinOfRight(t, rel, u)
    ensures if u.red then RbOk(Plug(GapCtx(c, t, rel, u), u.r)) else DeleteOk(GapCtx(c, t, rel, u), u.r)
    ensures Plug(GapCtx(c, t, rel, u), u.r) == Plug(c, Br(t.l, u.n, u.x, t.red, Plug(rel, u.r)))
    ensures !GapCtx(c, t, rel, u).Top?
  {
    var o, o' := Rt(c, t.l, t.n, t.x, t.red), Rt(c, t.l, u.n, u.x, t.red);
    ComposePlug(rel, o, u);
    ComposePlug(rel, o', u.r);
    BypassOk(Compose(rel, o), u, u.r);
    PlugRb(Compose(rel, o), u.r);
    PlugRb(Compose(rel, o'), u.r);
    SameColours(rel, o, o', BH(u.r));
    SameColours(rel, o, o', BH(u.r) + 1);
  }

  lemma {:induction false} NoPre(rel: Ctx)
    requires AllLf(rel)
    ensures Pre(rel) == []
    decreases rel
  {
    if !rel.Top? { NoPre(rel.up); }
  }

  lemma ReplaceElems(c: Ctx, t: Tree, rel: Ctx, u: Tree)
    requires MinOfRight(t, rel, u)
    ensures var es, i := Elems(Plug(c, t)), |Pre(c)| + |Elems(t.l)|;
      && i < |es| && es[i] == Elem(t.n, t.x)
      && Elems(Plug(c, Br(t.l, u.n, u.x, t.red, Plug(rel, u.r)))) == Without(es, i)
  {
    hide Plug, Pre, Post, Without, Elems;
    var r := Plug(rel, u.r);
    MinElems(t, rel, u);
    var g := Br(t.l, u.n, u.x, t.red, r);
    BrElems(t);
    BrElems(g);
    assert Elems(t.l) + [Elem(u.n, u.x)] + Elems(r) == Elems(t.l) + ([Elem(u.n, u.x)] + Elems(r));
    PlugElems(c, t);
    PlugElems(c, g);
    CutOut(Pre(c), Elems(t.l), Elem(t.n, t.x), Elems(t.r), Post(c));
  }

  lemma MinElems(t: Tree, rel: Ctx, u: Tree)
    requires MinOfRight(t, rel, u)
    ensures t.Br? && u.Br? && Elems(t.r) == [Elem(u.n, u.x)] + Elems(Plug(rel, u.r))
  {
    hide Plug, Pre, Post, Elems;
    NoPre(rel);
    PlugElems(rel, u);
    PlugElems(rel, u.r);
    BrElems(u);
    LeafElems();
  }

  lemma RootPtrSame(c: Ctx, h: Node, h': Node)
    requires !c.Top?
    ensures RootPtr(c, h) == RootPtr(c, h')
  {
  }

  class RbTree {
    var root: Node
    const sentinel: Node
    const order: Order
    ghost var mem: map<Node, Cell>
    ghost var shape: Tree
    ghost var stale: Node?  // whatever the parent pointer of the root holds

    ghost predicate At(c: Ctx, t: Tree)
      reads this, sentinel, mem.Keys
    {
      Agree(mem) && sentinel !in mem && !sentinel.red && Holds(mem, root, sentinel, c, t, stale)
    }

    ghost predicate Valid()
      reads this, sentinel, mem.Keys
    {
      At(Top, shape) && mem.Keys == Nodes(shape) && RbOk(shape)
    }

    /** After any insertions and deletions a tree of n nodes is at most 2 * log2(n + 1) high. */
    lemma ValidHeight()
      requires Valid()
      ensures Bits.Pow2((Height(shape) + 1) / 2) <= |Elems(shape)| + 1
    {
      HeightBound(shape);
    }

    /** `ngx_rbtree_init`. */
    constructor (s: Node, order: Order)
      requires !s.red
      ensures Valid() && shape == Leaf && sentinel == s && this.order == order
    {
      root, sentinel := s, s;
      this.order := order;
      mem, shape, stale := map[], Leaf, null;
    }

    /** The store `n->left = v`. */
    method SetLeft(n: Node, v: Node?)
      requires Agree(mem) && n in mem
      modifies this`mem, n`left
      ensures Agree(mem) && mem == old(mem)[n := old(mem)[n].(left := v)]
    {
      n.left := v;
      mem := mem[n := mem[n].(left := v)];
    }

    /** The store `n->right = v`. */
    method SetRight(n: Node, v: Node?)
      requires Agree(mem) && n in mem
      modifies this`mem, n`right
      ensures Agree(mem) && mem == old(mem)[n := old(mem)[n].(right := v)]
    {
      n.right := v;
      mem := mem[n := mem[n].(right := v)];
    }

    /** The store `n->parent = v`. */
    method SetParent(n: Node, v: Node?)
      requires Agree(mem) && n in mem
      modifies this`mem, n`parent
      ensures Agree(mem) && mem == old(mem)[n := old(mem)[n].(parent := v)]
    {
      n.parent := v;
      mem := mem[n := mem[n].(parent := v)];
    }

    /** `ngx_rbtree_left_rotate`, pointer by pointer. */
    method LinkLeft(node: Node)
      requires Agree(mem) && sentinel !in mem
      requires node in mem && node.right != null && node.right in mem && node.right != node
      requires node.right.left != null && node.right.left != node && node.right.left != node.right
      requires node.right.left != sentinel ==> node.right.left in mem
      requires node != root ==> node.parent != null && node.parent in mem
      requires node != root ==> node.parent !in {node, node.right, node.right.left}
      modifies this`root, this`mem, mem.Keys
      ensures Agree(mem)
      ensures mem == LinkedL(old(mem), node, sentinel, old(root))
      ensures root == if old(root) == node then old(node.right) else old(root)
    {
      var temp := node.right;
      SetRight(node, temp.left);
      if temp.left != sentinel {
        SetParent(temp.left, node);
      }
      SetParent(temp, node.parent);
      if node == root {
        root := temp;
      } else if node == node.parent.left {
        SetLeft(node.parent, temp);
      } else {
        SetRight(node.parent, temp);
      }
      assert temp == old(node.right) && node.parent == old(node.parent);
      SetLeft(temp, node);
      SetParent(node, temp);
    }

    /** What a left rotation means for the tree. */
    method RotateLeft(node: Node, ghost c: Ctx, ghost t: Tree)
      requires At(c, t) && t.Br? && t.n == node && t.r.Br?
      modifies this`root, this`mem, mem.Keys
      ensures At(c, RotL(t)) && mem.Keys == old(mem.Keys)
    {
      RotLSpells(mem, root, sentinel, c, t, stale);
      RotLLinked(mem, root, sentinel, c, t, stale);
      hide Holds, RotLMem, LinkedL;
      LinkLeft(node);
    }

    /** `ngx_rbtree_right_rotate`, pointer by pointer. */
    method LinkRight(node: Node)
      requires Agree(mem) && sentinel !in mem
      requires node in mem && node.left != null && node.left in mem && node.left != node
      requires node.left.right != null && node.left.right != node && node.left.right != node.left
      requires node.left.right != sentinel ==> node.left.right in mem
      requires node != root ==> node.parent != null && node.parent in mem
      requires node != root ==> node.parent !in {node, node.left, node.left.right}
      modifies this`root, this`mem, mem.Keys
      ensures Agree(mem)
      ensures mem == LinkedR(old(mem), node, sentinel, old(root))
      ensures root == if old(root) == node then old(node.left) else old(root)
    {
      var temp := node.left;
      SetLeft(node, temp.right);
      if temp.right != sentinel {
        SetParent(temp.right, node);
      }
      SetParent(temp, node.parent);
      if node == root {
        root := temp;
      } else if node == node.parent.right {
        SetRight(node.parent, temp);
      } else {
        SetLeft(node.parent, temp);
      }
      assert temp == old(node.left) && node.parent == old(node.parent);
      SetRight(temp, node);
      SetParent(node, temp);
    }

    /** What a right rotation means for the tree. */
    method RotateRight(node: Node, ghost c: Ctx, ghost t: Tree)
      requires At(c, t) && t.Br? && t.n == node && t.l.Br?
      modifies this`root, this`mem, mem.Keys
      ensures At(c, RotR(t)) && mem.Keys == old(mem.Keys)
    {
      RotRSpells(mem, root, sentinel, c, t, stale);
      RotRLinked(mem, root, sentinel, c, t, stale);
      hide Holds, RotRMem, LinkedR;
      LinkRight(node);
    }

    /** `ngx_rbt_red` and `ngx_rbt_black` on a node of the tree. */
    method Paint(node: Node, red: bool, ghost c: Ctx, ghost t: Tree)
      requires At(c, t) && t.Br? && t.n == node
      modifies this`mem, node`red
      ensures At(c, t.(red := red)) && mem.Keys == old(mem.Keys)
    {
      PaintSpells(mem, root, sentinel, c, t, stale, red);
      node.red := red;
      mem := mem[node := mem[node].(red := red)];
    }

    /** One level up, and one level down. */
    lemma Climb(c: Ctx, t: Tree)
      requires At(c, t) && !c.Top?
      ensures At(c.up, Up(c, t)) && Plug(c.up, Up(c, t)) == Plug(c, t)
      ensures c.n in mem && (t.Br? ==> t.n.parent == c.n)
    {
      Focus(mem, root, sentinel, c, t, stale);
      Focus(mem, root, sentinel, c.up, Up(c, t), stale);
    }

    /** What can be read at the top of the tree in focus. */
    lemma TopReads(c: Ctx, t: Tree)
      requires At(c, t) && t.Br?
      ensures ItemOf(t.n) == t.x && t.n.left == Ptr(t.l, sentinel) && t.n.right == Ptr(t.r, sentinel) && t.n.red == t.red
    {
    }

    lemma TopInside(c: Ctx, t: Tree)
      requires At(c, t)
      ensures if t.Br? then t.n in mem && t.n != sentinel else Ptr(t, sentinel) == sentinel
    {
    }

    /** The in-order sequence tells what the nodes hold. */
    lemma ItemsHeld(t: Tree, i: nat)
      requires At(Top, t) && i < |Elems(t)|
      ensures Elems(t)[i].n in mem && ItemOf(Elems(t)[i].n) == Elems(t)[i].x
    {
      ElemsSpelled(mem, t, sentinel, stale, i);
    }

    lemma RefocusTop(c: Ctx, t: Tree)
      requires At(c, t)
      ensures At(Top, Plug(c, t)) && root == Ptr(Plug(c, t), sentinel)
      ensures Plug(c, t).Br? ==> root in mem
    {
      Focus(mem, root, sentinel, c, t, stale);
    }

    lemma ParentsLead(c: Ctx, t: Tree)
      requires At(c, t) && t.Br? && !c.Top?
      ensures c.n in mem && t.n.parent == c.n
      ensures !c.up.Top? ==> c.up.n in mem && c.n.parent == c.up.n
    {
      assert SpellsC(mem, c.up, c.n, sentinel, stale);
    }

    lemma Dive(c: Ctx, t: Tree)
      requires At(c, t) && t.Br?
      ensures At(Lf(c, t.n, t.x, t.red, t.r), t.l) && At(Rt(c, t.l, t.n, t.x, t.red), t.r)
      ensures (t.l.Br? ==> t.l.n in mem) && (t.r.Br? ==> t.r.n in mem)
    {
      Focus(mem, root, sentinel, c, t, stale);
      Focus(mem, root, sentinel, Lf(c, t.n, t.x, t.red, t.r), t.l, stale);
      Focus(mem, root, sentinel, Rt(c, t.l, t.n, t.x, t.red), t.r, stale);
    }

    // ---------- insertion ----------

    /** Which tests of the code go which way. */
    lemma Sides(c: Ctx, t: Tree)
      requires At(c, t)
      ensures c.Top? <==> root == Ptr(t, sentinel)
      ensures !c.Top? ==>
        && c.n.red == c.red && c.n in mem
        && (if c.Lf? then c.n.left == Ptr(t, sentinel) && c.n.right == Ptr(c.sib, sentinel)
            else c.n.right == Ptr(t, sentinel) && c.n.left == Ptr(c.sib, sentinel))
        && (t.Br? || c.sib.Br? ==> Ptr(t, sentinel) != Ptr(c.sib, sentinel))
        && Ptr(c.sib, sentinel).red == IsRed(c.sib)
      ensures Ptr(t, sentinel).red == IsRed(t)
    {
      if !c.Top? { RootInside(c, Ptr(t, sentinel)); }
      assert !c.Top? ==> Spells(mem, c.sib, sentinel, c.n);
    }

    /** Lines 52-58: the uncle is red. */
    method RecolorLeft(node: Node, temp: Node, ghost c: Ctx, ghost t: Tree)
      requires At(c, t) && t.Br? && t.n == node && !c.Top? && c.up.Lf? && c.up.sib.Br? && temp == c.up.sib.n
      modifies this`mem, mem.Keys
      ensures At(c.up.up, Recolored(c, t)) && mem.Keys == old(mem.Keys)
      ensures node.parent == c.n && c.n.parent == c.up.n
    {
      hide Holds, Agree;
      ghost var p, u := Up(c, t), c.up.up;
      ParentsLead(c, t);
      Climb(c, t);
      Paint(node.parent, false, c.up, p);
      p := p.(red := false);
      Climb(c.up, p);
      Dive(u, Up(c.up, p));
      Paint(temp, false, Rt(u, p, c.up.n, c.up.x, c.up.red), c.up.sib);
      Climb(Rt(u, p, c.up.n, c.up.x, c.up.red), c.up.sib.(red := false));
      Paint(node.parent.parent, true, u, Br(p, c.up.n, c.up.x, c.up.red, c.up.sib.(red := false)));
    }

    /** Lines 72-78: the uncle is red. */
    method RecolorRight(node: Node, temp: Node, ghost c: Ctx, ghost t: Tree)
      requires At(c, t) && t.Br? && t.n == node && !c.Top? && c.up.Rt? && c.up.sib.Br? && temp == c.up.sib.n
      modifies this`mem, mem.Keys
      ensures At(c.up.up, Recolored(c, t)) && mem.Keys == old(mem.Keys)
      ensures node.parent == c.n && c.n.parent == c.up.n
    {
      hide Holds, Agree;
      ghost var p, u := Up(c, t), c.up.up;
      ParentsLead(c, t);
      Climb(c, t);
      Paint(node.parent, false, c.up, p);
      p := p.(red := false);
      Climb(c.up, p);
      Dive(u, Up(c.up, p));
      Paint(temp, false, Lf(u, c.up.n, c.up.x, c.up.red, p), c.up.sib);
      Climb(Lf(u, c.up.n, c.up.x, c.up.red, p), c.up.sib.(red := false));
      Paint(node.parent.parent, true, u, Br(c.up.sib.(red := false), c.up.n, c.up.x, c.up.red, p));
    }

    /** Lines 66-68: the uncle is black and the node is on the outside. */
    method PromoteLeft(node: Node, ghost c: Ctx, ghost t: Tree)
      requires At(c, t) && t.Br? && t.n == node && c.Lf? && c.up.Lf?
      modifies this`root, this`mem, mem.Keys
      ensures At(PromotedL(c), t) && mem.Keys == old(mem.Keys)
    {
      hide Holds, Agree;
      ghost var p, u := Up(c, t), c.up.up;
      ParentsLead(c, t);
      Climb(c, t);
      Paint(node.parent, false, c.up, p);
      p := p.(red := false);
      Climb(c.up, p);
      Paint(node.parent.parent, true, u, Up(c.up, p));
      RotateRight(node.parent.parent, u, Up(c.up, p).(red := true));
      Dive(u, RotR(Up(c.up, p).(red := true)));
    }

    /** Lines 86-88: the uncle is black and the node is on the outside. */
    method PromoteRight(node: Node, ghost c: Ctx, ghost t: Tree)
      requires At(c, t) && t.Br? && t.n == node && c.Rt? && c.up.Rt?
      modifies this`root, this`mem, mem.Keys
      ensures At(PromotedR(c), t) && mem.Keys == old(mem.Keys)
    {
      hide Holds, Agree;
      ghost var p, u := Up(c, t), c.up.up;
      ParentsLead(c, t);
      Climb(c, t);
      Paint(node.parent, false, c.up, p);
      p := p.(red := false);
      Climb(c.up, p);
      Paint(node.parent.parent, true, u, Up(c.up, p));
      RotateLeft(node.parent.parent, u, Up(c.up, p).(red := true));
      Dive(u, RotL(Up(c.up, p).(red := true)));
    }

    /** Lines 61-64: the uncle is black and the node is on the inside. */
    method TurnOutLeft(node: Node, ghost c: Ctx, ghost t: Tree)
      requires At(c, t) && t.Br? && t.n == node && c.Rt? && node.parent == c.n
      modifies this`root, this`mem, mem.Keys
      ensures At(Lf(c.up, t.n, t.x, t.red, t.r), Br(c.sib, c.n, c.x, c.red, t.l)) && mem.Keys == old(mem.Keys)
    {
      hide Holds, Agree;
      Climb(c, t);
      RotateLeft(node.parent, c.up, Up(c, t));
      Dive(c.up, RotL(Up(c, t)));
    }

    /** Lines 81-84: the uncle is black and the node is on the inside. */
    method TurnOutRight(node: Node, ghost c: Ctx, ghost t: Tree)
      requires At(c, t) && t.Br? && t.n == node && c.Lf? && node.parent == c.n
      modifies this`root, this`mem, mem.Keys
      ensures At(Rt(c.up, t.l, t.n, t.x, t.red), Br(t.r, c.n, c.x, c.red, c.sib)) && mem.Keys == old(mem.Keys)
    {
      hide Holds, Agree;
      Climb(c, t);
      RotateRight(node.parent, c.up, Up(c, t));
      Dive(c.up, RotR(Up(c, t)));
    }

    /** Lines 52-69: the parent is a left child. */
    method FixLeft(start: Node, ghost c0: Ctx, ghost t0: Tree) returns (node: Node, ghost c: Ctx, ghost t: Tree)
      requires At(c0, t0) && InsertOk(c0, t0) && t0.n == start && !c0.Top? && c0.red && c0.up.Lf?
      requires start.parent != null && start.parent.parent != null
      requires start.parent == c0.n && c0.n.parent == c0.up.n
      modifies this`root, this`mem, mem.Keys
      ensures At(c, t) && InsertOk(c, t) && t.n == node && Depth(c) < Depth(c0)
      ensures Elems(Plug(c, t)) == Elems(Plug(c0, t0)) && mem.Keys == old(mem.Keys)
    {
      hide Holds, Agree, RedOk, Balanced, CtxRedOk, CtxBal, Elems;
      node, c, t := start, c0, t0;
      var temp := node.parent.parent.right;
      Climb(c, t);
      Sides(c.up, Up(c, t));
      Sides(c, t);
      if temp.red {
        RecolorOk(c, t);
        RecolorLeft(node, temp, c, t);
        node := node.parent.parent;
        c, t := c.up.up, Recolored(c, t);
      } else {
        if node == node.parent.right {
          TurnOutOkL(c, t);
          node := node.parent;
          TurnOutLeft(start, c, t);
          c, t := Lf(c.up, t.n, t.x, t.red, t.r), Br(c.sib, c.n, c.x, c.red, t.l);
        }
        PromoteOkL(c, t);
        PromoteLeft(node, c, t);
        c := PromotedL(c);
      }
    }

    /** Lines 72-89: the parent is a right child. */
    method FixRight(start: Node, ghost c0: Ctx, ghost t0: Tree) returns (node: Node, ghost c: Ctx, ghost t: Tree)
      requires At(c0, t0) && InsertOk(c0, t0) && t0.n == start && !c0.Top? && c0.red && c0.up.Rt?
      requires start.parent != null && start.parent.parent != null
      requires start.parent == c0.n && c0.n.parent == c0.up.n
      modifies this`root, this`mem, mem.Keys
      ensures At(c, t) && InsertOk(c, t) && t.n == node && Depth(c) < Depth(c0)
      ensures Elems(Plug(c, t)) == Elems(Plug(c0, t0)) && mem.Keys == old(mem.Keys)
    {
      hide Holds, Agree, RedOk, Balanced, CtxRedOk, CtxBal, Elems;
      node, c, t := start, c0, t0;
      var temp := node.parent.parent.left;
      Climb(c, t);
      Sides(c.up, Up(c, t));
      Sides(c, t);
      if temp.red {
        RecolorOk(c, t);
        RecolorRight(node, temp, c, t);
        node := node.parent.parent;
        c, t := c.up.up, Recolored(c, t);
      } else {
        if node == node.parent.left {
          TurnOutOkR(c, t);
          node := node.parent;
          TurnOutRight(start, c, t);
          c, t := Rt(c.up, t.l, t.n, t.x, t.red), Br(t.r, c.n, c.x, c.red, c.sib);
        }
        PromoteOkR(c, t);
        PromoteRight(node, c, t);
        c := PromotedR(c);
      }
    }

    /** Lines 49-93: the re-balancing after a node was hung in as a red leaf. */
    method Rebalance(start: Node, ghost c0: Ctx, ghost t0: Tree)
      requires At(c0, t0) && InsertOk(c0, t0) && t0.n == start
      modifies this`root, this`mem, this`shape, mem.Keys
      ensures At(Top, shape) && RbOk(shape) && mem.Keys == old(mem.Keys)
      ensures Elems(shape) == Elems(Plug(c0, t0))
    {
      hide Holds, Agree, Elems;
      var node := start;
      ghost var c, t := c0, t0;
      Sides(c, t);
      if !c.Top? { ParentsLead(c, t); }
      while node != root && node.parent.red
        invariant At(c, t) && InsertOk(c, t) && t.n == node
        invariant Elems(Plug(c, t)) == Elems(Plug(c0, t0)) && mem.Keys == old(mem.Keys)
        invariant c.Top? <==> node == root
        invariant !c.Top? ==> node.parent == c.n && c.n.red == c.red
        decreases Depth(c)
      {
        ParentsLead(c, t);
        Climb(c, t);
        Sides(c.up, Up(c, t));
        if node.parent == node.parent.parent.left {
          node, c, t := FixLeft(node, c, t);
        } else {
          node, c, t := FixRight(node, c, t);
        }
        Sides(c, t);
        if !c.Top? { ParentsLead(c, t); }
      }
      shape := Plug(c, t);
      RefocusTop(c, t);
      BlackenOk(c, t);
      Paint(root, false, Top, shape);
      shape := shape.(red := false);
    }

    /** The descent of the insertion callbacks, lines 97-154 and their kin: from the top of a
        non-empty tree to an empty place, where the node is hung in as a red leaf. */
    method InsertValue(top: Node, node: Node, ghost base: nat) returns (ghost c: Ctx)
      requires Valid() && node !in mem && node != sentinel && shape.Br? && top == root
      modifies this`mem, mem.Keys, node
      ensures At(c, RedLeaf(node, ItemOf(node))) && InsertOk(c, RedLeaf(node, ItemOf(node)))
      ensures node.key == old(node.key) && mem.Keys == old(mem.Keys) + {node}
      ensures Plug(c, Leaf) == shape
      ensures Sorted(order, Elems(shape)) && AllInWindow(order, base, Elems(shape)) && InWindow(order, base, ItemOf(node))
              ==> PlaceOf(order, Elems(shape), ItemOf(node), |Pre(c)|)
    {
      hide Agree, Holds, Sorted, AllInWindow, InWindow, GoesLeft, RedOk, Balanced, CtxRedOk, CtxBal;
      ghost var x := ItemOf(node);
      ghost var ordered := Sorted(order, Elems(shape)) && AllInWindow(order, base, Elems(shape)) && InWindow(order, base, x);
      var temp := top;
      var toLeft: bool;
      c := Top;
      ghost var t := shape;
      Sides(c, t);
      TopInside(c, t);
      while true
        modifies {}
        invariant At(c, t) && t.Br? && t.n == temp && Plug(c, t) == shape && temp in mem
        invariant ordered ==> Between(order, x, c)
        decreases t
      {
        TopReads(c, t);
        toLeft := GoesLeft(order, ItemOf(node), ItemOf(temp));
        var p := if toLeft then temp.left else temp.right;
        if ordered { StepDown(order, base, x, c, t); }
        Dive(c, t);
        if toLeft {
          c, t := Lf(c, t.n, t.x, t.red, t.r), t.l;
        } else {
          c, t := Rt(c, t.l, t.n, t.x, t.red), t.r;
        }
        TopInside(c, t);
        if p == sentinel { break; }
        temp := p;
      }
      HangLeaf(temp, toLeft, node, c);
      RedLeafOk(c, node, x);
      if ordered { PlacedBetween(order, x, c); }
    }

    /** Line 114. */
    method SetHole(ghost c: Ctx, temp: Node, toLeft: bool, node: Node)
      requires Agree(mem) && !c.Top? && temp == c.n && (toLeft <==> c.Lf?) && c.n in mem
      modifies this`mem, temp`left, temp`right
      ensures Agree(mem) && mem == WithHole(old(mem), c, node)
    {
      if toLeft { SetLeft(temp, node); } else { SetRight(temp, node); }
    }

    /** Lines 115-118. */
    method InitLeaf(temp: Node, node: Node)
      requires Agree(mem) && node !in mem
      modifies this`mem, node
      ensures Agree(mem) && mem == old(mem)[node := Cell(old(ItemOf(node)), true, sentinel, sentinel, temp)]
      ensures node.key == old(node.key)
    {
      node.parent, node.left, node.right, node.red := temp, sentinel, sentinel, true;
      mem := mem[node := Cell(ItemOf(node), true, sentinel, sentinel, temp)];
    }

    /** Lines 114-118. */
    method HangLeaf(temp: Node, toLeft: bool, node: Node, ghost c: Ctx)
      requires At(c, Leaf) && !c.Top? && temp == c.n && (toLeft <==> c.Lf?) && node !in mem && node != sentinel
      modifies this`mem, mem.Keys, node
      ensures At(c, RedLeaf(node, old(ItemOf(node)))) && mem.Keys == old(mem.Keys) + {node}
      ensures node.key == old(node.key)
    {
      hide Holds, WithHole, RedLeaf, Spells, SpellsC, Apart, Agree;
      HangLeafSpells(mem, root, sentinel, c, stale, node, ItemOf(node));
      SetHole(c, temp, toLeft, node);
      InitLeaf(temp, node);
    }

    /** Lines 35-43. */
    method InsertFirst(node: Node)
      requires Valid() && shape == Leaf && node != sentinel
      modifies this`root, this`mem, this`shape, this`stale, node
      ensures Valid() && mem.Keys == {node} && node.key == old(node.key)
      ensures old(Elems(shape)) == [] && Elems(shape) == [Elem(node, ItemOf(node))]
      ensures Sorted(order, Elems(shape)) && PlaceOf(order, [], ItemOf(node), 0)
    {
      node.parent, node.left, node.right, node.red := null, sentinel, sentinel, false;
      root := node;
      mem := map[node := CellOf(node)];
      shape, stale := Br(Leaf, node, ItemOf(node), false, Leaf), null;
    }

    /** `ngx_rbtree_insert`. The new node goes to position `i` of the in-order sequence; when
        the sequence was sorted and the comparison is an order on it, that is the place
        behind all items that do not go to the right of the new one. */
    method Insert(node: Node, ghost base: nat) returns (ghost i: nat)
      requires Valid() && node !in mem && node != sentinel
      modifies this`root, this`mem, this`shape, this`stale, mem.Keys, node
      ensures Valid() && mem.Keys == old(mem.Keys) + {node} && node.key == old(node.key)
      ensures i <= |old(Elems(shape))|
      ensures Elems(shape) == old(Elems(shape))[..i] + [Elem(node, ItemOf(node))] + old(Elems(shape))[i..]
      ensures old(Sorted(order, Elems(shape)) && AllInWindow(order, base, Elems(shape)) && InWindow(order, base, ItemOf(node)))
              ==> PlaceOf(order, old(Elems(shape)), ItemOf(node), i) && Sorted(order, Elems(shape))
    {
      hide Holds, Agree, RbOk, Elems, Pre, Sorted, AllInWindow, InWindow, PlaceOf, InsertOk, Plug;
      ghost var es, x := Elems(shape), ItemOf(node);
      Sides(Top, shape);
      TopInside(Top, shape);
      if root == sentinel {
        InsertFirst(node);
        i := 0;
        assert Elems(shape) == es[..0] + [Elem(node, x)] + es[0..];
        return;
      }
      ghost var c := InsertValue(root, node, base);
      InsertElems(c, node, x);
      i := |Pre(c)|;
      Rebalance(node, c, RedLeaf(node, x));
      SameNodes(shape, Plug(c, RedLeaf(node, x)));
      assert Elems(shape)[i] == Elem(node, x);
      ItemsHeld(shape, i);
      if Sorted(order, es) && AllInWindow(order, base, es) && InWindow(order, base, x) {
        InsertKeepsSorted(order, base, es, Elem(node, x), i);
      }
    }

    // ---------- deletion: repairing the colours ----------

    /** Lines 264-269. */
    method LiftLeft(temp: Node, w: Node, ghost c: Ctx, ghost t: Tree)
      requires At(c, t) && temp == Ptr(t, sentinel) && c.Lf? && temp.parent == c.n && c.sib.Br? && w == c.sib.n
      modifies this`root, this`mem, mem.Keys
      ensures At(LiftedL(c), t) && mem.Keys == old(mem.Keys) && temp.parent == c.n
    {
      hide Holds, Agree;
      Climb(c, t);
      Dive(c.up, Up(c, t));
      ghost var o := Rt(c.up, t, c.n, c.x, c.red);
      Paint(w, false, o, c.sib);
      Climb(o, c.sib.(red := false));
      ghost var g := Br(t, c.n, c.x, c.red, c.sib.(red := false));
      Paint(temp.parent, true, c.up, g);
      RotateLeft(temp.parent, c.up, g.(red := true));
      ghost var r := RotL(g.(red := true));
      Dive(c.up, r);
      Dive(Lf(c.up, r.n, r.x, r.red, r.r), r.l);
      KeptParent(temp, LiftedL(c), t);
    }

    /** Lines 276-281. */
    method SwapLeft(temp: Node, w: Node, ghost c: Ctx, ghost t: Tree)
      requires At(c, t) && temp == Ptr(t, sentinel) && c.Lf? && temp.parent == c.n
      requires c.sib.Br? && w == c.sib.n && c.sib.l.Br? && w.left == c.sib.l.n
      modifies this`root, this`mem, mem.Keys
      ensures At(WithSib(c, SwappedL(c.sib)), t) && mem.Keys == old(mem.Keys) && temp.parent == c.n
    {
      hide Holds, Agree;
      Climb(c, t);
      Dive(c.up, Up(c, t));
      ghost var o, v := Rt(c.up, t, c.n, c.x, c.red), c.sib;
      Dive(o, v);
      Paint(w.left, false, Lf(o, v.n, v.x, v.red, v.r), v.l);
      Climb(Lf(o, v.n, v.x, v.red, v.r), v.l.(red := false));
      v := v.(l := v.l.(red := false));
      Paint(w, true, o, v);
      RotateRight(w, o, v.(red := true));
      Climb(o, SwappedL(c.sib));
      Dive(c.up, Up(o, SwappedL(c.sib)));
      KeptParent(temp, WithSib(c, SwappedL(c.sib)), t);
    }

    /** Lines 283-287. */
    method SettleLeft(temp: Node, w: Node, ghost c: Ctx, ghost t: Tree)
      requires At(c, t) && temp == Ptr(t, sentinel) && c.Lf? && temp.parent == c.n
      requires c.sib.Br? && w == c.sib.n && c.sib.r.Br? && w.right == c.sib.r.n && temp.parent.red == c.red
      modifies this`root, this`mem, mem.Keys
      ensures At(c.up, SettledL(c, t)) && mem.Keys == old(mem.Keys)
    {
      hide Holds, Agree;
      Climb(c, t);
      Dive(c.up, Up(c, t));
      ghost var o, v := Rt(c.up, t, c.n, c.x, c.red), c.sib;
      Paint(w, temp.parent.red, o, v);
      v := v.(red := c.red);
      Climb(o, v);
      ghost var g := Br(t, c.n, c.x, c.red, v);
      Paint(temp.parent, false, c.up, g);
      Dive(c.up, g.(red := false));
      o := Rt(c.up, t, c.n, c.x, false);
      Dive(o, v);
      Paint(w.right, false, Rt(o, v.l, v.n, v.x, v.red), v.r);
      Climb(Rt(o, v.l, v.n, v.x, v.red), v.r.(red := false));
      v := v.(r := v.r.(red := false));
      Climb(o, v);
      RotateLeft(temp.parent, c.up, Br(t, c.n, c.x, false, v));
    }

    /** Lines 264-269 with their test. */
    method BlackSiblingLeft(temp: Node, ghost c0: Ctx, ghost t: Tree) returns (w: Node, ghost c: Ctx)
      requires At(c0, t) && DeleteOk(c0, t) && temp == Ptr(t, sentinel) && c0.Lf? && !IsRed(t) && temp.parent == c0.n
      modifies this`root, this`mem, mem.Keys
      ensures At(c, t) && DeleteOk(c, t) && c.Lf? && temp.parent == c.n && c.sib.Br? && !c.sib.red && w == c.sib.n
      ensures Depth(c) == Depth(c0) || (Depth(c) == Depth(c0) + 1 && c.red)
      ensures Elems(Plug(c, t)) == Elems(Plug(c0, t)) && mem.Keys == old(mem.Keys)
    {
      hide Holds, Agree, RedOk, Balanced, CtxRedOk, CtxBal, BH, Elems, DeleteOk;
      c := c0;
      LiftOkL(c, t);
      Sides(c, t);
      w := temp.parent.right;
      if w.red {
        LiftLeft(temp, w, c, t);
        c := LiftedL(c);
        Sides(c, t);
        w := temp.parent.right;
      }
    }

    /** Lines 261-288: the hole is a left child. */
    method MendLeft(start: Node, ghost c0: Ctx, ghost t0: Tree) returns (temp: Node, ghost c: Ctx, ghost t: Tree)
      requires At(c0, t0) && DeleteOk(c0, t0) && start == Ptr(t0, sentinel) && c0.Lf? && !IsRed(t0)
      requires start.parent == c0.n
      modifies this`root, this`mem, mem.Keys
      ensures At(c, t) && DeleteOk(c, t) && temp == Ptr(t, sentinel) && Measure(c, t) < Measure(c0, t0)
      ensures !c.Top? ==> temp.parent == c.n
      ensures Elems(Plug(c, t)) == Elems(Plug(c0, t0)) && mem.Keys == old(mem.Keys)
    {
      hide Holds, Agree, RedOk, Balanced, CtxRedOk, CtxBal, BH, Elems, DeleteOk, SwappedL, SettledL;
      temp, t := start, t0;
      var w;
      w, c := BlackSiblingLeft(temp, c0, t);
      Nephews(c, t);
      if !w.left.red && !w.right.red {
        SinkOkL(c, t);
        Climb(c, t);
        SinkLeft(w, c, t);
        temp := temp.parent;
        c, t := c.up, Up(WithSib(c, c.sib.(red := true)), t);
        if !c.Top? { ParentsLead(c, t); }
      } else {
        if !w.right.red {
          SwapOkL(c, t);
          SwapLeft(temp, w, c, t);
          c := WithSib(c, SwappedL(c.sib));
          Sides(c, t);
          w := temp.parent.right;
          Nephews(c, t);
        }
        Sides(c, t);
        SettleOkL(c, t);
        SettleLeft(temp, w, c, t);
        t := SettledL(c, t);
        RefocusTop(c.up, t);
        t := Plug(c.up, t);
        c := Top;
        temp := root;
      }
    }

    /** Lines 271-273. */
    method SinkLeft(w: Node, ghost c: Ctx, ghost t: Tree)
      requires At(c, t) && c.Lf? && c.sib.Br? && w == c.sib.n
      modifies this`mem, w`red
      ensures At(c.up, Up(WithSib(c, c.sib.(red := true)), t)) && mem.Keys == old(mem.Keys)
    {
      hide Holds, Agree;
      Climb(c, t);
      Dive(c.up, Up(c, t));
      ghost var o := Rt(c.up, t, c.n, c.x, c.red);
      Paint(w, true, o, c.sib);
      Climb(o, c.sib.(red := true));
    }

    /** Lines 293-298. */
    method LiftRight(temp: Node, w: Node, ghost c: Ctx, ghost t: Tree)
      requires At(c, t) && temp == Ptr(t, sentinel) && c.Rt? && temp.parent == c.n && c.sib.Br? && w == c.sib.n
      modifies this`root, this`mem, mem.Keys
      ensures At(LiftedR(c), t) && mem.Keys == old(mem.Keys) && temp.parent == c.n
    {
      hide Holds, Agree;
      Climb(c, t);
      Dive(c.up, Up(c, t));
      ghost var o := Lf(c.up, c.n, c.x, c.red, t);
      Paint(w, false, o, c.sib);
      Climb(o, c.sib.(red := false));
      ghost var g := Br(c.sib.(red := false), c.n, c.x, c.red, t);
      Paint(temp.parent, true, c.up, g);
      RotateRight(temp.parent, c.up, g.(red := true));
      ghost var r := RotR(g.(red := true));
      Dive(c.up, r);
      Dive(Rt(c.up, r.l, r.n, r.x, r.red), r.r);
      KeptParent(temp, LiftedR(c), t);
    }

    /** Lines 305-310. */
    method SwapRight(temp: Node, w: Node, ghost c: Ctx, ghost t: Tree)
      requires At(c, t) && temp == Ptr(t, sentinel) && c.Rt? && temp.parent == c.n
      requires c.sib.Br? && w == c.sib.n && c.sib.r.Br? && w.right == c.sib.r.n
      modifies this`root, this`mem, mem.Keys
      ensures At(WithSib(c, SwappedR(c.sib)), t) && mem.Keys == old(mem.Keys) && temp.parent == c.n
    {
      hide Holds, Agree;
      Climb(c, t);
      Dive(c.up, Up(c, t));
      ghost var o, v := Lf(c.up, c.n, c.x, c.red, t), c.sib;
      Dive(o, v);
      Paint(w.right, false, Rt(o, v.l, v.n, v.x, v.red), v.r);
      Climb(Rt(o, v.l, v.n, v.x, v.red), v.r.(red := false));
      v := v.(r := v.r.(red := false));
      Paint(w, true, o, v);
      RotateLeft(w, o, v.(red := true));
      Climb(o, SwappedR(c.sib));
      Dive(c.up, Up(o, SwappedR(c.sib)));
      KeptParent(temp, WithSib(c, SwappedR(c.sib)), t);
    }

    /** Lines 312-316. */
    method SettleRight(temp: Node, w: Node, ghost c: Ctx, ghost t: Tree)
      requires At(c, t) && temp == Ptr(t, sentinel) && c.Rt? && temp.parent == c.n
      requires c.sib.Br? && w == c.sib.n && c.sib.l.Br? && w.left == c.sib.l.n && temp.parent.red == c.red
      modifies this`root, this`mem, mem.Keys
      ensures At(c.up, SettledR(c, t)) && mem.Keys == old(mem.Keys)
    {
      hide Holds, Agree;
      Climb(c, t);
      Dive(c.up, Up(c, t));
      ghost var o, v := Lf(c.up, c.n, c.x, c.red, t), c.sib;
      Paint(w, temp.parent.red, o, v);
      v := v.(red := c.red);
      Climb(o, v);
      ghost var g := Br(v, c.n, c.x, c.red, t);
      Paint(temp.parent, false, c.up, g);
      Dive(c.up, g.(red := false));
      o := Lf(c.up, c.n, c.x, false, t);
      Dive(o, v);
      Paint(w.left, false, Lf(o, v.n, v.x, v.red, v.r), v.l);
      Climb(Lf(o, v.n, v.x, v.red, v.r), v.l.(red := false));
      v := v.(l := v.l.(red := false));
      Climb(o, v);
      RotateRight(temp.parent, c.up, Br(v, c.n, c.x, false, t));
    }

    /** Lines 293-298 with their test. */
    method BlackSiblingRight(temp: Node, ghost c0: Ctx, ghost t: Tree) returns (w: Node, ghost c: Ctx)
      requires At(c0, t) && DeleteOk(c0, t) && temp == Ptr(t, sentinel) && c0.Rt? && !IsRed(t) && temp.parent == c0.n
      modifies this`root, this`mem, mem.Keys
      ensures At(c, t) && DeleteOk(c, t) && c.Rt? && temp.parent == c.n && c.sib.Br? && !c.sib.red && w == c.sib.n
      ensures Depth(c) == Depth(c0) || (Depth(c) == Depth(c0) + 1 && c.red)
      ensures Elems(Plug(c, t)) == Elems(Plug(c0, t)) && mem.Keys == old(mem.Keys)
    {
      hide Holds, Agree, RedOk, Balanced, CtxRedOk, CtxBal, BH, Elems, DeleteOk;
      c := c0;
      LiftOkR(c, t);
      Sides(c, t);
      w := temp.parent.left;
      if w.red {
        LiftRight(temp, w, c, t);
        c := LiftedR(c);
        Sides(c, t);
        w := temp.parent.left;
      }
    }

    /** Lines 290-317: the hole is a right child. */
    method MendRight(start: Node, ghost c0: Ctx, ghost t0: Tree) returns (temp: Node, ghost c: Ctx, ghost t: Tree)
      requires At(c0, t0) && DeleteOk(c0, t0) && start == Ptr(t0, sentinel) && c0.Rt? && !IsRed(t0)
      requires start.parent == c0.n
      modifies this`root, this`mem, mem.Keys
      ensures At(c, t) && DeleteOk(c, t) && temp == Ptr(t, sentinel) && Measure(c, t) < Measure(c0, t0)
      ensures !c.Top? ==> temp.parent == c.n
      ensures Elems(Plug(c, t)) == Elems(Plug(c0, t0)) && mem.Keys == old(mem.Keys)
    {
      hide Holds, Agree, RedOk, Balanced, CtxRedOk, CtxBal, BH, Elems, DeleteOk, SwappedR, SettledR;
      temp, t := start, t0;
      var w;
      w, c := BlackSiblingRight(temp, c0, t);
      Nephews(c, t);
      if !w.left.red && !w.right.red {
        SinkOkR(c, t);
        Climb(c, t);
        SinkRight(w, c, t);
        temp := temp.parent;
        c, t := c.up, Up(WithSib(c, c.sib.(red := true)), t);
        if !c.Top? { ParentsLead(c, t); }
      } else {
        if !w.left.red {
          SwapOkR(c, t);
          SwapRight(temp, w, c, t);
          c := WithSib(c, SwappedR(c.sib));
          Sides(c, t);
          w := temp.parent.left;
          Nephews(c, t);
        }
        Sides(c, t);
        SettleOkR(c, t);
        SettleRight(temp, w, c, t);
        t := SettledR(c, t);
        RefocusTop(c.up, t);
        t := Plug(c.up, t);
        c := Top;
        temp := root;
      }
    }

    /** Lines 300-302. */
    method SinkRight(w: Node, ghost c: Ctx, ghost t: Tree)
      requires At(c, t) && c.Rt? && c.sib.Br? && w == c.sib.n
      modifies this`mem, w`red
      ensures At(c.up, Up(WithSib(c, c.sib.(red := true)), t)) && mem.Keys == old(mem.Keys)
    {
      hide Holds, Agree;
      Climb(c, t);
      Dive(c.up, Up(c, t));
      ghost var o := Lf(c.up, c.n, c.x, c.red, t);
      Paint(w, true, o, c.sib);
      Climb(o, c.sib.(red := true));
    }

    /** The nephews of the hole can be read, and are as red as the tree says. */
    lemma Nephews(c: Ctx, t: Tree)
      requires At(c, t) && !c.Top? && c.sib.Br?
      ensures c.sib.n in mem && c.sib.n.red == c.sib.red
      ensures c.sib.n.left == Ptr(c.sib.l, sentinel) && c.sib.n.right == Ptr(c.sib.r, sentinel)
      ensures Ptr(c.sib.l, sentinel).red == IsRed(c.sib.l) && Ptr(c.sib.r, sentinel).red == IsRed(c.sib.r)
    {
      assert Spells(mem, c.sib, sentinel, c.n) && Spells(mem, c.sib.l, sentinel, c.sib.n) && Spells(mem, c.sib.r, sentinel, c.sib.n);
    }

    lemma KeptParent(temp: Node, c: Ctx, t: Tree)
      requires At(c, t) && !c.Top? && temp == Ptr(t, sentinel)
      ensures t.Br? ==> temp.parent == c.n
    {
    }

    // ---------- deletion ----------

    /** `n->parent = v`, where `n` may be the sentinel. */
    method StoreParent(n: Node, v: Node?, ghost t: Tree)
      requires Agree(mem) && sentinel !in mem && n == Ptr(t, sentinel) && (t.Br? ==> n in mem)
      modifies this`mem, n`parent
      ensures Agree(mem) && mem == WithParent(old(mem), t, v) && n.parent == v && mem.Keys == old(mem.Keys)
    {
      n.parent := v;
      mem := WithParent(mem, t, v);
    }

    /** Lines 202-207. */
    method Bypass(subst: Node, temp: Node, ghost c: Ctx, ghost u: Tree)
      requires At(c, u) && u.Br? && subst == u.n && !c.Top?
      modifies this`mem, c.n`left, c.n`right
      ensures Agree(mem) && c.n in old(mem) && mem == WithHole(old(mem), c, temp) && mem.Keys == old(mem.Keys)
    {
      hide Holds;
      Sides(c, u);
      ParentsLead(c, u);
      if subst == subst.parent.left {
        SetLeft(subst.parent, temp);
      } else {
        SetRight(subst.parent, temp);
      }
    }

    /** Lines 248-251. */
    method Clear(node: Node)
      requires Agree(mem)
      modifies this`mem, node
      ensures Agree(mem) && mem == old(mem) - {node}
    {
      mem := mem - {node};
      Wipe(node);
    }

    method Wipe(node: Node)
      requires Agree(mem) && node !in mem
      modifies node
      ensures Agree(mem)
    {
      node.left, node.right, node.parent, node.key := null, null, null, 0;
    }

    /** Lines 202-211: the node has at most one child and is not the root. */
    method DetachOuter(node: Node, temp: Node, ghost c: Ctx, ghost u: Tree, ghost ch: Tree)
      requires At(c, u) && OnlyChild(u, ch) && u.n == node && temp == Ptr(ch, sentinel) && !c.Top?
      modifies this`mem, mem.Keys, sentinel`parent
      ensures At(c, ch) && mem.Keys == old(mem.Keys) - {node} && temp.parent == c.n
    {
      hide Holds, WithHole, WithParent, Apart, Spells, SpellsC, Agree, Nodes, CNodes, Distinct, DistinctC;
      TopInside(c, u);
      BypassSpells(mem, root, sentinel, c, u, ch, stale);
      ParentsLead(c, u);
      Bypass(node, temp, c, u);
      StoreParent(temp, node.parent, ch);
      Clear(node);
    }

    /** Lines 202-207 and 213-220: the leftmost node of the right subtree leaves its place. */
    method BypassMin(node: Node, subst: Node, temp: Node, ghost c: Ctx, ghost t: Tree, ghost rel: Ctx, ghost u: Tree)
      requires At(c, t) && MinOfRight(t, rel, u) && node == t.n && subst == u.n && temp == Ptr(u.r, sentinel)
      requires t.n in mem && u.n in mem && (!rel.Top? ==> rel.n in mem) && (u.r.Br? ==> u.r.n in mem)
      modifies this`mem, mem.Keys, sentinel`parent
      ensures Agree(mem) && mem == Bypassed(old(mem), sentinel, t, rel, u) && mem.Keys == old(mem.Keys)
      ensures temp.parent == if rel.Top? then u.n else rel.n
    {
      hide Holds, WithParent, Spells, SpellsC;
      ghost var c1 := Compose(rel, Rt(c, t.l, t.n, t.x, t.red));
      FocusMin(c, t, rel, u);
      ParentsLead(c1, u);
      Bypass(subst, temp, c1, u);
      if subst.parent == node {
        StoreParent(temp, subst, u.r);
      } else {
        StoreParent(temp, subst.parent, u.r);
      }
    }

    lemma FocusMin(c: Ctx, t: Tree, rel: Ctx, u: Tree)
      requires At(c, t) && MinOfRight(t, rel, u)
      ensures var c1 := Compose(rel, Rt(c, t.l, t.n, t.x, t.red)); At(c1, u) && !c1.Top? && (c1.n == t.n <==> rel.Top?)
    {
      var o := Rt(c, t.l, t.n, t.x, t.red);
      ComposePlug(rel, o, u);
      Focus(mem, root, sentinel, c, t, stale);
      Focus(mem, root, sentinel, Compose(rel, o), u, stale);
      MinApart(c, t, sentinel, rel, u);
    }

    /** Lines 227-236: `subst` is hung in where the node was. */
    method HangInstead(node: Node, subst: Node, ghost c: Ctx)
      requires Agree(mem) && node in mem && subst != sentinel
      requires c.Top? <==> node == root
      requires !c.Top? ==> c.n in mem && node.parent == c.n && (node == c.n.left <==> c.Lf?)
      modifies this`root, this`mem
      modifies if c.Top? then {} else {c.n}
      ensures Agree(mem) && (!c.Top? ==> c.n in old(mem)) && mem == WithHole(old(mem), c, subst)
      ensures root == if c.Top? then subst else old(root)
    {
      if node == root {
        root := subst;
      } else {
        if node == node.parent.left {
          SetLeft(node.parent, subst);
        } else {
          SetRight(node.parent, subst);
        }
      }
    }

    /** Lines 222-251: it takes the place of the node, with its colour. */
    method TakePlace(node: Node, subst: Node, ghost c: Ctx, ghost l: Tree, ghost r: Tree, ghost t: Tree)
      requires Agree(mem) && sentinel !in mem && t.Br? && t.l == l && t.n == node && subst in mem && node in mem && node != subst
      requires (!c.Top? ==> c.n in mem) && (l.Br? ==> l.n in mem) && (r.Br? ==> r.n in mem)
      requires node.left == Ptr(l, sentinel) && node.right == Ptr(r, sentinel)
      requires (l.Br? ==> l.n !in {node, subst}) && (r.Br? ==> r.n !in {node, subst})
      requires c.Top? <==> node == root
      requires !c.Top? ==> c.n !in {node, subst} && node.parent == c.n && (node == c.n.left <==> c.Lf?)
      requires !c.Top? ==> (l.Br? ==> l.n != c.n) && (r.Br? ==> r.n != c.n)
      modifies this`root, this`mem, mem.Keys
      ensures Agree(mem)
      ensures mem == Replaced(old(mem), c, t, r, subst)
      ensures root == if c.Top? then subst else old(root)
    {
      CopyLinks(node, subst);
      ghost var m3 := mem;
      HangInstead(node, subst, c);
      assert m3[subst].left == Ptr(l, sentinel) && m3[subst].right == Ptr(r, sentinel);
      AdoptKids(subst, l, r);
      Clear(node);
    }

    /** Lines 222-225. */
    method CopyLinks(node: Node, subst: Node)
      requires Agree(mem) && subst in mem && node in mem && node != subst
      modifies this`mem, subst`left, subst`right, subst`parent, subst`red
      ensures Agree(mem)
      ensures var m := old(mem);
        mem == m[subst := Cell(m[subst].x, m[node].red, m[node].left, m[node].right, m[node].parent)]
    {
      subst.left := node.left;
      subst.right := node.right;
      subst.parent := node.parent;
      subst.red := node.red;
      mem := mem[subst := Cell(mem[subst].x, mem[node].red, mem[node].left, mem[node].right, mem[node].parent)];
    }

    /** Lines 238-244. */
    method AdoptKids(subst: Node, ghost l: Tree, ghost r: Tree)
      requires Agree(mem) && sentinel !in mem && subst in mem
      requires (l.Br? ==> l.n in mem) && (r.Br? ==> r.n in mem)
      requires subst.left == Ptr(l, sentinel) && subst.right == Ptr(r, sentinel)
      modifies this`mem, mem.Keys`parent
      ensures Agree(mem) && mem == WithParent(WithParent(old(mem), l, subst), r, subst)
    {
      if subst.left != sentinel {
        SetParent(subst.left, subst);
      }
      if subst.right != sentinel {
        SetParent(subst.right, subst);
      }
    }

    /** Lines 202-251 when the node has two children. */
    method DetachInner(node: Node, subst: Node, temp: Node, ghost c: Ctx, ghost t: Tree, ghost rel: Ctx, ghost u: Tree)
      requires At(c, t) && MinOfRight(t, rel, u) && node == t.n && subst == u.n && temp == Ptr(u.r, sentinel)
      modifies this`root, this`mem, mem.Keys, sentinel`parent
      ensures At(GapCtx(c, t, rel, u), u.r) && mem.Keys == old(mem.Keys) - {node}
      ensures !GapCtx(c, t, rel, u).Top? && temp.parent == GapCtx(c, t, rel, u).n
    {
      hide Holds, Spells, SpellsC, Bypassed, Replaced;
      ghost var r := Plug(rel, u.r);
      InnerFacts(c, t, rel, u);
      ghost var m2 := Bypassed(mem, sentinel, t, rel, u);
      BypassMin(node, subst, temp, c, t, rel, u);
      TakePlace(node, subst, c, t.l, r, t);
      ghost var g := Br(t.l, u.n, u.x, t.red, r);
      assert At(c, g);
      ReplaceFocus(c, t, rel, u);
      KeptParent(temp, GapCtx(c, t, rel, u), u.r);
    }

    lemma ReplaceFocus(c: Ctx, t: Tree, rel: Ctx, u: Tree)
      requires t.Br? && u.Br? && At(c, Br(t.l, u.n, u.x, t.red, Plug(rel, u.r)))
      ensures At(GapCtx(c, t, rel, u), u.r) && !GapCtx(c, t, rel, u).Top?
      ensures GapCtx(c, t, rel, u).n == if rel.Top? then u.n else rel.n
    {
      var g := Br(t.l, u.n, u.x, t.red, Plug(rel, u.r));
      ComposePlug(rel, Rt(c, t.l, u.n, u.x, t.red), u.r);
      Focus(mem, root, sentinel, c, g, stale);
      Focus(mem, root, sentinel, GapCtx(c, t, rel, u), u.r, stale);
    }

    /** Where all the pointers lead after the bypass, and what the rest of the deletion makes of it. */
    lemma InnerFacts(c: Ctx, t: Tree, rel: Ctx, u: Tree)
      requires At(c, t) && MinOfRight(t, rel, u)
      ensures t.n in mem && u.n in mem && (!rel.Top? ==> rel.n in mem) && (u.r.Br? ==> u.r.n in mem)
      ensures var m2, r := Bypassed(mem, sentinel, t, rel, u), Plug(rel, u.r);
        && m2.Keys == mem.Keys && t.n != u.n
        && m2[t.n] == Cell(t.x, t.red, Ptr(t.l, sentinel), Ptr(r, sentinel), Above(c, stale))
        && (!c.Top? ==> c.n in mem && c.n !in {t.n, u.n})
        && (t.l.Br? ==> t.l.n in mem && t.l.n !in {t.n, u.n}) && (r.Br? ==> r.n in mem && r.n !in {t.n, u.n})
        && (c.Top? <==> t.n == root)
        && (!c.Top? ==> (t.n == m2[c.n].left <==> c.Lf?) && (t.l.Br? ==> t.l.n != c.n) && (r.Br? ==> r.n != c.n))
        && Replaced(m2, c, t, r, u.n).Keys == mem.Keys - {t.n}
        && Holds(Replaced(m2, c, t, r, u.n), if c.Top? then u.n else root, sentinel, c, Br(t.l, u.n, u.x, t.red, r), stale)
    {
      InnerCells(mem, root, sentinel, c, t, stale, rel, u);
    }

    /** `ngx_rbtree_min` on the right subtree of a node with two children. */
    method Min(node: Node, ghost c: Ctx, ghost t: Tree) returns (subst: Node, ghost rel: Ctx, ghost u: Tree)
      requires At(c, t) && t.Br? && t.r.Br? && node == t.r.n
      ensures MinOfRight(t, rel, u) && subst == u.n && subst.red == u.red
      ensures subst.left == sentinel && subst.right == Ptr(u.r, sentinel)
    {
      hide Holds, Agree;
      subst := node;
      rel, u := Top, t.r;
      ghost var o := Rt(c, t.l, t.n, t.x, t.red);
      Dive(c, t);
      TopReads(o, u);
      while subst.left != sentinel
        invariant At(Compose(rel, o), u) && u.Br? && subst == u.n && AllLf(rel) && Plug(rel, u) == t.r
        invariant subst.left == Ptr(u.l, sentinel) && subst.right == Ptr(u.r, sentinel) && subst.red == u.red
        decreases u
      {
        Dive(Compose(rel, o), u);
        subst := subst.left;
        rel, u := Lf(rel, u.n, u.x, u.red, u.r), u.l;
        TopReads(Compose(rel, o), u);
      }
      if u.l.Br? {
        Dive(Compose(rel, o), u);
        TopInside(Lf(Compose(rel, o), u.n, u.x, u.red, u.r), u.l);
      }
    }

    /** Lines 187-198: the root has at most one child. */
    method DeleteRoot(node: Node, temp: Node, ghost ch: Tree)
      requires Valid() && shape.Br? && node == shape.n && node == root && OnlyChild(shape, ch) && temp == Ptr(ch, sentinel)
      modifies this`root, this`mem, this`shape, this`stale, mem.Keys, sentinel`red
      ensures Valid() && mem.Keys == old(mem.Keys) - {node} && shape == Black(ch)
    {
      hide Holds, RbOk, Nodes, Black;
      BypassRoot(mem, root, sentinel, shape, ch, stale);
      BypassOk(Top, shape, ch);
      TopInside(Top, shape);
      root := temp;
      stale := node;
      mem := mem - {node};
      TopInside(Top, ch);
      Blacken(temp, Top, ch);
      Wipe(node);
      shape := Black(ch);
    }

    /** Lines 257-321: the repair. */
    method Repair(start: Node, ghost c0: Ctx, ghost t0: Tree)
      requires At(c0, t0) && DeleteOk(c0, t0) && start == Ptr(t0, sentinel) && (!c0.Top? ==> start.parent == c0.n)
      modifies this`root, this`mem, this`shape, mem.Keys, sentinel`red
      ensures At(Top, shape) && RbOk(shape) && mem.Keys == old(mem.Keys) && Elems(shape) == Elems(Plug(c0, t0))
    {
      hide Holds, Agree, DeleteOk, Elems, RbOk;
      var temp := start;
      ghost var c, t := c0, t0;
      Sides(c, t);
      while temp != root && !temp.red
        invariant At(c, t) && DeleteOk(c, t) && temp == Ptr(t, sentinel) && (!c.Top? ==> temp.parent == c.n)
        invariant (c.Top? <==> temp == root) && temp.red == IsRed(t)
        invariant Elems(Plug(c, t)) == Elems(Plug(c0, t0)) && mem.Keys == old(mem.Keys)
        decreases Measure(c, t)
      {
        SiblingThere(c, t);
        Sides(c, t);
        if temp == temp.parent.left {
          temp, c, t := MendLeft(temp, c, t);
        } else {
          temp, c, t := MendRight(temp, c, t);
        }
        Sides(c, t);
      }
      DeleteDone(c, t);
      TopInside(c, t);
      Blacken(temp, c, t);
      shape := Plug(c, Black(t));
      RefocusTop(c, Black(t));
    }

    /** `ngx_rbt_black` on a node that may be the sentinel. */
    method Blacken(temp: Node, ghost c: Ctx, ghost t: Tree)
      requires At(c, t) && temp == Ptr(t, sentinel)
      modifies this`mem, temp`red
      ensures At(c, Black(t)) && mem.Keys == old(mem.Keys)
    {
      hide Apart, Spells, SpellsC;
      TopInside(c, t);
      if t.Br? { PaintSpells(mem, root, sentinel, c, t, stale, false); }
      temp.red := false;
      mem := if t.Br? then mem[t.n := mem[t.n].(red := false)] else mem;
    }

    /** Lines 253-321. */
    method FinishDelete(temp: Node, red: bool, ghost c: Ctx, ghost t: Tree)
      requires At(c, t) && temp == Ptr(t, sentinel) && (!c.Top? ==> temp.parent == c.n)
      requires if red then RbOk(Plug(c, t)) else DeleteOk(c, t)
      requires mem.Keys == Nodes(Plug(c, t))
      modifies this`root, this`mem, this`shape, mem.Keys, sentinel`red
      ensures Valid() && mem.Keys == old(mem.Keys) && Elems(shape) == Elems(Plug(c, t))
    {
      hide Holds, Agree, RbOk, DeleteOk, Elems;
      if red {
        RefocusTop(c, t);
        shape := Plug(c, t);
        return;
      }
      Repair(temp, c, t);
      SameNodes(shape, Plug(c, t));
    }

    lemma FocusOn(c: Ctx, t: Tree)
      requires At(Top, Plug(c, t))
      ensures At(c, t)
    {
      Focus(mem, root, sentinel, c, t, stale);
    }

    lemma AtApart(c: Ctx, t: Tree)
      requires At(c, t)
      ensures Apart(c, t, sentinel)
    {
    }

    lemma KidsInside(c: Ctx, t: Tree)
      requires At(c, t) && t.Br?
      ensures (t.l.Br? ==> t.l.n in mem && t.l.n != sentinel) && (t.r.Br? ==> t.r.n in mem && t.r.n != sentinel)
    {
      Dive(c, t);
    }

    lemma SiblingThere(c: Ctx, t: Tree)
      requires DeleteOk(c, t) && !c.Top?
      ensures c.sib.Br?
    {
    }

    /** Lines 169-175 and what follows them. */
    method DeleteOuter(node: Node, temp: Node, ghost c: Ctx, ghost t: Tree, ghost ch: Tree)
      requires Valid() && At(c, t) && OnlyChild(t, ch) && Plug(c, t) == shape && node == t.n && temp == Ptr(ch, sentinel)
      modifies this`root, this`mem, this`shape, this`stale, mem.Keys, sentinel`parent, sentinel`red
      ensures Valid() && mem.Keys == old(mem.Keys) - {node}
      ensures var es, i := old(Elems(shape)), |Pre(c)| + |Elems(t.l)|;
        i < |es| && es[i].n == node && Elems(shape) == Without(es, i)
    {
      hide Holds, Agree, RbOk, Elems, Without, Plug, Pre, DeleteOk;
      AtApart(c, t);
      TopInside(c, t);
      Sides(c, t);
      BypassOk(c, t, ch);
      BypassElems(c, t, ch);
      if node == root {
        TopPlug(t);
        TopPlug(ch);
        DeleteRoot(node, temp, ch);
      } else {
        var red := node.red;
        BypassNodes(c, t, ch, sentinel);
        TopReads(c, t);
        DetachOuter(node, temp, c, t, ch);
        FinishDelete(temp, red, c, ch);
      }
    }

    /** Lines 178-184 and what follows them. */
    method DeleteInner(node: Node, ghost c: Ctx, ghost t: Tree)
      requires Valid() && At(c, t) && t.Br? && t.l.Br? && t.r.Br? && Plug(c, t) == shape && node == t.n && node.right == t.r.n
      modifies this`root, this`mem, this`shape, this`stale, mem.Keys, sentinel`parent, sentinel`red
      ensures Valid() && mem.Keys == old(mem.Keys) - {node}
      ensures var es, i := old(Elems(shape)), |Pre(c)| + |Elems(t.l)|;
        i < |es| && es[i].n == node && Elems(shape) == Without(es, i)
    {
      hide Holds, Agree, RbOk, Elems, Without, Plug, Pre, DeleteOk, GapCtx;
      AtApart(c, t);
      TopInside(c, t);
      ghost var rel, u;
      var subst;
      subst, rel, u := Min(node.right, c, t);
      var left := subst.left;
      var temp := if left != sentinel then left else subst.right;
      var red := subst.red;
      ReplaceOk(c, t, rel, u);
      ReplaceElems(c, t, rel, u);
      ReplaceNodes(c, t, rel, u, sentinel);
      DetachInner(node, subst, temp, c, t, rel, u);
      FinishDelete(temp, red, GapCtx(c, t, rel, u), u.r);
    }

    /** `ngx_rbtree_delete`. Exactly the given node leaves the in-order sequence. */
    method Delete(node: Node) returns (ghost i: nat)
      requires Valid() && node in mem
      modifies this`root, this`mem, this`shape, this`stale, mem.Keys, sentinel`parent, sentinel`red
      ensures Valid() && mem.Keys == old(mem.Keys) - {node}
      ensures i < |old(Elems(shape))| && old(Elems(shape))[i].n == node
      ensures Elems(shape) == Without(old(Elems(shape)), i)
      ensures old(Sorted(order, Elems(shape))) ==> Sorted(order, Elems(shape))
    {
      hide Holds, Agree, RbOk, Elems, Sorted, Without, Plug, Pre;
      ghost var es := Elems(shape);
      ghost var c, t := Locate(Top, shape, node);
      TopPlug(shape);
      FocusOn(c, t);
      TopReads(c, t);
      KidsInside(c, t);
      i := |Pre(c)| + |Elems(t.l)|;
      if node.left == sentinel {
        DeleteOuter(node, node.right, c, t, t.r);
      } else if node.right == sentinel {
        DeleteOuter(node, node.left, c, t, t.l);
      } else {
        DeleteInner(node, c, t);
      }
      if Sorted(order, es) { StillSorted(order, es, i); }
    }

    // ---------- lookup ----------

    /** `ngx_str_rbtree_lookup`. The two signs of `memcmp` are `LexLess` in the two directions. */
    method LookupString(val: seq<nat>, hash: nat) returns (found: Node?)
      requires Valid() && order.ByString? && Sorted(order, Elems(shape))
      ensures found != null ==> found in mem && ItemOf(found) == Item(hash, val)
      ensures found == null ==> forall i :: 0 <= i < |Elems(shape)| ==> Elems(shape)[i].x != Item(hash, val)
    {
      hide Holds, Agree, RbOk, Sorted, Elems, LexLess, NotAside;
      var node := root;
      ghost var c, t, x := Top, shape, Item(hash, val);
      Sides(c, t);
      TopPlug(t);
      TopAside(x);
      while node != sentinel
        modifies {}
        invariant At(c, t) && node == Ptr(t, sentinel) && Plug(c, t) == shape && NotAside(x, c)
        decreases t
      {
        TopReads(c, t);
        Dive(c, t);
        KidsInside(c, t);
        TopInside(c, t);
        ghost var lf, rt := Lf(c, t.n, t.x, t.red, t.r), Rt(c, t.l, t.n, t.x, t.red);
        if GoesLeft(order, x, t.x) { AsideRight(order, x, c, t); }
        else if x != t.x { AsideLeft(order, x, c, t); }
        if hash != node.key {
          if hash < node.key { node := node.left; c, t := lf, t.l; } else { node := node.right; c, t := rt, t.r; }
          continue;
        }
        if |val| != |node.name| {
          if |val| < |node.name| { node := node.left; c, t := lf, t.l; } else { node := node.right; c, t := rt, t.r; }
          continue;
        }
        if LexLess(val, node.name) {
          node := node.left;
          c, t := lf, t.l;
          continue;
        }
        if LexLess(node.name, val) {
          node := node.right;
          c, t := rt, t.r;
          continue;
        }
        LexTotal(val, node.name);
        return node;
      }
      TopInside(c, t);
      if t.Leaf? { NowhereElse(x, c); }
      return null;
    }

    /** `ngx_open_file_lookup`, which compares names by `strcmp`. */
    method LookupFile(val: seq<nat>, hash: nat) returns (found: Node?)
      requires Valid() && order.ByFileName? && Sorted(order, Elems(shape))
      ensures found != null ==> found in mem && ItemOf(found) == Item(hash, val)
      ensures found == null ==> forall i :: 0 <= i < |Elems(shape)| ==> Elems(shape)[i].x != Item(hash, val)
    {
      hide Holds, Agree, RbOk, Sorted, Elems, LexLess, NotAside;
      var node := root;
      ghost var c, t, x := Top, shape, Item(hash, val);
      Sides(c, t);
      TopPlug(t);
      TopAside(x);
      while node != sentinel
        modifies {}
        invariant At(c, t) && node == Ptr(t, sentinel) && Plug(c, t) == shape && NotAside(x, c)
        decreases t
      {
        TopReads(c, t);
        Dive(c, t);
        KidsInside(c, t);
        TopInside(c, t);
        ghost var lf, rt := Lf(c, t.n, t.x, t.red, t.r), Rt(c, t.l, t.n, t.x, t.red);
        if GoesLeft(order, x, t.x) { AsideRight(order, x, c, t); }
        else if x != t.x { AsideLeft(order, x, c, t); }
        if hash < node.key {
          node := node.left;
          c, t := lf, t.l;
          continue;
        }
        if hash > node.key {
          node := node.right;
          c, t := rt, t.r;
          continue;
        }
        if !LexLess(val, node.name) && !LexLess(node.name, val) {
          LexTotal(val, node.name);
          return node;
        }
        if LexLess(val, node.name) { node := node.left; c, t := lf, t.l; } else { node := node.right; c, t := rt, t.r; }
      }
      TopInside(c, t);
      if t.Leaf? { NowhereElse(x, c); }
      return null;
    }
  }
}
