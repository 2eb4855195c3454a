/**
 * The node-building part of `drawit` in schemdraw/parsing/logic_parser.py:
 * every gate of a `LogicTree` gets the next label `'A'`, `'B'`, ... in
 * pre-order, a child named like a gate is built recursively, any other child
 * becomes a leaf, child 0 is the left operand, and the right operand is the
 * last gate-named later child or else the last child. The drawing itself is
 * not modelled.
 */
module NodeBuilder {
  import opened Wrappers
  import opened Gates
  import opened LogicParser

  /** The keys of `elmdefs`: the names drawn, and built, as gates. */
  const ElmNames: set<string> := {"and", "or", "xor", "nand", "xnor", "nor", "not"}

  predicate IsElm(name: Name)
  {
    name.Some? && name.value in ElmNames
  }

  /** How many labels `chr(ord("A") + i)` gives before reaching the surrogate code points. */
  const LabelLimit: nat := 0xD800 - 0x41

  /** `chr(ord("A") + i)`. */
  function LabelAt(i: nat): Name
    requires i < LabelLimit
  {
    Some([(0x41 + i) as char])
  }

  /** The index a label was made from, -1 for a name that is not one character long. */
  function IndexOf(name: Name): int
  {
    if name.Some? && |name.value| == 1 then name.value[0] as int - 0x41 else -1
  }

  lemma IndexOfLabel(i: nat)
    requires i < LabelLimit
    ensures IndexOf(LabelAt(i)) == i
  {
  }

  /** The number of `drawit` calls for `t`: itself plus those of its gate-named children. */
  function GateCount(t: LogicTree): nat
    decreases t, 1
  {
    1 + GateCountFrom(t, 0)
  }

  function GateCountFrom(t: LogicTree, i: nat): nat
    requires i <= |t.children|
    decreases t, 0, |t.children| - i
  {
    if i == |t.children| then 0
    else ChildGates(t.children[i]) + GateCountFrom(t, i + 1)
  }

  /** The number of `drawit` calls a child of a gate leads to: none for a child not named like a gate. */
  function ChildGates(c: LogicTree): nat
    decreases c, 2
  {
    if IsElm(c.node) then GateCount(c) else 0
  }

  /**
   * The position of the last child from `lo` on that is named like a gate
   * (`elm`) or not (`!elm`), if there is one.
   */
  function LastWhere(cs: seq<LogicTree>, lo: nat, elm: bool): (r: Option<nat>)
    ensures r.Some? ==>
      lo <= r.value < |cs| && IsElm(cs[r.value].node) == elm &&
      forall k :: r.value < k < |cs| ==> IsElm(cs[k].node) != elm
    ensures r.None? <==> forall k :: lo <= k < |cs| ==> IsElm(cs[k].node) != elm
    decreases |cs| - lo
  {
    if lo >= |cs| then None
    else match LastWhere(cs, lo + 1, elm)
      case Some(k) => Some(k)
      case None => if IsElm(cs[lo].node) == elm then Some(lo) else None
  }

  /** The `drawit` calls made for the children at positions `i` up to `k`, excluded. */
  function GatesBetween(t: LogicTree, i: nat, k: nat): (r: nat)
    requires i <= k <= |t.children|
    ensures GateCountFrom(t, i) == r + GateCountFrom(t, k)
    decreases k - i
  {
    if i == k then 0 else ChildGates(t.children[i]) + GatesBetween(t, i + 1, k)
  }

  /**
   * The first loop of `drawit`, from child `i` on: children not named like
   * gates become leaves. Past position 0 it leaves the left operand alone
   * and ends with the right operand set to the last such child.
   */
  function LeafPass(children: seq<LogicTree>, i: nat, left: Option<Node>, right: Option<Node>): (r: (Option<Node>, Option<Node>))
    requires i <= |children|
    ensures i > 0 ==> r.0 == left
    ensures i > 0 ==> r.1 == match LastWhere(children, i, false)
      case Some(k) => Some(LeafNode(children[k].node))
      case None => right
    decreases |children| - i
  {
    if i == |children| then (left, right)
    else if IsElm(children[i].node) then LeafPass(children, i + 1, left, right)
    else if i == 0 then LeafPass(children, i + 1, Some(LeafNode(children[i].node)), right)
    else LeafPass(children, i + 1, left, Some(LeafNode(children[i].node)))
  }

  /** The second loop of `drawit`, from child `i` on, with the label counter at `idx`: gate-named children are built recursively. */
  function GatePass(t: LogicTree, i: nat, idx: nat, left: Option<Node>, right: Option<Node>): (r: (Option<Node>, Option<Node>, nat))
    requires i <= |t.children| && idx + GateCountFrom(t, i) <= LabelLimit
    ensures r.2 == idx + GateCountFrom(t, i)
    decreases t, 0, |t.children| - i
  {
    if i == |t.children| then (left, right, idx)
    else if IsElm(t.children[i].node) then
      assert ChildGates(t.children[i]) == GateCount(t.children[i]);
      var (n, next) := Build(t.children[i], idx);
      if i == 0 then GatePass(t, i + 1, next, Some(n), right)
      else GatePass(t, i + 1, next, left, Some(n))
    else GatePass(t, i + 1, idx, left, right)
  }

  /**
   * What `drawit(root, curr_index=idx)` builds: the node and the next free
   * label index. The counter advances by exactly the number of gates drawn.
   */
  function Build(t: LogicTree, idx: nat): (r: (Node, nat))
    requires idx + GateCount(t) <= LabelLimit
    ensures r.1 == idx + GateCount(t)
    decreases t, 1
  {
    var (left, right) := LeafPass(t.children, 0, None, None);
    var (left', right', next) := GatePass(t, 0, idx + 1, left, right);
    (DoubleOperandGateNode(left', right', t.node, LabelAt(idx)), next)
  }

  /** `drawit(root, curr_index=currIndex)`, keeping the label counter and the node and leaving out the drawing. */
  method DrawIt(root: LogicTree, currIndex: nat) returns (nextIndex: nat, node: Node)
    requires currIndex + GateCount(root) <= LabelLimit
    ensures (node, nextIndex) == Build(root, currIndex)
    decreases root
  {
    var toUseLabel := LabelAt(currIndex);
    var curr: nat := currIndex + 1;
    var leftNode: Option<Node> := None;
    var rightNode: Option<Node> := None;
    for i := 0 to |root.children|
      invariant LeafPass(root.children, i, leftNode, rightNode) == LeafPass(root.children, 0, None, None)
    {
      var child := root.children[i];
      if !IsElm(child.node) {
        if i == 0 {
          leftNode := Some(LeafNode(child.node));
        } else {
          rightNode := Some(LeafNode(child.node));
        }
      }
    }
    ghost var leaves := (leftNode, rightNode);
    for i := 0 to |root.children|
      invariant curr + GateCountFrom(root, i) <= LabelLimit
      invariant GatePass(root, i, curr, leftNode, rightNode) == GatePass(root, 0, currIndex + 1, leaves.0, leaves.1)
    {
      var child := root.children[i];
      if IsElm(child.node) {
        var outputNode;
        curr, outputNode := DrawIt(child, curr);
        if i == 0 {
          leftNode := Some(outputNode);
        } else {
          rightNode := Some(outputNode);
        }
      }
    }
    node := DoubleOperandGateNode(leftNode, rightNode, root.node, toUseLabel);
    nextIndex := curr;
  }

  /** The gate labels of a node in pre-order: the gate, its left operand, its right operand. */
  function GateLabels(n: Node): seq<Name>
  {
    match n
    case Leaf(_) => []
    case Gate(_, l, left, right) => [l] + OptionGateLabels(left) + OptionGateLabels(right)
  }

  function OptionGateLabels(o: Option<Node>): seq<Name>
  {
    match o
    case None => []
    case Some(n) => GateLabels(n)
  }

  /** Every name is a label with an index in `[lo, hi)`, and the indices strictly increase. */
  predicate Within(ls: seq<Name>, lo: nat, hi: nat)
  {
    hi <= LabelLimit &&
    (forall k :: 0 <= k < |ls| ==> lo <= IndexOf(ls[k]) < hi && ls[k] == LabelAt(IndexOf(ls[k]))) &&
    (forall a, b :: 0 <= a < b < |ls| ==> IndexOf(ls[a]) < IndexOf(ls[b]))
  }

  lemma WithinConcat(xs: seq<Name>, ys: seq<Name>, lo: nat, mid: nat, hi: nat)
    requires lo <= mid <= hi && Within(xs, lo, mid) && Within(ys, mid, hi)
    ensures Within(xs + ys, lo, hi)
  {
    var zs := xs + ys;
    forall a, b | 0 <= a < b < |zs|
      ensures IndexOf(zs[a]) < IndexOf(zs[b])
    {
      if b < |xs| {
        assert zs[a] == xs[a] && zs[b] == xs[b];
      } else if a >= |xs| {
        assert zs[a] == ys[a - |xs|] && zs[b] == ys[b - |xs|];
      } else {
        assert zs[a] == xs[a] && zs[b] == ys[b - |xs|];
      }
    }
    forall k | 0 <= k < |zs|
      ensures lo <= IndexOf(zs[k]) < hi && zs[k] == LabelAt(IndexOf(zs[k]))
    {
      if k < |xs| {
        assert zs[k] == xs[k];
      } else {
        assert zs[k] == ys[k - |xs|];
      }
    }
  }

  /** The first loop only ever produces leaves, which carry no labels. */
  lemma {:induction false} LeafPassNoLabels(children: seq<LogicTree>, i: nat, left: Option<Node>, right: Option<Node>)
    requires i <= |children|
    requires OptionGateLabels(left) == [] && OptionGateLabels(right) == []
    ensures OptionGateLabels(LeafPass(children, i, left, right).0) == []
    ensures OptionGateLabels(LeafPass(children, i, left, right).1) == []
    decreases |children| - i
  {
    if i < |children| {
      var leaf := Some(LeafNode(children[i].node));
      if IsElm(children[i].node) {
        LeafPassNoLabels(children, i + 1, left, right);
      } else if i == 0 {
        LeafPassNoLabels(children, i + 1, leaf, right);
      } else {
        LeafPassNoLabels(children, i + 1, left, leaf);
      }
    }
  }

  /**
   * The second loop keeps the left operand's labels below the right
   * operand's, all within the indices consumed since `lo`.
   */
  lemma {:induction false} GatePassWithin(t: LogicTree, i: nat, idx: nat, left: Option<Node>, right: Option<Node>, lo: nat, mid: nat)
    requires i <= |t.children| && idx + GateCountFrom(t, i) <= LabelLimit
    requires lo <= mid <= idx
    requires Within(OptionGateLabels(left), lo, mid) && Within(OptionGateLabels(right), mid, idx)
    requires i == 0 ==> OptionGateLabels(right) == []
    ensures Within(OptionGateLabels(GatePass(t, i, idx, left, right).0) + OptionGateLabels(GatePass(t, i, idx, left, right).1),
                   lo, GatePass(t, i, idx, left, right).2)
    decreases t, 0, |t.children| - i
  {
    if i == |t.children| {
      WithinConcat(OptionGateLabels(left), OptionGateLabels(right), lo, mid, idx);
    } else if IsElm(t.children[i].node) {
      var child := t.children[i];
      var (n, next) := Build(child, idx);
      BuildWithin(child, idx);
      if i == 0 {
        GatePassWithin(t, i + 1, next, Some(n), right, lo, next);
      } else {
        GatePassWithin(t, i + 1, next, left, Some(n), lo, idx);
      }
    } else {
      GatePassWithin(t, i + 1, idx, left, right, lo, mid);
    }
  }

  /** The labels of a built node are those of indices `idx` up to the next free index, in strictly increasing order, the root's first. */
  lemma {:induction false} BuildWithin(t: LogicTree, idx: nat)
    requires idx + GateCount(t) <= LabelLimit
    ensures Within(GateLabels(Build(t, idx).0), idx, Build(t, idx).1)
    ensures GateLabels(Build(t, idx).0)[0] == LabelAt(idx)
    decreases t, 1
  {
    var (left, right) := LeafPass(t.children, 0, None, None);
    LeafPassNoLabels(t.children, 0, None, None);
    GatePassWithin(t, 0, idx + 1, left, right, idx + 1, idx + 1);
    var (left', right', next) := GatePass(t, 0, idx + 1, left, right);
    IndexOfLabel(idx);
    WithinConcat([LabelAt(idx)], OptionGateLabels(left') + OptionGateLabels(right'), idx, idx + 1, next);
    assert GateLabels(Build(t, idx).0) == [LabelAt(idx)] + (OptionGateLabels(left') + OptionGateLabels(right'));
  }

  /**
   * The labels `drawit` gives one tree are pairwise distinct, the root's is
   * `chr(ord("A") + idx)`, and every one is `chr(ord("A") + j)` for an index
   * `j` consumed by this call.
   */
  lemma DrawItLabels(t: LogicTree, idx: nat)
    requires idx + GateCount(t) <= LabelLimit
    ensures GateLabels(Build(t, idx).0) != [] && GateLabels(Build(t, idx).0)[0] == LabelAt(idx)
    ensures forall a, b :: 0 <= a < b < |GateLabels(Build(t, idx).0)| ==>
      GateLabels(Build(t, idx).0)[a] != GateLabels(Build(t, idx).0)[b]
    ensures forall k :: 0 <= k < |GateLabels(Build(t, idx).0)| ==>
      idx <= IndexOf(GateLabels(Build(t, idx).0)[k]) < Build(t, idx).1 &&
      GateLabels(Build(t, idx).0)[k] == LabelAt(IndexOf(GateLabels(Build(t, idx).0)[k]))
  {
    BuildWithin(t, idx);
  }

  /** The operand `drawit` makes of a child: a recursively built gate for a gate name, a leaf otherwise. */
  function Operand(c: LogicTree, idx: nat): Node
    requires idx + ChildGates(c) <= LabelLimit
  {
    if IsElm(c.node) then Build(c, idx).0 else LeafNode(c.node)
  }

  /** The right operand after the second loop from position `i` on: the last gate-named child built, if any, else `right`. */
  function LastGateOperand(t: LogicTree, i: nat, idx: nat, right: Option<Node>): Option<Node>
    requires 0 < i <= |t.children| && idx + GateCountFrom(t, i) <= LabelLimit
  {
    match LastWhere(t.children, i, true)
    case Some(k) => Some(Operand(t.children[k], idx + GatesBetween(t, i, k)))
    case None => right
  }

  /**
   * The second loop of `drawit` past position 0 leaves the left operand
   * alone and ends with the right operand set to the last gate-named child,
   * built with the label index reached when the loop gets to it.
   */
  lemma {:induction false} GatePassFrom(t: LogicTree, i: nat, idx: nat, left: Option<Node>, right: Option<Node>)
    requires 0 < i <= |t.children| && idx + GateCountFrom(t, i) <= LabelLimit
    ensures GatePass(t, i, idx, left, right).0 == left
    ensures GatePass(t, i, idx, left, right).1 == LastGateOperand(t, i, idx, right)
    decreases |t.children| - i
  {
    if i < |t.children| {
      var c := t.children[i];
      var later := LastWhere(t.children, i + 1, true);
      if IsElm(c.node) {
        var (n, next) := Build(c, idx);
        assert GatePass(t, i, idx, left, right) == GatePass(t, i + 1, next, left, Some(n));
        GatePassFrom(t, i + 1, next, left, Some(n));
        if later.Some? {
          assert GatesBetween(t, i, later.value) == ChildGates(c) + GatesBetween(t, i + 1, later.value);
        } else {
          assert GatesBetween(t, i, i) == 0;
        }
      } else {
        assert GatePass(t, i, idx, left, right) == GatePass(t, i + 1, idx, left, right);
        GatePassFrom(t, i + 1, idx, left, right);
        if later.Some? {
          assert GatesBetween(t, i, later.value) == ChildGates(c) + GatesBetween(t, i + 1, later.value);
        }
      }
    }
  }

  /** The left operand `drawit` gives a gate: its first child, if any. */
  function LeftOperand(t: LogicTree, idx: nat): Option<Node>
    requires idx + GateCount(t) <= LabelLimit
  {
    if |t.children| == 0 then None
    else
      assert GateCountFrom(t, 0) == ChildGates(t.children[0]) + GateCountFrom(t, 1);
      Some(Operand(t.children[0], idx + 1))
  }

  /** The right operand `drawit` gives a gate: the last gate-named child after position 0, else the last child if it is not the first. */
  function RightOperand(t: LogicTree, idx: nat): Option<Node>
    requires idx + GateCount(t) <= LabelLimit
  {
    match LastWhere(t.children, 1, true)
    case Some(k) => Some(Operand(t.children[k], idx + 1 + GatesBetween(t, 0, k)))
    case None => if |t.children| >= 2 then Some(LeafNode(t.children[|t.children| - 1].node)) else None
  }

  /**
   * The operands `drawit` gives a gate with any number of children: child 0
   * is the left operand; the right operand is the last gate-named child
   * after position 0 when there is one (the second loop runs after the
   * first, so it overrides any leaf), otherwise the last child when there
   * are at least two, otherwise `None`. Every other child is dropped.
   */
  lemma BuildOperands(t: LogicTree, idx: nat)
    requires idx + GateCount(t) <= LabelLimit
    ensures Build(t, idx).0 == Gate(t.node, LabelAt(idx), LeftOperand(t, idx), RightOperand(t, idx))
  {
    var cs := t.children;
    var (left, right) := LeafPass(cs, 0, None, None);
    var (left', right', next) := GatePass(t, 0, idx + 1, left, right);
    assert Build(t, idx).0 == Gate(t.node, LabelAt(idx), left', right');
    if |cs| > 0 {
      LeafPassStart(cs);
      GatePassStart(t, idx, right);
      var mid := idx + 1 + ChildGates(cs[0]);
      GatePassFrom(t, 1, mid, LeftOperand(t, idx), right);
      RightOperandFrom(t, idx, right);
    }
  }

  /** The first loop at position 0: a first child not named like a gate is the left operand. */
  lemma LeafPassStart(cs: seq<LogicTree>)
    requires |cs| > 0
    ensures LeafPass(cs, 0, None, None).0 == if IsElm(cs[0].node) then None else Some(LeafNode(cs[0].node))
    ensures LeafPass(cs, 0, None, None).1 == match LastWhere(cs, 1, false)
      case Some(k) => Some(LeafNode(cs[k].node))
      case None => None
  {
    var first: Option<Node> := if IsElm(cs[0].node) then None else Some(LeafNode(cs[0].node));
    assert LeafPass(cs, 0, None, None) == LeafPass(cs, 1, first, None);
  }

  /** The second loop at position 0: the first child ends up as the left operand. */
  lemma GatePassStart(t: LogicTree, idx: nat, right: Option<Node>)
    requires idx + GateCount(t) <= LabelLimit && |t.children| > 0
    ensures GateCountFrom(t, 0) == ChildGates(t.children[0]) + GateCountFrom(t, 1)
    ensures GatePass(t, 0, idx + 1, LeafPass(t.children, 0, None, None).0, right) ==
      GatePass(t, 1, idx + 1 + ChildGates(t.children[0]), LeftOperand(t, idx), right)
  {
    LeafPassStart(t.children);
  }

  /** The operand the two loops leave on the right is `RightOperand`. */
  lemma RightOperandFrom(t: LogicTree, idx: nat, right: Option<Node>)
    requires idx + GateCount(t) <= LabelLimit && |t.children| > 0
    requires right == match LastWhere(t.children, 1, false)
      case Some(k) => Some(LeafNode(t.children[k].node))
      case None => None
    ensures GateCountFrom(t, 0) == ChildGates(t.children[0]) + GateCountFrom(t, 1)
    ensures LastGateOperand(t, 1, idx + 1 + ChildGates(t.children[0]), right) == RightOperand(t, idx)
  {
    assert GateCountFrom(t, 0) == ChildGates(t.children[0]) + GateCountFrom(t, 1);
    var last := LastWhere(t.children, 1, true);
    if last.Some? {
      RightGateCase(t, idx, right, last.value);
    } else {
      RightLeafCase(t, idx, right);
    }
  }

  lemma RightGateCase(t: LogicTree, idx: nat, right: Option<Node>, k: nat)
    requires idx + GateCount(t) <= LabelLimit && |t.children| > 0
    requires GateCountFrom(t, 0) == ChildGates(t.children[0]) + GateCountFrom(t, 1)
    requires LastWhere(t.children, 1, true) == Some(k)
    ensures LastGateOperand(t, 1, idx + 1 + ChildGates(t.children[0]), right) == RightOperand(t, idx)
  {
    var m := idx + 1 + ChildGates(t.children[0]) + GatesBetween(t, 1, k);
    assert idx + 1 + GatesBetween(t, 0, k) == m;
    assert LastGateOperand(t, 1, idx + 1 + ChildGates(t.children[0]), right) == Some(Operand(t.children[k], m));
  }

  lemma RightLeafCase(t: LogicTree, idx: nat, right: Option<Node>)
    requires idx + GateCount(t) <= LabelLimit && |t.children| > 0
    requires GateCountFrom(t, 0) == ChildGates(t.children[0]) + GateCountFrom(t, 1)
    requires LastWhere(t.children, 1, true).None?
    requires right == match LastWhere(t.children, 1, false)
      case Some(k) => Some(LeafNode(t.children[k].node))
      case None => None
    ensures LastGateOperand(t, 1, idx + 1 + ChildGates(t.children[0]), right) == RightOperand(t, idx)
  {
    if |t.children| >= 2 {
      LastLeafWhenNoGate(t.children, 1);
    }
  }

  /** With no gate-named child from `lo` on, the last child not named like a gate is the last child. */
  lemma {:induction false} LastLeafWhenNoGate(cs: seq<LogicTree>, lo: nat)
    requires lo < |cs| && LastWhere(cs, lo, true).None?
    ensures LastWhere(cs, lo, false) == Some(|cs| - 1)
    decreases |cs| - lo
  {
    if lo + 1 < |cs| {
      assert LastWhere(cs, lo + 1, true).None?;
      LastLeafWhenNoGate(cs, lo + 1);
    }
  }

  /**
   * `a and (b or c) and d`: the leaf loop puts `a` left and `d` right, then
   * the gate loop overwrites the right operand with the `or` gate, labelled
   * `B`, so `d` is dropped.
   */
  lemma MixedOperandsDropLaterLeaf()
    ensures var orTree := LogicTree(Some("or"), [LogicTree(Some("b"), []), LogicTree(Some("c"), [])]);
      var t := LogicTree(Some("and"), [LogicTree(Some("a"), []), orTree, LogicTree(Some("d"), [])]);
      GateCount(t) == 2 &&
      Build(t, 0).0 == Gate(Some("and"), Some("A"), Some(Leaf(Some("a"))),
                            Some(Gate(Some("or"), Some("B"), Some(Leaf(Some("b"))), Some(Leaf(Some("c"))))))
  {
    var b := LogicTree(Some("b"), []);
    var c := LogicTree(Some("c"), []);
    var orTree := LogicTree(Some("or"), [b, c]);
    var t := LogicTree(Some("and"), [LogicTree(Some("a"), []), orTree, LogicTree(Some("d"), [])]);
    assert ChildGates(b) == 0 && ChildGates(c) == 0;
    assert GateCountFrom(orTree, 2) == 0;
    assert GateCountFrom(orTree, 1) == 0;
    assert GateCount(orTree) == 1;
    BuildBinary(Some("or"), b, c, 1);
    assert GateCountFrom(t, 3) == 0;
    assert GateCountFrom(t, 2) == 0;
    assert IsElm(orTree.node) && ChildGates(orTree) == 1;
    assert GateCountFrom(t, 1) == 1;
    assert GateCountFrom(t, 0) == 1;
    assert GateCount(t) == 2;
    BuildOperands(t, 0);
    assert LastWhere(t.children, 1, true) == Some(1);
    assert GatesBetween(t, 0, 1) == 0;
    assert LabelAt(0) == Some("A") && LabelAt(1) == Some("B");
  }

  /** A one-child tree: the child is the left operand, the right operand stays `None`. */
  lemma BuildUnary(g: Name, c0: LogicTree, idx: nat)
    requires idx + GateCount(LogicTree(g, [c0])) <= LabelLimit
    ensures GateCount(LogicTree(g, [c0])) == 1 + ChildGates(c0)
    ensures Build(LogicTree(g, [c0]), idx).0 == Gate(g, LabelAt(idx), Some(Operand(c0, idx + 1)), None)
  {
    var t := LogicTree(g, [c0]);
    assert GateCountFrom(t, 1) == 0;
    assert GateCountFrom(t, 0) == ChildGates(c0);
    var left := if IsElm(c0.node) then None else Some(LeafNode(c0.node));
    assert LeafPass(t.children, 0, None, None) == (left, None);
    assert GatePass(t, 0, idx + 1, left, None) == GatePass(t, 1, idx + 1 + ChildGates(c0), Some(Operand(c0, idx + 1)), None);
  }

  /**
   * A two-child tree: child 0 is the left operand and child 1 the right,
   * labelled in pre-order (the left subtree's labels come first).
   */
  lemma BuildBinary(g: Name, c0: LogicTree, c1: LogicTree, idx: nat)
    requires idx + GateCount(LogicTree(g, [c0, c1])) <= LabelLimit
    ensures GateCount(LogicTree(g, [c0, c1])) == 1 + ChildGates(c0) + ChildGates(c1)
    ensures Build(LogicTree(g, [c0, c1]), idx).0 ==
      Gate(g, LabelAt(idx), Some(Operand(c0, idx + 1)), Some(Operand(c1, idx + 1 + ChildGates(c0))))
  {
    var t := LogicTree(g, [c0, c1]);
    assert GateCountFrom(t, 2) == 0;
    assert GateCountFrom(t, 1) == ChildGates(c1);
    assert GateCountFrom(t, 0) == ChildGates(c0) + ChildGates(c1);
    var left := if IsElm(c0.node) then None else Some(LeafNode(c0.node));
    var right := if IsElm(c1.node) then None else Some(LeafNode(c1.node));
    assert LeafPass(t.children, 1, left, None) == (left, right);
    assert LeafPass(t.children, 0, None, None) == (left, right);
    var mid := idx + 1 + ChildGates(c0);
    assert GatePass(t, 0, idx + 1, left, right) == GatePass(t, 1, mid, Some(Operand(c0, idx + 1)), right);
    assert GatePass(t, 1, mid, Some(Operand(c0, idx + 1)), right) ==
      GatePass(t, 2, mid + ChildGates(c1), Some(Operand(c0, idx + 1)), Some(Operand(c1, mid)));
  }

  /**
   * A group of three operands, as `a and b and c` is parsed: the first loop
   * sets the left operand to `a`, then overwrites the right operand with `b`
   * and then with `c`, so `b` is dropped.
   */
  lemma ThreeOperandsDropMiddle()
    ensures Build(LogicTree(Some("and"), [LogicTree(Some("a"), []), LogicTree(Some("b"), []), LogicTree(Some("c"), [])]), 0).0 ==
      Gate(Some("and"), Some("A"), Some(Leaf(Some("a"))), Some(Leaf(Some("c"))))
  {
    var t := LogicTree(Some("and"), [LogicTree(Some("a"), []), LogicTree(Some("b"), []), LogicTree(Some("c"), [])]);
    assert GateCountFrom(t, 0) == 0 by {
      assert GateCountFrom(t, 3) == 0;
    }
    assert LabelAt(0) == Some("A");
  }

  /**
   * From tokens to a value: a binary group `x op y` over two identifiers
   * that are not gate names converts, builds to a gate labelled `A` over two
   * leaves, and evaluates to the operator's truth table on the inputs,
   * inverted exactly when `A` is faulty.
   */
  lemma ParseBuildEvaluate(x: string, op: string, y: string, inputs: map<Name, bool>, faultySet: seq<Name>)
    requires IsIdentifier(x) && IsIdentifier(y) && x !in ElmNames && y !in ElmNames
    requires Normalize(op) in {"and", "nand", "or", "nor", "xor", "xnor"}
    requires Some(x) in inputs && Some(y) in inputs
    ensures ToTree(Group([Str(x), Str(op), Str(y)])).Ok?
    ensures var tree := ToTree(Group([Str(x), Str(op), Str(y)])).value;
      GateCount(tree) == 1 &&
      Build(tree, 0).0 == Gate(Some(Normalize(op)), Some("A"), Some(Leaf(Some(x))), Some(Leaf(Some(y)))) &&
      Evaluate(Build(tree, 0).0, inputs, faultySet) ==
        Ok(Truth(Normalize(op), inputs[Some(x)], inputs[Some(y)]) != (Some("A") in faultySet))
  {
    var items := [Str(x), Str(op), Str(y)];
    assert !StartsWithNot(items);
    IdentifierLeaf(x);
    IdentifierLeaf(y);
    var leafX := LogicTree(Some(x), []);
    var leafY := LogicTree(Some(y), []);
    var operands := seq(2, i requires 0 <= i < 2 => ToTree(items[2 * i]));
    assert operands == [Ok(leafX), Ok(leafY)];
    assert operands[1..] == [Ok(leafY)];
    assert operands[1..][1..] == [];
    assert AllOk(operands[1..][1..]) == Ok([]);
    assert [leafY] + [] == [leafY];
    assert AllOk(operands[1..]) == Ok([leafY]);
    assert [leafX] + [leafY] == [leafX, leafY];
    assert AllOk(operands) == Ok([leafX, leafY]);
    var tree := LogicTree(Some(Normalize(op)), [leafX, leafY]);
    assert ToTree(Group(items)) == Ok(tree);
    assert ChildGates(leafX) == 0 && ChildGates(leafY) == 0;
    assert GateCountFrom(tree, 2) == 0;
    assert GateCountFrom(tree, 1) == 0;
    assert GateCount(tree) == 1;
    BuildBinary(Some(Normalize(op)), leafX, leafY, 0);
    assert LabelAt(0) == Some("A");
    GateSemantics(Normalize(op), Some("A"), Leaf(Some(x)), Some(Leaf(Some(y))), inputs, faultySet,
                  inputs[Some(x)], inputs[Some(y)]);
  }
}
