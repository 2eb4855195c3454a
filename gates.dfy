/**
 * The gate tree of schemdraw/parsing/circuit.py: leaves hold an input variable,
 * gates hold an operator name, a label and up to two operands, and evaluation
 * inverts the output of every gate whose label is in the fault set.
 *
 * Python values that are either a `str` or `None` (a leaf's value, a gate's
 * operator name, a label) are modelled as `Name`; an exception raised during
 * evaluation is an `Err`.
 */
module Gates {
  import opened Wrappers

  /** A Python value that is a `str` or `None`. */
  type Name = Option<string>

  /** A node as the two factories build it: a leaf, or a gate whose operands may be `None`. */
  datatype Node =
    | Leaf(value: Name)
    | Gate(gate: Name, gateLabel: Name, left: Option<Node>, right: Option<Node>)

  /** The exceptions evaluation can raise. */
  datatype Error =
    | UnknownVariable(name: Name)   // KeyError from `inputs[value]`
    | UnknownOperator(gate: Name)   // KeyError from `BASE_OPERATIONS[gate]`
    | ArityMismatch(gate: Name)     // TypeError: the operation called with the wrong number of arguments
    | NoneOperand                   // AttributeError: an operand that is `None` evaluated
    | MissingHead                   // AttributeError: a circuit whose head was never set

  /** The nine entries of `BASE_OPERATIONS`. */
  datatype BaseOp = Not | Or | Nor | Xor | And | Nand | Implies | Equals | Xnor

  /** The keys of `BASE_OPERATIONS`. */
  const BaseKeys: set<string> := {"not", "or", "nor", "xor", "and", "nand", "implies", "equals", "xnor"}

  /** `BASE_OPERATIONS[gate]`, `None` where the key is missing; only `not` takes one argument. */
  function BaseOperation(gate: Name): (r: Option<BaseOp>)
    ensures r.Some? <==> gate.Some? && gate.value in BaseKeys
    ensures r.Some? ==> (Arity(r.value) == 1 <==> gate == Some("not"))
  {
    if gate == Some("not") then Some(Not)
    else if gate == Some("or") then Some(Or)
    else if gate == Some("nor") then Some(Nor)
    else if gate == Some("xor") then Some(Xor)
    else if gate == Some("and") then Some(And)
    else if gate == Some("nand") then Some(Nand)
    else if gate == Some("implies") then Some(Implies)
    else if gate == Some("equals") then Some(Equals)
    else if gate == Some("xnor") then Some(Xnor)
    else None
  }

  /** How many arguments the lambda of each entry takes. */
  function Arity(op: BaseOp): nat
  {
    if op == Not then 1 else 2
  }

  /** The body of each lambda of `BASE_OPERATIONS`. */
  function Apply(op: BaseOp, args: seq<bool>): bool
    requires |args| == Arity(op)
  {
    match op
    case Not => !args[0]
    case Or => args[0] || args[1]
    case Nor => !(args[0] || args[1])
    case Xor => args[0] != args[1]
    case And => args[0] && args[1]
    case Nand => !(args[0] && args[1])
    case Implies => !args[0] || args[1]
    case Equals => args[0] == args[1]
    case Xnor => !(args[0] != args[1])
  }

  /** `SINGLE_OPERAND_OPS`; evaluation never consults it, and only its `not` is a key of `BASE_OPERATIONS`. */
  const SingleOperandOps: seq<string> := ["not", "~", "-"]

  /** `DOUBLE_OPERAND_OPS`: a gate named here evaluates both operands. */
  const DoubleOperandOps: seq<string> := ["and", "nand", "or", "nor", "xor", "xnor", "=>", "implies", "=", "!="]

  predicate IsDoubleOperand(gate: Name)
  {
    gate.Some? && gate.value in DoubleOperandOps
  }

  /** `BASE_OPERATIONS[gate](*args)`: a missing key or a wrong argument count raises. */
  function Call(gate: Name, args: seq<bool>): (r: Result<bool, Error>)
    ensures r.Ok? <==> BaseOperation(gate).Some? && Arity(BaseOperation(gate).value) == |args|
    ensures BaseOperation(gate).None? ==> r == Err(UnknownOperator(gate))
  {
    match BaseOperation(gate)
    case None => Err(UnknownOperator(gate))
    case Some(op) => if |args| == Arity(op) then Ok(Apply(op, args)) else Err(ArityMismatch(gate))
  }

  /** `leaf_node(value)`. */
  function LeafNode(value: Name): (r: Node)
    ensures forall inputs, faultySet ::
              Evaluate(r, inputs, faultySet) == if value in inputs then Ok(inputs[value]) else Err(UnknownVariable(value))
    ensures Labels(r) == {}
  {
    Leaf(value)
  }

  /** `single_operand_gate_node(left, gate, label)`: the right operand is `None`. */
  function SingleOperandGateNode(left: Option<Node>, gate: Name, gateLabel: Name): (r: Node)
    ensures IsDoubleOperand(gate) ==> forall inputs, faultySet :: Evaluate(r, inputs, faultySet).Err?
    ensures Labels(r) == {gateLabel} + OptionLabels(left)
  {
    Gate(gate, gateLabel, left, None)
  }

  /** `double_operand_gate_node(left, right, gate, label)`. */
  function DoubleOperandGateNode(left: Option<Node>, right: Option<Node>, gate: Name, gateLabel: Name): (r: Node)
    ensures !IsDoubleOperand(gate) ==>
              forall inputs, faultySet ::
                Evaluate(r, inputs, faultySet) == Evaluate(SingleOperandGateNode(left, gate, gateLabel), inputs, faultySet)
    ensures Labels(r) == {gateLabel} + OptionLabels(left) + OptionLabels(right)
  {
    Gate(gate, gateLabel, left, right)
  }

  /** `Node.evaluate_given_inputs(inputs, faulty_set)`. */
  function Evaluate(n: Node, inputs: map<Name, bool>, faultySet: seq<Name>): (r: Result<bool, Error>)
    ensures r != Err(MissingHead)
  {
    match n
    case Leaf(v) => if v in inputs then Ok(inputs[v]) else Err(UnknownVariable(v))
    case Gate(g, l, left, right) =>
      if left.None? then Err(NoneOperand)
      else
        var x := Evaluate(left.value, inputs, faultySet);
        if x.Err? then x
        else
          var output :=
            if IsDoubleOperand(g) then
              if right.None? then Err(NoneOperand)
              else
                var y := Evaluate(right.value, inputs, faultySet);
                if y.Err? then y else Call(g, [x.value, y.value])
            else Call(g, [x.value]);
          if output.Err? then output
          else if l in faultySet then Ok(!output.value)
          else Ok(output.value)
  }

  /** The labels of all gates of a tree (leaves have none). */
  function Labels(n: Node): set<Name>
  {
    match n
    case Leaf(_) => {}
    case Gate(_, l, left, right) => {l} + OptionLabels(left) + OptionLabels(right)
  }

  function OptionLabels(o: Option<Node>): set<Name>
  {
    match o
    case None => {}
    case Some(n) => Labels(n)
  }

  /** The gate's entry exists in `BASE_OPERATIONS` and takes `k` arguments. */
  predicate Accepts(gate: Name, k: nat)
  {
    BaseOperation(gate).Some? && Arity(BaseOperation(gate).value) == k
  }

  /**
   * The structural condition under which evaluation raises nothing: every
   * evaluated leaf's variable is an input, every evaluated operand is present,
   * and every gate's operation takes as many arguments as it is given.
   */
  predicate Evaluable(n: Node, inputs: map<Name, bool>)
  {
    match n
    case Leaf(v) => v in inputs
    case Gate(g, _, left, right) =>
      left.Some? && Evaluable(left.value, inputs) &&
      if IsDoubleOperand(g) then right.Some? && Evaluable(right.value, inputs) && Accepts(g, 2)
      else Accepts(g, 1)
  }

  /** Evaluation succeeds exactly on evaluable trees, whatever the fault set. */
  lemma {:induction false} EvaluateOkIff(n: Node, inputs: map<Name, bool>, faultySet: seq<Name>)
    ensures Evaluate(n, inputs, faultySet).Ok? <==> Evaluable(n, inputs)
  {
    match n
    case Leaf(_) =>
    case Gate(g, _, left, right) =>
      if left.Some? {
        EvaluateOkIff(left.value, inputs, faultySet);
        if IsDoubleOperand(g) && right.Some? {
          EvaluateOkIff(right.value, inputs, faultySet);
        }
      }
  }

  /** Faults only invert values: the exception raised, if any, does not depend on the fault set. */
  lemma {:induction false} ErrorIgnoresFaults(n: Node, inputs: map<Name, bool>, f1: seq<Name>, f2: seq<Name>)
    requires Evaluate(n, inputs, f1).Err?
    ensures Evaluate(n, inputs, f2) == Evaluate(n, inputs, f1)
  {
    match n
    case Leaf(_) =>
    case Gate(g, _, left, right) =>
      if left.Some? {
        EvaluateOkIff(left.value, inputs, f1);
        EvaluateOkIff(left.value, inputs, f2);
        if Evaluate(left.value, inputs, f1).Err? {
          ErrorIgnoresFaults(left.value, inputs, f1, f2);
        } else if IsDoubleOperand(g) && right.Some? {
          EvaluateOkIff(right.value, inputs, f1);
          EvaluateOkIff(right.value, inputs, f2);
          if Evaluate(right.value, inputs, f1).Err? {
            ErrorIgnoresFaults(right.value, inputs, f1, f2);
          }
        }
      }
  }

  /**
   * Only membership of the tree's own labels in the fault set matters: order,
   * duplicates and labels that occur nowhere in the tree change nothing.
   */
  lemma {:induction false} MembershipOnly(n: Node, inputs: map<Name, bool>, f1: seq<Name>, f2: seq<Name>)
    requires forall l :: l in Labels(n) ==> (l in f1 <==> l in f2)
    ensures Evaluate(n, inputs, f1) == Evaluate(n, inputs, f2)
  {
    match n
    case Leaf(_) =>
    case Gate(_, _, left, right) =>
      if left.Some? {
        assert Labels(left.value) <= Labels(n);
        MembershipOnly(left.value, inputs, f1, f2);
      }
      if right.Some? {
        assert Labels(right.value) <= Labels(n);
        MembershipOnly(right.value, inputs, f1, f2);
      }
  }

  /**
   * A fault at a gate inverts that gate's result: if two fault sets differ
   * only in the gate's own label (which labels nothing below it), the two
   * results are each other's negation.
   */
  lemma FaultInvertsGate(n: Node, inputs: map<Name, bool>, f1: seq<Name>, f2: seq<Name>)
    requires n.Gate? && Evaluable(n, inputs)
    requires n.gateLabel !in OptionLabels(n.left) + OptionLabels(n.right)
    requires n.gateLabel in f1 && n.gateLabel !in f2
    requires forall l :: l in Labels(n) && l != n.gateLabel ==> (l in f1 <==> l in f2)
    ensures Evaluate(n, inputs, f1).Ok? && Evaluate(n, inputs, f2).Ok?
    ensures Evaluate(n, inputs, f1).value == !Evaluate(n, inputs, f2).value
  {
    EvaluateOkIff(n, inputs, f1);
    EvaluateOkIff(n, inputs, f2);
    MembershipOnly(n.left.value, inputs, f1, f2);
    if n.right.Some? {
      MembershipOnly(n.right.value, inputs, f1, f2);
    }
  }

  /** The operator names a gate can evaluate with: the keys of `BASE_OPERATIONS` whose arity matches the `DOUBLE_OPERAND_OPS` test. */
  const UsableOps: set<string> := {"not", "and", "nand", "or", "nor", "xor", "xnor", "implies"}

  /** The canonical truth tables of the operators (`not` reads only `x`). */
  function Truth(op: string, x: bool, y: bool): bool
    requires op in UsableOps + {"equals"}
  {
    if op == "not" then !x
    else if op == "and" then x && y
    else if op == "nand" then !x || !y
    else if op == "or" then x || y
    else if op == "nor" then !x && !y
    else if op == "xor" then (x && !y) || (!x && y)
    else if op == "xnor" || op == "equals" then (x && y) || (!x && !y)
    else x ==> y
  }

  /** One evaluation step: a gate over evaluated operands calls its operation and inverts the output when faulty. */
  lemma GateStep(g: Name, gateLabel: Name, left: Node, right: Option<Node>,
                 inputs: map<Name, bool>, faultySet: seq<Name>, x: bool, y: bool)
    requires Evaluate(left, inputs, faultySet) == Ok(x)
    requires IsDoubleOperand(g) ==> right.Some? && Evaluate(right.value, inputs, faultySet) == Ok(y)
    ensures var output := Call(g, if IsDoubleOperand(g) then [x, y] else [x]);
      Evaluate(Gate(g, gateLabel, Some(left), right), inputs, faultySet) ==
        if output.Err? then output else Ok(output.value != (gateLabel in faultySet))
  {
  }

  /** Each usable operator's table entry computes its truth table; only `not` takes a single operand. */
  lemma TruthTable(op: string, x: bool, y: bool)
    requires op in UsableOps
    ensures IsDoubleOperand(Some(op)) <==> op != "not"
    ensures Call(Some(op), if op == "not" then [x] else [x, y]) == Ok(Truth(op, x, y))
  {
    var g := Some(op);
    if op == "not" {
      assert !IsDoubleOperand(g) && BaseOperation(g) == Some(Not);
    } else {
      assert IsDoubleOperand(g);
      if op == "and" {
        assert BaseOperation(g) == Some(And);
      } else if op == "nand" {
        assert BaseOperation(g) == Some(Nand);
      } else if op == "or" {
        assert BaseOperation(g) == Some(Or);
      } else if op == "nor" {
        assert BaseOperation(g) == Some(Nor);
      } else if op == "xor" {
        assert BaseOperation(g) == Some(Xor);
      } else if op == "xnor" {
        assert BaseOperation(g) == Some(Xnor);
      } else {
        assert BaseOperation(g) == Some(Implies);
      }
    }
  }

  /**
   * A gate over operands that evaluate to `x` (and `y`) yields its operator's
   * truth-table value, inverted exactly when its label is in the fault set;
   * with an empty fault set it is the plain truth-table value. A gate whose
   * operator is not in `DOUBLE_OPERAND_OPS` never looks at its right operand.
   */
  lemma GateSemantics(op: string, gateLabel: Name, left: Node, right: Option<Node>,
                      inputs: map<Name, bool>, faultySet: seq<Name>, x: bool, y: bool)
    requires op in UsableOps
    requires Evaluate(left, inputs, faultySet) == Ok(x)
    requires op != "not" ==> right.Some? && Evaluate(right.value, inputs, faultySet) == Ok(y)
    ensures Evaluate(Gate(Some(op), gateLabel, Some(left), right), inputs, faultySet) ==
      Ok(Truth(op, x, y) != (gateLabel in faultySet))
  {
    TruthTable(op, x, y);
    GateStep(Some(op), gateLabel, left, right, inputs, faultySet, x, y);
  }

  /**
   * With both operands evaluating, a gate evaluates exactly when its operator
   * is one of `UsableOps`. The names `"=>"`, `"="`, `"!="`, `"~"` and `"-"`,
   * listed as operators but missing from `BASE_OPERATIONS`, fail on lookup,
   * as does any unlisted name such as `"buf"`; `"equals"`, a key of
   * `BASE_OPERATIONS` missing from `DOUBLE_OPERAND_OPS`, is called with one
   * argument and fails too.
   */
  lemma {:induction false} UsableOperators(gate: Name, gateLabel: Name, left: Node, right: Node,
                                           inputs: map<Name, bool>, faultySet: seq<Name>)
    requires Evaluable(left, inputs) && Evaluable(right, inputs)
    ensures Evaluate(Gate(gate, gateLabel, Some(left), Some(right)), inputs, faultySet).Ok? <==>
      gate.Some? && gate.value in UsableOps
    ensures gate.Some? && gate.value in ["=>", "=", "!=", "~", "-", "buf"] ==>
      Evaluate(Gate(gate, gateLabel, Some(left), Some(right)), inputs, faultySet) == Err(UnknownOperator(gate))
    ensures gate.Some? && gate.value in SingleOperandOps && gate.value != "not" ==>
      Evaluate(Gate(gate, gateLabel, Some(left), Some(right)), inputs, faultySet) == Err(UnknownOperator(gate))
    ensures gate == Some("equals") ==>
      Evaluate(Gate(gate, gateLabel, Some(left), Some(right)), inputs, faultySet) == Err(ArityMismatch(gate))
  {
    EvaluateOkIff(left, inputs, faultySet);
    EvaluateOkIff(right, inputs, faultySet);
    EvaluateOkIff(Gate(gate, gateLabel, Some(left), Some(right)), inputs, faultySet);
  }
}
