# Fault diagnosis for schemdraw's logic parser, in Dafny

This project models the fault-injection diagnosis engine of schemdraw's
`parsing` package and proves properties about it.

- **Gate trees** (`gates.dfy`, module `Gates`). A node is a leaf holding an input variable, or a gate holding:
  - an operator name;
  - a label;
  - up to two operands.

  Evaluation looks the operator up in the nine-entry operation table. It evaluates the right operand only for operators in the two-operand list, and inverts the output of every gate whose label is in the fault set.
- **The circuit registry and the fault search** (`circuit.dfy`, module `Circuits`).
  - `Circuit` is a class with three fields: a map from label to node, the list of registered labels, and the head label.
  - `FindFaultyGates` is the nested loop that tries every combination of the registered labels, smallest first, and keeps those whose faulted evaluation matches the observed output.
  - `itertools.combinations` is modelled in `itertools.dfy` (module `Itertools`).
- **Token trees to logic trees** (`logic_parser.dfy`, module `LogicParser`). This is `to_tree`: it normalises operator aliases and folds a leading `not` into a group's operator by complementing it.
- **Node construction in `drawit`** (`node_builder.dfy`, module `NodeBuilder`). `DrawIt` is the recursive method whose two loops:
  - give each gate the next label `'A'`, `'B'`, … in pre-order;
  - build the gate-tree node for the circuit.

  The drawing itself is not modelled.

Python values that are a `str` or `None` are modelled as `Name = Option<string>`. Every exception that the code can raise is an `Err` value of a `Result`:
- a `KeyError` on an input or an operator;
- a `TypeError` from calling an operation with the wrong number of arguments;
- an `AttributeError` on a `None` operand or a missing head;
- an `IndexError` in `to_tree`.

Behaviour of the code worth noting, which the model follows:

- `"equals"` is a key of `BASE_OPERATIONS` but is not in `DOUBLE_OPERAND_OPS`. Its two-argument function is therefore called with one argument, and evaluation fails (`Gates.UsableOperators`).
- A circuit whose head is a leaf evaluates that leaf. The code raises no error for it.
- `add_nodes` registers the label of any node it is given, including the `None` label of a leaf.
- `not not a` converts to a tree whose operator is `None`, with the single operand `not` (`LogicParser.DoubleNegation`).
- `a and b nand c` converts as an `and` of three operands, because only position 1 is read as the operator (`LogicParser.OnlyFirstOperatorRead`).
- `drawit` keeps only two operands of a gate with three or more children. Child 0 is the left operand. The right operand is the last gate-named child after position 0, because the loop over gate children runs after the loop over leaves; only when there is no such child is it the last child (`NodeBuilder.BuildOperands`). So `a and b and c` drops `b` (`NodeBuilder.ThreeOperandsDropMiddle`), and `a and (b or c) and d` drops `d` (`NodeBuilder.MixedOperandsDropLaterLeaf`).
- `not not (a and b)` converts to a tree whose operator is `None`, with the single operand `not`: the negated group's position 1 is the group `a and b`, which the complement table does not hold (`LogicParser.DoubleNegationOfGroup`).
- `logic_parser.py` imports `gate_node`, which `circuit.py` does not define. The model builds gates with `double_operand_gate_node`, which takes the same arguments.

## Model

| member | source | states |
|---|---|---|
| Gates.BaseOperation | schemdraw/parsing/circuit.py:3-13 | the table has an entry exactly for its nine keys, and only the `not` entry takes one argument |
| Gates.Call | schemdraw/parsing/circuit.py:3-13 | calling a table entry succeeds exactly when the operator is a key of the table and takes as many arguments as given; a missing key is an unknown-operator error |
| Gates.LeafNode | schemdraw/parsing/circuit.py:31-33 | a leaf evaluates to `inputs[value]` under every fault set, is an unknown-variable error when the variable is absent, and carries no label |
| Gates.SingleOperandGateNode | schemdraw/parsing/circuit.py:39-41 | a single-operand node whose operator is a two-operand one always fails (its right operand is `None`); its labels are its own plus its operand's |
| Gates.DoubleOperandGateNode | schemdraw/parsing/circuit.py:35-37 | for an operator outside `DOUBLE_OPERAND_OPS` the right operand is ignored: the node evaluates exactly like the single-operand node; its labels are its own plus both operands' |
| Gates.Evaluate | schemdraw/parsing/circuit.py:52-68 | evaluation never reports a missing head (that error belongs to the circuit) |
| Gates.EvaluateOkIff | schemdraw/parsing/circuit.py:52-68 | evaluation succeeds if and only if every leaf reached is an input, every operand reached is present and every operator takes the number of operands it is given, whatever the fault set |
| Gates.ErrorIgnoresFaults | schemdraw/parsing/circuit.py:52-68 | the exception evaluation raises, if any, is the same for every fault set |
| Gates.MembershipOnly | schemdraw/parsing/circuit.py:65-68 | two fault sets that agree on membership of the tree's labels give the same result: order, duplicates and foreign labels do not matter |
| Gates.FaultInvertsGate | schemdraw/parsing/circuit.py:65-68 | adding a gate's own label to the fault set, all else equal, negates the gate's result |
| Gates.TruthTable | schemdraw/parsing/circuit.py:3-13 | each of the eight usable operators' table entries computes its textbook truth table, and only `not` is a single-operand operator |
| Gates.GateSemantics | schemdraw/parsing/circuit.py:3-13 | a gate with a usable operator yields the operator's textbook truth table on its operands, inverted exactly when its label is faulty; `not` never reads its right operand |
| Gates.UsableOperators | schemdraw/parsing/circuit.py:27-29 | with evaluable operands a gate evaluates if and only if its operator is one of the eight usable names; `=>`, `=`, `!=`, `~`, `-` and `buf` fail on lookup, so every entry of `SINGLE_OPERAND_OPS` but `not` does, and `equals` fails on arity |
| Circuits.Circuit.constructor | schemdraw/parsing/circuit.py:72-74 | a new circuit has no gates, no labels and no head, and is consistent |
| Circuits.Circuit.AddNodes | schemdraw/parsing/circuit.py:76-80 | the node is stored under its label (last write wins), the label is appended even when already present, the head moves only when asked, and the registry stays consistent |
| Circuits.Circuit.EvaluateWithFaults | schemdraw/parsing/circuit.py:82-83 | a circuit without a head fails with a missing-head error and only then; otherwise it is the head node's evaluation, which succeeds exactly when that node is evaluable |
| Circuits.CircuitErrorIgnoresFaults | schemdraw/parsing/circuit.py:82-83 | whether a circuit evaluates, and the exception it raises, do not depend on the fault set |
| Circuits.CircuitMembershipOnly | schemdraw/parsing/circuit.py:82-83 | fault sets with the same members give the same circuit result |
| Circuits.Select | schemdraw/parsing/circuit.py:90-93 | a candidate is kept exactly when its faulted evaluation is the expected output |
| Circuits.SelectAscending | schemdraw/parsing/circuit.py:89-93 | filtering keeps candidate order, so ascending sizes stay ascending |
| Circuits.ExplanationsSoundComplete | schemdraw/parsing/circuit.py:86-94 | a sequence is reported exactly when it is a non-empty subsequence of the registered labels whose faulted evaluation matches the expected output |
| Circuits.ExplanationsAscending | schemdraw/parsing/circuit.py:89-90 | the empty set is never reported and reported sets come in non-decreasing size |
| Circuits.EveryExplanationFound | schemdraw/parsing/circuit.py:86-94 | every non-empty fault set drawn from the registered labels that explains the observation is reported, as a combination with the same members |
| Circuits.FindFaultyGates | schemdraw/parsing/circuit.py:86-94 | the search returns the explanations in `combinations` order, size by size; it fails, with the circuit's own exception, exactly when there are labels and the circuit cannot be evaluated |
| Circuits.DemoCandidates | schemdraw/parsing/circuit.py:89-90 | for labels A and B the candidates are [A], [B], [A, B] in that order |
| Circuits.DemoEvaluations | schemdraw/parsing/circuit.py:112-115 | with all inputs true the head B is true without faults or with only A faulty, and false whenever B is faulty |
| Circuits.DemoExplanations | schemdraw/parsing/circuit.py:117-118 | a circuit registering A then the head B finds exactly [B] and [A, B] when searching for false |
| Circuits.DemoScenario | schemdraw/parsing/circuit.py:99-118 | for A = a and b, head B = A or c, all inputs true: faulting B gives false, and the search for false returns [[B], [A, B]] |
| Itertools.Combinations | schemdraw/parsing/circuit.py:90 | `combinations(s, r)` yields at least one tuple exactly when `r <= len(s)` |
| Itertools.CombinationsMembers | schemdraw/parsing/circuit.py:90 | `combinations(s, r)` yields exactly the subsequences of `s` of length `r` |
| Itertools.CombinationsUpToMembers | schemdraw/parsing/circuit.py:89-90 | the sizes 1 to `n` together yield exactly the non-empty subsequences of length at most `n` |
| Itertools.CombinationsUpToAscending | schemdraw/parsing/circuit.py:89-90 | candidates come in non-decreasing size, each between 1 and `n` |
| LogicParser.Normalize | schemdraw/parsing/logic_parser.py:87-89 | `&` and `∧` become `and`; `\|`, `∨` and `+` become `or`; `⊕` and `⊻` become `xor`; any other name passes unchanged; no alias survives |
| LogicParser.Complement | schemdraw/parsing/logic_parser.py:91-94 | the complement lookup hits exactly the eight names of the table and maps each to a different one of them |
| LogicParser.ComplementInvolution | schemdraw/parsing/logic_parser.py:91-94 | the complement table is defined exactly on its eight names, maps them among themselves without fixed points, and is its own inverse |
| LogicParser.AllOk | schemdraw/parsing/logic_parser.py:96 | the operand conversions succeed together, giving one tree per operand in order, or the result is the error of the first operand that fails |
| LogicParser.StrToTree | schemdraw/parsing/logic_parser.py:70-78 | a string fails exactly when it is empty, or starts with `~` or `¬` and has no second character or a second `~` or `¬`; a string not starting with them is a childless tree; one starting with them is a `not` over its second character alone |
| LogicParser.ToTree | schemdraw/parsing/logic_parser.py:66-96 | every operator of a converted tree is free of aliases: each node with children is `None` or a normalised name |
| LogicParser.IdentifierLeaf | schemdraw/parsing/logic_parser.py:77-78 | a bare identifier becomes a childless tree holding it |
| LogicParser.NotOnIdentifier | schemdraw/parsing/logic_parser.py:70-72 | `not`, `~` or `¬` applied to an identifier gives a `not` node with exactly that leaf |
| LogicParser.GroupOperands | schemdraw/parsing/logic_parser.py:80-96 | a converted group's operator is the normalised element at position 1 and its children are the conversions of the even positions, in order: length 2k+1 gives k+1 children |
| LogicParser.OnlyFirstOperatorRead | schemdraw/parsing/logic_parser.py:80-81 | the odd positions after position 1 are never read |
| LogicParser.NotOnGroupComplements | schemdraw/parsing/logic_parser.py:70-75 | `not` applied to a group gives no `not` node: the group's operator is complemented (`None` without a complement) and its children are kept |
| LogicParser.DoubleNegation | schemdraw/parsing/logic_parser.py:66-96 | `not not a` gives a `None` operator over the operand `not`; `~ ~a` fails with an index error |
| LogicParser.DoubleNegationOfGroup | schemdraw/parsing/logic_parser.py:70-96 | `not not (a and b)` gives a `None` operator over the operand `not` |
| NodeBuilder.IndexOfLabel | schemdraw/parsing/logic_parser.py:140 | the label `chr(ord("A") + i)` determines `i` |
| NodeBuilder.LeafPass | schemdraw/parsing/logic_parser.py:155-164 | past position 0 the first loop keeps the left operand and ends with the right operand a leaf of the last child not named like a gate, if any |
| NodeBuilder.GatePass | schemdraw/parsing/logic_parser.py:170-179 | the second loop advances the label counter by exactly the gates drawn for the remaining children |
| NodeBuilder.Build | schemdraw/parsing/logic_parser.py:140-181 | a call advances the label counter by exactly the number of gates it draws |
| NodeBuilder.DrawIt | schemdraw/parsing/logic_parser.py:124-181 | the recursive function returns the node and the next free label index that `Build` specifies |
| NodeBuilder.BuildWithin | schemdraw/parsing/logic_parser.py:140-141 | the pre-order labels of a built tree are labels of indices from the start index to the returned index, strictly increasing, the root's first |
| NodeBuilder.DrawItLabels | schemdraw/parsing/logic_parser.py:173 | labels of one tree are pairwise distinct, the root's is `chr(ord("A") + idx)`, and each uses an index the call consumed |
| NodeBuilder.GatePassFrom | schemdraw/parsing/logic_parser.py:170-179 | past position 0 the second loop keeps the left operand and ends with the right operand the last gate-named child, built at the label index reached there, if any |
| NodeBuilder.BuildOperands | schemdraw/parsing/logic_parser.py:155-180 | for any number of children the left operand is child 0, and the right operand is the last gate-named child after position 0, else the last child when there are two or more, else none |
| NodeBuilder.BuildUnary | schemdraw/parsing/logic_parser.py:155-180 | a one-child gate has the child as left operand (a gate if its name is a gate name, a leaf otherwise) and no right operand |
| NodeBuilder.BuildBinary | schemdraw/parsing/logic_parser.py:155-180 | a two-child gate has child 0 as left and child 1 as right operand, labelled in pre-order, gate names recursed into and other names as leaves |
| NodeBuilder.ThreeOperandsDropMiddle | schemdraw/parsing/logic_parser.py:159-164 | for `a and b and c` the right operand is overwritten by `c`, so `b` is dropped |
| NodeBuilder.MixedOperandsDropLaterLeaf | schemdraw/parsing/logic_parser.py:155-179 | for `a and (b or c) and d` the right operand is the `or` gate labelled `B`, so the later leaf `d` is dropped |
| NodeBuilder.ParseBuildEvaluate | schemdraw/parsing/logic_parser.py:208-213 | a binary group over two identifiers converts, builds a gate labelled `A` over two leaves and evaluates to the operator's truth table, inverted exactly when `A` is faulty |

## Left out

- `parse_string` (schemdraw/parsing/logic_parser.py:35-63) is a wrapper around the pyparsing library, whose behaviour is not part of this model. `to_tree` takes an abstract token tree instead.
- A group at position 1 of a group that is not negated becomes the `OperatorNotString` error. In Python that group would pass through the alias lookup and become the tree's node, which a `Name` cannot hold. pyparsing's binary operators always put an operator string at position 1, so only a negation group has a group there, and that case is modelled.
- All drawing in `drawlogic` and `drawit` is left out because it is rendering with floating-point coordinates:
  - schemdraw elements and their labels;
  - the `buchheim` layout;
  - `RightLines`;
  - the `Drawing` they are added to.
- `drawit`'s `depth` and `outlabel` parameters only affect drawing, and the drawn element it returns is not modelled.
- `NodeBuilder.Build`: requires the labels used to stay below code point U+D800, because Dafny characters exclude surrogates. Python's `chr` would go on into the surrogates.
- `logicparse` and the `__main__` demonstration only parse, draw and print. The demonstration is stated as `Circuits.DemoScenario` instead.
- The `LogicTree` container methods `__getitem__`, `__iter__` and `__len__` are covered by a sequence of children.
- Inputs are modelled as `bool`, and `expected_output` as `bool`. The source mixes `0`/`1` integers with booleans and compares with `int(result) == expected_output`; an expected output other than 0 or 1 matches nothing, and this model does not represent it.
- `OPERATION_ALIASES` is declared but never consulted by evaluation. `SINGLE_OPERAND_OPS` is not consulted either; `Gates.UsableOperators` states what evaluation does with its entries.
- Neither file performs a reduction of the reported sets to minimal ones or a serialisation of results to records, so neither is modelled.
- `Gates.Evaluate`: its own contract only excludes the circuit's missing-head error. What it computes is stated by `Gates.EvaluateOkIff`, `Gates.GateSemantics`, `Gates.FaultInvertsGate` and `Gates.MembershipOnly`.
