/**
 * The circuit registry and the exhaustive fault search of
 * schemdraw/parsing/circuit.py.
 */
module Circuits {
  import opened Wrappers
  import opened Gates
  import opened Itertools

  /** `node.label`: a gate's label, `None` for a leaf. */
  function LabelOf(n: Node): Name
  {
    match n
    case Leaf(_) => None
    case Gate(_, l, _, _) => l
  }

  /**
   * `Circuit`: a dict from label to node, the list of registered labels in
   * registration order, and the head label (unset until a registration with
   * `is_head`; `head == None` here stands for the attribute not existing yet).
   */
  class Circuit {
    var gates: map<Name, Node>
    var values: seq<Name>
    var head: Option<Name>

    /** Every registered label is a key of `gates` and back, and the head was registered. */
    ghost predicate Valid()
      reads this
    {
      (head.Some? ==> head.value in gates) &&
      gates.Keys == set l | l in values
    }

    constructor ()
      ensures Valid()
      ensures gates == map[] && values == [] && head == None
    {
      gates := map[];
      values := [];
      head := None;
    }

    /**
     * `add_nodes(node, is_head)`: last write wins in `gates`, the label is
     * appended to `values` even when already present, and `head` moves only
     * when `is_head` holds.
     */
    method AddNodes(node: Node, isHead: bool)
      requires Valid()
      modifies this
      ensures Valid()
      ensures gates == old(gates)[LabelOf(node) := node]
      ensures values == old(values) + [LabelOf(node)]
      ensures head == if isHead then Some(LabelOf(node)) else old(head)
    {
      gates := gates[LabelOf(node) := node];
      values := values + [LabelOf(node)];
      if isHead {
        head := Some(LabelOf(node));
      }
    }

    /** `evaluate_with_faults(inputs, faulty_set)`: evaluates the head's node; fails if no head was ever set. */
    function EvaluateWithFaults(inputs: map<Name, bool>, faultySet: seq<Name>): (r: Result<bool, Error>)
      reads this
      requires Valid()
      ensures r == Err(MissingHead) <==> head.None?
      ensures head.Some? ==> r == Evaluate(gates[head.value], inputs, faultySet)
      ensures r.Ok? <==> head.Some? && Evaluable(gates[head.value], inputs)
    {
      match head
      case None => Err(MissingHead)
      case Some(h) =>
        EvaluateOkIff(gates[h], inputs, faultySet);
        Evaluate(gates[h], inputs, faultySet)
    }
  }

  /** Whether a circuit evaluates at all, and which exception it raises, does not depend on the fault set. */
  lemma CircuitErrorIgnoresFaults(c: Circuit, inputs: map<Name, bool>, f1: seq<Name>, f2: seq<Name>)
    requires c.Valid()
    ensures c.EvaluateWithFaults(inputs, f1).Ok? == c.EvaluateWithFaults(inputs, f2).Ok?
    ensures c.EvaluateWithFaults(inputs, f1).Err? ==> c.EvaluateWithFaults(inputs, f1) == c.EvaluateWithFaults(inputs, f2)
  {
    if c.head.Some? && c.EvaluateWithFaults(inputs, f1).Err? {
      ErrorIgnoresFaults(c.gates[c.head.value], inputs, f1, f2);
    }
  }

  /** Two fault sets with the same members give the same circuit result. */
  lemma CircuitMembershipOnly(c: Circuit, inputs: map<Name, bool>, f1: seq<Name>, f2: seq<Name>)
    requires c.Valid()
    requires forall x :: x in f1 <==> x in f2
    ensures c.EvaluateWithFaults(inputs, f1) == c.EvaluateWithFaults(inputs, f2)
  {
    if c.head.Some? {
      MembershipOnly(c.gates[c.head.value], inputs, f1, f2);
    }
  }

  /** The candidates, in order, whose faulted evaluation is exactly `expected`. */
  function Select(c: Circuit, candidates: seq<seq<Name>>, inputs: map<Name, bool>, expected: bool): (r: seq<seq<Name>>)
    reads c
    requires c.Valid()
    ensures forall s :: s in r <==> s in candidates && c.EvaluateWithFaults(inputs, s) == Ok(expected)
  {
    if candidates == [] then []
    else
      var rest := Select(c, candidates[1..], inputs, expected);
      if c.EvaluateWithFaults(inputs, candidates[0]) == Ok(expected) then [candidates[0]] + rest else rest
  }

  /** Selection keeps the order of the candidates, so ascending sizes stay ascending. */
  lemma {:induction false} SelectAscending(c: Circuit, candidates: seq<seq<Name>>, inputs: map<Name, bool>, expected: bool)
    requires c.Valid()
    requires forall i, j :: 0 <= i < j < |candidates| ==> |candidates[i]| <= |candidates[j]|
    ensures forall i, j :: 0 <= i < j < |Select(c, candidates, inputs, expected)| ==>
      |Select(c, candidates, inputs, expected)[i]| <= |Select(c, candidates, inputs, expected)[j]|
  {
    if candidates != [] {
      var tail := candidates[1..];
      SelectAscending(c, tail, inputs, expected);
      var rest := Select(c, tail, inputs, expected);
      forall k | 0 <= k < |rest|
        ensures |candidates[0]| <= |rest[k]|
      {
        assert rest[k] in tail;
      }
    }
  }

  lemma {:induction false} SelectAppend(c: Circuit, a: seq<seq<Name>>, b: seq<seq<Name>>, inputs: map<Name, bool>, expected: bool)
    requires c.Valid()
    ensures Select(c, a + b, inputs, expected) == Select(c, a, inputs, expected) + Select(c, b, inputs, expected)
  {
    if a == [] {
      assert a + b == b;
    } else {
      assert (a + b)[0] == a[0];
      assert (a + b)[1..] == a[1..] + b;
      SelectAppend(c, a[1..], b, inputs, expected);
    }
  }

  /** One more candidate examined. */
  lemma SelectStep(c: Circuit, done: seq<seq<Name>>, combos: seq<seq<Name>>, j: nat, inputs: map<Name, bool>, expected: bool)
    requires c.Valid() && j < |combos|
    ensures Select(c, done + combos[..j + 1], inputs, expected) ==
      Select(c, done + combos[..j], inputs, expected) +
      (if c.EvaluateWithFaults(inputs, combos[j]) == Ok(expected) then [combos[j]] else [])
  {
    assert done + combos[..j + 1] == (done + combos[..j]) + [combos[j]];
    SelectAppend(c, done + combos[..j], [combos[j]], inputs, expected);
    assert [combos[j]][1..] == [];
  }

  /** What `find_faulty_gates` returns when no evaluation raises: every combination of `values`, of sizes 1 to `len(values)`, that explains the observation. */
  function Explanations(c: Circuit, inputs: map<Name, bool>, expected: bool): seq<seq<Name>>
    reads c
    requires c.Valid()
  {
    Select(c, CombinationsUpTo(c.values, |c.values|), inputs, expected)
  }

  /**
   * The search is sound and complete over subsequences of `values`: a
   * sequence is reported exactly when it is a non-empty subsequence of the
   * registered labels whose faulted evaluation gives the expected output.
   */
  lemma ExplanationsSoundComplete(c: Circuit, inputs: map<Name, bool>, expected: bool, s: seq<Name>)
    requires c.Valid()
    ensures s in Explanations(c, inputs, expected) <==>
      s != [] && IsSubsequence(s, c.values) && c.EvaluateWithFaults(inputs, s) == Ok(expected)
  {
    CombinationsUpToMembers(c.values, |c.values|, s);
    if IsSubsequence(s, c.values) {
      SubsequenceLength(s, c.values);
    }
  }

  /** Results come smallest first: sizes never decrease along the list, and the empty set never appears. */
  lemma ExplanationsAscending(c: Circuit, inputs: map<Name, bool>, expected: bool)
    requires c.Valid()
    ensures forall i :: 0 <= i < |Explanations(c, inputs, expected)| ==> Explanations(c, inputs, expected)[i] != []
    ensures forall i, j :: 0 <= i < j < |Explanations(c, inputs, expected)| ==>
      |Explanations(c, inputs, expected)[i]| <= |Explanations(c, inputs, expected)[j]|
  {
    CombinationsUpToAscending(c.values, |c.values|);
    SelectAscending(c, CombinationsUpTo(c.values, |c.values|), inputs, expected);
    var e := Explanations(c, inputs, expected);
    forall i | 0 <= i < |e|
      ensures e[i] != []
    {
      CombinationsUpToMembers(c.values, |c.values|, e[i]);
    }
  }

  /**
   * Completeness up to membership: any non-empty fault set drawn from the
   * registered labels that explains the observation is reported, as a
   * combination holding exactly the same labels.
   */
  lemma EveryExplanationFound(c: Circuit, inputs: map<Name, bool>, expected: bool, f: seq<Name>)
    requires c.Valid()
    requires f != [] && forall x :: x in f ==> x in c.values
    requires c.EvaluateWithFaults(inputs, f) == Ok(expected)
    ensures exists s :: s in Explanations(c, inputs, expected) && forall x :: x in s <==> x in f
  {
    var values := c.values;
    var members := set x | x in f;
    var s := Pick(values, members);
    PickSubsequence(values, members);
    forall x
      ensures x in s <==> x in f
    {
      PickMember(values, members, x);
      assert x in f <==> x in members;
      if x in f {
        assert x in values;
      }
    }
    assert f[0] in s;
    CircuitMembershipOnly(c, inputs, s, f);
    ExplanationsSoundComplete(c, inputs, expected, s);
  }

  /**
   * `find_faulty_gates(circuit, inputs, expected_output)`: for every size
   * `r` from 1 to `len(values)`, every `combinations(values, r)` is
   * evaluated and kept when its result is `expected_output`. The first
   * evaluation that raises ends the search with that exception.
   */
  method FindFaultyGates(circuit: Circuit, inputs: map<Name, bool>, expectedOutput: bool)
    returns (r: Result<seq<seq<Name>>, Error>)
    requires circuit.Valid()
    ensures r.Ok? <==> |circuit.values| == 0 || circuit.EvaluateWithFaults(inputs, []).Ok?
    ensures r.Ok? ==> r.value == Explanations(circuit, inputs, expectedOutput)
    ensures r.Err? ==> circuit.EvaluateWithFaults(inputs, []) == Err(r.error)
  {
    var gates := circuit.values;
    var allFaultySets: seq<seq<Name>> := [];
    for size := 1 to |gates| + 1
      invariant allFaultySets == Select(circuit, CombinationsUpTo(gates, size - 1), inputs, expectedOutput)
      invariant size > 1 ==> circuit.EvaluateWithFaults(inputs, []).Ok?
    {
      var combos := Combinations(gates, size);
      ghost var done := CombinationsUpTo(gates, size - 1);
      assert done + combos[..0] == done;
      for j := 0 to |combos|
        invariant allFaultySets == Select(circuit, done + combos[..j], inputs, expectedOutput)
        invariant size > 1 || j > 0 ==> circuit.EvaluateWithFaults(inputs, []).Ok?
      {
        var result := circuit.EvaluateWithFaults(inputs, combos[j]);
        CircuitErrorIgnoresFaults(circuit, inputs, combos[j], []);
        if result.Err? {
          return Err(result.error);
        }
        SelectStep(circuit, done, combos, j, inputs, expectedOutput);
        if result.value == expectedOutput {
          allFaultySets := allFaultySets + [combos[j]];
        }
      }
      assert combos[..|combos|] == combos;
      assert size == 1 ==> |combos| > 0;
    }
    return Ok(allFaultySets);
  }

  /** The candidates the search examines for the two labels A and B. */
  lemma DemoCandidates()
    ensures CombinationsUpTo([Some("A"), Some("B")], 2) == [[Some("A")], [Some("B")], [Some("A"), Some("B")]]
  {
    var labels: seq<Name> := [Some("A"), Some("B")];
    assert labels[1..] == [Some("B")];
    assert labels[1..][1..] == [];
    var justB := Prepend(Some("B"), Combinations(labels[1..][1..], 0));
    assert justB == [[Some("B")]] by {
      assert [Some("B")] + [] == [Some("B")];
    }
    assert Combinations(labels[1..], 1) == [[Some("B")]] by {
      assert Combinations(labels[1..], 1) == justB + Combinations(labels[1..][1..], 1);
      assert Combinations(labels[1..][1..], 1) == [];
    }
    assert Prepend(Some("A"), Combinations(labels[1..], 0)) == [[Some("A")]] by {
      assert [Some("A")] + [] == [Some("A")];
    }
    assert Combinations(labels, 1) == [[Some("A")], [Some("B")]];
    assert Prepend(Some("A"), Combinations(labels[1..], 1)) == [[Some("A"), Some("B")]] by {
      assert [Some("A")] + [Some("B")] == [Some("A"), Some("B")];
    }
    assert Combinations(labels, 2) == [[Some("A"), Some("B")]] by {
      assert Combinations(labels[1..], 2) == [];
    }
  }

  /** The head of the scenario at the end of circuit.py: B = (A = a and b) or c. */
  function DemoHead(): Node
  {
    var andNode := DoubleOperandGateNode(Some(LeafNode(Some("a"))), Some(LeafNode(Some("b"))), Some("and"), Some("A"));
    DoubleOperandGateNode(Some(andNode), Some(LeafNode(Some("c"))), Some("or"), Some("B"))
  }

  const DemoInputs: map<Name, bool> := map[Some("a") := true, Some("b") := true, Some("c") := true]

  /** With all inputs true the head is true, unless B is faulty. */
  lemma DemoEvaluations()
    ensures Evaluate(DemoHead(), DemoInputs, []) == Ok(true)
    ensures Evaluate(DemoHead(), DemoInputs, [Some("A")]) == Ok(true)
    ensures Evaluate(DemoHead(), DemoInputs, [Some("B")]) == Ok(false)
    ensures Evaluate(DemoHead(), DemoInputs, [Some("A"), Some("B")]) == Ok(false)
  {
    var andNode := DemoHead().left.value;
    assert Evaluate(andNode, DemoInputs, []) == Ok(true);
    assert Evaluate(andNode, DemoInputs, [Some("A")]) == Ok(false);
    assert Evaluate(andNode, DemoInputs, [Some("B")]) == Ok(true);
    assert Evaluate(andNode, DemoInputs, [Some("A"), Some("B")]) == Ok(false);
  }

  /** In a circuit registering A then the head B, the search for false finds exactly [B] and [A, B]. */
  lemma DemoExplanations(c: Circuit)
    requires c.Valid()
    requires c.values == [Some("A"), Some("B")] && c.head == Some(Some("B")) && c.gates[Some("B")] == DemoHead()
    ensures Explanations(c, DemoInputs, false) == [[Some("B")], [Some("A"), Some("B")]]
  {
    DemoCandidates();
    DemoEvaluations();
    var cands := [[Some("A")], [Some("B")], [Some("A"), Some("B")]];
    assert Select(c, cands[2..], DemoInputs, false) == [cands[2]] by {
      assert cands[2..][1..] == [];
    }
    assert Select(c, cands[1..], DemoInputs, false) == [cands[1], cands[2]] by {
      assert cands[1..][1..] == cands[2..];
    }
  }

  /**
   * The scenario at the end of circuit.py: A = a and b, head B = A or c, all
   * inputs true. Faulting B gives false, and the search for false finds
   * exactly [B] and [A, B].
   */
  method DemoScenario() returns (faultB: Result<bool, Error>, found: Result<seq<seq<Name>>, Error>)
    ensures faultB == Ok(false)
    ensures found == Ok([[Some("B")], [Some("A"), Some("B")]])
  {
    var a := LeafNode(Some("a"));
    var b := LeafNode(Some("b"));
    var c := LeafNode(Some("c"));
    var andNode := DoubleOperandGateNode(Some(a), Some(b), Some("and"), Some("A"));
    var orNode := DoubleOperandGateNode(Some(andNode), Some(c), Some("or"), Some("B"));
    var circuit := new Circuit();
    circuit.AddNodes(andNode, false);
    circuit.AddNodes(orNode, true);
    var inputs := map[Some("a") := true, Some("b") := true, Some("c") := true];
    DemoEvaluations();
    faultB := circuit.EvaluateWithFaults(inputs, [Some("B")]);
    found := FindFaultyGates(circuit, inputs, false);
    DemoExplanations(circuit);
  }
}
