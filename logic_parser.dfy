/**
 * `to_tree` of schemdraw/parsing/logic_parser.py: turns the token groups the
 * pyparsing grammar produces into a `LogicTree`, normalising operator
 * aliases and folding a `not` applied to a group into the group's operator.
 */
module LogicParser {
  import opened Wrappers
  import opened Gates

  /** A parsed token: a string, or a group of tokens (a pyparsing `ParseResults`). */
  datatype Tok = Str(s: string) | Group(items: seq<Tok>)

  /** `LogicTree(node, *children)`; the node is `None` when the complement lookup misses. */
  datatype LogicTree = LogicTree(node: Name, children: seq<LogicTree>)

  /** The exceptions `to_tree` can raise. */
  datatype ParseError =
    | IndexOutOfRange      // IndexError from `pres[0]` or `pres[1]`
    | OperatorNotString    // a group at position 1 of a group that is not negated

  /** The spellings of negation that `to_tree` recognises. */
  const NotWords: set<string> := {"not", "~", "¬"}

  /** The symbol aliases that `to_tree` rewrites. */
  const Aliases: set<string> := {"&", "∧", "|", "∨", "+", "⊕", "⊻"}

  /** The eight names the complement table maps. */
  const Complementable: set<string> := {"and", "nand", "or", "nor", "xor", "xnor", "not", "buf"}

  /** The alias table lookup `{...}.get(func, func)`. */
  function Normalize(func: string): (r: string)
    ensures func in {"&", "∧"} ==> r == "and"
    ensures func in {"|", "∨", "+"} ==> r == "or"
    ensures func in {"⊕", "⊻"} ==> r == "xor"
    ensures func !in Aliases ==> r == func
    ensures r !in Aliases
  {
    if func == "&" || func == "∧" then "and"
    else if func == "|" || func == "∨" || func == "+" then "or"
    else if func == "⊕" || func == "⊻" then "xor"
    else func
  }

  /** The complement table lookup `{...}.get(func)`: `None` for a name it does not hold. */
  function Complement(func: string): (r: Name)
    ensures r.Some? <==> func in Complementable
    ensures r.Some? ==> r.value in Complementable && r.value != func
  {
    if func == "and" then Some("nand")
    else if func == "nand" then Some("and")
    else if func == "or" then Some("nor")
    else if func == "nor" then Some("or")
    else if func == "xor" then Some("xnor")
    else if func == "xnor" then Some("xor")
    else if func == "not" then Some("buf")
    else if func == "buf" then Some("not")
    else None
  }

  /** The complement table is an involution without fixed points on its eight names, and misses everything else. */
  lemma ComplementInvolution(func: string)
    ensures func in Complementable <==> Complement(func).Some?
    ensures func in Complementable ==>
      Complement(func).value in Complementable &&
      Complement(func).value != func &&
      Complement(Complement(func).value) == Some(func)
  {
  }

  /** `LogicTree('not', child)` around a successful conversion. */
  function Negate(r: Result<LogicTree, ParseError>): Result<LogicTree, ParseError>
  {
    match r
    case Ok(child) => Ok(LogicTree(Some("not"), [child]))
    case Err(e) => Err(e)
  }

  /**
   * `to_tree` applied to a string: `pres[0]` is its first character, so a
   * string starting with `~` or `¬` is read as a negation of its second
   * character; any other non-empty string is a childless tree.
   */
  function StrToTree(s: string): (r: Result<LogicTree, ParseError>)
    ensures r.Err? <==> |s| == 0 || ([s[0]] in NotWords && (|s| < 2 || [s[1]] in NotWords))
    ensures |s| > 0 && [s[0]] !in NotWords ==> r == Ok(LogicTree(Some(s), []))
    ensures r.Ok? && [s[0]] in NotWords ==> r.value == LogicTree(Some("not"), [LogicTree(Some([s[1]]), [])])
    ensures r.Ok? ==> OperatorsNormalized(r.value)
    decreases |s|
  {
    if |s| == 0 then Err(IndexOutOfRange)
    else if [s[0]] in NotWords then
      if |s| < 2 then Err(IndexOutOfRange) else Negate(StrToTree([s[1]]))
    else Ok(LogicTree(Some(s), []))
  }

  /** The first error among the operands' conversions, or all their trees. */
  function AllOk(rs: seq<Result<LogicTree, ParseError>>): (r: Result<seq<LogicTree>, ParseError>)
    ensures r.Ok? ==> |r.value| == |rs| && forall i :: 0 <= i < |rs| ==> rs[i] == Ok(r.value[i])
    ensures r.Err? ==> exists i :: 0 <= i < |rs| && rs[i] == Err(r.error) && forall j :: 0 <= j < i ==> rs[j].Ok?
    ensures (forall i :: 0 <= i < |rs| ==> rs[i].Ok?) ==> r.Ok?
  {
    if rs == [] then Ok([])
    else match rs[0]
      case Err(e) => Err(e)
      case Ok(t) =>
        match AllOk(rs[1..])
        case Err(e) => Err(e)
        case Ok(ts) => Ok([t] + ts)
  }

  /** `pres[0]` is one of the negation words. */
  predicate StartsWithNot(items: seq<Tok>)
  {
    |items| > 0 && items[0].Str? && items[0].s in NotWords
  }

  /**
   * The operators of a tree carry no alias: every node with children is
   * `None` or a name outside `Aliases`. (A childless node is an operand and
   * keeps its text.)
   */
  predicate OperatorsNormalized(t: LogicTree)
  {
    (|t.children| > 0 ==> t.node.None? || t.node.value !in Aliases) &&
    forall i :: 0 <= i < |t.children| ==> OperatorsNormalized(t.children[i])
  }

  /**
   * `to_tree(pres)`. Negating a group replaces its operator by the
   * complement of the operator, which is `None` when the negated group's
   * position 1 is itself a group (the complement table misses it).
   */
  function ToTree(t: Tok): (r: Result<LogicTree, ParseError>)
    ensures r.Ok? ==> OperatorsNormalized(r.value)
  {
    match t
    case Str(s) => StrToTree(s)
    case Group(items) =>
      if |items| == 0 then Err(IndexOutOfRange)
      else if StartsWithNot(items) && |items| < 2 then Err(IndexOutOfRange)
      else if StartsWithNot(items) && items[1].Str? then Negate(StrToTree(items[1].s))
      else
        var invert := StartsWithNot(items);
        var pres := if invert then items[1].items else items;
        if |pres| < 2 then Err(IndexOutOfRange)
        else if pres[1].Group? && !invert then Err(OperatorNotString)
        else
          var node :=
            if pres[1].Group? then None
            else if invert then Complement(Normalize(pres[1].s))
            else Some(Normalize(pres[1].s));
          var n := (|pres| + 1) / 2;
          var operands := seq(n, i requires 0 <= i < n => ToTree(pres[2 * i]));
          match AllOk(operands)
          case Err(e) => Err(e)
          case Ok(children) => Ok(LogicTree(node, children))
  }

  /** A non-empty string that does not start with a negation character is an identifier. */
  predicate IsIdentifier(s: string)
  {
    |s| > 0 && s[0] != '~' && s[0] != '¬'
  }

  /** A bare identifier becomes a childless tree holding it. */
  lemma IdentifierLeaf(s: string)
    requires IsIdentifier(s)
    ensures ToTree(Str(s)) == Ok(LogicTree(Some(s), []))
  {
  }

  /** A negation word applied directly to an identifier yields a `not` node with exactly that one leaf. */
  lemma NotOnIdentifier(w: string, s: string, rest: seq<Tok>)
    requires w in NotWords && IsIdentifier(s)
    ensures ToTree(Group([Str(w), Str(s)] + rest)) == Ok(LogicTree(Some("not"), [LogicTree(Some(s), [])]))
  {
    var items := [Str(w), Str(s)] + rest;
    assert items[0] == Str(w) && items[1] == Str(s);
  }

  /**
   * A group that is not a negation converts to a tree whose node is the
   * normalised operator at position 1 and whose children are the
   * conversions of the elements at even positions, in order: a group of
   * length 2k+1 yields k+1 children.
   */
  lemma {:induction false} GroupOperands(items: seq<Tok>)
    requires !StartsWithNot(items) && |items| >= 2 && items[1].Str?
    requires ToTree(Group(items)).Ok?
    ensures ToTree(Group(items)).value.node == Some(Normalize(items[1].s))
    ensures |ToTree(Group(items)).value.children| == (|items| + 1) / 2
    ensures forall i :: 0 <= i < (|items| + 1) / 2 ==>
      ToTree(items[2 * i]) == Ok(ToTree(Group(items)).value.children[i])
  {
    var n := (|items| + 1) / 2;
    var operands := seq(n, i requires 0 <= i < n => ToTree(items[2 * i]));
    assert ToTree(Group(items)) == match AllOk(operands)
      case Err(e) => Err(e)
      case Ok(children) => Ok(LogicTree(Some(Normalize(items[1].s)), children));
  }

  /**
   * Only the operator at position 1 is read: two groups that agree on it and
   * on their operands convert alike, whatever the other odd positions hold
   * (so `a and b nand c` converts as an `and` of three operands).
   */
  lemma {:induction false} OnlyFirstOperatorRead(items1: seq<Tok>, items2: seq<Tok>)
    requires |items1| == |items2| >= 2
    requires !StartsWithNot(items1) && !StartsWithNot(items2)
    requires items1[1] == items2[1]
    requires forall i :: 0 <= i < |items1| && i % 2 == 0 ==> items1[i] == items2[i]
    ensures ToTree(Group(items1)) == ToTree(Group(items2))
  {
    var n := (|items1| + 1) / 2;
    var ops1 := seq(n, i requires 0 <= i < n => ToTree(items1[2 * i]));
    var ops2 := seq(n, i requires 0 <= i < n => ToTree(items2[2 * i]));
    assert ops1 == ops2 by {
      forall i | 0 <= i < n
        ensures ops1[i] == ops2[i]
      {
        assert items1[2 * i] == items2[2 * i];
      }
    }
  }

  /**
   * A negation applied to a compound group produces no `not` node: the
   * group converts with its own operator replaced by its complement (and
   * with `None` when the operator has no complement), keeping its children.
   */
  lemma {:induction false} NotOnGroupComplements(w: string, g: seq<Tok>, rest: seq<Tok>, f: string, children: seq<LogicTree>)
    requires w in NotWords && !StartsWithNot(g)
    requires ToTree(Group(g)) == Ok(LogicTree(Some(f), children))
    ensures ToTree(Group([Str(w), Group(g)] + rest)) == Ok(LogicTree(Complement(f), children))
  {
    var items := [Str(w), Group(g)] + rest;
    assert items[0] == Str(w) && items[1] == Group(g);
    assert StartsWithNot(items);
  }

  /**
   * `not not a`: the inner negation is a group whose position 1 holds the
   * operand, so the complement lookup misses and the operand position holds
   * the word `not`, which converts as an identifier.
   */
  lemma DoubleNegation()
    ensures ToTree(Group([Str("not"), Group([Str("not"), Str("a")])])) ==
      Ok(LogicTree(None, [LogicTree(Some("not"), [])]))
    ensures ToTree(Group([Str("~"), Group([Str("~"), Str("a")])])) == Err(IndexOutOfRange)
  {
    var inner := [Str("not"), Str("a")];
    var n := (|inner| + 1) / 2;
    assert n == 1;
    var operands := seq(n, i requires 0 <= i < n => ToTree(inner[2 * i]));
    assert StrToTree("not") == Ok(LogicTree(Some("not"), [])) by {
      assert ["not"[0]] !in NotWords;
    }
    assert operands == [Ok(LogicTree(Some("not"), []))];
    assert operands[1..] == [];
    assert AllOk(operands[1..]) == Ok([]);
    assert [LogicTree(Some("not"), [])] + [] == [LogicTree(Some("not"), [])];
    assert AllOk(operands) == Ok([LogicTree(Some("not"), [])]);
    assert Complement(Normalize("a")) == None;
    var inner2 := [Str("~"), Str("a")];
    var operands2 := seq(n, i requires 0 <= i < n => ToTree(inner2[2 * i]));
    assert operands2 == [Err(IndexOutOfRange)];
  }

  /**
   * `not not (a and b)`: the outer negation unwraps to the inner negation
   * group, whose position 1 is the group `a and b`; that operator misses the
   * complement table, and the only operand position holds the word `not`.
   */
  lemma DoubleNegationOfGroup()
    ensures ToTree(Group([Str("not"), Group([Str("not"), Group([Str("a"), Str("and"), Str("b")])])])) ==
      Ok(LogicTree(None, [LogicTree(Some("not"), [])]))
  {
    var inner := [Str("not"), Group([Str("a"), Str("and"), Str("b")])];
    var operands := seq(1, i requires 0 <= i < 1 => ToTree(inner[2 * i]));
    assert StrToTree("not") == Ok(LogicTree(Some("not"), [])) by {
      assert ["not"[0]] !in NotWords;
    }
    assert operands == [Ok(LogicTree(Some("not"), []))];
    assert operands[1..] == [];
    assert AllOk(operands[1..]) == Ok([]);
    assert [LogicTree(Some("not"), [])] + [] == [LogicTree(Some("not"), [])];
    assert AllOk(operands) == Ok([LogicTree(Some("not"), [])]);
  }
}
