/** The cursor-driven recursive descent that reads a token list. */
module ConditionParser {
  import opened Common
  import opened ConditionGrammar

  class TokenCursor {
    const tokens: seq<Token>
    var pos: nat

    constructor (tokens: seq<Token>)
      ensures this.tokens == tokens && pos == 0
    {
      this.tokens := tokens;
      pos := 0;
    }

    /** The tokens not consumed yet; advancing past the end leaves none. */
    function Rest(): seq<Token>
      reads this
    {
      if pos <= |tokens| then tokens[pos..] else []
    }

    method Peek() returns (token: Option<Token>)
      ensures token == if Rest() == [] then None else Some(Rest()[0])
    {
      token := if pos < |tokens| then Some(tokens[pos]) else None;
    }

    method Advance() returns (token: Option<Token>)
      modifies this
      ensures token == if old(Rest()) == [] then None else Some(old(Rest())[0])
      ensures Rest() == if old(Rest()) == [] then [] else old(Rest())[1..]
    {
      token := Peek();
      pos := pos + 1;
    }
  }

  // ----- operand lists, the shape the loops build up ------------------------------------

  datatype Operands = Malformed | Operands(nodes: seq<Node>, rest: seq<Token>)

  function Prepend(nodes: seq<Node>, more: Operands): Operands {
    if more.Malformed? then Malformed else Operands(nodes + more.nodes, more.rest)
  }

  /** The operands of the OR list that `tokens` starts with. */
  function OrOperands(tokens: seq<Token>, leaf: LeafParser): Operands {
    match ReadExpr(tokens)
    case NoRead => Malformed
    case Read(e, rest) =>
      match TreesOfTerms(e, leaf)
      case None => Malformed
      case Some(nodes) => Operands(nodes, rest)
  }

  /** The operands that follow one that was just read. */
  function MoreOrOperands(tokens: seq<Token>, leaf: LeafParser): Operands {
    if Continues(tokens, OrWord) then OrOperands(tokens[1..], leaf) else Operands([], tokens)
  }

  lemma OrOperandsUnroll(tokens: seq<Token>, leaf: LeafParser)
    ensures
      OrOperands(tokens, leaf) ==
        match ReadTerm(tokens)
        case NoRead => Malformed
        case Read(t, rest) =>
          match TreeOfTerm(t, leaf)
          case None => Malformed
          case Some(first) => Prepend([first], MoreOrOperands(rest, leaf))
  {
    match ReadTerm(tokens)
    case NoRead =>
    case Read(t, rest) =>
      var first := TreeOfTerm(t, leaf);
      if first.Some? && !Continues(rest, OrWord) {
        assert [first.value] + [] == [first.value];
      }
  }

  function AndOperands(tokens: seq<Token>, leaf: LeafParser): Operands {
    match ReadTerm(tokens)
    case NoRead => Malformed
    case Read(t, rest) =>
      match TreesOfFactors(t, leaf)
      case None => Malformed
      case Some(nodes) => Operands(nodes, rest)
  }

  function MoreAndOperands(tokens: seq<Token>, leaf: LeafParser): Operands {
    if Continues(tokens, AndWord) then AndOperands(tokens[1..], leaf) else Operands([], tokens)
  }

  lemma AndOperandsUnroll(tokens: seq<Token>, leaf: LeafParser)
    ensures
      AndOperands(tokens, leaf) ==
        match ReadFactor(tokens)
        case NoRead => Malformed
        case Read(f, rest) =>
          match TreeOfFactor(f, leaf)
          case None => Malformed
          case Some(first) => Prepend([first], MoreAndOperands(rest, leaf))
  {
    match ReadFactor(tokens)
    case NoRead =>
    case Read(f, rest) =>
      var first := TreeOfFactor(f, leaf);
      if first.Some? && !Continues(rest, AndWord) {
        assert [first.value] + [] == [first.value];
      }
  }

  lemma PrependAppend(nodes: seq<Node>, node: Node, more: Operands)
    ensures Prepend(nodes, Prepend([node], more)) == Prepend(nodes + [node], more)
  {
    if more.Operands? {
      assert nodes + ([node] + more.nodes) == nodes + [node] + more.nodes;
    }
  }

  // ----- the parser -----------------------------------------------------------------------

  method ParseOr(cursor: TokenCursor, leaf: LeafParser) returns (node: Option<Node>)
    modifies cursor
    ensures
      match ReadExpr(old(cursor.Rest()))
      case NoRead => node == None
      case Read(e, rest) => node == TreeOfExpr(e, leaf) && (node.Some? ==> cursor.Rest() == rest)
    decreases |cursor.Rest()|, 3
  {
    ghost var start := cursor.Rest();
    OrOperandsUnroll(start, leaf);
    var left := ParseAnd(cursor, leaf);
    if left == None {
      return None;
    }
    var children := [left.value];
    var token := cursor.Peek();
    while token == Some(OrWord)
      invariant children != []
      invariant token == if cursor.Rest() == [] then None else Some(cursor.Rest()[0])
      invariant |cursor.Rest()| < |start|
      invariant OrOperands(start, leaf) == Prepend(children, MoreOrOperands(cursor.Rest(), leaf))
      decreases |cursor.Rest()|
    {
      var _ := cursor.Advance();
      OrOperandsUnroll(cursor.Rest(), leaf);
      var right := ParseAnd(cursor, leaf);
      if right == None {
        return None;
      }
      PrependAppend(children, right.value, MoreOrOperands(cursor.Rest(), leaf));
      children := children + [right.value];
      token := cursor.Peek();
    }
    assert children + [] == children;
    if |children| == 1 {
      return Some(children[0]);
    }
    return Some(Branch(Or, children));
  }

  method ParseAnd(cursor: TokenCursor, leaf: LeafParser) returns (node: Option<Node>)
    modifies cursor
    ensures
      match ReadTerm(old(cursor.Rest()))
      case NoRead => node == None
      case Read(t, rest) => node == TreeOfTerm(t, leaf) && (node.Some? ==> cursor.Rest() == rest)
    decreases |cursor.Rest()|, 2
  {
    ghost var start := cursor.Rest();
    AndOperandsUnroll(start, leaf);
    var left := ParseNot(cursor, leaf);
    if left == None {
      return None;
    }
    var children := [left.value];
    var token := cursor.Peek();
    while token == Some(AndWord)
      invariant children != []
      invariant token == if cursor.Rest() == [] then None else Some(cursor.Rest()[0])
      invariant |cursor.Rest()| < |start|
      invariant AndOperands(start, leaf) == Prepend(children, MoreAndOperands(cursor.Rest(), leaf))
      decreases |cursor.Rest()|
    {
      var _ := cursor.Advance();
      AndOperandsUnroll(cursor.Rest(), leaf);
      var right := ParseNot(cursor, leaf);
      if right == None {
        return None;
      }
      PrependAppend(children, right.value, MoreAndOperands(cursor.Rest(), leaf));
      children := children + [right.value];
      token := cursor.Peek();
    }
    assert children + [] == children;
    if |children| == 1 {
      return Some(children[0]);
    }
    return Some(Branch(And, children));
  }

  method ParseNot(cursor: TokenCursor, leaf: LeafParser) returns (node: Option<Node>)
    modifies cursor
    ensures
      match ReadFactor(old(cursor.Rest()))
      case NoRead => node == None
      case Read(f, rest) => node == TreeOfFactor(f, leaf) && (node.Some? ==> cursor.Rest() == rest)
    decreases |cursor.Rest()|, 1
  {
    var token := cursor.Peek();
    if token == Some(NotWord) {
      var _ := cursor.Advance();
      var child := ParseNot(cursor, leaf);
      if child == None {
        return None;
      }
      return Some(Branch(Not, [child.value]));
    }
    node := ParseAtom(cursor, leaf);
  }

  method ParseAtom(cursor: TokenCursor, leaf: LeafParser) returns (node: Option<Node>)
    requires cursor.Rest() != [] ==> cursor.Rest()[0] != NotWord
    modifies cursor
    ensures
      match ReadFactor(old(cursor.Rest()))
      case NoRead => node == None
      case Read(f, rest) => node == TreeOfFactor(f, leaf) && (node.Some? ==> cursor.Rest() == rest)
    decreases |cursor.Rest()|, 0
  {
    var token := cursor.Peek();
    if token == None {
      return None;
    }
    match token.value
    case LParen =>
      var _ := cursor.Advance();
      node := ParseOr(cursor, leaf);
      if node == None {
        return None;
      }
      var closing := cursor.Advance();
      if closing != Some(RParen) {
        return None;
      }
    case Text(text) =>
      var _ := cursor.Advance();
      node := leaf(text);
    case _ =>
      return None;
  }

  /** The whole parser: the answer is the meaning of the token list. */
  method Parse(tokens: seq<Token>, leaf: LeafParser, maxDepth: int) returns (node: Option<Node>)
    ensures node == Meaning(tokens, leaf, maxDepth)
  {
    if tokens == [] {
      return None;
    }
    var cursor := new TokenCursor(tokens);
    var root := ParseOr(cursor, leaf);
    if root == None {
      return None;
    }
    var leftover := cursor.Peek();
    if leftover.Some? {
      return None;
    }
    if Depth(root.value) > maxDepth {
      return None;
    }
    return root;
  }
}
