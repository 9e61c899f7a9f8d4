/**
 The language of spoken conditions: NOT binds tighter than AND, AND tighter
 than OR, parentheses override. Derivations, the deterministic reading of a
 token list, and printing with as few parentheses as possible.
 */
module ConditionGrammar {
  import opened Common

  datatype Token = LParen | RParen | AndWord | OrWord | NotWord | Text(text: string)

  datatype Operator = And | Or | Not

  /** A condition tree. Leaf parsing may itself produce branches. */
  datatype Node = Leaf(condition: string) | Branch(operator: Operator, children: seq<Node>)

  /** Turns the text between structural tokens into a tree; left open. */
  type LeafParser = string -> Option<Node>

  function Depth(node: Node): (depth: nat)
    ensures depth >= 1
  {
    match node
    case Leaf(_) => 1
    case Branch(_, children) => 1 + DepthOfAll(children)
  }

  function DepthOfAll(nodes: seq<Node>): nat {
    if nodes == [] then 0
    else
      var first, rest := Depth(nodes[0]), DepthOfAll(nodes[1..]);
      if first >= rest then first else rest
  }

  // ----- derivations -----------------------------------------------------------------

  /** E := A (OR A)* */
  datatype Expr = OnlyTerm(term: Term) | OrMore(term: Term, rest: Expr)

  /** A := N (AND N)* */
  datatype Term = OnlyFactor(factor: Factor) | AndMore(factor: Factor, rest: Term)

  /** N := NOT N | ( E ) | TEXT */
  datatype Factor = Negated(factor: Factor) | Group(expr: Expr) | Word(text: string)

  function YieldExpr(e: Expr): seq<Token> {
    match e
    case OnlyTerm(t) => YieldTerm(t)
    case OrMore(t, rest) => YieldTerm(t) + [OrWord] + YieldExpr(rest)
  }

  function YieldTerm(t: Term): seq<Token> {
    match t
    case OnlyFactor(f) => YieldFactor(f)
    case AndMore(f, rest) => YieldFactor(f) + [AndWord] + YieldTerm(rest)
  }

  function YieldFactor(f: Factor): (tokens: seq<Token>)
    ensures tokens != []
  {
    match f
    case Negated(g) => [NotWord] + YieldFactor(g)
    case Group(e) => [LParen] + YieldExpr(e) + [RParen]
    case Word(text) => [Text(text)]
  }

  /** One child stands for itself; several become one n-ary node. */
  function Joined(operator: Operator, children: seq<Node>): Node
    requires children != []
  {
    if |children| == 1 then children[0] else Branch(operator, children)
  }

  function TreeOfExpr(e: Expr, leaf: LeafParser): Option<Node> {
    match TreesOfTerms(e, leaf)
    case None => None
    case Some(children) => Some(Joined(Or, children))
  }

  /** The trees of the operands of an expression; none when some leaf does not parse. */
  function TreesOfTerms(e: Expr, leaf: LeafParser): (r: Option<seq<Node>>)
    ensures r.Some? ==> r.value != []
    decreases e, 0
  {
    match TreeOfTerm(e.term, leaf)
    case None => None
    case Some(first) =>
      match e
      case OnlyTerm(_) => Some([first])
      case OrMore(_, rest) =>
        match TreesOfTerms(rest, leaf)
        case None => None
        case Some(others) => Some([first] + others)
  }

  function TreeOfTerm(t: Term, leaf: LeafParser): Option<Node>
    decreases t, 1
  {
    match TreesOfFactors(t, leaf)
    case None => None
    case Some(children) => Some(Joined(And, children))
  }

  function TreesOfFactors(t: Term, leaf: LeafParser): (r: Option<seq<Node>>)
    ensures r.Some? ==> r.value != []
    decreases t, 0
  {
    match TreeOfFactor(t.factor, leaf)
    case None => None
    case Some(first) =>
      match t
      case OnlyFactor(_) => Some([first])
      case AndMore(_, rest) =>
        match TreesOfFactors(rest, leaf)
        case None => None
        case Some(others) => Some([first] + others)
  }

  function TreeOfFactor(f: Factor, leaf: LeafParser): Option<Node>
    decreases f, 2
  {
    match f
    case Word(text) => leaf(text)
    case Group(e) => TreeOfExpr(e, leaf)
    case Negated(g) =>
      match TreeOfFactor(g, leaf)
      case None => None
      case Some(child) => Some(Branch(Not, [child]))
  }

  // ----- the deterministic reading of a token list --------------------------------------

  datatype Read<T> = NoRead | Read(what: T, rest: seq<Token>)

  function ReadExpr(tokens: seq<Token>): (r: Read<Expr>)
    ensures r.Read? ==> |r.rest| < |tokens|
    decreases |tokens|, 2
  {
    match ReadTerm(tokens)
    case NoRead => NoRead
    case Read(t, rest) =>
      if rest == [] || rest[0] != OrWord then Read(OnlyTerm(t), rest)
      else
        match ReadExpr(rest[1..])
        case NoRead => NoRead
        case Read(e, rest') => Read(OrMore(t, e), rest')
  }

  function ReadTerm(tokens: seq<Token>): (r: Read<Term>)
    ensures r.Read? ==> |r.rest| < |tokens|
    decreases |tokens|, 1
  {
    match ReadFactor(tokens)
    case NoRead => NoRead
    case Read(f, rest) =>
      if rest == [] || rest[0] != AndWord then Read(OnlyFactor(f), rest)
      else
        match ReadTerm(rest[1..])
        case NoRead => NoRead
        case Read(t, rest') => Read(AndMore(f, t), rest')
  }

  function ReadFactor(tokens: seq<Token>): (r: Read<Factor>)
    ensures r.Read? ==> |r.rest| < |tokens|
    decreases |tokens|, 0
  {
    if tokens == [] then NoRead
    else
      match tokens[0]
      case NotWord =>
        (match ReadFactor(tokens[1..])
         case NoRead => NoRead
         case Read(f, rest) => Read(Negated(f), rest))
      case LParen =>
        (match ReadExpr(tokens[1..])
         case NoRead => NoRead
         case Read(e, rest) =>
           if rest == [] || rest[0] != RParen then NoRead else Read(Group(e), rest[1..]))
      case Text(text) => Read(Word(text), tokens[1..])
      case _ => NoRead
  }

  lemma Regroup(left: seq<Token>, word: Token, right: seq<Token>, rest: seq<Token>)
    ensures left + [word] + right + rest == left + ([word] + (right + rest))
  {
  }

  /** Whatever was read is a derivation of exactly the tokens consumed. */
  lemma {:induction false} ReadExprDerives(tokens: seq<Token>)
    ensures var r := ReadExpr(tokens); r.Read? ==> YieldExpr(r.what) + r.rest == tokens
    decreases |tokens|, 2
  {
    ReadTermDerives(tokens);
    var t := ReadTerm(tokens);
    if t.Read? && t.rest != [] && t.rest[0] == OrWord {
      ReadExprDerives(t.rest[1..]);
      assert t.rest == [OrWord] + t.rest[1..];
      var e := ReadExpr(t.rest[1..]);
      if e.Read? {
        Regroup(YieldTerm(t.what), OrWord, YieldExpr(e.what), e.rest);
      }
    }
  }

  lemma {:induction false} ReadTermDerives(tokens: seq<Token>)
    ensures var r := ReadTerm(tokens); r.Read? ==> YieldTerm(r.what) + r.rest == tokens
    decreases |tokens|, 1
  {
    ReadFactorDerives(tokens);
    var f := ReadFactor(tokens);
    if f.Read? && f.rest != [] && f.rest[0] == AndWord {
      ReadTermDerives(f.rest[1..]);
      assert f.rest == [AndWord] + f.rest[1..];
      var t := ReadTerm(f.rest[1..]);
      if t.Read? {
        Regroup(YieldFactor(f.what), AndWord, YieldTerm(t.what), t.rest);
      }
    }
  }

  lemma {:induction false} ReadFactorDerives(tokens: seq<Token>)
    ensures var r := ReadFactor(tokens); r.Read? ==> YieldFactor(r.what) + r.rest == tokens
    decreases |tokens|, 0
  {
    if tokens != [] {
      assert tokens == [tokens[0]] + tokens[1..];
      if tokens[0] == NotWord {
        ReadFactorDerives(tokens[1..]);
      } else if tokens[0] == LParen {
        ReadExprDerives(tokens[1..]);
        var e := ReadExpr(tokens[1..]);
        if e.Read? && e.rest != [] {
          assert e.rest == [e.rest[0]] + e.rest[1..];
        }
      }
    }
  }

  predicate Continues(rest: seq<Token>, word: Token) {
    rest != [] && rest[0] == word
  }

  /** Every derivation is read back, whatever follows that cannot continue it. */
  lemma {:induction false} ExprIsRead(e: Expr, rest: seq<Token>)
    requires !Continues(rest, OrWord) && !Continues(rest, AndWord)
    ensures ReadExpr(YieldExpr(e) + rest) == Read(e, rest)
    decreases e, 2
  {
    match e
    case OnlyTerm(t) => TermIsRead(t, rest);
    case OrMore(t, more) =>
      var tail := [OrWord] + YieldExpr(more) + rest;
      assert YieldExpr(e) + rest == YieldTerm(t) + tail;
      TermIsRead(t, tail);
      assert tail[1..] == YieldExpr(more) + rest;
      ExprIsRead(more, rest);
  }

  lemma {:induction false} TermIsRead(t: Term, rest: seq<Token>)
    requires !Continues(rest, AndWord)
    ensures ReadTerm(YieldTerm(t) + rest) == Read(t, rest)
    decreases t, 1
  {
    match t
    case OnlyFactor(f) => FactorIsRead(f, rest);
    case AndMore(f, more) =>
      var tail := [AndWord] + YieldTerm(more) + rest;
      assert YieldTerm(t) + rest == YieldFactor(f) + tail;
      FactorIsRead(f, tail);
      assert tail[1..] == YieldTerm(more) + rest;
      TermIsRead(more, rest);
  }

  lemma {:induction false} FactorIsRead(f: Factor, rest: seq<Token>)
    ensures ReadFactor(YieldFactor(f) + rest) == Read(f, rest)
    decreases f, 0
  {
    var tokens := YieldFactor(f) + rest;
    match f
    case Word(_) => assert tokens[1..] == rest;
    case Negated(g) =>
      assert tokens[1..] == YieldFactor(g) + rest;
      FactorIsRead(g, rest);
    case Group(e) =>
      var tail := [RParen] + rest;
      assert tokens[1..] == YieldExpr(e) + tail;
      ExprIsRead(e, tail);
      assert tail[1..] == rest;
  }

  /** No token list has two derivations. */
  lemma Unambiguous(e: Expr, other: Expr)
    requires YieldExpr(e) == YieldExpr(other)
    ensures e == other
  {
    ExprIsRead(e, []);
    ExprIsRead(other, []);
    assert YieldExpr(e) + [] == YieldExpr(e);
    assert YieldExpr(other) + [] == YieldExpr(other);
  }

  // ----- what parsing a whole list means ---------------------------------------------------

  /** The parser's answer to a token list. */
  function Meaning(tokens: seq<Token>, leaf: LeafParser, maxDepth: int): Option<Node> {
    match ReadExpr(tokens)
    case NoRead => None
    case Read(e, rest) =>
      match TreeOfExpr(e, leaf)
      case None => None
      case Some(root) => if rest != [] || Depth(root) > maxDepth then None else Some(root)
  }

  /**
   The language, exactly: a tree comes back if and only if the whole list has a
   derivation whose leaves all parse within the depth limit, and then it is
   the tree of that one derivation.
   */
  lemma ExactLanguage(tokens: seq<Token>, leaf: LeafParser, maxDepth: int, root: Node)
    ensures Meaning(tokens, leaf, maxDepth) == Some(root) <==>
            exists e :: YieldExpr(e) == tokens && TreeOfExpr(e, leaf) == Some(root) && Depth(root) <= maxDepth
    ensures forall e, other :: YieldExpr(e) == tokens && YieldExpr(other) == tokens ==> e == other
  {
    ReadExprDerives(tokens);
    forall e | YieldExpr(e) == tokens
      ensures ReadExpr(tokens) == Read(e, [])
    {
      ExprIsRead(e, []);
      assert YieldExpr(e) + [] == tokens;
    }
    var r := ReadExpr(tokens);
    if r.Read? && r.rest == [] {
      assert YieldExpr(r.what) == tokens;
    }
  }

  // ----- printing ------------------------------------------------------------------------------

  /** An expression as its author sees it: negation is unary, the rest has at least two operands. */
  datatype Formula = Atom(text: string) | Neg(operand: Formula) | Conj(operands: seq<Formula>) | Disj(operands: seq<Formula>)

  predicate WellFormed(f: Formula) {
    match f
    case Atom(_) => true
    case Neg(g) => WellFormed(g)
    case Conj(gs) => |gs| >= 2 && forall g :: g in gs ==> WellFormed(g)
    case Disj(gs) => |gs| >= 2 && forall g :: g in gs ==> WellFormed(g)
  }

  function Interpret(f: Formula, leaf: LeafParser): Option<Node>
    decreases f, 0
  {
    match f
    case Atom(text) => leaf(text)
    case Neg(g) =>
      (match Interpret(g, leaf)
       case None => None
       case Some(child) => Some(Branch(Not, [child])))
    case Conj(gs) =>
      (match InterpretAll(gs, leaf)
       case None => None
       case Some(children) => Some(Branch(And, children)))
    case Disj(gs) =>
      (match InterpretAll(gs, leaf)
       case None => None
       case Some(children) => Some(Branch(Or, children)))
  }

  function InterpretAll(fs: seq<Formula>, leaf: LeafParser): (r: Option<seq<Node>>)
    ensures r.Some? ==> |r.value| == |fs|
    decreases fs, 0
  {
    if fs == [] then Some([])
    else
      match Interpret(fs[0], leaf)
      case None => None
      case Some(first) =>
        match InterpretAll(fs[1..], leaf)
        case None => None
        case Some(others) => Some([first] + others)
  }

  /** Compound formulas are the ones parentheses may be needed for. */
  predicate Compound(f: Formula) {
    f.Conj? || f.Disj?
  }

  /** The derivation of a formula where a whole expression may stand. */
  function ToExpr(f: Formula): Expr
    requires WellFormed(f)
    decreases f, if Compound(f) then 2 else 3
  {
    if f.Disj? then TermsOf(f.operands) else OnlyTerm(ToTerm(f))
  }

  /** As an operand of OR, a disjunction needs parentheses. */
  function ToTerm(f: Formula): Term
    requires WellFormed(f)
    decreases f, if f.Disj? then 4 else if f.Conj? then 1 else 2
  {
    if f.Conj? then FactorsOf(f.operands) else OnlyFactor(ToFactor(f))
  }

  /** As an operand of AND or NOT, every compound needs parentheses. */
  function ToFactor(f: Formula): Factor
    requires WellFormed(f)
    decreases f, if Compound(f) then 3 else 1
  {
    match f
    case Atom(text) => Word(text)
    case Neg(g) => Negated(ToFactor(g))
    case _ => Group(ToExpr(f))
  }

  function TermsOf(fs: seq<Formula>): Expr
    requires fs != [] && forall f :: f in fs ==> WellFormed(f)
    decreases fs, 0
  {
    if |fs| == 1 then OnlyTerm(ToTerm(fs[0])) else OrMore(ToTerm(fs[0]), TermsOf(fs[1..]))
  }

  function FactorsOf(fs: seq<Formula>): Term
    requires fs != [] && forall f :: f in fs ==> WellFormed(f)
    decreases fs, 0
  {
    if |fs| == 1 then OnlyFactor(ToFactor(fs[0])) else AndMore(ToFactor(fs[0]), FactorsOf(fs[1..]))
  }

  /** The tokens of a formula, with parentheses only where precedence demands them. */
  function Print(f: Formula): seq<Token>
    requires WellFormed(f)
  {
    YieldExpr(ToExpr(f))
  }

  // The derivation chosen for printing means what the formula means.

  lemma {:induction false} ExprMeans(f: Formula, leaf: LeafParser)
    requires WellFormed(f)
    ensures TreeOfExpr(ToExpr(f), leaf) == Interpret(f, leaf)
    decreases f, if Compound(f) then 2 else 3
  {
    if f.Disj? {
      TermsMean(f.operands, leaf);
    } else {
      TermMeans(f, leaf);
    }
  }

  lemma {:induction false} TermMeans(f: Formula, leaf: LeafParser)
    requires WellFormed(f) && !f.Disj?
    ensures TreeOfTerm(ToTerm(f), leaf) == Interpret(f, leaf)
    decreases f, if f.Disj? then 4 else if f.Conj? then 1 else 2
  {
    if f.Conj? {
      FactorsMean(f.operands, leaf);
    } else {
      FactorMeans(f, leaf);
    }
  }

  lemma {:induction false} FactorMeans(f: Formula, leaf: LeafParser)
    requires WellFormed(f)
    ensures TreeOfFactor(ToFactor(f), leaf) == Interpret(f, leaf)
    decreases f, if Compound(f) then 3 else 1
  {
    match f
    case Atom(_) =>
    case Neg(g) => FactorMeans(g, leaf);
    case _ => ExprMeans(f, leaf);
  }

  lemma SingleOperand(fs: seq<Formula>, leaf: LeafParser)
    requires |fs| == 1
    ensures InterpretAll(fs, leaf) == match Interpret(fs[0], leaf) case None => None case Some(node) => Some([node])
  {
    assert fs[1..] == [];
    assert InterpretAll([], leaf) == Some([]);
    var first := Interpret(fs[0], leaf);
    if first.Some? {
      assert [first.value] + [] == [first.value];
    }
  }

  lemma {:induction false} TermsMean(fs: seq<Formula>, leaf: LeafParser)
    requires fs != [] && forall f :: f in fs ==> WellFormed(f)
    ensures TreesOfTerms(TermsOf(fs), leaf) == InterpretAll(fs, leaf)
    decreases fs, 0
  {
    if fs[0].Disj? {
      FactorMeans(fs[0], leaf);
    } else {
      TermMeans(fs[0], leaf);
    }
    assert TreeOfTerm(ToTerm(fs[0]), leaf) == Interpret(fs[0], leaf);
    if |fs| > 1 {
      TermsMean(fs[1..], leaf);
    } else {
      SingleOperand(fs, leaf);
    }
  }

  lemma {:induction false} FactorsMean(fs: seq<Formula>, leaf: LeafParser)
    requires fs != [] && forall f :: f in fs ==> WellFormed(f)
    ensures TreesOfFactors(FactorsOf(fs), leaf) == InterpretAll(fs, leaf)
    decreases fs, 0
  {
    FactorMeans(fs[0], leaf);
    if |fs| > 1 {
      FactorsMean(fs[1..], leaf);
    } else {
      SingleOperand(fs, leaf);
    }
  }

  /**
   Print and parse: reading a printed formula gives exactly its tree, nested
   operators kept apart, or nothing if a leaf does not parse or the tree is too deep.
   */
  lemma PrintParseRoundTrip(f: Formula, leaf: LeafParser, maxDepth: int)
    requires WellFormed(f)
    ensures Meaning(Print(f), leaf, maxDepth) ==
            match Interpret(f, leaf)
            case None => None
            case Some(root) => if Depth(root) <= maxDepth then Some(root) else None
  {
    ExprIsRead(ToExpr(f), []);
    assert YieldExpr(ToExpr(f)) + [] == Print(f);
    ExprMeans(f, leaf);
  }

  // ----- printing uses as few tokens as possible -----------------------------------------------

  /** The formula a derivation stands for once its parentheses are forgotten. */
  function FormulaOfExpr(e: Expr): (f: Formula)
    ensures WellFormed(f)
    decreases e, 1
  {
    if e.OnlyTerm? then FormulaOfTerm(e.term) else Disj(OperandsOfExpr(e))
  }

  function OperandsOfExpr(e: Expr): (fs: seq<Formula>)
    ensures |fs| >= (if e.OnlyTerm? then 1 else 2) && forall f :: f in fs ==> WellFormed(f)
    decreases e, 0
  {
    match e
    case OnlyTerm(t) => [FormulaOfTerm(t)]
    case OrMore(t, rest) => [FormulaOfTerm(t)] + OperandsOfExpr(rest)
  }

  function FormulaOfTerm(t: Term): (f: Formula)
    ensures WellFormed(f)
    decreases t, 1
  {
    if t.OnlyFactor? then FormulaOfFactor(t.factor) else Conj(OperandsOfTerm(t))
  }

  function OperandsOfTerm(t: Term): (fs: seq<Formula>)
    ensures |fs| >= (if t.OnlyFactor? then 1 else 2) && forall f :: f in fs ==> WellFormed(f)
    decreases t, 0
  {
    match t
    case OnlyFactor(f) => [FormulaOfFactor(f)]
    case AndMore(f, rest) => [FormulaOfFactor(f)] + OperandsOfTerm(rest)
  }

  function FormulaOfFactor(f: Factor): (g: Formula)
    ensures WellFormed(g)
    decreases f, 1
  {
    match f
    case Word(text) => Atom(text)
    case Negated(g) => Neg(FormulaOfFactor(g))
    case Group(e) => FormulaOfExpr(e)
  }

  /** Looser places never need more tokens, and parentheses cost two. */
  lemma LooserIsShorter(f: Formula)
    requires WellFormed(f)
    ensures |YieldExpr(ToExpr(f))| <= |YieldTerm(ToTerm(f))| <= |YieldFactor(ToFactor(f))|
    ensures |YieldFactor(ToFactor(f))| <= |YieldExpr(ToExpr(f))| + 2
  {
  }

  /** Whatever token list stands for a formula is at least as long as its print. */
  lemma {:induction false} PrintIsShortest(e: Expr)
    ensures |Print(FormulaOfExpr(e))| <= |YieldExpr(e)|
    decreases e, 3
  {
    if e.OnlyTerm? {
      ShortestTerm(e.term);
      LooserIsShorter(FormulaOfTerm(e.term));
    } else {
      ShortestOperands(e);
    }
  }

  lemma {:induction false} ShortestOperands(e: Expr)
    ensures |YieldExpr(TermsOf(OperandsOfExpr(e)))| <= |YieldExpr(e)|
    decreases e, 2
  {
    ShortestTerm(e.term);
    if e.OrMore? {
      ShortestOperands(e.rest);
      assert OperandsOfExpr(e)[1..] == OperandsOfExpr(e.rest);
    }
  }

  lemma {:induction false} ShortestTerm(t: Term)
    ensures |YieldTerm(ToTerm(FormulaOfTerm(t)))| <= |YieldTerm(t)|
    decreases t, 3
  {
    if t.OnlyFactor? {
      ShortestFactor(t.factor);
      LooserIsShorter(FormulaOfFactor(t.factor));
    } else {
      ShortestFactors(t);
    }
  }

  lemma {:induction false} ShortestFactors(t: Term)
    ensures |YieldTerm(FactorsOf(OperandsOfTerm(t)))| <= |YieldTerm(t)|
    decreases t, 2
  {
    ShortestFactor(t.factor);
    if t.AndMore? {
      ShortestFactors(t.rest);
      assert OperandsOfTerm(t)[1..] == OperandsOfTerm(t.rest);
    }
  }

  lemma {:induction false} ShortestFactor(f: Factor)
    ensures |YieldFactor(ToFactor(FormulaOfFactor(f)))| <= |YieldFactor(f)|
    decreases f, 3
  {
    match f
    case Word(_) =>
    case Negated(g) => ShortestFactor(g);
    case Group(e) =>
      PrintIsShortest(e);
      LooserIsShorter(FormulaOfExpr(e));
  }

  /** The print of a formula stands for that formula, so printing is injective. */
  lemma {:induction false} PrintStandsFor(f: Formula)
    requires WellFormed(f)
    ensures FormulaOfExpr(ToExpr(f)) == f
    decreases f, if Compound(f) then 2 else 3
  {
    if f.Disj? {
      OperandsStandFor(f.operands);
    } else {
      TermStandsFor(f);
    }
  }

  lemma {:induction false} TermStandsFor(f: Formula)
    requires WellFormed(f) && !f.Disj?
    ensures FormulaOfTerm(ToTerm(f)) == f
    decreases f, if f.Disj? then 4 else if f.Conj? then 1 else 2
  {
    if f.Conj? {
      FactorsStandFor(f.operands);
    } else {
      FactorStandsFor(f);
    }
  }

  lemma {:induction false} FactorStandsFor(f: Formula)
    requires WellFormed(f)
    ensures FormulaOfFactor(ToFactor(f)) == f
    decreases f, if Compound(f) then 3 else 1
  {
    match f
    case Atom(_) =>
    case Neg(g) => FactorStandsFor(g);
    case _ => PrintStandsFor(f);
  }

  lemma {:induction false} OperandsStandFor(fs: seq<Formula>)
    requires fs != [] && forall f :: f in fs ==> WellFormed(f)
    ensures OperandsOfExpr(TermsOf(fs)) == fs && (TermsOf(fs).OnlyTerm? <==> |fs| == 1)
    decreases fs, 0
  {
    if fs[0].Disj? {
      FactorStandsFor(fs[0]);
    } else {
      TermStandsFor(fs[0]);
    }
    assert FormulaOfTerm(ToTerm(fs[0])) == fs[0];
    if |fs| > 1 {
      OperandsStandFor(fs[1..]);
    }
  }

  lemma {:induction false} FactorsStandFor(fs: seq<Formula>)
    requires fs != [] && forall f :: f in fs ==> WellFormed(f)
    ensures OperandsOfTerm(FactorsOf(fs)) == fs && (FactorsOf(fs).OnlyFactor? <==> |fs| == 1)
    decreases fs, 0
  {
    FactorStandsFor(fs[0]);
    if |fs| > 1 {
      FactorsStandFor(fs[1..]);
    }
  }
}
