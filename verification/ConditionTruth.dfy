/** What a spoken condition says, and that its tree is true exactly then. */
module ConditionTruth {
  import opened Common
  import opened ConditionGrammar
  import opened ConditionTokenizer

  /** Which single conditions hold at the moment. */
  type World = string -> bool

  /** A tree is true if all, some or none of its children are. */
  predicate Truth(node: Node, world: World)
    decreases node
  {
    match node
    case Leaf(condition) => world(condition)
    case Branch(And, children) => forall i | 0 <= i < |children| :: Truth(children[i], world)
    case Branch(Or, children) => exists i | 0 <= i < |children| :: Truth(children[i], world)
    case Branch(Not, children) => forall i | 0 <= i < |children| :: !Truth(children[i], world)
  }

  /** What a formula says, read as a formula of propositional logic over what its leaves mean. */
  predicate Says(f: Formula, leaf: LeafParser, world: World)
    decreases f
  {
    match f
    case Atom(text) => leaf(text).Some? && Truth(leaf(text).value, world)
    case Neg(g) => !Says(g, leaf, world)
    case Conj(gs) => forall i | 0 <= i < |gs| :: Says(gs[i], leaf, world)
    case Disj(gs) => exists i | 0 <= i < |gs| :: Says(gs[i], leaf, world)
  }

  /** Each tree is true exactly when its formula says so. */
  predicate Agree(nodes: seq<Node>, fs: seq<Formula>, leaf: LeafParser, world: World) {
    |nodes| == |fs| && forall i :: 0 <= i < |nodes| ==> (Truth(nodes[i], world) <==> Says(fs[i], leaf, world))
  }

  lemma AgreeNext(node: Node, f: Formula, nodes: seq<Node>, fs: seq<Formula>, leaf: LeafParser, world: World)
    requires Agree(nodes, fs, leaf, world) && (Truth(node, world) <==> Says(f, leaf, world))
    ensures Agree([node] + nodes, [f] + fs, leaf, world)
  {
  }

  lemma AgreeAlone(node: Node, f: Formula, leaf: LeafParser, world: World)
    requires Truth(node, world) <==> Says(f, leaf, world)
    ensures Agree([node], [f], leaf, world)
  {
  }

  lemma AllAgree(nodes: seq<Node>, fs: seq<Formula>, leaf: LeafParser, world: World)
    requires Agree(nodes, fs, leaf, world)
    ensures Truth(Branch(And, nodes), world) <==> Says(Conj(fs), leaf, world)
  {
    assert forall i :: 0 <= i < |nodes| ==> (Truth(nodes[i], world) <==> Says(fs[i], leaf, world));
  }

  lemma SomeAgrees(nodes: seq<Node>, fs: seq<Formula>, leaf: LeafParser, world: World)
    requires Agree(nodes, fs, leaf, world)
    ensures Truth(Branch(Or, nodes), world) <==> Says(Disj(fs), leaf, world)
  {
    assert forall i :: 0 <= i < |nodes| ==> (Truth(nodes[i], world) <==> Says(fs[i], leaf, world));
  }

  lemma NegationIsTrue(node: Node, world: World)
    ensures Truth(Branch(Not, [node]), world) <==> !Truth(node, world)
  {
    assert [node][0] == node;
  }

  // The tree of a derivation, as far as its leaves parse, is true exactly when its formula says so.

  lemma {:induction false} ExprIsTrue(e: Expr, leaf: LeafParser, world: World)
    requires TreeOfExpr(e, leaf).Some?
    ensures Truth(TreeOfExpr(e, leaf).value, world) <==> Says(FormulaOfExpr(e), leaf, world)
    decreases e, 3
  {
    TermsAgree(e, leaf, world);
    SomeAgrees(TreesOfTerms(e, leaf).value, OperandsOfExpr(e), leaf, world);
  }

  lemma {:induction false} TermsAgree(e: Expr, leaf: LeafParser, world: World)
    requires TreesOfTerms(e, leaf).Some?
    ensures Agree(TreesOfTerms(e, leaf).value, OperandsOfExpr(e), leaf, world)
    decreases e, 2
  {
    TermIsTrue(e.term, leaf, world);
    var first, f := TreeOfTerm(e.term, leaf).value, FormulaOfTerm(e.term);
    match e
    case OnlyTerm(_) => AgreeAlone(first, f, leaf, world);
    case OrMore(_, rest) =>
      TermsAgree(rest, leaf, world);
      AgreeNext(first, f, TreesOfTerms(rest, leaf).value, OperandsOfExpr(rest), leaf, world);
  }

  lemma {:induction false} TermIsTrue(t: Term, leaf: LeafParser, world: World)
    requires TreeOfTerm(t, leaf).Some?
    ensures Truth(TreeOfTerm(t, leaf).value, world) <==> Says(FormulaOfTerm(t), leaf, world)
    decreases t, 3
  {
    FactorsAgree(t, leaf, world);
    AllAgree(TreesOfFactors(t, leaf).value, OperandsOfTerm(t), leaf, world);
  }

  lemma {:induction false} FactorsAgree(t: Term, leaf: LeafParser, world: World)
    requires TreesOfFactors(t, leaf).Some?
    ensures Agree(TreesOfFactors(t, leaf).value, OperandsOfTerm(t), leaf, world)
    decreases t, 2
  {
    FactorIsTrue(t.factor, leaf, world);
    var first, f := TreeOfFactor(t.factor, leaf).value, FormulaOfFactor(t.factor);
    match t
    case OnlyFactor(_) => AgreeAlone(first, f, leaf, world);
    case AndMore(_, rest) =>
      FactorsAgree(rest, leaf, world);
      AgreeNext(first, f, TreesOfFactors(rest, leaf).value, OperandsOfTerm(rest), leaf, world);
  }

  lemma {:induction false} FactorIsTrue(f: Factor, leaf: LeafParser, world: World)
    requires TreeOfFactor(f, leaf).Some?
    ensures Truth(TreeOfFactor(f, leaf).value, world) <==> Says(FormulaOfFactor(f), leaf, world)
    decreases f, 3
  {
    match f
    case Word(_) =>
    case Negated(g) =>
      FactorIsTrue(g, leaf, world);
      NegationIsTrue(TreeOfFactor(g, leaf).value, world);
    case Group(e) => ExprIsTrue(e, leaf, world);
  }

  /**
   Any token list that is accepted has one derivation, and its tree is true
   exactly when the formula of that derivation says so: NOT before AND before
   OR, and parentheses before all of them.
   */
  lemma AcceptedIsTrue(tokens: seq<Token>, leaf: LeafParser, maxDepth: int, world: World) returns (e: Expr)
    requires Meaning(tokens, leaf, maxDepth).Some?
    ensures YieldExpr(e) == tokens && forall other :: YieldExpr(other) == tokens ==> other == e
    ensures Truth(Meaning(tokens, leaf, maxDepth).value, world) <==> Says(FormulaOfExpr(e), leaf, world)
  {
    var root := Meaning(tokens, leaf, maxDepth).value;
    ExactLanguage(tokens, leaf, maxDepth, root);
    e :| YieldExpr(e) == tokens && TreeOfExpr(e, leaf) == Some(root) && Depth(root) <= maxDepth;
    ExprIsTrue(e, leaf, world);
  }

  /** From a formula to a sentence and its tree: what is understood is true exactly when what was meant is. */
  lemma SentenceIsTrue(f: Formula, leaf: LeafParser, maxDepth: int, abc: Alphabet, world: World)
    requires WellFormed(f) && abc.Sane() && LeavesClean(f, abc)
    requires Meaning(Tokens(Spell(Print(f)), abc), leaf, maxDepth).Some?
    ensures Truth(Meaning(Tokens(Spell(Print(f)), abc), leaf, maxDepth).value, world) <==> Says(f, leaf, world)
  {
    SentenceRoundTrip(f, leaf, maxDepth, abc);
    PrintParseRoundTrip(f, leaf, maxDepth);
    var e := AcceptedIsTrue(Print(f), leaf, maxDepth, world);
    assert e == ToExpr(f);
    PrintStandsFor(f);
  }

  // ----- how deep a tree is ------------------------------------------------------------------

  /** No branch of the tree has more than `n` nodes one below the other. */
  predicate AtMost(node: Node, n: int)
    decreases node
  {
    n >= 1 && (node.Branch? ==> forall i | 0 <= i < |node.children| :: AtMost(node.children[i], n - 1))
  }

  lemma {:induction false} DepthExactly(node: Node, n: int)
    ensures Depth(node) <= n <==> AtMost(node, n)
    decreases node, 1
  {
    if node.Branch? {
      DepthsExactly(node.children, n - 1);
    }
  }

  lemma {:induction false} DepthsExactly(nodes: seq<Node>, n: int)
    ensures nodes != [] || n >= 0 ==> (DepthOfAll(nodes) <= n <==> forall i :: 0 <= i < |nodes| ==> AtMost(nodes[i], n))
    decreases nodes, 0
  {
    if nodes != [] {
      DepthExactly(nodes[0], n);
      DepthsExactly(nodes[1..], n);
      assert forall i :: 1 <= i < |nodes| ==> nodes[i] == nodes[1..][i - 1];
    }
  }
}
