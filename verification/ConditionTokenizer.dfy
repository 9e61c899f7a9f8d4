/**
 Cutting a sentence at the structural words "und", "oder", "nicht" and at
 parentheses; what lies between is leaf text.
 */
module ConditionTokenizer {
  import opened Common
  import opened ConditionGrammar

  /** The character classes of the text library; left open but for a few characters. */
  datatype Alphabet = Alphabet(isSpace: char -> bool, isWord: char -> bool) {
    predicate Sane() {
      && isSpace(' ') && !isWord(' ')
      && isWord('u') && isWord('d') && isWord('o') && isWord('r') && isWord('n') && isWord('t')
    }
  }

  // ----- structural matches ---------------------------------------------------------

  function Lower(c: char): char {
    if 'A' <= c <= 'Z' then ((c as int) + 32) as char else c
  }

  /** The letters of `word` stand at `i`, in either case; read letter by letter. */
  predicate SpelledAt(text: string, i: nat, word: string)
    decreases |word|
  {
    && i + |word| <= |text|
    && (word != "" ==> Lower(text[i]) == word[0] && SpelledAt(text, i + 1, word[1..]))
  }

  predicate SameLetters(text: string, i: nat, word: string) {
    i + |word| <= |text| && forall k :: 0 <= k < |word| ==> Lower(text[i + k]) == word[k]
  }

  lemma {:induction false} SpelledLetters(text: string, i: nat, word: string)
    ensures SpelledAt(text, i, word) <==> SameLetters(text, i, word)
    decreases |word|
  {
    if word != "" {
      SpelledLetters(text, i + 1, word[1..]);
      if SameLetters(text, i, word) {
        assert Lower(text[i + 0]) == word[0];
        forall k | 0 <= k < |word| - 1
          ensures Lower(text[i + 1 + k]) == word[1..][k]
        {
          assert Lower(text[i + (k + 1)]) == word[k + 1];
        }
      }
      if SpelledAt(text, i, word) {
        forall k | 0 <= k < |word|
          ensures Lower(text[i + k]) == word[k]
        {
          if k > 0 {
            assert Lower(text[(i + 1) + (k - 1)]) == word[1..][k - 1];
          }
        }
      }
    }
  }

  predicate WordAt(text: string, i: int, abc: Alphabet) {
    0 <= i < |text| && abc.isWord(text[i])
  }

  /** `\b`: exactly one side is a word character. */
  predicate Boundary(text: string, i: nat, abc: Alphabet) {
    WordAt(text, i - 1, abc) != WordAt(text, i, abc)
  }

  predicate KeywordAt(text: string, i: nat, word: string, abc: Alphabet) {
    SpelledAt(text, i, word) && Boundary(text, i, abc) && Boundary(text, i + |word|, abc)
  }

  function Spelling(token: Token): string {
    match token
    case LParen => "("
    case RParen => ")"
    case AndWord => "und"
    case OrWord => "oder"
    case NotWord => "nicht"
    case Text(text) => text
  }

  /** A structural token and the characters it covers. */
  datatype Hit = Hit(token: Token, length: nat)

  /** The structural token that starts at `i`, if one does. */
  function MatchAt(text: string, i: nat, abc: Alphabet): Option<Hit> {
    if SpelledAt(text, i, "(") then Some(Hit(LParen, 1))
    else if SpelledAt(text, i, ")") then Some(Hit(RParen, 1))
    else if KeywordAt(text, i, "und", abc) then Some(Hit(AndWord, 3))
    else if KeywordAt(text, i, "oder", abc) then Some(Hit(OrWord, 4))
    else if KeywordAt(text, i, "nicht", abc) then Some(Hit(NotWord, 5))
    else None
  }

  lemma MatchSpells(text: string, i: nat, abc: Alphabet)
    requires MatchAt(text, i, abc).Some?
    ensures
      var hit := MatchAt(text, i, abc).value;
      && !hit.token.Text? && 1 <= hit.length == |Spelling(hit.token)|
      && SpelledAt(text, i, Spelling(hit.token)) && i + hit.length <= |text|
  {
  }

  /** The word stands at `i`, each letter small or capital. */
  predicate InEitherCase(text: string, i: nat, word: string) {
    i + |word| <= |text| && forall k :: 0 <= k < |word| ==> text[i + k] == word[k] || text[i + k] as int + 32 == word[k] as int
  }

  lemma LettersInEitherCase(text: string, i: nat, word: string)
    requires forall k :: 0 <= k < |word| ==> 'a' <= word[k] <= 'z'
    ensures SpelledAt(text, i, word) <==> InEitherCase(text, i, word)
  {
    SpelledLetters(text, i, word);
    if i + |word| <= |text| {
      assert forall k :: 0 <= k < |word| ==>
          (Lower(text[i + k]) == word[k] <==> text[i + k] == word[k] || text[i + k] as int + 32 == word[k] as int);
    }
  }

  /** Of the characters around `i`, where there are any, exactly one belongs to a word. */
  predicate Edge(text: string, i: nat, abc: Alphabet) {
    (0 < i <= |text| && abc.isWord(text[i - 1])) != (i < |text| && abc.isWord(text[i]))
  }

  predicate Alone(text: string, i: nat, word: string, abc: Alphabet) {
    InEitherCase(text, i, word) && Edge(text, i, abc) && Edge(text, i + |word|, abc)
  }

  lemma KeywordAlone(text: string, i: nat, word: string, abc: Alphabet)
    requires word != "" && forall k :: 0 <= k < |word| ==> 'a' <= word[k] <= 'z'
    ensures KeywordAt(text, i, word, abc) <==> Alone(text, i, word, abc)
    ensures KeywordAt(text, i, word, abc) ==> i < |text| && Lower(text[i]) == word[0]
  {
    LettersInEitherCase(text, i, word);
  }

  lemma ParenthesisAt(text: string, i: nat, word: string)
    requires word == "(" || word == ")"
    ensures SpelledAt(text, i, word) <==> i < |text| && text[i] == word[0]
  {
    assert word[1..] == "";
  }

  /** The structural tokens and where they start, exactly. */
  lemma MatchesExactly(text: string, i: nat, abc: Alphabet)
    ensures MatchAt(text, i, abc) == Some(Hit(LParen, 1)) <==> i < |text| && text[i] == '('
    ensures MatchAt(text, i, abc) == Some(Hit(RParen, 1)) <==> i < |text| && text[i] == ')'
    ensures MatchAt(text, i, abc) == Some(Hit(AndWord, 3)) <==> Alone(text, i, "und", abc)
    ensures MatchAt(text, i, abc) == Some(Hit(OrWord, 4)) <==> Alone(text, i, "oder", abc)
    ensures MatchAt(text, i, abc) == Some(Hit(NotWord, 5)) <==> Alone(text, i, "nicht", abc)
  {
    ParenthesisAt(text, i, "(");
    ParenthesisAt(text, i, ")");
    KeywordAlone(text, i, "und", abc);
    KeywordAlone(text, i, "oder", abc);
    KeywordAlone(text, i, "nicht", abc);
  }

  /** Inside another word no structural word is found. */
  lemma ReasonIsNoConjunction(abc: Alphabet)
    requires abc.Sane()
    ensures MatchAt("Grund", 2, abc) == None
  {
    var text := "Grund";
    assert text[1] == 'r' && text[2] == 'u';
    MatchesExactly(text, 2, abc);
    KeywordAlone(text, 2, "oder", abc);
    KeywordAlone(text, 2, "nicht", abc);
  }

  // ----- tokens -----------------------------------------------------------------------

  function Strip(text: string, abc: Alphabet): string {
    StripRight(StripLeft(text, abc), abc)
  }

  function StripLeft(text: string, abc: Alphabet): string {
    if text != [] && abc.isSpace(text[0]) then StripLeft(text[1..], abc) else text
  }

  function StripRight(text: string, abc: Alphabet): string {
    if text != [] && abc.isSpace(text[|text| - 1]) then StripRight(text[..|text| - 1], abc) else text
  }

  /** The leaf token of a span, unless it is blank. */
  function LeafToken(span: string, abc: Alphabet): seq<Token> {
    var stripped := Strip(span, abc);
    if stripped == [] then [] else [Text(stripped)]
  }

  /** One text as the loop sees it: the structural token at a place, the leaf token of a span. */
  datatype Cutter = Cutter(length: nat, at: nat -> Option<Hit>, leaf: (nat, nat) -> seq<Token>) {
    ghost predicate Fits() {
      forall i: nat :: at(i).Some? ==> !at(i).value.token.Text? && 1 <= at(i).value.length && i + at(i).value.length <= length
    }

    /** The first structural token at or after `i`. */
    function Search(i: nat): (m: Option<Match>)
      requires Fits()
      ensures m.Some? ==> i <= m.value.start < m.value.End() <= length && !m.value.hit.token.Text?
      decreases length - i
    {
      match at(i)
      case Some(hit) => Some(Match(i, hit))
      case None => if i < length then Search(i + 1) else None
    }

    function TokensFrom(pos: nat): seq<Token>
      requires pos <= length && Fits()
      decreases length - pos
    {
      match Search(pos)
      case None => leaf(pos, length)
      case Some(m) => leaf(pos, m.start) + [m.hit.token] + TokensFrom(m.End())
    }
  }

  datatype Match = Match(start: nat, hit: Hit) {
    function End(): nat {
      start + hit.length
    }
  }

  function CutterOf(text: string, abc: Alphabet): (cut: Cutter)
    ensures cut.Fits()
  {
    StructuralFits(text, abc);
    Cutter(|text|,
           (i: nat) => MatchAt(text, i, abc),
           (i: nat, j: nat) => if i <= j <= |text| then LeafToken(text[i..j], abc) else [])
  }

  lemma StructuralFits(text: string, abc: Alphabet)
    ensures forall i: nat :: MatchAt(text, i, abc).Some? ==>
              var hit := MatchAt(text, i, abc).value;
              !hit.token.Text? && 1 <= hit.length && i + hit.length <= |text|
  {
    forall i: nat | MatchAt(text, i, abc).Some?
      ensures
        var hit := MatchAt(text, i, abc).value;
        !hit.token.Text? && 1 <= hit.length && i + hit.length <= |text|
    {
      MatchSpells(text, i, abc);
    }
  }

  function Tokens(text: string, abc: Alphabet): seq<Token> {
    CutterOf(text, abc).TokensFrom(0)
  }

  method Tokenize(text: string, abc: Alphabet) returns (tokens: seq<Token>)
    ensures tokens == Tokens(text, abc)
  {
    tokens := CutAll(CutterOf(text, abc));
  }

  /** The loop over the matches. */
  method CutAll(cut: Cutter) returns (tokens: seq<Token>)
    requires cut.Fits()
    ensures tokens == cut.TokensFrom(0)
  {
    tokens := [];
    var pos := 0;
    var found := cut.Search(0);
    while found.Some?
      invariant pos <= cut.length && found == cut.Search(pos)
      invariant cut.TokensFrom(0) == tokens + cut.TokensFrom(pos)
      decreases cut.length - pos
    {
      ghost var before, more := tokens, cut.TokensFrom(found.value.End());
      var span := cut.leaf(pos, found.value.start);
      tokens := tokens + span;
      tokens := tokens + [found.value.hit.token];
      assert before + (span + [found.value.hit.token] + more) == tokens + more;
      pos := found.value.End();
      found := cut.Search(pos);
    }
    tokens := tokens + cut.leaf(pos, cut.length);
  }

  // ----- writing tokens as text and cutting it again -------------------------------------

  /** Nothing to strip. */
  predicate Trimmed(text: string, abc: Alphabet) {
    text != [] && !abc.isSpace(text[0]) && !abc.isSpace(text[|text| - 1])
  }

  /** Leaf text: trimmed, and free of structural tokens. */
  predicate Clean(text: string, abc: Alphabet) {
    Trimmed(text, abc) && Unstructured(text, 0, abc)
  }

  /** No structural token starts at `i` or later. */
  predicate Unstructured(text: string, i: nat, abc: Alphabet)
    decreases |text| - i
  {
    i < |text| ==> MatchAt(text, i, abc) == None && Unstructured(text, i + 1, abc)
  }

  lemma {:induction false} UnstructuredAt(text: string, i: nat, k: nat, abc: Alphabet)
    requires Unstructured(text, i, abc) && i <= k < |text|
    ensures MatchAt(text, k, abc) == None
    decreases k - i
  {
    if i < k {
      UnstructuredAt(text, i + 1, k, abc);
    }
  }

  /** Leaves are clean and two of them never stand side by side. */
  predicate Separated(tokens: seq<Token>, abc: Alphabet) {
    && (forall t :: t in tokens && t.Text? ==> Clean(t.text, abc))
    && (forall i :: 0 <= i < |tokens| - 1 ==> !tokens[i].Text? || !tokens[i + 1].Text?)
  }

  /** The tokens as text, a blank before each. */
  function Spell(tokens: seq<Token>): string {
    if tokens == [] then "" else " " + Spelling(tokens[0]) + Spell(tokens[1..])
  }

  lemma {:induction false} SpelledHead(text: string, i: nat, word: string)
    requires SpelledAt(text, i, word) && word != []
    ensures i < |text| && Lower(text[i]) == word[0]
  {
  }

  lemma {:induction false} NoMatchAtBlank(text: string, i: nat, abc: Alphabet)
    requires i < |text| && text[i] == ' '
    ensures MatchAt(text, i, abc) == None
  {
  }

  /** `word` stands at `i`, with a blank before it and a blank or the end behind it. */
  predicate Stands(text: string, i: nat, word: string) {
    && 1 <= i && i + |word| <= |text| && text[i - 1] == ' '
    && ReadsAt(text, i, word)
    && (i + |word| < |text| ==> text[i + |word|] == ' ')
  }

  /** `text[i..]` starts with `word`; unrolled one letter at a time. */
  predicate ReadsAt(text: string, i: nat, word: string)
    decreases |word|
  {
    i + |word| <= |text| && (word != "" ==> text[i] == word[0] && ReadsAt(text, i + 1, word[1..]))
  }

  lemma {:induction false} ReadsSlice(text: string, i: nat, word: string)
    ensures ReadsAt(text, i, word) <==> i + |word| <= |text| && text[i..i + |word|] == word
    decreases |word|
  {
    if word != "" && i + |word| <= |text| {
      ReadsSlice(text, i + 1, word[1..]);
      assert text[i..i + |word|] == [text[i]] + text[i + 1..i + |word|];
      assert word == [word[0]] + word[1..];
    }
  }

  /** A structural word between blanks is found. */
  lemma {:induction false} StructuralIsFound(text: string, i: nat, token: Token, abc: Alphabet)
    requires abc.Sane() && !token.Text? && Stands(text, i, Spelling(token))
    ensures MatchAt(text, i, abc) == Some(Hit(token, |Spelling(token)|))
  {
    var word := Spelling(token);
    ReadsSlice(text, i, word);
    forall k | 0 <= k < |word|
      ensures Lower(text[i + k]) == word[k]
    {
      assert text[i..i + |word|][k] == text[i + k];
    }
    SpelledLetters(text, i, word);
    assert text[i] == text[i..i + |word|][0];
    assert text[i + |word| - 1] == text[i..i + |word|][|word| - 1];
    if SpelledAt(text, i, "(") { SpelledHead(text, i, "("); }
    if SpelledAt(text, i, ")") { SpelledHead(text, i, ")"); }
    if SpelledAt(text, i, "und") { SpelledHead(text, i, "und"); }
    if SpelledAt(text, i, "oder") { SpelledHead(text, i, "oder"); }
  }

  /** A structural word has no blank, so one that starts inside `word` ends inside it. */
  lemma {:induction false} SpellingStaysInside(text: string, i: nat, word: string, k: nat, w: string)
    requires k < |word| && Stands(text, i, word)
    requires SpelledAt(text, i + k, w) && forall c :: c in w ==> c != ' '
    ensures SpelledAt(word, k, w)
  {
    ReadsSlice(text, i, word);
    SpelledLetters(text, i + k, w);
    forall p | i + k <= p < i + k + |w|
      ensures text[p] != ' '
    {
      assert Lower(text[(i + k) + (p - i - k)]) == w[p - i - k];
      assert w[p - i - k] in w;
    }
    assert k + |w| <= |word|;
    forall j | 0 <= j < |w|
      ensures Lower(word[k + j]) == w[j]
    {
      assert text[i..i + |word|][k + j] == text[(i + k) + j];
    }
    SpelledLetters(word, k, w);
  }

  lemma {:induction false} BoundariesAgree(text: string, i: nat, word: string, k: nat, abc: Alphabet)
    requires abc.Sane() && k <= |word| && Stands(text, i, word)
    ensures Boundary(text, i + k, abc) == Boundary(word, k, abc)
  {
    ReadsSlice(text, i, word);
    assert k < |word| ==> text[i..i + |word|][k] == text[i + k];
    assert 0 < k ==> text[i..i + |word|][k - 1] == text[i + k - 1];
  }

  /** What matches inside `word` within the text also matches in `word` alone. */
  lemma {:induction false} MatchesAlone(text: string, i: nat, word: string, k: nat, w: string, abc: Alphabet)
    requires abc.Sane() && k < |word| && Stands(text, i, word)
    requires forall c :: c in w ==> c != ' '
    ensures SpelledAt(text, i + k, w) ==> SpelledAt(word, k, w)
    ensures KeywordAt(text, i + k, w, abc) ==> KeywordAt(word, k, w, abc)
  {
    if SpelledAt(text, i + k, w) {
      SpellingStaysInside(text, i, word, k, w);
      BoundariesAgree(text, i, word, k, abc);
      BoundariesAgree(text, i, word, k + |w|, abc);
    }
  }

  /** Text free of structural tokens stays so between blanks. */
  lemma {:induction false} NoMatchInside(text: string, i: nat, word: string, k: nat, abc: Alphabet)
    requires abc.Sane() && k < |word| && Stands(text, i, word) && MatchAt(word, k, abc) == None
    ensures MatchAt(text, i + k, abc) == None
  {
    MatchesAlone(text, i, word, k, "(", abc);
    MatchesAlone(text, i, word, k, ")", abc);
    MatchesAlone(text, i, word, k, "und", abc);
    MatchesAlone(text, i, word, k, "oder", abc);
    MatchesAlone(text, i, word, k, "nicht", abc);
  }

  lemma {:induction false} BlankIsNoLeaf(abc: Alphabet)
    requires abc.Sane()
    ensures LeafToken(" ", abc) == []
  {
    assert StripLeft(" ", abc) == StripLeft("", abc);
  }

  /** Stripping removes the blanks around clean text and nothing else. */
  lemma {:induction false} StripBlanks(word: string, abc: Alphabet)
    requires abc.Sane() && Trimmed(word, abc)
    ensures LeafToken(" " + word, abc) == [Text(word)]
    ensures LeafToken(" " + word + " ", abc) == [Text(word)]
  {
    assert (" " + word)[1..] == word;
    assert StripLeft(word, abc) == word && StripRight(word, abc) == word;
    var both := " " + word + " ";
    assert both[1..] == word + " ";
    assert StripLeft(word + " ", abc) == word + " ";
    assert (word + " ")[..|word|] == word;
    assert StripRight(word + " ", abc) == StripRight(word, abc);
  }

  /** The tokens stand in the text from `pos` to its end, each behind one blank. */
  predicate Lays(text: string, pos: nat, tokens: seq<Token>)
    decreases |tokens|
  {
    if tokens == [] then pos == |text|
    else Stands(text, pos + 1, Spelling(tokens[0])) && Lays(text, pos + 1 + |Spelling(tokens[0])|, tokens[1..])
  }

  lemma {:induction false} WordStands(before: string, word: string, more: string)
    requires more != "" ==> more[0] == ' '
    ensures Stands(before + " " + word + more, |before| + 1, word)
  {
    ReadsSlice(before + " " + word + more, |before| + 1, word);
  }

  lemma {:induction false} SpellFirst(before: string, tokens: seq<Token>)
    requires tokens != []
    ensures before + Spell(tokens) == (before + " " + Spelling(tokens[0])) + Spell(tokens[1..])
    ensures Stands(before + Spell(tokens), |before| + 1, Spelling(tokens[0]))
  {
    var word, more := Spelling(tokens[0]), Spell(tokens[1..]);
    assert before + (" " + word + more) == (before + " " + word) + more;
    WordStands(before, word, more);
  }

  lemma {:induction false} SpellLays(text: string, before: string, tokens: seq<Token>)
    requires text == before + Spell(tokens)
    ensures Lays(text, |before|, tokens)
    decreases |tokens|
  {
    if tokens != [] {
      SpellFirst(before, tokens);
      var done := before + " " + Spelling(tokens[0]);
      assert |done| == |before| + 1 + |Spelling(tokens[0])|;
      SpellLays(text, done, tokens[1..]);
    } else {
      assert Spell(tokens) == "";
    }
  }

  /** From `pos` on the cutter sees one blank, then `token`, and nothing else. */
  predicate Sees(cut: Cutter, pos: nat, token: Token, last: bool) {
    var end := pos + 1 + |Spelling(token)|;
    && end <= cut.length && cut.at(pos) == None
    && (if token.Text?
        then (forall k: nat | pos < k < end :: cut.at(k) == None) && cut.leaf(pos, if last then end else end + 1) == [token]
        else cut.leaf(pos, pos + 1) == [] && cut.at(pos + 1) == Some(Hit(token, |Spelling(token)|)))
  }

  lemma {:induction false} LeafIsUnmatched(text: string, pos: nat, word: string, abc: Alphabet)
    requires abc.Sane() && Unstructured(word, 0, abc) && Stands(text, pos + 1, word)
    ensures forall k: nat | pos < k < pos + 1 + |word| :: MatchAt(text, k, abc) == None
  {
    forall k: nat | pos < k < pos + 1 + |word|
      ensures MatchAt(text, k, abc) == None
    {
      UnstructuredAt(word, 0, k - pos - 1, abc);
      NoMatchInside(text, pos + 1, word, k - pos - 1, abc);
    }
  }

  lemma {:induction false} LeafSpan(text: string, pos: nat, word: string)
    requires Stands(text, pos + 1, word)
    ensures text[pos..pos + 1 + |word|] == " " + word
    ensures pos + 1 + |word| < |text| ==> text[pos..pos + 2 + |word|] == " " + word + " "
  {
    ReadsSlice(text, pos + 1, word);
    var end := pos + 1 + |word|;
    assert text[pos..end] == text[pos..pos + 1] + text[pos + 1..end];
    assert text[pos..pos + 1] == " ";
    if end < |text| {
      assert text[pos..end + 1] == text[pos..end] + text[end..end + 1];
      assert text[end..end + 1] == " ";
    }
  }

  lemma {:induction false} LeafIsSeen(text: string, pos: nat, word: string, last: bool, abc: Alphabet)
    requires abc.Sane() && Stands(text, pos + 1, word) && last == (pos + 1 + |word| == |text|)
    requires Trimmed(word, abc)
    requires forall k: nat | pos < k < pos + 1 + |word| :: MatchAt(text, k, abc) == None
    ensures Sees(CutterOf(text, abc), pos, Text(word), last)
  {
    NoMatchAtBlank(text, pos, abc);
    LeafIsStripped(text, pos, word, abc);
  }

  lemma {:induction false} LeafIsStripped(text: string, pos: nat, word: string, abc: Alphabet)
    requires abc.Sane() && Stands(text, pos + 1, word) && Trimmed(word, abc)
    ensures LeafToken(text[pos..pos + 1 + |word|], abc) == [Text(word)]
    ensures pos + 1 + |word| < |text| ==> LeafToken(text[pos..pos + 2 + |word|], abc) == [Text(word)]
  {
    StripBlanks(word, abc);
    LeafSpan(text, pos, word);
  }

  lemma {:induction false} StructuralIsSeen(text: string, pos: nat, token: Token, last: bool, abc: Alphabet)
    requires abc.Sane() && !token.Text? && Stands(text, pos + 1, Spelling(token))
    ensures Sees(CutterOf(text, abc), pos, token, last)
  {
    NoMatchAtBlank(text, pos, abc);
    StructuralIsFound(text, pos + 1, token, abc);
    BlankIsNoLeaf(abc);
    assert text[pos..pos + 1] == " ";
  }

  /** From `pos` on the cutter sees exactly these tokens. */
  predicate SeesAll(cut: Cutter, pos: nat, tokens: seq<Token>)
    decreases |tokens|
  {
    if tokens == [] then pos == cut.length && cut.at(pos) == None && cut.leaf(pos, pos) == []
    else
      && Sees(cut, pos, tokens[0], |tokens| == 1)
      && (|tokens| > 1 ==> !tokens[0].Text? || !tokens[1].Text?)
      && SeesAll(cut, pos + 1 + |Spelling(tokens[0])|, tokens[1..])
  }

  /** The first token reaches the end of the text exactly when it is the only one. */
  lemma {:induction false} LaidReachesEnd(text: string, pos: nat, tokens: seq<Token>)
    requires tokens != [] && Lays(text, pos, tokens)
    ensures |tokens| == 1 <==> pos + 1 + |Spelling(tokens[0])| == |text|
  {
    var end := pos + 1 + |Spelling(tokens[0])|;
    assert Lays(text, end, tokens[1..]);
    assert |tokens| > 1 ==> Stands(text, end + 1, Spelling(tokens[1..][0]));
  }

  /** The token stands behind a blank at `pos`; a leaf is clean, and the last one reaches the end. */
  predicate FirstStands(text: string, pos: nat, token: Token, last: bool, abc: Alphabet) {
    && Stands(text, pos + 1, Spelling(token))
    && (token.Text? ==> Clean(token.text, abc) && last == (pos + 1 + |token.text| == |text|))
  }

  lemma {:induction false} FirstIsSeen(text: string, pos: nat, token: Token, last: bool, abc: Alphabet)
    requires abc.Sane() && FirstStands(text, pos, token, last, abc)
    ensures Sees(CutterOf(text, abc), pos, token, last)
  {
    if token.Text? {
      LeafIsUnmatched(text, pos, token.text, abc);
      LeafIsSeen(text, pos, token.text, last, abc);
    } else {
      StructuralIsSeen(text, pos, token, last, abc);
    }
  }

  /** The cutter sees every token that stands in the text, and that nothing follows its end. */
  ghost predicate Sharp(cut: Cutter, text: string, abc: Alphabet) {
    && (forall pos: nat, token, last :: FirstStands(text, pos, token, last, abc) ==> Sees(cut, pos, token, last))
    && SeesAll(cut, |text|, [])
  }

  lemma {:induction false} CutterIsSharp(text: string, abc: Alphabet)
    requires abc.Sane()
    ensures Sharp(CutterOf(text, abc), text, abc)
  {
    forall pos: nat, token, last | FirstStands(text, pos, token, last, abc)
      ensures Sees(CutterOf(text, abc), pos, token, last)
    {
      FirstIsSeen(text, pos, token, last, abc);
    }
    EndIsSeen(text, abc);
  }

  lemma {:induction false} SeparatedFirst(tokens: seq<Token>, abc: Alphabet)
    requires Separated(tokens, abc) && tokens != []
    ensures tokens[0].Text? ==> Clean(tokens[0].text, abc)
    ensures |tokens| > 1 ==> !tokens[0].Text? || !tokens[1].Text?
    ensures Separated(tokens[1..], abc)
  {
    assert tokens[0] in tokens;
  }

  lemma {:induction false} LaidStep(text: string, pos: nat, tokens: seq<Token>, abc: Alphabet)
    requires tokens != [] && Separated(tokens, abc) && Lays(text, pos, tokens)
    ensures FirstStands(text, pos, tokens[0], |tokens| == 1, abc)
    ensures |tokens| > 1 ==> !tokens[0].Text? || !tokens[1].Text?
    ensures Separated(tokens[1..], abc) && Lays(text, pos + 1 + |Spelling(tokens[0])|, tokens[1..])
  {
    SeparatedFirst(tokens, abc);
    LaidReachesEnd(text, pos, tokens);
  }

  lemma {:induction false} RestIsLaid(text: string, pos: nat, tokens: seq<Token>, abc: Alphabet)
    requires tokens != [] && Separated(tokens, abc) && Lays(text, pos, tokens)
    ensures Separated(tokens[1..], abc) && Lays(text, pos + 1 + |Spelling(tokens[0])|, tokens[1..])
  {
    SeparatedFirst(tokens, abc);
  }

  lemma {:induction false} FirstSeen(cut: Cutter, pos: nat, tokens: seq<Token>)
    requires tokens != [] && Sees(cut, pos, tokens[0], |tokens| == 1)
    requires |tokens| > 1 ==> !tokens[0].Text? || !tokens[1].Text?
    requires SeesAll(cut, pos + 1 + |Spelling(tokens[0])|, tokens[1..])
    ensures SeesAll(cut, pos, tokens)
  {
  }

  lemma {:induction false} LaidFirstIsSeen(cut: Cutter, text: string, pos: nat, tokens: seq<Token>, abc: Alphabet)
    requires Sharp(cut, text, abc) && tokens != [] && Separated(tokens, abc) && Lays(text, pos, tokens)
    requires SeesAll(cut, pos + 1 + |Spelling(tokens[0])|, tokens[1..])
    ensures SeesAll(cut, pos, tokens)
  {
    LaidStep(text, pos, tokens, abc);
    FirstSeen(cut, pos, tokens);
  }

  lemma {:induction false} NothingLeftIsSeen(cut: Cutter, text: string, pos: nat, abc: Alphabet)
    requires Sharp(cut, text, abc) && Lays(text, pos, [])
    ensures SeesAll(cut, pos, [])
  {
  }

  lemma {:induction false} LaidIsSeen(cut: Cutter, text: string, pos: nat, tokens: seq<Token>, abc: Alphabet)
    requires Sharp(cut, text, abc) && Separated(tokens, abc) && Lays(text, pos, tokens)
    ensures SeesAll(cut, pos, tokens)
    decreases |tokens|
  {
    if tokens == [] {
      NothingLeftIsSeen(cut, text, pos, abc);
    } else {
      RestIsLaid(text, pos, tokens, abc);
      LaidIsSeen(cut, text, pos + 1 + |Spelling(tokens[0])|, tokens[1..], abc);
      LaidFirstIsSeen(cut, text, pos, tokens, abc);
    }
  }

  lemma {:induction false} EndIsSeen(text: string, abc: Alphabet)
    ensures SeesAll(CutterOf(text, abc), |text|, [])
  {
    if MatchAt(text, |text|, abc).Some? {
      MatchSpells(text, |text|, abc);
    }
    assert text[|text|..|text|] == "";
  }

  lemma {:induction false} SearchSkips(cut: Cutter, i: nat, j: nat)
    requires cut.Fits() && i <= j <= cut.length
    requires forall k :: i <= k < j ==> cut.at(k) == None
    ensures cut.Search(i) == cut.Search(j)
    decreases j - i
  {
    if i < j {
      SearchSkips(cut, i + 1, j);
    }
  }

  /** A structural token is cut off behind its blank. */
  lemma {:induction false} WordIsCut(cut: Cutter, pos: nat, tokens: seq<Token>)
    requires cut.Fits() && tokens != [] && !tokens[0].Text? && SeesAll(cut, pos, tokens)
    ensures
      var end := pos + 1 + |Spelling(tokens[0])|;
      && end <= cut.length && SeesAll(cut, end, tokens[1..])
      && cut.TokensFrom(pos) == tokens[..1] + cut.TokensFrom(end)
  {
    SearchSkips(cut, pos, pos + 1);
  }

  /** A leaf at the end of the text is all that is left. */
  lemma {:induction false} LastLeafIsCut(cut: Cutter, pos: nat, token: Token)
    requires cut.Fits() && pos <= cut.length && token.Text? && SeesAll(cut, pos, [token])
    ensures cut.TokensFrom(pos) == [token]
  {
    var end := pos + 1 + |Spelling(token)|;
    assert SeesAll(cut, end, [token][1..]) && [token][1..] == [];
    SearchSkips(cut, pos, end);
  }

  /** A leaf is cut out together with the structural token behind it. */
  lemma {:induction false} LeafIsCut(cut: Cutter, pos: nat, tokens: seq<Token>)
    requires cut.Fits() && |tokens| > 1 && tokens[0].Text? && SeesAll(cut, pos, tokens)
    ensures
      var end := pos + 2 + |Spelling(tokens[0])| + |Spelling(tokens[1])|;
      && end <= cut.length && SeesAll(cut, end, tokens[2..])
      && cut.TokensFrom(pos) == tokens[..2] + cut.TokensFrom(end)
  {
    var middle := pos + 1 + |Spelling(tokens[0])|;
    assert tokens[1..][0] == tokens[1] && tokens[1..][1..] == tokens[2..];
    assert Sees(cut, middle, tokens[1], |tokens| == 2);
    SearchSkips(cut, pos, middle + 1);
  }

  /** Cutting goes on behind the first token, or behind a leaf and the token after it. */
  lemma {:induction false} FirstIsCut(cut: Cutter, pos: nat, tokens: seq<Token>) returns (n: nat, end: nat)
    requires cut.Fits() && tokens != [] && SeesAll(cut, pos, tokens) && (tokens[0].Text? ==> |tokens| > 1)
    ensures 0 < n <= |tokens| && end <= cut.length && SeesAll(cut, end, tokens[n..])
    ensures cut.TokensFrom(pos) == tokens[..n] + cut.TokensFrom(end)
  {
    if tokens[0].Text? {
      LeafIsCut(cut, pos, tokens);
      return 2, pos + 2 + |Spelling(tokens[0])| + |Spelling(tokens[1])|;
    } else {
      WordIsCut(cut, pos, tokens);
      return 1, pos + 1 + |Spelling(tokens[0])|;
    }
  }

  /** What the cutter sees is what it cuts out. */
  lemma {:induction false} SeenIsCut(cut: Cutter, pos: nat, tokens: seq<Token>)
    requires cut.Fits() && pos <= cut.length && SeesAll(cut, pos, tokens)
    ensures cut.TokensFrom(pos) == tokens
    decreases |tokens|
  {
    if tokens == [] {
    } else if |tokens| == 1 && tokens[0].Text? {
      assert tokens == [tokens[0]];
      LastLeafIsCut(cut, pos, tokens[0]);
    } else {
      var n, end := FirstIsCut(cut, pos, tokens);
      SeenIsCut(cut, end, tokens[n..]);
      assert tokens == tokens[..n] + tokens[n..];
    }
  }

  /** From formula to sentence and back: what was written down is what is understood. */
  lemma {:induction false} SentenceRoundTrip(f: Formula, leaf: LeafParser, maxDepth: int, abc: Alphabet)
    requires WellFormed(f) && abc.Sane() && LeavesClean(f, abc)
    ensures Meaning(Tokens(Spell(Print(f)), abc), leaf, maxDepth) ==
            match Interpret(f, leaf)
            case None => None
            case Some(root) => if Depth(root) <= maxDepth then Some(root) else None
  {
    PrintStandsFor(f);
    ExprSeparated(ToExpr(f), abc);
    var text := Spell(Print(f));
    assert "" + text == text;
    SpellLays(text, "", Print(f));
    CutterIsSharp(text, abc);
    LaidIsSeen(CutterOf(text, abc), text, 0, Print(f), abc);
    SeenIsCut(CutterOf(text, abc), 0, Print(f));
    PrintParseRoundTrip(f, leaf, maxDepth);
  }

  predicate LeavesClean(f: Formula, abc: Alphabet) {
    match f
    case Atom(text) => Clean(text, abc)
    case Neg(g) => LeavesClean(g, abc)
    case Conj(gs) => forall g :: g in gs ==> LeavesClean(g, abc)
    case Disj(gs) => forall g :: g in gs ==> LeavesClean(g, abc)
  }

  lemma {:induction false} JoinSeparated(left: seq<Token>, word: Token, right: seq<Token>, abc: Alphabet)
    requires Separated(left, abc) && Separated(right, abc) && !word.Text?
    ensures Separated(left + [word] + right, abc)
  {
  }

  /** In every derivation, structural tokens keep the leaves apart. */
  lemma {:induction false} ExprSeparated(e: Expr, abc: Alphabet)
    requires LeavesClean(FormulaOfExpr(e), abc)
    ensures Separated(YieldExpr(e), abc)
    decreases e, 2
  {
    match e
    case OnlyTerm(t) => TermSeparated(t, abc);
    case OrMore(t, rest) =>
      var operands := OperandsOfExpr(e);
      assert operands[0] == FormulaOfTerm(t);
      assert forall g :: g in OperandsOfExpr(rest) ==> g in operands;
      assert rest.OnlyTerm? ==> FormulaOfExpr(rest) == OperandsOfExpr(rest)[0];
      TermSeparated(t, abc);
      ExprSeparated(rest, abc);
      JoinSeparated(YieldTerm(t), OrWord, YieldExpr(rest), abc);
  }

  lemma {:induction false} TermSeparated(t: Term, abc: Alphabet)
    requires LeavesClean(FormulaOfTerm(t), abc)
    ensures Separated(YieldTerm(t), abc)
    decreases t, 2
  {
    match t
    case OnlyFactor(f) => FactorSeparated(f, abc);
    case AndMore(f, rest) =>
      var operands := OperandsOfTerm(t);
      assert operands[0] == FormulaOfFactor(f);
      assert forall g :: g in OperandsOfTerm(rest) ==> g in operands;
      assert rest.OnlyFactor? ==> FormulaOfTerm(rest) == OperandsOfTerm(rest)[0];
      FactorSeparated(f, abc);
      TermSeparated(rest, abc);
      JoinSeparated(YieldFactor(f), AndWord, YieldTerm(rest), abc);
  }

  lemma {:induction false} FactorSeparated(f: Factor, abc: Alphabet)
    requires LeavesClean(FormulaOfFactor(f), abc)
    ensures Separated(YieldFactor(f), abc)
    decreases f, 2
  {
    match f
    case Word(_) =>
    case Negated(g) =>
      FactorSeparated(g, abc);
      JoinSeparated([], NotWord, YieldFactor(g), abc);
      assert [] + [NotWord] + YieldFactor(g) == YieldFactor(f);
    case Group(e) =>
      ExprSeparated(e, abc);
      JoinSeparated([], LParen, YieldExpr(e), abc);
      JoinSeparated([] + [LParen] + YieldExpr(e), RParen, [], abc);
      assert [] + [LParen] + YieldExpr(e) + [RParen] + [] == YieldFactor(f);
  }
}
