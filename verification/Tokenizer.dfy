/** `classify`, the cached scanners and `tokenize`, against a walk of the deterministic
    scanner over the text. */
module Tokenizer {
  import opened Common
  import opened Regex
  import opened SyntaxHighlight

  /** The word as the keyword lookup sees it. */
  function Folded(cfg: LangConfig, text: string): string
  {
    if cfg.caseInsensitive then LowerCase(text) else text
  }

  /** A truthy property lookup on the keyword object. Matches of the word alternative are ASCII. */
  predicate IsKeyword(cfg: LangConfig, text: string)
  {
    Folded(cfg, text) in cfg.keywords || Folded(cfg, text) in INHERITED
  }

  /** The type of a match, decided from its text alone. */
  function Classify(cfg: LangConfig, text: string): TokenType
  {
    if cfg.blockComment.Some? && cfg.blockComment.value.0 <= text then Comment
    else if cfg.lineComment.Some? && cfg.lineComment.value <= text then Comment
    else if text != "" && text[0] in cfg.stringChars then StringText
    else if text != "" && IsDigit(text[0]) then NumberText
    else if IsKeyword(cfg, text) then Keyword
    else Plain
  }

  /** The type an alternative stands for. */
  function KindOf(cfg: LangConfig, part: Part, text: string): TokenType
  {
    match part
    case BlockComment(_, _) => Comment
    case LineComment(_) => Comment
    case Quoted(_) => StringText
    case Number => NumberText
    case Word => if IsKeyword(cfg, text) then Keyword else Plain
  }

  /** Comments open with some text and no string delimiter is a word character. */
  predicate WellFormed(cfg: LangConfig)
  {
    && (cfg.blockComment.Some? ==> cfg.blockComment.value.0 != "")
    && (cfg.lineComment.Some? ==> cfg.lineComment.value != "")
    && forall q :: q in cfg.stringChars ==> !IsWord(q)
  }

  const FALLBACK_KEY := "__fallback__"

  /** `LANGUAGES` and `FALLBACK`. */
  datatype LanguageTable = LanguageTable(own: map<string, LangConfig>, fallback: LangConfig)

  predicate WellFormedTable(table: LanguageTable)
  {
    && FALLBACK_KEY !in table.own
    && WellFormed(table.fallback)
    && forall name :: name in table.own ==> WellFormed(table.own[name])
  }

  function ConfigOf(table: LanguageTable, language: string): LangConfig
  {
    if language in table.own then table.own[language] else table.fallback
  }

  // ----- the scanner at one position

  function ScanAt(cfg: LangConfig, s: string, i: nat): Option<Hit>
    requires i <= |s|
  {
    FirstPart(Parts(cfg), s, i)
  }

  /** The alternatives before the one that fired do not match. */
  lemma {:induction false} EarlierPartsFail(ps: seq<Part>, s: string, i: nat, n: nat)
    requires i <= |s| && n < |ps|
    requires FirstPart(ps, s, i).Some? ==> forall m :: 0 <= m <= n ==> ps[m] != FirstPart(ps, s, i).value.part
    ensures PartEnd(ps[n], s, i) == None
  {
    if n > 0 && PartEnd(ps[0], s, i).None? {
      EarlierPartsFail(ps[1..], s, i, n - 1);
    }
  }

  /** The comment alternatives, which come first, have failed if another kind fired. */
  lemma CommentsFail(cfg: LangConfig, s: string, i: nat)
    requires i <= |s|
    requires ScanAt(cfg, s, i).Some? && !ScanAt(cfg, s, i).value.part.BlockComment?
    ensures cfg.blockComment.Some? ==> !StartsWith(s, i, cfg.blockComment.value.0)
    ensures !ScanAt(cfg, s, i).value.part.LineComment? && cfg.lineComment.Some?
            ==> !StartsWith(s, i, cfg.lineComment.value)
  {
    var ps := Parts(cfg);
    if cfg.blockComment.Some? {
      assert ps[0] == BlockComment(cfg.blockComment.value.0, cfg.blockComment.value.1);
      EarlierPartsFail(ps, s, i, 0);
    }
    if !ScanAt(cfg, s, i).value.part.LineComment? && cfg.lineComment.Some? {
      var n := if cfg.blockComment.Some? then 1 else 0;
      assert ps[n] == LineComment(cfg.lineComment.value);
      EarlierPartsFail(ps, s, i, n);
    }
  }

  lemma PartsOf(cfg: LangConfig, p: Part)
    requires p in Parts(cfg)
    ensures match p
            case BlockComment(open, close) => cfg.blockComment == Some((open, close))
            case LineComment(open) => cfg.lineComment == Some(open)
            case Quoted(q) => q in cfg.stringChars
            case Number => true
            case Word => true
  {
  }

  /** A match is never empty, and classifying its text names the alternative that fired. */
  lemma ClassifyNamesTheAlternative(cfg: LangConfig, s: string, i: nat)
    requires WellFormed(cfg) && i <= |s| && ScanAt(cfg, s, i).Some?
    ensures var h := ScanAt(cfg, s, i).value;
      i < h.end <= |s| && Classify(cfg, s[i..h.end]) == KindOf(cfg, h.part, s[i..h.end])
  {
    var h := ScanAt(cfg, s, i).value;
    PartsOf(cfg, h.part);
    assert i < h.end <= |s|;
    var text := s[i..h.end];
    forall w: string | w <= text ensures StartsWith(s, i, w) {
      assert s[i..i + |w|] == text[..|w|] == w;
    }
    match h.part
    case BlockComment(open, _) =>
      assert text[..|open|] == s[i..i + |open|];
    case LineComment(open) =>
      assert text[..|open|] == s[i..i + |open|];
    case Quoted(q) =>
      CommentsFail(cfg, s, i);
    case Number =>
      CommentsFail(cfg, s, i);
    case Word =>
      CommentsFail(cfg, s, i);
  }

  /** A word is coloured as a keyword exactly when it is listed, if and only if it is no inherited name that is not
      listed. */
  lemma WordIsListedIff(cfg: LangConfig, s: string, i: nat)
    requires WellFormed(cfg) && i <= |s| && ScanAt(cfg, s, i).Some? && ScanAt(cfg, s, i).value.part.Word?
    ensures var text := s[i..ScanAt(cfg, s, i).value.end];
      && Classify(cfg, text) in {Keyword, Plain}
      && ((Classify(cfg, text) == Keyword <==> Folded(cfg, text) in cfg.keywords)
          <==> !(Folded(cfg, text) in INHERITED && Folded(cfg, text) !in cfg.keywords))
  {
    ClassifyNamesTheAlternative(cfg, s, i);
  }

  /** The whole text is one run of word characters. */
  predicate IsWordText(w: string)
  {
    w != "" && IsWordStart(w[0]) && forall c :: c in w ==> Accepts(WordPart, c)
  }

  lemma {:induction false} WordRunsToTheEnd(w: string, i: nat)
    requires i <= |w| && forall c :: c in w ==> Accepts(WordPart, c)
    ensures RunEnd(WordPart, w, i) == |w|
    decreases |w| - i
  {
    if i < |w| {
      assert w[i] in w;
      WordRunsToTheEnd(w, i + 1);
    }
  }

  /** No comment of the configuration opens with the character. */
  predicate OpensNoComment(cfg: LangConfig, c: char)
  {
    && (cfg.blockComment.Some? && cfg.blockComment.value.0 != "" ==> cfg.blockComment.value.0[0] != c)
    && (cfg.lineComment.Some? && cfg.lineComment.value != "" ==> cfg.lineComment.value[0] != c)
  }

  lemma {:induction false} WordFires(ps: seq<Part>, w: string)
    requires ps != [] && ps[|ps| - 1] == Word && IsWordText(w)
    requires forall p :: p in ps && p != Word ==> PartEnd(p, w, 0).None?
    ensures FirstPart(ps, w, 0) == Some(Hit(Word, |w|))
  {
    if ps[0] == Word {
      WordRunsToTheEnd(w, 1);
    } else {
      assert ps[0] in ps;
      WordFires(ps[1..], w);
    }
  }

  /** A text that is a single word is a single token. */
  lemma WordIsOneToken(cfg: LangConfig, w: string)
    requires WellFormed(cfg) && IsWordText(w) && OpensNoComment(cfg, w[0])
    ensures Tokens(cfg, w) == [Token(Classify(cfg, w), w)]
  {
    forall p | p in Parts(cfg) && p != Word ensures PartEnd(p, w, 0).None? {
      PartsOf(cfg, p);
    }
    WordFires(Parts(cfg), w);
    ClassifyNamesTheAlternative(cfg, w, 0);
    assert w[0..|w|] == w;
    assert Walk(cfg, w, |w|, |w|) == [];
  }

  // ----- the walk over a text

  function PlainGap(s: string, gap: nat, i: nat): seq<Token>
    requires gap <= i <= |s|
  {
    if gap < i then [Token(Plain, s[gap..i])] else []
  }

  /** The plain run before a match, if any, and the token of the match. */
  function Emit(cfg: LangConfig, s: string, gap: nat, i: nat, h: Hit): seq<Token>
    requires gap <= i <= h.end <= |s|
  {
    PlainGap(s, gap, i) + [Token(KindOf(cfg, h.part, s[i..h.end]), s[i..h.end])]
  }

  /** The tokens of `s` from `gap` on, when no match starts in `gap..i`. */
  function Walk(cfg: LangConfig, s: string, gap: nat, i: nat): seq<Token>
    requires WellFormed(cfg) && gap <= i <= |s|
    decreases |s| - i
  {
    if i == |s| then PlainGap(s, gap, i)
    else
      match ScanAt(cfg, s, i)
      case Some(h) =>
        ClassifyNamesTheAlternative(cfg, s, i);
        Emit(cfg, s, gap, i, h) + Walk(cfg, s, h.end, h.end)
      case None => Walk(cfg, s, gap, i + 1)
  }

  function Tokens(cfg: LangConfig, s: string): seq<Token>
    requires WellFormed(cfg)
  {
    Walk(cfg, s, 0, 0)
  }

  function Texts(ts: seq<Token>): string
  {
    if ts == [] then "" else ts[0].text + Texts(ts[1..])
  }

  lemma {:induction false} TextsConcat(a: seq<Token>, b: seq<Token>)
    ensures Texts(a + b) == Texts(a) + Texts(b)
  {
    if a == [] {
      assert a + b == b;
    } else {
      assert (a + b)[1..] == a[1..] + b;
      TextsConcat(a[1..], b);
    }
  }

  lemma EmitTexts(cfg: LangConfig, s: string, gap: nat, i: nat, h: Hit)
    requires gap <= i < h.end <= |s|
    ensures Texts(Emit(cfg, s, gap, i, h)) == s[gap..h.end]
    ensures forall t :: t in Emit(cfg, s, gap, i, h) ==> t.text != ""
  {
    var t := Token(KindOf(cfg, h.part, s[i..h.end]), s[i..h.end]);
    TextsConcat(PlainGap(s, gap, i), [t]);
    assert Texts([t]) == t.text + Texts([]);
    assert s[gap..h.end] == s[gap..i] + s[i..h.end];
  }

  lemma EmitIsLossless(cfg: LangConfig, s: string, gap: nat, i: nat, h: Hit, rest: seq<Token>)
    requires gap <= i < h.end <= |s| && Texts(rest) == s[h.end..]
    ensures Texts(Emit(cfg, s, gap, i, h) + rest) == s[gap..]
    ensures forall t :: t in Emit(cfg, s, gap, i, h) ==> t.text != ""
  {
    EmitTexts(cfg, s, gap, i, h);
    TextsConcat(Emit(cfg, s, gap, i, h), rest);
    assert s[gap..] == s[gap..h.end] + s[h.end..];
  }

  lemma {:induction false} WalkIsLossless(cfg: LangConfig, s: string, gap: nat, i: nat)
    requires WellFormed(cfg) && gap <= i <= |s|
    ensures Texts(Walk(cfg, s, gap, i)) == s[gap..]
    ensures forall t :: t in Walk(cfg, s, gap, i) ==> t.text != ""
    decreases |s| - i
  {
    if i == |s| {
      assert Texts([]) == "";
    } else if ScanAt(cfg, s, i).Some? {
      var h := ScanAt(cfg, s, i).value;
      ClassifyNamesTheAlternative(cfg, s, i);
      WalkIsLossless(cfg, s, h.end, h.end);
      EmitIsLossless(cfg, s, gap, i, h, Walk(cfg, s, h.end, h.end));
    } else {
      WalkIsLossless(cfg, s, gap, i + 1);
    }
  }

  /** Tokens are non-empty and concatenate back to the text. */
  lemma TokensAreLossless(cfg: LangConfig, s: string)
    requires WellFormed(cfg)
    ensures Texts(Tokens(cfg, s)) == s
    ensures forall t :: t in Tokens(cfg, s) ==> t.text != ""
  {
    WalkIsLossless(cfg, s, 0, 0);
  }

  // ----- typing more text

  function Attempt(cfg: LangConfig, s: string, i: nat): Outcome
    requires i <= |s|
  {
    Run(Join(Parts(cfg)), s, i, Accept)
  }

  /** The position of the first match attempt that looked at the end of the text, among the
      attempts the tokenizer makes from `i` on. */
  function FirstLookAtEnd(cfg: LangConfig, s: string, i: nat): (f: nat)
    requires WellFormed(cfg) && i <= |s|
    ensures i <= f <= |s|
    decreases |s| - i
  {
    if i == |s| || Attempt(cfg, s, i).sawEnd then i
    else
      match ScanAt(cfg, s, i)
      case Some(h) =>
        ClassifyNamesTheAlternative(cfg, s, i);
        FirstLookAtEnd(cfg, s, h.end)
      case None => FirstLookAtEnd(cfg, s, i + 1)
  }

  /** An attempt that did not look at the end succeeds in a longer text just when it did before, with
      the same text and type. */
  lemma AttemptIsStable(cfg: LangConfig, s: string, q: string, gap: nat, i: nat)
    requires WellFormed(cfg) && gap <= i < |s| && !Attempt(cfg, s, i).sawEnd
    ensures HitEnd(ScanAt(cfg, s + q, i)) == HitEnd(ScanAt(cfg, s, i))
    ensures match ScanAt(cfg, s, i)
            case None => true
            case Some(h) =>
              h.end <= |s| && Emit(cfg, s + q, gap, i, ScanAt(cfg, s + q, i).value) == Emit(cfg, s, gap, i, h)
  {
    RunIsStable(Join(Parts(cfg)), s, q, i, Accept, Accept);
    ScannerAgrees(Parts(cfg), s, i);
    ScannerAgrees(Parts(cfg), s + q, i);
    match ScanAt(cfg, s, i)
    case None =>
    case Some(h) =>
      ClassifyNamesTheAlternative(cfg, s, i);
      ClassifyNamesTheAlternative(cfg, s + q, i);
      SliceOfLonger(s, q, gap, i);
      SliceOfLonger(s, q, i, h.end);
  }

  lemma SliceOfLonger(s: string, q: string, a: nat, b: nat)
    requires a <= b <= |s|
    ensures (s + q)[a..b] == s[a..b]
  {
  }

  /** The first token from `gap` ends at `i` or later. */
  lemma {:induction false} FirstTokenReaches(cfg: LangConfig, s: string, gap: nat, i: nat)
    requires WellFormed(cfg) && gap <= i <= |s| && Walk(cfg, s, gap, i) != []
    ensures gap + |Walk(cfg, s, gap, i)[0].text| >= i
    decreases |s| - i
  {
    if i < |s| {
      if ScanAt(cfg, s, i).None? {
        FirstTokenReaches(cfg, s, gap, i + 1);
      } else {
        ClassifyNamesTheAlternative(cfg, s, i);
      }
    }
  }

  lemma PrefixOfSum(head: seq<Token>, rest: seq<Token>, rest': seq<Token>, n: nat)
    requires n <= |head| + |rest|
    ensures n <= |head| ==> (head + rest)[..n] <= head + rest'
    ensures n > |head| ==> (head + rest)[..n] == head + rest[..n - |head|]
    ensures n > |head| && rest[..n - |head|] <= rest' ==> (head + rest)[..n] <= head + rest'
  {
    if n <= |head| {
      assert (head + rest)[..n] == head[..n] == (head + rest')[..n];
    } else {
      assert (head + rest)[..n] == head + rest[..n - |head|];
    }
  }

  /** Tokens beyond those of a match reach as far as the rest of them do after it. */
  lemma EmitPrefix(cfg: LangConfig, s: string, gap: nat, i: nat, h: Hit, rest: seq<Token>, n: nat)
    requires gap <= i < h.end <= |s|
    requires |Emit(cfg, s, gap, i, h)| < n <= |Emit(cfg, s, gap, i, h)| + |rest|
    ensures var head := Emit(cfg, s, gap, i, h);
            gap + |Texts((head + rest)[..n])| == h.end + |Texts(rest[..n - |head|])|
  {
    var head := Emit(cfg, s, gap, i, h);
    EmitTexts(cfg, s, gap, i, h);
    TextsConcat(head, rest[..n - |head|]);
    assert (head + rest)[..n] == head + rest[..n - |head|];
  }

  /** The end of the last token before the first match attempt that looked at the end of the text. */
  function SettledEnd(cfg: LangConfig, s: string, gap: nat, i: nat): (e: nat)
    requires WellFormed(cfg) && gap <= i <= |s|
    ensures gap <= e <= FirstLookAtEnd(cfg, s, i)
    decreases |s| - i
  {
    if i == |s| || Attempt(cfg, s, i).sawEnd then gap
    else
      match ScanAt(cfg, s, i)
      case Some(h) =>
        ClassifyNamesTheAlternative(cfg, s, i);
        SettledEnd(cfg, s, h.end, h.end)
      case None => SettledEnd(cfg, s, gap, i + 1)
  }

  /** Tokens that end strictly before the first attempt that looked at the end, end at the settled end or before. */
  lemma {:induction false} BeforeTheLookIsSettled(cfg: LangConfig, s: string, gap: nat, i: nat, n: nat)
    requires WellFormed(cfg) && gap <= i <= |s|
    requires n <= |Walk(cfg, s, gap, i)|
    requires gap + |Texts(Walk(cfg, s, gap, i)[..n])| < FirstLookAtEnd(cfg, s, i)
    ensures gap + |Texts(Walk(cfg, s, gap, i)[..n])| <= SettledEnd(cfg, s, gap, i)
    decreases |s| - i
  {
    if n > 0 {
      if i == |s| || Attempt(cfg, s, i).sawEnd {
        FirstTokenReaches(cfg, s, gap, i);
        assert false;
      } else {
        match ScanAt(cfg, s, i)
        case None => BeforeTheLookIsSettled(cfg, s, gap, i + 1, n);
        case Some(h) =>
          WalkAtHit(cfg, s, gap, i, h);
          var head, rest := Emit(cfg, s, gap, i, h), Walk(cfg, s, h.end, h.end);
          if n > |head| {
            EmitPrefix(cfg, s, gap, i, h, rest, n);
            BeforeTheLookIsSettled(cfg, s, h.end, h.end, n - |head|);
          } else {
            HeadEndsBefore(cfg, s, gap, i, h, rest, n);
          }
      }
    }
  }

  /** The tokens of a match do not reach beyond it. */
  lemma HeadEndsBefore(cfg: LangConfig, s: string, gap: nat, i: nat, h: Hit, rest: seq<Token>, n: nat)
    requires gap <= i < h.end <= |s|
    requires n <= |Emit(cfg, s, gap, i, h)|
    ensures gap + |Texts((Emit(cfg, s, gap, i, h) + rest)[..n])| <= h.end
  {
    var head := Emit(cfg, s, gap, i, h);
    EmitTexts(cfg, s, gap, i, h);
    TextsConcat(head[..n], head[n..]);
    assert head == head[..n] + head[n..];
    assert (head + rest)[..n] == head[..n];
  }

  lemma WalkAtHit(cfg: LangConfig, s: string, gap: nat, i: nat, h: Hit)
    requires WellFormed(cfg) && gap <= i < |s| && ScanAt(cfg, s, i) == Some(h)
    ensures i < h.end <= |s| && Walk(cfg, s, gap, i) == Emit(cfg, s, gap, i, h) + Walk(cfg, s, h.end, h.end)
  {
    ClassifyNamesTheAlternative(cfg, s, i);
  }

  lemma SomeText(cfg: LangConfig, s: string, gap: nat, i: nat, n: nat)
    requires WellFormed(cfg) && gap <= i <= |s| && 0 < n <= |Walk(cfg, s, gap, i)|
    ensures |Texts(Walk(cfg, s, gap, i)[..n])| > 0
  {
    var ts := Walk(cfg, s, gap, i);
    WalkIsLossless(cfg, s, gap, i);
    assert ts[..n][0] == ts[0] && ts[0] in ts;
  }

  /** A match that did not look at the end is there in a longer text, with the tokens in front of it. */
  lemma HitIsStable(cfg: LangConfig, s: string, q: string, gap: nat, i: nat, h: Hit)
    requires WellFormed(cfg) && gap <= i < |s| && !Attempt(cfg, s, i).sawEnd && ScanAt(cfg, s, i) == Some(h)
    ensures i < h.end <= |s|
    ensures Walk(cfg, s, gap, i) == Emit(cfg, s, gap, i, h) + Walk(cfg, s, h.end, h.end)
    ensures Walk(cfg, s + q, gap, i) == Emit(cfg, s, gap, i, h) + Walk(cfg, s + q, h.end, h.end)
  {
    WalkAtHit(cfg, s, gap, i, h);
    AttemptIsStable(cfg, s, q, gap, i);
    WalkAtHit(cfg, s + q, gap, i, ScanAt(cfg, s + q, i).value);
  }

  lemma {:induction false} WalkIsStable(cfg: LangConfig, s: string, q: string, gap: nat, i: nat, n: nat)
    requires WellFormed(cfg) && gap <= i <= |s|
    requires n <= |Walk(cfg, s, gap, i)|
    requires gap + |Texts(Walk(cfg, s, gap, i)[..n])| <= SettledEnd(cfg, s, gap, i)
    ensures Walk(cfg, s, gap, i)[..n] <= Walk(cfg, s + q, gap, i)
    decreases |s| - i
  {
    if n > 0 {
      SomeText(cfg, s, gap, i, n);
      match ScanAt(cfg, s, i)
      case None =>
        AttemptIsStable(cfg, s, q, gap, i);
        WalkIsStable(cfg, s, q, gap, i + 1, n);
      case Some(h) =>
        HitIsStable(cfg, s, q, gap, i, h);
        var head, rest := Emit(cfg, s, gap, i, h), Walk(cfg, s, h.end, h.end);
        if n > |head| {
          EmitPrefix(cfg, s, gap, i, h, rest, n);
          WalkIsStable(cfg, s, q, h.end, h.end, n - |head|);
        }
        PrefixOfSum(head, rest, Walk(cfg, s + q, h.end, h.end), n);
    }
  }

  /** Typing more text never changes settled tokens. Settled are the tokens that end strictly before the first match
      attempt that looked at the end of the text, and those that end at it when a match does: only a plain run that is
      still open there can change. */
  lemma TypingKeepsSettledTokens(cfg: LangConfig, s: string, q: string, n: nat)
    requires WellFormed(cfg)
    requires n <= |Tokens(cfg, s)|
    requires var reach := |Texts(Tokens(cfg, s)[..n])|;
      reach < FirstLookAtEnd(cfg, s, 0) || reach <= SettledEnd(cfg, s, 0, 0)
    ensures Tokens(cfg, s)[..n] <= Tokens(cfg, s + q)
  {
    if |Texts(Tokens(cfg, s)[..n])| < FirstLookAtEnd(cfg, s, 0) {
      BeforeTheLookIsSettled(cfg, s, 0, 0, n);
    }
    WalkIsStable(cfg, s, q, 0, 0, n);
  }

  // ----- the regular expression object and the tokenizer

  datatype Match = Match(index: nat, end: nat)

  /** The leftmost match at or after `i`. */
  function FirstMatch(p: Pattern, s: string, i: nat): (m: Option<Match>)
    ensures m.Some? ==> i <= m.value.index <= |s| && Run(p, s, m.value.index, Accept).end == Some(m.value.end)
    ensures forall j :: i <= j <= |s| && (m.Some? ==> j < m.value.index) ==> Run(p, s, j, Accept).end == None
    decreases |s| + 1 - i
  {
    if i > |s| then None
    else
      match Run(p, s, i, Accept).end
      case Some(e) => Some(Match(i, e))
      case None => FirstMatch(p, s, i + 1)
  }

  /** A compiled pattern with the global flag. */
  class RegExp {
    const pattern: Pattern
    var lastIndex: nat

    constructor (p: Pattern)
      ensures pattern == p && lastIndex == 0
    {
      pattern := p;
      lastIndex := 0;
    }

    method Exec(text: string) returns (m: Option<Match>)
      modifies this
      ensures m == FirstMatch(pattern, text, old(lastIndex))
      ensures lastIndex == match m { case Some(x) => x.end case None => 0 }
    {
      var i := lastIndex;
      while i <= |text|
        invariant FirstMatch(pattern, text, i) == FirstMatch(pattern, text, old(lastIndex))
        decreases |text| + 1 - i
      {
        var o := Run(pattern, text, i, Accept);
        if o.end.Some? {
          lastIndex := o.end.value;
          return Some(Match(i, o.end.value));
        }
        i := i + 1;
      }
      lastIndex := 0;
      return None;
    }
  }

  /** The walk goes from one leftmost match to the next. */
  lemma {:induction false} WalkToMatch(cfg: LangConfig, s: string, gap: nat, i: nat)
    requires WellFormed(cfg) && gap <= i <= |s|
    ensures var m := FirstMatch(Join(Parts(cfg)), s, i);
      if m.None? then Walk(cfg, s, gap, i) == PlainGap(s, gap, |s|)
      else
        && i <= m.value.index < m.value.end <= |s|
        && Walk(cfg, s, gap, i)
           == PlainGap(s, gap, m.value.index)
              + [Token(Classify(cfg, s[m.value.index..m.value.end]), s[m.value.index..m.value.end])]
              + Walk(cfg, s, m.value.end, m.value.end)
    decreases |s| - i
  {
    ScannerAgrees(Parts(cfg), s, i);
    match ScanAt(cfg, s, i)
    case Some(h) =>
      ClassifyNamesTheAlternative(cfg, s, i);
      assert FirstMatch(Join(Parts(cfg)), s, i) == Some(Match(i, h.end));
    case None =>
      if i < |s| {
        WalkToMatch(cfg, s, gap, i + 1);
        assert FirstMatch(Join(Parts(cfg)), s, i) == FirstMatch(Join(Parts(cfg)), s, i + 1);
      } else {
        assert FirstMatch(Join(Parts(cfg)), s, i + 1) == None;
      }
  }

  lemma OneTokenMore(before: seq<Token>, gap: seq<Token>, token: Token, rest: seq<Token>)
    ensures before + (gap + [token] + rest) == before + gap + [token] + rest
  {
  }

  /** The loop over the matches of a scanner that starts at the beginning of the text. */
  method Collect(scanner: RegExp, cfg: LangConfig, text: string) returns (tokens: seq<Token>)
    requires WellFormed(cfg) && scanner.pattern == Join(Parts(cfg)) && scanner.lastIndex == 0
    modifies scanner
    ensures tokens == Tokens(cfg, text)
  {
    tokens := [];
    var lastEnd := 0;
    var m := scanner.Exec(text);
    while m.Some?
      invariant lastEnd <= |text| && m == FirstMatch(scanner.pattern, text, lastEnd)
      invariant m.Some? ==> scanner.lastIndex == m.value.end
      invariant tokens + Walk(cfg, text, lastEnd, lastEnd) == Tokens(cfg, text)
      decreases |text| - lastEnd, m.Some?
    {
      var index, end := m.value.index, m.value.end;
      WalkToMatch(cfg, text, lastEnd, lastEnd);
      var token := Token(Classify(cfg, text[index..end]), text[index..end]);
      OneTokenMore(tokens, PlainGap(text, lastEnd, index), token, Walk(cfg, text, end, end));
      if index > lastEnd {
        tokens := tokens + [Token(Plain, text[lastEnd..index])];
      } else {
        assert tokens + [] == tokens;
      }
      tokens := tokens + [token];
      lastEnd := end;
      if index == end {
        // the guard against zero-width matches is never needed
        assert false;
      }
      m := scanner.Exec(text);
    }
    WalkToMatch(cfg, text, lastEnd, lastEnd);
    assert text[lastEnd..] == text[lastEnd..|text|];
    assert tokens + [] == tokens;
    if lastEnd < |text| {
      tokens := tokens + [Token(Plain, text[lastEnd..])];
    }
  }

  /** What a call returns, whatever was tokenized before it. */
  function TokenizeResult(table: LanguageTable, text: string, language: string): Result<seq<Token>, JsError>
    requires WellFormedTable(table)
  {
    if language !in table.own && language in INHERITED then Failure(TypeError)
    else Success(Tokens(ConfigOf(table, language), text))
  }

  class Highlighter {
    const table: LanguageTable
    var scannerCache: map<string, RegExp>

    /** Every cached scanner was built from the configuration its key stands for. */
    ghost predicate Valid()
      reads this
    {
      && WellFormedTable(table)
      && forall key :: key in scannerCache ==> scannerCache[key].pattern == Join(Parts(ConfigOf(table, key)))
    }

    constructor (languages: LanguageTable)
      requires WellFormedTable(languages)
      ensures Valid() && table == languages
    {
      table := languages;
      scannerCache := map[];
    }

    method ScannerFor(cacheKey: string, cfg: LangConfig) returns (r: RegExp)
      requires Valid() && cfg == ConfigOf(table, cacheKey)
      modifies this, scannerCache.Values
      ensures Valid() && fresh(scannerCache.Values - old(scannerCache.Values))
      ensures r in scannerCache.Values && r.pattern == Join(Parts(cfg)) && r.lastIndex == 0
      ensures cacheKey in old(scannerCache) ==> scannerCache == old(scannerCache)
      ensures cacheKey !in old(scannerCache) ==> scannerCache == old(scannerCache)[cacheKey := r]
    {
      if cacheKey !in scannerCache {
        var pattern := BuildScanner(cfg);
        var built := new RegExp(pattern);
        scannerCache := scannerCache[cacheKey := built];
      }
      assert scannerCache[cacheKey] in scannerCache.Values;
      scannerCache[cacheKey].lastIndex := 0;
      r := scannerCache[cacheKey];
    }

    method Tokenize(text: string, language: string) returns (r: Result<seq<Token>, JsError>)
      requires Valid()
      modifies this, scannerCache.Values
      ensures Valid() && fresh(scannerCache.Values - old(scannerCache.Values))
      ensures r == TokenizeResult(table, text, language)
      ensures language in table.own ==> r == Success(Tokens(table.own[language], text))
      ensures language !in table.own && language in INHERITED ==> r == Failure(TypeError)
      ensures language !in table.own && language !in INHERITED ==> r == Success(Tokens(table.fallback, text))
    {
      if language !in table.own && language in INHERITED {
        // the lookup yields an inherited member, which has no `exec`
        return Failure(TypeError);
      }
      var cfg := ConfigOf(table, language);
      var cacheKey := if language in table.own then language else FALLBACK_KEY;
      var scanner := ScannerFor(cacheKey, cfg);
      var tokens := Collect(scanner, cfg, text);
      return Success(tokens);
    }
  }
}
