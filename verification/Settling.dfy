/** How far from the end of a text an unsettled match attempt can be. */
module Settling {
  import opened Common
  import opened Regex
  import opened SyntaxHighlight
  import opened Tokenizer

  lemma {:induction false} LiteralLooks(w: string, s: string, i: nat, k: Continuation)
    requires i + |w| <= |s|
    requires StartsWith(s, i, w) ==> !k(i + |w|).sawEnd
    ensures !Run(Literal(w), s, i, k).sawEnd
    decreases |w|
  {
    if w == "" {
      assert s[i..i] == "";
    } else {
      var g := (j: nat) => if j <= |s| then Run(Literal(w[1..]), s, j, k) else FAIL;
      assert Run(Literal(w), s, i, k) == Run(One(Only(w[0])), s, i, g);
      if s[i] == w[0] {
        assert s[i..i + |w|] == [s[i]] + s[i + 1..i + |w|];
        assert w == [w[0]] + w[1..];
        LiteralLooks(w[1..], s, i + 1, k);
      }
    }
  }

  lemma {:induction false} GreedyLooks(cls: Class, s: string, i: nat, k: Continuation)
    requires i <= |s| && RunEnd(cls, s, i) < |s|
    requires forall j: nat :: i <= j <= RunEnd(cls, s, i) ==> !k(j).sawEnd
    ensures !Run(Greedy(One(cls)), s, i, k).sawEnd
    decreases |s| - i
  {
    var g := (j: nat) => if i < j <= |s| then Run(Greedy(One(cls)), s, j, k) else FAIL;
    assert Run(Greedy(One(cls)), s, i, k) == OrElse(Run(One(cls), s, i, g), k(i));
    if Accepts(cls, s[i]) {
      GreedyLooks(cls, s, i + 1, k);
    }
  }

  lemma {:induction false} CloserLooks(s: string, close: string, j: nat)
    requires j <= |s| && CloserEnd(s, close, j) < |s|
    ensures !Run(Lazy(One(Any)), s, j,
                 (m: nat) => if m <= |s| then Run(Alt(Literal(close), End), s, m, Accept) else FAIL).sawEnd
    decreases |s| - j
  {
    var k := (m: nat) => if m <= |s| then Run(Alt(Literal(close), End), s, m, Accept) else FAIL;
    var g := (m: nat) => if j < m <= |s| then Run(Lazy(One(Any)), s, m, k) else FAIL;
    assert Run(Lazy(One(Any)), s, j, k) == OrElse(k(j), Run(One(Any), s, j, g));
    CloserFits(s, close, j);
    LiteralLooks(close, s, j, Accept);
    LiteralRun(close, s, j, Accept);
    assert k(j) == OrElse(Run(Literal(close), s, j, Accept), Run(End, s, j, Accept));
    if !StartsWith(s, j, close) {
      CloserLooks(s, close, j + 1);
      assert Run(One(Any), s, j, g) == g(j + 1) == Run(Lazy(One(Any)), s, j + 1, k);
    }
  }

  lemma {:induction false} CloserFits(s: string, close: string, j: nat)
    requires j <= |s| && CloserEnd(s, close, j) < |s|
    ensures j + |close| <= CloserEnd(s, close, j)
    decreases |s| - j
  {
    if !StartsWith(s, j, close) && j < |s| {
      CloserFits(s, close, j + 1);
    }
  }

  /** The string body that begins at `j` runs into a backslash that ends the text. */
  predicate Dangles(s: string, q: char, j: nat)
    requires j <= |s|
    decreases |s| - j
  {
    && j < |s| && s[j] != q
    && if s[j] != '\\' then Dangles(s, q, j + 1)
       else j + 1 == |s| || (!IsLineTerminator(s[j + 1]) && Dangles(s, q, j + 2))
  }

  lemma {:induction false} StringLooks(s: string, q: char, j: nat)
    requires j <= |s| && !Dangles(s, q, j) && StringEnd(s, q, j) != Some(|s|)
    ensures !Run(Lazy(STRING_ITEM), s, j,
                 (m: nat) => if m <= |s| then Run(Alt(One(Only(q)), End), s, m, Accept) else FAIL).sawEnd
    decreases |s| - j
  {
    var k := (m: nat) => if m <= |s| then Run(Alt(One(Only(q)), End), s, m, Accept) else FAIL;
    var g := (m: nat) => if j < m <= |s| then Run(Lazy(STRING_ITEM), s, m, k) else FAIL;
    assert Run(Lazy(STRING_ITEM), s, j, k) == OrElse(k(j), Run(STRING_ITEM, s, j, g));
    assert Run(STRING_ITEM, s, j, g)
        == OrElse(Run(Cat(One(Only('\\')), One(Dot)), s, j, g), Run(One(Except('\\')), s, j, g));
    assert k(j) == OrElse(Run(One(Only(q)), s, j, Accept), Run(End, s, j, Accept));
    if s[j] != q {
      var h := (m: nat) => if m <= |s| then Run(One(Dot), s, m, g) else FAIL;
      assert Run(Cat(One(Only('\\')), One(Dot)), s, j, g) == Run(One(Only('\\')), s, j, h);
      if s[j] != '\\' {
        StringLooks(s, q, j + 1);
      } else if !IsLineTerminator(s[j + 1]) {
        StringLooks(s, q, j + 2);
      }
    }
  }

  /** After the integer digits of a number, if there is no fraction that runs into the end. */
  lemma FractionLooks(s: string, j: nat)
    requires 0 < j < |s|
    requires s[j] == '.' ==> j + 1 < |s| && RunEnd(Digit, s, j + 1) < |s|
    ensures !Run(Cat(Optional(Cat(One(Only('.')), DIGITS)), Boundary), s, j, Accept).sawEnd
  {
    var k := (m: nat) => if m <= |s| then Run(Boundary, s, m, Accept) else FAIL;
    var f := Cat(One(Only('.')), DIGITS);
    var g := (m: nat) => if j < m <= |s| then k(m) else FAIL;
    assert Run(Cat(Optional(f), Boundary), s, j, Accept) == Run(Optional(f), s, j, k);
    assert Run(Optional(f), s, j, k) == OrElse(Run(f, s, j, g), k(j));
    var h := (m: nat) => if m <= |s| then Run(DIGITS, s, m, g) else FAIL;
    assert Run(f, s, j, g) == Run(One(Only('.')), s, j, h);
    if s[j] == '.' {
      DigitsLook(s, j + 1, g);
    }
  }

  lemma DigitsLook(s: string, i: nat, k: Continuation)
    requires i < |s| && RunEnd(Digit, s, i) < |s|
    requires forall j: nat :: i < j <= RunEnd(Digit, s, i) ==> !k(j).sawEnd
    ensures !Run(DIGITS, s, i, k).sawEnd
  {
    var g := (j: nat) => if j <= |s| then Run(Greedy(One(Digit)), s, j, k) else FAIL;
    assert Run(DIGITS, s, i, k) == Run(One(Digit), s, i, g);
    if IsDigit(s[i]) {
      GreedyLooks(Digit, s, i + 1, k);
    }
  }

  lemma NumberLooks(s: string, i: nat)
    requires i < |s|
    requires NumberEnd(s, i).Some? ==> NumberEnd(s, i).value + 2 <= |s|
    ensures !Run(PartPattern(Number), s, i, Accept).sawEnd
  {
    var tail := Cat(Optional(Cat(One(Only('.')), DIGITS)), Boundary);
    var k := (m: nat) => if m <= |s| then Run(Cat(DIGITS, tail), s, m, Accept) else FAIL;
    assert Run(PartPattern(Number), s, i, Accept) == Run(Boundary, s, i, k);
    var g := (m: nat) => if m <= |s| then Run(tail, s, m, Accept) else FAIL;
    assert Run(Cat(DIGITS, tail), s, i, Accept) == Run(DIGITS, s, i, g);
    RunEndAll(Digit, s, i);
    if !IsDigit(s[i]) {
      DigitsLook(s, i, g);
    } else if !WordAt(s, i - 1) {
      var e := RunEnd(Digit, s, i);
      assert e < |s|;
      forall j: nat | i < j <= e ensures !g(j).sawEnd {
        if j < e {
          assert Accepts(Digit, s[j]);
        } else if s[j] == '.' {
          RunEndAll(Digit, s, j + 1);
        }
        FractionLooks(s, j);
      }
      DigitsLook(s, i, g);
    }
  }

  /** The length of the longest comment opener, or one. */
  function Lookahead(p: Part): nat
  {
    match p
    case BlockComment(open, _) => |open|
    case LineComment(open) => |open|
    case _ => 1
  }

  /** The alternative is a string that dangles at the end of the text. */
  predicate PartDangles(p: Part, s: string, i: nat)
    requires i < |s|
  {
    p.Quoted? && s[i] == p.quote && Dangles(s, p.quote, i + 1)
  }

  /** An alternative that looked at the end matched up to it or one short of it, or stands too close to it for its
      opener, or is a dangling string. */
  lemma PartLooks(p: Part, s: string, i: nat)
    requires i + Lookahead(p) <= |s| && i < |s|
    requires !PartDangles(p, s, i)
    requires PartEnd(p, s, i).Some? ==> PartEnd(p, s, i).value + 2 <= |s|
    ensures !Run(PartPattern(p), s, i, Accept).sawEnd
  {
    match p
    case BlockComment(open, close) =>
      var rest := Cat(Lazy(One(Any)), Alt(Literal(close), End));
      if StartsWith(s, i, open) {
        CloserLooks(s, close, i + |open|);
      }
      LiteralLooks(open, s, i, (m: nat) => if m <= |s| then Run(rest, s, m, Accept) else FAIL);
    case LineComment(open) =>
      var rest := Greedy(One(Except('\n')));
      if StartsWith(s, i, open) {
        GreedyLooks(Except('\n'), s, i + |open|, Accept);
      }
      LiteralLooks(open, s, i, (m: nat) => if m <= |s| then Run(rest, s, m, Accept) else FAIL);
    case Quoted(q) =>
      var rest := Cat(Lazy(STRING_ITEM), Alt(One(Only(q)), End));
      var k := (m: nat) => if m <= |s| then Run(rest, s, m, Accept) else FAIL;
      assert Run(PartPattern(p), s, i, Accept) == Run(One(Only(q)), s, i, k);
      if s[i] == q {
        StringLooks(s, q, i + 1);
      }
    case Number => NumberLooks(s, i);
    case Word =>
      var k := (m: nat) => if m <= |s| then Run(Greedy(One(WordPart)), s, m, Accept) else FAIL;
      assert Run(PartPattern(p), s, i, Accept) == Run(One(WordStart), s, i, k);
      if IsWordStart(s[i]) {
        GreedyLooks(WordPart, s, i + 1, Accept);
      }
  }

  lemma {:induction false} PartsLook(ps: seq<Part>, s: string, i: nat, margin: nat)
    requires ps != [] && i + margin <= |s| && i < |s| && forall p :: p in ps ==> !PartDangles(p, s, i)
    requires forall p :: p in ps ==> Lookahead(p) <= margin
    requires FirstPart(ps, s, i).Some? ==> FirstPart(ps, s, i).value.end + 2 <= |s|
    ensures !Run(Join(ps), s, i, Accept).sawEnd
    decreases |ps|
  {
    PartLooks(ps[0], s, i);
    PartAgrees(ps[0], s, i);
    if |ps| > 1 && PartEnd(ps[0], s, i).None? {
      PartsLook(ps[1..], s, i, margin);
    }
  }

  /** No opener of the configuration is longer than `margin`. */
  predicate OpenersWithin(cfg: LangConfig, margin: nat)
  {
    && margin >= 1
    && (cfg.blockComment.Some? ==> |cfg.blockComment.value.0| <= margin)
    && (cfg.lineComment.Some? ==> |cfg.lineComment.value| <= margin)
  }

  /** A string begins at `i` and dangles at a backslash that ends the text. */
  predicate DanglingString(cfg: LangConfig, s: string, i: nat)
    requires i <= |s|
  {
    i < |s| && s[i] in cfg.stringChars && Dangles(s, s[i], i + 1)
  }

  /** A match attempt that leaves room for the comment openers, is no dangling string, and either fails or matches up to
      two characters before the end has not looked at the end. */
  lemma DistantAttemptsAreSettled(cfg: LangConfig, s: string, i: nat, margin: nat)
    requires OpenersWithin(cfg, margin) && i + margin <= |s| && !DanglingString(cfg, s, i)
    requires ScanAt(cfg, s, i).Some? ==> ScanAt(cfg, s, i).value.end + 2 <= |s|
    ensures !Attempt(cfg, s, i).sawEnd
  {
    forall p | p in Parts(cfg) ensures Lookahead(p) <= margin && !PartDangles(p, s, i) {
      PartsOf(cfg, p);
    }
    PartsLook(Parts(cfg), s, i, margin);
  }

  /** Only the tail of a text can change its colours: the first attempt that looks at the end starts within an opener
      of the end, or matches a last piece that leaves at most one character after it, or is a string that dangles at a
      final backslash. With
      TypingKeepsSettledTokens, every token before that piece is settled. */
  lemma {:induction false} OnlyTheTailIsUnsettled(cfg: LangConfig, s: string, i: nat, margin: nat)
    requires WellFormed(cfg) && i <= |s| && OpenersWithin(cfg, margin)
    ensures var f := FirstLookAtEnd(cfg, s, i);
            || f + margin > |s|
            || (ScanAt(cfg, s, f).Some? && ScanAt(cfg, s, f).value.end + 2 > |s|)
            || DanglingString(cfg, s, f)
    decreases |s| - i
  {
    if i < |s| && Attempt(cfg, s, i).sawEnd {
      if i + margin <= |s| && !DanglingString(cfg, s, i)
          && (ScanAt(cfg, s, i).Some? ==> ScanAt(cfg, s, i).value.end + 2 <= |s|) {
        DistantAttemptsAreSettled(cfg, s, i, margin);
      }
    } else if i < |s| {
      match ScanAt(cfg, s, i)
      case Some(h) =>
        ClassifyNamesTheAlternative(cfg, s, i);
        OnlyTheTailIsUnsettled(cfg, s, h.end, margin);
      case None => OnlyTheTailIsUnsettled(cfg, s, i + 1, margin);
    }
  }
}
