/** What the first token of a text is, in terms of the characters of the text. */
module Lexing {
  import opened Common
  import opened Regex
  import opened SyntaxHighlight
  import opened Tokenizer

  // ----- characters, written out

  predicate Letter(c: char) { 'a' <= c <= 'z' || 'A' <= c <= 'Z' || c == '_' }

  predicate Numeral(c: char) { '0' <= c <= '9' }

  predicate EndsLine(c: char) { c == '\n' || c == '\r' || c == '\U{2028}' || c == '\U{2029}' }

  predicate Letters(w: string) { forall c :: c in w ==> Letter(c) || Numeral(c) }

  predicate Numerals(w: string) { w != "" && forall c :: c in w ==> Numeral(c) }

  /** What follows is no part of a word. */
  predicate WordEnds(rest: string) { rest == "" || !(Letter(rest[0]) || Numeral(rest[0])) }

  /** No comment of the configuration begins the text. */
  predicate NoComment(cfg: LangConfig, s: string)
  {
    && (cfg.blockComment.Some? ==> !(cfg.blockComment.value.0 <= s))
    && (cfg.lineComment.Some? ==> !(cfg.lineComment.value <= s))
  }

  // ----- which alternative fires

  lemma CharacterClasses(c: char)
    ensures Accepts(WordStart, c) <==> Letter(c)
    ensures Accepts(WordPart, c) <==> Letter(c) || Numeral(c)
    ensures Accepts(Digit, c) <==> Numeral(c)
    ensures Accepts(Dot, c) <==> !EndsLine(c)
  {
  }

  lemma {:induction false} OnlyOneFires(ps: seq<Part>, s: string, p: Part, e: nat)
    requires p in ps && PartEnd(p, s, 0) == Some(e)
    requires forall q :: q in ps && q != p ==> PartEnd(q, s, 0).None?
    ensures FirstPart(ps, s, 0) == Some(Hit(p, e))
  {
    if ps[0] != p {
      assert ps[0] in ps && p in ps[1..];
      OnlyOneFires(ps[1..], s, p, e);
    }
  }

  lemma StartsIsPrefix(s: string, k: nat, w: string)
    requires k <= |s|
    ensures StartsWith(s, k, w) <==> w <= s[k..]
  {
    if k + |w| <= |s| {
      assert s[k..k + |w|] == s[k..][..|w|];
    }
  }

  lemma CommentParts(cfg: LangConfig, s: string, p: Part)
    requires NoComment(cfg, s) && p in Parts(cfg) && (p.BlockComment? || p.LineComment?)
    ensures PartEnd(p, s, 0).None?
  {
    PartsOf(cfg, p);
    StartsIsPrefix(s, 0, if p.BlockComment? then cfg.blockComment.value.0 else cfg.lineComment.value);
    assert s[0..] == s;
  }

  lemma {:induction false} RunStops(cls: Class, s: string, i: nat, e: nat)
    requires i <= e <= |s| && forall k :: i <= k < e ==> Accepts(cls, s[k])
    requires e < |s| ==> !Accepts(cls, s[e])
    ensures RunEnd(cls, s, i) == e
    decreases e - i
  {
    if i < e {
      RunStops(cls, s, i + 1, e);
    }
  }

  /** The match at the beginning is the first token. */
  lemma FirstPiece(cfg: LangConfig, piece: string, rest: string, p: Part)
    requires WellFormed(cfg) && piece != "" && ScanAt(cfg, piece + rest, 0) == Some(Hit(p, |piece|))
    ensures Tokens(cfg, piece + rest) != []
    ensures Tokens(cfg, piece + rest)[0] == Token(KindOf(cfg, p, piece), piece)
  {
    var s := piece + rest;
    WalkAtHit(cfg, s, 0, 0, Hit(p, |piece|));
    assert s[0..|piece|] == piece;
  }

  // ----- words

  /** A run of letters, numerals and underscores that does not begin with a numeral is a token of its own: a keyword if
      it is listed or an inherited name, plain otherwise. */
  lemma WordIsFirst(cfg: LangConfig, w: string, rest: string)
    requires WellFormed(cfg) && NoComment(cfg, w + rest)
    requires w != "" && Letter(w[0]) && Letters(w) && WordEnds(rest)
    ensures Tokens(cfg, w + rest) != []
    ensures Tokens(cfg, w + rest)[0] == Token(
              if Folded(cfg, w) in cfg.keywords || Folded(cfg, w) in INHERITED then Keyword else Plain, w)
  {
    var s := w + rest;
    forall k | 0 <= k < |w| ensures Accepts(WordPart, s[k]) {
      assert s[k] == w[k] && w[k] in w;
    }
    RunStops(WordPart, s, 1, |w|);
    forall p | p in Parts(cfg) && p != Word ensures PartEnd(p, s, 0).None? {
      PartsOf(cfg, p);
      if p.BlockComment? || p.LineComment? {
        CommentParts(cfg, s, p);
      }
    }
    OnlyOneFires(Parts(cfg), s, Word, |w|);
    FirstPiece(cfg, w, rest, Word);
  }

  // ----- numbers

  lemma OnlyNumberFires(cfg: LangConfig, s: string, e: nat)
    requires WellFormed(cfg) && NoComment(cfg, s) && s != "" && Numeral(s[0]) && NumberEnd(s, 0) == Some(e)
    ensures ScanAt(cfg, s, 0) == Some(Hit(Number, e))
  {
    forall p | p in Parts(cfg) && p != Number ensures PartEnd(p, s, 0).None? {
      PartsOf(cfg, p);
      if p.BlockComment? || p.LineComment? {
        CommentParts(cfg, s, p);
      }
    }
    OnlyOneFires(Parts(cfg), s, Number, e);
  }

  lemma NumeralsRun(a: string, d: string, rest: string)
    requires Numerals(d) && (rest == "" || !Numeral(rest[0]))
    ensures RunEnd(Digit, a + d + rest, |a|) == |a| + |d|
  {
    var s := a + d + rest;
    forall k | |a| <= k < |a| + |d| ensures Accepts(Digit, s[k]) {
      assert s[k] == d[k - |a|] && d[k - |a|] in d;
    }
    RunStops(Digit, s, |a|, |a| + |d|);
  }

  /** Numerals that are not glued to a word, nor followed by a fraction, are a number. */
  lemma IntegerIsFirst(cfg: LangConfig, d: string, rest: string)
    requires WellFormed(cfg) && NoComment(cfg, d + rest) && Numerals(d) && WordEnds(rest)
    requires !(|rest| >= 2 && rest[0] == '.' && Numeral(rest[1]))
    ensures Tokens(cfg, d + rest) != [] && Tokens(cfg, d + rest)[0] == Token(NumberText, d)
  {
    assert "" + d + rest == d + rest && d[0] in d;
    NumeralsRun("", d, rest);
    OnlyNumberFires(cfg, d + rest, |d|);
    FirstPiece(cfg, d, rest, Number);
  }

  /** With a fraction that is not glued to a word, they are a number together. */
  lemma FractionIsFirst(cfg: LangConfig, d: string, f: string, rest: string)
    requires WellFormed(cfg) && NoComment(cfg, d + "." + f + rest) && Numerals(d) && Numerals(f) && WordEnds(rest)
    ensures Tokens(cfg, d + "." + f + rest) != []
    ensures Tokens(cfg, d + "." + f + rest)[0] == Token(NumberText, d + "." + f)
  {
    var s := d + "." + f + rest;
    assert s == "" + d + ("." + f + rest) && d[0] in d && f[0] in f;
    NumeralsRun("", d, "." + f + rest);
    NumeralsRun(d + ".", f, rest);
    assert s[|d|] == '.' && s[|d| + 1] == f[0];
    OnlyNumberFires(cfg, s, |d| + 1 + |f|);
    FirstPiece(cfg, d + "." + f, rest, Number);
  }

  /** With a fraction that is glued to a word, the fraction is no part of the number. */
  lemma GluedFractionIsLeftOut(cfg: LangConfig, d: string, f: string, rest: string)
    requires WellFormed(cfg) && NoComment(cfg, d + "." + f + rest) && Numerals(d) && Numerals(f)
    requires rest != "" && Letter(rest[0])
    ensures Tokens(cfg, d + "." + f + rest) != [] && Tokens(cfg, d + "." + f + rest)[0] == Token(NumberText, d)
  {
    var s := d + "." + f + rest;
    assert s == "" + d + ("." + f + rest) && s == d + ("." + f + rest) && d[0] in d && f[0] in f;
    NumeralsRun("", d, "." + f + rest);
    NumeralsRun(d + ".", f, rest);
    assert s[|d|] == '.' && s[|d| + 1] == f[0] && s[|d| + 1 + |f|] == rest[0];
    OnlyNumberFires(cfg, s, |d|);
    FirstPiece(cfg, d, "." + f + rest, Number);
  }

  /** Numerals glued to a word begin no token. */
  lemma GluedNumeralsFail(cfg: LangConfig, d: string, rest: string)
    requires WellFormed(cfg) && NoComment(cfg, d + rest) && Numerals(d) && rest != "" && Letter(rest[0])
    ensures ScanAt(cfg, d + rest, 0).None?
  {
    var s := d + rest;
    assert "" + d + rest == s && d[0] in d && s[|d|] == rest[0];
    NumeralsRun("", d, rest);
    forall p | p in Parts(cfg) && !p.BlockComment? && !p.LineComment? ensures PartEnd(p, s, 0).None? {
      PartsOf(cfg, p);
    }
    NothingFires(cfg, s);
  }

  lemma NothingFires(cfg: LangConfig, s: string)
    requires NoComment(cfg, s)
    requires forall p :: p in Parts(cfg) && !p.BlockComment? && !p.LineComment? ==> PartEnd(p, s, 0).None?
    ensures ScanAt(cfg, s, 0).None?
  {
    forall p | p in Parts(cfg) ensures PartEnd(p, s, 0).None? {
      if p.BlockComment? || p.LineComment? {
        CommentParts(cfg, s, p);
      }
    }
  }

  // ----- comments

  /** A line comment goes up to the end of the line. */
  lemma LineCommentIsFirst(cfg: LangConfig, open: string, body: string, rest: string)
    requires WellFormed(cfg) && cfg.lineComment == Some(open) && '\n' !in body && (rest == "" || rest[0] == '\n')
    requires cfg.blockComment.Some? ==> !(cfg.blockComment.value.0 <= open + body + rest)
    ensures Tokens(cfg, open + body + rest) != []
    ensures Tokens(cfg, open + body + rest)[0] == Token(Comment, open + body)
  {
    var s := open + body + rest;
    assert s[..|open|] == open;
    forall k | |open| <= k < |open| + |body| ensures s[k] != '\n' {
      assert s[k] == body[k - |open|] && body[k - |open|] in body;
    }
    RunStops(Except('\n'), s, |open|, |open| + |body|);
    var p := LineComment(open);
    var n := if cfg.blockComment.Some? then 1 else 0;
    assert Parts(cfg)[n] == p;
    if cfg.blockComment.Some? {
      StartsIsPrefix(s, 0, cfg.blockComment.value.0);
      assert s[0..] == s;
      assert Parts(cfg)[0] == BlockComment(cfg.blockComment.value.0, cfg.blockComment.value.1);
      assert FirstPart(Parts(cfg), s, 0) == FirstPart(Parts(cfg)[1..], s, 0) && Parts(cfg)[1..][0] == p;
    }
    assert ScanAt(cfg, s, 0) == Some(Hit(p, |open + body|));
    FirstPiece(cfg, open + body, rest, p);
  }

  /** Where the closer stands first. */
  lemma {:induction false} CloserStands(s: string, close: string, i: nat, e: nat)
    requires i <= e <= |s| && StartsWith(s, e, close)
    requires forall k :: i <= k < e ==> !StartsWith(s, k, close)
    ensures CloserEnd(s, close, i) == e + |close|
    decreases e - i
  {
    if i < e {
      CloserStands(s, close, i + 1, e);
    }
  }

  /** A block comment goes up to the first closer, which is part of it. */
  lemma BlockCommentIsFirst(cfg: LangConfig, open: string, close: string, body: string, rest: string)
    requires WellFormed(cfg) && cfg.blockComment == Some((open, close))
    requires var s := open + body + close + rest;
      forall k :: |open| <= k < |open| + |body| ==> !(close <= s[k..])
    ensures Tokens(cfg, open + body + close + rest) != []
    ensures Tokens(cfg, open + body + close + rest)[0] == Token(Comment, open + body + close)
  {
    var s := open + body + close + rest;
    var e := |open| + |body|;
    assert s[..|open|] == open && s[e..e + |close|] == close;
    forall k | |open| <= k < e ensures !StartsWith(s, k, close) {
      StartsIsPrefix(s, k, close);
    }
    CloserStands(s, close, |open|, e);
    assert Parts(cfg)[0] == BlockComment(open, close);
    FirstPiece(cfg, open + body + close, rest, BlockComment(open, close));
  }

  lemma {:induction false} NoCloserStands(s: string, close: string, i: nat)
    requires i <= |s| && close != "" && forall k :: i <= k < |s| ==> !StartsWith(s, k, close)
    ensures CloserEnd(s, close, i) == |s|
    decreases |s| - i
  {
    if i < |s| {
      NoCloserStands(s, close, i + 1);
    }
  }

  /** A block comment that is not closed goes up to the end of the text. */
  lemma OpenBlockCommentIsFirst(cfg: LangConfig, open: string, close: string, body: string)
    requires WellFormed(cfg) && cfg.blockComment == Some((open, close)) && close != ""
    requires var s := open + body; forall k :: |open| <= k < |s| ==> !(close <= s[k..])
    ensures Tokens(cfg, open + body) != [] && Tokens(cfg, open + body)[0] == Token(Comment, open + body)
  {
    var s := open + body;
    assert s[..|open|] == open && s + "" == s;
    forall k | |open| <= k < |s| ensures !StartsWith(s, k, close) {
      StartsIsPrefix(s, k, close);
    }
    NoCloserStands(s, close, |open|);
    assert Parts(cfg)[0] == BlockComment(open, close);
    FirstPiece(cfg, s, "", BlockComment(open, close));
  }

  // ----- strings

  /** Characters other than the delimiter and the backslash, and escaped characters that do not end a line. */
  predicate StringBody(b: string, q: char)
  {
    || b == ""
    || (b[0] != '\\' && b[0] != q && StringBody(b[1..], q))
    || (|b| >= 2 && b[0] == '\\' && b[0] != q && !EndsLine(b[1]) && StringBody(b[2..], q))
  }

  lemma {:induction false} BodyIsPassed(a: string, b: string, rest: string, q: char)
    requires StringBody(b, q)
    ensures StringEnd(a + b + rest, q, |a|) == StringEnd(a + b + rest, q, |a| + |b|)
    decreases |b|
  {
    if b != "" {
      var s := a + b + rest;
      assert s[|a|] == b[0];
      if b[0] != '\\' {
        assert s == (a + b[..1]) + b[1..] + rest;
        BodyIsPassed(a + b[..1], b[1..], rest, q);
      } else {
        assert s == (a + b[..2]) + b[2..] + rest && s[|a| + 1] == b[1];
        BodyIsPassed(a + b[..2], b[2..], rest, q);
      }
    }
  }

  lemma OnlyStringFires(cfg: LangConfig, s: string, q: char)
    requires WellFormed(cfg) && NoComment(cfg, s) && s != "" && s[0] == q && q in cfg.stringChars
    ensures ScanAt(cfg, s, 0)
         == match StringEnd(s, q, 1) case Some(e) => Some(Hit(Quoted(q), e)) case None => None
  {
    forall p | p in Parts(cfg) && p != Quoted(q) ensures PartEnd(p, s, 0).None? {
      PartsOf(cfg, p);
      if p.BlockComment? || p.LineComment? {
        CommentParts(cfg, s, p);
      }
    }
    var k :| 0 <= k < |cfg.stringChars| && cfg.stringChars[k] == q;
    assert Strings(cfg.stringChars)[k] == Quoted(q);
    assert Quoted(q) in Strings(cfg.stringChars);
    match StringEnd(s, q, 1)
    case Some(e) => OnlyOneFires(Parts(cfg), s, Quoted(q), e);
    case None => NothingFires(cfg, s);
  }

  /** A string goes up to the first delimiter that is not escaped, which is part of it. */
  lemma StringIsFirst(cfg: LangConfig, q: char, body: string, rest: string)
    requires WellFormed(cfg) && q in cfg.stringChars && StringBody(body, q)
    requires NoComment(cfg, [q] + body + [q] + rest)
    ensures Tokens(cfg, [q] + body + [q] + rest) != []
    ensures Tokens(cfg, [q] + body + [q] + rest)[0] == Token(StringText, [q] + body + [q])
  {
    var s := [q] + body + [q] + rest;
    assert s == [q] + body + ([q] + rest);
    BodyIsPassed([q], body, [q] + rest, q);
    OnlyStringFires(cfg, s, q);
    FirstPiece(cfg, [q] + body + [q], rest, Quoted(q));
  }

  /** A string that is not closed goes up to the end of the text. */
  lemma OpenStringIsFirst(cfg: LangConfig, q: char, body: string)
    requires WellFormed(cfg) && q in cfg.stringChars && StringBody(body, q) && NoComment(cfg, [q] + body)
    ensures Tokens(cfg, [q] + body) != [] && Tokens(cfg, [q] + body)[0] == Token(StringText, [q] + body)
  {
    assert [q] + body + "" == [q] + body;
    BodyIsPassed([q], body, "", q);
    OnlyStringFires(cfg, [q] + body, q);
    FirstPiece(cfg, [q] + body, "", Quoted(q));
  }

  /** A backslash in front of the end of a line, or of the text, makes the whole string fail. */
  lemma BrokenStringFails(cfg: LangConfig, q: char, body: string, rest: string)
    requires WellFormed(cfg) && q in cfg.stringChars && q != '\\' && StringBody(body, q)
    requires NoComment(cfg, [q] + body + "\\" + rest) && (rest == "" || EndsLine(rest[0]))
    ensures ScanAt(cfg, [q] + body + "\\" + rest, 0).None?
  {
    var s := [q] + body + "\\" + rest;
    assert s == [q] + body + ("\\" + rest);
    BodyIsPassed([q], body, "\\" + rest, q);
    assert s[1 + |body|] == '\\' && (rest != "" ==> s[2 + |body|] == rest[0]);
    OnlyStringFires(cfg, s, q);
  }

  // ----- everything else

  /** A character that begins nothing. */
  predicate Idle(cfg: LangConfig, c: char)
  {
    && !Letter(c) && !Numeral(c) && c !in cfg.stringChars
    && (cfg.blockComment.Some? && cfg.blockComment.value.0 != "" ==> cfg.blockComment.value.0[0] != c)
    && (cfg.lineComment.Some? && cfg.lineComment.value != "" ==> cfg.lineComment.value[0] != c)
  }

  lemma IdleFails(cfg: LangConfig, s: string, i: nat)
    requires WellFormed(cfg) && i < |s| && Idle(cfg, s[i])
    ensures ScanAt(cfg, s, i).None?
  {
    forall p | p in Parts(cfg) ensures PartEnd(p, s, i).None? {
      PartsOf(cfg, p);
    }
  }

  lemma {:induction false} IdleWalk(cfg: LangConfig, s: string, i: nat)
    requires WellFormed(cfg) && i <= |s| && forall c :: c in s ==> Idle(cfg, c)
    ensures Walk(cfg, s, 0, i) == PlainGap(s, 0, |s|)
    decreases |s| - i
  {
    if i < |s| {
      IdleFails(cfg, s, i);
      IdleWalk(cfg, s, i + 1);
    }
  }

  /** A text in which nothing begins is one plain token. */
  lemma IdleTextIsPlain(cfg: LangConfig, s: string)
    requires WellFormed(cfg) && s != "" && forall c :: c in s ==> Idle(cfg, c)
    ensures Tokens(cfg, s) == [Token(Plain, s)]
  {
    IdleWalk(cfg, s, 0);
    assert s[0..|s|] == s;
  }

  // ----- languages

  /** A language of the table is tokenized by its own configuration, any other name by the fallback, and a name that
      every object inherits raises. */
  lemma LanguageDecides(table: LanguageTable, text: string, language: string)
    requires WellFormedTable(table)
    ensures language in table.own ==>
              TokenizeResult(table, text, language) == Success(Tokens(table.own[language], text))
    ensures language !in table.own && language !in INHERITED ==>
              TokenizeResult(table, text, language) == Success(Tokens(table.fallback, text))
    ensures language !in table.own && language in INHERITED ==>
              TokenizeResult(table, text, language) == Failure(TypeError)
  {
  }

  /** A listed word of a language is coloured as a keyword of that language. */
  lemma KeywordIsColoured(table: LanguageTable, name: string, k: string)
    requires WellFormedTable(table) && name in table.own && k in table.own[name].keywords
    requires table.own[name].caseInsensitive ==> LowerCase(k) == k
    requires k != "" && Letter(k[0]) && Letters(k) && OpensNoComment(table.own[name], k[0])
    ensures TokenizeResult(table, k, name) == Success([Token(Keyword, k)])
  {
    assert forall c :: c in k ==> Accepts(WordPart, c);
    WordIsOneToken(table.own[name], k);
    WordIsFirst(table.own[name], k, "") by {
      assert k + "" == k;
      assert forall open: string :: open != "" && open <= k ==> open[0] == k[0];
    }
    assert k + "" == k;
  }
}
