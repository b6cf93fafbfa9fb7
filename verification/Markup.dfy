/** The rich text shown in the window: escaping, colouring of tokens, and reading it back. */
module Markup {
  import opened Common
  import opened SyntaxHighlight
  import opened Tokenizer

  const NBSP: char := '\U{00A0}'
  const NBSP4: string := [NBSP, NBSP, NBSP, NBSP]

  // ----- escaping

  /** `s.replace(/c/g, r)` for a single character. */
  function ReplaceAll(s: string, c: char, r: string): string
  {
    if s == "" then ""
    else (if s[0] == c then r else [s[0]]) + ReplaceAll(s[1..], c, r)
  }

  /** The chained replacements, in order: a later one also rewrites the output of an earlier one. */
  const CHAIN: seq<(char, string)> := [
    ('&', "&amp;"), ('<', "&lt;"), ('>', "&gt;"), ('\n', "<br>"), ('\t', NBSP4), (' ', [NBSP])]

  function ReplaceFrom(s: string, n: nat): string
    requires n <= |CHAIN|
    decreases |CHAIN| - n
  {
    if n == |CHAIN| then s else ReplaceFrom(ReplaceAll(s, CHAIN[n].0, CHAIN[n].1), n + 1)
  }

  function EscapeMarkup(text: string): string { ReplaceFrom(text, 0) }

  function EscapeChar(c: char): string
  {
    match c
    case '&' => "&amp;"
    case '<' => "&lt;"
    case '>' => "&gt;"
    case '\n' => "<br>"
    case '\t' => NBSP4
    case ' ' => [NBSP]
    case _ => [c]
  }

  function EscapeEach(text: string): string
  {
    if text == "" then "" else EscapeChar(text[0]) + EscapeEach(text[1..])
  }

  lemma {:induction false} ReplaceConcat(s: string, t: string, c: char, r: string)
    ensures ReplaceAll(s + t, c, r) == ReplaceAll(s, c, r) + ReplaceAll(t, c, r)
  {
    if s == "" {
      assert s + t == t;
    } else {
      assert (s + t)[1..] == s[1..] + t;
      ReplaceConcat(s[1..], t, c, r);
    }
  }

  lemma {:induction false} ReplaceAbsent(s: string, c: char, r: string)
    requires c !in s
    ensures ReplaceAll(s, c, r) == s
  {
    if s != "" {
      ReplaceAbsent(s[1..], c, r);
    }
  }

  lemma ReplaceOne(d: char, c: char, r: string)
    ensures ReplaceAll([d], c, r) == if d == c then r else [d]
  {
    assert [d][1..] == "";
  }

  lemma {:induction false} ChainAbsent(x: string, n: nat)
    requires n <= |CHAIN|
    requires forall k :: n <= k < |CHAIN| ==> CHAIN[k].0 !in x
    ensures ReplaceFrom(x, n) == x
    decreases |CHAIN| - n
  {
    if n < |CHAIN| {
      ReplaceAbsent(x, CHAIN[n].0, CHAIN[n].1);
      ChainAbsent(x, n + 1);
    }
  }

  /** No replacement produces a character that a later one rewrites. */
  lemma ChainDoesNotRewriteItself(n: nat, k: nat)
    requires n < k < |CHAIN|
    ensures CHAIN[k].0 !in CHAIN[n].1
  {
  }

  lemma EscapeCharOfChain(n: nat)
    requires n < |CHAIN|
    ensures EscapeChar(CHAIN[n].0) == CHAIN[n].1
  {
  }

  lemma {:induction false} EscapeOne(d: char, n: nat)
    requires n <= |CHAIN|
    requires forall k :: 0 <= k < n ==> CHAIN[k].0 != d
    ensures ReplaceFrom([d], n) == EscapeChar(d)
    decreases |CHAIN| - n
  {
    if n == |CHAIN| {
      assert d != CHAIN[0].0 && d != CHAIN[1].0 && d != CHAIN[2].0;
      assert d != CHAIN[3].0 && d != CHAIN[4].0 && d != CHAIN[5].0;
    } else {
      ReplaceOne(d, CHAIN[n].0, CHAIN[n].1);
      if d == CHAIN[n].0 {
        forall k | n < k < |CHAIN| ensures CHAIN[k].0 !in CHAIN[n].1 {
          ChainDoesNotRewriteItself(n, k);
        }
        ChainAbsent(CHAIN[n].1, n + 1);
        EscapeCharOfChain(n);
      } else {
        EscapeOne(d, n + 1);
      }
    }
  }

  lemma {:induction false} ReplaceFromConcat(s: string, t: string, n: nat)
    requires n <= |CHAIN|
    ensures ReplaceFrom(s + t, n) == ReplaceFrom(s, n) + ReplaceFrom(t, n)
    decreases |CHAIN| - n
  {
    if n < |CHAIN| {
      var c, r := CHAIN[n].0, CHAIN[n].1;
      ReplaceConcat(s, t, c, r);
      ReplaceFromConcat(ReplaceAll(s, c, r), ReplaceAll(t, c, r), n + 1);
    }
  }

  lemma EscapeMarkupConcat(s: string, t: string)
    ensures EscapeMarkup(s + t) == EscapeMarkup(s) + EscapeMarkup(t)
  {
    ReplaceFromConcat(s, t, 0);
  }

  /** The six sequential replacements equal one map over the characters. */
  lemma {:induction false} EscapeIsCharacterwise(text: string)
    ensures EscapeMarkup(text) == EscapeEach(text)
  {
    if text != "" {
      assert text == [text[0]] + text[1..];
      EscapeMarkupConcat([text[0]], text[1..]);
      EscapeOne(text[0], 0);
      EscapeIsCharacterwise(text[1..]);
    }
  }

  // ----- reading the escaped text back

  function Unescape(m: string): string
  {
    if m == "" then ""
    else if "&amp;" <= m then "&" + Unescape(m[5..])
    else if "&lt;" <= m then "<" + Unescape(m[4..])
    else if "&gt;" <= m then ">" + Unescape(m[4..])
    else if "<br>" <= m then "\n" + Unescape(m[4..])
    else if m[0] == NBSP then " " + Unescape(m[1..])
    else [m[0]] + Unescape(m[1..])
  }

  /** What survives the display: tabs become four spaces, no-break spaces become spaces. */
  function Displayed(text: string): string
  {
    if text == "" then ""
    else (if text[0] == '\t' then "    " else if text[0] == NBSP then " " else [text[0]]) + Displayed(text[1..])
  }

  lemma UnescapeNbsp(m: string)
    ensures Unescape([NBSP] + m) == " " + Unescape(m)
  {
    assert ([NBSP] + m)[0] == NBSP && ([NBSP] + m)[1..] == m;
  }

  lemma UnescapeTab(m: string)
    ensures Unescape(NBSP4 + m) == "    " + Unescape(m)
  {
    UnescapeNbsp(m);
    UnescapeNbsp([NBSP] + m);
    UnescapeNbsp([NBSP] + ([NBSP] + m));
    UnescapeNbsp([NBSP] + ([NBSP] + ([NBSP] + m)));
    assert NBSP4 + m == [NBSP] + ([NBSP] + ([NBSP] + ([NBSP] + m)));
  }

  lemma UnescapeEntity(x: string, m: string)
    requires x in ["&amp;", "&lt;", "&gt;", "<br>"]
    ensures Unescape(x + m)
         == (if x == "&amp;" then "&" else if x == "&lt;" then "<" else if x == "&gt;" then ">" else "\n") + Unescape(m)
  {
    var z := x + m;
    assert z[..|x|] == x && z[|x|..] == m;
    assert z[0] == x[0] && z[1] == x[1];
  }

  lemma UnescapePlain(c: char, m: string)
    requires c !in "&<"
    ensures Unescape([c] + m) == (if c == NBSP then " " else [c]) + Unescape(m)
  {
    assert ([c] + m)[0] == c && ([c] + m)[1..] == m;
  }

  lemma UnescapeEscapedChar(c: char, m: string)
    ensures Unescape(EscapeChar(c) + m)
         == (if c == '\t' then "    " else if c == NBSP then " " else [c]) + Unescape(m)
  {
    if c == '\t' {
      UnescapeTab(m);
    } else if c in "&<>\n" {
      UnescapeEntity(EscapeChar(c), m);
    } else if c == ' ' {
      UnescapeNbsp(m);
    } else {
      UnescapePlain(c, m);
    }
  }

  lemma {:induction false} DecodeEach(text: string)
    ensures Unescape(EscapeEach(text)) == Displayed(text)
  {
    if text != "" {
      DecodeEach(text[1..]);
      UnescapeEscapedChar(text[0], EscapeEach(text[1..]));
    }
  }

  /** Decoding the escaped text gives the text as displayed. */
  lemma DecodeEscaped(text: string)
    ensures Unescape(EscapeMarkup(text)) == Displayed(text)
  {
    EscapeIsCharacterwise(text);
    DecodeEach(text);
  }

  lemma {:induction false} DisplayedIsText(text: string)
    ensures |Displayed(text)| >= |text|
    ensures Displayed(text) == text <==> '\t' !in text && NBSP !in text
  {
    if text != "" {
      DisplayedIsText(text[1..]);
      assert text == [text[0]] + text[1..];
      assert forall c :: c in text <==> c == text[0] || c in text[1..];
      var x := if text[0] == '\t' then "    " else if text[0] == NBSP then " " else [text[0]];
      if Displayed(text) == text {
        assert |x| == 1;
        assert Displayed(text)[0] == x[0] && Displayed(text)[1..] == Displayed(text[1..]);
      }
    }
  }

  /** Decoding restores exactly the texts without a tab and without a no-break space. */
  lemma DecodeRestores(text: string)
    ensures Unescape(EscapeMarkup(text)) == text <==> '\t' !in text && NBSP !in text
  {
    DecodeEscaped(text);
    DisplayedIsText(text);
  }

  // ----- colouring

  /** The two colours taken from the desktop theme. */
  datatype Theme = Theme(muted: string, foreground: string)

  function ColorForTokenType(theme: Theme, kind: TokenType): string
  {
    match kind
    case Keyword => "#c586c0"
    case StringText => "#ce9178"
    case NumberText => "#b5cea8"
    case Comment => theme.muted
    case Plain => theme.foreground
  }

  const OPEN: string := "<font color=\""
  const CLOSE: string := "</font>"

  function Piece(theme: Theme, token: Token): string
  {
    var escaped := EscapeMarkup(token.text);
    if escaped == "" then ""
    else if token.kind == Plain then escaped
    else OPEN + ColorForTokenType(theme, token.kind) + "\">" + escaped + CLOSE
  }

  function Markup(theme: Theme, tokens: seq<Token>): string
  {
    if tokens == [] then "" else Piece(theme, tokens[0]) + Markup(theme, tokens[1..])
  }

  /** `parts.join("")`. */
  function Joined(parts: seq<string>): string
  {
    if parts == [] then "" else Joined(parts[..|parts| - 1]) + parts[|parts| - 1]
  }

  lemma {:induction false} MarkupConcat(theme: Theme, a: seq<Token>, b: seq<Token>)
    ensures Markup(theme, a + b) == Markup(theme, a) + Markup(theme, b)
  {
    if a == [] {
      assert a + b == b;
    } else {
      assert (a + b)[1..] == a[1..] + b;
      MarkupConcat(theme, a[1..], b);
    }
  }

  lemma MarkupStep(theme: Theme, tokens: seq<Token>, i: nat)
    requires i < |tokens|
    ensures Markup(theme, tokens[..i + 1]) == Markup(theme, tokens[..i]) + Piece(theme, tokens[i])
  {
    assert tokens[..i + 1] == tokens[..i] + [tokens[i]];
    MarkupConcat(theme, tokens[..i], [tokens[i]]);
    assert Markup(theme, [tokens[i]]) == Piece(theme, tokens[i]) + Markup(theme, []);
  }

  lemma JoinedStep(parts: seq<string>, p: string)
    ensures Joined(parts + [p]) == Joined(parts) + p
  {
    assert (parts + [p])[..|parts|] == parts;
  }

  method BuildHighlightedMarkup(h: Highlighter, theme: Theme, text: string, language: string)
    returns (r: Result<string, JsError>)
    requires h.Valid()
    modifies h, h.scannerCache.Values
    ensures h.Valid()
    ensures r == if text == "" then Success("")
                 else match TokenizeResult(h.table, text, language)
                      case Failure(e) => Failure(e)
                      case Success(tokens) => Success(Markup(theme, tokens))
  {
    if text == "" {
      return Success("");
    }
    var t := h.Tokenize(text, language);
    if t.Failure? {
      return Failure(t.error);
    }
    var tokens := t.value;
    var parts: seq<string> := [];
    for i := 0 to |tokens|
      modifies {}
      invariant Joined(parts) == Markup(theme, tokens[..i])
    {
      var token := tokens[i];
      MarkupStep(theme, tokens, i);
      var escaped := EscapeMarkup(token.text);
      if escaped == "" {
        continue;
      }
      ghost var before := parts;
      if token.kind == Plain {
        parts := parts + [escaped];
      } else {
        parts := parts + [OPEN + ColorForTokenType(theme, token.kind) + "\">" + escaped + CLOSE];
      }
      JoinedStep(before, Piece(theme, token));
    }
    assert tokens[..|tokens|] == tokens;
    return Success(Joined(parts));
  }

  /** Plain text has no tag, and any other token is its escaped text in a tag with its colour: fixed ones for keywords,
      strings and numbers, and the muted colour of the theme for comments. */
  lemma PieceOfToken(theme: Theme, token: Token)
    requires token.text != ""
    ensures Piece(theme, token)
         == if token.kind == Plain then EscapeEach(token.text)
            else
              var color := match token.kind
                           case Keyword => "#c586c0"
                           case StringText => "#ce9178"
                           case NumberText => "#b5cea8"
                           case _ => theme.muted;
              "<font color=\"" + color + "\">" + EscapeEach(token.text) + "</font>"
  {
    EscapeIsCharacterwise(token.text);
    assert EscapeChar(token.text[0]) != "";
  }

  // ----- removing the font tags

  function SkipTag(m: string): (r: string)
    ensures |r| <= |m|
  {
    if m == "" then "" else if m[0] == '>' then m[1..] else SkipTag(m[1..])
  }

  /** The markup without its opening and closing font tags. */
  function StripFont(m: string): string
    decreases |m|
  {
    if m == "" then ""
    else if OPEN <= m then StripFont(SkipTag(m[|OPEN|..]))
    else if CLOSE <= m then StripFont(m[|CLOSE|..])
    else [m[0]] + StripFont(m[1..])
  }

  lemma {:induction false} SkipTagPast(a: string, b: string)
    requires '>' !in a
    ensures SkipTag(a + ">" + b) == b
  {
    var m := a + ">" + b;
    if a == "" {
      assert m == ">" + b;
    } else {
      assert m[1..] == a[1..] + ">" + b;
      SkipTagPast(a[1..], b);
    }
  }

  lemma NoTagAhead(z: string)
    requires z != "" && (z[0] != '<' || "<b" <= z)
    ensures !(OPEN <= z) && !(CLOSE <= z)
  {
    assert OPEN[0] == CLOSE[0] == '<' && OPEN[1] == 'f' && CLOSE[1] == '/';
    assert "<b" <= z ==> z[1] == "<b"[1] == 'b';
  }

  /** What begins with no font tag is copied up to its next character. */
  lemma HeadIsCopied(z: string)
    requires z != "" && (z[0] != '<' || "<b" <= z)
    ensures StripFont(z) == [z[0]] + StripFont(z[1..])
  {
    NoTagAhead(z);
  }

  /** Only about sequences. */
  lemma HeadAndTail(z: string, h: char, x: string, m: string)
    requires z == [h] + x + m
    ensures z != "" && z[0] == h && z[1..] == x + m
  {
  }

  lemma Put(h: char, x: string, r: string)
    ensures [h] + (x + r) == [h] + x + r
  {
  }

  lemma CopyStep(z: string, h: char, x: string, m: string, r: string)
    requires z == [h] + x + m && (h != '<' || "<b" <= z) && StripFont(x + m) == x + r
    ensures StripFont(z) == [h] + x + r
  {
    HeadAndTail(z, h, x, m);
    HeadIsCopied(z);
    Put(h, x, r);
  }

  lemma {:induction false} StripCopies(x: string, m: string, r: string)
    requires '<' !in x && r == StripFont(m)
    ensures StripFont(x + m) == x + r
  {
    if x == "" {
      assert x + m == m && x + r == r;
    } else {
      StripCopies(x[1..], m, r);
      assert x == [x[0]] + x[1..] && x[0] in x;
      CopyStep(x + m, x[0], x[1..], m, r);
    }
  }

  /** A line break is no font tag. */
  lemma StripBreak(m: string, r: string)
    requires r == StripFont(m)
    ensures StripFont("<br>" + m) == "<br>" + r
  {
    StripCopies("br>", m, r);
    assert "<br>" == ['<'] + "br>";
    CopyStep("<br>" + m, '<', "br>", m, r);
  }

  lemma StripEscapedChar(c: char, m: string)
    ensures StripFont(EscapeChar(c) + m) == EscapeChar(c) + StripFont(m)
  {
    if c == '\n' {
      StripBreak(m, StripFont(m));
    } else {
      StripCopies(EscapeChar(c), m, StripFont(m));
    }
  }

  /** What copies every escaped character in front of any text copies every escaped text. */
  lemma {:induction false} CopiesEscaped(f: string -> string, text: string, m: string)
    requires forall c, r :: f(EscapeChar(c) + r) == EscapeChar(c) + f(r)
    ensures f(EscapeEach(text) + m) == EscapeEach(text) + f(m)
  {
    if text == "" {
      assert EscapeEach(text) + m == m;
    } else {
      var x, y := EscapeChar(text[0]), EscapeEach(text[1..]);
      CopiesEscaped(f, text[1..], m);
      assert f(x + (y + m)) == x + f(y + m);
      Reassociate(x, y, m, f(m));
    }
  }

  lemma Reassociate(x: string, y: string, m: string, r: string)
    ensures x + (y + m) == x + y + m && x + (y + r) == x + y + r
  {
  }

  /** Escaped text holds no font tag, so it is copied. */
  lemma StripEscaped(text: string, m: string)
    ensures StripFont(EscapeEach(text) + m) == EscapeEach(text) + StripFont(m)
  {
    forall c, r ensures StripFont(EscapeChar(c) + r) == EscapeChar(c) + StripFont(r) {
      StripEscapedChar(c, r);
    }
    CopiesEscaped(StripFont, text, m);
  }

  lemma StripOpen(color: string, m: string)
    requires '>' !in color
    ensures StripFont(OPEN + color + "\">" + m) == StripFont(m)
  {
    var z := OPEN + color + "\">" + m;
    assert z[..|OPEN|] == OPEN;
    assert z[|OPEN|..] == (color + "\"") + ">" + m;
    SkipTagPast(color + "\"", m);
  }

  lemma StripPiece(theme: Theme, token: Token, m: string)
    requires '>' !in theme.muted
    ensures StripFont(Piece(theme, token) + m) == EscapeMarkup(token.text) + StripFont(m)
  {
    var e := EscapeMarkup(token.text);
    EscapeIsCharacterwise(token.text);
    if e == "" {
      assert Piece(theme, token) + m == m;
    } else if token.kind == Plain {
      StripEscaped(token.text, m);
    } else {
      ColorHasNoTagEnd(theme, token.kind);
      StripEscaped(token.text, CLOSE + m);
      StripColored(ColorForTokenType(theme, token.kind), e, m);
    }
  }

  /** A coloured piece of text in front of the rest. */
  lemma StripColored(color: string, e: string, m: string)
    requires '>' !in color && StripFont(e + (CLOSE + m)) == e + StripFont(CLOSE + m)
    ensures StripFont(OPEN + color + "\">" + e + CLOSE + m) == e + StripFont(m)
  {
    Regroup(OPEN + color + "\">", e, CLOSE, m);
    StripOpen(color, e + (CLOSE + m));
    StripClose(m);
  }

  lemma Regroup(a: string, b: string, c: string, d: string)
    ensures a + b + c + d == a + (b + (c + d))
  {
  }

  lemma ColorHasNoTagEnd(theme: Theme, kind: TokenType)
    requires '>' !in theme.muted && kind != Plain
    ensures '>' !in ColorForTokenType(theme, kind)
  {
  }

  lemma StripClose(m: string)
    ensures StripFont(CLOSE + m) == StripFont(m)
  {
    assert (CLOSE + m)[1] == '/' && OPEN[1] == 'f';
    assert (CLOSE + m)[|CLOSE|..] == m;
  }

  lemma {:induction false} StripMarkup(theme: Theme, tokens: seq<Token>)
    requires '>' !in theme.muted
    ensures StripFont(Markup(theme, tokens)) == EscapeMarkup(Texts(tokens))
  {
    if tokens != [] {
      StripMarkup(theme, tokens[1..]);
      StripPiece(theme, tokens[0], Markup(theme, tokens[1..]));
      EscapeMarkupConcat(tokens[0].text, Texts(tokens[1..]));
    }
  }

  /** For every configuration and text: removing the font tags from the markup gives the escaped text, and
      decoding that gives the text as displayed. */
  lemma MarkupRoundTrip(cfg: LangConfig, theme: Theme, text: string)
    requires WellFormed(cfg) && '>' !in theme.muted
    ensures StripFont(Markup(theme, Tokens(cfg, text))) == EscapeMarkup(text)
    ensures Unescape(StripFont(Markup(theme, Tokens(cfg, text)))) == text <==> '\t' !in text && NBSP !in text
  {
    TokensAreLossless(cfg, text);
    StripMarkup(theme, Tokens(cfg, text));
    DecodeRestores(text);
  }

  /** The markup of the settled tokens stays at the front of the markup of every longer text. */
  lemma TypingKeepsSettledMarkup(cfg: LangConfig, theme: Theme, s: string, q: string, n: nat)
    requires WellFormed(cfg)
    requires n <= |Tokens(cfg, s)|
    requires var reach := |Texts(Tokens(cfg, s)[..n])|;
      reach < FirstLookAtEnd(cfg, s, 0) || reach <= SettledEnd(cfg, s, 0, 0)
    ensures Markup(theme, Tokens(cfg, s)[..n]) <= Markup(theme, Tokens(cfg, s + q))
  {
    TypingKeepsSettledTokens(cfg, s, q, n);
    var a, b := Tokens(cfg, s)[..n], Tokens(cfg, s + q);
    assert b == a + b[n..];
    MarkupConcat(theme, a, b[n..]);
  }
}
