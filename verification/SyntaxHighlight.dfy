/** The single-pass tokenizer: the pattern it builds for a language, the deterministic
    scanner that finds the same matches, the classification of a match and the walk over
    a text. */
module SyntaxHighlight {
  import opened Common
  import opened Regex

  /** An absent comment form is `None`; the string delimiters are single characters. */
  datatype LangConfig = LangConfig(
    keywords: seq<string>,
    lineComment: Option<string>,
    blockComment: Option<(string, string)>,
    stringChars: seq<char>,
    caseInsensitive: bool)

  datatype TokenType = Keyword | StringText | Comment | NumberText | Plain

  datatype Token = Token(kind: TokenType, text: string)

  datatype JsError = TypeError

  /** Names every JavaScript object inherits (ECMA-262, section 20.1.3 and annex B.2.2);
      a lookup by one of them on a plain object is truthy. */
  const INHERITED: set<string> := {
    "constructor", "hasOwnProperty", "isPrototypeOf", "propertyIsEnumerable", "toLocaleString",
    "toString", "valueOf", "__defineGetter__", "__defineSetter__", "__lookupGetter__",
    "__lookupSetter__", "__proto__" }

  // ----- the alternatives of a scanner

  datatype Part =
    | BlockComment(open: string, close: string)
    | LineComment(open: string)
    | Quoted(quote: char)
    | Number
    | Word

  function Strings(quotes: seq<char>): seq<Part> { seq(|quotes|, k requires 0 <= k < |quotes| => Quoted(quotes[k])) }

  /** The alternatives, in the order in which they are joined. */
  function Parts(cfg: LangConfig): seq<Part>
  {
    (match cfg.blockComment case Some(b) => [BlockComment(b.0, b.1)] case None => [])
    + (match cfg.lineComment case Some(l) => [LineComment(l)] case None => [])
    + Strings(cfg.stringChars)
    + [Number, Word]
  }

  function Literal(w: string): Pattern
  {
    if w == "" then Empty else Cat(One(Only(w[0])), Literal(w[1..]))
  }

  const DIGITS: Pattern := Cat(One(Digit), Greedy(One(Digit)))
  const STRING_ITEM: Pattern := Alt(Cat(One(Only('\\')), One(Dot)), One(Except('\\')))

  function PartPattern(p: Part): Pattern
  {
    match p
    case BlockComment(open, close) => Cat(Literal(open), Cat(Lazy(One(Any)), Alt(Literal(close), End)))
    case LineComment(open) => Cat(Literal(open), Greedy(One(Except('\n'))))
    case Quoted(q) => Cat(One(Only(q)), Cat(Lazy(STRING_ITEM), Alt(One(Only(q)), End)))
    case Number => Cat(Boundary, Cat(DIGITS, Cat(Optional(Cat(One(Only('.')), DIGITS)), Boundary)))
    case Word => Cat(One(WordStart), Greedy(One(WordPart)))
  }

  /** The characters `escapeRegExp` puts a backslash in front of. */
  predicate IsSyntaxChar(c: char) { c in ".*+?^${}()|[]\\" }

  function EscapeRegExp(w: string): string
  {
    if w == "" then ""
    else (if IsSyntaxChar(w[0]) then ['\\', w[0]] else [w[0]]) + EscapeRegExp(w[1..])
  }

  /** Pattern text made of ordinary characters and escaped syntax characters, read as a pattern; none if it
      holds a bare syntax character. */
  function ReadLiteral(p: string): Option<Pattern>
  {
    if p == "" then Some(Empty)
    else if p[0] == '\\' then
      if |p| < 2 || !IsSyntaxChar(p[1]) then None
      else match ReadLiteral(p[2..]) case Some(rest) => Some(Cat(One(Only(p[1])), rest)) case None => None
    else if IsSyntaxChar(p[0]) then None
    else match ReadLiteral(p[1..]) case Some(rest) => Some(Cat(One(Only(p[0])), rest)) case None => None
  }

  /** Escaped text stands for exactly the characters it was made from. */
  lemma {:induction false} EscapedTextIsLiteral(w: string)
    ensures ReadLiteral(EscapeRegExp(w)) == Some(Literal(w))
  {
    if w != "" {
      EscapedTextIsLiteral(w[1..]);
      var rest := EscapeRegExp(w[1..]);
      if IsSyntaxChar(w[0]) {
        assert (['\\', w[0]] + rest)[2..] == rest;
      } else {
        assert ([w[0]] + rest)[1..] == rest;
      }
    }
  }

  /** `parts.join("|")` of a non-empty list. */
  function Join(ps: seq<Part>): Pattern
    requires ps != []
  {
    if |ps| == 1 then PartPattern(ps[0]) else Alt(PartPattern(ps[0]), Join(ps[1..]))
  }

  method BuildScanner(cfg: LangConfig) returns (pattern: Pattern)
    ensures pattern == Join(Parts(cfg))
  {
    var parts: seq<Part> := [];
    if cfg.blockComment.Some? {
      parts := parts + [BlockComment(cfg.blockComment.value.0, cfg.blockComment.value.1)];
    }
    if cfg.lineComment.Some? {
      parts := parts + [LineComment(cfg.lineComment.value)];
    }
    ghost var comments := parts;
    for i := 0 to |cfg.stringChars|
      invariant parts == comments + Strings(cfg.stringChars)[..i]
    {
      parts := parts + [Quoted(cfg.stringChars[i])];
    }
    parts := parts + [Number];
    parts := parts + [Word];
    assert parts == Parts(cfg);
    pattern := Join(parts);
  }

  // ----- the deterministic scanner

  predicate StartsWith(s: string, i: nat, w: string) { i + |w| <= |s| && s[i..i + |w|] == w }

  /** The end of the longest run of `cls` that starts at `i`. */
  function RunEnd(cls: Class, s: string, i: nat): (e: nat)
    requires i <= |s|
    ensures i <= e <= |s|
    decreases |s| - i
  {
    if i < |s| && Accepts(cls, s[i]) then RunEnd(cls, s, i + 1) else i
  }

  /** Just after the first `close` at or after `j`, or the end of the text. */
  function CloserEnd(s: string, close: string, j: nat): (e: nat)
    requires j <= |s|
    ensures j <= e <= |s|
    decreases |s| - j
  {
    if StartsWith(s, j, close) then j + |close|
    else if j == |s| then j
    else CloserEnd(s, close, j + 1)
  }

  /** Just after the first unescaped quote at or after `j`, or the end of the text; none when
      a backslash stands before a line terminator or the end first. */
  function StringEnd(s: string, q: char, j: nat): (e: Option<nat>)
    requires j <= |s|
    ensures e.Some? ==> j <= e.value <= |s|
    decreases |s| - j
  {
    if j == |s| then Some(j)
    else if s[j] == q then Some(j + 1)
    else if s[j] != '\\' then StringEnd(s, q, j + 1)
    else if j + 1 < |s| && !IsLineTerminator(s[j + 1]) then StringEnd(s, q, j + 2)
    else None
  }

  /** The closed-form number rule: no word character before, the whole run of digits, then
      a fraction if it is not glued to a word character; without a fraction the digits
      themselves must not be glued to one. */
  function NumberEnd(s: string, i: nat): (e: Option<nat>)
    requires i <= |s|
    ensures e.Some? ==> i < e.value <= |s|
  {
    if i == |s| || !IsDigit(s[i]) || WordAt(s, i - 1) then None
    else
      var j := RunEnd(Digit, s, i);
      if j + 1 < |s| && s[j] == '.' && IsDigit(s[j + 1]) then
        var m := RunEnd(Digit, s, j + 1);
        if WordAt(s, m) then Some(j) else Some(m)
      else if WordAt(s, j) then None
      else Some(j)
  }

  function PartEnd(p: Part, s: string, i: nat): (e: Option<nat>)
    requires i <= |s|
    ensures e.Some? ==> i <= e.value <= |s|
  {
    match p
    case BlockComment(open, close) =>
      if StartsWith(s, i, open) then Some(CloserEnd(s, close, i + |open|)) else None
    case LineComment(open) =>
      if StartsWith(s, i, open) then Some(RunEnd(Except('\n'), s, i + |open|)) else None
    case Quoted(q) => if i < |s| && s[i] == q then StringEnd(s, q, i + 1) else None
    case Number => NumberEnd(s, i)
    case Word => if i < |s| && IsWordStart(s[i]) then Some(RunEnd(WordPart, s, i + 1)) else None
  }

  datatype Hit = Hit(part: Part, end: nat)

  /** The first alternative that matches at `i`. */
  function FirstPart(ps: seq<Part>, s: string, i: nat): (h: Option<Hit>)
    requires i <= |s|
    ensures h.Some? ==> h.value.part in ps && PartEnd(h.value.part, s, i) == Some(h.value.end)
  {
    if ps == [] then None
    else
      match PartEnd(ps[0], s, i)
      case Some(e) => Some(Hit(ps[0], e))
      case None => FirstPart(ps[1..], s, i)
  }

  // ----- the scanner agrees with the backtracking match

  lemma {:induction false} LiteralRun(w: string, s: string, i: nat, k: Continuation)
    requires i <= |s|
    ensures Run(Literal(w), s, i, k).end == (if StartsWith(s, i, w) then k(i + |w|).end else None)
    decreases |w|
  {
    if w == "" {
      assert s[i..i] == "";
    } else {
      var g := (j: nat) => if j <= |s| then Run(Literal(w[1..]), s, j, k) else FAIL;
      assert Run(Literal(w), s, i, k) == Run(One(Only(w[0])), s, i, g);
      if i < |s| && s[i] == w[0] {
        LiteralRun(w[1..], s, i + 1, k);
        if i + |w| <= |s| {
          assert s[i..i + |w|] == [s[i]] + s[i + 1..i + |w|];
          assert w == [w[0]] + w[1..];
        }
      }
    }
  }

  /** Greedy repetition of a class ends at the end of the run when no shorter repetition can go on. */
  lemma {:induction false} GreedyRun(cls: Class, s: string, i: nat, k: Continuation)
    requires i <= |s|
    requires k(RunEnd(cls, s, i)).end.Some? || forall j: nat :: i <= j < RunEnd(cls, s, i) ==> k(j).end.None?
    ensures Run(Greedy(One(cls)), s, i, k).end == k(RunEnd(cls, s, i)).end
    decreases |s| - i
  {
    var g := (j: nat) => if i < j <= |s| then Run(Greedy(One(cls)), s, j, k) else FAIL;
    assert Run(Greedy(One(cls)), s, i, k) == OrElse(Run(One(cls), s, i, g), k(i));
    if i < |s| && Accepts(cls, s[i]) {
      GreedyRun(cls, s, i + 1, k);
    }
  }

  lemma {:induction false} CloserRun(s: string, close: string, j: nat)
    requires j <= |s|
    ensures Run(Lazy(One(Any)), s, j,
                (m: nat) => if m <= |s| then Run(Alt(Literal(close), End), s, m, Accept) else FAIL).end
         == Some(CloserEnd(s, close, j))
    decreases |s| - j
  {
    var k := (m: nat) => if m <= |s| then Run(Alt(Literal(close), End), s, m, Accept) else FAIL;
    var g := (m: nat) => if j < m <= |s| then Run(Lazy(One(Any)), s, m, k) else FAIL;
    assert Run(Lazy(One(Any)), s, j, k) == OrElse(k(j), Run(One(Any), s, j, g));
    LiteralRun(close, s, j, Accept);
    assert k(j) == OrElse(Run(Literal(close), s, j, Accept), Run(End, s, j, Accept));
    if j < |s| {
      assert Run(One(Any), s, j, g) == g(j + 1) == Run(Lazy(One(Any)), s, j + 1, k);
      CloserRun(s, close, j + 1);
    }
  }

  lemma {:induction false} StringRun(s: string, q: char, j: nat)
    requires j <= |s|
    ensures Run(Lazy(STRING_ITEM), s, j,
                (m: nat) => if m <= |s| then Run(Alt(One(Only(q)), End), s, m, Accept) else FAIL).end
         == StringEnd(s, q, j)
    decreases |s| - j
  {
    var k := (m: nat) => if m <= |s| then Run(Alt(One(Only(q)), End), s, m, Accept) else FAIL;
    var g := (m: nat) => if j < m <= |s| then Run(Lazy(STRING_ITEM), s, m, k) else FAIL;
    assert Run(Lazy(STRING_ITEM), s, j, k) == OrElse(k(j), Run(STRING_ITEM, s, j, g));
    assert Run(STRING_ITEM, s, j, g)
        == OrElse(Run(Cat(One(Only('\\')), One(Dot)), s, j, g), Run(One(Except('\\')), s, j, g));
    assert k(j) == OrElse(Run(One(Only(q)), s, j, Accept), Run(End, s, j, Accept));
    if j < |s| && s[j] != q {
      var h := (m: nat) => if m <= |s| then Run(One(Dot), s, m, g) else FAIL;
      assert Run(Cat(One(Only('\\')), One(Dot)), s, j, g) == Run(One(Only('\\')), s, j, h);
      if s[j] != '\\' {
        StringRun(s, q, j + 1);
      } else if j + 1 < |s| && !IsLineTerminator(s[j + 1]) {
        StringRun(s, q, j + 2);
      }
    }
  }

  lemma {:induction false} RunEndAll(cls: Class, s: string, i: nat)
    requires i <= |s|
    ensures forall j :: i <= j < RunEnd(cls, s, i) ==> Accepts(cls, s[j])
    ensures RunEnd(cls, s, i) < |s| ==> !Accepts(cls, s[RunEnd(cls, s, i)])
    decreases |s| - i
  {
    if i < |s| && Accepts(cls, s[i]) {
      RunEndAll(cls, s, i + 1);
    }
  }

  /** `\d+` followed by a continuation that cannot start inside the run of digits. */
  lemma {:induction false} DigitsRun(s: string, i: nat, k: Continuation)
    requires i <= |s|
    requires forall j: nat :: i < j < RunEnd(Digit, s, i) ==> k(j).end.None?
    ensures Run(DIGITS, s, i, k).end
         == (if i < |s| && IsDigit(s[i]) then k(RunEnd(Digit, s, i)).end else None)
  {
    var g := (j: nat) => if j <= |s| then Run(Greedy(One(Digit)), s, j, k) else FAIL;
    assert Run(DIGITS, s, i, k) == Run(One(Digit), s, i, g);
    if i < |s| && IsDigit(s[i]) {
      GreedyRun(Digit, s, i + 1, k);
    }
  }

  /** What follows the integer digits of a number, at any position right after a digit. */
  lemma FractionRun(s: string, j: nat)
    requires 0 < j <= |s| && IsDigit(s[j - 1])
    ensures Run(Cat(Optional(Cat(One(Only('.')), DIGITS)), Boundary), s, j, Accept).end
         == (if j + 1 < |s| && s[j] == '.' && IsDigit(s[j + 1]) && !WordAt(s, RunEnd(Digit, s, j + 1))
             then Some(RunEnd(Digit, s, j + 1))
             else if WordAt(s, j) then None else Some(j))
  {
    var k := (m: nat) => if m <= |s| then Run(Boundary, s, m, Accept) else FAIL;
    var f := Cat(One(Only('.')), DIGITS);
    var g := (m: nat) => if j < m <= |s| then k(m) else FAIL;
    assert Run(Cat(Optional(f), Boundary), s, j, Accept) == Run(Optional(f), s, j, k);
    assert Run(Optional(f), s, j, k) == OrElse(Run(f, s, j, g), k(j));
    var h := (m: nat) => if m <= |s| then Run(DIGITS, s, m, g) else FAIL;
    assert Run(f, s, j, g) == Run(One(Only('.')), s, j, h);
    if j < |s| && s[j] == '.' {
      RunEndAll(Digit, s, j + 1);
      DigitsRun(s, j + 1, g);
    }
  }

  lemma NumberRun(s: string, i: nat)
    requires i <= |s|
    ensures Run(PartPattern(Number), s, i, Accept).end == NumberEnd(s, i)
  {
    var tail := Cat(Optional(Cat(One(Only('.')), DIGITS)), Boundary);
    var k := (m: nat) => if m <= |s| then Run(Cat(DIGITS, tail), s, m, Accept) else FAIL;
    assert Run(PartPattern(Number), s, i, Accept) == Run(Boundary, s, i, k);
    var g := (m: nat) => if m <= |s| then Run(tail, s, m, Accept) else FAIL;
    assert Run(Cat(DIGITS, tail), s, i, Accept) == Run(DIGITS, s, i, g);
    RunEndAll(Digit, s, i);
    forall j: nat | i < j <= RunEnd(Digit, s, i)
      ensures j < RunEnd(Digit, s, i) ==> g(j).end.None?
    {
      FractionRun(s, j);
    }
    DigitsRun(s, i, g);
    if i < |s| && IsDigit(s[i]) {
      FractionRun(s, RunEnd(Digit, s, i));
    }
  }

  /** For every alternative, text and position, the deterministic rule finds exactly the
      match that backtracking finds. */
  lemma PartAgrees(p: Part, s: string, i: nat)
    requires i <= |s|
    ensures Run(PartPattern(p), s, i, Accept).end == PartEnd(p, s, i)
  {
    match p
    case BlockComment(open, close) =>
      var rest := Cat(Lazy(One(Any)), Alt(Literal(close), End));
      LiteralRun(open, s, i, (m: nat) => if m <= |s| then Run(rest, s, m, Accept) else FAIL);
      if StartsWith(s, i, open) {
        CloserRun(s, close, i + |open|);
      }
    case LineComment(open) =>
      var rest := Greedy(One(Except('\n')));
      LiteralRun(open, s, i, (m: nat) => if m <= |s| then Run(rest, s, m, Accept) else FAIL);
      if StartsWith(s, i, open) {
        GreedyRun(Except('\n'), s, i + |open|, Accept);
      }
    case Quoted(q) =>
      var rest := Cat(Lazy(STRING_ITEM), Alt(One(Only(q)), End));
      var k := (m: nat) => if m <= |s| then Run(rest, s, m, Accept) else FAIL;
      assert Run(PartPattern(p), s, i, Accept) == Run(One(Only(q)), s, i, k);
      if i < |s| {
        StringRun(s, q, i + 1);
      }
    case Number => NumberRun(s, i);
    case Word =>
      var k := (m: nat) => if m <= |s| then Run(Greedy(One(WordPart)), s, m, Accept) else FAIL;
      assert Run(PartPattern(p), s, i, Accept) == Run(One(WordStart), s, i, k);
      if i < |s| {
        GreedyRun(WordPart, s, i + 1, Accept);
      }
  }

  function HitEnd(h: Option<Hit>): Option<nat>
  {
    match h case Some(hit) => Some(hit.end) case None => None
  }

  /** The joined pattern matches at `i` exactly when some alternative does, and ends where the first
      such alternative ends. */
  lemma {:induction false} ScannerAgrees(ps: seq<Part>, s: string, i: nat)
    requires ps != [] && i <= |s|
    ensures Run(Join(ps), s, i, Accept).end == HitEnd(FirstPart(ps, s, i))
    decreases |ps|
  {
    PartAgrees(ps[0], s, i);
    if |ps| > 1 {
      ScannerAgrees(ps[1..], s, i);
    } else {
      assert FirstPart(ps[1..], s, i) == None;
    }
  }
}
