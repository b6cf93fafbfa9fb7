/** The language table: keywords, comment forms and string delimiters. */
module Languages {
  import opened Common
  import opened SyntaxHighlight
  import opened Tokenizer

  const C_BLOCK: Option<(string, string)> := Some(("/*", "*/"))
  const CLIKE_STRINGS: seq<char> := ['"', '\'']

  const C: LangConfig := LangConfig([
    "auto", "break", "case", "char", "const", "continue", "default", "do", "double", "else",
    "enum", "extern", "float", "for", "goto", "if", "int", "long", "register", "return", "short",
    "signed", "sizeof", "static", "struct", "switch", "typedef", "union", "unsigned", "void",
    "volatile", "while", "include", "define", "ifdef", "ifndef", "endif", "NULL"],
    Some("//"), C_BLOCK, CLIKE_STRINGS, false)

  const C_PLUS_PLUS: LangConfig := LangConfig([
    "auto", "break", "case", "char", "class", "const", "constexpr", "continue", "default",
    "delete", "do", "double", "else", "enum", "explicit", "extern", "final", "float", "for",
    "friend", "goto", "if", "inline", "int", "long", "namespace", "new", "noexcept", "nullptr",
    "operator", "override", "private", "protected", "public", "register", "return", "short",
    "signed", "sizeof", "static", "struct", "switch", "template", "this", "throw", "true", "false",
    "try", "catch", "typedef", "typename", "union", "unsigned", "using", "virtual", "void",
    "volatile", "while"],
    Some("//"), C_BLOCK, CLIKE_STRINGS, false)

  const C_SHARP: LangConfig := LangConfig([
    "abstract", "async", "await", "bool", "break", "case", "catch", "class", "const", "continue",
    "default", "delegate", "do", "double", "else", "enum", "event", "explicit", "extern", "false",
    "finally", "float", "for", "foreach", "if", "implicit", "in", "int", "interface", "internal",
    "is", "lock", "long", "namespace", "new", "null", "object", "override", "params", "private",
    "protected", "public", "readonly", "ref", "return", "sealed", "short", "static", "string",
    "struct", "switch", "this", "throw", "true", "try", "typeof", "using", "var", "virtual",
    "void", "while", "yield"],
    Some("//"), C_BLOCK, CLIKE_STRINGS, false)

  const JAVA: LangConfig := LangConfig([
    "abstract", "assert", "boolean", "break", "byte", "case", "catch", "char", "class", "const",
    "continue", "default", "do", "double", "else", "enum", "extends", "final", "finally", "float",
    "for", "if", "implements", "import", "instanceof", "int", "interface", "long", "native", "new",
    "package", "private", "protected", "public", "return", "short", "static", "strictfp", "super",
    "switch", "synchronized", "this", "throw", "throws", "transient", "try", "void", "volatile",
    "while", "true", "false", "null"],
    Some("//"), C_BLOCK, CLIKE_STRINGS, false)

  const TYPESCRIPT: LangConfig := LangConfig([
    "as", "async", "await", "break", "case", "catch", "class", "const", "continue", "default",
    "delete", "do", "else", "enum", "export", "extends", "false", "finally", "for", "from",
    "function", "if", "implements", "import", "in", "instanceof", "interface", "let", "new",
    "null", "of", "private", "protected", "public", "readonly", "return", "static", "super",
    "switch", "this", "throw", "true", "try", "type", "typeof", "undefined", "var", "void",
    "while", "yield"],
    Some("//"), C_BLOCK, ['"', '\'', '`'], false)

  const PYTHON: LangConfig := LangConfig([
    "and", "as", "assert", "async", "await", "break", "class", "continue", "def", "del", "elif",
    "else", "except", "finally", "for", "from", "global", "if", "import", "in", "is", "lambda",
    "None", "nonlocal", "not", "or", "pass", "raise", "return", "self", "True", "False", "try",
    "while", "with", "yield"],
    Some("#"), None, CLIKE_STRINGS, false)

  const GO: LangConfig := LangConfig([
    "break", "case", "chan", "const", "continue", "default", "defer", "else", "fallthrough", "for",
    "func", "go", "goto", "if", "import", "interface", "map", "package", "range", "return",
    "select", "struct", "switch", "type", "var", "nil", "true", "false"],
    Some("//"), C_BLOCK, CLIKE_STRINGS, false)

  const RUST: LangConfig := LangConfig([
    "as", "break", "const", "continue", "crate", "dyn", "else", "enum", "extern", "fn", "for",
    "if", "impl", "in", "let", "loop", "match", "mod", "move", "mut", "pub", "ref", "return",
    "self", "Self", "static", "struct", "super", "trait", "true", "false", "type", "unsafe", "use",
    "where", "while", "None", "Some", "Ok", "Err"],
    Some("//"), C_BLOCK, CLIKE_STRINGS, false)

  const RUBY: LangConfig := LangConfig([
    "begin", "break", "case", "class", "def", "do", "else", "elsif", "end", "ensure", "false",
    "for", "if", "in", "module", "next", "nil", "not", "or", "raise", "redo", "rescue", "retry",
    "return", "self", "super", "then", "true", "undef", "unless", "until", "when", "while",
    "yield", "and"],
    Some("#"), None, CLIKE_STRINGS, false)

  const PHP: LangConfig := LangConfig([
    "abstract", "and", "array", "as", "break", "case", "catch", "class", "clone", "const",
    "continue", "declare", "default", "do", "echo", "else", "elseif", "empty", "enddeclare",
    "endfor", "endforeach", "endif", "endswitch", "endwhile", "extends", "final", "finally", "fn",
    "for", "foreach", "function", "global", "goto", "if", "implements", "include", "instanceof",
    "insteadof", "interface", "isset", "list", "namespace", "new", "or", "print", "private",
    "protected", "public", "require", "return", "static", "switch", "throw", "trait", "try",
    "unset", "use", "var", "while", "xor", "yield", "true", "false", "null"],
    Some("//"), C_BLOCK, CLIKE_STRINGS, false)

  const BASH: LangConfig := LangConfig([
    "if", "then", "elif", "else", "fi", "for", "while", "until", "do", "done", "case", "esac",
    "function", "return", "break", "continue", "local", "export", "readonly", "declare", "in",
    "select", "time"],
    Some("#"), None, CLIKE_STRINGS, false)

  const SQL: LangConfig := LangConfig([
    "select", "from", "where", "join", "inner", "left", "right", "outer", "on", "group", "by",
    "order", "having", "insert", "into", "values", "update", "set", "delete", "create", "table",
    "alter", "drop", "index", "primary", "key", "foreign", "references", "not", "null", "default",
    "unique", "as", "and", "or", "in", "exists", "between", "like", "union", "all", "distinct",
    "limit", "view", "case", "when", "then", "else", "end"],
    Some("--"), C_BLOCK, ['\''], true)

  const LUA: LangConfig := LangConfig([
    "and", "break", "do", "else", "elseif", "end", "false", "for", "function", "if", "in", "local",
    "nil", "not", "or", "repeat", "return", "then", "true", "until", "while"],
    Some("--"), None, CLIKE_STRINGS, false)

  const QML: LangConfig := LangConfig([
    "import", "as", "property", "function", "var", "let", "const", "return", "if", "else", "for",
    "while", "readonly", "signal", "alias", "true", "false", "null", "id", "int", "string", "bool",
    "real", "list", "default", "required"],
    Some("//"), C_BLOCK, CLIKE_STRINGS, false)

  const FALLBACK: LangConfig := LangConfig([], Some("//"), C_BLOCK, CLIKE_STRINGS, false)

  const TABLE: LanguageTable := LanguageTable(map[
    "C" := C, "C++" := C_PLUS_PLUS, "C#" := C_SHARP, "Java" := JAVA, "TypeScript" := TYPESCRIPT,
    "Python" := PYTHON, "Go" := GO, "Rust" := RUST, "Ruby" := RUBY, "PHP" := PHP, "Bash" := BASH,
    "SQL" := SQL, "Lua" := LUA, "QML" := QML], FALLBACK)

  /** Every bundled language, and the fallback, meets the one condition the tokenizer's
      properties need. */
  lemma BundledTableIsWellFormed()
    ensures WellFormedTable(TABLE)
  {
  }

  lemma KeywordsAreShort()
    ensures forall i :: 0 <= i < |C.keywords| ==> |C.keywords[i]| <= 8
  {
  }

  lemma ConstructorIsNotListed()
    ensures "constructor" !in C.keywords
  {
    KeywordsAreShort();
  }

  lemma ConstructorIsAWord()
    ensures IsWordText("constructor") && OpensNoComment(C, 'c')
  {
  }

  lemma WordClassified(cfg: LangConfig, w: string)
    requires WellFormed(cfg) && IsWordText(w) && OpensNoComment(cfg, w[0]) && Folded(cfg, w) in INHERITED
    ensures Classify(cfg, w) == Keyword
  {
  }

  lemma ConstructorIsAKeyword()
    ensures Classify(C, "constructor") == Keyword
  {
    CaseCounts(C, "constructor");
    ConstructorIsAWord();
    WordClassified(C, "constructor");
  }

  /** An inherited name is coloured as a keyword in C, where it is none. */
  lemma InheritedNameIsColoured()
    ensures "constructor" !in C.keywords && Tokens(C, "constructor") == [Token(Keyword, "constructor")]
  {
    ConstructorIsNotListed();
    ConstructorIsAWord();
    WordIsOneToken(C, "constructor");
    ConstructorIsAKeyword();
  }

  lemma LowerCaseOfEnd()
    ensures LowerCase("END") == "end"
  {
    assert LowerChar('E') == 'e' && LowerChar('N') == 'n' && LowerChar('D') == 'd';
    var w, v := "END", "end";
    assert forall k :: 0 <= k < 3 ==> LowerChar(w[k]) == v[k];
  }

  lemma EndIsListed()
    ensures "end" in SQL.keywords
  {
    assert SQL.keywords[|SQL.keywords| - 1] == "end";
  }

  lemma EndIsAWord()
    ensures IsWordText("END") && OpensNoComment(SQL, 'E')
  {
  }

  /** A language without case finds its keywords in capitals too. */
  lemma CapitalsAreColoured()
    ensures Tokens(SQL, "END") == [Token(Keyword, "END")]
  {
    LowerCaseOfEnd();
    EndIsListed();
    EndIsAWord();
    WordIsOneToken(SQL, "END");
  }

  /** With case, a word is looked up as it is. */
  lemma CaseCounts(cfg: LangConfig, w: string)
    requires !cfg.caseInsensitive
    ensures Folded(cfg, w) == w
  {
  }

  /** The fallback knows comments and strings, but colours no word that is not an inherited name. */
  lemma FallbackColoursNoWord(name: string, w: string)
    requires name !in TABLE.own && name !in INHERITED
    requires IsWordText(w) && w !in INHERITED
    ensures TokenizeResult(TABLE, w, name) == Success([Token(Plain, w)])
  {
    BundledTableIsWellFormed();
    assert OpensNoComment(FALLBACK, w[0]);
    WordIsOneToken(FALLBACK, w);
    CaseCounts(FALLBACK, w);
  }

  /** How comments and strings are written in each language; any other has those of C. */
  lemma FormsOfLanguages(name: string)
    requires name in TABLE.own
    ensures var cfg := TABLE.own[name];
      && cfg.lineComment == Some(if name in {"Python", "Ruby", "Bash"} then "#"
                                 else if name in {"SQL", "Lua"} then "--" else "//")
      && cfg.blockComment == (if name in {"Python", "Ruby", "Bash", "Lua"} then None else Some(("/*", "*/")))
      && cfg.stringChars == (if name == "SQL" then ['\''] else if name == "TypeScript" then ['"', '\'', '`']
                             else ['"', '\''])
      && (cfg.caseInsensitive <==> name == "SQL")
    ensures TABLE.fallback == LangConfig([], Some("//"), Some(("/*", "*/")), ['"', '\''], false)
  {
  }
}
