/** The regular expressions that the tokenizer builds, with the ordered backtracking
    semantics of ECMA-262, section 22.2.2 (Pattern Semantics).

    A text is a sequence of characters. A matcher takes a position and a continuation; it
    either hands a later position to the continuation or fails, and alternatives are
    tried in order. Every outcome also says whether some test on the way looked at the end
    of the input, which is what decides if appending text could change the outcome. */
module Regex {
  import opened Common

  datatype Class =
    | Any                  // [\s\S]
    | Dot                  // .
    | Only(c: char)        // a literal character
    | Except(c: char)      // [^c]
    | Digit                // \d
    | WordStart            // [A-Za-z_]
    | WordPart             // [A-Za-z0-9_]

  datatype Pattern =
    | Empty
    | One(cls: Class)
    | Cat(first: Pattern, second: Pattern)
    | Alt(left: Pattern, right: Pattern)
    | Lazy(body: Pattern)        // body*?
    | Greedy(body: Pattern)      // body*
    | Optional(body: Pattern)    // body?
    | Boundary                   // \b
    | End                        // $ without the m flag

  predicate IsDigit(c: char) { '0' <= c <= '9' }

  predicate IsLetter(c: char) { 'a' <= c <= 'z' || 'A' <= c <= 'Z' }

  predicate IsWordStart(c: char) { IsLetter(c) || c == '_' }

  predicate IsWord(c: char) { IsWordStart(c) || IsDigit(c) }

  /** LineTerminator of ECMA-262, section 12.3. */
  predicate IsLineTerminator(c: char) { c in "\n\r\U{2028}\U{2029}" }

  predicate Accepts(cls: Class, c: char)
  {
    match cls
    case Any => true
    case Dot => !IsLineTerminator(c)
    case Only(d) => c == d
    case Except(d) => c != d
    case Digit => IsDigit(c)
    case WordStart => IsWordStart(c)
    case WordPart => IsWord(c)
  }

  /** Whether position `i` holds a word character; false at both ends of the text. */
  predicate WordAt(s: string, i: int) { 0 <= i < |s| && IsWord(s[i]) }

  datatype Outcome = Outcome(end: Option<nat>, sawEnd: bool)

  type Continuation = nat -> Outcome

  const FAIL := Outcome(None, false)

  function Accept(j: nat): Outcome { Outcome(Some(j), false) }

  /** The second choice is tried only when the first one fails. */
  function OrElse(a: Outcome, b: Outcome): Outcome
  {
    if a.end.Some? then a else Outcome(b.end, a.sawEnd || b.sawEnd)
  }

  function SeeEnd(o: Outcome): Outcome { o.(sawEnd := true) }

  /** Match `p` at position `i` of `s` and go on with `k`. A repetition whose body matched
      nothing fails that branch (step 2.b of RepeatMatcher). */
  function Run(p: Pattern, s: string, i: nat, k: Continuation): Outcome
    requires i <= |s|
    decreases p, |s| - i
  {
    match p
    case Empty => k(i)
    case One(cls) =>
      if i == |s| then SeeEnd(FAIL)
      else if Accepts(cls, s[i]) then k(i + 1)
      else FAIL
    case Cat(a, b) => Run(a, s, i, (j: nat) => if j <= |s| then Run(b, s, j, k) else FAIL)
    case Alt(a, b) => OrElse(Run(a, s, i, k), Run(b, s, i, k))
    case Lazy(a) =>
      OrElse(k(i), Run(a, s, i, (j: nat) => if i < j <= |s| then Run(p, s, j, k) else FAIL))
    case Greedy(a) =>
      OrElse(Run(a, s, i, (j: nat) => if i < j <= |s| then Run(p, s, j, k) else FAIL), k(i))
    case Optional(a) =>
      OrElse(Run(a, s, i, (j: nat) => if i < j <= |s| then k(j) else FAIL), k(i))
    case Boundary =>
      var o := if WordAt(s, i - 1) != WordAt(s, i) then k(i) else FAIL;
      if i == |s| then SeeEnd(o) else o
    case End =>
      if i == |s| then SeeEnd(k(i)) else FAIL
  }

  // ----- what a match depends on

  /** An outcome reached without looking at the end of the input is the same after more text
      is appended, for every pattern and every continuation with that property. */
  lemma {:induction false} RunIsStable(p: Pattern, s: string, q: string, i: nat, k: Continuation, k': Continuation)
    requires i <= |s|
    requires forall j: nat :: j <= |s| && !k(j).sawEnd ==> k'(j) == k(j)
    requires !Run(p, s, i, k).sawEnd
    ensures Run(p, s + q, i, k') == Run(p, s, i, k)
    decreases p, |s| - i
  {
    match p
    case Empty =>
    case One(cls) =>
      if i < |s| {
        assert (s + q)[i] == s[i];
      }
    case Cat(a, b) =>
      var g := (j: nat) => if j <= |s| then Run(b, s, j, k) else FAIL;
      var g' := (j: nat) => if j <= |s + q| then Run(b, s + q, j, k') else FAIL;
      forall j: nat | j <= |s| && !g(j).sawEnd ensures g'(j) == g(j) {
        RunIsStable(b, s, q, j, k, k');
      }
      RunIsStable(a, s, q, i, g, g');
    case Alt(a, b) =>
      RunIsStable(a, s, q, i, k, k');
      if Run(a, s, i, k).end.None? {
        RunIsStable(b, s, q, i, k, k');
      }
    case Lazy(a) =>
      if k(i).end.None? {
        RepeatIsStable(p, a, s, q, i, k, k');
      }
    case Greedy(a) =>
      RepeatIsStable(p, a, s, q, i, k, k');
    case Optional(a) =>
      var g := (j: nat) => if i < j <= |s| then k(j) else FAIL;
      var g' := (j: nat) => if i < j <= |s + q| then k'(j) else FAIL;
      RunIsStable(a, s, q, i, g, g');
    case Boundary =>
      assert (s + q)[i] == s[i];
      assert i > 0 ==> (s + q)[i - 1] == s[i - 1];
    case End =>
  }

  /** The iteration step of `RunIsStable`, shared by both repetitions. */
  lemma {:induction false} RepeatIsStable(p: Pattern, a: Pattern, s: string, q: string, i: nat, k: Continuation,
          k': Continuation)
    requires i <= |s|
    requires p == Lazy(a) || p == Greedy(a)
    requires forall j: nat :: j <= |s| && !k(j).sawEnd ==> k'(j) == k(j)
    requires !Run(a, s, i, (j: nat) => if i < j <= |s| then Run(p, s, j, k) else FAIL).sawEnd
    ensures Run(a, s + q, i, (j: nat) => if i < j <= |s + q| then Run(p, s + q, j, k') else FAIL)
         == Run(a, s, i, (j: nat) => if i < j <= |s| then Run(p, s, j, k) else FAIL)
    decreases p, |s| - i, 0
  {
    var g := (j: nat) => if i < j <= |s| then Run(p, s, j, k) else FAIL;
    var g' := (j: nat) => if i < j <= |s + q| then Run(p, s + q, j, k') else FAIL;
    forall j: nat | j <= |s| && !g(j).sawEnd ensures g'(j) == g(j) {
      if i < j {
        RunIsStable(p, s, q, j, k, k');
      }
    }
    RunIsStable(a, s, q, i, g, g');
  }
}
