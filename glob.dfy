/**
 * Shell-style file-name patterns as `fnmatch.fnmatch` reads them on a POSIX
 * system (case-sensitive, the whole name must match): `*` matches any run of
 * characters, `?` any one character, `[seq]` / `[!seq]` one character in / not
 * in a set that may hold ranges such as `a-z`; an unclosed `[` is literal.
 */
module Glob {
  import opened Wrappers
  import opened Strings

  datatype ClassItem = Single(c: char) | Span(lo: char, hi: char)

  datatype Token =
    | AnyString
    | AnyChar
    | Literal(c: char)
    | CharClass(negated: bool, items: seq<ClassItem>)

  /** The members of a bracket expression, read left to right; `x-y` is a range. */
  function ClassItems(body: string): seq<ClassItem>
    decreases |body|
  {
    if body == [] then []
    else if |body| >= 3 && body[1] == '-' then [Span(body[0], body[2])] + ClassItems(body[3..])
    else [Single(body[0])] + ClassItems(body[1..])
  }

  /** The first index at or after `j` that holds `c`. */
  function FindFrom(s: string, c: char, j: nat): (r: Option<nat>)
    ensures r.Some? ==> j <= r.value < |s| && s[r.value] == c
    ensures r.Some? ==> forall k :: j <= k < r.value ==> s[k] != c
    ensures r.None? ==> forall k :: j <= k < |s| ==> s[k] != c
    decreases |s| - j
  {
    if j >= |s| then None
    else if s[j] == c then Some(j)
    else FindFrom(s, c, j + 1)
  }

  /**
   * Where the `]` closing a bracket expression stands, in the text `s` that
   * follows the `[`: a leading `!` and then a leading `]` belong to the set.
   */
  function ClassClose(s: string): Option<nat>
  {
    var j0 := if 0 < |s| && s[0] == '!' then 1 else 0;
    var j1 := if j0 < |s| && s[j0] == ']' then j0 + 1 else j0;
    FindFrom(s, ']', j1)
  }

  /** The pattern as a sequence of tokens (`fnmatch.translate`). */
  function Tokenize(p: string): seq<Token>
    decreases |p|
  {
    if p == [] then []
    else if p[0] == '*' then [AnyString] + Tokenize(p[1..])
    else if p[0] == '?' then [AnyChar] + Tokenize(p[1..])
    else if p[0] == '[' then
      match ClassClose(p[1..])
      case None => [Literal('[')] + Tokenize(p[1..])
      case Some(j) =>
        var body := p[1..j + 1];
        var token := if body != [] && body[0] == '!' then CharClass(true, ClassItems(body[1..]))
                     else CharClass(false, ClassItems(body));
        [token] + Tokenize(p[j + 2..])
    else [Literal(p[0])] + Tokenize(p[1..])
  }

  predicate ItemMatches(item: ClassItem, c: char)
  {
    match item
    case Single(x) => c == x
    case Span(lo, hi) => lo <= c <= hi
  }

  /** Whether a single-character token accepts `c`. */
  predicate TokenMatches(t: Token, c: char)
    requires !t.AnyString?
  {
    match t
    case AnyChar => true
    case Literal(x) => c == x
    case CharClass(negated, items) =>
      (exists k :: 0 <= k < |items| && ItemMatches(items[k], c)) != negated
  }

  /** Whether the tokens match the whole of `s`. */
  predicate MatchTokens(ts: seq<Token>, s: string)
    decreases |ts|, |s|
  {
    if ts == [] then s == []
    else if ts[0].AnyString? then MatchTokens(ts[1..], s) || (s != [] && MatchTokens(ts, s[1..]))
    else s != [] && TokenMatches(ts[0], s[0]) && MatchTokens(ts[1..], s[1..])
  }

  /** `fnmatch.fnmatch(name, pattern)` */
  predicate FnMatch(name: string, pattern: string)
  {
    MatchTokens(Tokenize(pattern), name)
  }

  /** A pattern without `*`, `?` or `[`. */
  predicate Plain(p: string)
  {
    forall k :: 0 <= k < |p| ==> p[k] != '*' && p[k] != '?' && p[k] != '['
  }

  /** A plain pattern reads as one literal token per character. */
  lemma {:induction false} TokenizePlain(p: string)
    requires Plain(p)
    ensures Tokenize(p) == seq(|p|, k requires 0 <= k < |p| => Literal(p[k]))
    decreases |p|
  {
    if p != [] {
      TokenizePlain(p[1..]);
    }
  }

  /** Literal tokens match exactly the string they spell. */
  lemma {:induction false} MatchLiterals(p: string, s: string)
    ensures MatchTokens(seq(|p|, k requires 0 <= k < |p| => Literal(p[k])), s) <==> s == p
    decreases |p|
  {
    var ts := seq(|p|, k requires 0 <= k < |p| => Literal(p[k]));
    if p != [] {
      assert ts[1..] == seq(|p[1..]|, k requires 0 <= k < |p[1..]| => Literal(p[1..][k]));
      if s != [] {
        MatchLiterals(p[1..], s[1..]);
        assert s == [s[0]] + s[1..] && p == [p[0]] + p[1..];
      }
    }
  }

  /** A plain pattern matches exactly itself. */
  lemma {:induction false} FnMatchPlain(name: string, pattern: string)
    requires Plain(pattern)
    ensures FnMatch(name, pattern) <==> name == pattern
  {
    TokenizePlain(pattern);
    MatchLiterals(pattern, name);
  }

  /** `*` followed by a plain text matches exactly the names that end with that text. */
  lemma {:induction false} FnMatchStarSuffix(name: string, suffix: string)
    requires Plain(suffix)
    ensures FnMatch(name, "*" + suffix) <==> EndsWith(name, suffix)
  {
    var lits := seq(|suffix|, k requires 0 <= k < |suffix| => Literal(suffix[k]));
    TokenizePlain(suffix);
    assert ("*" + suffix)[1..] == suffix;
    assert Tokenize("*" + suffix) == [AnyString] + lits;
    StarLiterals(suffix, name);
  }

  /** Induction step for `FnMatchStarSuffix`, on the length of the name. */
  lemma {:induction false} StarLiterals(suffix: string, s: string)
    ensures MatchTokens([AnyString] + seq(|suffix|, k requires 0 <= k < |suffix| => Literal(suffix[k])), s)
            <==> EndsWith(s, suffix)
    decreases |s|
  {
    var lits := seq(|suffix|, k requires 0 <= k < |suffix| => Literal(suffix[k]));
    var ts := [AnyString] + lits;
    assert ts[1..] == lits;
    MatchLiterals(suffix, s);
    if s != [] {
      StarLiterals(suffix, s[1..]);
      if |suffix| < |s| {
        assert s[1..][|s[1..]| - |suffix|..] == s[|s| - |suffix|..];
      }
    }
  }

  /** `*` matches every name. */
  lemma {:induction false} FnMatchStar(name: string)
    ensures FnMatch(name, "*")
  {
    FnMatchStarSuffix(name, "");
  }

  /** `?` matches exactly the one-character names. */
  lemma {:induction false} FnMatchQuestion(name: string)
    ensures FnMatch(name, "?") <==> |name| == 1
  {
    assert Tokenize("?") == [AnyChar];
    if name != [] {
      assert MatchTokens([], name[1..]) <==> |name| == 1;
    }
  }

  /** `[0-9]` reads as one set holding the range from `0` to `9`. */
  lemma TokenizeRange()
    ensures Tokenize("[0-9]") == [CharClass(false, [Span('0', '9')])]
  {
    assert ClassItems("0-9") == [Span('0', '9')];
    assert "[0-9]"[1..] == "0-9]" && "[0-9]"[1..4] == "0-9" && "[0-9]"[5..] == [];
    assert ClassClose("0-9]") == Some(3);
  }

  /** `[!0-9]` reads as the complement of that set. */
  lemma TokenizeNegatedRange()
    ensures Tokenize("[!0-9]") == [CharClass(true, [Span('0', '9')])]
  {
    assert ClassItems("0-9") == [Span('0', '9')];
    assert "[!0-9]"[1..] == "!0-9]" && "[!0-9]"[1..5] == "!0-9" && "!0-9"[1..] == "0-9" && "[!0-9]"[6..] == [];
    assert ClassClose("!0-9]") == Some(4);
  }

  /** A bracket range accepts a character inside it: `[0-9]` matches `7`. */
  lemma FnMatchDigitClass()
    ensures FnMatch("7", "[0-9]")
    ensures !FnMatch("x", "[0-9]")
    ensures FnMatch("x", "[!0-9]")
  {
    var digits := [Span('0', '9')];
    TokenizeRange();
    TokenizeNegatedRange();
    assert "7"[1..] == [] && "x"[1..] == [];
    assert [CharClass(false, digits)][1..] == [] && [CharClass(true, digits)][1..] == [];
    assert ItemMatches(digits[0], '7') && !ItemMatches(digits[0], 'x');
    assert TokenMatches(CharClass(false, digits), '7');
    assert !TokenMatches(CharClass(false, digits), 'x');
    assert TokenMatches(CharClass(true, digits), 'x');
  }

  /** An unclosed `[` stands for itself. */
  lemma FnMatchUnclosedBracket()
    ensures FnMatch("[a", "[a")
  {
    assert ClassClose("a") == None;
    assert Tokenize("[a") == [Literal('['), Literal('a')];
  }
}
