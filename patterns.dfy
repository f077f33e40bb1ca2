/** The checker's fixed regular expressions, written out as predicates.

    `MatchAt(p, s)` is Python's `re.match(p, s)`: the pattern matches a
    prefix of `s`. `Search(p, s)` is JavaScript's `new RegExp(p).test(s)`:
    the pattern matches starting at some offset of `s`.

    Each pattern is a chain of character classes in which every repetition
    is followed by a class disjoint from it (`[a-zA-Z0-9_]*` by `\s` or `=`,
    `\s*` by `=` or by a sign, digit, quote or letter), so consuming each
    repetition greedily decides the match exactly as the backtracking engine
    does. The one exception is `FIM\s+<name>`, where the name may itself
    begin with whitespace; BlockEndAt tries every split of the spaces. */
module Patterns {
  import opened Text

  datatype Pattern =
    | Number              // [+-]?\d+(\.\d+)?
    | Quoted              // "([^"]*)"
    | AssignNumber        // ident\s*=\s*Number
    | AssignString        // ident\s*=\s*Quoted
    | AssignIdent         // ident\s*=\s*ident
    | PrintPattern        // PRINT\s+ident
    | DeclaredNumber      // NUMERO\s+AssignNumber
    | UndeclaredNumber    // NUMERO\s+ident
    | DeclaredString      // CADEIA\s+AssignString
    | UndeclaredString    // CADEIA\s+ident
    | BlockEnd(name: string)  // FIM\s+<name>, the name taken literally

  /** Drop the leading run of `[a-zA-Z0-9_]`. */
  function SkipIdentChars(s: string): (r: string)
    ensures |r| <= |s| && r == s[|s| - |r|..]
    ensures r == [] || !IsIdentChar(r[0])
    ensures forall i :: 0 <= i < |s| - |r| ==> IsIdentChar(s[i])
    decreases |s|
  {
    if |s| > 0 && IsIdentChar(s[0]) then SkipIdentChars(s[1..]) else s
  }

  /** `[a-zA-Z_][a-zA-Z0-9_]*` matches a prefix: only its first character decides. */
  predicate IdentAt(s: string) {
    |s| > 0 && IsIdentStart(s[0])
  }

  /** `[+-]?\d+(\.\d+)?` matches a prefix: the fraction is optional, so
      a digit, or a sign and a digit, is all it takes. */
  predicate NumberAt(s: string) {
    (|s| > 0 && IsDigit(s[0])) || (|s| > 1 && (s[0] == '+' || s[0] == '-') && IsDigit(s[1]))
  }

  /** `"([^"]*)"` matches a prefix: an opening quote and a later closing one. */
  predicate QuotedAt(s: string) {
    |s| > 0 && s[0] == '"' && '"' in s[1..]
  }

  /** `ident\s*=\s*` followed by the right-hand side `rhs`. Neither the
      name nor the spaces after it can hold an `=`, so the `=` the pattern
      matches is the first one in `s`: the text before it must be a name and
      spaces, and the text after it, once its leading spaces are skipped,
      must begin with the right-hand side. */
  predicate AssignAt(rhs: Pattern, s: string)
    requires rhs == Number || rhs == Quoted || rhs == AssignIdent
  {
    var parts := SplitOnce(s, '=');
    |parts| == 2 && NameThenSpaces(parts[0]) && RhsAt(rhs, TrimStart(parts[1]))
  }

  /** `[a-zA-Z_][a-zA-Z0-9_]*\s*` matches the whole of `x`. */
  predicate NameThenSpaces(x: string) {
    IdentAt(x) && TrimStart(SkipIdentChars(x[1..])) == []
  }

  /** The right-hand side of an assignment: a number, a string or a name. */
  predicate RhsAt(rhs: Pattern, v: string)
    requires rhs == Number || rhs == Quoted || rhs == AssignIdent
  {
    match rhs
    case Number => NumberAt(v)
    case Quoted => QuotedAt(v)
    case AssignIdent => IdentAt(v)
  }

  /** `kw\s+` matches at the start of `s`. */
  predicate KeywordAt(kw: string, s: string) {
    StartsWith(s, kw) && |s| > |kw| && IsSpace(s[|kw|])
  }

  function AfterKeyword(kw: string, s: string): string
    requires KeywordAt(kw, s)
  {
    TrimStart(s[|kw|..])
  }

  /** The keyword, one space and a word: the keyword matches and the word follows it. */
  lemma KeywordThen(kw: string, rest: string)
    requires |rest| > 0 && !IsSpace(rest[0])
    ensures KeywordAt(kw, kw + " " + rest) && AfterKeyword(kw, kw + " " + rest) == rest
  {
    var s := kw + " " + rest;
    assert s[..|kw|] == kw;
    assert s[|kw|..] == " " + rest;
    assert (" " + rest)[1..] == rest;
    assert TrimStart(rest) == rest;
  }

  /** `\s+<name>` matches a prefix of `t`, for any way of splitting the spaces. */
  predicate SpacesThen(t: string, name: string)
    decreases |t|
  {
    |t| > 0 && IsSpace(t[0]) && (StartsWith(t[1..], name) || SpacesThen(t[1..], name))
  }

  predicate BlockEndAt(name: string, s: string) {
    StartsWith(s, "FIM") && SpacesThen(s[3..], name)
  }

  /** Python's `re.match(p, s)`. */
  predicate MatchAt(p: Pattern, s: string) {
    match p
    case Number => NumberAt(s)
    case Quoted => QuotedAt(s)
    case AssignNumber => AssignAt(Number, s)
    case AssignString => AssignAt(Quoted, s)
    case AssignIdent => AssignAt(AssignIdent, s)
    case PrintPattern => KeywordAt("PRINT", s) && IdentAt(AfterKeyword("PRINT", s))
    case DeclaredNumber => KeywordAt("NUMERO", s) && AssignAt(Number, AfterKeyword("NUMERO", s))
    case UndeclaredNumber => KeywordAt("NUMERO", s) && IdentAt(AfterKeyword("NUMERO", s))
    case DeclaredString => KeywordAt("CADEIA", s) && AssignAt(Quoted, AfterKeyword("CADEIA", s))
    case UndeclaredString => KeywordAt("CADEIA", s) && IdentAt(AfterKeyword("CADEIA", s))
    case BlockEnd(name) => BlockEndAt(name, s)
  }

  /** JavaScript's `new RegExp(p).test(s)`. */
  predicate Search(p: Pattern, s: string)
    decreases |s|
  {
    MatchAt(p, s) || (|s| > 0 && Search(p, s[1..]))
  }

  /** A search succeeds at the offset where a match starts ... */
  lemma {:induction false} SearchFindsOffset(p: Pattern, s: string) returns (k: nat)
    requires Search(p, s)
    ensures k <= |s| && MatchAt(p, s[k..])
    decreases |s|
  {
    if MatchAt(p, s) {
      k := 0;
      assert s[0..] == s;
    } else {
      var k' := SearchFindsOffset(p, s[1..]);
      k := k' + 1;
      assert s[1..][k'..] == s[k..];
    }
  }

  /** ... and a match at any offset makes the search succeed. */
  lemma {:induction false} OffsetMakesSearch(p: Pattern, s: string, k: nat)
    requires k <= |s| && MatchAt(p, s[k..])
    ensures Search(p, s)
    decreases k
  {
    if k == 0 {
      assert s[0..] == s;
    } else {
      assert s[1..][k - 1..] == s[k..];
      OffsetMakesSearch(p, s[1..], k - 1);
    }
  }

  /** A pattern that begins with a keyword finds nothing in a line without it. */
  lemma {:induction false} SearchNeedsKeyword(p: Pattern, kw: string, s: string)
    requires forall t :: MatchAt(p, t) ==> StartsWith(t, kw)
    requires Search(p, s)
    ensures Contains(s, kw)
    decreases |s|
  {
    if !MatchAt(p, s) {
      SearchNeedsKeyword(p, kw, s[1..]);
    }
  }

  /** Unanchored, the number pattern finds a number wherever a digit occurs. */
  lemma {:induction false} SearchNumberIsSomeDigit(s: string)
    ensures Search(Number, s) <==> exists k :: 0 <= k < |s| && IsDigit(s[k])
    decreases |s|
  {
    if |s| > 0 {
      SearchNumberIsSomeDigit(s[1..]);
      if Search(Number, s[1..]) {
        var k :| 0 <= k < |s[1..]| && IsDigit(s[1..][k]);
        assert IsDigit(s[k + 1]);
      }
      if exists k :: 0 <= k < |s| && IsDigit(s[k]) {
        var k :| 0 <= k < |s| && IsDigit(s[k]);
        if k > 0 {
          assert IsDigit(s[1..][k - 1]);
        }
      }
      if NumberAt(s) && !IsDigit(s[0]) {
        assert IsDigit(s[1..][0]);
      }
    }
  }

  /** Unanchored, the string pattern finds a string wherever two quotes occur. */
  lemma {:induction false} SearchQuotedIsTwoQuotes(s: string)
    ensures Search(Quoted, s) <==> exists i, j :: 0 <= i < j < |s| && s[i] == '"' && s[j] == '"'
    decreases |s|
  {
    if |s| > 0 {
      SearchQuotedIsTwoQuotes(s[1..]);
      if Search(Quoted, s) {
        if QuotedAt(s) {
          var j :| 0 <= j < |s[1..]| && s[1..][j] == '"';
          assert s[0] == '"' && s[j + 1] == '"';
        } else {
          var i, j :| 0 <= i < j < |s[1..]| && s[1..][i] == '"' && s[1..][j] == '"';
          assert s[i + 1] == '"' && s[j + 1] == '"';
        }
      }
      if exists i, j :: 0 <= i < j < |s| && s[i] == '"' && s[j] == '"' {
        var i, j :| 0 <= i < j < |s| && s[i] == '"' && s[j] == '"';
        if i == 0 {
          assert s[1..][j - 1] == '"';
          assert QuotedAt(s);
        } else {
          assert s[1..][i - 1] == '"' && s[1..][j - 1] == '"';
        }
      }
    }
  }

  /** Every assignment-shaped line has an `=` in it, whichever way it is matched. */
  lemma AssignHasEquals(rhs: Pattern, s: string)
    requires rhs == Number || rhs == Quoted || rhs == AssignIdent
    requires AssignAt(rhs, s)
    ensures '=' in s
  {
  }

  lemma {:induction false} SearchAssignHasEquals(rhs: Pattern, s: string)
    requires rhs == AssignNumber || rhs == AssignString || rhs == AssignIdent
    requires Search(rhs, s)
    ensures '=' in s
    decreases |s|
  {
    if MatchAt(rhs, s) {
      AssignHasEquals(if rhs == AssignNumber then Number else if rhs == AssignString then Quoted else AssignIdent, s);
    } else {
      SearchAssignHasEquals(rhs, s[1..]);
      assert '=' in s[1..];
    }
  }
}
