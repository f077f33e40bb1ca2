/** A four-line program in the usual spacing `TYPE name = value`, for any
    block name `a`, variable name `x` and digit string `d`:

      BLOCO <a>
      NUMERO <x> = <d>
      PRINT <x>
      FIM <a>

    and the facts about the shape of its lines that both checkers read. */
module SampleProgram {
  import opened Text
  import opened Patterns

  /** `[a-zA-Z_][a-zA-Z0-9_]*`, without a capital B. */
  predicate Name(w: string) {
    |w| > 0 && IsIdentStart(w[0]) && forall i :: 0 <= i < |w| ==> IsIdentChar(w[i]) && w[i] != 'B'
  }

  /** `\d+` */
  predicate Digits(d: string) {
    |d| > 0 && forall i :: 0 <= i < |d| ==> IsDigit(d[i])
  }

  function Program(a: string, x: string, d: string): seq<string> {
    ["BLOCO " + a, "NUMERO " + x + " = " + d, "PRINT " + x, "FIM " + a]
  }

  /** What a name or a digit string cannot hold. */
  lemma NameFacts(w: string)
    requires Name(w) || Digits(w)
    ensures ' ' !in w && '=' !in w && ',' !in w && '\n' !in w && 'B' !in w && '"' !in w
    ensures !IsSpace(w[0]) && !IsSpace(Last(w))
  {
  }

  lemma DeclarationMatches(x: string, d: string)
    requires Name(x) && Digits(d)
    ensures MatchAt(DeclaredNumber, "NUMERO " + x + " = " + d)
  {
    var rest := x + " = " + d;
    assert "NUMERO " + x + " = " + d == "NUMERO" + " " + rest;
    KeywordThen("NUMERO", rest);
    AssignmentShape(x, d);
  }

  /** `x = d` is an assignment of a number to a name, cut at its `=`. */
  lemma AssignmentShape(x: string, d: string)
    requires Name(x) && Digits(d)
    ensures SplitOnce(x + " = " + d, '=') == [x + " ", " " + d]
    ensures AssignAt(Number, x + " = " + d)
  {
    NameFacts(x);
    assert x + " = " + d == (x + " ") + ['='] + (" " + d);
    SplitOnceAt(x + " ", " " + d, '=');
    NameThenSpace(x);
    SpaceThenDigits(d);
  }

  lemma NameThenSpace(x: string)
    requires Name(x)
    ensures NameThenSpaces(x + " ")
  {
    assert (x + " ")[1..] == x[1..] + " ";
    SkipNameThenSpace(x[1..]);
  }

  lemma SpaceThenDigits(d: string)
    requires Digits(d)
    ensures TrimStart(" " + d) == d && NumberAt(d)
  {
    assert (" " + d)[1..] == d;
    assert TrimStart(d) == d;
  }

  /** The identifier characters of a name run up to the space after it. */
  lemma {:induction false} SkipNameThenSpace(w: string)
    requires forall i :: 0 <= i < |w| ==> IsIdentChar(w[i])
    ensures SkipIdentChars(w + " ") == " "
    decreases |w|
  {
    var s := w + " ";
    if |w| == 0 {
      assert s == " " && !IsIdentChar(s[0]);
    } else {
      assert s[0] == w[0] && IsIdentChar(s[0]);
      assert s[1..] == w[1..] + " ";
      assert SkipIdentChars(s) == SkipIdentChars(s[1..]);
      SkipNameThenSpace(w[1..]);
    }
  }

  /** Trimming `x ` and ` d` gives `x` and `d`. */
  lemma SpacedStrips(x: string, d: string)
    requires Name(x) && Digits(d)
    ensures Strip(x + " ") == x && Strip(" " + d) == d
  {
    TrailingSpaceStrips(x);
    LeadingSpaceStrips(d);
  }

  /** A name followed by a space trims to the name. */
  lemma TrailingSpaceStrips(x: string)
    requires Name(x)
    ensures Strip(x + " ") == x
  {
    NameFacts(x);
    var s := x + " ";
    assert s[0] == x[0] && !IsSpace(s[0]);
    assert TrimStart(s) == s;
    assert s[..|s| - 1] == x && IsSpace(s[|s| - 1]);
    assert TrimEnd(s) == TrimEnd(x);
    assert TrimEnd(x) == x by {
      assert !IsSpace(x[|x| - 1]);
    }
  }

  /** A space followed by digits trims to the digits. */
  lemma LeadingSpaceStrips(d: string)
    requires Digits(d)
    ensures Strip(" " + d) == d
  {
    NameFacts(d);
    var s := " " + d;
    assert s[1..] == d && IsSpace(s[0]);
    assert TrimStart(s) == TrimStart(d);
    assert TrimStart(d) == d by {
      assert !IsSpace(d[0]);
    }
    assert TrimEnd(d) == d by {
      assert !IsSpace(d[|d| - 1]);
    }
  }

}
