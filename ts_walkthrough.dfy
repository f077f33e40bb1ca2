/** The TypeScript checker on SampleProgram.Program. Each line takes the branch its Python twin takes, but `split(" ", 2)`
    cuts the declaration to `NUMERO` and `x`, so `x` is declared holding
    "0", and `PRINT x` then logs `x = 0 em a` where the Python checker
    prints the digits. Every pattern is searched for anywhere in the line,
    so the variable name is kept free of capital letters: no line then
    holds a keyword of another branch. */
module TsWalkthrough {
  import opened Text
  import opened Patterns
  import opened ScopeEngine
  import opened TsScopeManager
  import TsFindings
  import opened SampleProgram

  /** A fresh checker: no scope, no block, nothing logged. */
  const Start: TsState := State([], [], [])

  /** What the run logs: the opening banner, `x` holding "0", the closing banner. */
  function Logged(a: string, x: string): seq<string> {
    ["\n*INICIO " + a + "*", x + " = 0 em " + a, "\n*FIM " + a + "*"]
  }

  /** The run of Program from a fresh checker: `x = 0 em a` is logged where
      the Python checker prints `x = <digits> em a`. */
  lemma ProgramRun(a: string, x: string, d: string)
    requires Name(a) && LowerName(x) && Digits(d)
    ensures Run(Start, Program(a, x, d)) == (State([], [], Logged(a, x)), None)
  {
    var lines := Program(a, x, d);
    var s1 := OpenBlock(Start, a);
    NameFacts(a);
    Normal(lines[0]);
    OpenLine(a);
    RunContinues(Start, lines, s1, None);
    assert lines[1..] == ["NUMERO " + x + " = " + d, "PRINT " + x, "FIM " + a];
    FromDeclaration(s1, a, x, d);
  }

  /** From the block just opened, the last three lines declare, log and close. */
  lemma FromDeclaration(s1: TsState, a: string, x: string, d: string)
    requires Name(a) && LowerName(x) && Digits(d) && s1 == OpenBlock(Start, a)
    ensures Run(s1, ["NUMERO " + x + " = " + d, "PRINT " + x, "FIM " + a]) == (State([], [], Logged(a, x)), None)
  {
    var lines := ["NUMERO " + x + " = " + d, "PRINT " + x, "FIM " + a];
    var s2 := s1.(scopes := [[Token(IdentifierKind, "NUMERO", Str(x), "0")]]);
    NameFacts(x);
    NameFacts(d);
    Normal(lines[0]);
    DeclareClassified(a, x, d);
    DeclareLine(s1, a, x, d);
    RunContinues(s1, lines, s2, None);
    assert lines[1..] == ["PRINT " + x, "FIM " + a];
    FromPrint(s2, a, x);
  }

  /** With `x` declared holding "0", the last two lines log it and close the block. */
  lemma FromPrint(s2: TsState, a: string, x: string)
    requires Name(a) && LowerName(x)
    requires s2 == OpenBlock(Start, a).(scopes := [[Token(IdentifierKind, "NUMERO", Str(x), "0")]])
    ensures Run(s2, ["PRINT " + x, "FIM " + a]) == (State([], [], Logged(a, x)), None)
  {
    var lines := ["PRINT " + x, "FIM " + a];
    var s3 := s2.(output := s2.output + [x + " = 0 em " + a]);
    PrintLine(s2, a, x);
    CloseLine(s3, a);
    TwoLines(s2, lines[0], lines[1], s3, CloseBlock(s3));
    ClosesLogged(s2, a, x);
  }

  /** A run of two lines that both go through. */
  lemma TwoLines(st: TsState, l1: string, l2: string, mid: TsState, fin: TsState)
    requires Step(st, l1) == Next(mid) && Step(mid, l2) == Next(fin)
    ensures Run(st, [l1, l2]) == (fin, None)
  {
    RunContinues(st, [l1, l2], mid, None);
    assert [l1, l2][1..] == [l2];
    RunContinues(mid, [l2], fin, None);
    assert [l2][1..] == [];
  }

  /** Closing the block after the value is logged leaves the three lines. */
  lemma ClosesLogged(s2: TsState, a: string, x: string)
    requires s2 == OpenBlock(Start, a).(scopes := [[Token(IdentifierKind, "NUMERO", Str(x), "0")]])
    ensures CloseBlock(s2.(output := s2.output + [x + " = 0 em " + a])) == State([], [], Logged(a, x))
  {
  }

  /** A name with no capital letter. */
  predicate LowerName(w: string) {
    Name(w) && forall i :: 0 <= i < |w| ==> !('A' <= w[i] <= 'Z')
  }

  lemma LowerFacts(w: string)
    requires LowerName(w) || Digits(w)
    ensures 'C' !in w && 'F' !in w && 'N' !in w
  {
  }

  /** A line with no whitespace at either end and no newline is its own normal form. */
  lemma Normal(line: string)
    requires |line| > 0 && !IsSpace(line[0]) && !IsSpace(Last(line)) && '\n' !in line
    ensures Normalize(line) == line
  {
    StripUntouched(line);
  }

  /** `BLOCO a` opens `a`. */
  lemma OpenLine(a: string)
    requires Name(a)
    ensures Step(Start, "BLOCO " + a) == Next(OpenBlock(Start, a))
  {
    var line := "BLOCO " + a;
    NameFacts(a);
    Normal(line);
    assert line[..5] == "BLOCO";
    assert Classify(line, []) == BlockOpen;
    assert line == "BLOCO" + [' '] + a;
    SplitPair("BLOCO", a, ' ');
  }

  /** `NUMERO x = d`, as written, declares `x` holding "0". */
  lemma DeclareLine(s1: TsState, a: string, x: string, d: string)
    requires Name(a) && LowerName(x) && Digits(d) && s1 == OpenBlock(Start, a)
    ensures Step(s1, "NUMERO " + x + " = " + d)
              == Next(s1.(scopes := [[Token(IdentifierKind, "NUMERO", Str(x), "0")]]))
  {
    var line := "NUMERO " + x + " = " + d;
    NameFacts(x);
    NameFacts(d);
    Normal(line);
    DeclareClassified(a, x, d);
    assert Step(s1, line) == StepDeclareInit(s1, line);
    DeclaresZero(s1, a, x, d);
  }

  lemma DeclaresZero(s1: TsState, a: string, x: string, d: string)
    requires Name(a) && LowerName(x) && Digits(d) && s1 == OpenBlock(Start, a)
    ensures StepDeclareInit(s1, "NUMERO " + x + " = " + d)
              == Next(s1.(scopes := [[Token(IdentifierKind, "NUMERO", Str(x), "0")]]))
  {
    NameFacts(x);
    NameFacts(d);
    assert "NUMERO " + x + " = " + d == TsFindings.SpacedDeclaration("NUMERO", x, d);
    TsFindings.SpacedDeclarationDropsValue(s1, "NUMERO", x, d);
    var t := Token(IdentifierKind, "NUMERO", Str(x), "0");
    assert DeclareIfAbsent(Last(s1.scopes), t) == [t];
  }

  lemma DeclareClassified(a: string, x: string, d: string)
    requires Name(a) && LowerName(x) && Digits(d)
    ensures Classify("NUMERO " + x + " = " + d, [a]) == DeclareWithInit
  {
    var line := "NUMERO " + x + " = " + d;
    NameFacts(x);
    NameFacts(d);
    LowerFacts(x);
    LowerFacts(d);
    AbsentFirstChar(line, "BLOCO");
    assert !Fits(BlockOpen, line, [a]);
    NoBlockEnd(a, line);
    assert !Fits(BlockClose, line, [a]);
    DeclarationMatches(x, d);
    OffsetMakesSearch(DeclaredNumber, line, 0);
    assert Fits(DeclareWithInit, line, [a]);
  }

  /** `FIM` cannot be found in a line without an F. */
  lemma NoBlockEnd(a: string, line: string)
    requires 'F' !in line
    ensures !Search(BlockEnd(a), line)
  {
    AbsentFirstChar(line, "FIM");
    if Search(BlockEnd(a), line) {
      SearchNeedsKeyword(BlockEnd(a), "FIM", line);
    }
  }

  /** `PRINT x` prints `x`'s value and the block's name. */
  lemma PrintLine(s2: TsState, a: string, x: string)
    requires Name(a) && LowerName(x)
    requires s2 == OpenBlock(Start, a).(scopes := [[Token(IdentifierKind, "NUMERO", Str(x), "0")]])
    ensures Step(s2, "PRINT " + x) == Next(s2.(output := s2.output + [x + " = 0 em " + a]))
  {
    var line := "PRINT " + x;
    NameFacts(x);
    Normal(line);
    PrintClassified(a, x);
    assert Step(s2, line) == Next(StepPrint(s2, line));
    PrintsValue(s2, a, x);
  }

  lemma PrintsValue(s2: TsState, a: string, x: string)
    requires Name(x)
    requires s2 == OpenBlock(Start, a).(scopes := [[Token(IdentifierKind, "NUMERO", Str(x), "0")]])
    ensures StepPrint(s2, "PRINT " + x) == s2.(output := s2.output + [x + " = 0 em " + a])
  {
    NameFacts(x);
    assert "PRINT " + x == "PRINT" + [' '] + x;
    SplitPair("PRINT", x, ' ');
    assert x + " = " + "0" + " em " + a == x + " = 0 em " + a;
    var t := Token(IdentifierKind, "NUMERO", Str(x), "0");
    assert Resolve(s2.scopes, Str(x)) == Some(t) by {
      var none: seq<Scope<JsName>> := [[]];
      assert Last(none) + [t] == [t];
      assert s2.scopes == PushTop(none, t);
      NewTopTokenResolves(none, t);
    }
  }

  lemma PrintClassified(a: string, x: string)
    requires Name(a) && LowerName(x)
    ensures Classify("PRINT " + x, [a]) == PrintStmt
  {
    var line := "PRINT " + x;
    NameFacts(x);
    LowerFacts(x);
    AbsentFirstChar(line, "BLOCO");
    assert !Fits(BlockOpen, line, [a]);
    NoBlockEnd(a, line);
    assert !Fits(BlockClose, line, [a]);
    PrintDeclaresNothing(a, x);
    PrintAssignsNothing(a, x);
    PrintFits(a, x);
  }

  /** `PRINT x` holds no `=`, so no assignment fits it. */
  lemma PrintAssignsNothing(a: string, x: string)
    requires Name(x)
    ensures !Fits(CopyAssign, "PRINT " + x, [a]) && !Fits(LiteralAssign, "PRINT " + x, [a])
  {
    var line := "PRINT " + x;
    NameFacts(x);
    assert '=' !in line;
    NoAssignment(line);
  }

  lemma PrintFits(a: string, x: string)
    requires Name(x)
    ensures Fits(PrintStmt, "PRINT " + x, [a])
  {
    var line := "PRINT " + x;
    NameFacts(x);
    assert line == "PRINT" + " " + x;
    KeywordThen("PRINT", x);
    OffsetMakesSearch(PrintPattern, line, 0);
  }

  /** `PRINT x` holds neither `NUMERO` nor `CADEIA`, so no declaration fits it. */
  lemma PrintDeclaresNothing(a: string, x: string)
    requires LowerName(x)
    ensures !Fits(DeclareWithInit, "PRINT " + x, [a]) && !Fits(DeclareBare, "PRINT " + x, [a])
  {
    var line := "PRINT " + x;
    NameFacts(x);
    LowerFacts(x);
    NoNumero(x);
    AbsentFirstChar(line, "CADEIA");
    NoKeyword(DeclaredNumber, "NUMERO", line);
    NoKeyword(UndeclaredNumber, "NUMERO", line);
    NoKeyword(DeclaredString, "CADEIA", line);
    NoKeyword(UndeclaredString, "CADEIA", line);
  }

  /** A declaration pattern finds nothing in a line without its keyword. */
  lemma NoKeyword(p: Pattern, kw: string, line: string)
    requires ((p == DeclaredNumber || p == UndeclaredNumber) && kw == "NUMERO")
          || ((p == DeclaredString || p == UndeclaredString) && kw == "CADEIA")
    requires !Contains(line, kw)
    ensures !Search(p, line)
  {
    if Search(p, line) {
      SearchNeedsKeyword(p, kw, line);
    }
  }

  /** No assignment pattern finds anything in a line without `=`. */
  lemma NoAssignment(line: string)
    requires '=' !in line
    ensures !Search(AssignIdent, line) && !Search(AssignNumber, line) && !Search(AssignString, line)
  {
    if Search(AssignIdent, line) {
      SearchAssignHasEquals(AssignIdent, line);
    }
    if Search(AssignNumber, line) {
      SearchAssignHasEquals(AssignNumber, line);
    }
    if Search(AssignString, line) {
      SearchAssignHasEquals(AssignString, line);
    }
  }

  /** The only N of `PRINT x` is PRINT's own, which `NUMERO` cannot start at. */
  lemma NoNumero(x: string)
    requires 'N' !in x
    ensures !Contains("PRINT " + x, "NUMERO")
  {
    var line := "PRINT " + x;
    forall k | 0 <= k <= |line|
      ensures !StartsWith(line[k..], "NUMERO")
    {
      if k + 6 <= |line| {
        var w := line[k..][..6];
        assert w[0] == line[k] && w[1] == line[k + 1];
        assert line[k] == (if k < 6 then "PRINT "[k] else x[k - 6]);
        assert line[k + 1] == (if k + 1 < 6 then "PRINT "[k + 1] else x[k - 5]);
      }
    }
    ContainsAtOffset(line, "NUMERO");
  }

  /** `FIM a` closes `a`. */
  lemma CloseLine(s3: TsState, a: string)
    requires Name(a) && |s3.blocks| > 0 && Last(s3.blocks) == a
    ensures Step(s3, "FIM " + a) == Next(CloseBlock(s3))
  {
    NameFacts(a);
    Normal("FIM " + a);
    CloseClassified(s3.blocks, a);
  }

  lemma CloseClassified(blocks: seq<string>, a: string)
    requires Name(a) && |blocks| > 0 && Last(blocks) == a
    ensures Classify("FIM " + a, blocks) == BlockClose
  {
    var line := "FIM " + a;
    NameFacts(a);
    AbsentFirstChar(line, "BLOCO");
    assert !Fits(BlockOpen, line, blocks);
    assert line[..3] == "FIM";
    assert line[3..] == " " + a;
    assert (" " + a)[1..] == a;
    assert MatchAt(BlockEnd(a), line);
    OffsetMakesSearch(BlockEnd(a), line, 0);
    assert Fits(BlockClose, line, blocks);
  }
}
