/** The Python checker on SampleProgram.Program. For any block name,
    variable name and digit string (names without a capital B, so that no
    line but the first holds `BLOCO` and opens a block), the run opens `a`,
    declares `x` holding the digits in it, prints `x = <digits> em a` and
    closes `a`, ending with no scope open and nothing raised. */
module PyWalkthrough {
  import opened Text
  import opened Patterns
  import opened ScopeEngine
  import opened PyScopeManager
  import opened SampleProgram
  import PyProperties

  /** What the run prints: the opening banner, the value of `x`, the closing banner. */
  function Printed(a: string, x: string, d: string): seq<string> {
    ["\n*INICIO " + a + "*", x + " = " + d + " em " + a, "\n*FIM " + a + "*"]
  }

  /** The run of Program from the initial state: three lines of output. */
  lemma ProgramRun(a: string, x: string, d: string)
    requires Name(a) && Name(x) && Digits(d)
    ensures Run(InitialState, Program(a, x, d), 1) == (State([], [], Printed(a, x, d)), None)
  {
    var lines := Program(a, x, d);
    var s1 := OpenBlock(InitialState, a);
    OpenLine(lines[0], s1, a);
    RunContinues(InitialState, lines, 1, s1, None);
    assert lines[1..] == ["NUMERO " + x + " = " + d, "PRINT " + x, "FIM " + a];
    FromDeclaration(s1, a, x, d);
  }

  /** From the block just opened, the last three lines declare, print and close. */
  lemma FromDeclaration(s1: PyState, a: string, x: string, d: string)
    requires Name(a) && Name(x) && Digits(d) && s1 == OpenBlock(InitialState, a)
    ensures Run(s1, ["NUMERO " + x + " = " + d, "PRINT " + x, "FIM " + a], 2)
              == (State([], [], Printed(a, x, d)), None)
  {
    var lines := ["NUMERO " + x + " = " + d, "PRINT " + x, "FIM " + a];
    var s2 := s1.(scopes := [[Token(IdentifierKind, "NUMERO", x, d)]]);
    NameFacts(x);
    NameFacts(d);
    Normal(lines[0]);
    DeclareClassified(a, x, d);
    DeclareLine(s1, lines[0], s2, a, x, d);
    RunContinues(s1, lines, 2, s2, None);
    assert lines[1..] == ["PRINT " + x, "FIM " + a];
    FromPrint(s2, a, x, d);
  }

  /** With `x` declared, the last two lines print it and close the block. */
  lemma FromPrint(s2: PyState, a: string, x: string, d: string)
    requires Name(a) && Name(x) && Digits(d)
    requires s2 == OpenBlock(InitialState, a).(scopes := [[Token(IdentifierKind, "NUMERO", x, d)]])
    ensures Run(s2, ["PRINT " + x, "FIM " + a], 3) == (State([], [], Printed(a, x, d)), None)
  {
    var lines := ["PRINT " + x, "FIM " + a];
    var s3 := s2.(output := s2.output + [x + " = " + d + " em " + a]);
    PrintLine(s2, lines[0], s3, a, x, d);
    CloseLine(s3, lines[1], a);
    TwoLines(s2, lines[0], lines[1], 3, s3, CloseBlock(s3));
    ClosesPrinted(s2, a, x, d);
  }

  /** Closing the block after the value is printed leaves the three lines. */
  lemma ClosesPrinted(s2: PyState, a: string, x: string, d: string)
    requires s2 == OpenBlock(InitialState, a).(scopes := [[Token(IdentifierKind, "NUMERO", x, d)]])
    ensures CloseBlock(s2.(output := s2.output + [x + " = " + d + " em " + a]))
              == State([], [], Printed(a, x, d))
  {
  }

  /** A run of two lines that both go through. */
  lemma TwoLines(st: PyState, l1: string, l2: string, n: nat, mid: PyState, fin: PyState)
    requires Step(st, l1, n) == Next(mid) && Step(mid, l2, n + 1) == Next(fin)
    ensures Run(st, [l1, l2], n) == (fin, None)
  {
    RunContinues(st, [l1, l2], n, mid, None);
    assert [l1, l2][1..] == [l2];
    RunContinues(mid, [l2], n + 1, fin, None);
    assert [l2][1..] == [];
  }

  /** A line with no whitespace at either end and no newline is its own normal form. */
  lemma Normal(line: string)
    requires |line| > 0 && !IsSpace(line[0]) && !IsSpace(Last(line)) && '\n' !in line
    ensures Normalize(line) == line
  {
    StripUntouched(line);
  }

  /** `BLOCO a` opens `a`. */
  lemma OpenLine(line: string, s1: PyState, a: string)
    requires Name(a) && line == "BLOCO " + a && s1 == OpenBlock(InitialState, a)
    ensures Step(InitialState, line, 1) == Next(s1)
  {
    NameFacts(a);
    Normal(line);
    assert line[..5] == "BLOCO";
    assert Classify(line, []) == BlockOpen;
    assert line == "BLOCO" + [' '] + a;
    SplitPair("BLOCO", a, ' ');
  }

  /** `NUMERO x = d` declares `x` holding `d` in the block just opened. */
  lemma DeclareLine(s1: PyState, line: string, s2: PyState, a: string, x: string, d: string)
    requires Name(a) && Name(x) && Digits(d) && s1 == OpenBlock(InitialState, a)
    requires line == "NUMERO " + x + " = " + d
    requires s2 == s1.(scopes := [[Token(IdentifierKind, "NUMERO", x, d)]])
    ensures Step(s1, line, 2) == Next(s2)
  {
    NameFacts(x);
    NameFacts(d);
    Normal(line);
    DeclareClassified(a, x, d);
    assert Step(s1, line, 2) == StepDeclareInit(s1, line);
    DeclaresOne(s1, a, x, d);
  }

  lemma DeclaresOne(s1: PyState, a: string, x: string, d: string)
    requires Name(a) && Name(x) && Digits(d) && s1 == OpenBlock(InitialState, a)
    ensures StepDeclareInit(s1, "NUMERO " + x + " = " + d)
              == Next(s1.(scopes := [[Token(IdentifierKind, "NUMERO", x, d)]]))
  {
    var line := "NUMERO " + x + " = " + d;
    var t := Token(IdentifierKind, "NUMERO", x, d);
    var head := SplitOnce(line, ' ');
    var items := DeclarationItems(line, x + " = " + d);
    DeclarationHead(x, d);
    assert head == ["NUMERO", x + " = " + d] && items == [x + " = " + d];
    var toks := DeclarationTokens("NUMERO", items);
    assert toks == [t] by {
      OneToken(x, d);
    }
    assert |s1.scopes| == 1 && Last(s1.scopes) == [];
    assert StepDeclareInit(s1, line) == Next(s1.(scopes := ReplaceTop(s1.scopes, DeclareAll([], [t]))));
    assert DeclareAll([], [t]) == [t] by {
      assert DropLast([t]) == [] && Last([t]) == t;
    }
    assert ReplaceTop(s1.scopes, [t]) == [[t]];
  }

  /** The one item `x = d` is the one token `x` holding `d`. */
  lemma OneToken(x: string, d: string)
    requires Name(x) && Digits(d)
    ensures DeclarationTokens("NUMERO", [x + " = " + d]) == [Token(IdentifierKind, "NUMERO", x, d)]
  {
    var toks := DeclarationTokens("NUMERO", [x + " = " + d]);
    ItemToken(x, d);
    assert |toks| == 1 && toks[0] == DeclarationToken("NUMERO", x + " = " + d);
  }

  lemma DeclarationHead(x: string, d: string)
    requires Name(x) && Digits(d)
    ensures SplitOnce("NUMERO " + x + " = " + d, ' ') == ["NUMERO", x + " = " + d]
    ensures DeclarationItems("NUMERO " + x + " = " + d, x + " = " + d) == [x + " = " + d]
  {
    NameFacts(x);
    NameFacts(d);
    assert "NUMERO " + x + " = " + d == "NUMERO" + [' '] + (x + " = " + d);
    SplitOnceAt("NUMERO", x + " = " + d, ' ');
  }

  /** The one item `x = d` becomes `x` holding `d`. */
  lemma ItemToken(x: string, d: string)
    requires Name(x) && Digits(d)
    ensures DeclarationToken("NUMERO", x + " = " + d) == Token(IdentifierKind, "NUMERO", x, d)
  {
    NameFacts(x);
    NameFacts(d);
    assert x + " = " + d == (x + " ") + "=" + (" " + d);
    PyProperties.ItemWithValue("NUMERO", x + " ", " " + d);
    SpacedStrips(x, d);
  }

  lemma DeclareClassified(a: string, x: string, d: string)
    requires Name(a) && Name(x) && Digits(d)
    ensures Classify("NUMERO " + x + " = " + d, [a]) == DeclareWithInit
  {
    var line := "NUMERO " + x + " = " + d;
    NameFacts(x);
    NameFacts(d);
    AbsentFirstChar(line, "BLOCO");
    assert !Fits(BlockOpen, line, [a]);
    assert line[..3] != "FIM" by { assert line[..3][0] == 'N'; }
    assert !Fits(BlockClose, line, [a]);
    DeclarationMatches(x, d);
    assert Fits(DeclareWithInit, line, [a]);
  }

  /** `PRINT x` prints `x`'s value and the block's name. */
  lemma PrintLine(s2: PyState, line: string, s3: PyState, a: string, x: string, d: string)
    requires Name(a) && Name(x) && Digits(d)
    requires s2 == OpenBlock(InitialState, a).(scopes := [[Token(IdentifierKind, "NUMERO", x, d)]])
    requires line == "PRINT " + x && s3 == s2.(output := s2.output + [x + " = " + d + " em " + a])
    ensures Step(s2, line, 3) == Next(s3)
  {
    NameFacts(x);
    Normal(line);
    PrintClassified(a, x);
    assert Step(s2, line, 3) == StepPrint(s2, line, 3);
    PrintsValue(s2, a, x, d);
  }

  lemma PrintsValue(s2: PyState, a: string, x: string, d: string)
    requires Name(x)
    requires s2 == OpenBlock(InitialState, a).(scopes := [[Token(IdentifierKind, "NUMERO", x, d)]])
    ensures StepPrint(s2, "PRINT " + x, 3) == Next(s2.(output := s2.output + [x + " = " + d + " em " + a]))
  {
    NameFacts(x);
    assert "PRINT " + x == "PRINT" + [' '] + x;
    SplitPair("PRINT", x, ' ');
    var t := Token(IdentifierKind, "NUMERO", x, d);
    assert Resolve(s2.scopes, x) == Some(t) by {
      var none: seq<Scope<string>> := [[]];
      assert Last(none) + [t] == [t];
      assert s2.scopes == PushTop(none, t);
      NewTopTokenResolves(none, t);
    }
  }

  lemma PrintClassified(a: string, x: string)
    requires Name(a) && Name(x)
    ensures Classify("PRINT " + x, [a]) == PrintStmt
  {
    var line := "PRINT " + x;
    NameFacts(x);
    AbsentFirstChar(line, "BLOCO");
    assert !Fits(BlockOpen, line, [a]);
    assert line[..3] != "FIM" by { assert line[..3][0] == 'P'; }
    assert !Fits(BlockClose, line, [a]);
    assert !StartsWith(line, "NUMERO") by { assert line[0] == 'P'; }
    assert !StartsWith(line, "CADEIA") by { assert line[0] == 'P'; }
    assert !Fits(DeclareWithInit, line, [a]);
    assert !Fits(DeclareBare, line, [a]);
    assert '=' !in line;
    assert !Fits(CopyAssign, line, [a]);
    assert !Fits(LiteralAssign, line, [a]);
    assert line == "PRINT" + " " + x;
    KeywordThen("PRINT", x);
    assert Fits(PrintStmt, line, [a]);
  }

  /** `FIM a` closes `a`. */
  lemma CloseLine(s3: PyState, line: string, a: string)
    requires Name(a) && |s3.blocks| > 0 && Last(s3.blocks) == a && line == "FIM " + a
    ensures Step(s3, line, 4) == Next(CloseBlock(s3))
  {
    NameFacts(a);
    Normal(line);
    CloseClassified(s3.blocks, a);
  }

  lemma CloseClassified(blocks: seq<string>, a: string)
    requires Name(a) && |blocks| > 0 && Last(blocks) == a
    ensures Classify("FIM " + a, blocks) == BlockClose
  {
    var line := "FIM " + a;
    NameFacts(a);
    AbsentFirstChar(line, "BLOCO");
    assert !Fits(BlockOpen, line, blocks);
    assert line[..3] == "FIM";
    assert line[3..] == " " + a;
    assert (" " + a)[1..] == a;
    assert BlockEndAt(a, line);
    assert Fits(BlockClose, line, blocks);
  }
}
