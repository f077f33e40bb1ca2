/** Two places where the TypeScript checker, as written, does something its
    authors evidently did not mean, each shown on a concrete line and set
    beside a corrected definition with the intended property proved.

    1. `line.split(" ", 2)` (ScopeManager.ts lines 95 and 116) keeps only
       the first two space-separated words, so in `NUMERO x = 1` the `rest`
       is just `x`: the value is lost and `x` holds "0". The Python twin
       cuts at the first space only (`split(" ", 1)`), keeping `x = 1`.
    2. `new RegExp(regex_number).test(value_a)` (lines 173 and 192) is not
       anchored, so any value with a digit somewhere passes as a number:
       `x = "a1"` declares `x` as NUMERO, and a NUMERO variable accepts the
       string. The Python twin anchors the test at the value's start. */
module TsFindings {
  import opened Text
  import opened Patterns
  import opened ScopeEngine
  import opened TsScopeManager
  import TsProperties

  // ------------------------------------------------------------ split(" ", 2)

  /** A word of a declaration: non-empty, no whitespace at either end, and
      none of the characters the line is cut at. */
  predicate Word(w: string) {
    |w| > 0 && !IsSpace(w[0]) && !IsSpace(Last(w)) && ' ' !in w && '=' !in w && ',' !in w
  }

  /** `<type> <name> = <value>`, in the usual spacing `TYPE name = value`. */
  function SpacedDeclaration(ty: string, name: string, value: string): string {
    ty + " " + name + " = " + value
  }

  lemma WordIsStripped(w: string)
    requires Word(w)
    ensures Strip(w) == w
  {
    assert TrimStart(w) == w;
    assert TrimEnd(w) == w;
  }

  lemma WordThenSpaceStrips(w: string)
    requires Word(w)
    ensures Strip(w + " ") == w
  {
    assert TrimStart(w + " ") == w + " ";
    assert (w + " ")[..|w|] == w;
    assert TrimEnd(w) == w;
  }

  lemma SpaceThenWordStrips(w: string)
    requires Word(w)
    ensures Strip(" " + w) == w
  {
    assert (" " + w)[1..] == w;
    assert TrimStart(w) == w;
    assert TrimEnd(w) == w;
  }

  /** As written: the spaced declaration declares the name holding "0". */
  lemma SpacedDeclarationDropsValue(st: TsState, ty: string, name: string, value: string)
    requires Word(ty) && Word(name) && Word(value) && |st.scopes| > 0
    ensures var t := Token(IdentifierKind, ty, Str(name), "0");
            StepDeclareInit(st, SpacedDeclaration(ty, name, value))
              == Next(st.(scopes := ReplaceTop(st.scopes, DeclareIfAbsent(Last(st.scopes), t))))
  {
    var line := SpacedDeclaration(ty, name, value);
    WrittenHead(ty, name, value);
    var t := Token(IdentifierKind, ty, Str(name), "0");
    WordToken(ty, name);
    SingleItem(line, name);
    assert DeclarationTokens(ty, [name]) == [t];
    DeclareOne(st, t);
  }

  /** `split(" ", 2)` of the spaced declaration: the type and the name only. */
  lemma WrittenHead(ty: string, name: string, value: string)
    requires Word(ty) && Word(name) && Word(value)
    ensures SplitLimit(SpacedDeclaration(ty, name, value), ' ', 2) == [ty, name]
    ensures ',' !in SpacedDeclaration(ty, name, value)
  {
    var tail := "=" + [' '] + value;
    assert SpacedDeclaration(ty, name, value) == ty + [' '] + (name + [' '] + tail);
    SplitAtFirst(ty, name + [' '] + tail, ' ');
    SplitAtFirst(name, tail, ' ');
    var parts := Split(SpacedDeclaration(ty, name, value), ' ');
    assert parts == [ty] + ([name] + Split(tail, ' '));
    assert parts[..2] == [ty, name];
    assert ',' !in tail;
  }

  /** A word alone declares itself holding "0": `value || "0"`. */
  lemma WordToken(ty: string, name: string)
    requires Word(name)
    ensures DeclarationToken(ty, name) == Token(IdentifierKind, ty, Str(name), "0")
  {
    SplitWithout(name, '=');
    WordIsStripped(name);
    assert StripAll([name]) == [name];
  }

  lemma SingleItem(line: string, rest: string)
    requires ',' !in line
    ensures DeclarationItems(line, rest) == [rest]
  {
  }

  lemma DeclareOne(st: TsState, t: Token<JsName>)
    requires |st.scopes| > 0
    ensures DeclareInTop(st, [t]) == Next(st.(scopes := ReplaceTop(st.scopes, DeclareIfAbsent(Last(st.scopes), t))))
  {
    assert DropLast([t]) == [] && Last([t]) == t;
    assert DeclareAll(Last(st.scopes), [t]) == DeclareIfAbsent(Last(st.scopes), t);
  }

  /** Corrected: `rest` is everything after the first space, as
      `line.split(" ", 1)` gives it in the Python twin. */
  function StepDeclareInitIntended(st: TsState, line: string): Outcome<JsName> {
    var head := SplitOnce(line, ' ');
    if |head| < 2 then Crash(MissingOperand)
    else DeclareInTop(st, DeclarationTokens(head[0], DeclarationItems(line, head[1])))
  }

  /** Corrected, the spaced declaration declares the name holding its value. */
  lemma IntendedDeclarationKeepsValue(st: TsState, ty: string, name: string, value: string)
    requires Word(ty) && Word(name) && Word(value) && |st.scopes| > 0
    ensures var t := Token(IdentifierKind, ty, Str(name), value);
            StepDeclareInitIntended(st, SpacedDeclaration(ty, name, value))
              == Next(st.(scopes := ReplaceTop(st.scopes, DeclareIfAbsent(Last(st.scopes), t))))
  {
    var line := SpacedDeclaration(ty, name, value);
    var rest := name + " = " + value;
    IntendedHead(ty, name, value);
    WrittenHead(ty, name, value);
    var t := Token(IdentifierKind, ty, Str(name), value);
    AssignmentToken(ty, name, value);
    SingleItem(line, rest);
    assert DeclarationTokens(ty, [rest]) == [t];
    DeclareOne(st, t);
  }

  /** `split(" ", 1)` of the spaced declaration: the type and the whole assignment. */
  lemma IntendedHead(ty: string, name: string, value: string)
    requires Word(ty)
    ensures SplitOnce(SpacedDeclaration(ty, name, value), ' ') == [ty, name + " = " + value]
  {
    assert SpacedDeclaration(ty, name, value) == ty + [' '] + (name + " = " + value);
    SplitOnceAt(ty, name + " = " + value, ' ');
  }

  /** `name = value` declares the name holding the value. */
  lemma AssignmentToken(ty: string, name: string, value: string)
    requires Word(name) && Word(value)
    ensures DeclarationToken(ty, name + " = " + value) == Token(IdentifierKind, ty, Str(name), value)
  {
    SpacedAssignmentOperands(name, value);
  }

  /** `a = v` with both sides words: cutting at `=` and trimming gives the two sides. */
  lemma SpacedAssignmentOperands(a: string, v: string)
    requires Word(a) && Word(v)
    ensures '=' in a + " = " + v
    ensures StripAll(Split(a + " = " + v, '=')) == [a, v]
  {
    SpacedAssignmentSplit(a, v);
    SpacedSidesStrip(a, v);
  }

  /** Trimming the two spaced sides gives the two words back. */
  lemma SpacedSidesStrip(a: string, v: string)
    requires Word(a) && Word(v)
    ensures StripAll([a + " ", " " + v]) == [a, v]
  {
    StripAllPair(a + " ", " " + v);
    WordThenSpaceStrips(a);
    SpaceThenWordStrips(v);
  }

  /** `a = v` with both sides words cuts at `=` into the two spaced sides. */
  lemma SpacedAssignmentSplit(a: string, v: string)
    requires Word(a) && Word(v)
    ensures '=' in a + " = " + v
    ensures Split(a + " = " + v, '=') == [a + " ", " " + v]
  {
    assert (a + " = " + v)[|a| + 1] == '=';
    assert a + " = " + v == (a + " ") + ['='] + (" " + v);
    SplitAtFirst(a + " ", " " + v, '=');
    SplitWithout(" " + v, '=');
  }

  // ------------------------------------------------------------ unanchored number test

  /** `x = "a1"`: a quoted string with a digit in it. */
  const QuotedDigit: string := "x = \"a1\""

  /** Both operands of QuotedDigit, trimmed. */
  lemma QuotedDigitOperands()
    ensures '=' in QuotedDigit
    ensures StripAll(Split(QuotedDigit, '=')) == ["x", "\"a1\""]
  {
    assert QuotedDigit == "x" + " = " + "\"a1\"";
    assert Word("\"a1\"");
    SpacedAssignmentOperands("x", "\"a1\"");
  }

  /** As written: an undeclared `x` becomes a NUMERO holding a quoted string,
      and a NUMERO `x` accepts one. */
  lemma UnanchoredTestTypesStringAsNumber(st: TsState)
    requires |st.scopes| > 0
    ensures '=' in QuotedDigit
    ensures Resolve(st.scopes, Str("x")).None? ==>
              StepLiteral(st, QuotedDigit)
                == Next(st.(scopes := PushTop(st.scopes, Token(IdentifierKind, "NUMERO", Str("x"), "\"a1\""))))
    ensures Resolve(st.scopes, Str("x")).Some? && Resolve(st.scopes, Str("x")).value.ty == "NUMERO" ==>
              StepLiteral(st, QuotedDigit) == Next(st.(scopes := Assigned(st.scopes, Str("x"), "\"a1\"")))
  {
    QuotedDigitOperands();
    QuotedDigitValue();
  }

  /** The value `"a1"` starts as a quoted string, not as a number, yet
      holds a number further on. */
  lemma QuotedDigitValue()
    ensures MatchAt(Quoted, "\"a1\"") && !MatchAt(Number, "\"a1\"")
    ensures Search(Number, "\"a1\"") && Search(Quoted, "\"a1\"")
  {
    var v := "\"a1\"";
    assert v[1..][2] == '"';
    assert v[2..] == "1\"";
    OffsetMakesSearch(Number, v, 2);
  }

  /** Corrected: the literal is typed by its leading shape, as `re.match`
      does in the Python twin. */
  function StepLiteralAnchored(st: TsState, line: string): Outcome<JsName>
    requires '=' in line
  {
    SplitHasSecondPart(line, '=');
    var parts := StripAll(Split(line, '='));
    LiteralOutcome(st, parts[0], parts[1], MatchAt(Number, parts[1]), MatchAt(Quoted, parts[1]))
  }

  /** Corrected, a literal assignment does what LiteralMeaning says with the
      anchored tests, and a value that passes the number test is never a
      quoted string: a NUMERO token never receives one. */
  lemma AnchoredLiteralIsTyped(st: TsState, line: string)
    requires '=' in line && StepLiteralAnchored(st, line).Next?
    ensures var parts := StripAll(Split(line, '='));
            |parts| >= 2 &&
            var v := parts[1];
            TsProperties.LiteralMeaning(st, parts[0], v, MatchAt(Number, v), MatchAt(Quoted, v),
                                        StepLiteralAnchored(st, line).state)
            && (MatchAt(Number, v) ==> !QuotedAt(v))
  {
    SplitHasSecondPart(line, '=');
    var parts := StripAll(Split(line, '='));
    TsProperties.LiteralOutcomeEffect(st, parts[0], parts[1], MatchAt(Number, parts[1]), MatchAt(Quoted, parts[1]));
  }

  /** Corrected, `x = "a1"` declares an undeclared `x` as CADEIA and is
      refused for a NUMERO `x`. */
  lemma AnchoredTestTypesQuotedAsString(st: TsState)
    requires |st.scopes| > 0
    ensures '=' in QuotedDigit
    ensures Resolve(st.scopes, Str("x")).None? ==>
              StepLiteralAnchored(st, QuotedDigit)
                == Next(st.(scopes := PushTop(st.scopes, Token(IdentifierKind, "CADEIA", Str("x"), "\"a1\""))))
    ensures Resolve(st.scopes, Str("x")).Some? && Resolve(st.scopes, Str("x")).value.ty == "NUMERO" ==>
              StepLiteralAnchored(st, QuotedDigit) == Next(st.(output := st.output + ["x" + InvalidAssignment]))
  {
    QuotedDigitOperands();
    QuotedDigitValue();
  }
}
