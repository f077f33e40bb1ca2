/** What the TypeScript checker keeps true line after line, and what its
    branches mean, proved about `TsScopeManager.Step` and `Run`. */
module TsProperties {
  import opened Text
  import opened Patterns
  import opened ScopeEngine
  import opened TsScopeManager

  // ------------------------------------------------------------ invariants

  /** A processed line keeps one block name per scope and unique names per
      scope, never changes the kind, type or name of a token that survives,
      and adds at most one console line. */
  lemma StepKeepsValid(st: TsState, raw: string)
    requires Valid(st) && Step(st, raw).Next?
    ensures Valid(Step(st, raw).state)
    ensures KeepsSymbols(st.scopes, Step(st, raw).state.scopes)
    ensures AppendsAtMostOne(st.output, Step(st, raw).state.output)
  {
    var line := Normalize(raw);
    DispatchKeepsValid(st, line, Classify(line, st.blocks));
  }

  lemma DispatchKeepsValid(st: TsState, line: string, f: Form)
    requires Fits(f, line, st.blocks) && Valid(st) && Dispatch(st, line, f).Next?
    ensures Valid(Dispatch(st, line, f).state)
    ensures KeepsSymbols(st.scopes, Dispatch(st, line, f).state.scopes)
    ensures AppendsAtMostOne(st.output, Dispatch(st, line, f).state.output)
  {
    match f
    case BlockOpen =>
      OpenBlockKeepsValid(st, Last(Split(line, ' ')));
    case BlockClose =>
      CloseBlockKeepsValid(st);
    case DeclareWithInit =>
      var head := SplitLimit(line, ' ', 2);
      DeclareTopKeepsValid(st, DeclarationTokens(head[0], DeclarationItems(line, head[1])));
    case DeclareBare =>
      BareKeepsValid(st, line);
    case CopyAssign =>
      SearchAssignHasEquals(AssignIdent, line);
      CopyKeepsValid(st, line);
    case LiteralAssign =>
      SearchAssignHasEquals(if Search(AssignNumber, line) then AssignNumber else AssignString, line);
      LiteralKeepsValid(st, line);
    case PrintStmt =>
    case NoStatement =>
  }

  lemma BareKeepsValid(st: TsState, line: string)
    requires Valid(st) && StepDeclareBare(st, line).Next?
    ensures Valid(StepDeclareBare(st, line).state)
    ensures KeepsSymbols(st.scopes, StepDeclareBare(st, line).state.scopes)
    ensures StepDeclareBare(st, line).state.output == st.output
  {
    var t := BareToken(line);
    assert DeclareAll(Last(st.scopes), [t]) == DeclareIfAbsent(Last(st.scopes), t) by {
      assert DropLast([t]) == [];
    }
    DeclareTopKeepsValid(st, [t]);
  }

  lemma CopyKeepsValid(st: TsState, line: string)
    requires '=' in line && Valid(st)
    ensures Valid(StepCopy(st, line))
    ensures KeepsSymbols(st.scopes, StepCopy(st, line).scopes)
    ensures AppendsAtMostOne(st.output, StepCopy(st, line).output)
  {
    SplitHasSecondPart(line, '=');
    var parts := StripAll(Split(line, '='));
    CopyOutcomeKeepsValid(st, parts[0], parts[1]);
  }

  /** The copy branch keeps the invariant. */
  lemma CopyOutcomeKeepsValid(st: TsState, a: string, b: string)
    requires Valid(st)
    ensures Valid(CopyOutcome(st, a, b))
    ensures KeepsSymbols(st.scopes, CopyOutcome(st, a, b).scopes)
    ensures AppendsAtMostOne(st.output, CopyOutcome(st, a, b).output)
  {
    if Resolve(st.scopes, Str(b)).Some? {
      var tb := Resolve(st.scopes, Str(b)).value;
      if Resolve(st.scopes, Str(a)).None? {
        PushFreshKeepsValid(st, Token(IdentifierKind, tb.ty, Str(a), tb.value));
      } else {
        AssignedKeepsValid(st, Str(a), tb.value);
      }
    }
  }

  lemma LiteralKeepsValid(st: TsState, line: string)
    requires '=' in line && Valid(st) && StepLiteral(st, line).Next?
    ensures Valid(StepLiteral(st, line).state)
    ensures KeepsSymbols(st.scopes, StepLiteral(st, line).state.scopes)
    ensures AppendsAtMostOne(st.output, StepLiteral(st, line).state.output)
  {
    SplitHasSecondPart(line, '=');
    var parts := StripAll(Split(line, '='));
    LiteralOutcomeKeepsValid(st, parts[0], parts[1], Search(Number, parts[1]), Search(Quoted, parts[1]));
  }

  /** The literal branch keeps the invariant whatever its two tests decide. */
  lemma LiteralOutcomeKeepsValid(st: TsState, a: string, v: string, isNumber: bool, isQuoted: bool)
    requires Valid(st) && LiteralOutcome(st, a, v, isNumber, isQuoted).Next?
    ensures Valid(LiteralOutcome(st, a, v, isNumber, isQuoted).state)
    ensures KeepsSymbols(st.scopes, LiteralOutcome(st, a, v, isNumber, isQuoted).state.scopes)
    ensures AppendsAtMostOne(st.output, LiteralOutcome(st, a, v, isNumber, isQuoted).state.output)
  {
    if Resolve(st.scopes, Str(a)).None? {
      if isNumber {
        PushFreshKeepsValid(st, Token(IdentifierKind, "NUMERO", Str(a), v));
      } else if isQuoted {
        PushFreshKeepsValid(st, Token(IdentifierKind, "CADEIA", Str(a), v));
      }
    } else {
      AssignedKeepsValid(st, Str(a), v);
    }
  }


  /** A run of lines keeps the invariant and only ever appends to the console. */
  lemma {:induction false} RunKeepsValid(st: TsState, lines: seq<string>)
    requires Valid(st)
    ensures Valid(Run(st, lines).0)
    ensures st.output <= Run(st, lines).0.output
    decreases |lines|
  {
    if |lines| > 0 {
      match Step(st, lines[0])
      case Crash(f) =>
      case Next(st') =>
        StepKeepsValid(st, lines[0]);
        RunKeepsValid(st', lines[1..]);
    }
  }

  /** A fresh checker is valid, so every run from it keeps the invariant. */
  lemma RunFromStartIsValid(lines: seq<string>)
    ensures Valid(Run(State([], [], []), lines).0)
  {
    RunKeepsValid(State([], [], []), lines);
  }

  // ------------------------------------------------------------ blocks and faults

  /** Only `BLOCO` and a matching `FIM` change the block structure: `BLOCO`
      opens an empty scope named by the line's last word, `FIM` closes the
      innermost scope and its name, and every other line keeps the block
      names and the number of scopes. */
  lemma BlockDiscipline(st: TsState, raw: string)
    requires Valid(st) && Step(st, raw).Next?
    ensures var line, st' := Normalize(raw), Step(st, raw).state;
            var f := Classify(line, st.blocks);
            (f == BlockOpen ==>
               st'.blocks == st.blocks + [Last(Split(line, ' '))] && st'.scopes == st.scopes + [[]]
               && st'.output == st.output + ["\n*INICIO " + Last(Split(line, ' ')) + "*"])
            && (f == BlockClose ==>
               st'.blocks == DropLast(st.blocks) && st'.scopes == DropLast(st.scopes)
               && st'.output == st.output + ["\n*FIM " + Last(st.blocks) + "*"])
            && (f != BlockOpen && f != BlockClose ==>
               st'.blocks == st.blocks && |st'.scopes| == |st.scopes|)
  {
    var line := Normalize(raw);
    DispatchBlockDiscipline(st, line, Classify(line, st.blocks));
  }

  lemma DispatchBlockDiscipline(st: TsState, line: string, f: Form)
    requires Fits(f, line, st.blocks) && Valid(st) && Dispatch(st, line, f).Next?
    ensures var st' := Dispatch(st, line, f).state;
            (f == BlockOpen ==>
               st'.blocks == st.blocks + [Last(Split(line, ' '))] && st'.scopes == st.scopes + [[]]
               && st'.output == st.output + ["\n*INICIO " + Last(Split(line, ' ')) + "*"])
            && (f == BlockClose ==>
               st'.blocks == DropLast(st.blocks) && st'.scopes == DropLast(st.scopes)
               && st'.output == st.output + ["\n*FIM " + Last(st.blocks) + "*"])
            && (f != BlockOpen && f != BlockClose ==>
               st'.blocks == st.blocks && |st'.scopes| == |st.scopes|)
  {
    if f != BlockOpen && f != BlockClose {
      DispatchKeepsBlocks(st, line, f);
    }
  }

  /** Every branch other than the two block lines keeps the block stack and
      the number of scopes. */
  lemma DispatchKeepsBlocks(st: TsState, line: string, f: Form)
    requires Fits(f, line, st.blocks) && Dispatch(st, line, f).Next?
    requires f != BlockOpen && f != BlockClose
    ensures Dispatch(st, line, f).state.blocks == st.blocks
    ensures |Dispatch(st, line, f).state.scopes| == |st.scopes|
  {
    match f
    case DeclareWithInit =>
      DeclareInitKeepsBlocks(st, line);
    case DeclareBare =>
      DeclareBareKeepsBlocks(st, line);
    case CopyAssign =>
      SearchAssignHasEquals(AssignIdent, line);
      CopyKeepsBlocks(st, line);
    case LiteralAssign =>
      SearchAssignHasEquals(if Search(AssignNumber, line) then AssignNumber else AssignString, line);
      LiteralKeepsBlocks(st, line);
    case PrintStmt =>
    case NoStatement =>
  }

  lemma DeclareInitKeepsBlocks(st: TsState, line: string)
    requires StepDeclareInit(st, line).Next?
    ensures StepDeclareInit(st, line).state.blocks == st.blocks
    ensures |StepDeclareInit(st, line).state.scopes| == |st.scopes|
  {
  }

  lemma DeclareBareKeepsBlocks(st: TsState, line: string)
    requires StepDeclareBare(st, line).Next?
    ensures StepDeclareBare(st, line).state.blocks == st.blocks
    ensures |StepDeclareBare(st, line).state.scopes| == |st.scopes|
  {
  }

  lemma CopyKeepsBlocks(st: TsState, line: string)
    requires '=' in line
    ensures StepCopy(st, line).blocks == st.blocks
    ensures |StepCopy(st, line).scopes| == |st.scopes|
  {
    SplitHasSecondPart(line, '=');
    var parts := StripAll(Split(line, '='));
    CopyOutcomeEffect(st, parts[0], parts[1]);
  }

  lemma LiteralKeepsBlocks(st: TsState, line: string)
    requires '=' in line && StepLiteral(st, line).Next?
    ensures StepLiteral(st, line).state.blocks == st.blocks
    ensures |StepLiteral(st, line).state.scopes| == |st.scopes|
  {
    SplitHasSecondPart(line, '=');
    var parts := StripAll(Split(line, '='));
    LiteralOutcomeEffect(st, parts[0], parts[1], Search(Number, parts[1]), Search(Quoted, parts[1]));
  }

  /** The only errors a line can raise are a declaration whose keyword is
      not followed by a space (so `rest` is `undefined`) and a lookup
      (`variableExists`) or push into the innermost scope when no block is open. With a block open only the
      first remains; PRINT, `FIM` and the identifier copy never raise. */
  lemma CrashCauses(st: TsState, raw: string)
    requires Step(st, raw).Crash?
    ensures Step(st, raw).fault in {MissingOperand, NoOpenScope}
    ensures |st.scopes| > 0 ==> Step(st, raw).fault == MissingOperand
  {
    var line := Normalize(raw);
    DispatchCrashCauses(st, line, Classify(line, st.blocks));
  }

  lemma DispatchCrashCauses(st: TsState, line: string, f: Form)
    requires Fits(f, line, st.blocks) && Dispatch(st, line, f).Crash?
    ensures Dispatch(st, line, f).fault in {MissingOperand, NoOpenScope}
    ensures |st.scopes| > 0 ==> Dispatch(st, line, f).fault == MissingOperand
  {
    if f == LiteralAssign {
      SearchAssignHasEquals(if Search(AssignNumber, line) then AssignNumber else AssignString, line);
      LiteralCrashes(st, line);
    }
  }

  lemma LiteralCrashes(st: TsState, line: string)
    requires '=' in line && StepLiteral(st, line).Crash?
    ensures StepLiteral(st, line).fault == NoOpenScope && |st.scopes| == 0
  {
  }

  /** A line falls through the whole if/else-if chain exactly when no branch's
      guard holds, and such a line writes nothing and changes nothing. */
  lemma NoBranchChangesNothing(st: TsState, raw: string)
    ensures var line := Normalize(raw);
            Classify(line, st.blocks) == NoStatement <==> forall g :: g != NoStatement ==> !Fits(g, line, st.blocks)
    ensures Classify(Normalize(raw), st.blocks) == NoStatement ==> Step(st, raw) == Next(st)
  {
    ClassifyPicksFirstFit(Normalize(raw), st.blocks);
  }

  // ------------------------------------------------------------ declarations

  /** After a bare declaration the declared name (`undefined` when the line
      has no second word) resolves to a token of the top scope: an existing
      token of that scope is kept, otherwise the new token, holding "0", is
      found, shadowing any outer one. Nothing is logged, the blocks and every
      scope below the top stay, the top scope keeps its tokens as a prefix,
      and every other name resolves as before. */
  lemma BareDeclarationShadows(st: TsState, line: string)
    requires StepDeclareBare(st, line).Next?
    ensures var st', t := StepDeclareBare(st, line).state, BareToken(line);
            |st'.scopes| > 0 && VariableExists(t.name, Last(st'.scopes))
            && Resolve(st'.scopes, t.name) == Some(Last(st'.scopes)[FindInScope(Last(st'.scopes), t.name).value])
            && (!VariableExists(t.name, Last(st.scopes)) ==> Resolve(st'.scopes, t.name) == Some(t))
            && st'.blocks == st.blocks && st'.output == st.output
            && DropLast(st'.scopes) == DropLast(st.scopes) && Last(st.scopes) <= Last(st'.scopes)
            && (forall x :: x != t.name ==> Resolve(st'.scopes, x) == Resolve(st.scopes, x))
  {
    DeclareIfAbsentResolves(st.scopes, BareToken(line));
    DeclareIfAbsentLeaves(st.scopes, BareToken(line));
  }

  /** A declaration line declares every one of its items in the top scope,
      as DeclareInTopEffect says. */
  lemma DeclarationDeclaresEveryItem(st: TsState, line: string)
    requires Valid(st) && StepDeclareInit(st, line).Next?
    ensures var head := SplitLimit(line, ' ', 2);
            |head| == 2 && StepDeclareInit(st, line) == DeclareInTop(st, DeclarationTokens(head[0], DeclarationItems(line, head[1])))
            && DeclaresInTop(st, DeclarationTokens(head[0], DeclarationItems(line, head[1])), StepDeclareInit(st, line).state)
  {
    var head := SplitLimit(line, ' ', 2);
    var toks := DeclarationTokens(head[0], DeclarationItems(line, head[1]));
    DeclareInTopEffect(st, toks);
  }

  /** Declaring the items `toks` into the top scope, read through lookup:
      nothing is logged, every item's name exists in the top scope, a name
      the top scope already held keeps its token, a new name resolves to the
      first item carrying it, and a name no item carries resolves as before. */
  ghost predicate DeclaresInTop(st: TsState, toks: seq<Token<JsName>>, st': TsState) {
    |st.scopes| > 0 && |st'.scopes| == |st.scopes| && st'.blocks == st.blocks && st'.output == st.output
    && DropLast(st'.scopes) == DropLast(st.scopes)
    && (forall k :: 0 <= k < |toks| ==> VariableExists(toks[k].name, Last(st'.scopes)))
    && Last(st.scopes) <= Last(st'.scopes)
    && (forall k :: 0 <= k < |toks| && !VariableExists(toks[k].name, Last(st.scopes)) && FirstOfName(toks, k) ==>
          Resolve(st'.scopes, toks[k].name) == Some(toks[k]))
    && (forall x :: VariableExists(x, Last(st.scopes)) ==> Resolve(st'.scopes, x) == Resolve(st.scopes, x))
    && (forall x :: (forall k :: 0 <= k < |toks| ==> toks[k].name != x) ==>
          Resolve(st'.scopes, x) == Resolve(st.scopes, x))
  }

  /** The item loop does what DeclaresInTop says. */
  lemma DeclareInTopEffect(st: TsState, toks: seq<Token<JsName>>)
    requires Valid(st) && |toks| >= 1 && DeclareInTop(st, toks).Next?
    ensures DeclaresInTop(st, toks, DeclareInTop(st, toks).state)
  {
    DeclareAllEffect(Last(st.scopes), toks);
    DeclareTopResolves(st.scopes, toks);
    assert DropLast(ReplaceTop(st.scopes, DeclareAll(Last(st.scopes), toks))) == DropLast(st.scopes);
  }

  /** An item `name=value` becomes a token of the line's type holding the
      trimmed name and the trimmed value, or "0" when that is empty. */
  lemma ItemWithValue(ty: string, name: string, v: string)
    requires '=' !in name && '=' !in v
    ensures DeclarationToken(ty, name + "=" + v)
              == Token(IdentifierKind, ty, Str(Strip(name)), if Strip(v) == "" then "0" else Strip(v))
  {
    SplitPair(name, v, '=');
    StripAllPair(name, v);
  }

  /** An item without `=` becomes a token of the line's type holding "0". */
  lemma ItemWithoutValue(ty: string, name: string)
    requires '=' !in name
    ensures DeclarationToken(ty, name) == Token(IdentifierKind, ty, Str(Strip(name)), "0")
  {
    SplitWithout(name, '=');
    StripAllOne(name);
  }

  // ------------------------------------------------------------ assignments

  /** What `a = b` means, read through lookup: an undeclared `b` is logged;
      a declared `a` of another type than `b` is logged as an invalid
      assignment; otherwise `a` is bound to `b`'s value and nothing is
      logged: a declared `a` is updated in place where it was found, a new
      `a` (with `b`'s type) is appended to the innermost scope. */
  ghost predicate CopyMeaning(st: TsState, a: string, b: string, st': TsState) {
    match Resolve(st.scopes, Str(b))
    case None => Rejects(st, st', b + NotDeclared)
    case Some(tb) =>
      match Resolve(st.scopes, Str(a))
      case None => PushesInnermost(st, st', Token(IdentifierKind, tb.ty, Str(a), tb.value))
      case Some(ta) =>
        if ta.ty == tb.ty then UpdatesInPlace(st, st', Str(a), ta.(value := tb.value))
        else Rejects(st, st', a + InvalidAssignment)
  }

  /** What `a = v` means, given the outcome of the number test and of the
      string test on `v`: a new `a` is bound to `v` typed by the first test
      that passes, and the invalid literal is logged when both fail; a
      declared `a` is assigned `v` exactly when the test of its own type
      passes, and the invalid assignment is logged otherwise. A new `a` is
      appended to the innermost scope; a declared one is updated in place. */
  ghost predicate LiteralMeaning(st: TsState, a: string, v: string, isNumber: bool, isQuoted: bool, st': TsState) {
    match Resolve(st.scopes, Str(a))
    case None =>
      if isNumber then PushesInnermost(st, st', Token(IdentifierKind, "NUMERO", Str(a), v))
      else if isQuoted then PushesInnermost(st, st', Token(IdentifierKind, "CADEIA", Str(a), v))
      else Rejects(st, st', InvalidLiteral)
    case Some(t) =>
      if (t.ty == "NUMERO" && isNumber) || (t.ty == "CADEIA" && isQuoted) then UpdatesInPlace(st, st', Str(a), t.(value := v))
      else Rejects(st, st', a + InvalidAssignment)
  }

  /** A copy line `a = b` does what CopyMeaning says for its two trimmed sides. */
  lemma CopyTakesSourceValue(st: TsState, line: string)
    requires '=' in line
    ensures var parts := StripAll(Split(line, '='));
            |parts| >= 2 && CopyMeaning(st, parts[0], parts[1], StepCopy(st, line))
  {
    SplitHasSecondPart(line, '=');
    var parts := StripAll(Split(line, '='));
    CopyOutcomeEffect(st, parts[0], parts[1]);
  }

  /** The copy branch does what CopyMeaning says, and keeps the blocks and the
      number of scopes. */
  lemma CopyOutcomeEffect(st: TsState, a: string, b: string)
    ensures CopyMeaning(st, a, b, CopyOutcome(st, a, b))
    ensures CopyOutcome(st, a, b).blocks == st.blocks
    ensures |CopyOutcome(st, a, b).scopes| == |st.scopes|
  {
    match Resolve(st.scopes, Str(b))
    case None =>
    case Some(tb) =>
      match Resolve(st.scopes, Str(a))
      case None =>
        PushFreshBinds(st, Token(IdentifierKind, tb.ty, Str(a), tb.value));
      case Some(ta) =>
        AssignedBinds(st, Str(a), tb.value);
  }

  /** A literal line `a = v` does what LiteralMeaning says for its trimmed
      sides and the unanchored tests on `v`, which pass exactly when `v` has
      a digit somewhere and when it has two double quotes somewhere. */
  lemma LiteralAssignmentIsTyped(st: TsState, line: string)
    requires '=' in line && StepLiteral(st, line).Next?
    ensures var parts := StripAll(Split(line, '='));
            |parts| >= 2 &&
            var v := parts[1];
            LiteralMeaning(st, parts[0], v, Search(Number, v), Search(Quoted, v), StepLiteral(st, line).state)
            && (Search(Number, v) <==> exists k :: 0 <= k < |v| && IsDigit(v[k]))
            && (Search(Quoted, v) <==> exists i, j :: 0 <= i < j < |v| && v[i] == '"' && v[j] == '"')
  {
    SplitHasSecondPart(line, '=');
    var parts := StripAll(Split(line, '='));
    LiteralOutcomeEffect(st, parts[0], parts[1], Search(Number, parts[1]), Search(Quoted, parts[1]));
    SearchNumberIsSomeDigit(parts[1]);
    SearchQuotedIsTwoQuotes(parts[1]);
  }

  /** The literal branch, whatever its two tests decide, does what
      LiteralMeaning says, and keeps the blocks and the number of scopes. */
  lemma LiteralOutcomeEffect(st: TsState, a: string, v: string, isNumber: bool, isQuoted: bool)
    requires LiteralOutcome(st, a, v, isNumber, isQuoted).Next?
    ensures LiteralMeaning(st, a, v, isNumber, isQuoted, LiteralOutcome(st, a, v, isNumber, isQuoted).state)
    ensures LiteralOutcome(st, a, v, isNumber, isQuoted).state.blocks == st.blocks
    ensures |LiteralOutcome(st, a, v, isNumber, isQuoted).state.scopes| == |st.scopes|
  {
    match Resolve(st.scopes, Str(a))
    case None =>
      if isNumber {
        PushFreshBinds(st, Token(IdentifierKind, "NUMERO", Str(a), v));
      } else if isQuoted {
        PushFreshBinds(st, Token(IdentifierKind, "CADEIA", Str(a), v));
      }
    case Some(t) =>
      AssignedBinds(st, Str(a), v);
  }

  // ------------------------------------------------------------ PRINT

  /** `PRINT x` changes no token and no block and writes exactly one line:
      the value of the innermost visible `x` (wherever it was declared) with
      the name of the innermost open block, or, with no line number, that
      `x` is not declared. In a valid state a resolved name always has an
      open block, so the name is never `undefined`. */
  lemma PrintReportsInnermost(st: TsState, line: string)
    requires Valid(st)
    ensures var st', id := StepPrint(st, line), Last(Split(line, ' '));
            st'.scopes == st.scopes && st'.blocks == st.blocks
            && (Resolve(st.scopes, Str(id)).None? ==> st'.output == st.output + [id + NotDeclared])
            && (Resolve(st.scopes, Str(id)).Some? ==>
                  |st.blocks| > 0 && Locate(st.scopes, Str(id)).Some?
                  && st'.output == st.output + [id + " = " + Resolve(st.scopes, Str(id)).value.value
                                                  + " em " + Last(st.blocks)])
  {
  }
}
