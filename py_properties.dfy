/** What the Python checker keeps true line after line, and what its
    branches mean, proved about `PyScopeManager.Step` and `Run`. */
module PyProperties {
  import opened Text
  import opened Patterns
  import opened ScopeEngine
  import opened PyScopeManager

  // ------------------------------------------------------------ invariants

  /** A processed line keeps one block name per scope and unique names per
      scope, never changes the kind, type or name of a token that survives,
      and adds at most one output line. */
  lemma StepKeepsValid(st: PyState, raw: string, n: nat)
    requires Valid(st) && Step(st, raw, n).Next?
    ensures Valid(Step(st, raw, n).state)
    ensures KeepsSymbols(st.scopes, Step(st, raw, n).state.scopes)
    ensures AppendsAtMostOne(st.output, Step(st, raw, n).state.output)
  {
    var line := Normalize(raw);
    DispatchKeepsValid(st, line, n, Classify(line, st.blocks));
  }

  lemma DispatchKeepsValid(st: PyState, line: string, n: nat, f: Form)
    requires Fits(f, line, st.blocks) && Valid(st) && Dispatch(st, line, n, f).Next?
    ensures Valid(Dispatch(st, line, n, f).state)
    ensures KeepsSymbols(st.scopes, Dispatch(st, line, n, f).state.scopes)
    ensures AppendsAtMostOne(st.output, Dispatch(st, line, n, f).state.output)
  {
    match f
    case BlockOpen =>
      OpenBlockKeepsValid(st, Last(Split(line, ' ')));
    case BlockClose =>
      CloseBlockKeepsValid(st);
    case DeclareWithInit =>
      var head := SplitOnce(line, ' ');
      DeclareTopKeepsValid(st, DeclarationTokens(head[0], DeclarationItems(line, head[1])));
    case DeclareBare =>
      var parts := Split(line, ' ');
      var t := Token(IdentifierKind, Strip(parts[0]), Strip(parts[1]), "0");
      assert DeclareAll(Last(st.scopes), [t]) == DeclareIfAbsent(Last(st.scopes), t) by {
        assert DropLast([t]) == [];
      }
      DeclareTopKeepsValid(st, [t]);
    case CopyAssign =>
      AssignHasEquals(AssignIdent, line);
      CopyKeepsValid(st, line, n);
    case LiteralAssign =>
      LiteralKeepsValid(st, line, n);
    case PrintStmt =>
    case NoStatement =>
  }

  lemma CopyKeepsValid(st: PyState, line: string, n: nat)
    requires '=' in line && Valid(st)
    ensures Valid(StepCopy(st, line, n))
    ensures KeepsSymbols(st.scopes, StepCopy(st, line, n).scopes)
    ensures AppendsAtMostOne(st.output, StepCopy(st, line, n).output)
  {
    SplitHasSecondPart(line, '=');
    var parts := StripAll(Split(line, '='));
    CopyOutcomeKeepsValid(st, parts[0], parts[1], n);
  }

  /** The copy branch keeps the invariant. */
  lemma CopyOutcomeKeepsValid(st: PyState, a: string, b: string, n: nat)
    requires Valid(st)
    ensures Valid(CopyOutcome(st, a, b, n))
    ensures KeepsSymbols(st.scopes, CopyOutcome(st, a, b, n).scopes)
    ensures AppendsAtMostOne(st.output, CopyOutcome(st, a, b, n).output)
  {
    if Resolve(st.scopes, b).Some? {
      var tb := Resolve(st.scopes, b).value;
      if Resolve(st.scopes, a).None? {
        PushFreshKeepsValid(st, Token(IdentifierKind, tb.ty, a, tb.value));
      } else {
        AssignedKeepsValid(st, a, tb.value);
      }
    }
  }

  lemma LiteralKeepsValid(st: PyState, line: string, n: nat)
    requires Valid(st) && StepLiteral(st, line, n).Next?
    ensures Valid(StepLiteral(st, line, n).state)
    ensures KeepsSymbols(st.scopes, StepLiteral(st, line, n).state.scopes)
    ensures AppendsAtMostOne(st.output, StepLiteral(st, line, n).state.output)
  {
    var parts := StripAll(Split(line, '='));
    LiteralOutcomeKeepsValid(st, parts[0], parts[1], n, MatchAt(Number, parts[1]), MatchAt(Quoted, parts[1]));
  }

  /** The literal branch keeps the invariant whatever its two tests decide. */
  lemma LiteralOutcomeKeepsValid(st: PyState, a: string, v: string, n: nat, isNumber: bool, isQuoted: bool)
    requires Valid(st) && LiteralOutcome(st, a, v, n, isNumber, isQuoted).Next?
    ensures Valid(LiteralOutcome(st, a, v, n, isNumber, isQuoted).state)
    ensures KeepsSymbols(st.scopes, LiteralOutcome(st, a, v, n, isNumber, isQuoted).state.scopes)
    ensures AppendsAtMostOne(st.output, LiteralOutcome(st, a, v, n, isNumber, isQuoted).state.output)
  {
    if Resolve(st.scopes, a).None? {
      if isNumber {
        PushFreshKeepsValid(st, Token(IdentifierKind, "NUMERO", a, v));
      } else if isQuoted {
        PushFreshKeepsValid(st, Token(IdentifierKind, "CADEIA", a, v));
      }
    } else {
      AssignedKeepsValid(st, a, v);
    }
  }

  /** A run of lines keeps the invariant and only ever appends to the output. */
  lemma {:induction false} RunKeepsValid(st: PyState, lines: seq<string>, n: nat)
    requires Valid(st)
    ensures Valid(Run(st, lines, n).0)
    ensures st.output <= Run(st, lines, n).0.output
    decreases |lines|
  {
    if |lines| > 0 {
      match Step(st, lines[0], n)
      case Crash(f) =>
      case Next(st') =>
        StepKeepsValid(st, lines[0], n);
        RunKeepsValid(st', lines[1..], n + 1);
    }
  }

  /** The empty state is valid, so every run from it keeps the invariant. */
  lemma RunFromStartIsValid(lines: seq<string>)
    ensures Valid(Run(InitialState, lines, 1).0)
  {
    RunKeepsValid(InitialState, lines, 1);
  }

  // ------------------------------------------------------------ blocks and faults

  /** Only `BLOCO` and a matching `FIM` change the block structure: `BLOCO`
      opens an empty scope named by the line's last word, `FIM` closes the
      innermost scope and its name, and every other line keeps the block
      names and the number of scopes. */
  lemma BlockDiscipline(st: PyState, raw: string, n: nat)
    requires Valid(st) && Step(st, raw, n).Next?
    ensures var line, st' := Normalize(raw), Step(st, raw, n).state;
            var f := Classify(line, st.blocks);
            (f == BlockOpen ==>
               st'.blocks == st.blocks + [Last(Split(line, ' '))] && st'.scopes == st.scopes + [[]]
               && st'.output == st.output + ["\n*INICIO " + Last(Split(line, ' ')) + "*"])
            && (f == BlockClose ==>
               st'.blocks == DropLast(st.blocks) && st'.scopes == DropLast(st.scopes)
               && st'.output == st.output + ["\n*FIM " + Last(st.blocks) + "*"])
            && (f != BlockOpen && f != BlockClose ==>
               st'.blocks == st.blocks && |st'.scopes| == |st.scopes|)
  {
    var line := Normalize(raw);
    DispatchBlockDiscipline(st, line, n, Classify(line, st.blocks));
  }

  lemma DispatchBlockDiscipline(st: PyState, line: string, n: nat, f: Form)
    requires Fits(f, line, st.blocks) && Valid(st) && Dispatch(st, line, n, f).Next?
    ensures var st' := Dispatch(st, line, n, f).state;
            (f == BlockOpen ==>
               st'.blocks == st.blocks + [Last(Split(line, ' '))] && st'.scopes == st.scopes + [[]]
               && st'.output == st.output + ["\n*INICIO " + Last(Split(line, ' ')) + "*"])
            && (f == BlockClose ==>
               st'.blocks == DropLast(st.blocks) && st'.scopes == DropLast(st.scopes)
               && st'.output == st.output + ["\n*FIM " + Last(st.blocks) + "*"])
            && (f != BlockOpen && f != BlockClose ==>
               st'.blocks == st.blocks && |st'.scopes| == |st.scopes|)
  {
    if f != BlockOpen && f != BlockClose {
      DispatchKeepsBlocks(st, line, n, f);
    }
  }

  /** Every branch other than the two block lines keeps the block stack and
      the number of scopes. */
  lemma DispatchKeepsBlocks(st: PyState, line: string, n: nat, f: Form)
    requires Fits(f, line, st.blocks) && Dispatch(st, line, n, f).Next?
    requires f != BlockOpen && f != BlockClose
    ensures Dispatch(st, line, n, f).state.blocks == st.blocks
    ensures |Dispatch(st, line, n, f).state.scopes| == |st.scopes|
  {
    match f
    case DeclareWithInit =>
      DeclareInitKeepsBlocks(st, line);
    case DeclareBare =>
      DeclareBareKeepsBlocks(st, line);
    case CopyAssign =>
      AssignHasEquals(AssignIdent, line);
      CopyKeepsBlocks(st, line, n);
    case LiteralAssign =>
      LiteralKeepsBlocks(st, line, n);
    case PrintStmt =>
      PrintKeepsBlocks(st, line, n);
    case NoStatement =>
  }

  lemma DeclareInitKeepsBlocks(st: PyState, line: string)
    requires StepDeclareInit(st, line).Next?
    ensures StepDeclareInit(st, line).state.blocks == st.blocks
    ensures |StepDeclareInit(st, line).state.scopes| == |st.scopes|
  {
  }

  lemma DeclareBareKeepsBlocks(st: PyState, line: string)
    requires StepDeclareBare(st, line).Next?
    ensures StepDeclareBare(st, line).state.blocks == st.blocks
    ensures |StepDeclareBare(st, line).state.scopes| == |st.scopes|
  {
  }

  lemma PrintKeepsBlocks(st: PyState, line: string, n: nat)
    requires StepPrint(st, line, n).Next?
    ensures StepPrint(st, line, n).state.blocks == st.blocks
    ensures StepPrint(st, line, n).state.scopes == st.scopes
  {
  }

  lemma CopyKeepsBlocks(st: PyState, line: string, n: nat)
    requires '=' in line
    ensures StepCopy(st, line, n).blocks == st.blocks
    ensures |StepCopy(st, line, n).scopes| == |st.scopes|
  {
    SplitHasSecondPart(line, '=');
    var parts := StripAll(Split(line, '='));
    CopyOutcomeEffect(st, parts[0], parts[1], n);
  }

  lemma LiteralKeepsBlocks(st: PyState, line: string, n: nat)
    requires StepLiteral(st, line, n).Next?
    ensures StepLiteral(st, line, n).state.blocks == st.blocks
    ensures |StepLiteral(st, line, n).state.scopes| == |st.scopes|
  {
    var parts := StripAll(Split(line, '='));
    LiteralOutcomeEffect(st, parts[0], parts[1], n, MatchAt(Number, parts[1]), MatchAt(Quoted, parts[1]));
  }

  /** In a valid state the only errors a line can raise are the missing
      scope (a declaration or assignment with no block open) and the two
      malformed-line ones: nothing after the keyword's first space, and a
      wrong number of parts to unpack. With a block open only the last two
      remain; PRINT never raises. */
  lemma CrashCauses(st: PyState, raw: string, n: nat)
    requires Valid(st) && Step(st, raw, n).Crash?
    ensures Step(st, raw, n).fault != NoOpenBlock
    ensures |st.scopes| > 0 ==> Step(st, raw, n).fault in {MissingOperand, UnpackMismatch}
  {
    var line := Normalize(raw);
    DispatchCrashCauses(st, line, n, Classify(line, st.blocks));
  }

  lemma DispatchCrashCauses(st: PyState, line: string, n: nat, f: Form)
    requires Fits(f, line, st.blocks) && Valid(st) && Dispatch(st, line, n, f).Crash?
    ensures Dispatch(st, line, n, f).fault != NoOpenBlock
    ensures |st.scopes| > 0 ==> Dispatch(st, line, n, f).fault in {MissingOperand, UnpackMismatch}
  {
  }

  /** A line falls through the whole if/elif chain exactly when no branch's
      guard holds, and such a line writes nothing and changes nothing. */
  lemma NoBranchChangesNothing(st: PyState, raw: string, n: nat)
    ensures var line := Normalize(raw);
            Classify(line, st.blocks) == NoStatement <==> forall g :: g != NoStatement ==> !Fits(g, line, st.blocks)
    ensures Classify(Normalize(raw), st.blocks) == NoStatement ==> Step(st, raw, n) == Next(st)
  {
    ClassifyPicksFirstFit(Normalize(raw), st.blocks);
  }

  // ------------------------------------------------------------ declarations

  /** After a bare declaration the declared name resolves to a token of the
      top scope: an existing token of that scope is kept, otherwise the new
      token, holding "0", is found, shadowing any outer one. Nothing is
      written, the blocks and every scope below the top stay, the top scope
      keeps its tokens as a prefix, and every other name resolves as before. */
  lemma BareDeclarationShadows(st: PyState, line: string)
    requires StepDeclareBare(st, line).Next?
    ensures var st' := StepDeclareBare(st, line).state;
            var parts := Split(line, ' ');
            var id := Strip(parts[1]);
            |parts| == 2 && |st'.scopes| > 0 && VariableExists(id, Last(st'.scopes))
            && Resolve(st'.scopes, id) == Some(Last(st'.scopes)[FindInScope(Last(st'.scopes), id).value])
            && (!VariableExists(id, Last(st.scopes)) ==>
                  Resolve(st'.scopes, id) == Some(Token(IdentifierKind, Strip(parts[0]), id, "0")))
            && st'.blocks == st.blocks && st'.output == st.output
            && DropLast(st'.scopes) == DropLast(st.scopes) && Last(st.scopes) <= Last(st'.scopes)
            && (forall x :: x != id ==> Resolve(st'.scopes, x) == Resolve(st.scopes, x))
  {
    var parts := Split(line, ' ');
    DeclareIfAbsentResolves(st.scopes, Token(IdentifierKind, Strip(parts[0]), Strip(parts[1]), "0"));
    DeclareIfAbsentLeaves(st.scopes, Token(IdentifierKind, Strip(parts[0]), Strip(parts[1]), "0"));
  }

  /** A declaration line declares every one of its items in the top scope
      and writes nothing. Read through lookup: a name the top scope already
      held keeps its token, a new name resolves to the first item carrying
      it, and a name no item carries resolves as before. */
  lemma DeclarationDeclaresEveryItem(st: PyState, line: string)
    requires Valid(st) && StepDeclareInit(st, line).Next?
    ensures var st' := StepDeclareInit(st, line).state;
            var head := SplitOnce(line, ' ');
            var toks := DeclarationTokens(head[0], DeclarationItems(line, head[1]));
            |st'.scopes| == |st.scopes| > 0 && st'.blocks == st.blocks && st'.output == st.output
            && DropLast(st'.scopes) == DropLast(st.scopes)
            && (forall k :: 0 <= k < |toks| ==> VariableExists(toks[k].name, Last(st'.scopes)))
            && Last(st.scopes) <= Last(st'.scopes)
            && (forall k :: 0 <= k < |toks| && !VariableExists(toks[k].name, Last(st.scopes)) && FirstOfName(toks, k) ==>
                  Resolve(st'.scopes, toks[k].name) == Some(toks[k]))
            && (forall x :: VariableExists(x, Last(st.scopes)) ==> Resolve(st'.scopes, x) == Resolve(st.scopes, x))
            && (forall x :: (forall k :: 0 <= k < |toks| ==> toks[k].name != x) ==>
                  Resolve(st'.scopes, x) == Resolve(st.scopes, x))
  {
    var head := SplitOnce(line, ' ');
    var toks := DeclarationTokens(head[0], DeclarationItems(line, head[1]));
    assert StepDeclareInit(st, line) == DeclareInTop(st, toks);
    DeclareInTopEffect(st, toks);
  }

  /** What the item loop does to the state: nothing is written, the blocks
      and the number of scopes stay, every item's name is in the top scope,
      which keeps its old tokens as a prefix; a name new to the top scope
      resolves to the first item carrying it, and any other name resolves
      as before. */
  ghost predicate DeclaresInTop(st: PyState, toks: seq<Token<string>>, st': PyState) {
    |st.scopes| > 0 && |st'.scopes| == |st.scopes| && st'.blocks == st.blocks && st'.output == st.output
    && DropLast(st'.scopes) == DropLast(st.scopes)
    && (forall k :: 0 <= k < |toks| ==> VariableExists(toks[k].name, Last(st'.scopes)))
    && Last(st.scopes) <= Last(st'.scopes)
    && (forall k :: 0 <= k < |toks| && !VariableExists(toks[k].name, Last(st.scopes)) && FirstOfName(toks, k) ==>
          Resolve(st'.scopes, toks[k].name) == Some(toks[k]))
    && (forall x :: VariableExists(x, Last(st.scopes)) ==> Resolve(st'.scopes, x) == Resolve(st.scopes, x))
    && (forall x :: (forall k :: 0 <= k < |toks| ==> toks[k].name != x) ==>
          Resolve(st'.scopes, x) == Resolve(st.scopes, x))
  }

  /** The item loop does what `DeclaresInTop` states. */
  lemma DeclareInTopEffect(st: PyState, toks: seq<Token<string>>)
    requires Valid(st) && |toks| >= 1 && DeclareInTop(st, toks).Next?
    ensures DeclaresInTop(st, toks, DeclareInTop(st, toks).state)
  {
    DeclareAllEffect(Last(st.scopes), toks);
    DeclareTopResolves(st.scopes, toks);
    assert DropLast(ReplaceTop(st.scopes, DeclareAll(Last(st.scopes), toks))) == DropLast(st.scopes);
  }

  /** An item `name=value` becomes a token of the line's type holding the
      stripped name and the stripped value. */
  lemma ItemWithValue(ty: string, name: string, v: string)
    requires '=' !in name && '=' !in v
    ensures DeclarationToken(ty, name + "=" + v) == Token(IdentifierKind, ty, Strip(name), Strip(v))
  {
    SplitPair(name, v, '=');
    StripAllPair(name, v);
  }

  /** An item without `=` becomes a token of the line's type holding "0". */
  lemma ItemWithoutValue(ty: string, name: string)
    requires '=' !in name
    ensures DeclarationToken(ty, name) == Token(IdentifierKind, ty, Strip(name), "0")
  {
    SplitWithout(name, '=');
    StripAllOne(name);
  }

  // ------------------------------------------------------------ assignments

  /** What `a = b` on line `n` means, read through lookup: an undeclared `b`
      is reported; a declared `a` of another type than `b` is reported as an
      invalid assignment; otherwise `a` is bound to `b`'s value and nothing
      is written: a declared `a` is updated in place where it was found, a
      new `a` (with `b`'s type) is appended to the innermost scope. */
  ghost predicate CopyMeaning(st: PyState, a: string, b: string, n: nat, st': PyState) {
    match Resolve(st.scopes, b)
    case None => Rejects(st, st', LineTag(n) + b + NotDeclared)
    case Some(tb) =>
      match Resolve(st.scopes, a)
      case None => PushesInnermost(st, st', Token(IdentifierKind, tb.ty, a, tb.value))
      case Some(ta) =>
        if ta.ty == tb.ty then UpdatesInPlace(st, st', a, ta.(value := tb.value))
        else Rejects(st, st', LineTag(n) + a + InvalidAssignment)
  }

  /** What `a = v` on line `n` means, given the outcome of the number test
      and of the string test on `v`: a new `a` is bound to `v` typed by the
      first test that passes, and reported when both fail; a declared `a` is
      assigned `v` exactly when the test of its own type passes, and
      reported as an invalid assignment otherwise. A new `a` is
      appended to the innermost scope; a declared one is updated in place. */
  ghost predicate LiteralMeaning(st: PyState, a: string, v: string, n: nat, isNumber: bool, isQuoted: bool, st': PyState) {
    match Resolve(st.scopes, a)
    case None =>
      if isNumber then PushesInnermost(st, st', Token(IdentifierKind, "NUMERO", a, v))
      else if isQuoted then PushesInnermost(st, st', Token(IdentifierKind, "CADEIA", a, v))
      else Rejects(st, st', LineTag(n) + InvalidLiteral)
    case Some(t) =>
      if (t.ty == "NUMERO" && isNumber) || (t.ty == "CADEIA" && isQuoted) then UpdatesInPlace(st, st', a, t.(value := v))
      else Rejects(st, st', LineTag(n) + a + InvalidAssignment)
  }

  /** A copy line `a = b` does what CopyMeaning says for its two stripped sides. */
  lemma CopyTakesSourceValue(st: PyState, line: string, n: nat)
    requires '=' in line
    ensures var parts := StripAll(Split(line, '='));
            |parts| >= 2 && CopyMeaning(st, parts[0], parts[1], n, StepCopy(st, line, n))
  {
    SplitHasSecondPart(line, '=');
    var parts := StripAll(Split(line, '='));
    CopyOutcomeEffect(st, parts[0], parts[1], n);
  }

  /** The copy branch does what CopyMeaning says, and keeps the blocks and the
      number of scopes. */
  lemma CopyOutcomeEffect(st: PyState, a: string, b: string, n: nat)
    ensures CopyMeaning(st, a, b, n, CopyOutcome(st, a, b, n))
    ensures CopyOutcome(st, a, b, n).blocks == st.blocks
    ensures |CopyOutcome(st, a, b, n).scopes| == |st.scopes|
  {
    match Resolve(st.scopes, b)
    case None =>
    case Some(tb) =>
      match Resolve(st.scopes, a)
      case None =>
        PushFreshBinds(st, Token(IdentifierKind, tb.ty, a, tb.value));
      case Some(ta) =>
        AssignedBinds(st, a, tb.value);
  }

  /** A literal line `a = v` does what LiteralMeaning says for its stripped
      sides and the anchored number and string tests on `v`. */
  lemma LiteralAssignmentIsTyped(st: PyState, line: string, n: nat)
    requires StepLiteral(st, line, n).Next?
    ensures var parts := StripAll(Split(line, '='));
            |parts| == 2 &&
            LiteralMeaning(st, parts[0], parts[1], n, MatchAt(Number, parts[1]), MatchAt(Quoted, parts[1]),
                           StepLiteral(st, line, n).state)
  {
    var parts := StripAll(Split(line, '='));
    LiteralOutcomeEffect(st, parts[0], parts[1], n, MatchAt(Number, parts[1]), MatchAt(Quoted, parts[1]));
  }

  /** The literal branch, whatever its two tests decide, does what
      LiteralMeaning says, and keeps the blocks and the number of scopes. */
  lemma LiteralOutcomeEffect(st: PyState, a: string, v: string, n: nat, isNumber: bool, isQuoted: bool)
    requires LiteralOutcome(st, a, v, n, isNumber, isQuoted).Next?
    ensures LiteralMeaning(st, a, v, n, isNumber, isQuoted, LiteralOutcome(st, a, v, n, isNumber, isQuoted).state)
    ensures LiteralOutcome(st, a, v, n, isNumber, isQuoted).state.blocks == st.blocks
    ensures |LiteralOutcome(st, a, v, n, isNumber, isQuoted).state.scopes| == |st.scopes|
  {
    match Resolve(st.scopes, a)
    case None =>
      if isNumber {
        PushFreshBinds(st, Token(IdentifierKind, "NUMERO", a, v));
      } else if isQuoted {
        PushFreshBinds(st, Token(IdentifierKind, "CADEIA", a, v));
      }
    case Some(t) =>
      AssignedBinds(st, a, v);
  }

  // ------------------------------------------------------------ the dead branch

  /** The literal-assignment branch is only entered on a line whose text after
      its only `=` begins, once stripped, with a number or a quoted string:
      so the value always has one of the two shapes, and the branch reporting
      an invalid value or string can never run. */
  lemma LiteralShapeAlwaysKnown(line: string)
    requires MatchAt(AssignNumber, line) || MatchAt(AssignString, line)
    requires |Split(line, '=')| == 2
    ensures var v := Strip(Split(line, '=')[1]);
            (MatchAt(AssignNumber, line) ==> MatchAt(Number, v))
            && (MatchAt(AssignString, line) ==> MatchAt(Quoted, v))
  {
    SecondPartFollowsFirstEquals(line);
    var w := TrimStart(SplitOnce(line, '=')[1]);
    if MatchAt(AssignNumber, line) {
      NumberSurvivesTrimEnd(w);
    }
    if MatchAt(AssignString, line) {
      QuotedSurvivesTrimEnd(w);
    }
  }

  /** With exactly one `=`, the second part is everything after it. */
  lemma SecondPartFollowsFirstEquals(line: string)
    requires |Split(line, '=')| == 2
    ensures |SplitOnce(line, '=')| == 2 && Split(line, '=')[1] == SplitOnce(line, '=')[1]
  {
    SplitHasSecondPart(line, '=');
    var rest := SplitOnce(line, '=')[1];
    SplitOnceIsFirstCut(line, '=');
    SplitHasSecondPart(rest, '=');
    SplitWithout(rest, '=');
  }

  lemma NumberSurvivesTrimEnd(w: string)
    requires NumberAt(w)
    ensures NumberAt(TrimEnd(w))
  {
    if IsDigit(w[0]) {
      TrimEndKeepsPrefix(w, 1);
      assert TrimEnd(w)[0] == w[..1][0];
    } else {
      TrimEndKeepsPrefix(w, 2);
      assert TrimEnd(w)[0] == w[..2][0] && TrimEnd(w)[1] == w[..2][1];
    }
  }

  lemma QuotedSurvivesTrimEnd(w: string)
    requires QuotedAt(w)
    ensures QuotedAt(TrimEnd(w))
  {
    var j :| 0 <= j < |w[1..]| && w[1..][j] == '"';
    TrimEndKeepsPrefix(w, j + 2);
    var r := TrimEnd(w);
    assert r[0] == w[..j + 2][0];
    assert r[1..][j] == w[..j + 2][j + 1];
  }

  /** So a literal assigned to an undeclared name in an open block, whose
      value has one of the two shapes (as LiteralShapeAlwaysKnown shows it
      always has), declares it, NUMERO for a number and CADEIA for a string,
      and never reports. */
  lemma UndeclaredLiteralIsDeclared(st: PyState, line: string, n: nat)
    requires |st.scopes| > 0 && |Split(line, '=')| == 2
    requires Resolve(st.scopes, Strip(Split(line, '=')[0])).None?
    requires MatchAt(Number, Strip(Split(line, '=')[1])) || MatchAt(Quoted, Strip(Split(line, '=')[1]))
    ensures var a, v := Strip(Split(line, '=')[0]), Strip(Split(line, '=')[1]);
            var t := Token(IdentifierKind, if MatchAt(Number, v) then "NUMERO" else "CADEIA", a, v);
            StepLiteral(st, line, n) == Next(st.(scopes := PushTop(st.scopes, t)))
            && Resolve(StepLiteral(st, line, n).state.scopes, a) == Some(t)
  {
    var a, v := Strip(Split(line, '=')[0]), Strip(Split(line, '=')[1]);
    NewTopTokenResolves(st.scopes, Token(IdentifierKind, if MatchAt(Number, v) then "NUMERO" else "CADEIA", a, v));
  }

  /** TrimEnd keeps any prefix that ends in a non-space character. */
  lemma {:induction false} TrimEndKeepsPrefix(w: string, m: nat)
    requires 0 < m <= |w| && !IsSpace(w[m - 1])
    ensures m <= |TrimEnd(w)| && TrimEnd(w)[..m] == w[..m]
    decreases |w|
  {
    if IsSpace(w[|w| - 1]) {
      TrimEndKeepsPrefix(w[..|w| - 1], m);
    }
  }

  // ------------------------------------------------------------ PRINT

  /** `PRINT x` in a valid state never raises, changes no token and no block
      and writes exactly one line: the value of the innermost visible `x`
      (wherever it was declared) with the name of the innermost open block,
      or, with the line number, that `x` is not declared. */
  lemma PrintReportsInnermost(st: PyState, line: string, n: nat)
    requires Valid(st)
    ensures var o, id := StepPrint(st, line, n), Last(Split(line, ' '));
            o.Next? && o.state.scopes == st.scopes && o.state.blocks == st.blocks
            && (Resolve(st.scopes, id).None? ==> o.state.output == st.output + [LineTag(n) + id + NotDeclared])
            && (Resolve(st.scopes, id).Some? ==>
                  Locate(st.scopes, id).Some?
                  && o.state.output == st.output + [id + " = " + Resolve(st.scopes, id).value.value
                                                      + " em " + Last(st.blocks)])
  {
  }
}

