/** The Python checker: class `ScopeManager` of scope_manager.py.

    `Step` states what `process_line` does to the whole state, branch by
    branch, with `re.match` (prefix) semantics for every pattern; the class
    keeps the three lists as fields and its methods are proved to do what
    `Step` says. The lemmas after it are the checker's invariants. */
module PyScopeManager {
  import opened Text
  import opened Patterns
  import opened ScopeEngine

  type PyState = State<string>

  const NotDeclared := " não declarado"
  const InvalidAssignment := " : Atribuição inválida"
  const InvalidLiteral := "Error: Valor ou cadeia inválida."

  /** `f"Linha {line_number}: "` */
  function LineTag(n: nat): string {
    "Linha " + Decimal(n) + ": "
  }

  /** `line.strip().replace("\n", "")` */
  function Normalize(raw: string): string {
    RemoveAll(Strip(raw), '\n')
  }

  /** The guard of each branch of process_line, read on its own. */
  predicate Fits(f: Form, line: string, blocks: seq<string>) {
    match f
    case BlockOpen => Contains(line, "BLOCO")
    case BlockClose => |blocks| > 0 && MatchAt(BlockEnd(Last(blocks)), line)
    case DeclareWithInit => MatchAt(DeclaredString, line) || MatchAt(DeclaredNumber, line)
    case DeclareBare => MatchAt(UndeclaredString, line) || MatchAt(UndeclaredNumber, line)
    case CopyAssign => MatchAt(AssignIdent, line)
    case LiteralAssign => MatchAt(AssignNumber, line) || MatchAt(AssignString, line)
    case PrintStmt => MatchAt(PrintPattern, line)
    case NoStatement => true
  }

  /** The if/elif chain of process_line: the first form whose guard holds. */
  function Classify(line: string, blocks: seq<string>): (f: Form)
    ensures Fits(f, line, blocks)
  {
    if Fits(BlockOpen, line, blocks) then BlockOpen
    else if Fits(BlockClose, line, blocks) then BlockClose
    else if Fits(DeclareWithInit, line, blocks) then DeclareWithInit
    else if Fits(DeclareBare, line, blocks) then DeclareBare
    else if Fits(CopyAssign, line, blocks) then CopyAssign
    else if Fits(LiteralAssign, line, blocks) then LiteralAssign
    else if Fits(PrintStmt, line, blocks) then PrintStmt
    else NoStatement
  }

  /** The chain is ordered: no form ranked before the chosen one fits. */
  lemma ClassifyPicksFirstFit(line: string, blocks: seq<string>)
    ensures forall g :: Rank(g) < Rank(Classify(line, blocks)) ==> !Fits(g, line, blocks)
  {
  }

  // ------------------------------------------------------------ the branches

  /** One comma item `name[=value]`: `id_current, *value = map(str.strip, item.split("="))`. */
  function DeclarationToken(ty: string, item: string): Token<string> {
    var parts := StripAll(Split(item, '='));
    Token(IdentifierKind, ty, parts[0], if |parts| > 1 then parts[1] else "0")
  }

  /** The items of a declaration: comma-separated and stripped when the line
      has a comma anywhere, otherwise the whole remainder. */
  function DeclarationItems(line: string, rest: string): (items: seq<string>)
    ensures |items| >= 1
  {
    if ',' in line then StripAll(Split(rest, ',')) else [rest]
  }

  function DeclarationTokens(ty: string, items: seq<string>): (toks: seq<Token<string>>)
    ensures |toks| == |items|
  {
    seq(|items|, k requires 0 <= k < |items| => DeclarationToken(ty, items[k]))
  }

  /** `NUMERO a = 1, b` / `CADEIA s = "x"`: declare each item into the top scope. */
  function StepDeclareInit(st: PyState, line: string): Outcome<string> {
    var head := SplitOnce(line, ' ');
    if |head| < 2 then Crash(MissingOperand)
    else DeclareInTop(st, DeclarationTokens(head[0], DeclarationItems(line, head[1])))
  }

  /** The item loop: each token not yet in `scopes[-1]` is appended there;
      with no scope open the first `scopes[-1]` raises. */
  function DeclareInTop(st: PyState, toks: seq<Token<string>>): Outcome<string>
    requires |toks| >= 1
  {
    if |st.scopes| == 0 then Crash(NoOpenScope)
    else Next(st.(scopes := ReplaceTop(st.scopes, DeclareAll(Last(st.scopes), toks))))
  }

  /** `NUMERO x`: exactly two space-separated words, declared with value "0". */
  function StepDeclareBare(st: PyState, line: string): Outcome<string> {
    var parts := Split(line, ' ');
    if |parts| != 2 then Crash(UnpackMismatch)
    else if |st.scopes| == 0 then Crash(NoOpenScope)
    else
      var t := Token(IdentifierKind, Strip(parts[0]), Strip(parts[1]), "0");
      Next(st.(scopes := ReplaceTop(st.scopes, DeclareIfAbsent(Last(st.scopes), t))))
  }

  /** `a = b`: copy b's value (and, for a new a, b's type) or report. */
  function StepCopy(st: PyState, line: string, n: nat): PyState
    requires '=' in line
  {
    SplitHasSecondPart(line, '=');
    var parts := StripAll(Split(line, '='));
    CopyOutcome(st, parts[0], parts[1], n)
  }

  /** The body of the copy branch for `a = b` on line `n`. */
  function CopyOutcome(st: PyState, a: string, b: string, n: nat): PyState {
    match Resolve(st.scopes, b)
    case None => st.(output := st.output + [LineTag(n) + b + NotDeclared])
    case Some(tb) =>
      match Resolve(st.scopes, a)
      case None => st.(scopes := PushTop(st.scopes, Token(IdentifierKind, tb.ty, a, tb.value)))
      case Some(ta) =>
        if ta.ty == tb.ty then st.(scopes := Assigned(st.scopes, a, tb.value))
        else st.(output := st.output + [LineTag(n) + a + InvalidAssignment])
  }

  /** `scopes[-1].append(t)`, which raises with no open scope. */
  function PushFresh(st: PyState, t: Token<string>): Outcome<string> {
    if |st.scopes| == 0 then Crash(NoOpenScope) else Next(st.(scopes := PushTop(st.scopes, t)))
  }

  /** `a = 5` / `a = "x"`: unpack the two sides, then type the value by
      its leading shape. */
  function StepLiteral(st: PyState, line: string, n: nat): Outcome<string> {
    var parts := StripAll(Split(line, '='));
    if |parts| != 2 then Crash(UnpackMismatch)
    else LiteralOutcome(st, parts[0], parts[1], n, MatchAt(Number, parts[1]), MatchAt(Quoted, parts[1]))
  }

  /** The body of the literal branch for `a = v` on line `n`, given the
      outcome of its number test and of its string test: declare `a` typed
      by the first test that passes, assign when the passing test fits `a`'s
      type, or report. */
  function LiteralOutcome(st: PyState, a: string, v: string, n: nat, isNumber: bool, isQuoted: bool): Outcome<string> {
    match Resolve(st.scopes, a)
    case None =>
      if isNumber then PushFresh(st, Token(IdentifierKind, "NUMERO", a, v))
      else if isQuoted then PushFresh(st, Token(IdentifierKind, "CADEIA", a, v))
      else Next(st.(output := st.output + [LineTag(n) + InvalidLiteral]))
    case Some(t) =>
      if t.ty == "NUMERO" && isNumber then Next(st.(scopes := Assigned(st.scopes, a, v)))
      else if t.ty == "CADEIA" && isQuoted then Next(st.(scopes := Assigned(st.scopes, a, v)))
      else Next(st.(output := st.output + [LineTag(n) + a + InvalidAssignment]))
  }

  /** `PRINT x`: the value and the innermost open block's name, or a report. */
  function StepPrint(st: PyState, line: string, n: nat): Outcome<string> {
    var id := Last(Split(line, ' '));
    match Resolve(st.scopes, id)
    case None => Next(st.(output := st.output + [LineTag(n) + id + NotDeclared]))
    case Some(t) =>
      if |st.blocks| == 0 then Crash(NoOpenBlock)
      else Next(st.(output := st.output + [id + " = " + t.value + " em " + Last(st.blocks)]))
  }

  /** `process_line(line, line_number)`: normalise the line, pick the first
      branch whose guard holds and run it. */
  function Step(st: PyState, raw: string, n: nat): Outcome<string> {
    var line := Normalize(raw);
    Dispatch(st, line, n, Classify(line, st.blocks))
  }

  /** The body of the branch `f` of process_line, on a line that fits it. */
  function Dispatch(st: PyState, line: string, n: nat, f: Form): Outcome<string>
    requires Fits(f, line, st.blocks)
  {
    match f
    case BlockOpen => Next(OpenBlock(st, Last(Split(line, ' '))))
    case BlockClose => Next(CloseBlock(st))
    case DeclareWithInit => StepDeclareInit(st, line)
    case DeclareBare => StepDeclareBare(st, line)
    case CopyAssign => AssignHasEquals(AssignIdent, line); Next(StepCopy(st, line, n))
    case LiteralAssign => StepLiteral(st, line, n)
    case PrintStmt => StepPrint(st, line, n)
    case NoStatement => Next(st)
  }

  /** The loop of `process_scope`: lines numbered from `n`, stopping at the
      first raised error with the state reached so far. */
  function Run(st: PyState, lines: seq<string>, n: nat): (PyState, Option<Fault>)
    decreases |lines|
  {
    if |lines| == 0 then (st, None)
    else match Step(st, lines[0], n)
      case Crash(f) => (st, Some(f))
      case Next(st') => Run(st', lines[1..], n + 1)
  }

  /** One line of a run: a raised error ends it where it is, otherwise the
      run goes on from the new state with the next line number. */
  lemma RunContinues(st: PyState, lines: seq<string>, n: nat, after: PyState, fault: Option<Fault>)
    requires |lines| > 0 && Settles(Step(st, lines[0], n), st, after, fault)
    ensures fault.Some? ==> Run(st, lines, n) == (st, fault)
    ensures fault.None? ==> Run(st, lines, n) == Run(after, lines[1..], n + 1)
  {
  }

  // ------------------------------------------------------------ the class

  class ScopeManager {
    var scopes: seq<Scope<string>>
    var blockIdentifiers: seq<string>
    var outputLines: seq<string>

    function Snapshot(): PyState
      reads this
    {
      State(scopes, blockIdentifiers, outputLines)
    }

    constructor ()
      ensures Snapshot() == InitialState
    {
      scopes, blockIdentifiers, outputLines := [], [], [];
    }

    method GetTokenByIdentifier(identifier: string) returns (token: Option<Token<string>>)
      ensures token == Resolve(scopes, identifier)
    {
      var pos := FindToken(scopes, identifier);
      match pos
      case None => token := None;
      case Some(p) => token := Some(scopes[p.scope][p.index]);
    }

    method AssignValueToToken(identifier: string, value: string)
      modifies this
      ensures scopes == Assigned(old(scopes), identifier, value)
      ensures blockIdentifiers == old(blockIdentifiers) && outputLines == old(outputLines)
    {
      var pos := FindToken(scopes, identifier);
      match pos
      case None =>
      case Some(p) =>
        scopes := scopes[p.scope := scopes[p.scope][p.index := scopes[p.scope][p.index].(value := value)]];
    }

    method ProcessLine(rawLine: string, lineNumber: nat) returns (fault: Option<Fault>)
      modifies this
      ensures Settles(Step(old(Snapshot()), rawLine, lineNumber), old(Snapshot()), Snapshot(), fault)
    {
      var line := RemoveAll(Strip(rawLine), '\n');
      ghost var before := Snapshot();
      assert Step(before, rawLine, lineNumber) == Dispatch(before, line, lineNumber, Classify(line, blockIdentifiers));
      fault := None;
      match Classify(line, blockIdentifiers)
      case BlockOpen =>
        blockIdentifiers := blockIdentifiers + [Last(Split(line, ' '))];
        scopes := scopes + [[]];
        outputLines := outputLines + ["\n*INICIO " + Last(blockIdentifiers) + "*"];
      case BlockClose =>
        if |scopes| > 0 {
          scopes := DropLast(scopes);
          outputLines := outputLines + ["\n*FIM " + Last(blockIdentifiers) + "*"];
          blockIdentifiers := DropLast(blockIdentifiers);
        }
      case DeclareWithInit =>
        fault := DeclareWithInitializer(line);
      case DeclareBare =>
        fault := DeclareWithoutInitializer(line);
      case CopyAssign =>
        AssignHasEquals(AssignIdent, line);
        AssignIdentifier(line, lineNumber);
      case LiteralAssign =>
        fault := AssignLiteral(line, lineNumber);
      case PrintStmt =>
        fault := PrintIdentifier(line, lineNumber);
      case NoStatement =>
    }

    /** Lines 109-121: the declared-with-initializer branch, with its comma loop. */
    method DeclareWithInitializer(line: string) returns (fault: Option<Fault>)
      modifies this
      ensures Settles(StepDeclareInit(old(Snapshot()), line), old(Snapshot()), Snapshot(), fault)
    {
      var head := SplitOnce(line, ' ');
      if |head| < 2 {
        return Some(MissingOperand);
      }
      var varType := head[0];
      var items := DeclarationItems(line, head[1]);
      fault := DeclareItems(DeclarationTokens(varType, items));
    }

    /** The loops of lines 113-116 and 119-121, over the tokens the items
        make: each is appended unless its name is already there. */
    method DeclareItems(toks: seq<Token<string>>) returns (fault: Option<Fault>)
      requires |toks| >= 1
      modifies this
      ensures Settles(DeclareInTop(old(Snapshot()), toks), old(Snapshot()), Snapshot(), fault)
    {
      ghost var s0 := scopes;
      if |s0| > 0 {
        assert ReplaceTop(s0, DeclareAll(Last(s0), toks[..0])) == s0;
      }
      var k := 0;
      while k < |toks|
        invariant 0 <= k <= |toks|
        invariant k > 0 ==> |s0| > 0
        invariant |s0| == 0 ==> scopes == s0
        invariant |s0| > 0 ==> scopes == ReplaceTop(s0, DeclareAll(Last(s0), toks[..k]))
        invariant blockIdentifiers == old(blockIdentifiers) && outputLines == old(outputLines)
      {
        if |scopes| == 0 {
          return Some(NoOpenScope);
        }
        var token := toks[k];
        DeclareNextItem(s0, toks, k);
        if !VariableExists(token.name, Last(scopes)) {
          scopes := PushTop(scopes, token);
        }
        k := k + 1;
      }
      assert toks[..|toks|] == toks;
      return None;
    }

    /** Lines 122-125: the bare declaration branch. */
    method DeclareWithoutInitializer(line: string) returns (fault: Option<Fault>)
      modifies this
      ensures Settles(StepDeclareBare(old(Snapshot()), line), old(Snapshot()), Snapshot(), fault)
    {
      var parts := Split(line, ' ');
      if |parts| != 2 {
        return Some(UnpackMismatch);
      }
      var varType, idUnique := Strip(parts[0]), Strip(parts[1]);
      if |scopes| == 0 {
        return Some(NoOpenScope);
      }
      if !VariableExists(idUnique, Last(scopes)) {
        scopes := PushTop(scopes, Token(IdentifierKind, varType, idUnique, "0"));
      }
      return None;
    }

    /** Lines 126-139: identifier-to-identifier assignment. */
    method AssignIdentifier(line: string, lineNumber: nat)
      requires '=' in line
      modifies this
      ensures Snapshot() == StepCopy(old(Snapshot()), line, lineNumber)
    {
      SplitHasSecondPart(line, '=');
      var parts := StripAll(Split(line, '='));
      CopyValue(parts[0], parts[1], lineNumber);
    }

    /** Lines 128-139: the copy itself, once `id_a` and `id_b` are split off. */
    method CopyValue(idA: string, idB: string, lineNumber: nat)
      modifies this
      ensures Snapshot() == CopyOutcome(old(Snapshot()), idA, idB, lineNumber)
    {
      var tokenB := GetTokenByIdentifier(idB);
      if tokenB.None? {
        outputLines := outputLines + [LineTag(lineNumber) + idB + NotDeclared];
        return;
      }
      var tokenA := GetTokenByIdentifier(idA);
      if tokenA.None? {
        scopes := PushTop(scopes, Token(IdentifierKind, tokenB.value.ty, idA, tokenB.value.value));
      } else if tokenA.value.ty == tokenB.value.ty {
        AssignValueToToken(idA, tokenB.value.value);
      } else {
        outputLines := outputLines + [LineTag(lineNumber) + idA + InvalidAssignment];
      }
    }

    /** Lines 140-156: literal assignment. */
    method AssignLiteral(line: string, lineNumber: nat) returns (fault: Option<Fault>)
      modifies this
      ensures Settles(StepLiteral(old(Snapshot()), line, lineNumber), old(Snapshot()), Snapshot(), fault)
    {
      var parts := StripAll(Split(line, '='));
      if |parts| != 2 {
        return Some(UnpackMismatch);
      }
      fault := StoreLiteral(parts[0], parts[1], lineNumber);
    }

    /** Lines 142-156: the assignment itself, once `id_a` and `value_a` are
        split off. */
    method StoreLiteral(idA: string, valueA: string, lineNumber: nat) returns (fault: Option<Fault>)
      modifies this
      ensures Settles(LiteralOutcome(old(Snapshot()), idA, valueA, lineNumber, MatchAt(Number, valueA), MatchAt(Quoted, valueA)),
                      old(Snapshot()), Snapshot(), fault)
    {
      var token := GetTokenByIdentifier(idA);
      fault := None;
      if token.None? {
        if MatchAt(Number, valueA) {
          if |scopes| == 0 {
            return Some(NoOpenScope);
          }
          scopes := PushTop(scopes, Token(IdentifierKind, "NUMERO", idA, valueA));
        } else if MatchAt(Quoted, valueA) {
          if |scopes| == 0 {
            return Some(NoOpenScope);
          }
          scopes := PushTop(scopes, Token(IdentifierKind, "CADEIA", idA, valueA));
        } else {
          outputLines := outputLines + [LineTag(lineNumber) + InvalidLiteral];
        }
      } else if token.value.ty == "NUMERO" && MatchAt(Number, valueA) {
        AssignValueToToken(idA, valueA);
      } else if token.value.ty == "CADEIA" && MatchAt(Quoted, valueA) {
        AssignValueToToken(idA, valueA);
      } else {
        outputLines := outputLines + [LineTag(lineNumber) + idA + InvalidAssignment];
      }
    }

    /** Lines 157-163: PRINT. */
    method PrintIdentifier(line: string, lineNumber: nat) returns (fault: Option<Fault>)
      modifies this
      ensures Settles(StepPrint(old(Snapshot()), line, lineNumber), old(Snapshot()), Snapshot(), fault)
    {
      var idA := Last(Split(line, ' '));
      var token := GetTokenByIdentifier(idA);
      fault := None;
      if token.None? {
        outputLines := outputLines + [LineTag(lineNumber) + idA + NotDeclared];
      } else if |blockIdentifiers| == 0 {
        fault := Some(NoOpenBlock);
      } else {
        outputLines := outputLines + [idA + " = " + token.value.value + " em " + Last(blockIdentifiers)];
      }
    }

    /** The loop of `process_scope` (lines 175-176), without the file reading
        and writing: lines are numbered from 1 and a raised error stops it. */
    method ProcessLines(lines: seq<string>) returns (fault: Option<Fault>)
      modifies this
      ensures (Snapshot(), fault) == Run(old(Snapshot()), lines, 1)
    {
      for k := 0 to |lines|
        invariant Run(old(Snapshot()), lines, 1) == Run(Snapshot(), lines[k..], k + 1)
      {
        ghost var before := Snapshot();
        fault := ProcessLine(lines[k], k + 1);
        RunContinues(before, lines[k..], k + 1, Snapshot(), fault);
        if fault.Some? {
          return;
        }
        assert lines[k..][1..] == lines[k + 1..];
      }
      return None;
    }
  }
}
