/** The TypeScript checker: class `ScopeManager` of ScopeManager.ts.

    The same scope engine as the Python checker, with JavaScript's
    semantics: every pattern goes through `RegExp.prototype.test`, which
    matches anywhere in the line (`Search`); `split(" ", 2)` keeps only the
    first two space-separated words; `replace("\n", "")` removes only the
    first newline; a missing array element is `undefined` instead of an
    error, and a token's name can be `undefined`; diagnostics carry no line
    number and go to the console, which the class keeps as a list. */
module TsScopeManager {
  import opened Text
  import opened Patterns
  import opened ScopeEngine

  /** A token name as JavaScript sees it: a string, or `undefined` when the
      destructured word was missing. */
  datatype JsName = Str(s: string) | Undefined

  type TsState = State<JsName>

  const NotDeclared := " não declarado"
  const InvalidAssignment := " : Atribuição inválida"
  const InvalidLiteral := "Error: Valor ou cadeia inválida."

  /** `line.trim().replace("\n", "")` */
  function Normalize(raw: string): string {
    RemoveFirst(Strip(raw), '\n')
  }

  /** The guard of each branch of processLine, read on its own. */
  predicate Fits(f: Form, line: string, blocks: seq<string>) {
    match f
    case BlockOpen => Contains(line, "BLOCO")
    case BlockClose => |blocks| > 0 && Search(BlockEnd(Last(blocks)), line)
    case DeclareWithInit => Search(DeclaredString, line) || Search(DeclaredNumber, line)
    case DeclareBare => Search(UndeclaredString, line) || Search(UndeclaredNumber, line)
    case CopyAssign => Search(AssignIdent, line)
    case LiteralAssign => Search(AssignNumber, line) || Search(AssignString, line)
    case PrintStmt => Search(PrintPattern, line)
    case NoStatement => true
  }

  /** The if/else-if chain of processLine: the first form whose guard holds. */
  function Classify(line: string, blocks: seq<string>): (f: Form)
    ensures Fits(f, line, blocks)
  {
    if Fits(BlockOpen, line, blocks) then BlockOpen
    else if Fits(BlockClose, line, blocks) then BlockClose
    else if Fits(DeclareWithInit, line, blocks) then DeclareWithInit
    else if Fits(DeclareBare, line, blocks) then DeclareBare
    else if Fits(CopyAssign, line, blocks) then CopyAssign
    else if Fits(LiteralAssign, line, blocks) then LiteralAssign
    else if Fits(PrintStmt, line, blocks) then PrintStmt
    else NoStatement
  }

  /** The chain is ordered: no form ranked before the chosen one fits. */
  lemma ClassifyPicksFirstFit(line: string, blocks: seq<string>)
    ensures forall g :: Rank(g) < Rank(Classify(line, blocks)) ==> !Fits(g, line, blocks)
  {
  }

  // ------------------------------------------------------------ the branches

  /** `value || "0"`: a missing or empty value becomes "0". */
  function ValueOrZero(parts: seq<string>): (v: string)
    ensures v != ""
    ensures |parts| >= 2 && parts[1] != "" ==> v == parts[1]
    ensures !(|parts| >= 2 && parts[1] != "") ==> v == "0"
  {
    if |parts| >= 2 && parts[1] != "" then parts[1] else "0"
  }

  /** One item `name[=value]`: `const [id, value] = item.split("=").map(trim)`. */
  function DeclarationToken(ty: string, item: string): Token<JsName> {
    var parts := StripAll(Split(item, '='));
    Token(IdentifierKind, ty, Str(parts[0]), ValueOrZero(parts))
  }

  /** The items of a declaration: comma-separated and trimmed when the line
      has a comma anywhere, otherwise `rest` itself. */
  function DeclarationItems(line: string, rest: string): (items: seq<string>)
    ensures |items| >= 1
  {
    if ',' in line then StripAll(Split(rest, ',')) else [rest]
  }

  function DeclarationTokens(ty: string, items: seq<string>): (toks: seq<Token<JsName>>)
    ensures |toks| == |items|
  {
    seq(|items|, k requires 0 <= k < |items| => DeclarationToken(ty, items[k]))
  }

  /** `NUMERO a = 1` / `CADEIA s = "x"`, as written: `rest` is the second
      space-separated word only, and `rest.split` raises when there is none. */
  function StepDeclareInit(st: TsState, line: string): Outcome<JsName> {
    var head := SplitLimit(line, ' ', 2);
    if |head| < 2 then Crash(MissingOperand)
    else DeclareInTop(st, DeclarationTokens(head[0], DeclarationItems(line, head[1])))
  }

  /** The forEach over the items: each one not yet in the innermost scope is
      pushed there. With no scope open the first `variableExists` call
      raises (`scope.some` on `undefined`) before anything changes. */
  function DeclareInTop(st: TsState, toks: seq<Token<JsName>>): Outcome<JsName>
    requires |toks| >= 1
  {
    if |st.scopes| == 0 then Crash(NoOpenScope)
    else Next(st.(scopes := ReplaceTop(st.scopes, DeclareAll(Last(st.scopes), toks))))
  }

  /** `NUMERO x`: the first two space-separated words, trimmed; a missing
      second word is `undefined` and is declared under that name. */
  function StepDeclareBare(st: TsState, line: string): Outcome<JsName> {
    if |st.scopes| == 0 then Crash(NoOpenScope)
    else Next(st.(scopes := ReplaceTop(st.scopes, DeclareIfAbsent(Last(st.scopes), BareToken(line)))))
  }

  /** The token a bare declaration offers: `const [varType, id_unique] =
      line.split(" ").map(trim)` with value "0". */
  function BareToken(line: string): Token<JsName> {
    var parts := StripAll(Split(line, ' '));
    Token(IdentifierKind, parts[0], if |parts| >= 2 then Str(parts[1]) else Undefined, "0")
  }

  /** `a = b`: copy b's value (and, for a new a, b's type) or report. */
  function StepCopy(st: TsState, line: string): TsState
    requires '=' in line
  {
    SplitHasSecondPart(line, '=');
    var parts := StripAll(Split(line, '='));
    CopyOutcome(st, parts[0], parts[1])
  }

  /** The body of the copy branch for `a = b`. */
  function CopyOutcome(st: TsState, a: string, b: string): TsState {
    match Resolve(st.scopes, Str(b))
    case None => st.(output := st.output + [b + NotDeclared])
    case Some(tb) =>
      match Resolve(st.scopes, Str(a))
      case None => st.(scopes := PushTop(st.scopes, Token(IdentifierKind, tb.ty, Str(a), tb.value)))
      case Some(ta) =>
        if ta.ty == tb.ty then st.(scopes := Assigned(st.scopes, Str(a), tb.value))
        else st.(output := st.output + [a + InvalidAssignment])
  }

  /** `this.scopes[this.scopes.length - 1].push(t)`, which raises with no open scope. */
  function PushFresh(st: TsState, t: Token<JsName>): Outcome<JsName> {
    if |st.scopes| == 0 then Crash(NoOpenScope) else Next(st.(scopes := PushTop(st.scopes, t)))
  }

  /** `a = 5` / `a = "x"`, as written: the value is typed by an unanchored
      test, so a digit anywhere makes it a number. */
  function StepLiteral(st: TsState, line: string): Outcome<JsName>
    requires '=' in line
  {
    SplitHasSecondPart(line, '=');
    var parts := StripAll(Split(line, '='));
    LiteralOutcome(st, parts[0], parts[1], Search(Number, parts[1]), Search(Quoted, parts[1]))
  }

  /** The body of the literal branch for `a = v`, given the outcome of its
      number test and of its string test: declare `a` typed by the first
      test that passes, assign when the passing test fits `a`'s type, or
      report. */
  function LiteralOutcome(st: TsState, a: string, v: string, isNumber: bool, isQuoted: bool): Outcome<JsName> {
    match Resolve(st.scopes, Str(a))
    case None =>
      if isNumber then PushFresh(st, Token(IdentifierKind, "NUMERO", Str(a), v))
      else if isQuoted then PushFresh(st, Token(IdentifierKind, "CADEIA", Str(a), v))
      else Next(st.(output := st.output + [InvalidLiteral]))
    case Some(t) =>
      if t.ty == "NUMERO" && isNumber then Next(st.(scopes := Assigned(st.scopes, Str(a), v)))
      else if t.ty == "CADEIA" && isQuoted then Next(st.(scopes := Assigned(st.scopes, Str(a), v)))
      else Next(st.(output := st.output + [a + InvalidAssignment]))
  }

  /** The innermost block's name in a template literal: `undefined` when there is none. */
  function InnermostBlock(blocks: seq<string>): string {
    if |blocks| == 0 then "undefined" else Last(blocks)
  }

  /** `PRINT x`: the value and the innermost open block's name, or a report. */
  function StepPrint(st: TsState, line: string): TsState {
    var id := Last(Split(line, ' '));
    match Resolve(st.scopes, Str(id))
    case None => st.(output := st.output + [id + NotDeclared])
    case Some(t) => st.(output := st.output + [id + " = " + t.value + " em " + InnermostBlock(st.blocks)])
  }

  /** `processLine(line)`: normalise the line, pick the first branch whose
      guard holds and run it. */
  function Step(st: TsState, raw: string): Outcome<JsName> {
    var line := Normalize(raw);
    Dispatch(st, line, Classify(line, st.blocks))
  }

  /** The body of the branch `f` of processLine, on a line that fits it. */
  function Dispatch(st: TsState, line: string, f: Form): Outcome<JsName>
    requires Fits(f, line, st.blocks)
  {
    match f
    case BlockOpen => Next(OpenBlock(st, Last(Split(line, ' '))))
    case BlockClose => Next(CloseBlock(st))
    case DeclareWithInit => StepDeclareInit(st, line)
    case DeclareBare => StepDeclareBare(st, line)
    case CopyAssign => SearchAssignHasEquals(AssignIdent, line); Next(StepCopy(st, line))
    case LiteralAssign =>
      SearchAssignHasEquals(if Search(AssignNumber, line) then AssignNumber else AssignString, line);
      StepLiteral(st, line)
    case PrintStmt => Next(StepPrint(st, line))
    case NoStatement => Next(st)
  }

  /** `lines.forEach((line) => this.processLine(line))`: a raised error ends
      the run with the state reached so far. */
  function Run(st: TsState, lines: seq<string>): (TsState, Option<Fault>)
    decreases |lines|
  {
    if |lines| == 0 then (st, None)
    else match Step(st, lines[0])
      case Crash(f) => (st, Some(f))
      case Next(st') => Run(st', lines[1..])
  }

  /** One line of a run: a raised error ends it where it is, otherwise the
      run goes on from the new state. */
  lemma RunContinues(st: TsState, lines: seq<string>, after: TsState, fault: Option<Fault>)
    requires |lines| > 0 && Settles(Step(st, lines[0]), st, after, fault)
    ensures fault.Some? ==> Run(st, lines) == (st, fault)
    ensures fault.None? ==> Run(st, lines) == Run(after, lines[1..])
  {
  }

  // ------------------------------------------------------------ the class

  class ScopeManager {
    var scopes: seq<Scope<JsName>>
    var blockIdentifiers: seq<string>
    /** What `console.log` has printed, one entry per call. */
    var console: seq<string>

    function Snapshot(): TsState
      reads this
    {
      State(scopes, blockIdentifiers, console)
    }

    constructor ()
      ensures Snapshot() == State([], [], [])
    {
      scopes, blockIdentifiers, console := [], [], [];
    }

    method GetTokenByIdentifier(identifier: string) returns (token: Option<Token<JsName>>)
      ensures token == Resolve(scopes, Str(identifier))
    {
      var pos := FindToken(scopes, Str(identifier));
      match pos
      case None => token := None;
      case Some(p) => token := Some(scopes[p.scope][p.index]);
    }

    method AssignValueToToken(identifier: string, value: string)
      modifies this
      ensures scopes == Assigned(old(scopes), Str(identifier), value)
      ensures blockIdentifiers == old(blockIdentifiers) && console == old(console)
    {
      var pos := FindToken(scopes, Str(identifier));
      match pos
      case None =>
      case Some(p) =>
        scopes := scopes[p.scope := scopes[p.scope][p.index := scopes[p.scope][p.index].(value := value)]];
    }

    method ProcessLine(rawLine: string) returns (fault: Option<Fault>)
      modifies this
      ensures Settles(Step(old(Snapshot()), rawLine), old(Snapshot()), Snapshot(), fault)
    {
      var line := RemoveFirst(Strip(rawLine), '\n');
      fault := None;
      match Classify(line, blockIdentifiers)
      case BlockOpen =>
        blockIdentifiers := blockIdentifiers + [Last(Split(line, ' '))];
        scopes := scopes + [[]];
        console := console + ["\n*INICIO " + Last(blockIdentifiers) + "*"];
      case BlockClose =>
        if |scopes| > 0 {
          scopes := DropLast(scopes);
          console := console + ["\n*FIM " + Last(blockIdentifiers) + "*"];
          blockIdentifiers := DropLast(blockIdentifiers);
        }
      case DeclareWithInit =>
        fault := DeclareWithInitializer(line);
      case DeclareBare =>
        fault := DeclareWithoutInitializer(line);
      case CopyAssign =>
        SearchAssignHasEquals(AssignIdent, line);
        AssignIdentifier(line);
      case LiteralAssign =>
        SearchAssignHasEquals(if Search(AssignNumber, line) then AssignNumber else AssignString, line);
        fault := AssignLiteral(line);
      case PrintStmt =>
        PrintIdentifier(line);
      case NoStatement =>
    }

    /** Lines 94-128: the declared-with-initializer branch. */
    method DeclareWithInitializer(line: string) returns (fault: Option<Fault>)
      modifies this
      ensures Settles(StepDeclareInit(old(Snapshot()), line), old(Snapshot()), Snapshot(), fault)
    {
      var head := SplitLimit(line, ' ', 2);
      if |head| < 2 {
        return Some(MissingOperand);
      }
      var varType := head[0];
      var items := DeclarationItems(line, head[1]);
      fault := DeclareItems(DeclarationTokens(varType, items));
    }

    /** The forEach of lines 97-113 (a single item on lines 117-127), over
        the tokens the items make: each is pushed unless already there. */
    method DeclareItems(toks: seq<Token<JsName>>) returns (fault: Option<Fault>)
      requires |toks| >= 1
      modifies this
      ensures Settles(DeclareInTop(old(Snapshot()), toks), old(Snapshot()), Snapshot(), fault)
    {
      ghost var s0 := scopes;
      if |s0| > 0 {
        assert ReplaceTop(s0, DeclareAll(Last(s0), toks[..0])) == s0;
      }
      var k := 0;
      while k < |toks|
        invariant 0 <= k <= |toks|
        invariant k > 0 ==> |s0| > 0
        invariant |s0| == 0 ==> scopes == s0
        invariant |s0| > 0 ==> scopes == ReplaceTop(s0, DeclareAll(Last(s0), toks[..k]))
        invariant blockIdentifiers == old(blockIdentifiers) && console == old(console)
      {
        if |scopes| == 0 {
          return Some(NoOpenScope);
        }
        var token := toks[k];
        DeclareNextItem(s0, toks, k);
        if !VariableExists(token.name, Last(scopes)) {
          scopes := PushTop(scopes, token);
        }
        k := k + 1;
      }
      assert toks[..|toks|] == toks;
      return None;
    }

    /** Lines 133-143: the bare declaration branch. */
    method DeclareWithoutInitializer(line: string) returns (fault: Option<Fault>)
      modifies this
      ensures Settles(StepDeclareBare(old(Snapshot()), line), old(Snapshot()), Snapshot(), fault)
    {
      var t := BareToken(line);
      if |scopes| == 0 {
        return Some(NoOpenScope);
      }
      if !VariableExists(t.name, Last(scopes)) {
        scopes := PushTop(scopes, t);
      }
      return None;
    }

    /** Lines 145-165: identifier-to-identifier assignment. */
    method AssignIdentifier(line: string)
      requires '=' in line
      modifies this
      ensures Snapshot() == StepCopy(old(Snapshot()), line)
    {
      SplitHasSecondPart(line, '=');
      var parts := StripAll(Split(line, '='));
      CopyValue(parts[0], parts[1]);
    }

    /** Lines 146-164: the copy itself, once `idA` and `idB` are split off. */
    method CopyValue(idA: string, idB: string)
      modifies this
      ensures Snapshot() == CopyOutcome(old(Snapshot()), idA, idB)
    {
      var tokenB := GetTokenByIdentifier(idB);
      if tokenB.None? {
        console := console + [idB + NotDeclared];
        return;
      }
      var tokenA := GetTokenByIdentifier(idA);
      if tokenA.None? {
        scopes := PushTop(scopes, Token(IdentifierKind, tokenB.value.ty, Str(idA), tokenB.value.value));
      } else if tokenA.value.ty == tokenB.value.ty {
        AssignValueToToken(idA, tokenB.value.value);
      } else {
        console := console + [idA + InvalidAssignment];
      }
    }

    /** Lines 170-204: literal assignment. */
    method AssignLiteral(line: string) returns (fault: Option<Fault>)
      requires '=' in line
      modifies this
      ensures Settles(StepLiteral(old(Snapshot()), line), old(Snapshot()), Snapshot(), fault)
    {
      SplitHasSecondPart(line, '=');
      var parts := StripAll(Split(line, '='));
      fault := StoreLiteral(parts[0], parts[1]);
    }

    /** Lines 171-203: the assignment itself, once `idA` and `valueA` are
        split off. */
    method StoreLiteral(idA: string, valueA: string) returns (fault: Option<Fault>)
      modifies this
      ensures Settles(LiteralOutcome(old(Snapshot()), idA, valueA, Search(Number, valueA), Search(Quoted, valueA)),
                      old(Snapshot()), Snapshot(), fault)
    {
      var token := GetTokenByIdentifier(idA);
      fault := None;
      if token.None? {
        if Search(Number, valueA) {
          if |scopes| == 0 {
            return Some(NoOpenScope);
          }
          scopes := PushTop(scopes, Token(IdentifierKind, "NUMERO", Str(idA), valueA));
        } else if Search(Quoted, valueA) {
          if |scopes| == 0 {
            return Some(NoOpenScope);
          }
          scopes := PushTop(scopes, Token(IdentifierKind, "CADEIA", Str(idA), valueA));
        } else {
          console := console + [InvalidLiteral];
        }
      } else if token.value.ty == "NUMERO" && Search(Number, valueA) {
        AssignValueToToken(idA, valueA);
      } else if token.value.ty == "CADEIA" && Search(Quoted, valueA) {
        AssignValueToToken(idA, valueA);
      } else {
        console := console + [idA + InvalidAssignment];
      }
    }

    /** Lines 206-216: PRINT. */
    method PrintIdentifier(line: string)
      modifies this
      ensures Snapshot() == StepPrint(old(Snapshot()), line)
    {
      var idA := Last(Split(line, ' '));
      var token := GetTokenByIdentifier(idA);
      if token.None? {
        console := console + [idA + NotDeclared];
      } else {
        console := console + [idA + " = " + token.value.value + " em " + InnermostBlock(blockIdentifiers)];
      }
    }

    /** `processScope`, with the file's text as a parameter instead of read
        from disk: split at every newline and processed in order. */
    method ProcessScope(content: string) returns (fault: Option<Fault>)
      modifies this
      ensures (Snapshot(), fault) == Run(old(Snapshot()), Split(content, '\n'))
    {
      fault := ProcessLines(Split(content, '\n'));
    }

    /** The forEach of line 222: the lines in order, until one raises. */
    method ProcessLines(lines: seq<string>) returns (fault: Option<Fault>)
      modifies this
      ensures (Snapshot(), fault) == Run(old(Snapshot()), lines)
    {
      for k := 0 to |lines|
        invariant Run(old(Snapshot()), lines) == Run(Snapshot(), lines[k..])
      {
        ghost var before := Snapshot();
        fault := ProcessLine(lines[k]);
        RunContinues(before, lines[k..], Snapshot(), fault);
        if fault.Some? {
          return;
        }
        assert lines[k..][1..] == lines[k + 1..];
      }
      return None;
    }
  }
}
