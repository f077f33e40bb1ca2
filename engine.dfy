/** The scope-stack engine both checkers share: tokens, scopes, innermost-first
    lookup, per-scope existence, value update and declare-if-absent.

    Token names are generic: the Python checker names every token with a
    string, the TypeScript one can also push a token whose name is
    JavaScript's `undefined`. */
module ScopeEngine {
  import opened Text

  datatype Option<T> = None | Some(value: T)

  /** One symbol-table entry, the source's list `[kind, type, name, value]`.
      The type is the raw keyword text and the value the literal text. */
  datatype Token<N> = Token(kind: string, ty: string, name: N, value: string)

  /** The kind every token carries. */
  const IdentifierKind := "tk_identificador"

  type Scope<N> = seq<Token<N>>

  /** The checker's whole state: the scope stack, the parallel stack of
      block names and the output lines emitted so far. */
  datatype State<N> = State(scopes: seq<Scope<N>>, blocks: seq<string>, output: seq<string>)

  /** Where the source raises instead of returning. */
  datatype Fault =
    | MissingOperand   // nothing after the keyword's first space: rest[0] / rest.split on undefined
    | UnpackMismatch   // Python tuple unpacking with the wrong number of parts
    | NoOpenScope      // scopes[-1] / this.scopes[length - 1] with no open block
    | NoOpenBlock      // block_identifiers[-1] with no open block

  /** What one processed line leads to: the next state, or a raised error. */
  datatype Outcome<N> = Next(state: State<N>) | Crash(fault: Fault)

  /** The statement forms, in the order both checkers try them. */
  datatype Form =
    | BlockOpen | BlockClose | DeclareWithInit | DeclareBare
    | CopyAssign | LiteralAssign | PrintStmt | NoStatement

  function Rank(f: Form): nat {
    match f
    case BlockOpen => 0
    case BlockClose => 1
    case DeclareWithInit => 2
    case DeclareBare => 3
    case CopyAssign => 4
    case LiteralAssign => 5
    case PrintStmt => 6
    case NoStatement => 7
  }

  const InitialState: State<string> := State([], [], [])

  /** A method's final state and reported fault agree with an Outcome:
      on a crash nothing has changed. */
  ghost predicate Settles<N>(o: Outcome<N>, before: State<N>, after: State<N>, fault: Option<Fault>) {
    match o
    case Next(s) => after == s && fault == None
    case Crash(f) => after == before && fault == Some(f)
  }

  // ---------------------------------------------------------------- lookup

  /** `variable_exists(identifier, scope)` / `variableExists`: some token of
      this one scope is named `id`. */
  function VariableExists<N(==)>(id: N, scope: Scope<N>): (b: bool)
    ensures b <==> exists k :: 0 <= k < |scope| && scope[k].name == id
    decreases |scope|
  {
    |scope| > 0 && (scope[0].name == id || VariableExists(id, scope[1..]))
  }

  /** The first token of `scope` named `id`. */
  function FindInScope<N(==)>(scope: Scope<N>, id: N): (r: Option<nat>)
    ensures r.None? <==> !VariableExists(id, scope)
    ensures r.Some? ==> r.value < |scope| && scope[r.value].name == id
                        && forall k :: 0 <= k < r.value ==> scope[k].name != id
    decreases |scope|
  {
    if |scope| == 0 then None
    else if scope[0].name == id then Some(0)
    else match FindInScope(scope[1..], id)
      case None => None
      case Some(k) => Some(k + 1)
  }

  /** Some scope of the stack has a token named `id`. */
  ghost predicate Declared<N>(scopes: seq<Scope<N>>, id: N) {
    exists i :: 0 <= i < |scopes| && VariableExists(id, scopes[i])
  }

  datatype Position = Position(scope: nat, index: nat)

  ghost predicate ValidPosition<N>(scopes: seq<Scope<N>>, p: Position) {
    p.scope < |scopes| && p.index < |scopes[p.scope]|
  }

  /** Where innermost-first lookup stops: the last scope holding `id`, and
      the first token of that scope with that name. */
  function Locate<N(==)>(scopes: seq<Scope<N>>, id: N): (r: Option<Position>)
    ensures r.None? <==> !Declared(scopes, id)
    ensures r.Some? ==> ValidPosition(scopes, r.value)
                        && FindInScope(scopes[r.value.scope], id) == Some(r.value.index)
                        && forall i :: r.value.scope < i < |scopes| ==> !VariableExists(id, scopes[i])
    decreases |scopes|
  {
    if |scopes| == 0 then None
    else match FindInScope(Last(scopes), id)
      case Some(k) => Some(Position(|scopes| - 1, k))
      case None =>
        var r := Locate(DropLast(scopes), id);
        assert forall i :: 0 <= i < |scopes| - 1 ==> DropLast(scopes)[i] == scopes[i];
        r
  }

  /** `get_token_by_identifier` / `getTokenByIdentifier` as a value: the token
      innermost-first lookup returns. */
  function Resolve<N(==)>(scopes: seq<Scope<N>>, id: N): (r: Option<Token<N>>)
    ensures r.None? <==> !Declared(scopes, id)
    ensures r.Some? ==> |scopes| > 0 && r.value.name == id
  {
    match Locate(scopes, id)
    case None => None
    case Some(p) => Some(scopes[p.scope][p.index])
  }

  /** Lookup is innermost-first: a name the top scope holds resolves to the
      top scope's token, whatever outer scopes hold (shadowing). */
  lemma ResolveShadows<N>(scopes: seq<Scope<N>>, id: N)
    requires |scopes| > 0 && VariableExists(id, Last(scopes))
    ensures Resolve(scopes, id) == Some(Last(scopes)[FindInScope(Last(scopes), id).value])
  {
  }

  /** A name absent from the top scope resolves as it did before the top
      scope was opened. */
  lemma ResolveSkipsTop<N>(scopes: seq<Scope<N>>, id: N)
    requires |scopes| > 0 && !VariableExists(id, Last(scopes))
    ensures Resolve(scopes, id) == Resolve(DropLast(scopes), id)
  {
  }

  /** The lookup loop of get_token_by_identifier and assign_value_to_token:
      scopes from the innermost out, tokens in declaration order, first hit wins. */
  method FindToken<N(==)>(scopes: seq<Scope<N>>, id: N) returns (pos: Option<Position>)
    ensures pos == Locate(scopes, id)
  {
    var i := |scopes|;
    while i > 0
      invariant 0 <= i <= |scopes|
      invariant forall k :: i <= k < |scopes| ==> !VariableExists(id, scopes[k])
    {
      i := i - 1;
      var scope := scopes[i];
      var j := 0;
      while j < |scope|
        invariant 0 <= j <= |scope|
        invariant forall k :: 0 <= k < j ==> scope[k].name != id
      {
        if scope[j].name == id {
          pos := Some(Position(i, j));
          LocateIsInnermost(scopes, id, i, j);
          return;
        }
        j := j + 1;
      }
    }
    pos := None;
  }

  /** Locate is pinned down by its contract: the innermost scope holding the
      name, and the first matching token in it. */
  lemma LocateIsInnermost<N>(scopes: seq<Scope<N>>, id: N, i: nat, j: nat)
    requires i < |scopes| && j < |scopes[i]| && scopes[i][j].name == id
    requires forall k :: 0 <= k < j ==> scopes[i][k].name != id
    requires forall k :: i < k < |scopes| ==> !VariableExists(id, scopes[k])
    ensures Locate(scopes, id) == Some(Position(i, j))
  {
    assert VariableExists(id, scopes[i]);
    var p := Locate(scopes, id).value;
    if p.scope < i {
    } else if p.scope > i {
    } else {
      var f := FindInScope(scopes[i], id).value;
      assert !(f < j) && !(j < f);
    }
  }

  // ---------------------------------------------------------------- update

  /** `assign_value_to_token` / `assignValueToToken` as a value: the token
      that lookup finds gets the new value; with no such token nothing changes. */
  function Assigned<N(==)>(scopes: seq<Scope<N>>, id: N, v: string): (r: seq<Scope<N>>)
    ensures |r| == |scopes|
  {
    match Locate(scopes, id)
    case None => scopes
    case Some(p) => scopes[p.scope := scopes[p.scope][p.index := scopes[p.scope][p.index].(value := v)]]
  }

  /** Two stacks of the same shape whose tokens agree on kind, type and name. */
  ghost predicate SameSymbols<N>(a: seq<Scope<N>>, b: seq<Scope<N>>) {
    |a| == |b| &&
    (forall i :: 0 <= i < |a| ==> |a[i]| == |b[i]|) &&
    (forall i, j :: 0 <= i < |a| && 0 <= j < |a[i]| ==>
       a[i][j].name == b[i][j].name && a[i][j].ty == b[i][j].ty && a[i][j].kind == b[i][j].kind)
  }

  /** Lookup reads only names: stacks with the same symbols locate alike. */
  lemma {:induction false} LocateSeesOnlyNames<N>(a: seq<Scope<N>>, b: seq<Scope<N>>, id: N)
    requires SameSymbols(a, b)
    ensures Locate(a, id) == Locate(b, id)
    decreases |a|
  {
    if |a| > 0 {
      FindInScopeSeesOnlyNames(Last(a), Last(b), id);
      assert SameSymbols(DropLast(a), DropLast(b));
      LocateSeesOnlyNames(DropLast(a), DropLast(b), id);
    }
  }

  lemma {:induction false} FindInScopeSeesOnlyNames<N>(a: Scope<N>, b: Scope<N>, id: N)
    requires |a| == |b| && forall j :: 0 <= j < |a| ==> a[j].name == b[j].name
    ensures FindInScope(a, id) == FindInScope(b, id)
    decreases |a|
  {
    if |a| > 0 {
      FindInScopeSeesOnlyNames(a[1..], b[1..], id);
    }
  }

  /** Assignment changes the value of the one token lookup finds and nothing
      else: every other token, and every kind, type and name, stays; looking
      the name up again gives the same token with the new value, and every
      other name resolves as before. */
  lemma AssignedEffect<N>(scopes: seq<Scope<N>>, id: N, v: string)
    ensures SameSymbols(scopes, Assigned(scopes, id, v))
    ensures forall i, j :: 0 <= i < |scopes| && 0 <= j < |scopes[i]| ==>
              Assigned(scopes, id, v)[i][j] ==
                (if Locate(scopes, id) == Some(Position(i, j)) then scopes[i][j].(value := v) else scopes[i][j])
    ensures Resolve(Assigned(scopes, id, v), id) ==
              (match Resolve(scopes, id) case None => None case Some(t) => Some(t.(value := v)))
    ensures forall other :: other != id ==> Resolve(Assigned(scopes, id, v), other) == Resolve(scopes, other)
  {
    AssignedShape(scopes, id, v);
    LocateSeesOnlyNames(scopes, Assigned(scopes, id, v), id);
    forall other | other != id
      ensures Resolve(Assigned(scopes, id, v), other) == Resolve(scopes, other)
    {
      AssignedLeaves(scopes, id, v, other);
    }
  }

  lemma AssignedShape<N>(scopes: seq<Scope<N>>, id: N, v: string)
    ensures SameSymbols(scopes, Assigned(scopes, id, v))
    ensures forall i, j :: 0 <= i < |scopes| && 0 <= j < |scopes[i]| ==>
              Assigned(scopes, id, v)[i][j] ==
                (if Locate(scopes, id) == Some(Position(i, j)) then scopes[i][j].(value := v) else scopes[i][j])
  {
    var r := Assigned(scopes, id, v);
    if Locate(scopes, id).Some? {
      var p := Locate(scopes, id).value;
      assert |r| == |scopes| && r[p.scope] == scopes[p.scope][p.index := scopes[p.scope][p.index].(value := v)];
      forall i | 0 <= i < |scopes| && i != p.scope
        ensures r[i] == scopes[i]
      {
      }
    }
  }

  /** Assigning one name leaves the lookup of any other name alone. */
  lemma AssignedLeaves<N>(scopes: seq<Scope<N>>, id: N, v: string, other: N)
    requires other != id
    ensures Resolve(Assigned(scopes, id, v), other) == Resolve(scopes, other)
  {
    LocateSeesOnlyNames(scopes, Assigned(scopes, id, v), other);
    if Locate(scopes, other).Some? && Locate(scopes, id).Some? {
      var p, q := Locate(scopes, other).value, Locate(scopes, id).value;
      assert p != q by {
        assert scopes[p.scope][p.index].name == other;
        assert scopes[q.scope][q.index].name == id;
      }
    }
  }

  // ---------------------------------------------------------------- declaration

  /** `if not variable_exists(name, scope): scope.append(token)`. */
  function DeclareIfAbsent<N(==)>(scope: Scope<N>, t: Token<N>): Scope<N> {
    if VariableExists(t.name, scope) then scope else scope + [t]
  }

  /** Declare-if-absent for each token in turn, as the comma loop does. */
  function DeclareAll<N(==)>(scope: Scope<N>, toks: seq<Token<N>>): Scope<N>
    decreases |toks|
  {
    if |toks| == 0 then scope else DeclareIfAbsent(DeclareAll(scope, DropLast(toks)), Last(toks))
  }

  /** No two tokens of a scope share a name. */
  ghost predicate UniqueNames<N>(scope: Scope<N>) {
    forall i, j :: 0 <= i < j < |scope| ==> scope[i].name != scope[j].name
  }

  /** One declare-if-absent keeps names unique, keeps the scope as a prefix,
      leaves the name declared and adds nothing but `t`. */
  lemma DeclareIfAbsentEffect<N>(scope: Scope<N>, t: Token<N>)
    requires UniqueNames(scope)
    ensures UniqueNames(DeclareIfAbsent(scope, t))
    ensures scope <= DeclareIfAbsent(scope, t)
    ensures VariableExists(t.name, DeclareIfAbsent(scope, t))
    ensures forall j :: |scope| <= j < |DeclareIfAbsent(scope, t)| ==> DeclareIfAbsent(scope, t)[j] == t
  {
    if !VariableExists(t.name, scope) {
      assert DeclareIfAbsent(scope, t)[|scope|] == t;
    }
  }

  /** Extending a scope at its end does not change where an existing name is
      first found. */
  lemma FindInPrefix<N>(s: Scope<N>, s': Scope<N>, id: N)
    requires s <= s' && VariableExists(id, s)
    ensures FindInScope(s', id) == FindInScope(s, id)
  {
    var k := FindInScope(s, id).value;
    assert s'[k] == s[k];
    var f := FindInScope(s', id).value;
    assert !(k < f);
  }

  /** Declaring keeps names unique, keeps every existing token as it was (a
      redeclaration is a no-op), and leaves every listed name declared. */
  lemma {:induction false} DeclareAllEffect<N>(scope: Scope<N>, toks: seq<Token<N>>)
    requires UniqueNames(scope)
    ensures UniqueNames(DeclareAll(scope, toks))
    ensures scope <= DeclareAll(scope, toks)
    ensures forall k :: 0 <= k < |toks| ==> VariableExists(toks[k].name, DeclareAll(scope, toks))
    ensures forall j :: |scope| <= j < |DeclareAll(scope, toks)| ==> DeclareAll(scope, toks)[j] in toks
    decreases |toks|
  {
    if |toks| > 0 {
      var prev := DeclareAll(scope, DropLast(toks));
      DeclareAllEffect(scope, DropLast(toks));
      var r := DeclareAll(scope, toks);
      assert r == DeclareIfAbsent(prev, Last(toks));
      DeclareIfAbsentEffect(prev, Last(toks));
      forall k | 0 <= k < |toks| - 1
        ensures VariableExists(toks[k].name, r)
      {
        assert toks[k] == DropLast(toks)[k];
        var w :| 0 <= w < |prev| && prev[w].name == toks[k].name;
        assert r[w] == prev[w];
      }
      forall j | |scope| <= j < |prev|
        ensures r[j] in toks
      {
        assert r[j] == prev[j];
        assert prev[j] in DropLast(toks);
      }
    }
  }

  /** The item `toks[k]` is the first of the items with its name. */
  ghost predicate FirstOfName<N>(toks: seq<Token<N>>, k: nat)
    requires k < |toks|
  {
    forall j :: 0 <= j < k ==> toks[j].name != toks[k].name
  }

  /** A name the scope lacks is found, after declaring the items, at the
      first item that carries it: later items of the same name are dropped. */
  lemma {:induction false} DeclareAllFirst<N>(scope: Scope<N>, toks: seq<Token<N>>, k: nat)
    requires UniqueNames(scope) && k < |toks|
    requires !VariableExists(toks[k].name, scope) && FirstOfName(toks, k)
    ensures var r := DeclareAll(scope, toks);
            FindInScope(r, toks[k].name).Some? && r[FindInScope(r, toks[k].name).value] == toks[k]
    decreases |toks|
  {
    var x := toks[k].name;
    var front := DropLast(toks);
    var prev := DeclareAll(scope, front);
    var r := DeclareAll(scope, toks);
    assert r == DeclareIfAbsent(prev, Last(toks));
    DeclareAllEffect(scope, front);
    if k == |toks| - 1 {
      forall j | 0 <= j < |prev|
        ensures prev[j].name != x
      {
        if j < |scope| {
          assert prev[j] == scope[j];
        } else {
          var i :| 0 <= i < |front| && front[i] == prev[j];
          assert front[i] == toks[i];
        }
      }
      assert r == prev + [toks[k]];
      assert r[|prev|] == toks[k];
      var f := FindInScope(r, x).value;
      assert !(f < |prev|);
    } else {
      assert front[k] == toks[k];
      assert FirstOfName(front, k) by {
        forall j | 0 <= j < k
          ensures front[j].name != front[k].name
        {
          assert front[j] == toks[j];
        }
      }
      DeclareAllFirst(scope, front, k);
      FindInPrefix(prev, r, x);
    }
  }

  /** Declaring items into the top scope, read through lookup: a name the top
      scope held resolves as before, a new name resolves to its first item,
      and a name no item carries resolves as before. */
  lemma DeclareTopResolves<N>(scopes: seq<Scope<N>>, toks: seq<Token<N>>)
    requires |scopes| > 0 && UniqueNames(Last(scopes))
    ensures var s' := ReplaceTop(scopes, DeclareAll(Last(scopes), toks));
            (forall k :: 0 <= k < |toks| && !VariableExists(toks[k].name, Last(scopes)) && FirstOfName(toks, k) ==>
               Resolve(s', toks[k].name) == Some(toks[k]))
            && (forall x :: VariableExists(x, Last(scopes)) ==> Resolve(s', x) == Resolve(scopes, x))
            && (forall x :: (forall k :: 0 <= k < |toks| ==> toks[k].name != x) ==> Resolve(s', x) == Resolve(scopes, x))
  {
    var top := Last(scopes);
    var top' := DeclareAll(top, toks);
    var s' := ReplaceTop(scopes, top');
    assert Last(s') == top' && DropLast(s') == DropLast(scopes);
    DeclareAllEffect(top, toks);
    forall k | 0 <= k < |toks| && !VariableExists(toks[k].name, top) && FirstOfName(toks, k)
      ensures Resolve(s', toks[k].name) == Some(toks[k])
    {
      DeclareAllFirst(top, toks, k);
      ResolveShadows(s', toks[k].name);
    }
    forall x | VariableExists(x, top)
      ensures Resolve(s', x) == Resolve(scopes, x)
    {
      FindInPrefix(top, top', x);
      ResolveShadows(scopes, x);
      ResolveShadows(s', x);
    }
    forall x | (forall k :: 0 <= k < |toks| ==> toks[k].name != x)
      ensures Resolve(s', x) == Resolve(scopes, x)
    {
      if !VariableExists(x, top) {
        forall j | 0 <= j < |top'|
          ensures top'[j].name != x
        {
          if j >= |top| {
            var i :| 0 <= i < |toks| && toks[i] == top'[j];
          }
        }
        ResolveSkipsTop(scopes, x);
        ResolveSkipsTop(s', x);
      } else {
        FindInPrefix(top, top', x);
        ResolveShadows(scopes, x);
        ResolveShadows(s', x);
      }
    }
  }

  /** A name declared in a scope keeps its token through any later
      declarations in that scope: `NUMERO x = 1` then `NUMERO x = 2` leaves 1. */
  lemma RedeclarationKeepsFirst<N>(scope: Scope<N>, toks: seq<Token<N>>, k: nat)
    requires UniqueNames(scope) && k < |scope|
    ensures k < |DeclareAll(scope, toks)| && DeclareAll(scope, toks)[k] == scope[k]
  {
    DeclareAllEffect(scope, toks);
  }

  /** After `if not variable_exists(t.name, top): top.append(t)` the name
      exists in the top scope and resolves to that scope's first token of
      the name, shadowing every outer one; when the top scope lacked the
      name, that token is `t`. */
  lemma DeclareIfAbsentResolves<N>(scopes: seq<Scope<N>>, t: Token<N>)
    requires |scopes| > 0
    ensures var s' := ReplaceTop(scopes, DeclareIfAbsent(Last(scopes), t));
            |s'| == |scopes| && VariableExists(t.name, Last(s'))
            && Resolve(s', t.name) == Some(Last(s')[FindInScope(Last(s'), t.name).value])
            && (!VariableExists(t.name, Last(scopes)) ==> Resolve(s', t.name) == Some(t))
  {
    var s' := ReplaceTop(scopes, DeclareIfAbsent(Last(scopes), t));
    var top := Last(s');
    if !VariableExists(t.name, Last(scopes)) {
      assert top == Last(scopes) + [t];
      assert top[|top| - 1] == t;
      assert FindInScope(top, t.name) == Some(|top| - 1) by {
        var k := FindInScope(top, t.name).value;
        assert !(k < |top| - 1);
      }
    }
    ResolveShadows(s', t.name);
  }

  /** `if not variable_exists(t.name, top): top.append(t)` touches only the
      top scope, keeps its tokens as a prefix, and changes nothing about any
      other name. */
  lemma DeclareIfAbsentLeaves<N(!new)>(scopes: seq<Scope<N>>, t: Token<N>)
    requires |scopes| > 0
    ensures var s' := ReplaceTop(scopes, DeclareIfAbsent(Last(scopes), t));
            |s'| == |scopes| && DropLast(s') == DropLast(scopes) && Last(scopes) <= Last(s')
            && forall other :: other != t.name ==> Resolve(s', other) == Resolve(scopes, other)
  {
    var s' := ReplaceTop(scopes, DeclareIfAbsent(Last(scopes), t));
    assert DropLast(s') == DropLast(scopes);
    if VariableExists(t.name, Last(scopes)) {
      assert s' == scopes;
    } else {
      assert s' == PushTop(scopes, t);
      forall other | other != t.name
        ensures Resolve(s', other) == Resolve(scopes, other)
      {
        PushTopLeaves(scopes, t, other);
      }
    }
  }

  // ---------------------------------------------------------------- the stack

  /** `scopes[-1].append(t)`. */
  function PushTop<N>(scopes: seq<Scope<N>>, t: Token<N>): seq<Scope<N>>
    requires |scopes| > 0
  {
    scopes[|scopes| - 1 := Last(scopes) + [t]]
  }

  /** The top scope replaced by `top`. */
  function ReplaceTop<N>(scopes: seq<Scope<N>>, top: Scope<N>): seq<Scope<N>>
    requires |scopes| > 0
  {
    scopes[|scopes| - 1 := top]
  }

  /** One more round of the declaration loop: the top scope after k + 1
      items is the top after k items, plus the (k+1)-th token if its name is new. */
  lemma DeclareNextItem<N>(s0: seq<Scope<N>>, toks: seq<Token<N>>, k: nat)
    requires |s0| > 0 && k < |toks|
    ensures |ReplaceTop(s0, DeclareAll(Last(s0), toks[..k]))| == |s0|
    ensures Last(ReplaceTop(s0, DeclareAll(Last(s0), toks[..k]))) == DeclareAll(Last(s0), toks[..k])
    ensures ReplaceTop(s0, DeclareAll(Last(s0), toks[..k + 1])) ==
              (var x := ReplaceTop(s0, DeclareAll(Last(s0), toks[..k]));
               if VariableExists(toks[k].name, Last(x)) then x else PushTop(x, toks[k]))
  {
    assert DropLast(toks[..k + 1]) == toks[..k];
  }

  /** `BLOCO <name>`: a new empty scope and its name on top of both stacks,
      and the `*INICIO <name>*` line. */
  function OpenBlock<N>(st: State<N>, name: string): State<N> {
    State(st.scopes + [[]], st.blocks + [name], st.output + ["\n*INICIO " + name + "*"])
  }

  /** `FIM <innermost name>`: pop one scope and one name, with the
      `*FIM <name>*` line, if there is a scope; otherwise nothing. */
  function CloseBlock<N>(st: State<N>): State<N>
    requires |st.blocks| > 0
  {
    if |st.scopes| == 0 then st
    else State(DropLast(st.scopes), DropLast(st.blocks), st.output + ["\n*FIM " + Last(st.blocks) + "*"])
  }

  /** The checker's invariant: one block name per scope, and no scope with two
      tokens of one name. */
  ghost predicate Valid<N>(st: State<N>) {
    |st.scopes| == |st.blocks| &&
    forall i :: 0 <= i < |st.scopes| ==> UniqueNames(st.scopes[i])
  }

  /** Tokens that exist before and after a step kept their kind, type and name
      (values may change); tokens are never removed except with their scope. */
  ghost predicate KeepsSymbols<N>(before: seq<Scope<N>>, after: seq<Scope<N>>) {
    forall i, j :: 0 <= i < |before| && i < |after| && 0 <= j < |before[i]| ==>
      j < |after[i]| && after[i][j].name == before[i][j].name
      && after[i][j].ty == before[i][j].ty && after[i][j].kind == before[i][j].kind
  }

  /** The output only grows, by at most one line per step. */
  ghost predicate AppendsAtMostOne(before: seq<string>, after: seq<string>) {
    before <= after && |after| <= |before| + 1
  }

  /** Pushing onto the top scope a name no scope declares keeps the invariant
      and every existing symbol. */
  lemma PushFreshKeepsValid<N>(st: State<N>, t: Token<N>)
    requires Valid(st) && |st.scopes| > 0 && !Declared(st.scopes, t.name)
    ensures Valid(st.(scopes := PushTop(st.scopes, t)))
    ensures KeepsSymbols(st.scopes, PushTop(st.scopes, t))
  {
    assert !VariableExists(t.name, Last(st.scopes));
  }

  /** A token pushed for a name no scope declares is what the name resolves to. */
  lemma NewTopTokenResolves<N>(scopes: seq<Scope<N>>, t: Token<N>)
    requires |scopes| > 0 && !Declared(scopes, t.name)
    ensures Resolve(PushTop(scopes, t), t.name) == Some(t)
  {
    var r := PushTop(scopes, t);
    assert !VariableExists(t.name, Last(scopes));
    assert Last(r)[|Last(r)| - 1] == t;
    var k := FindInScope(Last(r), t.name).value;
    assert !(k < |Last(r)| - 1);
    ResolveShadows(r, t.name);
  }

  /** Pushing a token changes nothing about any other name. */
  lemma PushTopLeaves<N>(scopes: seq<Scope<N>>, t: Token<N>, other: N)
    requires |scopes| > 0 && other != t.name
    ensures Resolve(PushTop(scopes, t), other) == Resolve(scopes, other)
  {
    var r := PushTop(scopes, t);
    assert DropLast(r) == DropLast(scopes);
    if VariableExists(other, Last(scopes)) {
      FindInPrefix(Last(scopes), Last(r), other);
      ResolveShadows(scopes, other);
      ResolveShadows(r, other);
    } else {
      assert !VariableExists(other, Last(r));
      ResolveSkipsTop(scopes, other);
      ResolveSkipsTop(r, other);
    }
  }

  /** A rejected statement: one report line and nothing else changes. */
  ghost predicate Rejects<N>(st: State<N>, st': State<N>, report: string) {
    st' == st.(output := st.output + [report])
  }

  /** An accepted binding of `id` to `t`: nothing is written, the blocks and
      the number of scopes stay, `id` now resolves to `t` and every other
      name resolves as before. */
  ghost predicate Binds<N(!new)>(st: State<N>, st': State<N>, id: N, t: Token<N>) {
    st'.blocks == st.blocks && |st'.scopes| == |st.scopes| && st'.output == st.output
    && Resolve(st'.scopes, id) == Some(t)
    && forall other :: other != id ==> Resolve(st'.scopes, other) == Resolve(st.scopes, other)
  }

  /** A binding of `id` made where `id`'s innermost token lives: that token
      alone takes the value of `t` (as AssignedEffect describes `Assigned`). */
  ghost predicate UpdatesInPlace<N(!new)>(st: State<N>, st': State<N>, id: N, t: Token<N>) {
    Binds(st, st', id, t) && st'.scopes == Assigned(st.scopes, id, t.value)
  }

  /** A binding of a new name made by appending `t` to the innermost scope:
      every outer scope stays as it was, so closing the block drops it. */
  ghost predicate PushesInnermost<N(!new)>(st: State<N>, st': State<N>, t: Token<N>) {
    Binds(st, st', t.name, t) && |st.scopes| > 0
    && DropLast(st'.scopes) == DropLast(st.scopes) && Last(st'.scopes) == Last(st.scopes) + [t]
  }

  /** Pushing a fresh name binds it to the pushed token, in the innermost scope. */
  lemma PushFreshBinds<N(!new)>(st: State<N>, t: Token<N>)
    requires |st.scopes| > 0 && !Declared(st.scopes, t.name)
    ensures Binds(st, st.(scopes := PushTop(st.scopes, t)), t.name, t)
    ensures PushesInnermost(st, st.(scopes := PushTop(st.scopes, t)), t)
  {
    assert DropLast(PushTop(st.scopes, t)) == DropLast(st.scopes);
    NewTopTokenResolves(st.scopes, t);
    forall other | other != t.name
      ensures Resolve(PushTop(st.scopes, t), other) == Resolve(st.scopes, other)
    {
      PushTopLeaves(st.scopes, t, other);
    }
  }

  /** Assigning a declared name binds it to its token with the new value,
      updated where it was found. */
  lemma AssignedBinds<N(!new)>(st: State<N>, id: N, v: string)
    requires Resolve(st.scopes, id).Some?
    ensures Binds(st, st.(scopes := Assigned(st.scopes, id, v)), id, Resolve(st.scopes, id).value.(value := v))
    ensures UpdatesInPlace(st, st.(scopes := Assigned(st.scopes, id, v)), id, Resolve(st.scopes, id).value.(value := v))
  {
    AssignedEffect(st.scopes, id, v);
  }

  /** Replacing the top scope by a declared-into version of it keeps the
      invariant and every existing symbol. */
  lemma DeclareTopKeepsValid<N>(st: State<N>, toks: seq<Token<N>>)
    requires Valid(st) && |st.scopes| > 0
    ensures Valid(st.(scopes := ReplaceTop(st.scopes, DeclareAll(Last(st.scopes), toks))))
    ensures KeepsSymbols(st.scopes, ReplaceTop(st.scopes, DeclareAll(Last(st.scopes), toks)))
  {
    DeclareAllEffect(Last(st.scopes), toks);
  }

  /** Assignment keeps the invariant and every symbol. */
  lemma AssignedKeepsValid<N>(st: State<N>, id: N, v: string)
    requires Valid(st)
    ensures Valid(st.(scopes := Assigned(st.scopes, id, v)))
    ensures KeepsSymbols(st.scopes, Assigned(st.scopes, id, v))
  {
    AssignedEffect(st.scopes, id, v);
  }

  /** Opening a block keeps the invariant and every symbol. */
  lemma OpenBlockKeepsValid<N>(st: State<N>, name: string)
    requires Valid(st)
    ensures Valid(OpenBlock(st, name)) && KeepsSymbols(st.scopes, OpenBlock(st, name).scopes)
  {
    var st' := OpenBlock(st, name);
    assert forall i :: 0 <= i < |st.scopes| ==> st'.scopes[i] == st.scopes[i];
  }

  /** Closing a block keeps the invariant and every symbol of the scopes
      that stay open. */
  lemma CloseBlockKeepsValid<N>(st: State<N>)
    requires Valid(st) && |st.blocks| > 0
    ensures Valid(CloseBlock(st)) && KeepsSymbols(st.scopes, CloseBlock(st).scopes)
  {
    var st' := CloseBlock(st);
    assert forall i :: 0 <= i < |st'.scopes| ==> st'.scopes[i] == st.scopes[i];
  }
}
