# ScopeManager — a verified model of the scope and type checker

The ScopeManager reads a small block-structured language one line at a time:

- `BLOCO name` opens a block, and `FIM name` closes the innermost one.
- `NUMERO` and `CADEIA` declarations may have initialisers (`NUMERO a = 1, b`).
- Assignments are `a = b` or `a = 5` / `a = "x"`.
- `PRINT x` prints a name's value.

It keeps a stack of scopes, one per open block. Each scope holds tokens `[kind, type, name, value]`, next to a parallel stack of block names. It writes one output line per block opened or closed, per value printed and per rejected statement.

The checker exists twice, and both are modelled:

- `scope_manager.py`: the class `ScopeManager` in Python. Patterns go through `re.match`, which matches at the start of the line. Diagnostics carry `Linha n:`.
- `ScopeManager.ts`: the same class in TypeScript. Patterns go through `RegExp.test`, which matches anywhere in the line. Diagnostics are logged without a line number.

The project is built in layers:

- `text.dfy` (module `Text`) models the string operations the code uses:
  - `str.split` / `String.split`, including the limited forms;
  - `strip` / `trim`;
  - `replace` of newlines;
  - `in` / `includes`;
  - decimal rendering of line numbers.
- `patterns.dfy` (module `Patterns`) writes out the fixed regular expressions of the constructors (`[+-]?\d+(\.\d+)?`, `"([^"]*)"`, `ident\s*=\s*…`, `NUMERO\s+…`, `PRINT\s+…`, `FIM\s+<name>`). Each has two match modes: `MatchAt`, a match at offset 0, and `Search`, a match at some offset.
- `engine.dfy` (module `ScopeEngine`) holds the scope stack both classes share:
  - innermost-first lookup (`get_token_by_identifier`);
  - per-scope existence (`variable_exists`);
  - value update (`assign_value_to_token`);
  - declare-if-absent;
  - opening and closing a block;
  - the state invariant `Valid`: one block name per scope, and no two tokens of one name in a scope.
- `py_scope_manager.dfy` and `ts_scope_manager.dfy` each give:
  - `Step`, what `process_line` / `processLine` does to the whole state, branch by branch;
  - `Run`, the line loop;
  - a `class ScopeManager` whose fields (`scopes`, `blockIdentifiers`, and `outputLines` or `console`) are updated in place. Its methods are proved to do exactly what `Step` and `Run` say.
- `py_properties.dfy` and `ts_properties.dfy` prove the checkers' properties:
  - the invariant is kept by every line and every run;
  - only `BLOCO` and `FIM` change the block structure;
  - raised errors, and when they can happen;
  - what declarations, assignments and `PRINT` do.
- `ts_findings.dfy` exhibits two defects of the TypeScript code and proves the intended behaviour of corrected definitions.
- `sample_program.dfy` (module `SampleProgram`) is a four-line program, `BLOCO a / NUMERO x = d / PRINT x / FIM a`, for any block name, variable name and digit string. `py_walkthrough.dfy` and `ts_walkthrough.dfy` run it through each checker's whole line dispatch:
  - Python prints `x = d em a`;
  - TypeScript logs `x = 0 em a`, the first finding below seen on a whole run.

A line that raises an exception in the source (an index into an empty list, a tuple unpacking of the wrong size, `split` on `undefined`) becomes `Crash(fault)`:

- Every such raise happens before anything is changed, so the state is left as it was.
- The line loop stops there, as the exception would stop `process_scope` / `processScope`.

Two details differ between the two checkers, and each model follows its own code:

- Python's `PRINT` report for an unknown name carries the `Linha n:` prefix (`scope_manager.py:161`); TypeScript's does not (`ScopeManager.ts:209`).
- Both checkers have a report for an invalid literal (`scope_manager.py:149`, `ScopeManager.ts:188`). In Python that branch can never run, because the line pattern already guarantees a number or a quoted string (`PyProperties.LiteralShapeAlwaysKnown`).

To verify, run `dafny verify --resource-limit 2000000 --verification-time-limit 0 --warn-contradictory-assumptions *.dfy`: all the `.dfy` files go in together. Every proof stays well under that resource limit whether or not the last flag is given, and a plain `dafny verify *.dfy` also goes through.

## Model

| member | source | states |
|---|---|---|
| Text.Split | scope_manager.py:101 | `str.split(sep)` always yields at least one part |
| Text.JoinSplit | scope_manager.py:127 | splitting at a separator and joining the parts with it gives back the text: no character is lost or invented |
| Text.SplitHasSecondPart | scope_manager.py:127 | a split yields a second part exactly when the separator occurs |
| Text.SplitAtFirst | scope_manager.py:141 | the first part of a split is the text before the first separator, and the rest is the split of what follows |
| Text.SplitWithout | scope_manager.py:119 | text without the separator splits into itself alone |
| Text.SplitPair | scope_manager.py:123 | two texts free of the separator, joined by it, split back into exactly the two |
| Text.SplitOnce | scope_manager.py:111 | `split(sep, 1)` gives one part (the text) when there is no separator, otherwise two parts around the first separator, the first free of it |
| Text.SplitOnceAt | scope_manager.py:111 | a text built as `x sep y`, with `x` free of the separator, splits once into exactly `x` and `y` |
| Text.SplitOnceIsFirstCut | scope_manager.py:118 | `split(sep, 1)` agrees with the full split on the first part |
| Text.SplitLimit | ScopeManager.ts:116 | models `split(sep, limit)`: the full split cut to its first `limit` parts |
| Text.AbsentFirstChar | scope_manager.py:100 | a word whose first character never occurs in the line is not in it |
| Text.ContainsAtOffset | scope_manager.py:100 | `"BLOCO" in line` holds exactly when the word starts at some offset of the line |
| Text.TrimStart | scope_manager.py:99 | left stripping yields a suffix that is empty or starts with a non-space |
| Text.TrimStartDropsSpaces | scope_manager.py:99 | every character left stripping drops is whitespace |
| Text.TrimEnd | scope_manager.py:99 | right stripping yields a prefix that is empty or ends with a non-space |
| Text.TrimEndDropsSpaces | scope_manager.py:99 | every character right stripping drops is whitespace |
| Text.StripIsInfix | scope_manager.py:99 | `strip()` yields a slice of the text with only whitespace cut from both ends |
| Text.StripCuts | scope_manager.py:99 | `strip()` cuts the text at two positions, with whitespace only before the first and after the second |
| Text.TrimStartCut | scope_manager.py:99 | `lstrip()` keeps a suffix, and everything before it is whitespace |
| Text.TrimEndCut | scope_manager.py:99 | `rstrip()` keeps a prefix, and everything after it is whitespace |
| Text.ShiftSpaces | scope_manager.py:99 | whitespace that fills a suffix of a tail also fills the matching suffix of the whole text |
| Text.Strip | scope_manager.py:99 | models `strip()` / `trim()` as right stripping after left stripping; `StripIsInfix` and `StripCuts` state what it yields |
| Text.StripUntouched | scope_manager.py:99 | a text with no whitespace at either end strips to itself |
| Text.StripAll | scope_manager.py:114 | `map(str.strip, parts)` keeps the number of parts |
| Text.StripAllPair | scope_manager.py:141 | `map(str.strip, [x, y])` is the two stripped sides |
| Text.StripAllOne | scope_manager.py:119 | `map(str.strip, [x])` is the one stripped part |
| Text.RemoveAll | scope_manager.py:99 | `replace("\n", "")` leaves no newline, keeps every other character with its multiplicity, and leaves a text without newlines as it was |
| Text.RemoveAllConcat | scope_manager.py:99 | removal works piece by piece over a concatenation, so the kept characters stay in their order |
| Text.RemoveFirst | ScopeManager.ts:65 | `replace("\n", "")` with a string pattern removes only the first newline: a text without one is unchanged, otherwise exactly the character at the first newline's position is gone |
| Text.IndexOf | ScopeManager.ts:65 | the position found is the first occurrence, or the length when there is none |
| Text.Decimal | scope_manager.py:130 | the line number in a diagnostic is rendered with decimal digits and no leading zero |
| Text.DecimalRoundTrip | scope_manager.py:130 | reading the rendered line number back gives the number |
| Patterns.SkipIdentChars | scope_manager.py:34 | skipping `[a-zA-Z0-9_]*` drops exactly the longest prefix of identifier characters: every dropped character is one, and what is left does not start with one |
| Patterns.NumberAt | scope_manager.py:33 | models `[+-]?\d+(\.\d+)?` matched at the start: a digit, or a sign and then a digit (the fraction is optional) |
| Patterns.QuotedAt | scope_manager.py:35 | models `"([^"]*)"` matched at the start: an opening quote and a later closing one |
| Patterns.AssignAt | scope_manager.py:34-37 | models `[a-zA-Z_][a-zA-Z0-9_]*\s*=\s*` followed by a right-hand side, read around the first `=` |
| Patterns.KeywordAt | scope_manager.py:38-42 | models a keyword followed by `\s` |
| Patterns.BlockEndAt | scope_manager.py:104 | models `FIM\s+<name>` matched at the start, the name taken literally |
| Patterns.MatchAt | scope_manager.py:32-42 | models `re.match` of each of the eleven fixed patterns |
| Patterns.Search | ScopeManager.ts:19-32 | models `new RegExp(p).test(s)`: the anchored match at some offset |
| Patterns.KeywordThen | scope_manager.py:38-42 | a keyword, one space and a word starting with a non-space: the keyword matches and the word is what follows it |
| Patterns.SearchFindsOffset | ScopeManager.ts:91-92 | an unanchored `RegExp.test` that succeeds has an offset where the anchored match succeeds |
| Patterns.OffsetMakesSearch | ScopeManager.ts:91-92 | an anchored match at any offset makes the unanchored test succeed |
| Patterns.SearchNeedsKeyword | ScopeManager.ts:129-131 | a pattern that begins with a keyword finds nothing in a line without that keyword |
| Patterns.SearchNumberIsSomeDigit | ScopeManager.ts:173 | the unanchored number test holds exactly when the text has a digit somewhere |
| Patterns.SearchQuotedIsTwoQuotes | ScopeManager.ts:180 | the unanchored string test holds exactly when the text has two double quotes somewhere |
| Patterns.AssignHasEquals | scope_manager.py:126-127 | a line matching an assignment pattern contains `=`, so `split("=")` has a right-hand side |
| Patterns.SearchAssignHasEquals | ScopeManager.ts:144-145 | the same holds for the unanchored assignment tests |
| ScopeEngine.VariableExists | scope_manager.py:75 | `variable_exists` holds exactly when some token of the scope has that name |
| ScopeEngine.FindInScope | scope_manager.py:59-61 | the scan of one scope stops at the first token with the name, and finds none exactly when the name is absent |
| ScopeEngine.Locate | scope_manager.py:58-62 | the lookup finds nothing exactly when no scope declares the name; otherwise it stops in the innermost scope that has it, at that scope's first such token |
| ScopeEngine.Resolve | scope_manager.py:48-62 | `get_token_by_identifier` returns None exactly when the name is undeclared, and otherwise a token with that name |
| ScopeEngine.ResolveShadows | scope_manager.py:58-62 | a name in the innermost scope resolves to that scope's token, shadowing every outer one |
| ScopeEngine.ResolveSkipsTop | scope_manager.py:58-62 | a name absent from the innermost scope resolves as if that scope were not there |
| ScopeEngine.FindToken | ScopeManager.ts:38-47 | the nested reversed-order loops return the innermost-first position `Locate` specifies |
| ScopeEngine.LocateIsInnermost | scope_manager.py:58-62 | a token that is the first of its name in its scope, with no later scope declaring the name, is the one found |
| ScopeEngine.LocateSeesOnlyNames | scope_manager.py:58-62 | lookup depends only on the names in the scopes, not on types or values |
| ScopeEngine.FindInScopeSeesOnlyNames | scope_manager.py:75 | the per-scope scan depends only on the names |
| ScopeEngine.Assigned | scope_manager.py:85-89 | models `assign_value_to_token` as a value and keeps the number of scopes; `AssignedEffect` states what changes |
| ScopeEngine.AssignedEffect | scope_manager.py:85-89 | `assign_value_to_token` keeps every name, type and kind; the name then resolves to the same token with the new value; every other name resolves as before |
| ScopeEngine.AssignedShape | scope_manager.py:85-89 | only the value of the one token lookup finds changes |
| ScopeEngine.AssignedLeaves | ScopeManager.ts:53-62 | after the update every other name resolves to what it resolved to before |
| ScopeEngine.AssignedBinds | scope_manager.py:137 | assigning a declared name binds it to its token with the new value: nothing written, blocks and scope count kept, every other name resolving as before; the scopes are exactly the in-place update `Assigned` |
| ScopeEngine.DeclareIfAbsent | scope_manager.py:115-116 | models `if not variable_exists(...): append` |
| ScopeEngine.DeclareAll | scope_manager.py:113-116 | models the item loop: declare-if-absent for each item in order |
| ScopeEngine.DeclareAllEffect | scope_manager.py:113-116 | declaring items into a scope keeps its names unique, keeps its old tokens as a prefix, makes every item's name exist there, and adds only item tokens |
| ScopeEngine.RedeclarationKeepsFirst | scope_manager.py:115 | an item whose name the scope already has changes nothing: the earlier token stays as it was |
| ScopeEngine.DeclareNextItem | scope_manager.py:113-116 | one pass of the item loop declares exactly the next item into the top scope |
| ScopeEngine.FindInPrefix | scope_manager.py:115-116 | extending a scope at its end does not change where an existing name is first found |
| ScopeEngine.DeclareAllFirst | scope_manager.py:113-116 | a name the scope lacked is found, after the item loop, at the first item carrying it; later items of that name are dropped |
| ScopeEngine.DeclareIfAbsentEffect | scope_manager.py:115-116 | one `if not variable_exists: append` keeps the names unique, keeps the scope as a prefix, leaves the name declared and adds only the new token |
| ScopeEngine.DeclareIfAbsentLeaves | scope_manager.py:123-125 | declare-if-absent touches only the top scope, keeps its tokens as a prefix, and every other name resolves as before |
| ScopeEngine.DeclareIfAbsentResolves | scope_manager.py:123-125 | after declare-if-absent in the top scope the name resolves to the top scope's first token of that name, which is the new token when the top scope lacked the name |
| ScopeEngine.DeclareTopResolves | scope_manager.py:113-116 | after the item loop into the top scope, a new name resolves to the first item carrying it, and a name the top scope held, or that no item carries, resolves as before |
| ScopeEngine.PushFreshKeepsValid | scope_manager.py:134 | appending an undeclared name to the top scope keeps the invariant and every existing token |
| ScopeEngine.NewTopTokenResolves | scope_manager.py:134 | an undeclared name appended to the top scope then resolves to exactly that token |
| ScopeEngine.PushTopLeaves | scope_manager.py:134 | pushing a token does not change how any other name resolves |
| ScopeEngine.PushFreshBinds | scope_manager.py:134 | pushing an undeclared name binds it to the token: nothing written, blocks and scope count kept, every other name resolving as before; the token is appended to the innermost scope and every outer scope is unchanged |
| ScopeEngine.DeclareTopKeepsValid | scope_manager.py:109-125 | declaring into the top scope keeps the invariant and every existing token |
| ScopeEngine.AssignedKeepsValid | scope_manager.py:85-89 | a value update keeps the invariant and every token's name, type and kind |
| ScopeEngine.OpenBlockKeepsValid | scope_manager.py:100-103 | opening a block keeps the invariant |
| ScopeEngine.CloseBlockKeepsValid | scope_manager.py:104-108 | closing a block keeps the invariant and the tokens of the remaining scopes |
| ScopeEngine.OpenBlock | scope_manager.py:100-103 | models `BLOCO`: push the name and an empty scope, and write `*INICIO name*` |
| ScopeEngine.CloseBlock | scope_manager.py:104-108 | models a matching `FIM`: with a scope open, pop it and the name and write `*FIM name*`; otherwise nothing |
| PyScopeManager.Classify | scope_manager.py:100-157 | the branch chosen for a line has a guard that holds |
| PyScopeManager.ClassifyPicksFirstFit | scope_manager.py:100-157 | no branch tried before the chosen one has a guard that holds: the chain picks the first fit |
| PyScopeManager.Normalize | scope_manager.py:99 | models `line.strip().replace("\n", "")` |
| PyScopeManager.Step | scope_manager.py:99-163 | models `process_line`: normalise, pick the first branch whose guard holds, run it |
| PyScopeManager.Dispatch | scope_manager.py:100-163 | models the body of each branch |
| PyScopeManager.DeclarationToken | scope_manager.py:114-116 | models one item: the stripped name, and the stripped value or "0" |
| PyScopeManager.StepDeclareInit | scope_manager.py:109-121 | models the declaration branch; it raises when the line has no space or no scope is open |
| PyScopeManager.DeclareInTop | scope_manager.py:113-116 | models the item loop; its first `scopes[-1]` raises with no scope open |
| PyScopeManager.StepDeclareBare | scope_manager.py:122-125 | models the bare declaration; it raises unless the line has exactly two words, or when no scope is open |
| PyScopeManager.StepCopy | scope_manager.py:126-127 | models the copy branch's split at `=` |
| PyScopeManager.CopyOutcome | scope_manager.py:128-139 | models the copy branch's lookups, push, update or report |
| PyScopeManager.PushFresh | scope_manager.py:134 | models `scopes[-1].append(t)`, which raises with no scope open |
| PyScopeManager.StepLiteral | scope_manager.py:140-141 | models the literal branch's unpacking of the two sides, which raises unless there are exactly two |
| PyScopeManager.LiteralOutcome | scope_manager.py:142-156 | models the literal branch's lookup, typed push, update or report |
| PyScopeManager.StepPrint | scope_manager.py:157-163 | models `PRINT` |
| PyScopeManager.Run | scope_manager.py:175-176 | models the loop of `process_scope`, stopping at the first raise |
| PyScopeManager.DeclarationItems | scope_manager.py:110-119 | a declaration always yields at least one item |
| PyScopeManager.DeclarationTokens | scope_manager.py:113-116 | one candidate token per item |
| PyScopeManager.RunContinues | scope_manager.py:175-176 | a raised error ends the run with the state it had; otherwise the run goes on from the new state with the next line number |
| PyScopeManager.ScopeManager.constructor | scope_manager.py:44-46 | the checker starts with no scope, no block and no output |
| PyScopeManager.ScopeManager.GetTokenByIdentifier | scope_manager.py:48-62 | the loop returns the innermost-first token `Resolve` specifies |
| PyScopeManager.ScopeManager.AssignValueToToken | scope_manager.py:77-89 | the scopes become the update `Assigned` specifies; blocks and output are untouched |
| PyScopeManager.ScopeManager.ProcessLine | scope_manager.py:91-163 | the new fields are `Step`'s next state, or, when the line raises, the fields are unchanged and the fault is reported |
| PyScopeManager.ScopeManager.DeclareWithInitializer | scope_manager.py:109-121 | the branch ends in the state `StepDeclareInit` specifies, or raises with nothing changed: a line without a space raises before the loop |
| PyScopeManager.ScopeManager.DeclareItems | scope_manager.py:113-116 | the item loop declares the items into the top scope as `DeclareInTop` specifies, or raises with no scope open |
| PyScopeManager.ScopeManager.DeclareWithoutInitializer | scope_manager.py:122-125 | the bare declaration ends in the state `StepDeclareBare` specifies, or raises with nothing changed |
| PyScopeManager.ScopeManager.AssignIdentifier | scope_manager.py:126-139 | the copy assignment ends in the state `StepCopy` specifies |
| PyScopeManager.ScopeManager.CopyValue | scope_manager.py:128-139 | the lookups, push, update or report for `a = b` end in the state `CopyOutcome` specifies |
| PyScopeManager.ScopeManager.AssignLiteral | scope_manager.py:140-156 | the literal assignment ends in the state `StepLiteral` specifies, or raises with nothing changed |
| PyScopeManager.ScopeManager.StoreLiteral | scope_manager.py:142-155 | the lookups, typed push, update or report for `a = v` end in the state `LiteralOutcome` specifies for the anchored number and string tests, or raise with nothing changed |
| PyScopeManager.ScopeManager.PrintIdentifier | scope_manager.py:157-163 | `PRINT` ends in the state `StepPrint` specifies, or raises with nothing changed |
| PyScopeManager.ScopeManager.ProcessLines | scope_manager.py:175-176 | the loop over the lines numbered from 1 ends in the state and with the fault `Run` specifies |
| PyProperties.StepKeepsValid | scope_manager.py:99-163 | every line that does not raise keeps the invariant and every existing token's name, type and kind, and appends at most one output line |
| PyProperties.DispatchKeepsValid | scope_manager.py:100-163 | the same for each branch |
| PyProperties.CopyKeepsValid | scope_manager.py:126-139 | the same for the copy assignment |
| PyProperties.CopyOutcomeKeepsValid | scope_manager.py:128-139 | the copy, whatever the two names, keeps the invariant and every token's name, type and kind, and writes at most one line |
| PyProperties.LiteralKeepsValid | scope_manager.py:140-156 | the same for the literal assignment |
| PyProperties.LiteralOutcomeKeepsValid | scope_manager.py:142-155 | the literal assignment, whatever the outcomes of the two tests, keeps the invariant and every token's name, type and kind, and writes at most one line |
| PyProperties.RunKeepsValid | scope_manager.py:175-176 | a whole run keeps the invariant, and the output only grows |
| PyProperties.RunFromStartIsValid | scope_manager.py:175-176 | a run from the initial state ends in a valid state |
| PyProperties.BlockDiscipline | scope_manager.py:100-108 | `BLOCO` pushes an empty scope and the line's last word, and writes `*INICIO name*`; a matching `FIM` pops both and writes `*FIM name*`; every other line keeps the block names and the number of scopes |
| PyProperties.DispatchBlockDiscipline | scope_manager.py:100-163 | the same, branch by branch |
| PyProperties.NoBranchChangesNothing | scope_manager.py:100-163 | a line falls through the whole chain exactly when no branch's guard holds, and then it writes nothing and the state is unchanged |
| PyProperties.DispatchKeepsBlocks | scope_manager.py:109-163 | every branch other than `BLOCO` and `FIM` keeps the block names and the number of scopes |
| PyProperties.DeclareInitKeepsBlocks | scope_manager.py:109-121 | a declaration with initialiser keeps the block names and the number of scopes |
| PyProperties.DeclareBareKeepsBlocks | scope_manager.py:122-125 | a bare declaration keeps the block names and the number of scopes |
| PyProperties.PrintKeepsBlocks | scope_manager.py:157-163 | `PRINT` keeps the block names and the scopes |
| PyProperties.CopyKeepsBlocks | scope_manager.py:126-139 | a copy assignment keeps the blocks and the number of scopes |
| PyProperties.LiteralKeepsBlocks | scope_manager.py:140-156 | a literal assignment keeps the blocks and the number of scopes |
| PyProperties.CrashCauses | scope_manager.py:99-163 | in a valid state `PRINT` never raises for want of a block; with a scope open, only a declaration line without a space, or an unpacking of the wrong size, can raise |
| PyProperties.DispatchCrashCauses | scope_manager.py:109-163 | the same, branch by branch |
| PyProperties.BareDeclarationShadows | scope_manager.py:122-125 | after `NUMERO x` the name resolves to the top scope's token: the existing one if the top scope had it, otherwise the new token with value "0", shadowing any outer `x`. Nothing is written, the blocks and every scope below the top stay, the top scope keeps its tokens as a prefix, and every other name resolves as before |
| PyProperties.DeclarationDeclaresEveryItem | scope_manager.py:109-121 | a declaration line that does not raise writes nothing, keeps the blocks and every scope below the top, makes every item's name exist in the top scope and keeps the old top scope as a prefix. A name new to the top scope resolves to the first item token carrying it, with the line's type keyword and the item's value (`ItemWithValue`, `ItemWithoutValue`); a name the top scope held, or that no item carries, resolves as before |
| PyProperties.DeclareInTopEffect | scope_manager.py:113-116 | the item loop does what `DeclaresInTop` states: nothing is written, the blocks and every scope below the top stay, the old top scope is kept as a prefix, a name new to the top scope resolves to the first item token carrying it, and a name the top scope held, or that no item carries, resolves as before |
| PyProperties.ItemWithValue | scope_manager.py:114-116 | an item `name=value` with no other `=` becomes a token of the line's type holding the stripped name and the stripped value |
| PyProperties.ItemWithoutValue | scope_manager.py:114-116 | an item without `=` becomes a token of the line's type holding the stripped name and "0" |
| PyProperties.CopyTakesSourceValue | scope_manager.py:126-139 | `a = b` on line n does what `CopyMeaning` states for its two stripped sides: an undeclared `b` appends exactly `Linha n: b não declarado`; a declared `a` of another type than `b` appends exactly `Linha n: a : Atribuição inválida`; in both cases nothing else changes. Otherwise `a` resolves to `b`'s value (a new `a` also takes `b`'s type), every other name resolves as before, and nothing is written. A declared `a` is updated in place where lookup found it (the scopes become `Assigned`, which `AssignedEffect` pins down), so the update survives closing inner blocks; a new `a` is appended to the innermost scope with every outer scope unchanged, so closing the block drops it. |
| PyProperties.CopyOutcomeEffect | scope_manager.py:128-139 | for any two names, the copy does what `CopyMeaning` states (a declared `a` updated in place, a new one appended to the innermost scope), with acceptance and rejection keyed on the lookups and the two types, and keeps the blocks and the number of scopes |
| PyProperties.LiteralAssignmentIsTyped | scope_manager.py:140-156 | `a = v` does what `LiteralMeaning` states for the anchored tests on the stripped value. An undeclared `a` is bound to `v` typed NUMERO when `v` starts with a number, otherwise CADEIA when it starts with a quoted string, otherwise the invalid literal is reported. A declared `a` is assigned `v` exactly when the test of its own type passes; otherwise exactly `Linha n: a : Atribuição inválida` is appended and nothing else changes. A declared `a` is updated in place where lookup found it (the scopes become `Assigned`, which `AssignedEffect` pins down), so the update survives closing inner blocks; a new one is appended to the innermost scope with every outer scope unchanged, so closing the block drops it. |
| PyProperties.LiteralOutcomeEffect | scope_manager.py:142-155 | for any outcomes of the two tests, the branch does what `LiteralMeaning` states (a declared `a` updated in place, a new one appended to the innermost scope), with acceptance and rejection keyed on `a`'s type and the test outcomes, and keeps the blocks and the number of scopes |
| PyProperties.LiteralShapeAlwaysKnown | scope_manager.py:140-149 | on any line entering the branch, the value after the `=` starts with a number or a quoted string, so the invalid-literal report can never be written |
| PyProperties.SecondPartFollowsFirstEquals | scope_manager.py:141 | with exactly one `=`, the right part of the full split is what follows the first `=` |
| PyProperties.NumberSurvivesTrimEnd | scope_manager.py:141-144 | stripping trailing spaces keeps a leading number a number |
| PyProperties.QuotedSurvivesTrimEnd | scope_manager.py:141-146 | stripping trailing spaces keeps a leading quoted string |
| PyProperties.TrimEndKeepsPrefix | scope_manager.py:141 | right stripping keeps every prefix that ends in a non-space |
| PyProperties.UndeclaredLiteralIsDeclared | scope_manager.py:143-147 | an undeclared `a` assigned a number or a quoted string is pushed into the top scope with NUMERO or CADEIA, and then resolves to that token |
| PyProperties.PrintReportsInnermost | scope_manager.py:157-163 | in a valid state `PRINT x` never raises and changes no token or block; it writes `x = value em <innermost block>` with the innermost visible `x`'s value, or `Linha n: x não declarado` |
| TsScopeManager.Classify | ScopeManager.ts:67-205 | the branch chosen for a line has a guard that holds |
| TsScopeManager.ClassifyPicksFirstFit | ScopeManager.ts:67-205 | no branch tried before the chosen one has a guard that holds |
| TsScopeManager.Normalize | ScopeManager.ts:65 | models `line.trim().replace("\n", "")` |
| TsScopeManager.Step | ScopeManager.ts:64-218 | models `processLine`: normalise, pick the first branch whose guard holds, run it |
| TsScopeManager.Dispatch | ScopeManager.ts:67-217 | models the body of each branch |
| TsScopeManager.DeclarationToken | ScopeManager.ts:98-112 | models one item: the trimmed name, and the trimmed value or "0" |
| TsScopeManager.ValueOrZero | ScopeManager.ts:111 | `value || "0"`: the value when it is present and not empty (an empty string is falsy), and "0" otherwise |
| TsScopeManager.DeclarationItems | ScopeManager.ts:94-117 | a declaration always yields at least one item |
| TsScopeManager.DeclarationTokens | ScopeManager.ts:97-113 | one candidate token per item |
| TsScopeManager.StepDeclareInit | ScopeManager.ts:94-128 | models the declaration branch as written, with `split(" ", 2)`; it raises when the line has no space |
| TsScopeManager.DeclareInTop | ScopeManager.ts:97-113 | models the `forEach` over the items; with no scope open the first `variableExists` call raises (`scope.some` on `undefined`) before anything changes |
| TsScopeManager.StepDeclareBare | ScopeManager.ts:129-143 | models the bare declaration; with no scope open its `variableExists` call raises (`scope.some` on `undefined`) before anything changes |
| TsScopeManager.BareToken | ScopeManager.ts:133 | models the destructured words, a missing second word being `undefined` |
| TsScopeManager.StepCopy | ScopeManager.ts:144-145 | models the copy branch's split at `=` |
| TsScopeManager.CopyOutcome | ScopeManager.ts:146-164 | models the copy branch's lookups, push, update or log |
| TsScopeManager.PushFresh | ScopeManager.ts:153 | models `push` on the innermost scope, which raises with no scope open |
| TsScopeManager.StepLiteral | ScopeManager.ts:166-170 | models the literal branch with the unanchored tests |
| TsScopeManager.LiteralOutcome | ScopeManager.ts:171-203 | models the literal branch's lookup, typed push, update or log |
| TsScopeManager.InnermostBlock | ScopeManager.ts:213 | models the innermost block name in the template literal, `undefined` when there is none |
| TsScopeManager.StepPrint | ScopeManager.ts:205-216 | models `PRINT` |
| TsScopeManager.Run | ScopeManager.ts:222 | models `lines.forEach(processLine)`, stopping at the first raise |
| TsScopeManager.RunContinues | ScopeManager.ts:222 | a raised error ends the run with the state it had; otherwise the run goes on from the new state |
| TsScopeManager.ScopeManager.constructor | ScopeManager.ts:18-36 | the checker starts with no scope, no block and nothing logged |
| TsScopeManager.ScopeManager.GetTokenByIdentifier | ScopeManager.ts:38-47 | the loop returns the innermost-first token `Resolve` specifies |
| TsScopeManager.ScopeManager.AssignValueToToken | ScopeManager.ts:53-62 | the scopes become the update `Assigned` specifies; blocks and console are untouched |
| TsScopeManager.ScopeManager.ProcessLine | ScopeManager.ts:64-218 | the new fields are `Step`'s next state, or, when the line raises, the fields are unchanged and the fault is reported |
| TsScopeManager.ScopeManager.DeclareWithInitializer | ScopeManager.ts:94-128 | the declaration ends in the state `StepDeclareInit` specifies, or raises with nothing changed |
| TsScopeManager.ScopeManager.DeclareItems | ScopeManager.ts:97-113 | the item loop declares the items into the top scope as `DeclareInTop` specifies, or raises with no scope open |
| TsScopeManager.ScopeManager.DeclareWithoutInitializer | ScopeManager.ts:133-143 | the bare declaration ends in the state `StepDeclareBare` specifies, or raises with nothing changed |
| TsScopeManager.ScopeManager.AssignIdentifier | ScopeManager.ts:144-165 | the copy assignment ends in the state `StepCopy` specifies |
| TsScopeManager.ScopeManager.CopyValue | ScopeManager.ts:146-164 | the lookups, push, update or log for `a = b` end in the state `CopyOutcome` specifies |
| TsScopeManager.ScopeManager.AssignLiteral | ScopeManager.ts:170-204 | the literal assignment ends in the state `StepLiteral` specifies, or raises with nothing changed |
| TsScopeManager.ScopeManager.StoreLiteral | ScopeManager.ts:171-203 | the lookups, typed push, update or log for `a = v` end in the state `LiteralOutcome` specifies for the unanchored number and string tests, or raise with nothing changed |
| TsScopeManager.ScopeManager.PrintIdentifier | ScopeManager.ts:205-216 | `PRINT` ends in the state `StepPrint` specifies |
| TsScopeManager.ScopeManager.ProcessScope | ScopeManager.ts:220-223 | the file's text split at newlines is processed line by line, ending as `Run` specifies |
| TsScopeManager.ScopeManager.ProcessLines | ScopeManager.ts:222 | the loop over the lines ends in the state and with the fault `Run` specifies |
| TsProperties.StepKeepsValid | ScopeManager.ts:64-218 | every line that does not raise keeps the invariant and every existing token's name, type and kind, and logs at most one line |
| TsProperties.DispatchKeepsValid | ScopeManager.ts:67-217 | the same for each branch |
| TsProperties.BareKeepsValid | ScopeManager.ts:133-143 | the same for the bare declaration |
| TsProperties.CopyKeepsValid | ScopeManager.ts:144-165 | the same for the copy assignment |
| TsProperties.CopyOutcomeKeepsValid | ScopeManager.ts:146-164 | the copy, whatever the two names, keeps the invariant and every token's name, type and kind, and logs at most one line |
| TsProperties.LiteralKeepsValid | ScopeManager.ts:166-204 | the same for the literal assignment |
| TsProperties.LiteralOutcomeKeepsValid | ScopeManager.ts:171-203 | the literal assignment, whatever the outcomes of the two tests, keeps the invariant and every token's name, type and kind, and logs at most one line |
| TsProperties.RunKeepsValid | ScopeManager.ts:222 | a whole run keeps the invariant, and the log only grows |
| TsProperties.RunFromStartIsValid | ScopeManager.ts:220-223 | a run from the initial state ends in a valid state |
| TsProperties.BlockDiscipline | ScopeManager.ts:67-89 | `BLOCO` pushes an empty scope and the line's last word, and logs `*INICIO name*`; a matching `FIM` pops both and logs `*FIM name*`; every other line keeps the block names and the number of scopes |
| TsProperties.DispatchBlockDiscipline | ScopeManager.ts:67-217 | the same, branch by branch |
| TsProperties.NoBranchChangesNothing | ScopeManager.ts:67-217 | a line falls through the whole chain exactly when no branch's guard holds, and then it writes nothing and the state is unchanged |
| TsProperties.DispatchKeepsBlocks | ScopeManager.ts:94-217 | every branch other than `BLOCO` and `FIM` keeps the block names and the number of scopes |
| TsProperties.DeclareInitKeepsBlocks | ScopeManager.ts:94-128 | a declaration with initialiser keeps the block names and the number of scopes |
| TsProperties.DeclareBareKeepsBlocks | ScopeManager.ts:133-143 | a bare declaration keeps the block names and the number of scopes |
| TsProperties.CopyKeepsBlocks | ScopeManager.ts:144-165 | a copy assignment keeps the blocks and the number of scopes |
| TsProperties.LiteralKeepsBlocks | ScopeManager.ts:166-204 | a literal assignment keeps the blocks and the number of scopes |
| TsProperties.CrashCauses | ScopeManager.ts:94-204 | a line raises only for a missing operand after a declaration keyword, or a `variableExists` lookup or push into the innermost scope with no scope open; with a scope open, only the former |
| TsProperties.DispatchCrashCauses | ScopeManager.ts:94-204 | the same, branch by branch |
| TsProperties.LiteralCrashes | ScopeManager.ts:172-186 | a literal assignment raises only by pushing with no scope open |
| TsProperties.BareDeclarationShadows | ScopeManager.ts:133-143 | after `NUMERO x` the declared name (`undefined` when the line has no space) resolves to the top scope's token: the existing one, or the new one with value "0". Nothing is logged, the blocks and every scope below the top stay, the top scope keeps its tokens as a prefix, and every other name resolves as before |
| TsProperties.DeclarationDeclaresEveryItem | ScopeManager.ts:94-128 | a declaration line that does not raise is the item loop on its tokens, and does what `DeclaresInTop` states: nothing is logged, the blocks and every scope below the top stay, every item's name exists in the top scope, and a name new to the top scope resolves to the first item token carrying it, with the line's type keyword and the item's value or "0" (`ItemWithValue`, `ItemWithoutValue`) |
| TsProperties.DeclareInTopEffect | ScopeManager.ts:97-113 | the item loop does what `DeclaresInTop` states: nothing is logged, the blocks and every scope below the top stay, the old top scope is kept as a prefix, a name new to the top scope resolves to the first item token carrying it, and a name the top scope held, or that no item carries, resolves as before |
| TsProperties.ItemWithValue | ScopeManager.ts:98-112 | an item `name=value` with no other `=` becomes a token of the line's type holding the trimmed name and the trimmed value, or "0" when that is empty |
| TsProperties.ItemWithoutValue | ScopeManager.ts:98-112 | an item without `=` becomes a token of the line's type holding the trimmed name and "0" |
| TsProperties.CopyTakesSourceValue | ScopeManager.ts:144-165 | `a = b` does what `CopyMeaning` states for its two trimmed sides: an undeclared `b` logs exactly `b não declarado`; a declared `a` of another type than `b` logs exactly `a : Atribuição inválida`; in both cases nothing else changes. Otherwise `a` resolves to `b`'s value (a new `a` also takes `b`'s type), every other name resolves as before, and nothing is logged. A declared `a` is updated in place where lookup found it (the scopes become `Assigned`, which `AssignedEffect` pins down), so the update survives closing inner blocks; a new `a` is appended to the innermost scope with every outer scope unchanged, so closing the block drops it. |
| TsProperties.CopyOutcomeEffect | ScopeManager.ts:146-164 | for any two names, the copy does what `CopyMeaning` states (a declared `a` updated in place, a new one appended to the innermost scope), with acceptance and rejection keyed on the lookups and the two types, and keeps the blocks and the number of scopes |
| TsProperties.LiteralAssignmentIsTyped | ScopeManager.ts:166-204 | `a = v` does what `LiteralMeaning` states for the unanchored tests on the trimmed value. The number test holds exactly when `v` has a digit somewhere, and the string test exactly when it has two double quotes somewhere. So an undeclared `a` is bound to `v` typed NUMERO when `v` has a digit, and a declared `a` is assigned `v` exactly when the test of its own type passes, with `a : Atribuição inválida` logged otherwise. A declared `a` is updated in place where lookup found it (the scopes become `Assigned`, which `AssignedEffect` pins down), so the update survives closing inner blocks; a new one is appended to the innermost scope with every outer scope unchanged, so closing the block drops it. |
| TsProperties.LiteralOutcomeEffect | ScopeManager.ts:171-203 | for any outcomes of the two tests, the branch does what `LiteralMeaning` states (a declared `a` updated in place, a new one appended to the innermost scope), with acceptance and rejection keyed on `a`'s type and the test outcomes, and keeps the blocks and the number of scopes |
| TsProperties.PrintReportsInnermost | ScopeManager.ts:205-216 | `PRINT x` changes no token or block; it logs `x = value em <innermost block>` with the innermost visible `x`'s value (in a valid state the block name is never `undefined`), or `x não declarado` |
| TsFindings.SpacedDeclarationDropsValue | ScopeManager.ts:116-127 | as written, `TYPE name = value` in the usual spacing declares `name` with "0": the value is lost |
| TsFindings.WrittenHead | ScopeManager.ts:116 | `split(" ", 2)` of a spaced declaration is the keyword and the name only |
| TsFindings.WordIsStripped | ScopeManager.ts:100 | a word with no whitespace at either end trims to itself |
| TsFindings.WordThenSpaceStrips | ScopeManager.ts:117 | a word followed by a space trims to the word |
| TsFindings.SpaceThenWordStrips | ScopeManager.ts:117 | a space followed by a word trims to the word |
| TsFindings.WordToken | ScopeManager.ts:117-125 | a lone word as the item declares itself holding "0": `value || "0"` with no value |
| TsFindings.SingleItem | ScopeManager.ts:94 | a line without a comma has the whole `rest` as its one item |
| TsFindings.DeclareOne | ScopeManager.ts:97-113 | the item loop on one token is one declare-if-absent into the top scope |
| TsFindings.StepDeclareInitIntended | ScopeManager.ts:116 | the corrected declaration branch, splitting at the first space only |
| TsFindings.IntendedDeclarationKeepsValue | ScopeManager.ts:116-127 | with the line split at its first space only, the same line declares `name` holding `value` |
| TsFindings.IntendedHead | ScopeManager.ts:116 | splitting at the first space only gives the keyword and the whole rest |
| TsFindings.AssignmentToken | ScopeManager.ts:117-125 | the item `name = value` declares the name holding the value |
| TsFindings.SpacedAssignmentOperands | ScopeManager.ts:117 | `name = value` splits at `=` into the stripped name and value |
| TsFindings.SpacedAssignmentSplit | ScopeManager.ts:117 | `name = value` splits at `=` into `name ` and ` value` |
| TsFindings.SpacedSidesStrip | ScopeManager.ts:117 | trimming `name ` and ` value` gives the bare name and value |
| TsFindings.UnanchoredTestTypesStringAsNumber | ScopeManager.ts:172-195 | as written, `x = "a1"` declares a new `x` as NUMERO holding `"a1"`, and assigns `"a1"` to an existing NUMERO `x` |
| TsFindings.QuotedDigitValue | ScopeManager.ts:173-180 | `"a1"` is a quoted string and not a number, yet both unanchored tests succeed on it |
| TsFindings.QuotedDigitOperands | ScopeManager.ts:170 | `x = "a1"` splits at `=` and trims to `x` and `"a1"` |
| TsFindings.StepLiteralAnchored | ScopeManager.ts:172-203 | the corrected literal branch, typing the value with the anchored tests |
| TsFindings.AnchoredLiteralIsTyped | ScopeManager.ts:166-204 | with the tests anchored, a literal assignment does what `LiteralMeaning` states for them, and a value that passes the number test does not start with a quote, so a NUMERO token never receives a quoted string |
| TsFindings.AnchoredTestTypesQuotedAsString | ScopeManager.ts:172-203 | with anchored tests, `x = "a1"` declares `x` as CADEIA, and is rejected for an existing NUMERO `x` |
| SampleProgram.NameFacts | scope_manager.py:34 | a name or digit string holds no space, `=`, comma, newline, capital `B` or quote, and starts and ends with a non-space |
| SampleProgram.DeclarationMatches | scope_manager.py:39 | `NUMERO x = d` matches the declaration-with-number pattern |
| SampleProgram.AssignmentShape | scope_manager.py:34 | `x = d` splits once at `=` into `x ` and ` d`, and matches the assignment of a number |
| SampleProgram.NameThenSpace | scope_manager.py:34 | a name then a space is an identifier followed by `\s*` |
| SampleProgram.SpaceThenDigits | scope_manager.py:33 | a space then digits loses the space to left stripping, leaving a number |
| SampleProgram.SkipNameThenSpace | scope_manager.py:34 | skipping identifier characters in a name then a space leaves the space |
| SampleProgram.SpacedStrips | scope_manager.py:119 | `x ` and ` d` strip to `x` and `d` |
| SampleProgram.TrailingSpaceStrips | scope_manager.py:119 | `x ` strips to `x` |
| SampleProgram.LeadingSpaceStrips | scope_manager.py:119 | ` d` strips to `d` |
| PyWalkthrough.ProgramRun | scope_manager.py:175-176 | the Python run of `BLOCO a / NUMERO x = d / PRINT x / FIM a` from a fresh checker raises nothing, ends with no scope or block open, and writes exactly `*INICIO a*`, `x = d em a`, `*FIM a*` |
| PyWalkthrough.FromDeclaration | scope_manager.py:175-176 | from the block just opened, the last three lines end in that same state and output |
| PyWalkthrough.FromPrint | scope_manager.py:175-176 | with `x` holding `d`, the last two lines end in that same state and output |
| PyWalkthrough.TwoLines | scope_manager.py:175-176 | two lines that both go through run to the state after the second, with nothing raised |
| PyWalkthrough.ClosesPrinted | scope_manager.py:104-108 | closing the block after the value is printed leaves no scope, no block and the three output lines |
| PyWalkthrough.Normal | scope_manager.py:99 | a line with no whitespace at either end and no newline is left as it is |
| PyWalkthrough.OpenLine | scope_manager.py:100-103 | `BLOCO a` opens `a`, pushing an empty scope and writing `*INICIO a*` |
| PyWalkthrough.DeclareLine | scope_manager.py:109-121 | `NUMERO x = d` in the block just opened declares `x` as a NUMERO holding `d`, and nothing else |
| PyWalkthrough.DeclaresOne | scope_manager.py:118-121 | the declaration branch on that line replaces the empty top scope by the one token |
| PyWalkthrough.OneToken | scope_manager.py:119-121 | the one item `x = d` is the one token `x` holding `d` |
| PyWalkthrough.DeclarationHead | scope_manager.py:118 | `split(" ", 1)` of the line gives `NUMERO` and `x = d`, which is the one item |
| PyWalkthrough.ItemToken | scope_manager.py:119 | the item `x = d` becomes the token `x` holding `d` |
| PyWalkthrough.DeclareClassified | scope_manager.py:100-109 | `NUMERO x = d` takes the declaration branch |
| PyWalkthrough.PrintLine | scope_manager.py:157-163 | `PRINT x` writes `x = d em a` and changes nothing else |
| PyWalkthrough.PrintsValue | scope_manager.py:158-163 | the `PRINT` branch finds `x` holding `d` and writes `x = d em a` |
| PyWalkthrough.PrintClassified | scope_manager.py:100-157 | `PRINT x` takes the `PRINT` branch |
| PyWalkthrough.CloseLine | scope_manager.py:104-108 | `FIM a` with `a` innermost closes it |
| PyWalkthrough.CloseClassified | scope_manager.py:100-104 | `FIM a` with `a` innermost takes the block-closing branch |
| TsWalkthrough.ProgramRun | ScopeManager.ts:220-223 | the TypeScript run of `BLOCO a / NUMERO x = d / PRINT x / FIM a` (a name without capitals) raises nothing, ends with no scope or block open, and logs exactly `*INICIO a*`, `x = 0 em a`, `*FIM a*`: the value `d` is lost |
| TsWalkthrough.FromDeclaration | ScopeManager.ts:222 | from the block just opened, the last three lines end in that same state and log |
| TsWalkthrough.FromPrint | ScopeManager.ts:222 | with `x` holding "0", the last two lines end in that same state and log |
| TsWalkthrough.TwoLines | ScopeManager.ts:222 | two lines that both go through run to the state after the second, with nothing raised |
| TsWalkthrough.ClosesLogged | ScopeManager.ts:83-89 | closing the block after the value is logged leaves no scope, no block and the three logged lines |
| TsWalkthrough.LowerFacts | ScopeManager.ts:75-92 | a name without capitals holds no `C`, `F` or `N`, so it cannot complete `CADEIA`, `FIM` or `NUMERO` |
| TsWalkthrough.Normal | ScopeManager.ts:65 | a line with no whitespace at either end and no newline is left as it is |
| TsWalkthrough.OpenLine | ScopeManager.ts:67-74 | `BLOCO a` opens `a` |
| TsWalkthrough.DeclareLine | ScopeManager.ts:90-128 | `NUMERO x = d` in the block just opened declares `x` as a NUMERO holding "0" |
| TsWalkthrough.DeclaresZero | ScopeManager.ts:116-127 | the declaration branch on that line, as written, replaces the empty top scope by `x` holding "0" |
| TsWalkthrough.DeclareClassified | ScopeManager.ts:67-93 | `NUMERO x = d` takes the declaration branch |
| TsWalkthrough.NoBlockEnd | ScopeManager.ts:75-82 | a line without `F` never fits the block-closing test |
| TsWalkthrough.PrintLine | ScopeManager.ts:205-216 | `PRINT x` logs `x = 0 em a` and changes nothing else |
| TsWalkthrough.PrintsValue | ScopeManager.ts:206-215 | the `PRINT` branch finds `x` holding "0" and logs `x = 0 em a` |
| TsWalkthrough.PrintClassified | ScopeManager.ts:67-205 | `PRINT x` takes the `PRINT` branch |
| TsWalkthrough.PrintDeclaresNothing | ScopeManager.ts:90-132 | `PRINT x` with a lower-case name fits neither declaration test |
| TsWalkthrough.PrintAssignsNothing | ScopeManager.ts:144-168 | `PRINT x` fits neither assignment test |
| TsWalkthrough.PrintFits | ScopeManager.ts:205 | `PRINT x` fits the `PRINT` test |
| TsWalkthrough.NoKeyword | ScopeManager.ts:90-132 | a declaration test finds nothing in a line without its keyword |
| TsWalkthrough.NoAssignment | ScopeManager.ts:144-168 | no assignment test finds anything in a line without `=` |
| TsWalkthrough.NoNumero | ScopeManager.ts:91-92 | `PRINT x` with no `N` in `x` does not contain `NUMERO` |
| TsWalkthrough.CloseLine | ScopeManager.ts:75-89 | `FIM a` with `a` innermost closes it |
| TsWalkthrough.CloseClassified | ScopeManager.ts:75-82 | `FIM a` with `a` innermost takes the block-closing branch |

## Left out

- File I/O is left out; the text is a parameter. This covers `process_scope`'s file reading, the `outputs` directory and the `.out` file (`scope_manager.py:172-173`, `178-189`), `fs.readFileSync` (`ScopeManager.ts:221`), and the command-line entry points (`scope_manager.py:191-197`, `ScopeManager.ts:226-227`). Python's output file is `outputLines` joined with newlines; that join is not modelled.
- `console.log` is modelled as a list of the logged strings.
- General regular expressions are left out. The eleven fixed patterns are written out by hand. The name in `FIM\s+<name>` is matched literally, so a block name holding regex metacharacters is not modelled.
- `IsSpace` holds for six characters: space, tab, line feed, carriage return, vertical tab and form feed. Python's `\s` and `strip()` and JavaScript's `\s` and `trim()` all count these, but each language counts more. Python also counts `\x1c`–`\x1f`, `\x85` and the Unicode spaces; JavaScript also counts `\xa0`, `\ufeff`, the line and paragraph separators and the Unicode spaces. Lines holding those characters are not modelled. `\d` is the ASCII digits: Python's `\d` also matches Unicode digits, which are left out too.
- The walkthrough's names have no capital `B`, so no line but the first holds `BLOCO`. TypeScript's tests search anywhere in the line, so there the variable name has no capital letter at all.
- The regex fields of the constructors are constants of the model, not fields of the class, because no method changes them.
- Tokens are immutable values. An in-place update of `current_token[3]` is the replacement of that one token in the scope stack. Aliasing of token lists is not modelled; the source never shares them.
- TsScopeManager.ScopeManager.DeclareItems: the items are parsed into tokens before the `forEach` loop, not inside it. Parsing is pure, so the tokens are the same.
- PyScopeManager.ScopeManager.DeclareItems: the same holds for Python's two loops. The parsing happens before the loop, and the loop only appends.
- PyProperties.UndeclaredLiteralIsDeclared: it is stated for a value that starts with a number or a quoted string. `PyProperties.LiteralShapeAlwaysKnown` proves that every line entering the branch has such a value.
- PyScopeManager.ScopeManager.AssignIdentifier, TsScopeManager.ScopeManager.AssignIdentifier, TsScopeManager.ScopeManager.AssignLiteral: each requires a `=` in the line. These methods are the bodies of branches, and `ProcessLine` calls them only after the branch's pattern has matched; the pattern contains the `=`.
- Integer widths play no part: line numbers are unbounded naturals.

## Findings

| source | as written | input that shows it | evidently intended | confidence | as-written member | corrected member |
|---|---|---|---|---|---|---|
| ScopeManager.ts:95 and ScopeManager.ts:116 | `line.split(" ", 2)` keeps only the second space-separated word as `rest`, so `= value` is cut off | `NUMERO x = 1` (with scopes open and no `x` in the top scope) declares `x` with value "0" | split at the first space only, as Python's `split(" ", 1)` does, so `x` holds `1` | not executed | TsFindings.SpacedDeclarationDropsValue | TsFindings.IntendedDeclarationKeepsValue |
| ScopeManager.ts:173 and ScopeManager.ts:192 | `new RegExp(regex_number).test(value_a)` is unanchored, so any digit anywhere passes as a number | `x = "a1"` declares `x` as NUMERO (and is accepted for an existing NUMERO `x`) | an anchored test, as Python's `re.match`, so `"a1"` is a CADEIA value | not executed | TsFindings.UnanchoredTestTypesStringAsNumber | TsFindings.AnchoredLiteralIsTyped |

The TypeScript class, `Step` and `TsProperties` model the code as written. The corrected definitions are `TsFindings.StepDeclareInitIntended` and `TsFindings.StepLiteralAnchored`. `TsFindings.AnchoredTestTypesQuotedAsString` gives the second row's input under the corrected test.

`TsWalkthrough.ProgramRun` shows the first row on a whole program. `BLOCO a / NUMERO x = d / PRINT x / FIM a` logs `x = 0 em a`, where `PyWalkthrough.ProgramRun` prints `x = d em a` for the same program.
