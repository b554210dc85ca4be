# Verified models of a scope tree, a C front end, an event loop and a block search

This project models four pieces of the repository and proves what they do.

**Hierarchical shutdown** (`AsyncScopes.dfy`, `ScopeSafety.dfy`, `ScopeRules.dfy`, `ScopeHolders.dfy`,
`ScopeHistory.dfy`, `ScopeDrain.dfy`, `ScopeExceptions.dfy`; source `src/lang/random/test_async_scopes_1.cpp`). Scopes form
a tree. Shutdown is told from parents to children, passes unlocked scopes and stops at locked and at
detached ones; destruction starts at leaves, finishes through a queue of completions, and so comes
back up. The class `Scope` has the fields and methods of the program's scopes; a `World` is the
value of all scopes, the queue and two counters at one moment, and each method is proved to take one
step on worlds. A notification is specified by which scopes it reaches, without an order of
visiting, and `WavesCompose` is why the loops over the unordered child sets meet that. `ScopeRules`
says the same again for each scope on its own, without any of the step functions: every step follows
these rules, and they leave only the order of new completions open. Holders take only steps of the protocol, so the invariants hold of the objects. The other modules prove
invariants of every run, that destruction happens bottom-up, exactly when it happens at most once,
which starts are missed, and exactly when the root's destructor ends.

Two usages defeat the design, and the proofs say so. Detaching an unlocked scope whose destruction
has begun starts it again, and no scope of a run starts twice iff the run never does that: such a run
is careful (`DetachStartsOnceIffValid`, `AtMostOnceIffCareful`, `FinishedTwice`). A scope that is
detached before it was told and loses its last child before it was told is not started, since the
last child's removal looks only at the flag set by the parent (`NoMissedStart`,
`DetachedParentIsStranded`); the comment that such a scope is "just waiting for completion" is then
wrong, and the root's destructor waits for ever (`ShutdownCompletesIff`). In every run these are the
only missed starts. A careless run can still start such a scope, by completing one of its children a
second time (`StrandedIsFreed`); `NoMissedStart` says that nothing else does.

**C front end** (`Lexing.dfy`, `LexicalSyntax.dfy`, `LexingTheory.dfy`, `Numerals.dfy`,
`LexicalRules.dfy`, `Parsing.dfy`, `Grammar.dfy`, `ParseErrors.dfy`, `FrontEnd.dfy`; source
`src/c_frontend`). The scanner and the parser are classes that move a position, proved against
functions of the remaining input. `LexicalSyntax` writes the characters and words of the language out
once more, and everything below is stated in its terms: which token an input begins with, that
scanning loses nothing, that joined tokens scan back, that the scanner takes the longest word and, but
for one hexadecimal case, the longest numeral, and that an input scans iff all its characters are of
the alphabet; that the parser accepts exactly what an unambiguous grammar derives, and which error it
returns for anything else; that printed units read back as they were.

**Event loop** (`EventLoop.dfy`, `Reactors.dfy`, `ReactorWalks.dfy`; source `src/minaio/v2`). The context runs batches
of a queue, and the reactor walks a vector its handlers shrink. What operations, handlers and
poll(2) do is a parameter. The reference for the walk is a queue: its head is called, and the rest is
what the handler's removals and additions make of it. `CursorRightIff` says of any handler whether a
turn of the loop does that, and `RightWalksCallOnce` what follows for a loop all of whose turns do.
Handlers that remove only themselves are always right. `CalledAgain` and `PassedOver` show that others
can make the loop call a handler twice or never; `EndsBeyond` is one that is right although its cursor
ends beyond the vector.

**Longest repeated block** (`RepeatedBlock.dfy`; source
`src/challenges/test_coderbyte_adjpattern.cpp`).

`Wrappers.dfy` holds the option and result types, `Sequences.dfy` equalities on sequences.

Modelling decisions:

- Completing a scope is a queued operation, as in the variant of the hook at lines 400-405 of the
  source. Completing inside the hook would change child sets while they are being iterated.
- Scopes are created under a locked scope or under the root before its destructor runs
  (`MayCreate`). An incorrect transition is reported (`ok` is false) and changes nothing.
- A root is a `Scope` without a parent; its hook marks it destroyed. `BlockingScope` holds it.
- `behave` in `EventLoop` and `Reactors` is any function of the operation or call and of how many
  came before it, so nothing is assumed about callables but what a contract asks for.
- The constants `ReactorEvent::kRead`, `kWrite` and `kClose`, which the alias in
  `src/minaio/v2/reactor.h` does not declare, are read as the constants of lines 11-14 there.
- A poll's result is the size of the batch reduced to 32 bits.
- Character classes are those of the "C" locale; any other character belongs to none.
- Error messages are modelled by which error occurs, not by their wording.

## Model

| member | source | states |
|---|---|---|
| AsyncScopes.EmptyWave | src/lang/random/test_async_scopes_1.cpp:79-81 | notifying no child leaves the world as it is |
| AsyncScopes.WaveUnique | src/lang/random/test_async_scopes_1.cpp:57-92 | a notification has one outcome but for the order of new completions |
| AsyncScopes.ReachedTogether | src/lang/random/test_async_scopes_1.cpp:57-86 | what two notifications reach in turn is what they reach together |
| AsyncScopes.WavesCompose | src/lang/random/test_async_scopes_1.cpp:79-81 | telling children one by one, in any order, is telling them at once |
| AsyncScopes.WaveBelow | src/lang/random/test_async_scopes_1.cpp:69-86 | an unlocked untold scope is marked and passes on, or starts when it has no child |
| AsyncScopes.WaveStops | src/lang/random/test_async_scopes_1.cpp:69-91 | a locked or detached scope only records that it was told |
| AsyncScopes.WaveRepeated | src/lang/random/test_async_scopes_1.cpp:58-60 | telling a told scope changes nothing |
| AsyncScopes.WaveKeeps | src/lang/random/test_async_scopes_1.cpp:57-92 | a notification keeps the tree and never un-tells a scope, so recursion ends |
| AsyncScopes.Finish | src/lang/random/test_async_scopes_1.cpp:189-193 | a completion keeps the tree, and later completions keep their place in the queue |
| AsyncScopes.FinishMany | src/lang/random/test_async_scopes_1.cpp:342-352 | completions run in queue order, and those queued meanwhile stay behind |
| AsyncScopes.FinishManyCounts | src/lang/random/test_async_scopes_1.cpp:342-352 | the first completions run, each as often as it was queued |
| AsyncScopes.Scope.Blocking | src/lang/random/test_async_scopes_1.cpp:355-357 | a new root is unlocked, valid and untold, on any context, and nothing else changes |
| AsyncScopes.Scope.constructor | src/lang/random/test_async_scopes_1.cpp:104-110 | a new scope is unlocked, valid and untold, and a child of its parent; nothing else changes |
| AsyncScopes.Scope.Add | src/lang/random/test_async_scopes_1.cpp:34 | exactly the child is added |
| AsyncScopes.Scope.StartDestroy | src/lang/random/test_async_scopes_1.cpp:187 | starting queues the completion of a scope, and destroys a root at once |
| AsyncScopes.Scope.RemoveChild | src/lang/random/test_async_scopes_1.cpp:36-55 | the child leaves, and the parent starts iff it is empty, told and not locked |
| AsyncScopes.Scope.HandleParentStartDestroy | src/lang/random/test_async_scopes_1.cpp:57-92 | the recursion over unordered child sets reaches exactly the scopes a notification reaches |
| AsyncScopes.Scope.TellChildren | src/lang/random/test_async_scopes_1.cpp:137-139 | the loop tells all children, whatever the order |
| AsyncScopes.Scope.PassOnDestroy | src/lang/random/test_async_scopes_1.cpp:137-144 | the children are told, and a scope without children starts |
| AsyncScopes.Scope.Lock | src/lang/random/test_async_scopes_1.cpp:112-124 | succeeds iff unlocked and untold, and then only locks; a refused lock changes nothing at all |
| AsyncScopes.Scope.Unlock | src/lang/random/test_async_scopes_1.cpp:126-145 | leaves a locked scope unlocked, and passes a notification on that came meanwhile; changes nothing otherwise |
| AsyncScopes.Scope.Detach | src/lang/random/test_async_scopes_1.cpp:147-178 | leaves an unlocked scope detached; passes on if untold; starts if told and empty; changes nothing otherwise |
| AsyncScopes.Scope.HandleFinishDestroy | src/lang/random/test_async_scopes_1.cpp:189-193 | the scope is destroyed and leaves its parent |
| AsyncScopes.ExecutionContext.Enqueue | src/lang/random/test_async_scopes_1.cpp:337-340 | the operation goes to the back of the queue |
| AsyncScopes.ExecutionContext.Poll | src/lang/random/test_async_scopes_1.cpp:342-352 | exactly the completions queued at entry run, in order, and their number is returned |
| ScopeSafety.StartKeepsCore | src/lang/random/test_async_scopes_1.cpp:46-49 | starting an empty scope that is due restores the invariant |
| ScopeSafety.WaveKeepsCore | src/lang/random/test_async_scopes_1.cpp:57-92 | notifying the children of a scope that passes on restores the invariant |
| ScopeSafety.FinishKeepsCore | src/lang/random/test_async_scopes_1.cpp:189-193 | a completion keeps the invariant |
| ScopeSafety.NextKeepsCore | src/lang/random/test_async_scopes_1.cpp:34-193 | every step keeps the invariant, careful or not |
| ScopeSafety.RunsKeepCore | src/lang/random/test_async_scopes_1.cpp:34-193 | the invariant holds in every state of every run |
| ScopeSafety.LocksProtect | src/lang/random/test_async_scopes_1.cpp:112-151 | a locked scope is valid and not queued, a started one is told or detached, and no lock is granted once destruction began |
| ScopeSafety.WavesStopOnlyAtLocks | src/lang/random/test_async_scopes_1.cpp:77-90 | the children of a detached scope, or of a told one that is not locked, have been told |
| ScopeSafety.TeardownIsBottomUp | src/lang/random/test_async_scopes_1.cpp:36-55 | a started scope has no children, and everything ever created beneath it has finished |
| ScopeSafety.WaveKeepsOnce | src/lang/random/test_async_scopes_1.cpp:77-86 | a notification starts only scopes that had not started |
| ScopeSafety.FinishKeepsOnce | src/lang/random/test_async_scopes_1.cpp:189-193 | a completion finishes its scope once and starts its parent at most once |
| ScopeSafety.NextKeepsOnce | src/lang/random/test_async_scopes_1.cpp:34-193 | every careful step keeps counters, states, tree and queue in agreement |
| ScopeSafety.AtMostOnce | src/lang/random/test_async_scopes_1.cpp:36-193 | in careful runs a scope starts and finishes at most once, in that order, and its state only moves forward |
| ScopeSafety.AtMostOnceIffCareful | src/lang/random/test_async_scopes_1.cpp:147-178 | in any run, no scope ever starts twice iff no unlocked scope is detached after it began |
| ScopeSafety.DetachStartsOnceIffValid | src/lang/random/test_async_scopes_1.cpp:170-177 | a detach keeps destruction at most once iff the scope was still valid, and otherwise starts it twice |
| ScopeSafety.PollIsSteps | src/lang/random/test_async_scopes_1.cpp:342-352 | a poll is completions one after the other, each a step |
| ScopeSafety.PollKeepsInvariants | src/lang/random/test_async_scopes_1.cpp:342-352 | a poll keeps both invariants at any time |
| ScopeRules.ReachedFollows | src/lang/random/test_async_scopes_1.cpp:57-92 | a scope is told by a step iff it was told, or is a child of one that tells its children in that step |
| ScopeRules.LeavesFollow | src/lang/random/test_async_scopes_1.cpp:77-86 | a notification starts exactly the unlocked scopes without children that it tells |
| ScopeRules.FinishFollows | src/lang/random/test_async_scopes_1.cpp:36-55 | a completion takes its scope from the parent, and starts the parent iff that leaves it empty, told and not locked |
| ScopeRules.StepsFollowRules | src/lang/random/test_async_scopes_1.cpp:34-193 | every step of the protocol follows the rules for user state, flag, children, state, counters and queue, scope by scope |
| ScopeRules.RulesDetermine | src/lang/random/test_async_scopes_1.cpp:34-193 | the rules fix the outcome of a step but for the order of new completions |
| ScopeRules.ToldIsNeverLocked | src/lang/random/test_async_scopes_1.cpp:112-124 | over any run: once told and not locked a scope is never locked, and once detached it stays detached |
| ScopeRules.DetachingDetaches | src/lang/random/test_async_scopes_1.cpp:156-177 | giving up an unlocked scope detaches it, and nothing else if it was told and has children |
| ScopeRules.UnlockingUnlocks | src/lang/random/test_async_scopes_1.cpp:132-144 | returning a lock unlocks; if the scope was told meanwhile its children are then told, or it starts |
| ScopeHolders.UniqueAsyncHolder.Make | src/lang/random/test_async_scopes_1.cpp:322-328 | making a scope where that is allowed is a step of the protocol, and keeps the invariant |
| ScopeHolders.UniqueAsyncHolder.LockScope | src/lang/random/test_async_scopes_1.cpp:274-284 | yields the scope iff the lock is granted, and the scope is then locked and valid |
| ScopeHolders.UniqueAsyncHolder.ReturnLock | src/lang/random/test_async_scopes_1.cpp:298-303 | giving a lock back is an unlocking step, and keeps the invariant |
| ScopeHolders.UniqueAsyncHolder.Release | src/lang/random/test_async_scopes_1.cpp:248-254 | an emptied holder has detached its scope once and forgotten it |
| ScopeHistory.MissedIsStranded | src/lang/random/test_async_scopes_1.cpp:39-54 | a scope that is due, empty, unlocked and still valid is a detached one |
| ScopeHistory.NextStrands | src/lang/random/test_async_scopes_1.cpp:39-54 | any step strands a scope only by taking its last child while detached and untold, and only a child's second completion frees it |
| ScopeHistory.NoMissedStart | src/lang/random/test_async_scopes_1.cpp:39-54 | in any run, a due scope is not started iff it was detached untold and later emptied untold, and no child completed twice since it was told |
| ScopeHistory.CarefulRunsMissStranded | src/lang/random/test_async_scopes_1.cpp:39-54 | in a careful run, a due scope is not started iff it was detached untold and later emptied untold |
| ScopeDrain.LiveHoldsRoot | src/lang/random/test_async_scopes_1.cpp:365-366 | while any scope is live the root has a child and is not destroyed |
| ScopeDrain.LiveIsTold | src/lang/random/test_async_scopes_1.cpp:359-363 | when nothing is stuck, the root's notification has reached every live scope |
| ScopeDrain.LiveIsQueued | src/lang/random/test_async_scopes_1.cpp:365-368 | when nothing is stuck, a live scope means a queued completion |
| ScopeDrain.FinishShrinksLive | src/lang/random/test_async_scopes_1.cpp:189-193 | each completion takes exactly its scope from the live ones |
| ScopeDrain.FinishKeepsDraining | src/lang/random/test_async_scopes_1.cpp:189-193 | no completion gets a scope stuck once the root has told its children |
| ScopeDrain.PollDrains | src/lang/random/test_async_scopes_1.cpp:365-368 | a poll keeps all this, shrinks the live tree, and the root is destroyed with its last child |
| ScopeDrain.NoChildrenIsTornDown | src/lang/random/test_async_scopes_1.cpp:365-369 | a root without children means every scope was destroyed once and the queue is empty |
| ScopeDrain.BlockingScope.Notify | src/lang/random/test_async_scopes_1.cpp:360-363 | the destructor tells all children, on any tree |
| ScopeDrain.BlockingScope.Drain | src/lang/random/test_async_scopes_1.cpp:365-368 | the loop polls until the root has no child or is destroyed, and no longer, on every tree on which it ends |
| ScopeDrain.BlockingScope.Destroy | src/lang/random/test_async_scopes_1.cpp:359-369 | the destructor tells the children and polls, on every tree on which that ends; where no scope started twice, the whole tree is then destroyed, each scope once |
| ScopeDrain.ShutdownTearsDown | src/lang/random/test_async_scopes_1.cpp:359-369 | where no scope started twice, a destructor that ends leaves every scope destroyed once and nothing queued |
| ScopeDrain.StuckForever | src/lang/random/test_async_scopes_1.cpp:365-368 | no number of polls frees a locked or stranded scope, so the root keeps a child |
| ScopeDrain.PollsDrain | src/lang/random/test_async_scopes_1.cpp:365-368 | when nothing is stuck the loop ends after at most as many polls as there are live scopes |
| ScopeDrain.DrainEndsIffNoneStuck | src/lang/random/test_async_scopes_1.cpp:359-369 | the polling loop ends iff no scope was locked or stranded when it began |
| ScopeDrain.ShutdownCompletesIff | src/lang/random/test_async_scopes_1.cpp:359-369 | over a careful run: shutdown completes iff no scope is locked and none was detached and emptied untold |
| ScopeDrain.DrainCompletesIff | src/lang/random/test_async_scopes_1.cpp:365-368 | the same at any state of a careful run after the root told its children |
| ScopeExceptions.DetachedParentIsStranded | src/lang/random/test_async_scopes_1.cpp:147-168 | a run in which detaching a scope with one child strands it |
| ScopeExceptions.FinishedTwice | src/lang/random/test_async_scopes_1.cpp:170-177 | a run in which detaching a told scope destroys it twice |
| ScopeExceptions.StrandedIsFreed | src/lang/random/test_async_scopes_1.cpp:36-55 | a run in which a child's second completion starts a stranded scope |
| Lexing.SpanEnd | src/c_frontend/lib/lexer.cpp:44-46 | the longest run of one character class |
| Lexing.Scan | src/c_frontend/lib/lexer.cpp:32-116 | a scan takes some input unless it reports the end of file, which it does only at the end |
| Lexing.Lexer.Next | src/c_frontend/lib/lexer.cpp:32-116 | a call returns the token or error of the remaining input, leaves the rest, and advances unless at the end |
| Lexing.Lexer.NumberBody | src/c_frontend/lib/lexer.cpp:61-81 | the digits in the base the first characters select |
| Lexing.Lexer.Number | src/c_frontend/lib/lexer.cpp:56-105 | digits, fraction, exponent and suffix of a numeral |
| Lexing.LexStep | src/c_frontend/main/main.cpp:107-120 | the driver stops at the first error and at the end of file, and collects every other token |
| Lexing.Tokenize | src/c_frontend/main/main.cpp:107-120 | the driver loop ends on every input with its tokens, without the end of file, or its first error |
| LexingTheory.TextDeterminesClass | src/c_frontend/lib/lexer.cpp:37-111 | the class of a token is fixed by its text |
| LexingTheory.NumberCut | src/c_frontend/lib/lexer.cpp:55-106 | a numeral cut out before white space scans to the same length, also by another branch |
| LexingTheory.TokenCut | src/c_frontend/lib/lexer.cpp:40-111 | a token does not depend on what follows it |
| LexingTheory.LexedIsClean | src/c_frontend/lib/lexer.cpp:32-116 | every scanned token's text scans to it alone and has its class |
| LexingTheory.ScanLosesNothing | src/c_frontend/lib/lexer.cpp:32-116 | an input that scans is its token texts with white space around them |
| LexingTheory.WovenTokensScan | src/c_frontend/lib/lexer.cpp:32-116 | tokens written with any white space between them scan back to themselves |
| LexingTheory.JoinedTokensScan | src/c_frontend/lib/lexer.cpp:32-116 | tokens joined by single spaces scan back to themselves |
| LexingTheory.Retokenise | src/c_frontend/lib/lexer.cpp:32-116 | joining the tokens of any input that scans, and scanning again, changes nothing |
| Numerals.ClassesAreExact | src/c_frontend/lib/lexer.cpp:23-29 | the scanner's classes hold exactly the characters written out |
| Numerals.NumeralEndIff | src/c_frontend/lib/lexer.cpp:55-105 | a numeral is taken up to where its digits, fraction, exponent and suffix, each as long as it can be, end |
| LexicalRules.TokenIffRule | src/c_frontend/lib/lexer.cpp:40-111 | the token an input begins with: the longest word, a keyword iff one of the twelve; a numeral; or one of the 25 symbols |
| LexicalRules.NoTokenIff | src/c_frontend/lib/lexer.cpp:112-115 | no token begins at a character iff it is none of the alphabet |
| LexicalRules.ScanRule | src/c_frontend/lib/lexer.cpp:32-116 | a call skips white space and returns the end of file, that token, or the invalid character |
| LexicalRules.ScansIffInAlphabet | src/c_frontend/main/main.cpp:107-120 | an input scans iff all its characters are of the alphabet |
| LexicalRules.ErrorIsFirstOutside | src/c_frontend/main/main.cpp:107-120 | otherwise the error is the first character that is not |
| Numerals.IntegerConstantsStandAlone | src/c_frontend/lib/lexer.cpp:55-106 | every integer constant of ISO/IEC 9899:1999, section 6.4.4.1, is one literal token |
| Numerals.IntegerConstantsScanWhole | src/c_frontend/lib/lexer.cpp:55-106 | an integer constant before white space is scanned whole, and the rest is left |
| Numerals.WordsAreLongest | src/c_frontend/lib/lexer.cpp:42-48 | a scanned word is the longest one the input begins with |
| Numerals.ScannedIsNumeral | src/c_frontend/lib/lexer.cpp:55-106 | what is scanned as a numeral is one |
| Numerals.NumeralsAreLongest | src/c_frontend/lib/lexer.cpp:55-106 | the scanner takes the longest numeral iff no sign follows a hexadecimal `e` |
| Numerals.HexExponentIsSplit | src/c_frontend/lib/lexer.cpp:62-65 | `0x1e+5` is a numeral of which the scanner takes `0x1e` |
| Parsing.ParseStmt | src/c_frontend/lib/parser.cpp:74-98 | a parsed statement takes at least one token, so the body loop ends |
| Parsing.ParseBody | src/c_frontend/lib/parser.cpp:74-98 | a body ends at a closing brace or at the end of the tokens |
| Parsing.ParseFunction | src/c_frontend/lib/parser.cpp:49-104 | a parsed function takes at least one token, so the unit loop ends |
| Parsing.ParseUnit | src/c_frontend/lib/parser.cpp:38-47 | a parsed unit ends at an end of file or at the end of the tokens |
| Parsing.Parser.ParseExprNode | src/c_frontend/lib/parser.cpp:154-166 | one identifier or constant, or the error |
| Parsing.Parser.ParseVarDeclNode | src/c_frontend/lib/parser.cpp:106-131 | a declaration, its optional initialiser and semicolon, or the first error |
| Parsing.Parser.ParseAssignmentNode | src/c_frontend/lib/parser.cpp:133-152 | an assignment, or the first error |
| Parsing.Parser.ParseBodyNodes | src/c_frontend/lib/parser.cpp:74-98 | the statements up to the closing brace, in order, or the first error |
| Parsing.Parser.ParseFunctionNode | src/c_frontend/lib/parser.cpp:49-104 | a function, or the first error |
| Parsing.Parser.ParseTranslationUnit | src/c_frontend/lib/parser.cpp:38-47 | the unit and the place where it ends, or the first error |
| Grammar.StmtComplete | src/c_frontend/lib/parser.cpp:74-98 | every derived statement is parsed to its tree, whatever follows |
| Grammar.FunctionComplete | src/c_frontend/lib/parser.cpp:49-104 | every derived function is parsed to its tree, whatever follows |
| Grammar.UnitComplete | src/c_frontend/lib/parser.cpp:38-47 | every derived unit is parsed to its tree |
| Grammar.StmtSound | src/c_frontend/lib/parser.cpp:74-98 | a parsed statement has a derivation with that tree |
| Grammar.FunctionSound | src/c_frontend/lib/parser.cpp:49-104 | a parsed function has a derivation with that tree |
| Grammar.UnitSound | src/c_frontend/lib/parser.cpp:38-47 | a parsed unit has a derivation with that tree |
| Grammar.UnitUnique | src/c_frontend/lib/parser.cpp:38-166 | no token list has two derivations |
| Grammar.ParserIsGrammar | src/c_frontend/lib/parser.cpp:38-166 | on scanned tokens, parsing gives a tree iff the tokens before the first end of file derive it, and consumes exactly those |
| Grammar.ReturnNodesAreReturns | src/c_frontend/lib/codegen.cpp:52-54 | a node assigning to `return` comes from a return statement only |
| ParseErrors.StmtStops | src/c_frontend/lib/parser.cpp:74-98 | a statement that breaks off is reported by what was expected there |
| ParseErrors.FunctionStops | src/c_frontend/lib/parser.cpp:49-104 | so is a function that breaks off before, in or at the end of its body |
| ParseErrors.StmtError | src/c_frontend/lib/parser.cpp:74-98 | every failure of a statement is at such a place |
| ParseErrors.ErrorIff | src/c_frontend/lib/parser.cpp:38-166 | parsing fails with an error iff the tokens begin like a unit up to a place where that is expected, and do not go on so |
| FrontEnd.UnitsCompose | src/c_frontend/lib/parser.cpp:38-104 | units written one after the other parse to their declarations in order |
| FrontEnd.ParsesCompose | src/c_frontend/lib/parser.cpp:38-104 | two token lists that parse also parse one after the other |
| FrontEnd.TrailingEofIsImmaterial | src/c_frontend/lib/unittests/test_parser_gtest.cpp:13-20 | a trailing end of file changes neither success nor the tree |
| FrontEnd.ReadSource | src/c_frontend/main/main.cpp:106-134 | scanning and parsing a source, or the first error |
| FrontEnd.SourceRoundTrip | src/c_frontend/lib/parser.cpp:38-166 | any printable unit, any expression tokens, any layout: reading what is printed gives the unit |
| FrontEnd.SpacedSourceRoundTrip | src/c_frontend/lib/lexer.cpp:32-116 | the same with single spaces |
| FrontEnd.ConstantsAreExpressions | src/c_frontend/lib/parser.cpp:154-166 | every integer constant and every identifier may stand for an expression |
| FrontEnd.ReadErrorIff | src/c_frontend/main/main.cpp:106-134 | reading fails at the first character outside the alphabet, or else where the tokens stop being the beginning of a unit |
| FrontEnd.ReadIsGrammar | src/c_frontend/main/main.cpp:106-134 | a source is read as a unit iff its tokens derive that unit |
| EventLoop.ActAll | src/minaio/v2/context.h:21-29 | a running operation never takes from the queue |
| EventLoop.Context.Enqueue | src/minaio/v2/context.h:21-25 | the operation goes to the back of the queue |
| EventLoop.Context.Call | src/minaio/v2/details/context.ipp:22 | what an operation does, including polls that do nothing |
| EventLoop.Context.Poll | src/minaio/v2/details/context.ipp:9-26 | a poll runs its batch and returns how many that were, in 32 bits; nested, it returns 0 |
| EventLoop.RunManyRunsBatch | src/minaio/v2/details/context.ipp:18-23 | a batch runs in order, and what it enqueues stands behind the rest in that order |
| EventLoop.PollRunsItsBatch | src/minaio/v2/details/context.ipp:9-26 | a poll executes what was queued and the reactor, and leaves exactly what these enqueued; nested, it changes nothing |
| EventLoop.NothingLostOrReordered | src/minaio/v2/context.h:21-33 | in every run, executed then queued operations are all that was enqueued, in order |
| EventLoop.PollsRunGenerations | src/minaio/v2/details/context.ipp:9-26 | successive polls execute generation after generation |
| EventLoop.PollStopsIff | src/minaio/v2/context.h:27-33 | a poll leaves the context stopped iff a stop was requested, before or by its batch, and its batch enqueued nothing |
| EventLoop.StoppedIffDue | src/minaio/v2/context.h:27-33 | after `g` polls the context is stopped iff a stop was requested, before or by an operation run, and the last generation, or the user before any, enqueued nothing |
| EventLoop.LoopEndsIff | src/minaio/v2/unittests/test_context.cpp:27-29 | polling until stopped takes exactly `g` polls, none included, iff a stop is due after the first `g` generations and after no fewer |
| EventLoop.PollUntilStopped | src/minaio/v2/unittests/test_context.cpp:27-29 | the user's loop, when it ends, has polled that often |
| EventLoop.GenerationsAreBreadthFirst | src/minaio/v2/details/context.ipp:9-26 | a generation is what the one before enqueued, in order, and the reactor |
| Reactors.EventsAreTold | src/minaio/v2/reactor.cpp:33-45 | the event mask tells reading, writing and closing apart |
| Reactors.Reactor.Add | src/minaio/v2/reactor.cpp:7-18 | an entry without reported events is appended, and the handler replaces one that was set; vector and map keep the same descriptors |
| Reactors.Reactor.Remove | src/minaio/v2/reactor.cpp:20-23 | exactly the entries of the descriptor and its handler go; vector and map keep the same descriptors |
| Reactors.Reactor.Call | src/minaio/v2/reactor.cpp:51-53 | one handler call with every change it makes |
| Reactors.Reactor.Visit | src/minaio/v2/reactor.cpp:32-58 | one turn of the loop, whatever the handler does |
| Reactors.Reactor.Poll | src/minaio/v2/reactor.cpp:25-59 | with nothing ready only the reported events change; else the loop runs, whatever handlers do; when descriptors are distinct and handlers remove at most their own, each handler registered at entry is called once, in order, and exactly those that did not remove themselves stay, with the handlers they had |
| Reactors.Reactor.Dispatch | src/minaio/v2/reactor.cpp:32-58 | the loop over the changing vector, when it ends, with the same result |
| Reactors.TurnIsOwnTurn | src/minaio/v2/reactor.cpp:52-57 | a handler that removes at most itself takes out its entry alone, and the cursor stays, or changes nothing, and the cursor moves on |
| Reactors.MidwayStep | src/minaio/v2/reactor.cpp:52-57 | the cursor stands at the next unvisited entry whether or not a handler removed itself |
| Reactors.OwnWalkEnds | src/minaio/v2/reactor.cpp:32-58 | with such handlers the loop ends, after one turn for each entry |
| ReactorWalks.LastChangeCounts | src/minaio/v2/reactor.cpp:7-23 | after any changes a descriptor is registered iff its last change added it, or none touched it and it was; its handler is the one set last |
| ReactorWalks.ChangesSplit | src/minaio/v2/reactor.cpp:7-23 | whatever a handler adds and removes, the entries left stand in order before the new ones |
| ReactorWalks.CursorRightIff | src/minaio/v2/reactor.cpp:47-57 | for a handler that does anything, a turn leaves what the queue leaves iff, of the entries up to the cursor, it removes none when it adds as many as it removes in all, and exactly one when it does not, or several and leaves nothing after them |
| ReactorWalks.RemovingIsRightIff | src/minaio/v2/reactor.cpp:47-57 | for a handler that only removes: iff it removes no entry at all, exactly one up to the cursor, or several of these and all the others |
| ReactorWalks.OwnTurnIsRight | src/minaio/v2/reactor.cpp:47-57 | among distinct descriptors a handler that removes at most its own is right |
| ReactorWalks.WalkIsQueueIff | src/minaio/v2/reactor.cpp:32-58 | the loop goes as the queue does, turn after turn, iff each turn is right |
| ReactorWalks.CalledOnceOrDropped | src/minaio/v2/reactor.cpp:32-58 | the queue calls an entry exactly once, before any handler removed it, or a handler removed it and it is never called |
| ReactorWalks.RightWalksCallOnce | src/minaio/v2/reactor.cpp:32-58 | so does a loop that ends and whose turns are all right |
| ReactorWalks.CalledInQueueOrder | src/minaio/v2/reactor.cpp:32-58 | the queue calls entries in the order in which they stood |
| ReactorWalks.CalledAgain | src/minaio/v2/reactor.cpp:47-57 | a handler that removes the next descriptor is called twice, and the other never |
| ReactorWalks.PassedOver | src/minaio/v2/reactor.cpp:47-57 | a handler that replaces its own descriptor by a new one makes the loop pass over the next |
| ReactorWalks.EndsBeyond | src/minaio/v2/reactor.cpp:32-58 | a last handler that removes everything leaves the cursor beyond the vector, and the loop ends, rightly |
| RepeatedBlock.BlocksFitTwice | src/challenges/test_coderbyte_adjpattern.cpp:8 | starting at half the length misses no block |
| RepeatedBlock.LongestLeftmostIsUnique | src/challenges/test_coderbyte_adjpattern.cpp:20-22 | there is at most one longest leftmost block |
| RepeatedBlock.Test | src/challenges/test_coderbyte_adjpattern.cpp:7-30 | the answer is the longest leftmost block that repeats, and `no null` iff none of length two does |

## Left out

- Printing, and the user's objects inside scopes.
- Completing a scope inside its hook, which the code compiles by default, would remove children from a set being iterated.
- AsyncScopes.ExecutionContext.Enqueue: queues completions of scopes only. The hooks enqueue nothing else; another callable of the user that acts on scopes is a run's actions between two completions.
- AsyncScopes.ExecutionContext.Poll: the operations it runs are completions of scopes only, for the same reason.
- Several roots on one context: a context may be shared, but the invariants are stated for one tree.
- Moving holders: assigning over a holder drops its scope without detaching it, and returning a lock after a move is a gap the code itself notes.
- ScopeDrain.BlockingScope.Destroy: requires that the loop ends, since there is no state after it where it does not. `DrainEndsIffNoneStuck` says where it ends, for trees in which no scope started twice; for others that is left open.
- ScopeDrain.BlockingScope.Drain: requires that the loop ends, likewise.
- Reactors.Reactor.Poll: requires that the loop ends, since a handler that keeps adding descriptors keeps it from ending; `OwnWalkEnds` gives a case in which it does.
- Reactors.Reactor.Dispatch: requires that the loop ends, likewise.
- Calling a handler that was never set, and destroying a handler while it runs.
- Parameters of functions, which the parser never fills, and the run-time type tests on syntax trees.
- `src/c_frontend/lib/codegen.cpp` beyond its reading of return nodes: it needs LLVM, and the body it emits is always the same.
- The C99 floating constants, of which the scanner does not take all whole (`09.5`, hexadecimal exponents).
- `src/minaio/v0`, `src/minaio/v1`, the datagram socket, and `src/lang/random/test_async_scopes_0.cpp`: unfinished.
- `src/core`, and the small exercises: thin wrappers, and functions without state or a protocol to reason about.
- Memory, allocation failure, exceptions and threads.
