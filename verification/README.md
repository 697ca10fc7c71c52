# Verified models of a configuration engine, a callback runtime and a plugin core

A Dafny 4.11 project that models four parts of the repository and proves what they promise.
`dafny verify dfyconfig.toml` checks everything.

**The Kconfig engine** (`kconfiglib.py`) evaluates symbols and choices lazily and caches what it
has worked out.

* `Expressions`, `Values` and `Evaluation` give the uncached definition: `Values.Step` is one
  attribute (visibility, tristate value, text, assignable values, choice mode, choice selection)
  in terms of the others, `Values.Reads` are the attributes that are *actually* looked at, since
  evaluation short-circuits, and `Evaluation.Value` ties the knot along an evaluation order.
  A configuration in which such an order exists is `WellFormed`.
* `Dependencies` shows that the recorded dependents cover every actual read, apart from MODULES,
  and that clearing what a change reaches leaves only right cached values.
* `Engine` is the caching evaluator: classes `Symbol` and `Choice` with their cache fields, and
  `Kconfig` with every property, the setters and the truncated recursive invalidation.
  `Sessions` runs arbitrary sequences of setters and questions through it.
* `ChoiceModes` has the laws of choices, `ValueLaws` says what all the other values mean in terms
  of what the user wrote, without the definitions that the evaluator shares, `Settings` what
  setting a symbol or a choice and loading a line achieves, with an example in `HeldUp`,
  `FileLayout` what the files look like, `ConfigText`, `Loading` and `Saving` the file formats,
  `RoundTrips` says exactly when saving and loading keeps every value, and `LostText` and
  `LostTristate` are configurations that meet every assumption made here and do not survive.
* `ExprSyntax` is the expression parser and printer, `Macros` the preprocessor,
  `DependencyLoops` the loop detection, for every order in which the dependents of an item are
  visited, `SearchTimes` and `ChoiceLoops` what it can miss when there are choices, with an
  example in `MissedLoop`, `EvaluationOrder` the order in which a configuration without loops can
  be evaluated, `MenuTree` the rewriting and the walk of the linked menu tree,
  `Propagation` the handing down of dependencies and copying up of properties, and `MenuConfig`
  the configuration that these make.

**The callback runtime** (`async.cxx`) is module `Async`. Memory is a map from addresses, so that
a dangling pointer would be a missing key. Handlers may do anything the interface allows, any
number of times, while a dispatch is under way. Two liberties decide about faults: with `nest`
they may also dispatch channels that are being dispatched, with `raze` destroy them. The
invariant of memory holds whatever they do; without `nest` no dispatch gets stuck but one of a
locked list, and without `raze` none uses a cursor whose channel is gone. A ghost log of
subscriptions, kills, visits and destructions says what has happened; an entry is *killed* when
its subscription is cancelled, or dropped while the entry is not pinned. A pinned entry whose
subscription has been dropped is an *orphan*: nothing can kill it, and it stays until its channel
is destroyed.

**The plugin core** (`type.cxx`) is module `Core`; what it meets outside, whether the bindings and
the container can be made and what each load callback does, is an argument of loading, and tasks
end when and how they like. And **the container lock**
(`lock+inl.hxx`, `container.cxx`) is module `ContainerLock`.

## Assumptions

* The prompts of the symbols in a choice are limited by the choice, and a prompt that holds has
  the direct dependencies of its symbol met. `MenuConfig` shows both of every configuration made
  from a finalised menu. Choice defaults name symbols of the choice.
* Nothing MODULES depends on is a tristate symbol. The type of a tristate symbol reads MODULES
  without a recorded dependency (lines 4274-4284 of `kconfiglib.py`); a change of MODULES clears
  everything (lines 4868-4870). `EvaluationOrder.ModulesFirst` states this; with it every
  configuration without dependency loops, with or without choices, is `WellFormed`.
* Parsing and formatting of numbers are parameters. The minimal round trip needs that formatted
  numbers contain no line break and no trailing white space; the laws of ranges need that a
  formatted number is parsed as that number, and that the empty text is none.
* Functions called by macros and the environment are arbitrary total functions.
* The callbacks of the plugin core do not enter the core again. The source means to guard
  against that with a flag which it never sets (lines 18-34 of `type.cxx`).

## Where the code does less than one might expect

* A string with a line break is lost by saving and loading (`LostText.TwoLinesAreLost`), and so is
  white space behind a number (`LostText.SpaceIsLost`). A tristate symbol can change when its
  default exceeds its visibility: with a user value in a minimal configuration
  (`LostTristate.HeldBackIsLost`), without one in a full configuration
  (`LostTristate.OverVisibleIsLost`). `RoundTrips.MinConfigRoundTrip` and
  `RoundTrips.FullConfigRoundTrip` have the exact conditions.
* The values a symbol offers are not always those it takes, although the documentation of
  `assignable` says so: a symbol with a prompt that is m, selected at m and implied at y offers m
  and becomes y when it is set to m (`HeldUp.OffersInVain`). `Settings.OfferedExactly` shows that
  this is the only case outside choices; inside, selects and implies have no effect on the value
  but count for what is offered (`Settings.MemberOffersUpToM`).
* `unload` overwrites `bad_`, so `invalidate` on a loaded core does not last (`Core.Core.Unload`).
* A dispatch of a channel that is being dispatched does not get past a dead entry
  (lines 324-329 of `async.cxx`): `Async.StuckExample`. If its handlers take no liberties and kill
  nothing in the list, it ends exactly if every entry is alive (`Async.Memory.Dispatch`).
* Nothing keeps a handler from destroying the channel whose dispatch has called it (lines 351-356
  of `async.cxx`); the cursor then points to nothing (`Async.DanglingExample`). The cursor's entry
  stays in memory exactly if that does not happen (`Async.CursorStaysInMemory`).
* In a configuration with choices, loop detection can miss a loop: `MissedLoop.LoopIsMissed` is one
  that can then never be evaluated. There is a loop if and only if the search reports one or some
  symbol of a choice depends, other than through the choice, on one listed after it
  (`ChoiceLoops.FindLoopWithChoices`); so without such symbols detection is exact. Where nothing
  is reported, there is a loop if and only if the search came to such a symbol from its choice.

## Model

| member | source | states |
|---|---|---|
| Expressions.LimitedByBounds | extra/lib/python3/_auxiliary/kconfig/_lib/kconfiglib.py:3640-3657 | a condition that a choice was propagated to never exceeds the value of the choice |
| Expressions.ConnectivesMean | extra/lib/python3/_auxiliary/kconfig/_lib/kconfiglib.py:5988-6015 | conjunction and disjunction are the greatest lower and the least upper bound of n < m < y, whatever evaluation leaves out, and negation turns the order round |
| ValueLaws.AtomsMean | extra/lib/python3/_auxiliary/kconfig/_lib/kconfiglib.py:5988-6003 | in an expression a symbol stands for its tristate value and a choice for its mode |
| Evaluation.ReadsMay | extra/lib/python3/_auxiliary/kconfig/_lib/kconfiglib.py:5988-6042 | what short-circuit evaluation looks at is among what the definition mentions |
| Evaluation.StepAgree | extra/lib/python3/_auxiliary/kconfig/_lib/kconfiglib.py:4273-4523 | an attribute depends only on the attributes actually looked at, for every attribute of symbols and choices |
| Evaluation.ValueIsStep | extra/lib/python3/_auxiliary/kconfig/_lib/kconfiglib.py:4273-4523 | evaluation along an order solves the defining equations of all attributes |
| Evaluation.SolutionUnique | extra/lib/python3/_auxiliary/kconfig/_lib/kconfiglib.py:4273-4523 | no other assignment of values solves them |
| Dependencies.ReadsRecorded | extra/lib/python3/_auxiliary/kconfig/_lib/kconfiglib.py:3466-3539 | every actual read is of the item itself, of a recorded dependency, of MODULES, or of something that never changes |
| Dependencies.SurvivorKeepsValue | extra/lib/python3/_auxiliary/kconfig/_lib/kconfiglib.py:4865-4894 | a cached attribute that invalidation leaves has the same value under the new user state |
| Dependencies.InvalidationSound | extra/lib/python3/_auxiliary/kconfig/_lib/kconfiglib.py:4865-4916 | after a change and the invalidation of what it reaches, the cache is coherent with the new user state |
| Dependencies.FlagSurvives | extra/lib/python3/_auxiliary/kconfig/_lib/kconfiglib.py:4525-4549 | the flag whether a symbol is written stays right as long as the value it was computed with is cached |
| Engine.BuildDep | extra/lib/python3/_auxiliary/kconfig/_lib/kconfiglib.py:3466-3539 | an item is among the dependents of another one exactly when its properties mention it, constants excepted, or it is the choice of that symbol |
| Engine.Kconfig.constructor | extra/lib/python3/_auxiliary/kconfig/_lib/kconfiglib.py:4772-4811 | a new configuration has no user values and a valid cache |
| Engine.Kconfig.ExprValue | extra/lib/python3/_auxiliary/kconfig/_lib/kconfiglib.py:5988-6042 | the value of an expression computed through the caches is its uncached value, and the caches stay valid |
| Engine.Kconfig.SymVisibility | extra/lib/python3/_auxiliary/kconfig/_lib/kconfiglib.py:4516-4523 | the visibility returned for a symbol is the uncached one |
| Engine.Kconfig.ChoiceVisibility | extra/lib/python3/_auxiliary/kconfig/_lib/kconfiglib.py:5218-5225 | the same for a choice |
| Engine.Kconfig.ChoiceMode | extra/lib/python3/_auxiliary/kconfig/_lib/kconfiglib.py:5189-5207 | the mode returned for a choice is the uncached one |
| Engine.Kconfig.TriValue | extra/lib/python3/_auxiliary/kconfig/_lib/kconfiglib.py:4427-4505 | the tristate value returned is the uncached one |
| Engine.Kconfig.Selection | extra/lib/python3/_auxiliary/kconfig/_lib/kconfiglib.py:5235-5241 | the selection returned for a choice is the uncached one |
| Engine.Kconfig.StrValue | extra/lib/python3/_auxiliary/kconfig/_lib/kconfiglib.py:4286-4424 | the text returned, with ranges and defaults, is the uncached one |
| Engine.Kconfig.SymAssignableValue | extra/lib/python3/_auxiliary/kconfig/_lib/kconfiglib.py:4813-4857 | the assignable values returned for a symbol are the uncached ones |
| Engine.Kconfig.ChoiceAssignableValue | extra/lib/python3/_auxiliary/kconfig/_lib/kconfiglib.py:5405-5422 | the same for a choice |
| Engine.Kconfig.ConfigStringOf | extra/lib/python3/_auxiliary/kconfig/_lib/kconfiglib.py:4525-4549 | the entry returned is the one the uncached value and the uncached decision to write give |
| Engine.Kconfig.InvalidateAll | extra/lib/python3/_auxiliary/kconfig/_lib/kconfiglib.py:3541-3554 | nothing about defined symbols and choices stays cached, and constants stay |
| Engine.Kconfig.RecInvalidate | extra/lib/python3/_auxiliary/kconfig/_lib/kconfiglib.py:4865-4894 | the recursion that stops at items without a cached visibility ends, also on the cycles of choices and their symbols, and no cached attribute left over may have read a cleared one |
| Engine.Kconfig.RecInvalidateIfHasPrompt | extra/lib/python3/_auxiliary/kconfig/_lib/kconfiglib.py:4896-4916 | skipping the invalidation of a symbol without prompts is harmless |
| Engine.Kconfig.SetValue | extra/lib/python3/_auxiliary/kconfig/_lib/kconfiglib.py:4558-4645 | a valid value is stored and an invalid one refused, for the right types and texts; y for a symbol of a choice makes it the selection of that choice and nothing else about choices changes; the cache is coherent with the new user state |
| Engine.Kconfig.UnsetValue | extra/lib/python3/_auxiliary/kconfig/_lib/kconfiglib.py:4647-4655 | the user value is forgotten and the cache stays coherent |
| Engine.Kconfig.SetMode | extra/lib/python3/_auxiliary/kconfig/_lib/kconfiglib.py:5244-5283 | a valid mode is stored and the cache stays coherent |
| Engine.Kconfig.UnsetChoice | extra/lib/python3/_auxiliary/kconfig/_lib/kconfiglib.py:5285-5292 | mode and selection are forgotten and the cache stays coherent |
| Sessions.Session | extra/lib/python3/_auxiliary/kconfig/_lib/kconfiglib.py:4558-4655 | over any interleaving of setters and questions, every answer is what the uncached definition gives for the user values at that moment |
| Sessions.ChangesDecide | extra/lib/python3/_auxiliary/kconfig/_lib/kconfiglib.py:4859-4894 | the answers after a session depend on its changes alone, not on what was asked and cached in between |
| Sessions.AskingChangesNothing | extra/lib/python3/_auxiliary/kconfig/_lib/kconfiglib.py:4286-4523 | leaving questions out of a session does not change what later questions get |
| ChoiceModes.MemberVisibility | extra/lib/python3/_auxiliary/kconfig/_lib/kconfiglib.py:6286-6313 | the symbols of a choice are at most as visible as its mode allows |
| ChoiceModes.SelectionInYMode | extra/lib/python3/_auxiliary/kconfig/_lib/kconfiglib.py:5424-5453 | a choice in y mode selects one of its visible symbols if it has any, and none otherwise |
| ChoiceModes.ChoiceModesHold | extra/lib/python3/_auxiliary/kconfig/_lib/kconfiglib.py:4494-4502 | in y mode exactly one symbol of a choice is y if any is visible and the others are n, in m mode all are n or m, in n mode all are n, for any user values |
| Settings.AcceptedValues | extra/lib/python3/_auxiliary/kconfig/_lib/kconfiglib.py:4598-4628 | the values accepted for each type: n, m, y as numbers or text for a tristate, n and y for a bool, any text for a string, decimal numbers for an int, hexadecimal ones that are not negative for a hex |
| Settings.SelectedIsY | extra/lib/python3/_auxiliary/kconfig/_lib/kconfiglib.py:5433-5435 | the symbol the user selected is y in a choice in y mode if it is visible, and every other symbol of the choice n |
| Settings.ChooseSymbol | extra/lib/python3/_auxiliary/kconfig/_lib/kconfiglib.py:4635-4641 | setting a symbol of a choice to y succeeds and makes it y, and all the others n, if the choice is in y mode and the symbol visible |
| Settings.LineChooses | extra/lib/python3/_auxiliary/kconfig/_lib/kconfiglib.py:1297-1311 | a line that sets a symbol of a choice to y sets the mode of the choice to y, selects the symbol, and changes nothing else |
| Settings.LastYWins | extra/lib/python3/_auxiliary/kconfig/_lib/kconfiglib.py:1269-1366 | after a file whose last line setting a symbol of a choice to m or y sets it to y, that symbol is y and the others n, if choice and symbol are visible |
| Settings.LoadChoosing | extra/lib/python3/_auxiliary/kconfig/_lib/kconfiglib.py:1269-1366 | the same on the caching evaluator |
| Settings.RefusedLines | extra/lib/python3/_auxiliary/kconfig/_lib/kconfiglib.py:1276-1345 | a line changes nothing if it names no defined symbol, has a value that its symbol does not take, or unsets a symbol that is neither bool nor tristate |
| Settings.UnnamedSymbol | extra/lib/python3/_auxiliary/kconfig/_lib/kconfiglib.py:1356-1362 | a symbol no line names loses its user value when the file replaces the configuration, and keeps it otherwise |
| Settings.UnnamedChoice | extra/lib/python3/_auxiliary/kconfig/_lib/kconfiglib.py:1356-1366 | a choice none of whose symbols is set to m or y loses mode and selection when the file replaces the configuration, and keeps them otherwise |
| Settings.OfferedExactly | extra/lib/python3/_auxiliary/kconfig/_lib/kconfiglib.py:4813-4857 | a visible symbol outside choices offers exactly the values it has after they are set, unless it is selected to m and implied to y and its prompt is only m |
| HeldUp.OffersInVain | extra/lib/python3/_auxiliary/kconfig/_lib/kconfiglib.py:4486-4492 | a concrete configuration in which a symbol offers m and is y when it is set to m |
| Settings.MemberOffersY | extra/lib/python3/_auxiliary/kconfig/_lib/kconfiglib.py:4494-4498 | a fully visible symbol of a choice offers y alone; y makes it y, n and m leave it as it is |
| Settings.MemberOffersUpToM | extra/lib/python3/_auxiliary/kconfig/_lib/kconfiglib.py:4500-4502 | a symbol of a choice in m mode takes n as n and m and y as m; it offers exactly that if and only if nothing selects it and it is not implied to y |
| Settings.ChoiceOffersExactly | extra/lib/python3/_auxiliary/kconfig/_lib/kconfiglib.py:5405-5422 | a visible choice offers exactly the modes it has after they are set |
| Settings.SetOffered | extra/lib/python3/_auxiliary/kconfig/_lib/kconfiglib.py:4558-4645 | on the caching evaluator a symbol set to a value it offers has that value, but for the case above |
| ValueLaws.LexLessMeans | extra/lib/python3/_auxiliary/kconfig/_lib/kconfiglib.py:6018-6027 | texts are compared at the first character where they differ, a proper beginning comes first |
| ValueLaws.NumbersCompared | extra/lib/python3/_auxiliary/kconfig/_lib/kconfiglib.py:6029-6042 | a relation whose operands both stand for numbers says what the six operators say of these numbers, unless both are strings |
| ValueLaws.TextsCompared | extra/lib/python3/_auxiliary/kconfig/_lib/kconfiglib.py:6024-6042 | and otherwise what they say of the texts in that order |
| ValueLaws.SymbolVisibility | extra/lib/python3/_auxiliary/kconfig/_lib/kconfiglib.py:6286-6313 | a symbol outside choices is invisible if all its prompts are n, and visible to m only if it is really tristate and no prompt is y |
| ValueLaws.MemberVisible | extra/lib/python3/_auxiliary/kconfig/_lib/kconfiglib.py:6286-6313 | a bool symbol of a choice is visible only in y mode, a tristate one in y mode only with a prompt that is y, and to m in m mode |
| ValueLaws.ChoiceVisibility | extra/lib/python3/_auxiliary/kconfig/_lib/kconfiglib.py:6286-6313 | the same law for choices |
| ValueLaws.UntouchedMode | extra/lib/python3/_auxiliary/kconfig/_lib/kconfiglib.py:5189-5207 | an invisible choice is n; a visible one not set is n if optional, and otherwise m or y as its type allows |
| ValueLaws.SelectForces | extra/lib/python3/_auxiliary/kconfig/_lib/kconfiglib.py:4473-4492 | what selects a symbol is a lower bound of its value, and a bool is never m |
| ValueLaws.UserTriTaken | extra/lib/python3/_auxiliary/kconfig/_lib/kconfiglib.py:4450-4454 | a visible symbol has the user value as far as its visibility goes, raised by what selects it |
| ValueLaws.DefaultTriTaken | extra/lib/python3/_auxiliary/kconfig/_lib/kconfiglib.py:4456-4492 | otherwise it has its first default that holds, no more than the condition of that, raised by implies whose dependencies are met and by selects |
| ValueLaws.TextTaken | extra/lib/python3/_auxiliary/kconfig/_lib/kconfiglib.py:4404-4414 | a string has the text of the user while visible, and else that of its first default that holds |
| ValueLaws.UserNumberTaken | extra/lib/python3/_auxiliary/kconfig/_lib/kconfiglib.py:4341-4357 | a visible number within the range in force is taken as the user wrote it |
| ValueLaws.DefaultNumberTaken | extra/lib/python3/_auxiliary/kconfig/_lib/kconfiglib.py:4359-4393 | otherwise a number has the text of its first default that holds if that lies in the range in force, and else the number of the range nearest to it |
| ValueLaws.NumberInRange | extra/lib/python3/_auxiliary/kconfig/_lib/kconfiglib.py:4321-4393 | so a number with a range in force lies in the range |
| ValueLaws.InvisibleIgnored | extra/lib/python3/_auxiliary/kconfig/_lib/kconfiglib.py:4343-4505 | setting an invisible symbol changes no attribute of any symbol or choice, except that y may move the selection of a choice |
| ValueLaws.SelectsDefault | extra/lib/python3/_auxiliary/kconfig/_lib/kconfiglib.py:5440-5445 | without a visible user selection a choice in y mode selects the first default that holds and whose symbol is visible |
| ValueLaws.SelectsFirstVisible | extra/lib/python3/_auxiliary/kconfig/_lib/kconfiglib.py:5447-5450 | or else its first visible symbol |
| ValueLaws.WrittenTri | extra/lib/python3/_auxiliary/kconfig/_lib/kconfiglib.py:4440-4484 | a bool or tristate symbol has an entry in a configuration exactly if it is visible or not n |
| ValueLaws.WrittenText | extra/lib/python3/_auxiliary/kconfig/_lib/kconfiglib.py:4300-4422 | a string or number has one exactly if it is visible or has a default that holds, special symbols excepted |
| ValueLaws.UntouchedNotWritten | extra/lib/python3/_auxiliary/kconfig/_lib/kconfiglib.py:1695-1730 | a symbol that is not set has no entry in a minimal configuration, unless it is implied against its dependencies or its default lies outside its range |
| FileLayout.FullLayout | extra/lib/python3/_auxiliary/kconfig/_lib/kconfiglib.py:1583-1656 | a full configuration is the flat outline of the menus behind its header: titles of menus and comments that are shown, every entry where its symbol comes first, behind a blank line if an end comment was printed last, and an end comment for every shown menu with something in it |
| FileLayout.MinChoiceEntry | extra/lib/python3/_auxiliary/kconfig/_lib/kconfiglib.py:1712-1730 | a minimal configuration has an entry for a bool symbol of a choice that is not optional exactly if it is y and would not be selected but for the user |
| ConfigText.EscapeRoundTrip | extra/lib/python3/_auxiliary/kconfig/_lib/kconfiglib.py:6176-6191 | unescaping undoes escaping, for every text |
| ConfigText.LiteralRoundTrip | extra/lib/python3/_auxiliary/kconfig/_lib/kconfiglib.py:6176-6191 | the literal written for a text without line breaks ends where it should |
| ConfigText.ParseSet | extra/lib/python3/_auxiliary/kconfig/_lib/kconfiglib.py:1269-1277 | the line written for an assignment is read as that assignment |
| ConfigText.ParseUnset | extra/lib/python3/_auxiliary/kconfig/_lib/kconfiglib.py:1322-1349 | the line written for a symbol set to n is read as unsetting it |
| ConfigText.LinesMean | extra/lib/python3/_auxiliary/kconfig/_lib/kconfiglib.py:1268-1271 | a line of a file ends with a newline, a carriage return or both, or with the file |
| Loading.LoadConfig | extra/lib/python3/_auxiliary/kconfig/_lib/kconfiglib.py:1247-1366 | loading lines leads to the user state that the lines and the forgetting of what they do not set determine, with a coherent cache |
| Loading.MarksNeverMatter | extra/lib/python3/_auxiliary/kconfig/_lib/kconfiglib.py:1254-1263 | marks left over from earlier do not influence a replacing load |
| Saving.StrDefaultOf | extra/lib/python3/_auxiliary/kconfig/_lib/kconfiglib.py:4918-4951 | the default of a symbol computed through the caches is the one the uncached values give |
| Saving.WriteMinConfig | extra/lib/python3/_auxiliary/kconfig/_lib/kconfiglib.py:1695-1730 | the minimal configuration holds exactly the entries of the symbols that are not left out, in order |
| Saving.WriteFullConfig | extra/lib/python3/_auxiliary/kconfig/_lib/kconfiglib.py:1583-1656 | the full configuration is the text the menu tree and the uncached values determine, each symbol once, and an end comment for every shown menu that has something in it |
| RoundTrips.StepsDecide | extra/lib/python3/_auxiliary/kconfig/_lib/kconfiglib.py:1658-1668 | two user states give all symbols the same values exactly when each symbol, the others being equal, keeps its own |
| RoundTrips.MinConfigRoundTrip | extra/lib/python3/_auxiliary/kconfig/_lib/kconfiglib.py:1658-1730 | without choices and special symbols, loading a minimal configuration restores every value if and only if every text written survives a line and no tristate symbol is held back |
| RoundTrips.FullConfigRoundTrip | extra/lib/python3/_auxiliary/kconfig/_lib/kconfiglib.py:1583-1656 | when no text written breaks its line, loading a full configuration restores every value if and only if no tristate symbol without a user value has a default above its visibility and no visible number loses white space behind it |
| RoundTrips.FullConfigLosesText | extra/lib/python3/_auxiliary/kconfig/_lib/kconfiglib.py:4525-4549 | a text that is no default and does not survive its line is lost by a full configuration too |
| RoundTrips.WritingAgain | extra/lib/python3/_auxiliary/kconfig/_lib/kconfiglib.py:1583-1656 | equal values give the same full text |
| RoundTrips.SaveAndLoadMin | extra/lib/python3/_auxiliary/kconfig/_lib/kconfiglib.py:1695-1730 | the minimal round trip on the caching evaluator itself |
| RoundTrips.SaveLoadSave | extra/lib/python3/_auxiliary/kconfig/_lib/kconfiglib.py:1583-1656 | saving, loading and saving again on the caching evaluator gives the same values and the same text if nothing is lost |
| LostText.SampleAccepted | extra/lib/python3/_auxiliary/kconfig/_lib/kconfiglib.py:1117-1120 | the assumptions under which an evaluation order is derived can be met |
| LostText.TwoLinesAreLost | extra/lib/python3/_auxiliary/kconfig/_lib/kconfiglib.py:4525-4549 | a concrete configuration that meets every assumption and loses the value of a string of two lines |
| LostText.SpaceIsLost | extra/lib/python3/_auxiliary/kconfig/_lib/kconfiglib.py:4525-4549 | a number with a space behind it meets every assumption and comes back from either file without the space |
| LostTristate.HeldBackIsLost | extra/lib/python3/_auxiliary/kconfig/_lib/kconfiglib.py:1695-1730 | a tristate symbol set to m, visible and selected at m, with the default y, meets every assumption and comes back from the minimal configuration as y |
| LostTristate.OverVisibleIsLost | extra/lib/python3/_auxiliary/kconfig/_lib/kconfiglib.py:1583-1656 | the same symbol without a user value is y, and comes back from the full configuration as m |
| ExprSyntax.Parser.ParseExpr | extra/lib/python3/_auxiliary/kconfig/_lib/kconfiglib.py:3376-3415 | the parser that advances through the tokens accepts, builds and consumes what the grammar says |
| ExprSyntax.Parser.ParseAndExpr | extra/lib/python3/_auxiliary/kconfig/_lib/kconfiglib.py:3417-3424 | the same for conjunctions |
| ExprSyntax.Parser.ParseFactor | extra/lib/python3/_auxiliary/kconfig/_lib/kconfiglib.py:3426-3460 | the same for symbols, relations, negations and parentheses |
| ExprSyntax.RightAssocNests | extra/lib/python3/_auxiliary/kconfig/_lib/kconfiglib.py:6060-6101 | re-association leaves an expression alone exactly when its chains are nested to the right |
| ExprSyntax.RightAssocValue | extra/lib/python3/_auxiliary/kconfig/_lib/kconfiglib.py:5988-6042 | re-association keeps the value under every assignment |
| ExprSyntax.ExpressionParses | extra/lib/python3/_auxiliary/kconfig/_lib/kconfiglib.py:3376-3460 | parsing the printed tokens of an expression, whatever follows, gives the expression re-associated |
| ExprSyntax.PrintParseRoundTrip | extra/lib/python3/_auxiliary/kconfig/_lib/kconfiglib.py:6060-6101 | parsing what is printed consumes everything and gives an expression with the same value, the same expression if nested to the right |
| ExprSyntax.ExpressionRewrites | extra/lib/python3/_auxiliary/kconfig/_lib/kconfiglib.py:3436-3439 | the parser with the rewriting of m gives the rewritten result of the parser without it |
| ExprSyntax.RewriteLimitsM | extra/lib/python3/_auxiliary/kconfig/_lib/kconfiglib.py:3436-3439 | with the rewriting an m in an expression counts no more than MODULES |
| Macros.BeginTakes | extra/lib/python3/_auxiliary/kconfig/_lib/kconfiglib.py:2804-2831 | beginning an expansion uses up part of a finite budget, so that expansion ends |
| Macros.Macro | extra/lib/python3/_auxiliary/kconfig/_lib/kconfiglib.py:2742-2799 | expanding a macro ends, keeps the text before it, and leaves a shorter rest that is what followed |
| Macros.Preprocessor.ExpandWhole | extra/lib/python3/_auxiliary/kconfig/_lib/kconfiglib.py:2660-2673 | the loop over a text ends, gives the expanded text or an error, and restores the counters when it succeeds |
| Macros.Preprocessor.ExpandMacro | extra/lib/python3/_auxiliary/kconfig/_lib/kconfiglib.py:2742-2799 | the same for the loop over the arguments of one macro |
| Macros.Preprocessor.ValueOfFn | extra/lib/python3/_auxiliary/kconfig/_lib/kconfiglib.py:2804-2856 | the same for calls, where a variable may not contain itself and a function not nest too deep; a variable whose text is characters and references to arguments stands for that text with the parts of the call filled in |
| Macros.ExpansionEvaluates | extra/lib/python3/_auxiliary/kconfig/_lib/kconfiglib.py:2742-2799 | expanding the text of nested macro calls equals evaluating the calls from the inside out; values put in are not searched again |
| Macros.CallFillsIn | extra/lib/python3/_auxiliary/kconfig/_lib/kconfiglib.py:2777-2831 | a variable called with arguments stands for its text with every `$(k)` replaced by the k-th argument, from either end, `$(0)` by its name, and what is no argument by the environment |
| Macros.CallRefused | extra/lib/python3/_auxiliary/kconfig/_lib/kconfiglib.py:2811-2826 | a plain variable that is being expanded already, and a called one more than 100 times, is an error |
| Macros.NothingToExpand | extra/lib/python3/_auxiliary/kconfig/_lib/kconfiglib.py:2660-2673 | text without macro calls stays as it is |
| DependencyLoops.LoopFinder.CheckSym | extra/lib/python3/_auxiliary/kconfig/_lib/kconfiglib.py:6559-6631 | a visit ends, does what the search as a function does, and returns that there is nothing, a real piece of a loop of different items ending at an open visit, or a real loop |
| DependencyLoops.LoopFinder.CheckChoice | extra/lib/python3/_auxiliary/kconfig/_lib/kconfiglib.py:6634-6665 | the same for choices; going back and forth between a choice and its symbol is not taken for a loop |
| DependencyLoops.LoopFinder.FoundDepLoop | extra/lib/python3/_auxiliary/kconfig/_lib/kconfiglib.py:6668-6676 | a piece is extended, or complete when it is back at its start |
| DependencyLoops.FindLoop | extra/lib/python3/_auxiliary/kconfig/_lib/kconfiglib.py:1117-1120 | either the loop reported is one, or all defined symbols are in an order in which none depends on an earlier one, and every edge of the search has been followed but those straight back between a choice and its symbol |
| DependencyLoops.DetectLoop | extra/lib/python3/_auxiliary/kconfig/_lib/kconfiglib.py:1117-1120 | without choices a loop is reported if and only if there is one, and the report is such a loop |
| DependencyLoops.AcceptedHasNoLoop | extra/lib/python3/_auxiliary/kconfig/_lib/kconfiglib.py:6559-6631 | when nothing is reported there is no loop of symbols, with or without choices |
| SearchTimes.BeginKeeps | extra/lib/python3/_auxiliary/kconfig/_lib/kconfiglib.py:6586-6619 | beginning a visit, from a symbol of a choice to the choice or the other way too, keeps what is known about the times of all visits |
| SearchTimes.EndKeeps | extra/lib/python3/_auxiliary/kconfig/_lib/kconfiglib.py:6607-6627 | ending a visit after everything that depends on the item keeps it too |
| ChoiceLoops.SilenceExcludes | extra/lib/python3/_auxiliary/kconfig/_lib/kconfiglib.py:6559-6665 | when nothing is reported and there is a loop, some symbol of a choice depends, other than through the choice, on one listed after it; the search came to the first from the choice, and to the choice not from the second |
| ChoiceLoops.LeadingOnLoops | extra/lib/python3/_auxiliary/kconfig/_lib/kconfiglib.py:6559-6665 | where a symbol does, there is a loop through the choice |
| ChoiceLoops.FindLoopWithChoices | extra/lib/python3/_auxiliary/kconfig/_lib/kconfiglib.py:1117-1120 | with choices there is a loop if and only if one is reported or a symbol of a choice depends, other than through the choice, on one listed after it; when nothing is reported, if and only if the search came to such a symbol from the choice |
| MissedLoop.HiddenNotWellFormed | extra/lib/python3/_auxiliary/kconfig/_lib/kconfiglib.py:6634-6665 | a configuration of a symbol and a choice of two symbols has no evaluation order, because of a loop through the choice |
| MissedLoop.LoopIsMissed | extra/lib/python3/_auxiliary/kconfig/_lib/kconfiglib.py:1117-1120 | the search reports nothing on that configuration |
| EvaluationOrder.CycleIsLoop | extra/lib/python3/_auxiliary/kconfig/_lib/kconfiglib.py:6559-6665 | groups of a choice and its symbols that depend on each other in a cycle contain a dependency loop |
| EvaluationOrder.OwnGroup | extra/lib/python3/_auxiliary/kconfig/_lib/kconfiglib.py:3640-3660 | without loops, the properties of an item depend within its group on the choice alone |
| EvaluationOrder.MayExplained | extra/lib/python3/_auxiliary/kconfig/_lib/kconfiglib.py:4273-4523 | whatever an attribute may look at is mentioned in a property of the item, or comes before it in its group, or is MODULES |
| EvaluationOrder.LoopFreeIsWellFormed | extra/lib/python3/_auxiliary/kconfig/_lib/kconfiglib.py:1117-1120 | a configuration without dependency loops, with or without choices, has an evaluation order for all attributes |
| EvaluationOrder.Finalised | extra/lib/python3/_auxiliary/kconfig/_lib/kconfiglib.py:1114-1124 | from the definitions to a working evaluator, or to none exactly when there is a loop, provided no symbol of a choice leads on to a later one |
| MenuTree.FlattenedKeeps | extra/lib/python3/_auxiliary/kconfig/_lib/kconfiglib.py:6476-6502 | flattening keeps the order of all nodes and leaves the 'if's empty |
| MenuTree.WithoutIfsKeeps | extra/lib/python3/_auxiliary/kconfig/_lib/kconfiglib.py:6505-6528 | taking out empty 'if's keeps the order of the others |
| MenuTree.FinalizedKeeps | extra/lib/python3/_auxiliary/kconfig/_lib/kconfiglib.py:3556-3624 | finalising a node keeps the order of all nodes but 'if's and leaves no 'if' below it, whatever implicit submenus arise |
| MenuTree.FlattenedNearest | extra/lib/python3/_auxiliary/kconfig/_lib/kconfiglib.py:6488-6502 | flattening moves no node out of the nearest node around it that has a prompt or is a choice |
| MenuTree.FinalizedNearest | extra/lib/python3/_auxiliary/kconfig/_lib/kconfiglib.py:3556-3624 | finalising puts every node that is no 'if' below the nearest node around it, by parsing or by dependency, that has a prompt or is a choice |
| MenuTree.RunIsMaximal | extra/lib/python3/_auxiliary/kconfig/_lib/kconfiglib.py:3592-3601 | a symbol takes the siblings behind it as long as they depend on it, and no further |
| MenuTree.Flatten | extra/lib/python3/_auxiliary/kconfig/_lib/kconfiglib.py:6476-6502 | the relinking in place gives the flattened siblings, with right next, list and parent pointers; afterwards every node is below the nearest node around it that has a prompt or is a choice, and only such nodes have children |
| MenuTree.RemoveIfs | extra/lib/python3/_auxiliary/kconfig/_lib/kconfiglib.py:6505-6528 | the relinking in place takes exactly the 'if's out |
| MenuTree.TiltSymbol | extra/lib/python3/_auxiliary/kconfig/_lib/kconfiglib.py:3585-3601 | the siblings that depend on a symbol, and no others, become its children, finalised |
| MenuTree.FinalizeNode | extra/lib/python3/_auxiliary/kconfig/_lib/kconfiglib.py:3556-3624 | the recursion over the linked nodes ends and gives the finalised tree |
| MenuTree.FinalizeTree | extra/lib/python3/_auxiliary/kconfig/_lib/kconfiglib.py:3556-3624 | afterwards the nodes in order are the parsed ones without the 'if's, each is below the nearest node around it, by parsing or by dependency, that has a prompt or is a choice, no other node has children, and all pointers are right |
| MenuTree.NodeIter | extra/lib/python3/_auxiliary/kconfig/_lib/kconfiglib.py:1932-1956 | the walk through the pointers ends and yields the nodes below the top in the order of the recursive definition, or the first node of each symbol |
| MenuTree.PreOrderOnce | extra/lib/python3/_auxiliary/kconfig/_lib/kconfiglib.py:1932-1956 | that order has every node of the tree exactly once |
| MenuTree.FirstNodesOnce | extra/lib/python3/_auxiliary/kconfig/_lib/kconfiglib.py:1910-1926 | with unique symbols every symbol is yielded exactly once |
| MenuTree.FirstNodesInOrder | extra/lib/python3/_auxiliary/kconfig/_lib/kconfiglib.py:1910-1926 | it is yielded where it occurs first, and the order is that of the tree |
| Propagation.MakeAnd | extra/lib/python3/_auxiliary/kconfig/_lib/kconfiglib.py:2863-2875 | the simplified conjunction has the value of the minimum, under every assignment |
| Propagation.MakeOr | extra/lib/python3/_auxiliary/kconfig/_lib/kconfiglib.py:2877-2889 | the simplified disjunction has the value of the maximum |
| Propagation.Finalizer.PropagateDeps | extra/lib/python3/_auxiliary/kconfig/_lib/kconfiglib.py:3637-3687 | the entries in a menu, 'if' or choice get their final conditions, everything deeper is untouched |
| Propagation.Finalizer.AddPropsToSym | extra/lib/python3/_auxiliary/kconfig/_lib/kconfiglib.py:3689-3720 | the properties of one entry are added to its symbol and to those it selects and implies |
| Propagation.Finalizer.FinalizeNode | extra/lib/python3/_auxiliary/kconfig/_lib/kconfiglib.py:3556-3635 | every entry below gets its final conditions, and the properties are copied up in order |
| Propagation.Finalizer.FinalizeTree | extra/lib/python3/_auxiliary/kconfig/_lib/kconfiglib.py:1098 | the same for the whole tree |
| Propagation.PromptIsMinimum | extra/lib/python3/_auxiliary/kconfig/_lib/kconfiglib.py:3655-3660 | a prompt condition is the minimum of its own condition, its own and the inherited dependencies, a choice standing for its own, and all enclosing 'visible if's |
| Propagation.OtherPromptIsMinimum | extra/lib/python3/_auxiliary/kconfig/_lib/kconfiglib.py:3681-3685 | prompts of menus and comments get the dependencies but no 'visible if' |
| Propagation.ConditionsAreMinima | extra/lib/python3/_auxiliary/kconfig/_lib/kconfiglib.py:3662-3679 | conditions of defaults, ranges, selects and implies get the dependencies, and nothing else of them changes |
| Propagation.RevDepIsMaximum | extra/lib/python3/_auxiliary/kconfig/_lib/kconfiglib.py:3709-3720 | the reverse dependency is the maximum over all selects of the minimum of selector, condition and dependencies, and likewise the weak one |
| Propagation.DirectDepIsMaximum | extra/lib/python3/_auxiliary/kconfig/_lib/kconfiglib.py:3701-3702 | the direct dependency is the maximum over the entries of their full dependencies |
| Propagation.PropertiesInOrder | extra/lib/python3/_auxiliary/kconfig/_lib/kconfiglib.py:3704-3707 | defaults and ranges are those of the entries, behind each other in their order |
| Propagation.CopiedOnce | extra/lib/python3/_auxiliary/kconfig/_lib/kconfiglib.py:3581-3633 | every entry of a symbol or choice is copied up exactly once |
| Propagation.SymbolsInFileOrder | extra/lib/python3/_auxiliary/kconfig/_lib/kconfiglib.py:3581-3633 | the entries of symbols are copied up in the order of the file |
| Propagation.PromptUnderDirectDep | extra/lib/python3/_auxiliary/kconfig/_lib/kconfiglib.py:3646-3660 | a prompt never exceeds the direct dependency of its symbol |
| Propagation.PromptLimited | extra/lib/python3/_auxiliary/kconfig/_lib/kconfiglib.py:3640-3660 | the prompts of the symbols in a choice have the form that the evaluator relies on |
| MenuConfig.PromptsUnderDeps | extra/lib/python3/_auxiliary/kconfig/_lib/kconfiglib.py:3646-3702 | in a configuration made from a menu the prompts of a symbol never exceed its direct dependency |
| MenuConfig.MenuPromptsNeedDeps | extra/lib/python3/_auxiliary/kconfig/_lib/kconfiglib.py:3646-3702 | such a configuration meets what the round trips ask of prompts |
| MenuConfig.MenuPromptsLimited | extra/lib/python3/_auxiliary/kconfig/_lib/kconfiglib.py:3640-3660 | and what evaluation asks of the prompts of the symbols in a choice |
| Async.Memory.Pin | library/src/utils/async.cxx:362-364 | pins an active subscription and says whether it was not pinned; nothing but the flag of its entry changes |
| Async.Memory.Unpin | library/src/utils/async.cxx:366-368 | unpins and says whether it was pinned; nothing but the flag of its entry changes |
| Async.Memory.CancelSubscription | library/src/utils/async.cxx:378-388 | an active subscription becomes inactive, its entry is killed: erased, or left dead while its pool is locked |
| Async.Memory.DropSubscription | library/src/utils/async.cxx:390-397 | a pinned entry stays in its list, alive; another one is killed: erased, or left dead while its pool is locked |
| Async.Memory.Subscribe | library/src/utils/async.cxx:336-349 | a new entry at the end of the list and its subscription point at each other |
| Async.Memory.DestroyChannel | library/src/utils/async.cxx:351-356 | the subscriptions still linked lose their references, and the entries are gone, also while the channel is being dispatched |
| Async.CancelKeeps | library/src/utils/async.cxx:378-388 | cancelling keeps the links of entries and subscriptions in bijection and disturbs no dispatch under way |
| Async.DropKeeps | library/src/utils/async.cxx:390-397 | dropping does too |
| Async.DestroyKeeps | library/src/utils/async.cxx:351-356 | after the destruction of a channel no reference names it or one of its entries, whether it was being dispatched or not |
| Async.KeptTrans | library/src/utils/async.cxx:315-334 | what every step keeps, every run keeps: locked lists only grow unless their channel is destroyed, orphans stay alive in their list, settled futures stay, what is gone stays gone |
| Async.CursorCall | library/src/utils/async.cxx:322-327 | calling a live entry moves the cursor over it |
| Async.CursorErase | library/src/utils/async.cxx:328 | erasing a dead entry leaves the cursor before the next one |
| Async.CursorHandler | library/src/utils/async.cxx:324-327 | whatever a handler does, while the channel exists the cursor stays valid and keeps its place |
| Async.CursorStaysInMemory | library/src/utils/async.cxx:315-334 | whatever is done while a channel is being dispatched, the entry under its cursor stays in memory if and only if the channel is not destroyed |
| Async.HandlerReturned | library/src/utils/async.cxx:324-327 | when a handler comes back, the dispatch goes on with a valid cursor, or its channel has been destroyed |
| Async.Memory.VisitEntry | library/src/utils/async.cxx:322-329 | one turn of the loop: a live entry is called, a dead one erased by the dispatch that has locked the list, and only before a dead one without that lock does the dispatch itself get stuck |
| Async.Memory.Dispatch | library/src/utils/async.cxx:315-334 | a dispatch that ends has visited everything in the list and everything added meanwhile, once each and in order, and leaves what it called; it is stuck before a dead entry only in a locked list or below a handler with that liberty, exactly for a dead entry of a locked list when handlers do nothing, and uses a dead cursor only if handlers destroy channels under dispatch |
| Async.Memory.RunHandler | library/src/utils/async.cxx:324-326 | anything handlers do, including nested dispatches, settling futures and destroying channels under dispatch, keeps the invariant of memory, and faults come of the liberties alone |
| Async.DispatchedByLife | library/src/utils/async.cxx:315-334 | an entry dead at the start is not called and erased, one that nobody kills is called |
| Async.OrphanStays | library/src/utils/async.cxx:390-397 | a pinned entry whose subscription has been dropped stays alive in its list, whatever is done, exactly until its channel is destroyed |
| Async.OrphanCalled | library/src/utils/async.cxx:322-329 | every dispatch of its channel that ends has called it |
| Async.PinnedHandlerRuns | metamod_plugin/src/core/type.cxx:94-111 | a handler that is subscribed, pinned and dropped at once runs with the next dispatch that ends, whatever handlers do before, unless the channel is destroyed |
| Async.LockedEndsLive | library/src/utils/async.cxx:315-334 | a dispatch of a locked list ends only if every entry was alive when it began, whatever handlers do |
| Async.StuckMeansKilled | library/src/utils/async.cxx:315-334 | the entry before which a dispatch is stuck was dead at its beginning or has been killed since |
| Async.StuckExample | library/src/utils/async.cxx:324-329 | a handler that cancels its own subscription and dispatches its channel again never comes back |
| Async.DanglingExample | library/src/utils/async.cxx:351-356 | a handler that destroys its channel leaves the dispatch with a cursor to nothing |
| Async.NeverCalledAfterCancel | library/src/utils/async.cxx:378-388 | a visit of an entry after its cancellation does not call the handler |
| Async.Memory.Settle | library/src/utils/async.cxx:210-222 | at most one settlement succeeds; it fixes the outcome, visits every waiting entry once and never again, calls it unless it has been killed by its turn, and leaves every subscription inactive |
| Async.Memory.Set | library/src/utils/async.cxx:210-222 | a value is set, or it is said why not: cancelled, or settled otherwise |
| Async.Memory.SetException | library/src/utils/async.cxx:260-272 | an exception settles a future exactly when it is one and the future is not settled |
| Async.Memory.CancelFuture | library/src/utils/async.cxx:274-286 | cancelling settles a future exactly when it is not settled |
| Async.Memory.SubscribeFuture | library/src/utils/async.cxx:288-297 | a settled future runs the handler at once and gives no subscription, another one only gives an active subscription of its private channel, whose entry has not been visited |
| Async.Memory.DestroyFuture | library/src/utils/async.cxx:299-309 | an abandoned future notifies everybody who waits, each once, and calls those not killed by their turn |
| Async.WaitingHandlerRunsOnce | library/src/utils/async.cxx:210-309 | a handler that waits for a future is visited at most once in any run |
| Async.EntryServed | library/src/utils/async.cxx:210-309 | an entry visited by the dispatch of a settled future is visited at no other time, and called exactly if not killed before |
| Core.Core.Inject | metamod_plugin/src/core/type.cxx:53-58 | a module is appended unless the core is bad or loaded |
| Core.Loading.Splice | metamod_plugin/src/core/type.cxx:108-114 | a completed module moves from the queue to the front of the loaded ones |
| Core.Loading.Progress | metamod_plugin/src/core/type.cxx:90-111 | however pending tasks end meanwhile, no module is lost or loaded twice |
| Core.StartAll | metamod_plugin/src/core/type.cxx:83-116 | every module is started in turn, up to the first whose callback throws; it goes on exactly if none does |
| Core.Core.TryLoad | metamod_plugin/src/core/type.cxx:78-131 | the part that may throw does not exactly if what it needs can be made, no callback throws and all tasks give values |
| Core.AllDone | metamod_plugin/src/core/type.cxx:117-128 | loading goes on only if every task has given a value |
| Core.EveryoneCompleted | metamod_plugin/src/core/type.cxx:117-128 | then every injected module has completed exactly once |
| Core.Core.Load | metamod_plugin/src/core/type.cxx:64-154 | a load succeeds if and only if the core is neither bad nor loaded, bindings and container can be made and filled, no load callback throws and every task gives a value; load callbacks are called in order up to the first that throws; a successful load has every injected module once in reverse order of completion; a failed one has unloaded those that completed, in that order, leaves neither bindings nor container, and the core is bad exactly if one of these callbacks threw |
| Core.Core.UnloadAll | metamod_plugin/src/core/type.cxx:136-145 | every unload callback is called exactly once, in order, even if some throw, and failure means that one did |
| Core.UnloadableInOrder | metamod_plugin/src/core/type.cxx:136-145 | the callbacks called for a list come in the order of the list, modules without a callback left out |
| Core.Core.Unload | metamod_plugin/src/core/type.cxx:156-190 | the loaded modules are unloaded once each in their order, and bindings and container are gone; unless nothing was loaded the core is bad afterwards exactly if a callback threw |
| Core.Core.Invalidate | metamod_plugin/src/core/type.cxx:192-197 | the core turns bad, and forgets its modules unless it is loaded |
| ContainerLock.Acquire | library/include/p5/lambda/utils/container/lock+inl.hxx:113-119 | locking fails exactly when the node is locked, and otherwise gives the only linked lock of an empty node |
| ContainerLock.Lock.Unlink | library/include/p5/lambda/utils/container/lock+inl.hxx:13-22 | an unpinned lock empties and unlocks its node, a pinned one leaves it locked with its payload for good |
| ContainerLock.Lock.Release | library/include/p5/lambda/utils/container/lock+inl.hxx:44-52 | releasing empties and unlocks the node even if pinned |
| ContainerLock.PinDecidesDrop | library/include/p5/lambda/utils/container/lock+inl.hxx:29-42 | the last of pinning and unpinning before a lock goes decides: its node stays locked with its payload for good, or is unlocked and empty; a lock without a node is not pinned by it |
| ContainerLock.Lock.Assign | library/include/p5/lambda/utils/container/lock+inl.hxx:54-65 | only a linked lock can put a payload, and its node is locked |
| ContainerLock.Lock.MoveFrom | library/include/p5/lambda/utils/container/lock+inl.hxx:93-106 | moving hands the node over and lets go of the one held before, as dropping would; moving to itself does nothing |
| ContainerLock.Lock.Moved | library/include/p5/lambda/utils/container/lock+inl.hxx:90-91 | a moved-from lock is unlinked but keeps its pinned flag |
| ContainerLock.Lock.Drop | library/include/p5/lambda/utils/container/lock+inl.hxx:108-111 | destroying a lock is unlinking it, and changes nothing if it has no node |
| ContainerLock.AnyRun | library/include/p5/lambda/utils/container/lock+inl.hxx:13-119 | over any run of any operations on any locks and nodes, at most one lock is linked to a node, linked implies locked, an unlocked node is empty, and a node that a pinned lock has left stays locked with its payload while it lives |
| ContainerLock.Driver.NodeFor | library/src/utils/container.cxx:101-111 | a key always gives the same node, different keys different ones, and a new node is empty and unlocked |

## Left out

- RoundTrips.FullConfigRoundTrip: for texts that break their line only the losing direction is stated (`FullConfigLosesText`, for texts that are no defaults); a broken line may by chance assign to another symbol.
- ChoiceLoops.FindLoopWithChoices: with a symbol of a choice that leads on to a later one, whether a loop is reported depends on the order of visits, which `FirstLoop` computes; no condition on the definitions alone is given. It also asks that a symbol is in one choice, and that what depends on a choice leads to one of its symbols, as in implicit submenus; menus inside choices can break that.
- EvaluationOrder.Finalised: where a symbol of a choice leads on to a later one, an evaluator made although there is a loop is not covered.
- Async.Memory.Dispatch: `Stuck` stands for never returning, and nothing is said about what comes after `Dangling`, which is undefined.
- Core.Core.Load: stopping the remaining tasks after a failure is taken to load nothing more.
- Choices, `option env` and defconfig_list in the configuration round trips, and the text of warnings, including the evaluations made for the warning about unsatisfied selects.
- The tokeniser, help texts, the regular expressions for other prefixes than `CONFIG_`, and symbols found by name: symbols and choices are numbers, relations and dependents refer to them.
- Types of choices and the registration of choice symbols after finalisation, and the order in which the tilting of implicit submenus visits siblings (it is the order of the siblings).
- In `Propagation` the tree is handed to the methods as a value; its pointers are in `MenuTree`, where the decision which nodes depend on a symbol is an arbitrary predicate.
- In `Async` the destructors of handler objects, the data of events, coroutines and allocation failures; `budget` bounds what handlers do in one run, for every bound.
- In `ContainerLock` the notification of subscribers, which is the last thing each operation does, and the destructors of payloads.
- File access, environment lookup, `sync_deps`, header output, user interfaces, the engine bindings, logs and generators.
