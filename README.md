# PrismatestJS in Dafny

PrismatestJS builds *test views*. A test view is a selector plus named actions and named aggregates. Test views compose: `outer(inner)` composes the two selectors and keeps the inner view's actions and aggregates. A view is *materialised* against a root element. Every action becomes callable three ways:
- on all matched elements: the bare call;
- on exactly one element: `.one`;
- on the n-th element, 1-indexed: `.at(n)`.

Every aggregate becomes callable on the whole matched sequence. An *adapter* supplies the selector language: composition, running a selector, iteration, printing. It also supplies seven default views (checkbox, radio, text input, single and multi select, form, button).

This project models:
- `Core`: the engine of `core/index.ts`. It is generic in the selector type, the element type and a *world*, the page state that actions may change. The world is threaded through every call, so each call re-queries the root in the world it is given.
- `CoreLaws`: laws of that engine.
- `Legacy`: the older engine of `index.ts`, with concrete selectors, bare calls and one `actions` namespace. It is related to `Core` by lemmas.
- `Controls`: the DOM slice the default views act on. It has inputs, selects with their option lists, and an event log standing for `Simulate.*`. Its objects are classes updated in place.
- `Css`, `Cypress` and `Enzyme`: each adapter's selector algebra and default-view logic.
- `Scenarios`: a concrete string adapter that replays the behaviours checked in `core/index.test.ts`.
- `Strings` and `Wrappers`: JavaScript's `split`, `trim` and `join`, plus Option and Result types.

The core requires every adapter's composition to be associative (`core/index.ts:458`). That law is proved:
- for the Cypress adapter;
- for the Enzyme adapter, for both `run` and `str`;
- for the CSS adapter when every comma-separated alternative is non-blank, with a counterexample when one is blank;
- for the string adapter of the scenarios.

Where the code and the tests disagree, the model follows the code. The error-message tests at `core/index.test.ts:233`, `259` and `285` expect layouts such as `"Selector:\n\t\ta\n"`. The code at `core/index.ts:302-306` builds `"\tSelector: \"a\"\n"`. The model builds the code's layout (`Scenarios.ZeroMessage`).

## Model

| member | source | states |
|---|---|---|
| Core.Accepts | core/index.ts:185-190 | a concrete selector takes no selector arguments; a parameterised one takes exactly its arity |
| Core.Resolve | core/index.ts:189-190 | a concrete selector resolves to itself, a parameterised one to its function applied to the arguments |
| Core.MakeView | core/index.ts:146-156 | the view keeps its selector; an omitted action or aggregate map is empty, a given one is kept |
| Core.Compose | core/index.ts:157-180 | the composite has exactly the right view's actions and aggregates; it is parameterised iff the left selector is, takes the same arguments, and resolves to `compose(left resolved, right)` |
| CoreLaws.ComposeAssociative | core/index.ts:157-180 | if selector composition is associative, so is view composition: same actions, aggregates, accepted arguments and resolved selector for both bracketings |
| Core.ZeroError | core/index.ts:310-335 | the error records selector, root and elements; its message is the zero heading, then the selector, root and selected lines |
| Core.MultipleError | core/index.ts:283-308 | the error records selector, root and elements; its message is the multiple heading, then the detail lines |
| Core.IndexError | core/index.ts:337-366 | the error also records the index; its message has the index line before the detail lines |
| Core.SelectionError.Name | core/index.ts:283-366 | the error's `name` is "ZeroSelectedElementsError", "MultipleSelectedElementsError" or "IndexOutOfBoundsError" exactly for the matching kind, and always ends in "Error" |
| Core.PrintElements | core/index.ts:276-281 | no element renders as `[]`; otherwise the rendering opens with `[`, a newline and a tab |
| CoreLaws.PrintElementsListing | core/index.ts:276-281 | no element renders as `[]`; otherwise `[`, one tab-indented quoted line per element in order, and `]` on its own line |
| CoreLaws.LinesListing | core/index.ts:280 | joining the element lines with newline-tab gives one line per element, in order |
| CoreLaws.ZeroErrorDiagnoses | core/index.ts:329-333 | the zero-match message contains the selector, root and selection renderings |
| CoreLaws.MultipleErrorDiagnoses | core/index.ts:302-306 | the many-match message contains the selector, root and selection renderings |
| CoreLaws.IndexErrorDiagnoses | core/index.ts:359-364 | the index message contains the line naming the requested index and the selector, root and selection renderings |
| CoreLaws.ErrorsDiagnose | core/index.ts:385-442 | every error `.one` or `.at` reports names the selector, the root and the matched elements |
| Core.ApplyEach | core/index.ts:383-384 | one result per element; no element gives no result and leaves the world unchanged |
| CoreLaws.ApplyEachSnoc | core/index.ts:384 | running over `xs + [x]` runs over `xs` first, then on `x` in the world those runs left |
| CoreLaws.ApplyReadOnly | core/index.ts:384 | a read-only action run over elements gives its own result on each element, in order |
| Core.Invoke | core/index.ts:383-384 | the bare call yields exactly one result per matched element; zero matches gives `[]`, no error, unchanged world |
| Core.InvokeOne | core/index.ts:385-413 | succeeds iff exactly one element matches, with the action's result on it; zero matches is ZeroSelectedElements, more than one is MultipleSelectedElements |
| Core.InvokeAt | core/index.ts:414-442 | zero matches is ZeroSelectedElements whatever `n`; otherwise it succeeds iff `1 <= n <= k` and entry `n-1` is not nullish, with the action's result on that entry; any other failure is IndexOutOfBounds carrying `n` |
| CoreLaws.OneAgreesWithInvoke | core/index.ts:383-413 | on exactly one match, `.one` returns the single result of the bare call |
| CoreLaws.AtFirstIsOne | core/index.ts:385-442 | on a single non-nullish match, `.at(1)` and `.one` are the same call |
| CoreLaws.AtAgreesWithInvoke | core/index.ts:383-442 | for a read-only action, a successful `.at(n)` is the n-th result of the bare call |
| CoreLaws.Cardinality | core/index.ts:383-442 | with k matches: k results from the bare call; `.one` succeeds iff k = 1; `.at(n)` succeeds only if 1 <= n <= k; the error is ZeroSelectedElements iff k = 0, otherwise Multiple (for `.one`) or IndexOutOfBounds (for `.at`) |
| Core.InvokeAggregate | core/index.ts:446-456 | the aggregate runs exactly once, on the whole sequence the adapter's query yields in the given world, and its result is the call's result |
| CoreLaws.AggregateSeesSelection | core/index.ts:446-456 | an aggregate runs once on exactly the elements `get` returns, and never fails |
| Core.GetAction | core/index.ts:192 | the built-in `get` action: the element itself; its behaviour is stated by CoreLaws.BuiltinsRender |
| Core.PrintSelectedAction | core/index.ts:193 | the built-in `printSelected` action: the element's rendering; stated by CoreLaws.BuiltinsRender |
| Core.PrintSelectorAggregate | core/index.ts:213-217 | the built-in `printSelector` aggregate: the selector's rendering; stated by CoreLaws.BuiltinsRender |
| Core.PrintRootAggregate | core/index.ts:218-222 | the built-in `printRoot` aggregate: the root's rendering; stated by CoreLaws.BuiltinsRender |
| CoreLaws.BuiltinsRender | core/index.ts:192-222 | in every world, on every element, selection and arguments: `get` yields the element, `printSelected` its rendering, `printSelector` and `printRoot` the renderings of the selector and the root, and none changes the world |
| CoreLaws.GetReturnsMatched | core/index.ts:192 | the built-in `get` returns the matched elements unchanged, in order |
| CoreLaws.ApplyPrintSelected | core/index.ts:193 | running the `printSelected` action over elements returns each one's rendering, in order, and leaves the world unchanged |
| CoreLaws.PrintSelectedRendersMatched | core/index.ts:193 | the built-in `printSelected` returns the rendering of each matched element, in order |
| CoreLaws.PrintSelectorRendersSelector | core/index.ts:213-217 | the built-in `printSelector` returns the resolved selector's rendering |
| CoreLaws.PrintRootRendersRoot | core/index.ts:218-222 | the built-in `printRoot` returns the root's rendering |
| Core.BindActions | core/index.ts:199-207 | the keys are the defaults' plus the actions'; each own action is bound to selector and root, replacing a same-named default; other defaults stay |
| Core.BindAggregates | core/index.ts:228-236 | the same rule for aggregates |
| Core.Flatten | core/index.ts:238-243 | the keys are all actions, all aggregates, and `actions`/`aggregates`; an aggregate shadows a same-named action; these two names always denote the namespaces |
| Core.Materialize | core/index.ts:185-244 | action keys are `{get, printSelected}` plus the view's; aggregate keys are `{printSelector, printRoot}` plus the view's; user entries bind to the resolved selector and override the built-ins; otherwise the built-ins are bound |
| Core.WrapDefaultViews | core/index.ts:249-269 | each of the seven default views keeps its selector as a concrete one and its actions, and has no aggregates |
| Legacy.MakeView | index.ts:90-94 | the view keeps its selector; omitted actions are the empty map |
| Legacy.Compose | index.ts:95-101 | the composite selector is `compose(selector, next.selector)` and the actions are the next view's |
| Legacy.ComposeAssociative | index.ts:95-101 | legacy composition is associative when selector composition is |
| Legacy.ComposeAgreesWithCore | index.ts:95-101 | the current engine composes legacy views as the legacy engine does |
| Legacy.Invoke | index.ts:158-165 | a legacy call yields one result per matched element |
| Legacy.InvokeAgreesWithCore | index.ts:52-54 | the legacy call is the current engine's bare call |
| Legacy.GetReturnsMatched | index.ts:106-108 | the legacy `get` returns the matched elements unchanged |
| Legacy.Materialize | index.ts:105-123 | the keys are `{get}` plus the own action keys; every own action is bound; a user `get` overrides the default |
| Legacy.WrapDefaultViews | index.ts:129-149 | each default view keeps the adapter's selector and actions unchanged |
| Css.ComposeSelectors | adapters/prismatestjs-css/index.ts:18-25 | splitting the composed selector at its commas gives exactly the product of the two inputs' alternatives: every trimmed left alternative joined by a space to every trimmed right one, left alternative major |
| Css.ComposePieces | adapters/prismatestjs-css/index.ts:18-25 | the composed selector has \|A\|·\|B\| comma alternatives, and alternative `i·\|B\|+j` is the piece of left alternative `i` and right alternative `j` |
| Css.ProductPieces | adapters/prismatestjs-css/index.ts:21-23 | the product has \|A\|·\|B\| entries and entry `i·\|B\|+j` is the piece of `A[i]` and `B[j]` |
| Css.ProductLength | adapters/prismatestjs-css/index.ts:21-23 | the product of the splits has \|A\|·\|B\| entries |
| Css.ProductAt | adapters/prismatestjs-css/index.ts:21-23 | entry `i·\|B\|+j` of the product is `f(A[i], B[j])` |
| Css.ProductCommaFree | adapters/prismatestjs-css/index.ts:21-24 | pieces of comma-free alternatives contain no comma, so joining and splitting again recovers them |
| Css.Row | adapters/prismatestjs-css/index.ts:22 | the inner map pairs one `u` with every `v`, in order |
| Css.ProductAppendLeft | adapters/prismatestjs-css/index.ts:21-23 | the product distributes over concatenation of its left operand |
| Css.ProductRowAssoc | adapters/prismatestjs-css/index.ts:21-23 | one row of a nested product, bracketed either way, agrees when the piece function is associative |
| Css.ProductAssoc | adapters/prismatestjs-css/index.ts:21-23 | the product is associative when the piece function is associative on its entries |
| Css.PieceAssoc | adapters/prismatestjs-css/index.ts:22 | `trim(trim(u)+" "+trim(v))+" "+trim(w)` equals the other bracketing when no part is blank |
| Css.SolidAssoc | adapters/prismatestjs-css/index.ts:22 | on non-blank alternatives the piece function is associative |
| Css.ComposeAssociative | adapters/prismatestjs-css/index.ts:18-25 | composition is associative when every comma alternative of the three inputs is non-blank after trimming |
| Css.ComposeTrimmed | adapters/prismatestjs-css/index.ts:18-25 | comma-free selectors with known trims compose to those trims around a space |
| Css.ComposeSingle | adapters/prismatestjs-css/index.ts:18-25 | comma-free selectors compose to `trim(a) + " " + trim(b)` |
| Css.BlankBreaksAssociativity | adapters/prismatestjs-css/index.ts:18-25 | for plain selectors `x`, `y` (such as `"x"`, `"y"`): `compose(compose("",x),y)` is `x + " " + y` but `compose("",compose(x,y))` is `" " + x + " " + y`, so the bracketings differ |
| Css.BlankThenPlain | adapters/prismatestjs-css/index.ts:18-25 | composing `""` with `x` and then with `y` gives `x + " " + y` for plain `x`, `y` |
| Css.BlankBeforeComposite | adapters/prismatestjs-css/index.ts:18-25 | composing `""` with `compose(x, y)` gives `" " + x + " " + y` for plain `x`, `y` |
| Css.BlankLeft | adapters/prismatestjs-css/index.ts:18-25 | composing `""` with a plain selector keeps the empty piece and prefixes one space |
| Css.SpaceLeft | adapters/prismatestjs-css/index.ts:18-25 | a leading space on the parent piece is trimmed away before joining |
| Css.PlainCompose | adapters/prismatestjs-css/index.ts:18-25 | two plain selectors compose to their descendant join, which is again plain |
| Css.BlankBeforePlain | adapters/prismatestjs-css/index.ts:18-25 | `""` composed with a plain descendant join `x + " " + y` gives `" " + x + " " + y` |
| Css.PieceBare | adapters/prismatestjs-css/index.ts:22 | a piece built from two non-blank alternatives is already trimmed |
| Css.PieceCommaFree | adapters/prismatestjs-css/index.ts:22 | a piece of comma-free alternatives holds no comma |
| Css.TrimLeadingSpace | adapters/prismatestjs-css/index.ts:22 | one leading space is trimmed from a string that needs no trimming |
| Css.IterateSelector | adapters/prismatestjs-css/index.ts:32-43 | the results are the action applied to each node in index order, one per node, with the world threaded through |
| Css.FindSelectOption | adapters/prismatestjs-css/index.ts:45-56 | the first option whose value equals the given one, or none |
| Css.FindOptionFirst | adapters/prismatestjs-css/index.ts:49-54 | the first index carrying the value is what the lookup reports |
| Css.Toggle | adapters/prismatestjs-css/index.ts:62-65 | `checked` is negated, `value` is unchanged, and one change event is dispatched |
| Css.RadioSelect | adapters/prismatestjs-css/index.ts:74-77 | the radio becomes checked and one change event is dispatched |
| Css.DefaultSelectorsSolid | adapters/prismatestjs-css/index.ts:58-188 | every comma-separated alternative of every default-view selector is non-blank after trimming |
| Css.DefaultsAssociative | adapters/prismatestjs-css/index.ts:58-188 | composing default-view selectors gives the same selector under either bracketing |
| Css.DefaultViewsKeepSelectors | adapters/prismatestjs-css/index.ts:58-188 | the default selectors cover exactly the seven default views; views with them, passed through the core's `defaultViews`, keep each one as a concrete selector under the same name |
| Css.TwoAlternatives | adapters/prismatestjs-css/index.ts:108 | two plain selectors joined by ", " split into two non-blank alternatives |
| Css.ThreeAlternatives | adapters/prismatestjs-css/index.ts:180 | three plain selectors joined by ", " split into three non-blank alternatives |
| Css.GroupKey | adapters/prismatestjs-css/index.ts:88-90 | the radio group is named by the element's `name`, or by its `id` when the name is empty |
| Css.GroupPositions | adapters/prismatestjs-css/index.ts:88-93 | the positions of the children in the group, each once and strictly increasing, and every position in the group is listed |
| Css.RadioGroup | adapters/prismatestjs-css/index.ts:88-93 | every entry is one of the parent's radio children whose name is the group key, and every such child is an entry |
| Css.RadioGroupInOrder | adapters/prismatestjs-css/index.ts:88-93 | the group is the children at `GroupPositions`, so it lists each child in the group once and in document order |
| Css.FirstChecked | adapters/prismatestjs-css/index.ts:94-102 | the value of the first checked radio; none iff no radio is checked |
| Css.GetSelectedValue | adapters/prismatestjs-css/index.ts:83-103 | no parent gives null; otherwise the first checked radio of the element's group, or null when none is checked |
| Css.EnterText | adapters/prismatestjs-css/index.ts:110-113 | the value becomes the text and one change event is dispatched |
| Css.SingleSelectSelect | adapters/prismatestjs-css/index.ts:121-130 | when an option has the value, the first such option becomes the only selected one, `select.value` is then the value, and a change is dispatched; otherwise nothing changes |
| Css.MultiSelectSelect | adapters/prismatestjs-css/index.ts:139-155 | each option is selected iff its value is in `values`; a change is dispatched iff there is at least one option |
| Css.GetSelection | adapters/prismatestjs-css/index.ts:156-166 | the values of the selected options, in option order |
| Controls.FirstSelected | adapters/prismatestjs-css/index.ts:131 | the index of the first selected option, or none when none is selected |
| Controls.FindOption | adapters/prismatestjs-css/index.ts:49-55 | the first index whose option has the value, or none when no option has it |
| Controls.SelectOnly | adapters/prismatestjs-css/index.ts:127 | after `selectedIndex = i`, option `i` is the only selected one and the values are unchanged |
| Controls.MarkSelected | adapters/prismatestjs-css/index.ts:141-151 | each option is selected iff its value is in the list, values unchanged |
| Controls.SelectedValues | adapters/prismatestjs-enzyme/index.ts:188-192 | a value is in the selection iff some selected option has it |
| Controls.SelectedValuesSnoc | adapters/prismatestjs-css/index.ts:159-164 | adding an option at the end adds its value iff it is selected |
| Controls.SelectionAfterMark | adapters/prismatestjs-adapter-tests/default-test-views-controlled.tsx:322-370 | after a multi select the selection is the option values found in the list, in option order |
| Controls.SelectionAfterMarkMembers | adapters/prismatestjs-css/index.ts:139-166 | a value is selected after a multi select iff it is in the list and some option has it |
| Controls.SelectNoneClears | adapters/prismatestjs-adapter-tests/default-test-views-controlled.tsx:322-370 | `select([])` leaves nothing selected |
| Controls.ValuesInNone | adapters/prismatestjs-css/index.ts:145 | no value is in the empty list |
| Controls.MarkReplaces | adapters/prismatestjs-css/index.ts:139-155 | a second multi select replaces the first: no trace of the earlier selection remains |
| Controls.SelectOnlyValue | adapters/prismatestjs-css/index.ts:121-131 | after selecting the first option with a value, the first selected option is that one and `select.value` is the value |
| Controls.SelectElement.Value | adapters/prismatestjs-css/index.ts:131 | `select.value` is the first selected option's value, or "" when none is selected |
| Controls.SelectElement.SetSelectedIndex | adapters/prismatestjs-css/index.ts:127 | the options become `SelectOnly(old options, i)` and no event is dispatched |
| Controls.SelectElement.Dispatch | adapters/prismatestjs-css/index.ts:128 | appends the event and leaves the options alone |
| Controls.SelectElement.constructor | adapters/prismatestjs-css/index.ts:139 | holds the given options and no events |
| Controls.InputElement.Dispatch | adapters/prismatestjs-css/index.ts:64 | appends the event and leaves `checked` and `value` alone |
| Controls.InputElement.constructor | adapters/prismatestjs-css/index.ts:63 | holds the given attributes and state and no events |
| Controls.PlainElement.Dispatch | adapters/prismatestjs-css/index.ts:173-185 | `submit` and `click` append their event |
| Controls.PlainElement.constructor | adapters/prismatestjs-css/index.ts:170-187 | a form or button with no events |
| Cypress.MakeFindSelector | adapters/prismatestjs-cypress/index.ts:34-41 | a find step with the given selector and options |
| Cypress.MakeContainsSelector | adapters/prismatestjs-cypress/index.ts:43-52 | a contains step with the given text, selector and options |
| Cypress.ForBaseSelector | adapters/prismatestjs-cypress/index.ts:58-66 | contains steps go to the contains handler, every other step to the find handler |
| Cypress.ForSelector | adapters/prismatestjs-cypress/index.ts:68-76 | composed selectors go to the composed handler, base ones to the base handler |
| Cypress.ForTwoSelectors | adapters/prismatestjs-cypress/index.ts:78-95 | each of the four shape pairs picks its own handler |
| Cypress.ComposeSelectors | adapters/prismatestjs-cypress/index.ts:97-107 | always a composed selector listing the steps of `a` then those of `b` |
| Cypress.ComposeAssociative | adapters/prismatestjs-cypress/index.ts:97-107 | both bracketings give the same selector |
| Cypress.ComposeBuilt | adapters/prismatestjs-cypress/index.ts:97-107 | a composite of built selectors is never nested and has \|flat(a)\|+\|flat(b)\| >= 2 steps |
| Cypress.PrintBaseSelector | adapters/prismatestjs-cypress/index.ts:152-155 | both step shapes print as their JSON text |
| Cypress.PrintSteps | adapters/prismatestjs-cypress/index.ts:158 | one rendering per step, in order |
| Cypress.PrintSelector | adapters/prismatestjs-cypress/index.ts:157-159 | a selector prints as its steps' renderings joined by `Cypress.FollowedBy`, a newline, the words "followed by" and a newline; a base selector has one step |
| Cypress.PrintCompose | adapters/prismatestjs-cypress/index.ts:157-159 | a composite prints as the left rendering, a "followed by" line, and the right rendering |
| Cypress.Step | adapters/prismatestjs-cypress/index.ts:118-131 | a find step is a `get` when it is the first step and a `find` after it; a contains step is `ContainsCommand` wherever it stands |
| Cypress.ContainsCommand | adapters/prismatestjs-cypress/index.ts:109-112 | the selector is passed to `contains` only when present |
| Cypress.RunSelector | adapters/prismatestjs-cypress/index.ts:114-136 | the issued commands are the selector's chain, with the `first` flag cleared after the first step |
| Cypress.ChainShape | adapters/prismatestjs-cypress/index.ts:118-134 | one command per step; only the first find is a `get`, later finds are `find`s, contains steps are `contains` |
| Cypress.ChainCompose | adapters/prismatestjs-cypress/index.ts:114-136 | a composite's chain is the left chain, followed by the right operand's steps as later steps |
| Cypress.Chain | adapters/prismatestjs-cypress/index.ts:118-134 | one command per step, step `i` issued with the `first` flag set exactly when `i = 0` |
| Cypress.SingletonChain | adapters/prismatestjs-cypress/index.ts:114-136 | a one-step composed list runs as the base selector itself |
| Cypress.DefaultSelectorsFind | adapters/prismatestjs-cypress/index.ts:176-309 | the default selectors cover exactly the seven default views, and each is one `find` step without options, run as a single `cy.get` of its CSS selector |
| Cypress.DefaultViewsKeepSelectors | adapters/prismatestjs-cypress/index.ts:176-309 | views with these selectors, passed through the core's `defaultViews`, keep each one as a concrete selector under the same name |
| Enzyme.QuickLabel | adapters/prismatestjs-enzyme/index.ts:62-68 | a display name first, else an object's JSON text, else the string itself |
| Enzyme.Selector.constructor | adapters/prismatestjs-enzyme/index.ts:21-24 | keeps `run`; `str` is `"Selector: "` and the function's source |
| Enzyme.Selector.Composed | adapters/prismatestjs-enzyme/index.ts:27-32 | `run` is the first run followed by the second; `str` is the two `str`s on separate lines |
| Enzyme.Selector.Quick | adapters/prismatestjs-enzyme/index.ts:55-70 | `run` is the find; `str` is `QuickSelector: "<label>"` |
| Enzyme.ComposeSelectors | adapters/prismatestjs-enzyme/index.ts:38-39 | a fresh composed selector chaining the runs and stacking the strings |
| Enzyme.Then | adapters/prismatestjs-enzyme/index.ts:29 | the composed run function; its behaviour is stated by Enzyme.ThenApply |
| Enzyme.RunSelector | adapters/prismatestjs-enzyme/index.ts:41-44 | running a selector on a wrapper applies the selector's own `run` |
| Enzyme.PrintSelector | adapters/prismatestjs-enzyme/index.ts:51 | a selector prints as the `str` it was built with |
| Enzyme.ThenApply | adapters/prismatestjs-enzyme/index.ts:29 | the composed run applies the first run, then the second |
| Enzyme.ThenAssociative | adapters/prismatestjs-enzyme/index.ts:27-29 | both bracketings of three runs apply them in order on every wrapper |
| Enzyme.ThenAssociativeAll | adapters/prismatestjs-enzyme/index.ts:27-29 | for all wrappers at once, both bracketings of three runs apply them in order |
| Enzyme.ComposeThree | adapters/prismatestjs-enzyme/index.ts:27-39 | both bracketings of three selectors run identically on every wrapper and print the same |
| Enzyme.Matching | adapters/prismatestjs-enzyme/index.ts:154-156 | exactly the indices of the options with the value, the first of them being the first such option; the indices are strictly increasing, so each matching option is counted once |
| Enzyme.MatchingAgreesWithFind | adapters/prismatestjs-enzyme/index.ts:154-157 | the first matching child is what the CSS adapter's lookup finds; none iff the lookup finds none |
| Enzyme.SingleSelectSelect | adapters/prismatestjs-enzyme/index.ts:152-161 | no matching option: nothing changes; one: it becomes the only selected option, `select.value` is the value and a change is simulated; several: `instance()` fails and nothing changes |
| Strings.Split | adapters/prismatestjs-css/index.ts:19-20 | at least one piece, none holding the separator |
| Strings.JoinSplit | adapters/prismatestjs-css/index.ts:19-24 | splitting and joining with the same separator gives back the string |
| Strings.SplitJoin | adapters/prismatestjs-css/index.ts:24 | joining separator-free pieces and splitting again gives back the pieces |
| Strings.JoinConcat | adapters/prismatestjs-cypress/index.ts:158 | joining two non-empty lists puts exactly one separator between their joins |
| Strings.TrimShape | adapters/prismatestjs-css/index.ts:22 | a trimmed string is empty or starts and ends with a non-white-space character |
| Strings.TrimKeeps | adapters/prismatestjs-css/index.ts:22 | a string with non-white-space ends is its own trim |
| Strings.TrimDropsOnly | adapters/prismatestjs-css/index.ts:22 | trimming introduces no character |
| Scenarios.LiteralMatches | core/index.test.ts:21-30 | every match equals the pattern |
| Scenarios.TestAdapter | core/index.test.ts:18-30 | composition concatenates; the query is the literal matcher |
| Scenarios.TestAdapterAssociative | core/index.test.ts:18-19 | the test adapter meets the associativity law |
| Scenarios.ComposedPrintSelector | core/index.test.ts:317-321 | `testView("a")(testView("b")).materialize("aba").printSelector()` is `"ab"` |
| Scenarios.ParameterizedPrintSelector | core/index.test.ts:323-327 | with `x => x + "a"` composed with `"b"` and materialised with `"foo"`, `printSelector()` is `"fooab"` |
| Scenarios.PrintRootScenario | core/index.test.ts:311-315 | `printRoot()` on `"aba"` is `"aba"` |
| Scenarios.PrintSelectedAll | core/index.test.ts:306 | `printSelected()` with selector `"a"` on `"aba"` is `["a","a"]` |
| Scenarios.PrintSelectedAba | core/index.test.ts:306 | the bound `printSelected` of `"a"` on `"aba"` returns `["a","a"]` |
| Scenarios.PrintSelectedOne | core/index.test.ts:307 | `printSelected.one()` on root `"a"` is `"a"` |
| Scenarios.PrintSelectedSecond | core/index.test.ts:308 | `printSelected.at(2)` on `"aba"` is `"a"` |
| Scenarios.FailureScenarios | core/index.test.ts:225-301 | `get.one()` on `"aba"` is MultipleSelectedElements; on `"bbbb"` it is ZeroSelectedElements; `get.at(2)` on `"abbb"` is IndexOutOfBounds(2); each error records selector, root and matches |
| Scenarios.ZeroMessage | core/index.ts:329-333 | the zero-match message for `"a"` on `"bbbb"`, in the code's layout |

## Left out

- DOM and framework calls are abstract. `querySelectorAll`, enzyme's `find`/`findWhere`/`children`/`debug`, and every Cypress chain command are represented by the adapter's `query` or by command values. `Simulate.*` and `simulate(...)` become appended events; the handlers they would run are not modelled.
- The CSS adapter's wiring through `makeAdapter` (adapters/prismatestjs-css/index.ts:190-195) is not modelled. It passes four arguments, which matches the legacy signature (index.ts:175-185), not the current one. Its functions are modelled standalone.
- The loop order of `for ... in` in `materialize` is not modelled. The loops are modelled over key sets, and the resulting maps do not depend on the order.
- Non-integral `.at(n)` arguments are not modelled: the index is an integer.
- JavaScript numbers are integers throughout: action and aggregate results (`Core.Value.Num`) and the numeric text of a Cypress `contains` step (`Cypress.TextPattern.TextNumber`). Fractions, `NaN` and infinities are not modelled.
- The TypeScript type-level machinery (`Tail`, `ParameterizedSelectorArgs`, core/types/index-test.ts) becomes preconditions. The right operand of a composition must be concrete, and a parameterised selector must get arguments of its arity.
- `JSON.stringify` and `Function.prototype.toString` are parameters: the `json` function in `Cypress` and the `source` and `json` fields in `Enzyme`.
- The Cypress adapter's `iterateSelector` and `printElement` (adapters/prismatestjs-cypress/index.ts:138-150, 161-169) iterate a foreign chainable and are not modelled.
- `waitForCypress` and the Cypress getters are not modelled. They rely on an asynchronous unwrap that awaits nothing.
- The Cypress and Enzyme default-view actions that only issue framework commands are not modelled.
- The Enzyme checkbox, radio and text-input actions that reach the DOM node through `instance()` (adapters/prismatestjs-enzyme/index.ts:84-148) do the same as the CSS ones. They are modelled once, as `Css.Toggle`, `Css.RadioSelect`, `Css.GetSelectedValue` and `Css.EnterText`.
- The Enzyme checkbox `getValue` (adapters/prismatestjs-enzyme/index.ts:93) reads the React `value` prop, not the DOM property, and is not modelled. The two differ on a checkbox without a `value` attribute: the DOM property is `"on"`, the prop is `undefined`.
- The Enzyme multi-select actions are modelled once, for both adapters:
  - the `select` loop (adapters/prismatestjs-enzyme/index.ts:169-187) is `Css.MultiSelectSelect`;
  - its `getSelection` (188-192) is `Controls.SelectedValues`.
- The field reads `isChecked`, the CSS `getValue`, `getText` and single-select `getSelection` are not separate members: they read the DOM properties `checked`, `value` and `Controls.SelectElement.Value`.
- The DOM's own radio-group exclusivity is not modelled: checking a radio does not uncheck its siblings.
- An empty `name` attribute stands for an absent one when the radio group key is chosen.
- Css.RadioGroup: a radio with no `name` attribute is treated as having the empty name when the group is matched. In the source, `[name='']` matches only radios with an explicit empty `name`. So for a checked radio with neither `name` nor `id`, the source's `getSelectedValue` gives null and `Css.GetSelectedValue` gives its value.
- The regular-expression adapter of core/index.test.ts:21-30 is modelled by a literal substring matcher. It covers the tests, whose selectors have no special characters.
- Css.RadioGroup: the group key is taken to hold no `'` and no `\`. The source pastes the key into the selector text (adapters/prismatestjs-css/index.ts:90-92): there a quote makes `querySelectorAll` throw a syntax error, and a backslash starts a CSS escape. Neither case is modelled.
- Css.RadioGroup: the pasted selector lacks its closing `]`. The CSS parser closes the attribute match at the end of input, and the model reads the selector as that attribute match.
- Css.GetSelectedValue: inherits the limits of `Css.RadioGroup`: a key with a quote or a backslash is not modelled, the unclosed `]` is read as closed, and a radio without a `name` attribute matches the empty key.
- Css.ComposeAssociative: holds only when every comma-separated alternative is non-blank after trimming; Css.BlankBreaksAssociativity shows the blank case.
- The message-layout tests at core/index.test.ts:233, 259 and 285 are not reproduced. Their expected strings disagree with the message the code builds, and the model follows the code.
