/**
 * The Cypress adapter (adapters/prismatestjs-cypress/index.ts): selectors are
 * a tagged union of `find` and `contains` steps, composition concatenates
 * step lists, and running a selector issues one Cypress command per step.
 */
module Cypress {
  import opened Wrappers
  import opened Strings
  import Core

  /** The `text` of a contains step: a string, a number or a regular expression. */
  datatype TextPattern = TextString(s: string) | TextNumber(n: int) | TextRegex(source: string)

  /** `FindOptions`: `Partial<Loggable & Timeoutable>`. */
  datatype FindOptions = FindOptions(log: Option<bool>, timeout: Option<nat>)

  /** `ContainsOptions`: `Partial<Loggable & Timeoutable & CaseMatchable>`. */
  datatype ContainsOptions = ContainsOptions(log: Option<bool>, timeout: Option<nat>, matchCase: Option<bool>)

  /** `{type: "contains", text, selector?, options?}`. */
  datatype ContainsSelector = ContainsSelector(text: TextPattern, selector: Option<string>, options: Option<ContainsOptions>)

  /** `{type: "find", selector, options?}`. */
  datatype FindSelector = FindSelector(selector: string, options: Option<FindOptions>)

  /** `BaseSelectorType`. */
  datatype BaseSelector = Contains(contains: ContainsSelector) | Find(find: FindSelector)

  /** `SelectorType`: a base selector or a `{type: "composed", selectors}` list. */
  datatype Selector = Base(base: BaseSelector) | Composed(selectors: seq<BaseSelector>)

  /** `findSelector(selector, options?)` (cypress/index.ts:34-41). */
  function MakeFindSelector(selector: string, options: Option<FindOptions>): (r: BaseSelector)
    ensures r.Find? && r.find.selector == selector && r.find.options == options
  {
    Find(FindSelector(selector, options))
  }

  /** `containsSelector(text, selector?, options?)` (cypress/index.ts:43-52). */
  function MakeContainsSelector(text: TextPattern, selector: Option<string>, options: Option<ContainsOptions>): (r: BaseSelector)
    ensures r.Contains? && r.contains.text == text && r.contains.selector == selector && r.contains.options == options
  {
    Contains(ContainsSelector(text, selector, options))
  }

  /** `forBaseSelector(contains, find)(s)` (cypress/index.ts:58-66). */
  function ForBaseSelector<R>(contains: ContainsSelector -> R, find: FindSelector -> R, s: BaseSelector): (r: R)
    ensures s.Contains? ==> r == contains(s.contains)
    ensures s.Find? ==> r == find(s.find)
  {
    if s.Contains? then contains(s.contains) else find(s.find)
  }

  /** `forSelector(base, composed)(s)` (cypress/index.ts:68-76). */
  function ForSelector<R>(base: BaseSelector -> R, composed: seq<BaseSelector> -> R, s: Selector): (r: R)
    ensures s.Composed? ==> r == composed(s.selectors)
    ensures s.Base? ==> r == base(s.base)
  {
    if s.Composed? then composed(s.selectors) else base(s.base)
  }

  /**
   * `forTwoSelectors(bothComposed, aComposed, bComposed, noComposed)(a, b)`
   * (cypress/index.ts:78-95): the nested dispatch picks the handler for the
   * pair of shapes.
   */
  function ForTwoSelectors<R>(
    bothComposed: (seq<BaseSelector>, seq<BaseSelector>) -> R,
    aComposed: (seq<BaseSelector>, BaseSelector) -> R,
    bComposed: (BaseSelector, seq<BaseSelector>) -> R,
    noComposed: (BaseSelector, BaseSelector) -> R,
    a: Selector, b: Selector): (r: R)
    ensures a.Composed? && b.Composed? ==> r == bothComposed(a.selectors, b.selectors)
    ensures a.Composed? && b.Base? ==> r == aComposed(a.selectors, b.base)
    ensures a.Base? && b.Composed? ==> r == bComposed(a.base, b.selectors)
    ensures a.Base? && b.Base? ==> r == noComposed(a.base, b.base)
  {
    ForSelector(
      s => ForSelector(p => noComposed(s, p), p => bComposed(s, p), b),
      s => ForSelector(p => aComposed(s, p), p => bothComposed(s, p), b),
      a)
  }

  /** The steps of a selector: a base selector is one step. */
  function Flat(s: Selector): seq<BaseSelector>
  {
    match s
    case Base(x) => [x]
    case Composed(xs) => xs
  }

  /** `composeSelectors(a, b)` (cypress/index.ts:97-107): always a composed list. */
  function ComposeSelectors(a: Selector, b: Selector): (r: Selector)
    ensures r == Composed(Flat(a) + Flat(b))
  {
    var r := ForTwoSelectors(
      (x: seq<BaseSelector>, y: seq<BaseSelector>) => Composed(x + y),
      (x: seq<BaseSelector>, y: BaseSelector) => Composed(x + [y]),
      (x: BaseSelector, y: seq<BaseSelector>) => Composed([x] + y),
      (x: BaseSelector, y: BaseSelector) => Composed([x, y]),
      a, b);
    assert a.Base? && b.Base? ==> r == Composed([a.base] + [b.base]);
    r
  }

  /** Composition is associative: both bracketings list the same steps. */
  lemma ComposeAssociative(a: Selector, b: Selector, c: Selector)
    ensures ComposeSelectors(ComposeSelectors(a, b), c) == ComposeSelectors(a, ComposeSelectors(b, c))
  {
    assert (Flat(a) + Flat(b)) + Flat(c) == Flat(a) + (Flat(b) + Flat(c));
  }

  /** The selectors the adapter's functions can build: base, or a list of two or more steps. */
  predicate Built(s: Selector)
  {
    s.Base? || |s.selectors| >= 2
  }

  /** Composing built selectors gives a flat list of `|Flat(a)| + |Flat(b)| >= 2` steps. */
  lemma ComposeBuilt(a: Selector, b: Selector)
    requires Built(a) && Built(b)
    ensures Built(ComposeSelectors(a, b))
    ensures |ComposeSelectors(a, b).selectors| == |Flat(a)| + |Flat(b)| >= 2
  {
  }

  /** `printBaseSelector` (cypress/index.ts:152-155): both shapes print as their JSON text. */
  function PrintBaseSelector(json: BaseSelector -> string, s: BaseSelector): (r: string)
    ensures r == json(s)
  {
    ForBaseSelector(c => json(Contains(c)), f => json(Find(f)), s)
  }

  function PrintSteps(json: BaseSelector -> string, xs: seq<BaseSelector>): (r: seq<string>)
    ensures |r| == |xs|
    ensures forall i :: 0 <= i < |xs| ==> r[i] == PrintBaseSelector(json, xs[i])
  {
    seq(|xs|, i requires 0 <= i < |xs| => PrintBaseSelector(json, xs[i]))
  }

  /** The separator between the steps of a composed selector's rendering. */
  const FollowedBy := "\nfollowed by\n"

  /**
   * `printSelector` (cypress/index.ts:157-159): a base selector prints as its
   * JSON text, a composed one as its steps' texts separated by "followed by" lines.
   */
  function PrintSelector(json: BaseSelector -> string, s: Selector): (r: string)
    ensures r == Join(PrintSteps(json, Flat(s)), FollowedBy)
  {
    ForSelector(b => PrintBaseSelector(json, b), xs => Join(PrintSteps(json, xs), FollowedBy), s)
  }

  /**
   * Printing a composite prints the left operand, a "followed by" line, and
   * the right operand, whenever both operands have at least one step.
   */
  lemma PrintCompose(json: BaseSelector -> string, a: Selector, b: Selector)
    requires Flat(a) != [] && Flat(b) != []
    ensures PrintSelector(json, ComposeSelectors(a, b))
      == PrintSelector(json, a) + FollowedBy + PrintSelector(json, b)
  {
    assert PrintSteps(json, Flat(a) + Flat(b)) == PrintSteps(json, Flat(a)) + PrintSteps(json, Flat(b));
    JoinConcat(PrintSteps(json, Flat(a)), PrintSteps(json, Flat(b)), FollowedBy);
  }

  // ---------------------------------------------------------------------
  // Running a selector
  // ---------------------------------------------------------------------

  /** The Cypress commands a selector issues, each on the subject the previous yields. */
  datatype Command =
    | GetCmd(selector: string, findOptions: Option<FindOptions>)
    | FindCmd(selector: string, findOptions: Option<FindOptions>)
    | ContainsWithin(selector: string, text: TextPattern, containsOptions: Option<ContainsOptions>)
    | ContainsText(text: TextPattern, containsOptions: Option<ContainsOptions>)

  /** `runContainsSelector` (cypress/index.ts:109-112): the selector argument only when present. */
  function ContainsCommand(c: ContainsSelector): (r: Command)
    ensures c.selector.Some? ==> r == ContainsWithin(c.selector.value, c.text, c.options)
    ensures c.selector.None? ==> r == ContainsText(c.text, c.options)
  {
    match c.selector
    case Some(sel) => ContainsWithin(sel, c.text, c.options)
    case None => ContainsText(c.text, c.options)
  }

  /** The command for one step: a find is a `get` on the first step and a `find` after it. */
  function Step(s: BaseSelector, first: bool): (r: Command)
    ensures s.Find? && first ==> r == GetCmd(s.find.selector, s.find.options)
    ensures s.Find? && !first ==> r == FindCmd(s.find.selector, s.find.options)
    ensures s.Contains? ==> r == ContainsCommand(s.contains)
  {
    ForBaseSelector(
      c => ContainsCommand(c),
      (f: FindSelector) => if first then GetCmd(f.selector, f.options) else FindCmd(f.selector, f.options),
      s)
  }

  /** The command chain a selector stands for. */
  function Chain(s: Selector): (r: seq<Command>)
    ensures |r| == |Flat(s)|
    ensures forall i :: 0 <= i < |r| ==> r[i] == Step(Flat(s)[i], i == 0)
  {
    match s
    case Base(x) => [Step(x, true)]
    case Composed(xs) => seq(|xs|, i requires 0 <= i < |xs| => Step(xs[i], i == 0))
  }

  /**
   * `runSelector(selector, element)` (cypress/index.ts:114-136): the commands
   * issued from the root, in order, for a base selector or step by step
   * through a composed list with a `first` flag cleared after the first step.
   */
  method RunSelector(s: Selector) returns (chain: seq<Command>)
    ensures chain == Chain(s)
  {
    if s.Base? {
      return [ForBaseSelector(c => ContainsCommand(c), (f: FindSelector) => GetCmd(f.selector, f.options), s.base)];
    }
    var first := true;
    chain := [];
    var i := 0;
    while i < |s.selectors|
      invariant 0 <= i <= |s.selectors|
      invariant first <==> i == 0
      invariant |chain| == i
      invariant forall k :: 0 <= k < i ==> chain[k] == Step(s.selectors[k], k == 0)
    {
      var v := Step(s.selectors[i], first);
      first := false;
      chain := chain + [v];
      i := i + 1;
    }
  }

  /** The chain has one command per step; only the first can be a `get`, later finds are `find`s. */
  lemma ChainShape(s: Selector)
    ensures |Chain(s)| == |Flat(s)|
    ensures forall i :: 0 <= i < |Chain(s)| ==>
      (Chain(s)[i].GetCmd? ==> i == 0)
      && (Flat(s)[i].Find? ==>
            Chain(s)[i] == if i == 0 then GetCmd(Flat(s)[i].find.selector, Flat(s)[i].find.options)
                           else FindCmd(Flat(s)[i].find.selector, Flat(s)[i].find.options))
      && (Flat(s)[i].Contains? ==> Chain(s)[i] == ContainsCommand(Flat(s)[i].contains))
  {
  }

  /**
   * Running a composite runs the left operand's chain and then the right
   * operand's steps as later steps: a leading find of the right becomes a `find`.
   */
  lemma ChainCompose(a: Selector, b: Selector)
    requires Flat(a) != []
    ensures Chain(ComposeSelectors(a, b))
      == Chain(a) + seq(|Flat(b)|, i requires 0 <= i < |Flat(b)| => Step(Flat(b)[i], false))
  {
    var xs := Flat(a) + Flat(b);
    var n := |Flat(a)|;
    var lhs := Chain(ComposeSelectors(a, b));
    var later := seq(|Flat(b)|, i requires 0 <= i < |Flat(b)| => Step(Flat(b)[i], false));
    assert |lhs| == |Chain(a) + later|;
    forall i | 0 <= i < |lhs|
      ensures lhs[i] == (Chain(a) + later)[i]
    {
      if i < n {
        assert xs[i] == Flat(a)[i];
      } else {
        assert xs[i] == Flat(b)[i - n];
      }
    }
  }

  /** A one-step composed list runs as the base selector itself. */
  lemma SingletonChain(x: BaseSelector)
    ensures Chain(Composed([x])) == Chain(Base(x))
  {
  }

  /** The selectors of the adapter's default views (cypress/index.ts:176-309). */
  const DefaultSelectors: map<string, Selector> := map[
    "checkbox" := Base(MakeFindSelector("input[type='checkbox']", None)),
    "radio" := Base(MakeFindSelector("input[type='radio']", None)),
    "textInput" := Base(MakeFindSelector("input[type='text'], textarea", None)),
    "singleSelect" := Base(MakeFindSelector("select:not([multiple])", None)),
    "multiSelect" := Base(MakeFindSelector("select[multiple]", None)),
    "form" := Base(MakeFindSelector("form", None)),
    "button" := Base(MakeFindSelector("button, input[type='button'], input[type='submit']", None))]

  /**
   * Every default selector is a single `find` step without options, so
   * running it issues one `cy.get` with that CSS selector.
   */
  lemma DefaultSelectorsFind()
    ensures DefaultSelectors.Keys == Core.DefaultViewNames
    ensures forall k :: k in DefaultSelectors ==>
      var s := DefaultSelectors[k];
      s.Base? && s.base.Find? && s.base.find.options == None
      && Chain(s) == [GetCmd(s.base.find.selector, None)]
  {
  }

  /**
   * The core's `defaultViews` (core/index.ts:249-269), given this adapter's
   * seven views, keeps each of their selectors as a concrete selector.
   */
  lemma DefaultViewsKeepSelectors<D, E>(defaults: map<string, Core.DefaultView<Selector, D, E>>)
    requires defaults.Keys == DefaultSelectors.Keys
    requires forall k :: k in defaults ==> defaults[k].selector == DefaultSelectors[k]
    ensures defaults.Keys == Core.DefaultViewNames
    ensures var r := Core.WrapDefaultViews(defaults);
      forall k :: k in DefaultSelectors ==> k in r && r[k].selector == Core.Concrete(DefaultSelectors[k])
  {
  }
}
