/**
 * The Enzyme adapter (adapters/prismatestjs-enzyme/index.ts): a selector is
 * an object holding a `run` function from a wrapper to the wrapper it
 * selects and a `str` rendering; composed selectors chain the `run`s and
 * stack the renderings. The wrapper type `W` and enzyme's `find` stay abstract.
 */
module Enzyme {
  import opened Wrappers
  import opened Controls

  /** What `selector(arg)` was given: a string, or an object such as a component or a prop map. */
  datatype QuickArg =
    | StringArg(s: string)
    | ObjectArg(displayName: string, json: Option<string>)

  /**
   * The text a quick selector quotes (enzyme/index.ts:62-68): a non-empty
   * `displayName`; otherwise, for an object, its JSON text ("undefined" when
   * JSON has none, as for a function); otherwise the string itself.
   */
  function QuickLabel(arg: QuickArg): (r: string)
    ensures arg.ObjectArg? && arg.displayName != "" ==> r == arg.displayName
    ensures arg.ObjectArg? && arg.displayName == "" && arg.json.Some? ==> r == arg.json.value
    ensures arg.ObjectArg? && arg.displayName == "" && arg.json.None? ==> r == "undefined"
    ensures arg.StringArg? ==> r == arg.s
  {
    match arg
    case StringArg(s) => s
    case ObjectArg(name, json) =>
      if name != "" then name
      else match json
        case Some(text) => text
        case None => "undefined"
  }

  /** Composes two run functions: the second runs on what the first selects. */
  function Then<W>(first: W -> W, second: W -> W): W -> W
  {
    e => second(first(e))
  }

  /**
   * `Selector`, `ComposedSelector` and `QuickSelector` (enzyme/index.ts:17-32,
   * 55-70): one class with a constructor per source class; the subclasses'
   * overwriting of `str` after `super` is folded into the final value.
   */
  class Selector<W> {
    var run: W -> W
    var str: string

    /** `new Selector(run)`: `source` is the text of the run function. */
    constructor (run: W -> W, source: string)
      ensures this.run == run && str == "Selector: " + source
    {
      this.run := run;
      str := "Selector: " + source;
    }

    /** `new ComposedSelector(first, second)`. */
    constructor Composed(first: Selector<W>, second: Selector<W>)
      ensures run == Then(first.run, second.run)
      ensures str == first.str + "\n" + second.str
    {
      run := Then(first.run, second.run);
      str := first.str + "\n" + second.str;
    }

    /** `new QuickSelector(arg)`: `find` is `e => e.find(arg)`. */
    constructor Quick(arg: QuickArg, find: W -> W)
      ensures run == find
      ensures str == "QuickSelector: \"" + QuickLabel(arg) + "\""
    {
      run := find;
      str := "QuickSelector: \"" + QuickLabel(arg) + "\"";
    }
  }

  /** `composeSelectors(a, b)` (enzyme/index.ts:38-39): a new composed selector. */
  method ComposeSelectors<W>(a: Selector<W>, b: Selector<W>) returns (c: Selector<W>)
    ensures fresh(c)
    ensures c.run == Then(a.run, b.run) && c.str == a.str + "\n" + b.str
  {
    c := new Selector.Composed(a, b);
  }

  /** `runSelector(selector, element)` (enzyme/index.ts:41-44): the selector's own run, on the wrapper. */
  function RunSelector<W>(s: Selector<W>, e: W): (r: W)
    reads s
    ensures r == s.run(e)
  {
    s.run(e)
  }

  /** `printSelector(selector)` (enzyme/index.ts:51): the rendering the selector was built with. */
  function PrintSelector<W>(s: Selector<W>): (r: string)
    reads s
    ensures r == s.str
  {
    s.str
  }

  /** The composed run applies the second run to what the first returns. */
  lemma ThenApply<W>(f: W -> W, g: W -> W, e: W)
    ensures Then(f, g)(e) == g(f(e))
  {
  }

  /** Chaining run functions is associative on every wrapper. */
  lemma ThenAssociative<W>(f: W -> W, g: W -> W, h: W -> W, e: W)
    ensures Then(Then(f, g), h)(e) == h(g(f(e)))
    ensures Then(f, Then(g, h))(e) == h(g(f(e)))
  {
    ThenApply(f, g, e);
    ThenApply(Then(f, g), h, e);
    ThenApply(g, h, f(e));
    ThenApply(f, Then(g, h), e);
  }

  /**
   * Composition is associative as the core requires (core/index.ts:458):
   * both bracketings run the same way on every wrapper and print the same.
   */
  method ComposeThree<W>(a: Selector<W>, b: Selector<W>, c: Selector<W>) returns (left: Selector<W>, right: Selector<W>)
    ensures forall e :: RunSelector(left, e) == c.run(b.run(a.run(e)))
    ensures forall e :: RunSelector(right, e) == c.run(b.run(a.run(e)))
    ensures PrintSelector(left) == PrintSelector(right) == a.str + "\n" + b.str + "\n" + c.str
  {
    var f, g, h := a.run, b.run, c.run;
    var sa, sb, sc := a.str, b.str, c.str;
    var ab := ComposeSelectors(a, b);
    left := ComposeSelectors(ab, c);
    var bc := ComposeSelectors(b, c);
    right := ComposeSelectors(a, bc);
    var l, r := left.run, right.run;
    assert l == Then(Then(f, g), h);
    assert r == Then(f, Then(g, h));
    ThenAssociativeAll(f, g, h);
    assert left.str == (sa + "\n" + sb) + "\n" + sc;
    assert right.str == sa + "\n" + (sb + "\n" + sc);
    assert (sa + "\n" + sb) + "\n" + sc == sa + "\n" + (sb + "\n" + sc);
  }

  /** Both bracketings of three runs apply them in order, on every wrapper. */
  lemma ThenAssociativeAll<W>(f: W -> W, g: W -> W, h: W -> W)
    ensures forall e :: Then(Then(f, g), h)(e) == h(g(f(e))) && Then(f, Then(g, h))(e) == h(g(f(e)))
  {
    forall e
      ensures Then(Then(f, g), h)(e) == h(g(f(e))) && Then(f, Then(g, h))(e) == h(g(f(e)))
    {
      ThenAssociative(f, g, h, e);
    }
  }

  // ---------------------------------------------------------------------
  // Default views
  // ---------------------------------------------------------------------

  /** What enzyme's `instance()` reports when the wrapper does not hold exactly one node. */
  datatype EnzymeError = InstanceNotSingle(found: nat)

  /** `e.children().filterWhere(c => c.instance().value === value)`: the indices of the options with the value. */
  function Matching(opts: seq<SelectOption>, value: string): (r: seq<nat>)
    ensures forall k :: 0 <= k < |r| ==> r[k] < |opts| && opts[r[k]].value == value
    ensures Ascending(r)
    ensures forall j :: 0 <= j < |opts| && opts[j].value == value ==> j in r
    ensures r != [] ==> forall j :: 0 <= j < r[0] ==> opts[j].value != value
  {
    if opts == [] then []
    else
      var n := |opts| - 1;
      var init := opts[..n];
      var rest := Matching(init, value);
      assert forall j :: 0 <= j < n ==> init[j] == opts[j];
      if opts[n].value == value then
        AscendingSnoc(rest, n);
        rest + [n]
      else rest
  }

  /** The first matching option is the one the CSS adapter's lookup finds. */
  lemma MatchingAgreesWithFind(opts: seq<SelectOption>, value: string)
    ensures Matching(opts, value) == [] <==> FindOption(opts, value).None?
    ensures Matching(opts, value) != [] ==> FindOption(opts, value) == Some(Matching(opts, value)[0])
  {
    var m := Matching(opts, value);
    match FindOption(opts, value)
    case None =>
    case Some(i) =>
      assert i in m;
      assert m[0] <= i;
      assert i <= m[0];
  }

  /**
   * Single select `select(value)` (enzyme/index.ts:152-161): with no option
   * carrying the value nothing happens; with one, it becomes the only selected
   * option and a change is simulated; with several, `instance()` throws and
   * nothing changes.
   */
  method SingleSelectSelect(e: SelectElement, value: string) returns (r: Result<(), EnzymeError>)
    modifies e
    ensures |Matching(old(e.options), value)| == 0 ==>
      r.Success? && e.options == old(e.options) && e.events == old(e.events)
    ensures |Matching(old(e.options), value)| == 1 ==>
      && r.Success?
      && e.options == SelectOnly(old(e.options), Matching(old(e.options), value)[0])
      && e.Value() == value
      && e.events == old(e.events) + [Change]
    ensures |Matching(old(e.options), value)| > 1 ==>
      && r == Failure(InstanceNotSingle(|Matching(old(e.options), value)|))
      && e.options == old(e.options) && e.events == old(e.events)
  {
    var option := Matching(e.options, value);
    if |option| > 0 {
      if |option| != 1 {
        return Failure(InstanceNotSingle(|option|));
      }
      MatchingAgreesWithFind(e.options, value);
      SelectOnlyValue(e.options, value);
      e.SetSelectedIndex(option[0]);
      e.Dispatch(Change);
    }
    return Success(());
  }
}
