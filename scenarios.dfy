/**
 * A concrete adapter over strings, as in core/index.test.ts: a selector is a
 * literal pattern, the root is a text, the matches are the pattern's
 * non-overlapping occurrences from left to right, composition concatenates
 * patterns and both printers are the identity. The scenarios below replay the
 * behaviours that test file checks, through the engine of Core.
 */
module Scenarios {
  import opened Wrappers
  import opened Core
  import CoreLaws

  /**
   * `text.match(new RegExp(pattern, "g"))` for a pattern without special
   * characters: the occurrences, leftmost first, each search resuming after
   * the previous match; the empty pattern matches once at every position.
   */
  function LiteralMatches(p: string, t: string): (r: seq<string>)
    ensures forall i :: 0 <= i < |r| ==> r[i] == p
    decreases |t|
  {
    if p == "" then seq(|t| + 1, i => "")
    else if |t| < |p| then []
    else if t[..|p|] == p then [p] + LiteralMatches(p, t[|p|..])
    else LiteralMatches(p, t[1..])
  }

  /** The test adapter: strings for selectors and elements, nothing for the world. */
  function TestAdapter(): (ad: Adapter<string, (), string>)
    ensures forall a, b :: ad.compose(a, b) == a + b
    ensures forall s, w, root :: ad.query(s, w, root) == LiteralMatches(s, root)
  {
    Adapter(
      (a: string, b: string) => a + b,
      (s: string, w: (), root: string) => LiteralMatches(s, root),
      (s: string) => s,
      (w: (), e: string) => e,
      (e: string) => false)
  }

  /** Concatenating patterns is associative, as the core requires of the adapter. */
  lemma TestAdapterAssociative()
    ensures Associative(TestAdapter().compose)
  {
    forall a: string, b: string, c: string
      ensures TestAdapter().compose(TestAdapter().compose(a, b), c) == TestAdapter().compose(a, TestAdapter().compose(b, c))
    {
      assert (a + b) + c == a + (b + c);
    }
  }

  lemma MatchesAba()
    ensures LiteralMatches("a", "aba") == ["a", "a"]
  {
    assert "b" != "a" by { assert "b"[0] != "a"[0]; }
    assert "aba"[..1] == "a" && "aba"[1..] == "ba";
    assert "ba"[..1] == "b" && "ba"[1..] == "a";
    assert "a"[..1] == "a" && "a"[1..] == "";
  }

  lemma MatchesBbbb()
    ensures LiteralMatches("a", "bbbb") == []
  {
    assert "b" != "a" by { assert "b"[0] != "a"[0]; }
    assert "bbbb"[..1] == "b" && "bbbb"[1..] == "bbb";
    assert "bbb"[..1] == "b" && "bbb"[1..] == "bb";
    assert "bb"[..1] == "b" && "bb"[1..] == "b";
    assert "b"[..1] == "b" && "b"[1..] == "";
  }

  lemma MatchesAbbb()
    ensures LiteralMatches("a", "abbb") == ["a"]
  {
    assert "abbb"[..1] == "a" && "abbb"[1..] == "bbb";
    MatchesBbbbTail();
  }

  lemma MatchesBbbbTail()
    ensures LiteralMatches("a", "bbb") == []
  {
    assert "b" != "a" by { assert "b"[0] != "a"[0]; }
    assert "bbb"[..1] == "b" && "bbb"[1..] == "bb";
    assert "bb"[..1] == "b" && "bb"[1..] == "b";
    assert "b"[..1] == "b" && "b"[1..] == "";
  }

  lemma MatchesA()
    ensures LiteralMatches("a", "a") == ["a"]
  {
    assert "a"[..1] == "a" && "a"[1..] == "";
  }

  /** The view `testView(pattern)`: no actions, no aggregates. */
  function Plain(pattern: string): (v: View<string, (), string>)
    ensures v.selector == Concrete(pattern) && v.actions == map[] && v.aggregates == map[]
  {
    MakeView(Concrete(pattern), None, None)
  }

  /** `testView("a")(testView("b")).materialize("aba").printSelector()` is "ab" (core/index.test.ts:317-321). */
  method ComposedPrintSelector() returns (r: Value<string>)
    ensures r == Str("ab")
  {
    var ad := TestAdapter();
    var view := Compose(ad, Plain("a"), Plain("b"));
    assert Resolve(view.selector, []) == "ab";
    var mv := Materialize(ad, view, "aba", []);
    CoreLaws.PrintSelectorRendersSelector(ad, "ab", "aba", (), []);
    r := InvokeAggregate(ad, mv.aggregates["printSelector"], (), []).1;
  }

  /** The selector `x => x + "a"`: its one argument's text followed by "a". */
  function AppendA(args: Args<string>): (s: string)
    ensures |args| == 1 && args[0].Str? ==> s == args[0].s + "a"
  {
    (if |args| == 1 && args[0].Str? then args[0].s else "") + "a"
  }

  /**
   * `testView(x => x + "a")(testView("b")).materialize("aba", "foo").printSelector()`
   * is "fooab" (core/index.test.ts:323-327).
   */
  method ParameterizedPrintSelector() returns (r: Value<string>)
    ensures r == Str("fooab")
  {
    var ad := TestAdapter();
    var view := Compose(ad, MakeView(Param(1, AppendA), None, None), Plain("b"));
    assert Resolve(view.selector, [Str("foo")]) == "fooab";
    var mv := Materialize(ad, view, "aba", [Str("foo")]);
    CoreLaws.PrintSelectorRendersSelector(ad, "fooab", "aba", (), []);
    r := InvokeAggregate(ad, mv.aggregates["printSelector"], (), []).1;
  }

  /** `printRoot()` is the root text (core/index.test.ts:311-315). */
  method PrintRootScenario() returns (r: Value<string>)
    ensures r == Str("aba")
  {
    var ad := TestAdapter();
    var mv := Materialize(ad, Plain("a"), "aba", []);
    r := InvokeAggregate(ad, mv.aggregates["printRoot"], (), []).1;
  }

  /** `printSelected()` on "aba" renders both matches (core/index.test.ts:306). */
  method PrintSelectedAll() returns (all: seq<Value<string>>)
    ensures all == [Str("a"), Str("a")]
  {
    var ad := TestAdapter();
    var mv := Materialize(ad, Plain("a"), "aba", []);
    MatchesAba();
    var b := mv.actions["printSelected"];
    assert b == BoundAction("a", "aba", PrintSelectedAction(ad));
    PrintSelectedAba();
    all := Invoke(ad, b, (), []).1;
  }

  /** The bound `printSelected` of "a" on "aba" renders both matches. */
  lemma PrintSelectedAba()
    ensures Invoke(TestAdapter(), BoundAction("a", "aba", PrintSelectedAction(TestAdapter())), (), []).1
      == [Str("a"), Str("a")]
  {
    var ad := TestAdapter();
    CoreLaws.PrintSelectedRendersMatched(ad, "a", "aba", (), []);
    MatchesAba();
    assert Matched(ad, "a", (), "aba") == ["a", "a"];
    var rs := CoreLaws.Renderings(ad, (), ["a", "a"]);
    assert rs[0] == Str("a") && rs[1] == Str("a");
    assert rs == [Str("a"), Str("a")];
  }

  /** `printSelected.one()` on "a" renders the single match (core/index.test.ts:307). */
  method PrintSelectedOne() returns (one: Result<((), Value<string>), SelectionError<string, string>>)
    ensures one == Success(((), Str("a")))
  {
    var ad := TestAdapter();
    var mv := Materialize(ad, Plain("a"), "a", []);
    MatchesA();
    var b := mv.actions["printSelected"];
    assert b == BoundAction("a", "a", PrintSelectedAction(ad));
    one := InvokeOne(ad, b, (), []);
  }

  /** `printSelected.at(2)` on "aba" renders the second match (core/index.test.ts:308). */
  method PrintSelectedSecond() returns (second: Result<((), Value<string>), SelectionError<string, string>>)
    ensures second == Success(((), Str("a")))
  {
    var ad := TestAdapter();
    var mv := Materialize(ad, Plain("a"), "aba", []);
    MatchesAba();
    var b := mv.actions["printSelected"];
    assert b == BoundAction("a", "aba", PrintSelectedAction(ad));
    second := InvokeAt(ad, b, (), 2, []);
  }

  /**
   * The three failures of core/index.test.ts:225-301: `get.one()` on "aba"
   * finds two matches, on "bbbb" none, and `get.at(2)` on "abbb" is past the
   * single match; each error records the selector, root and matches.
   */
  method FailureScenarios() returns (many: Result<((), Value<string>), SelectionError<string, string>>,
      none: Result<((), Value<string>), SelectionError<string, string>>,
      past: Result<((), Value<string>), SelectionError<string, string>>)
    ensures many.Failure? && many.error.MultipleSelectedElements?
      && many.error.selector == "a" && many.error.root == "aba" && many.error.elements == ["a", "a"]
    ensures none.Failure? && none.error.ZeroSelectedElements?
      && none.error.selector == "a" && none.error.root == "bbbb" && none.error.elements == []
    ensures past.Failure? && past.error.IndexOutOfBounds? && past.error.index == 2
      && past.error.selector == "a" && past.error.root == "abbb" && past.error.elements == ["a"]
  {
    var ad := TestAdapter();
    MatchesAba();
    MatchesBbbb();
    MatchesAbbb();
    var aba := Materialize(ad, Plain("a"), "aba", []);
    var bbbb := Materialize(ad, Plain("a"), "bbbb", []);
    var abbb := Materialize(ad, Plain("a"), "abbb", []);
    many := InvokeOne(ad, aba.actions["get"], (), []);
    none := InvokeOne(ad, bbbb.actions["get"], (), []);
    past := InvokeAt(ad, abbb.actions["get"], (), 2, []);
  }

  /** The zero-match message in the code's own layout: heading, selector, root and "[]". */
  lemma ZeroMessage()
    ensures ZeroError(TestAdapter(), (), "a", "bbbb", []).message ==
      "Zero elements returned by selector\n" + "\tSelector: \"a\"\n" + "\tRoot: \"bbbb\"\n" + "\tSelected: []"
  {
    var ad := TestAdapter();
    assert SelectorLine(ad, "a") == "\tSelector: \"" + "a" + "\"\n";
    assert RootLine(ad, (), "bbbb") == "\tRoot: \"" + "bbbb" + "\"\n";
    assert SelectedLine(ad, (), []) == "\tSelected: " + "[]";
  }
}
