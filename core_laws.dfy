/**
 * Laws of the engine in core/index.ts that relate several operations: the
 * call forms against each other, the built-ins against the selection, view
 * composition against selector composition, and the diagnostic renderings.
 */
module CoreLaws {
  import opened Wrappers
  import opened Strings
  import opened Core

  /** The matched elements as the values `get` returns for them. */
  function AsValues<E>(elements: seq<E>): (r: seq<Value<E>>)
    ensures |r| == |elements|
  {
    seq(|elements|, i requires 0 <= i < |elements| => Elem(elements[i]))
  }

  /** An action that only reads: it leaves the world as it found it. */
  ghost predicate ReadOnly<D(!new), E(!new)>(action: Action<D, E>)
  {
    forall w, e, args :: action(w, e, args).0 == w
  }

  /** Running `get` over elements returns the elements themselves and changes nothing. */
  lemma {:induction false} ApplyGet<D, E>(w: D, elements: seq<E>, args: Args<E>)
    ensures ApplyEach(GetAction(), w, elements, args) == (w, AsValues(elements))
  {
    if elements != [] {
      ApplyGet(w, elements[1..], args);
      assert [Elem(elements[0])] + AsValues(elements[1..]) == AsValues(elements);
    }
  }

  /** A read-only action run over elements gives its result on each element, in order. */
  lemma {:induction false} ApplyReadOnly<D(!new), E(!new)>(action: Action<D, E>, w: D, elements: seq<E>, args: Args<E>)
    requires ReadOnly(action)
    ensures var r := ApplyEach(action, w, elements, args);
      r.0 == w && forall i :: 0 <= i < |elements| ==> r.1[i] == action(w, elements[i], args).1
  {
    if elements != [] {
      ApplyReadOnly(action, w, elements[1..], args);
      var r := ApplyEach(action, w, elements, args);
      forall i | 0 <= i < |elements|
        ensures r.1[i] == action(w, elements[i], args).1
      {
        if i > 0 {
          assert elements[1..][i - 1] == elements[i];
        }
      }
    }
  }

  /**
   * Running an action over `xs + [x]` is running it over `xs` and then on `x`,
   * in the world the earlier runs left: the left-to-right order of iteration.
   */
  lemma {:induction false} ApplyEachSnoc<D, E>(action: Action<D, E>, w: D, xs: seq<E>, x: E, args: Args<E>)
    ensures var before := ApplyEach(action, w, xs, args);
      var last := action(before.0, x, args);
      ApplyEach(action, w, xs + [x], args) == (last.0, before.1 + [last.1])
  {
    if xs == [] {
      assert xs + [x] == [x];
      assert [x][1..] == [];
      var last := action(w, x, args);
      assert ApplyEach(action, last.0, [], args) == (last.0, []);
      assert [last.1] + [] == [] + [last.1];
    } else {
      var first := action(w, xs[0], args);
      ApplyEachSnoc(action, first.0, xs[1..], x, args);
      assert (xs + [x])[0] == xs[0];
      assert (xs + [x])[1..] == xs[1..] + [x];
      var rest := ApplyEach(action, first.0, xs[1..], args);
      var last := action(rest.0, x, args);
      assert ApplyEach(action, w, xs, args) == (rest.0, [first.1] + rest.1);
      assert [first.1] + (rest.1 + [last.1]) == ([first.1] + rest.1) + [last.1];
    }
  }

  /**
   * The four built-ins (core/index.ts:192-222) on any world, element, selection
   * and arguments: `get` yields the element, `printSelected` its rendering,
   * `printSelector` and `printRoot` the renderings of the selector and the root;
   * none of them changes the world.
   */
  lemma BuiltinsRender<S, D, E>(ad: Adapter<S, D, E>, selector: S, root: E, w: D, e: E, es: seq<E>, args: Args<E>)
    ensures GetAction()(w, e, args) == (w, Elem(e))
    ensures PrintSelectedAction(ad)(w, e, args) == (w, Str(ad.printElement(w, e)))
    ensures PrintSelectorAggregate(ad, selector)(w, es, args) == (w, Str(ad.printSelector(selector)))
    ensures PrintRootAggregate(ad, root)(w, es, args) == (w, Str(ad.printElement(w, root)))
  {
  }

  /** The elements' renderings in the given world, as the values `printSelected` returns. */
  function Renderings<S, D, E>(ad: Adapter<S, D, E>, w: D, elements: seq<E>): (r: seq<Value<E>>)
    ensures |r| == |elements|
  {
    seq(|elements|, i requires 0 <= i < |elements| => Str(ad.printElement(w, elements[i])))
  }

  /** Running `printSelected` over elements renders each of them and changes nothing. */
  lemma {:induction false} ApplyPrintSelected<S, D, E>(ad: Adapter<S, D, E>, w: D, elements: seq<E>, args: Args<E>)
    ensures ApplyEach(PrintSelectedAction(ad), w, elements, args) == (w, Renderings(ad, w, elements))
  {
    if elements != [] {
      ApplyPrintSelected(ad, w, elements[1..], args);
      assert [Str(ad.printElement(w, elements[0]))] + Renderings(ad, w, elements[1..]) == Renderings(ad, w, elements);
    }
  }

  /** The built-in `printSelected` returns each matched element's rendering, in order (core/index.ts:193). */
  lemma PrintSelectedRendersMatched<S, D, E>(ad: Adapter<S, D, E>, selector: S, root: E, w: D, args: Args<E>)
    ensures Invoke(ad, BoundAction(selector, root, PrintSelectedAction(ad)), w, args)
      == (w, Renderings(ad, w, Matched(ad, selector, w, root)))
  {
    ApplyPrintSelected(ad, w, Matched(ad, selector, w, root), args);
  }

  /** The built-in `get` returns exactly the matched elements, in order (core/index.ts:192). */
  lemma GetReturnsMatched<S, D, E>(ad: Adapter<S, D, E>, selector: S, root: E, w: D, args: Args<E>)
    ensures Invoke(ad, BoundAction(selector, root, GetAction()), w, args)
      == (w, AsValues(Matched(ad, selector, w, root)))
  {
    ApplyGet(w, Matched(ad, selector, w, root), args);
  }

  /**
   * An aggregate receives exactly the elements `get` returns, and it does so
   * however many there are: an aggregate call never fails.
   */
  lemma AggregateSeesSelection<S, D, E>(ad: Adapter<S, D, E>, g: BoundAggregate<S, D, E>, w: D, args: Args<E>)
    ensures AsValues(Matched(ad, g.selector, w, g.root))
      == Invoke(ad, BoundAction(g.selector, g.root, GetAction()), w, args).1
    ensures InvokeAggregate(ad, g, w, args) == g.aggregate(w, Matched(ad, g.selector, w, g.root), args)
  {
    GetReturnsMatched(ad, g.selector, g.root, w, args);
  }

  /** When exactly one element matches, `.one` returns what the bare call returns for it. */
  lemma {:induction false} OneAgreesWithInvoke<S, D, E>(ad: Adapter<S, D, E>, b: BoundAction<S, D, E>, w: D, args: Args<E>)
    requires |Matched(ad, b.selector, w, b.root)| == 1
    ensures var all := Invoke(ad, b, w, args);
      InvokeOne(ad, b, w, args) == Success((all.0, all.1[0]))
  {
    var es := Matched(ad, b.selector, w, b.root);
    assert es[1..] == [];
  }

  /** On a single non-nullish match, `.at(1)` and `.one` are the same call. */
  lemma AtFirstIsOne<S, D, E>(ad: Adapter<S, D, E>, b: BoundAction<S, D, E>, w: D, args: Args<E>)
    requires |Matched(ad, b.selector, w, b.root)| == 1
    requires !ad.isNullish(Matched(ad, b.selector, w, b.root)[0])
    ensures InvokeAt(ad, b, w, 1, args) == InvokeOne(ad, b, w, args)
  {
  }

  /**
   * For a read-only action, a successful `.at(n)` returns the `n`-th result
   * of the bare call: the call forms differ only in which results they keep.
   */
  lemma AtAgreesWithInvoke<S, D(!new), E(!new)>(ad: Adapter<S, D, E>, b: BoundAction<S, D, E>, w: D, n: int, args: Args<E>)
    requires ReadOnly(b.action)
    requires InvokeAt(ad, b, w, n, args).Success?
    ensures var all := Invoke(ad, b, w, args);
      InvokeAt(ad, b, w, n, args).value == (all.0, all.1[n - 1])
  {
    ApplyReadOnly(b.action, w, Matched(ad, b.selector, w, b.root), args);
  }

  /**
   * The cardinality rule of the call forms in one place: with `k` matches,
   * the bare call yields `k` results, `.one` succeeds iff `k == 1`, `.at(n)`
   * succeeds iff `1 <= n <= k` and that entry is not nullish, and the error
   * `.one` and `.at` report is ZeroSelectedElements exactly when `k == 0`.
   */
  lemma Cardinality<S, D, E>(ad: Adapter<S, D, E>, b: BoundAction<S, D, E>, w: D, n: int, args: Args<E>)
    ensures var k := |Matched(ad, b.selector, w, b.root)|;
      && |Invoke(ad, b, w, args).1| == k
      && (InvokeOne(ad, b, w, args).Success? <==> k == 1)
      && (InvokeOne(ad, b, w, args).Failure? ==>
            (InvokeOne(ad, b, w, args).error.ZeroSelectedElements? <==> k == 0)
            && (InvokeOne(ad, b, w, args).error.MultipleSelectedElements? <==> k > 1))
      && (InvokeAt(ad, b, w, n, args).Success? ==> 1 <= n <= k)
      && (InvokeAt(ad, b, w, n, args).Failure? ==>
            (InvokeAt(ad, b, w, n, args).error.ZeroSelectedElements? <==> k == 0)
            && (InvokeAt(ad, b, w, n, args).error.IndexOutOfBounds? <==> k > 0))
  {
  }

  /**
   * View composition is associative whenever the adapter's selector
   * composition is: both bracketings take the same selector arguments,
   * resolve to the same selector, and keep the same actions and aggregates.
   */
  lemma ComposeAssociative<S(!new), D, E(!new)>(ad: Adapter<S, D, E>, a: View<S, D, E>, b: View<S, D, E>, c: View<S, D, E>)
    requires Associative(ad.compose)
    requires b.selector.Concrete? && c.selector.Concrete?
    ensures var left := Compose(ad, Compose(ad, a, b), c);
      var right := Compose(ad, a, Compose(ad, b, c));
      && left.actions == right.actions && left.aggregates == right.aggregates
      && (forall args :: Accepts(left.selector, args) <==> Accepts(right.selector, args))
      && (forall args | Accepts(a.selector, args) :: Resolve(left.selector, args) == Resolve(right.selector, args))
  {
    var bc := Compose(ad, b, c);
    assert bc.selector.Concrete?;
    assert bc.selector.sel == ad.compose(b.selector.sel, c.selector.sel) by {
      assert Accepts(b.selector, []);
    }
  }

  /** The built-in `printRoot` returns the root's rendering (core/index.ts:218-222). */
  lemma PrintRootRendersRoot<S, D, E>(ad: Adapter<S, D, E>, selector: S, root: E, w: D, args: Args<E>)
    ensures InvokeAggregate(ad, BoundAggregate(selector, root, PrintRootAggregate(ad, root)), w, args)
      == (w, Str(ad.printElement(w, root)))
  {
  }

  /** The built-in `printSelector` returns the resolved selector's rendering (core/index.ts:213-217). */
  lemma PrintSelectorRendersSelector<S, D, E>(ad: Adapter<S, D, E>, selector: S, root: E, w: D, args: Args<E>)
    ensures InvokeAggregate(ad, BoundAggregate(selector, root, PrintSelectorAggregate(ad, selector)), w, args)
      == (w, Str(ad.printSelector(selector)))
  {
  }

  // ---------------------------------------------------------------------
  // Diagnostics
  // ---------------------------------------------------------------------

  /** Each element on its own line: two tabs, the quoted rendering, a comma. */
  function Listing<E>(elements: seq<E>, printer: E -> string): string
  {
    if elements == [] then ""
    else "\n\t\t\"" + printer(elements[0]) + "\"," + Listing(elements[1..], printer)
  }

  lemma {:induction false} LinesListing<E>(elements: seq<E>, printer: E -> string)
    requires elements != []
    ensures "\n\t" + Join(ElementLines(elements, printer), "\n\t") == Listing(elements, printer)
  {
    var lines := ElementLines(elements, printer);
    if |elements| == 1 {
      assert elements[1..] == [];
    } else {
      LinesListing(elements[1..], printer);
      assert lines[1..] == ElementLines(elements[1..], printer);
    }
  }

  /**
   * `printElements` renders no element as "[]", and otherwise as "[", one
   * line per element in order, and "]" on a line of its own (core/index.ts:276-281).
   */
  lemma PrintElementsListing<E>(elements: seq<E>, printer: E -> string)
    ensures elements == [] ==> PrintElements(elements, printer) == "[]"
    ensures elements != [] ==> PrintElements(elements, printer) == "[" + Listing(elements, printer) + "\n\t]"
  {
    if elements != [] {
      var lines := ElementLines(elements, printer);
      JoinConcat(["["] + lines, ["]"], "\n\t");
      JoinConcat(["["], lines, "\n\t");
      LinesListing(elements, printer);
    }
  }

  /** The three renderings every error message carries. */
  ghost predicate Diagnoses<S, D, E>(ad: Adapter<S, D, E>, w: D, err: SelectionError<S, E>)
  {
    && Contains(err.message, SelectorLine(ad, err.selector))
    && Contains(err.message, RootLine(ad, w, err.root))
    && Contains(err.message, SelectedLine(ad, w, err.elements))
  }

  lemma DetailsAfter<S, D, E>(ad: Adapter<S, D, E>, w: D, head: string, selector: S, root: E, elements: seq<E>)
    ensures var m := head + Details(ad, w, selector, root, elements);
      && Contains(m, SelectorLine(ad, selector))
      && Contains(m, RootLine(ad, w, root))
      && Contains(m, SelectedLine(ad, w, elements))
  {
    var a, b, c := SelectorLine(ad, selector), RootLine(ad, w, root), SelectedLine(ad, w, elements);
    var m := head + Details(ad, w, selector, root, elements);
    assert m == head + a + b + c;
    assert OccursAt(m, a, |head|);
    assert OccursAt(m, b, |head| + |a|);
    assert OccursAt(m, c, |head| + |a| + |b|);
  }

  /** The zero-match error names the selector, the root and the (empty) selection. */
  lemma ZeroErrorDiagnoses<S, D, E>(ad: Adapter<S, D, E>, w: D, selector: S, root: E, elements: seq<E>)
    ensures Diagnoses(ad, w, ZeroError(ad, w, selector, root, elements))
  {
    DetailsAfter(ad, w, ZeroHeading, selector, root, elements);
  }

  /** The many-match error names the selector, the root and every matched element. */
  lemma MultipleErrorDiagnoses<S, D, E>(ad: Adapter<S, D, E>, w: D, selector: S, root: E, elements: seq<E>)
    ensures Diagnoses(ad, w, MultipleError(ad, w, selector, root, elements))
  {
    DetailsAfter(ad, w, MultipleHeading, selector, root, elements);
  }

  /** The index error names the index besides the selector, the root and the selection. */
  lemma IndexErrorDiagnoses<S, D, E>(ad: Adapter<S, D, E>, w: D, n: int, selector: S, root: E, elements: seq<E>)
    ensures Diagnoses(ad, w, IndexError(ad, w, n, selector, root, elements))
    ensures Contains(IndexError(ad, w, n, selector, root, elements).message, IndexLine(n))
  {
    DetailsAfter(ad, w, IndexHeading + IndexLine(n), selector, root, elements);
    InMiddle(IndexHeading, IndexLine(n), Details(ad, w, selector, root, elements));
  }

  /** A string occurs in any concatenation at the position after what precedes it. */
  lemma InMiddle(a: string, b: string, c: string)
    ensures OccursAt(a + b + c, b, |a|)
  {
    assert (a + b + c)[|a|..|a| + |b|] == b;
  }

  /**
   * Every error `.one` or `.at` can report names the selector, the root and
   * the matched elements in its message (core/index.ts:302-306, 329-333, 359-364).
   */
  lemma ErrorsDiagnose<S, D, E>(ad: Adapter<S, D, E>, b: BoundAction<S, D, E>, w: D, n: int, args: Args<E>)
    ensures InvokeOne(ad, b, w, args).Failure? ==> Diagnoses(ad, w, InvokeOne(ad, b, w, args).error)
    ensures InvokeAt(ad, b, w, n, args).Failure? ==> Diagnoses(ad, w, InvokeAt(ad, b, w, n, args).error)
  {
    var es := Matched(ad, b.selector, w, b.root);
    ZeroErrorDiagnoses(ad, w, b.selector, b.root, es);
    MultipleErrorDiagnoses(ad, w, b.selector, b.root, es);
    IndexErrorDiagnoses(ad, w, n, b.selector, b.root, es);
  }
}
