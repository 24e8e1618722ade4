/**
 * The adapter-agnostic engine of core/index.ts: views (a selector plus named
 * actions and aggregates), their composition, materialisation against a root,
 * the three call forms of a materialised action (all / one / at), aggregates,
 * and the three selection errors with their diagnostic messages.
 *
 * The model is generic in the selector type S, the element type E and the
 * world D: the state of the page that actions may change.  Every materialised
 * call queries the root afresh in the world it is given.
 */
module Core {
  import opened Wrappers
  import opened Strings

  /** The JavaScript values actions take as arguments and return. */
  datatype Value<E> =
    | Undefined
    | Null
    | Bool(b: bool)
    | Num(n: int)
    | Str(s: string)
    | Elem(e: E)
    | Arr(items: seq<Value<E>>)

  /** The caller-supplied arguments after the element (`...args`). */
  type Args<E> = seq<Value<E>>

  /** An action works on one element; it may change the world. */
  type Action<!D, !E> = (D, E, Args<E>) -> (D, Value<E>)

  /** An aggregate works on the whole matched sequence; it may change the world. */
  type Aggregate<!D, !E> = (D, seq<E>, Args<E>) -> (D, Value<E>)

  /**
   * What an adapter supplies (core/index.ts:459-465).  `query` is the
   * adapter's `runSelector` followed by its `iterateSelector` collecting the
   * matched elements in order; `isNullish` says whether a matched entry is
   * JavaScript `null` or `undefined`.
   */
  datatype Adapter<!S, !D, !E> = Adapter(
    compose: (S, S) -> S,
    query: (S, D, E) -> seq<E>,
    printSelector: S -> string,
    printElement: (D, E) -> string,
    isNullish: E -> bool)

  /** The law every adapter's composition must obey (core/index.ts:458). */
  ghost predicate Associative<S(!new)>(compose: (S, S) -> S)
  {
    forall x, y, z :: compose(compose(x, y), z) == compose(x, compose(y, z))
  }

  // ---------------------------------------------------------------------
  // Views
  // ---------------------------------------------------------------------

  /** A concrete selector, or a function of `arity` selector arguments. */
  datatype Selector<S, !E> =
    | Concrete(sel: S)
    | Param(arity: nat, make: Args<E> -> S)

  /** The selector arguments `materialize` may be given for this selector. */
  predicate Accepts<S, E>(s: Selector<S, E>, args: Args<E>)
    ensures Accepts(s, args) && s.Concrete? ==> args == []
    ensures Accepts(s, args) && s.Param? ==> |args| == s.arity
  {
    if s.Param? then |args| == s.arity else args == []
  }

  /** The selector a materialisation uses (core/index.ts:189-190). */
  function Resolve<S, E>(s: Selector<S, E>, args: Args<E>): (r: S)
    requires Accepts(s, args)
    ensures s.Concrete? ==> r == s.sel
    ensures s.Param? ==> r == s.make(args)
  {
    if s.Param? then s.make(args) else s.sel
  }

  datatype View<S, !D, !E> = View(
    selector: Selector<S, E>,
    actions: map<string, Action<D, E>>,
    aggregates: map<string, Aggregate<D, E>>)

  /** `testView(selector, actions?, aggregates?)`: omitted maps are empty. */
  function MakeView<S, D, E>(
    selector: Selector<S, E>,
    actionsOpt: Option<map<string, Action<D, E>>>,
    aggregatesOpt: Option<map<string, Aggregate<D, E>>>): (v: View<S, D, E>)
    ensures v.selector == selector
    ensures actionsOpt.None? ==> v.actions == map[]
    ensures actionsOpt.Some? ==> v.actions == actionsOpt.value
    ensures aggregatesOpt.None? ==> v.aggregates == map[]
    ensures aggregatesOpt.Some? ==> v.aggregates == aggregatesOpt.value
  {
    View(selector,
         if actionsOpt.Some? then actionsOpt.value else map[],
         if aggregatesOpt.Some? then aggregatesOpt.value else map[])
  }

  /**
   * `view(nextView)`: the right operand must have a concrete selector (the
   * TypeScript signature demands it).  Whatever arguments the left selector
   * takes, the composed selector takes too, and resolves to the left one's
   * resolution composed with the right one.  Actions and aggregates are the
   * right view's.
   */
  function Compose<S, D, E(!new)>(ad: Adapter<S, D, E>, a: View<S, D, E>, next: View<S, D, E>): (r: View<S, D, E>)
    requires next.selector.Concrete?
    ensures r.actions == next.actions && r.aggregates == next.aggregates
    ensures r.selector.Param? <==> a.selector.Param?
    ensures forall args :: Accepts(r.selector, args) <==> Accepts(a.selector, args)
    ensures forall args | Accepts(a.selector, args) ::
      Resolve(r.selector, args) == ad.compose(Resolve(a.selector, args), next.selector.sel)
  {
    var right := next.selector.sel;
    match a.selector
    case Param(k, f) =>
      MakeView(Param(k, args => ad.compose(f(args), right)), Some(next.actions), Some(next.aggregates))
    case Concrete(s) =>
      MakeView(Concrete(ad.compose(s, right)), Some(next.actions), Some(next.aggregates))
  }

  // ---------------------------------------------------------------------
  // Diagnostics and errors
  // ---------------------------------------------------------------------

  /** One line per element in an error message: tab, quoted rendering, comma. */
  function ElementLines<E>(elements: seq<E>, printer: E -> string): (r: seq<string>)
    ensures |r| == |elements|
  {
    if elements == [] then []
    else ["\t\"" + printer(elements[0]) + "\","] + ElementLines(elements[1..], printer)
  }

  /** `printElements` (core/index.ts:276-281). */
  function PrintElements<E>(elements: seq<E>, printer: E -> string): (r: string)
    ensures elements == [] ==> r == "[]"
    ensures elements != [] ==> |r| > 3 && r[..3] == "[\n\t"
  {
    if |elements| == 0 then "[]"
    else
      var parts := ["["] + ElementLines(elements, printer) + ["]"];
      assert parts[0] == "[" && |parts| > 2;
      var r := Join(parts, "\n\t");
      assert r == "[" + "\n\t" + Join(parts[1..], "\n\t");
      r
  }

  /** The part of every error message after its first line. */
  function Details<S, D, E>(ad: Adapter<S, D, E>, w: D, selector: S, root: E, elements: seq<E>): string
  {
    SelectorLine(ad, selector) + RootLine(ad, w, root) + SelectedLine(ad, w, elements)
  }

  function SelectorLine<S, D, E>(ad: Adapter<S, D, E>, selector: S): string
  {
    "\tSelector: \"" + ad.printSelector(selector) + "\"\n"
  }

  function RootLine<S, D, E>(ad: Adapter<S, D, E>, w: D, root: E): string
  {
    "\tRoot: \"" + ad.printElement(w, root) + "\"\n"
  }

  function SelectedLine<S, D, E>(ad: Adapter<S, D, E>, w: D, elements: seq<E>): string
  {
    "\tSelected: " + PrintElements(elements, e => ad.printElement(w, e))
  }

  /** The three errors `.one` and `.at` throw (core/index.ts:283-366). */
  datatype SelectionError<S, E> =
    | ZeroSelectedElements(selector: S, root: E, elements: seq<E>, message: string)
    | MultipleSelectedElements(selector: S, root: E, elements: seq<E>, message: string)
    | IndexOutOfBounds(index: int, selector: S, root: E, elements: seq<E>, message: string)
  {
    /**
     * The error's `name` property: it tells the three kinds apart, and each
     * ends in "Error".
     */
    function Name(): (r: string)
      ensures r == "ZeroSelectedElementsError" <==> this.ZeroSelectedElements?
      ensures r == "MultipleSelectedElementsError" <==> this.MultipleSelectedElements?
      ensures r == "IndexOutOfBoundsError" <==> this.IndexOutOfBounds?
      ensures |r| > 5 && r[|r| - 5..] == "Error"
    {
      match this
      case ZeroSelectedElements(_, _, _, _) => "ZeroSelectedElementsError"
      case MultipleSelectedElements(_, _, _, _) => "MultipleSelectedElementsError"
      case IndexOutOfBounds(_, _, _, _, _) => "IndexOutOfBoundsError"
    }
  }

  const ZeroHeading := "Zero elements returned by selector\n"
  const MultipleHeading := "Multiple elements returned by selector:\n"
  const IndexHeading := "Index out of bounds\n"

  /** The line of the index error that names the requested index. */
  function IndexLine(index: int): string
  {
    "\tIndex: " + IntToString(index) + "\n"
  }

  /** `new ZeroSelectedElementsError(selector, root, elements, ...)`. */
  function ZeroError<S, D, E>(ad: Adapter<S, D, E>, w: D, selector: S, root: E, elements: seq<E>): (err: SelectionError<S, E>)
    ensures err.ZeroSelectedElements?
    ensures err.selector == selector && err.root == root && err.elements == elements
    ensures err.message == ZeroHeading + Details(ad, w, selector, root, elements)
  {
    ZeroSelectedElements(selector, root, elements, ZeroHeading + Details(ad, w, selector, root, elements))
  }

  /** `new MultipleSelectedElementsError(selector, root, elements, ...)`. */
  function MultipleError<S, D, E>(ad: Adapter<S, D, E>, w: D, selector: S, root: E, elements: seq<E>): (err: SelectionError<S, E>)
    ensures err.MultipleSelectedElements?
    ensures err.selector == selector && err.root == root && err.elements == elements
    ensures err.message == MultipleHeading + Details(ad, w, selector, root, elements)
  {
    MultipleSelectedElements(selector, root, elements, MultipleHeading + Details(ad, w, selector, root, elements))
  }

  /** `new IndexOutOfBoundsError(index, selector, root, elements, ...)`. */
  function IndexError<S, D, E>(ad: Adapter<S, D, E>, w: D, index: int, selector: S, root: E, elements: seq<E>): (err: SelectionError<S, E>)
    ensures err.IndexOutOfBounds? && err.index == index
    ensures err.selector == selector && err.root == root && err.elements == elements
    ensures err.message == IndexHeading + IndexLine(index) + Details(ad, w, selector, root, elements)
  {
    IndexOutOfBounds(index, selector, root, elements,
      IndexHeading + IndexLine(index) + Details(ad, w, selector, root, elements))
  }

  // ---------------------------------------------------------------------
  // The action and aggregate materialisers
  // ---------------------------------------------------------------------

  /** An action bound to a resolved selector and a root. */
  datatype BoundAction<S, !D, !E> = BoundAction(selector: S, root: E, action: Action<D, E>)

  /** An aggregate bound to a resolved selector and a root. */
  datatype BoundAggregate<S, !D, !E> = BoundAggregate(selector: S, root: E, aggregate: Aggregate<D, E>)

  /**
   * `iterateSelector(elements, e => action(e, ...args))`: the action runs on
   * each element in turn, each run seeing the world the previous one left.
   */
  function ApplyEach<D, E>(action: Action<D, E>, w: D, elements: seq<E>, args: Args<E>): (r: (D, seq<Value<E>>))
    ensures |r.1| == |elements|
    ensures elements == [] ==> r == (w, [])
  {
    if elements == [] then (w, [])
    else
      var step := action(w, elements[0], args);
      var rest := ApplyEach(action, step.0, elements[1..], args);
      (rest.0, [step.1] + rest.1)
  }

  /** The elements a bound selector matches under its root in world `w`. */
  function Matched<S, D, E>(ad: Adapter<S, D, E>, selector: S, w: D, root: E): seq<E>
  {
    ad.query(selector, w, root)
  }

  /**
   * The bare call `action(...args)` (core/index.ts:383-384): one result per
   * matched element, in order; no match gives no result and leaves the world
   * as it was.
   */
  function Invoke<S, D, E>(ad: Adapter<S, D, E>, b: BoundAction<S, D, E>, w: D, args: Args<E>): (r: (D, seq<Value<E>>))
    ensures |r.1| == |Matched(ad, b.selector, w, b.root)|
    ensures Matched(ad, b.selector, w, b.root) == [] ==> r == (w, [])
  {
    ApplyEach(b.action, w, Matched(ad, b.selector, w, b.root), args)
  }

  /**
   * `action.one(...args)` (core/index.ts:385-413): succeeds exactly when one
   * element matches, running the action once on it.  Zero matches is checked
   * before more than one; a failing call does not run the action.
   */
  function InvokeOne<S, D, E>(ad: Adapter<S, D, E>, b: BoundAction<S, D, E>, w: D, args: Args<E>)
    : (r: Result<(D, Value<E>), SelectionError<S, E>>)
    ensures var es := Matched(ad, b.selector, w, b.root);
      && (r.Success? <==> |es| == 1)
      && (|es| == 0 ==> r == Failure(ZeroError(ad, w, b.selector, b.root, es)))
      && (|es| > 1 ==> r == Failure(MultipleError(ad, w, b.selector, b.root, es)))
      && (|es| == 1 ==> r == Success(b.action(w, es[0], args)))
  {
    var elements := Matched(ad, b.selector, w, b.root);
    if |elements| == 0 then Failure(ZeroError(ad, w, b.selector, b.root, elements))
    else if |elements| > 1 then Failure(MultipleError(ad, w, b.selector, b.root, elements))
    else
      var results := ApplyEach(b.action, w, elements, args);
      Success((results.0, results.1[0]))
  }

  /**
   * `action.at(n, ...args)` (core/index.ts:414-442), 1-indexed: no match
   * fails with ZeroSelectedElements whatever `n` is; an entry at `n - 1` that
   * is missing or nullish fails with IndexOutOfBounds carrying `n`; otherwise
   * the action runs once, on that element.
   */
  function InvokeAt<S, D, E>(ad: Adapter<S, D, E>, b: BoundAction<S, D, E>, w: D, n: int, args: Args<E>)
    : (r: Result<(D, Value<E>), SelectionError<S, E>>)
    ensures var es := Matched(ad, b.selector, w, b.root);
      && (r.Success? <==> 1 <= n <= |es| && !ad.isNullish(es[n - 1]))
      && (|es| == 0 ==> r == Failure(ZeroError(ad, w, b.selector, b.root, es)))
      && (|es| > 0 && r.Failure? ==> r == Failure(IndexError(ad, w, n, b.selector, b.root, es)))
      && (r.Success? ==> r.value == b.action(w, es[n - 1], args))
  {
    var elements := Matched(ad, b.selector, w, b.root);
    var offset := n - 1;
    if |elements| == 0 then Failure(ZeroError(ad, w, b.selector, b.root, elements))
    else if offset < 0 || offset >= |elements| || ad.isNullish(elements[offset]) then
      Failure(IndexError(ad, w, n, b.selector, b.root, elements))
    else Success(b.action(w, elements[offset], args))
  }

  /**
   * A materialised aggregate (core/index.ts:446-456): the aggregate runs once,
   * on the full matched sequence; there is no failing case.
   */
  function InvokeAggregate<S, D, E>(ad: Adapter<S, D, E>, g: BoundAggregate<S, D, E>, w: D, args: Args<E>): (r: (D, Value<E>))
    ensures r == g.aggregate(w, ad.query(g.selector, w, g.root), args)
  {
    g.aggregate(w, Matched(ad, g.selector, w, g.root), args)
  }

  // ---------------------------------------------------------------------
  // Materialisation
  // ---------------------------------------------------------------------

  /** The built-in `get` action: the element itself. */
  function GetAction<D, E>(): (r: Action<D, E>)
  {
    (w: D, e: E, args: Args<E>) => (w, Elem(e))
  }

  /** The built-in `printSelected` action: the element's rendering. */
  function PrintSelectedAction<S, D, E>(ad: Adapter<S, D, E>): (r: Action<D, E>)
  {
    (w: D, e: E, args: Args<E>) => (w, Str(ad.printElement(w, e)))
  }

  /** The built-in `printSelector` aggregate: the resolved selector's rendering. */
  function PrintSelectorAggregate<S, D, E>(ad: Adapter<S, D, E>, selector: S): (r: Aggregate<D, E>)
  {
    (w: D, es: seq<E>, args: Args<E>) => (w, Str(ad.printSelector(selector)))
  }

  /** The built-in `printRoot` aggregate: the root's rendering. */
  function PrintRootAggregate<S, D, E>(ad: Adapter<S, D, E>, root: E): (r: Aggregate<D, E>)
  {
    (w: D, es: seq<E>, args: Args<E>) => (w, Str(ad.printElement(w, root)))
  }

  /** A property of the object `materialize` returns. */
  datatype Member<S, !D, !E> =
    | ActionMember(action: BoundAction<S, D, E>)
    | AggregateMember(aggregate: BoundAggregate<S, D, E>)
    | ActionsNamespace
    | AggregatesNamespace

  /**
   * What `materialize` returns: the flattened object, and the deprecated
   * `actions` and `aggregates` namespaces.
   */
  datatype MaterializedView<S, !D, !E> = MaterializedView(
    members: map<string, Member<S, D, E>>,
    actions: map<string, BoundAction<S, D, E>>,
    aggregates: map<string, BoundAggregate<S, D, E>>)

  /**
   * `{...actions, ...aggregates, actions, aggregates}` (core/index.ts:238-243):
   * a later spread wins, so an aggregate shadows a same-named action, and the
   * names `actions` and `aggregates` always denote the namespaces.
   */
  function Flatten<S, D, E>(
    actions: map<string, BoundAction<S, D, E>>,
    aggregates: map<string, BoundAggregate<S, D, E>>): (r: map<string, Member<S, D, E>>)
    ensures r.Keys == actions.Keys + aggregates.Keys + {"actions", "aggregates"}
    ensures r["actions"] == ActionsNamespace && r["aggregates"] == AggregatesNamespace
    ensures forall k :: k in aggregates && k != "actions" && k != "aggregates" ==>
      r[k] == AggregateMember(aggregates[k])
    ensures forall k :: k in actions && k !in aggregates && k != "actions" && k != "aggregates" ==>
      r[k] == ActionMember(actions[k])
  {
    (map k | k in actions :: ActionMember(actions[k]))
      + (map k | k in aggregates :: AggregateMember(aggregates[k]))
      + map["actions" := ActionsNamespace, "aggregates" := AggregatesNamespace]
  }

  /**
   * The `for (let action in actions)` loop (core/index.ts:199-207): starting
   * from the defaults, every own key of `actions` is bound, replacing a
   * same-named default.
   */
  method BindActions<S, D, E>(
    selector: S, root: E,
    defaults: map<string, BoundAction<S, D, E>>,
    actions: map<string, Action<D, E>>) returns (m: map<string, BoundAction<S, D, E>>)
    ensures m.Keys == defaults.Keys + actions.Keys
    ensures forall k :: k in actions ==> m[k] == BoundAction(selector, root, actions[k])
    ensures forall k :: k in defaults && k !in actions ==> m[k] == defaults[k]
  {
    m := defaults;
    var pending := actions.Keys;
    while pending != {}
      invariant pending <= actions.Keys
      invariant m.Keys == defaults.Keys + (actions.Keys - pending)
      invariant forall k :: k in actions && k !in pending ==> m[k] == BoundAction(selector, root, actions[k])
      invariant forall k :: k in defaults && (k !in actions || k in pending) ==> m[k] == defaults[k]
      decreases pending
    {
      var k :| k in pending;
      m := m[k := BoundAction(selector, root, actions[k])];
      pending := pending - {k};
    }
  }

  /** The `for (let agg in aggregate)` loop (core/index.ts:228-236). */
  method BindAggregates<S, D, E>(
    selector: S, root: E,
    defaults: map<string, BoundAggregate<S, D, E>>,
    aggregates: map<string, Aggregate<D, E>>) returns (m: map<string, BoundAggregate<S, D, E>>)
    ensures m.Keys == defaults.Keys + aggregates.Keys
    ensures forall k :: k in aggregates ==> m[k] == BoundAggregate(selector, root, aggregates[k])
    ensures forall k :: k in defaults && k !in aggregates ==> m[k] == defaults[k]
  {
    m := defaults;
    var pending := aggregates.Keys;
    while pending != {}
      invariant pending <= aggregates.Keys
      invariant m.Keys == defaults.Keys + (aggregates.Keys - pending)
      invariant forall k :: k in aggregates && k !in pending ==> m[k] == BoundAggregate(selector, root, aggregates[k])
      invariant forall k :: k in defaults && (k !in aggregates || k in pending) ==> m[k] == defaults[k]
      decreases pending
    {
      var k :| k in pending;
      m := m[k := BoundAggregate(selector, root, aggregates[k])];
      pending := pending - {k};
    }
  }

  /**
   * `view.materialize(root, ...selectorArgs)` (core/index.ts:185-244): the
   * selector is resolved once and bound, with the root, into the built-ins
   * `get`, `printSelected`, `printSelector`, `printRoot` and into every user
   * action and aggregate; a user entry replaces the same-named built-in.
   */
  method Materialize<S, D, E>(ad: Adapter<S, D, E>, view: View<S, D, E>, root: E, args: Args<E>)
    returns (mv: MaterializedView<S, D, E>)
    requires Accepts(view.selector, args)
    ensures mv.actions.Keys == {"get", "printSelected"} + view.actions.Keys
    ensures mv.aggregates.Keys == {"printSelector", "printRoot"} + view.aggregates.Keys
    ensures forall k :: k in view.actions ==>
      mv.actions[k] == BoundAction(Resolve(view.selector, args), root, view.actions[k])
    ensures forall k :: k in view.aggregates ==>
      mv.aggregates[k] == BoundAggregate(Resolve(view.selector, args), root, view.aggregates[k])
    ensures "get" !in view.actions ==>
      mv.actions["get"] == BoundAction(Resolve(view.selector, args), root, GetAction())
    ensures "printSelected" !in view.actions ==>
      mv.actions["printSelected"] == BoundAction(Resolve(view.selector, args), root, PrintSelectedAction(ad))
    ensures "printSelector" !in view.aggregates ==>
      mv.aggregates["printSelector"] ==
        BoundAggregate(Resolve(view.selector, args), root, PrintSelectorAggregate(ad, Resolve(view.selector, args)))
    ensures "printRoot" !in view.aggregates ==>
      mv.aggregates["printRoot"] == BoundAggregate(Resolve(view.selector, args), root, PrintRootAggregate(ad, root))
    ensures mv.members == Flatten(mv.actions, mv.aggregates)
  {
    var sel := Resolve(view.selector, args);
    var defaultActions := map[
      "get" := BoundAction(sel, root, GetAction()),
      "printSelected" := BoundAction(sel, root, PrintSelectedAction(ad))];
    var actions := BindActions(sel, root, defaultActions, view.actions);
    var defaultAggregates := map[
      "printSelector" := BoundAggregate(sel, root, PrintSelectorAggregate(ad, sel)),
      "printRoot" := BoundAggregate(sel, root, PrintRootAggregate(ad, root))];
    var aggregates := BindAggregates(sel, root, defaultAggregates, view.aggregates);
    assert defaultActions.Keys == {"get", "printSelected"};
    assert defaultAggregates.Keys == {"printSelector", "printRoot"};
    mv := MaterializedView(Flatten(actions, aggregates), actions, aggregates);
  }

  // ---------------------------------------------------------------------
  // Default views
  // ---------------------------------------------------------------------

  /** One entry of an adapter's `defaultViews` (core/index.ts:489-498). */
  datatype DefaultView<S, !D, !E> = DefaultView(
    selector: S,
    actions: map<string, Action<D, E>>,
    aggregate: map<string, Aggregate<D, E>>)

  /** The seven views every adapter supplies (core/index.ts:500-565). */
  const DefaultViewNames: set<string> :=
    {"checkbox", "radio", "textInput", "singleSelect", "multiSelect", "form", "button"}

  /**
   * `testView.defaultViews` (core/index.ts:249-269): each adapter view becomes
   * a view with its concrete selector and its actions; the adapter's
   * `aggregate` map is not passed on, so every default view has none.
   */
  function WrapDefaultViews<S, D, E>(defaults: map<string, DefaultView<S, D, E>>): (r: map<string, View<S, D, E>>)
    requires defaults.Keys == DefaultViewNames
    ensures r.Keys == DefaultViewNames
    ensures forall k :: k in r ==>
      r[k].selector == Concrete(defaults[k].selector)
      && r[k].actions == defaults[k].actions
      && r[k].aggregates == map[]
  {
    map k | k in defaults :: MakeView(Concrete(defaults[k].selector), Some(defaults[k].actions), None)
  }
}
