/**
 * The earlier engine of index.ts: concrete selectors only, one `actions`
 * namespace, and a bare call per action with no `.one`/`.at` forms and no
 * error case. Actions and their per-element loop are the ones of Core.
 */
module Legacy {
  import opened Wrappers
  import Core
  import CoreLaws

  /**
   * `makeAdapter(composeSelectors, runSelector, iterateSelector, defaultViews)`
   * (index.ts:175-185), with running the selector and iterating its result
   * folded into `query`, as in Core.
   */
  datatype Adapter<!S, !D, !E> = Adapter(compose: (S, S) -> S, query: (S, D, E) -> seq<E>)

  /** A legacy view: a concrete selector and a map of actions. */
  datatype View<S, !D, !E> = View(selector: S, actions: map<string, Core.Action<D, E>>)

  /** `testView(selector, actionsOpt)` (index.ts:90-94): omitted actions are none. */
  function MakeView<S, D, E>(selector: S, actionsOpt: Option<map<string, Core.Action<D, E>>>): (r: View<S, D, E>)
    ensures r.selector == selector
    ensures actionsOpt.None? ==> r.actions == map[]
    ensures actionsOpt.Some? ==> r.actions == actionsOpt.value
  {
    View(selector, if actionsOpt.Some? then actionsOpt.value else map[])
  }

  /**
   * `view(nextView)` (index.ts:95-101): the selectors are composed and the
   * composite carries the next view's actions, the left view's are dropped.
   */
  function Compose<S, D, E>(ad: Adapter<S, D, E>, a: View<S, D, E>, next: View<S, D, E>): (r: View<S, D, E>)
    ensures r.selector == ad.compose(a.selector, next.selector)
    ensures r.actions == next.actions
  {
    MakeView(ad.compose(a.selector, next.selector), Some(next.actions))
  }

  /** Composition of legacy views is associative when selector composition is. */
  lemma ComposeAssociative<S(!new), D, E>(ad: Adapter<S, D, E>, a: View<S, D, E>, b: View<S, D, E>, c: View<S, D, E>)
    requires Core.Associative(ad.compose)
    ensures Compose(ad, Compose(ad, a, b), c) == Compose(ad, a, Compose(ad, b, c))
  {
  }

  /** The core adapter that shares this adapter's composition and query. */
  function Lift<S, D, E>(ad: Adapter<S, D, E>, printSelector: S -> string, printElement: (D, E) -> string, isNullish: E -> bool)
    : (r: Core.Adapter<S, D, E>)
    ensures r.compose == ad.compose && r.query == ad.query
  {
    Core.Adapter(ad.compose, ad.query, printSelector, printElement, isNullish)
  }

  /** A legacy view as a core view: a concrete selector and no aggregates. */
  function ToCore<S, D, E>(v: View<S, D, E>): (r: Core.View<S, D, E>)
    ensures r.selector == Core.Concrete(v.selector) && r.actions == v.actions && r.aggregates == map[]
  {
    Core.MakeView(Core.Concrete(v.selector), Some(v.actions), None)
  }

  /** The current engine composes legacy views the way the legacy one does. */
  lemma ComposeAgreesWithCore<S, D, E(!new)>(ad: Adapter<S, D, E>, a: View<S, D, E>, next: View<S, D, E>,
      printSelector: S -> string, printElement: (D, E) -> string, isNullish: E -> bool)
    ensures Core.Compose(Lift(ad, printSelector, printElement, isNullish), ToCore(a), ToCore(next)) == ToCore(Compose(ad, a, next))
  {
    var cad := Lift(ad, printSelector, printElement, isNullish);
    var r := Core.Compose(cad, ToCore(a), ToCore(next));
    assert Core.Accepts(ToCore(a).selector, []);
    assert r.selector.Concrete?;
    assert Core.Resolve(r.selector, []) == ad.compose(a.selector, next.selector);
  }

  /**
   * A materialised legacy action (index.ts:52-54, 158-165): the action runs on
   * every matched element, in order, and the call returns all the results.
   */
  function Invoke<S, D, E>(ad: Adapter<S, D, E>, b: Core.BoundAction<S, D, E>, w: D, args: Core.Args<E>)
    : (r: (D, seq<Core.Value<E>>))
    ensures |r.1| == |ad.query(b.selector, w, b.root)|
  {
    Core.ApplyEach(b.action, w, ad.query(b.selector, w, b.root), args)
  }

  /** The legacy call is the current engine's bare call. */
  lemma InvokeAgreesWithCore<S, D, E>(ad: Adapter<S, D, E>, b: Core.BoundAction<S, D, E>, w: D, args: Core.Args<E>,
      printSelector: S -> string, printElement: (D, E) -> string, isNullish: E -> bool)
    ensures Invoke(ad, b, w, args) == Core.Invoke(Lift(ad, printSelector, printElement, isNullish), b, w, args)
  {
  }

  /** The legacy `get` returns the matched elements unchanged, in order. */
  lemma GetReturnsMatched<S, D, E>(ad: Adapter<S, D, E>, selector: S, root: E, w: D, args: Core.Args<E>)
    ensures Invoke(ad, Core.BoundAction(selector, root, Core.GetAction()), w, args)
      == (w, CoreLaws.AsValues(ad.query(selector, w, root)))
  {
    CoreLaws.ApplyGet(w, ad.query(selector, w, root), args);
  }

  /**
   * `view.materialize(root)` (index.ts:105-123): every own action is bound to
   * the selector and the root in a for-in loop, and the result is spread over
   * the default `get`, so a user action named `get` replaces it.
   */
  method Materialize<S, D, E>(view: View<S, D, E>, root: E) returns (actions: map<string, Core.BoundAction<S, D, E>>)
    ensures actions.Keys == {"get"} + view.actions.Keys
    ensures forall k :: k in view.actions ==> actions[k] == Core.BoundAction(view.selector, root, view.actions[k])
    ensures "get" !in view.actions ==> actions["get"] == Core.BoundAction(view.selector, root, Core.GetAction())
  {
    var defaults := map["get" := Core.BoundAction(view.selector, root, Core.GetAction())];
    var bound := Core.BindActions(view.selector, root, map[], view.actions);
    actions := defaults + bound;
  }

  /** One entry of the legacy `defaultViews` (index.ts:187-190). */
  datatype DefaultView<S, !D, !E> = DefaultView(selector: S, actions: map<string, Core.Action<D, E>>)

  /**
   * `materializedDefaultViews` (index.ts:129-149): every adapter view is
   * wrapped as a view with the same selector and actions.
   */
  function WrapDefaultViews<S, D, E>(defaults: map<string, DefaultView<S, D, E>>): (r: map<string, View<S, D, E>>)
    requires defaults.Keys == Core.DefaultViewNames
    ensures r.Keys == Core.DefaultViewNames
    ensures forall k :: k in r ==> r[k].selector == defaults[k].selector && r[k].actions == defaults[k].actions
  {
    map k | k in defaults :: MakeView(defaults[k].selector, Some(defaults[k].actions))
  }
}
