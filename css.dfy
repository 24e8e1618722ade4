/**
 * The CSS adapter (adapters/prismatestjs-css/index.ts): selectors are CSS
 * selector strings, composition takes the cartesian product of their
 * comma-separated alternatives, and the default views act on DOM controls.
 */
module Css {
  import opened Wrappers
  import opened Strings
  import Core
  import CoreLaws
  import opened Controls

  // ---------------------------------------------------------------------
  // Selector composition
  // ---------------------------------------------------------------------

  /** One alternative of a composite: `u.trim() + ' ' + v.trim()`. */
  function Piece(u: string, v: string): string
  {
    Trim(u) + " " + Trim(v)
  }

  /** `bSplits.map(v => f(u, v))` for one alternative `u` of the left selector. */
  function Row<T>(f: (T, T) -> T, u: T, vs: seq<T>): (r: seq<T>)
    ensures |r| == |vs|
    ensures forall j :: 0 <= j < |vs| ==> r[j] == f(u, vs[j])
  {
    seq(|vs|, j requires 0 <= j < |vs| => f(u, vs[j]))
  }

  /** `aSplits.map(u => bSplits.map(v => f(u, v))).reduce((a, b) => a.concat(b), [])`. */
  function Product<T>(f: (T, T) -> T, us: seq<T>, vs: seq<T>): seq<T>
  {
    if us == [] then [] else Row(f, us[0], vs) + Product(f, us[1..], vs)
  }

  /**
   * `composeSelectors(a, b)` (css/index.ts:18-25): splitting the result at its
   * commas gives back every alternative of `a` paired with every one of `b`.
   */
  function ComposeSelectors(a: string, b: string): (r: string)
    ensures Split(r, ',') == Product(Piece, Split(a, ','), Split(b, ','))
  {
    var A, B := Split(a, ','), Split(b, ',');
    ProductCommaFree(A, B);
    assert |Product(Piece, A, B)| == |B| + |Product(Piece, A[1..], B)|;
    SplitJoin(Product(Piece, A, B), ',');
    Join(Product(Piece, A, B), ",")
  }

  /** Every alternative is non-blank once trimmed. */
  predicate Solid(ps: seq<string>)
  {
    forall i :: 0 <= i < |ps| ==> Trim(ps[i]) != ""
  }

  /** No alternative holds a comma. */
  predicate CommaFree(ps: seq<string>)
  {
    forall i :: 0 <= i < |ps| ==> ',' !in ps[i]
  }

  lemma {:induction false} ProductLength<T>(f: (T, T) -> T, us: seq<T>, vs: seq<T>)
    ensures |Product(f, us, vs)| == |us| * |vs|
  {
    if us != [] {
      ProductLength(f, us[1..], vs);
      assert |us| * |vs| == |vs| + (|us| - 1) * |vs|;
    }
  }

  /** Piece `i * |vs| + j` of the product combines `us[i]` with `vs[j]`. */
  ghost predicate PieceAt<T>(f: (T, T) -> T, us: seq<T>, vs: seq<T>, i: int, j: int)
    requires 0 <= i < |us| && 0 <= j < |vs|
  {
    var k := i * |vs| + j;
    k < |Product(f, us, vs)| && Product(f, us, vs)[k] == f(us[i], vs[j])
  }

  lemma {:induction false} ProductAt<T>(f: (T, T) -> T, us: seq<T>, vs: seq<T>, i: nat, j: nat)
    requires i < |us| && j < |vs|
    ensures PieceAt(f, us, vs, i, j)
  {
    if i > 0 {
      ProductAt(f, us[1..], vs, i - 1, j);
      assert i * |vs| + j == |vs| + ((i - 1) * |vs| + j);
      assert us[1..][i - 1] == us[i];
    }
  }

  /**
   * The product holds `|A| * |B|` pieces, and piece `i * |B| + j` combines
   * alternative `i` of the left with alternative `j` of the right: left-major order.
   */
  lemma ProductPieces<T>(f: (T, T) -> T, us: seq<T>, vs: seq<T>)
    ensures |Product(f, us, vs)| == |us| * |vs|
    ensures forall i, j :: 0 <= i < |us| && 0 <= j < |vs| ==> PieceAt(f, us, vs, i, j)
  {
    ProductLength(f, us, vs);
    forall i, j | 0 <= i < |us| && 0 <= j < |vs|
      ensures PieceAt(f, us, vs, i, j)
    {
      ProductAt(f, us, vs, i, j);
    }
  }

  lemma {:induction false} ProductCommaFree(us: seq<string>, vs: seq<string>)
    requires CommaFree(us) && CommaFree(vs)
    ensures CommaFree(Product(Piece, us, vs))
  {
    if us != [] {
      var row, rest := Row(Piece, us[0], vs), Product(Piece, us[1..], vs);
      ProductCommaFree(us[1..], vs);
      forall j | 0 <= j < |vs|
        ensures ',' !in row[j]
      {
        PieceCommaFree(us[0], vs[j]);
      }
      CommaFreeAppend(row, rest);
    }
  }

  /** A piece of comma-free alternatives holds no comma. */
  lemma PieceCommaFree(u: string, v: string)
    requires ',' !in u && ',' !in v
    ensures ',' !in Piece(u, v)
  {
    TrimDropsOnly(u, ',');
    TrimDropsOnly(v, ',');
    assert ',' !in " ";
  }

  lemma CommaFreeAppend(ps: seq<string>, qs: seq<string>)
    requires CommaFree(ps) && CommaFree(qs)
    ensures CommaFree(ps + qs)
  {
    forall i | 0 <= i < |ps + qs|
      ensures ',' !in (ps + qs)[i]
    {
      if i < |ps| {
        assert (ps + qs)[i] == ps[i];
      } else {
        assert (ps + qs)[i] == qs[i - |ps|];
      }
    }
  }

  /**
   * The alternatives of `composeSelectors(a, b)` are exactly the product of
   * the alternatives `A` of `a` and `B` of `b`: `|A| * |B|` pieces, left-major,
   * each the trimmed left alternative, a space and the trimmed right one.
   */
  lemma ComposePieces(a: string, b: string)
    ensures var A, B := Split(a, ','), Split(b, ',');
      && |Split(ComposeSelectors(a, b), ',')| == |A| * |B|
      && forall i, j :: 0 <= i < |A| && 0 <= j < |B| ==> PieceAt(Piece, A, B, i, j)
  {
    ProductPieces(Piece, Split(a, ','), Split(b, ','));
  }

  /** `f` is associative on the given alternatives of three operands. */
  ghost predicate AssocOn<T>(f: (T, T) -> T, us: seq<T>, vs: seq<T>, ws: seq<T>)
  {
    forall i, j, k :: 0 <= i < |us| && 0 <= j < |vs| && 0 <= k < |ws| ==>
      f(f(us[i], vs[j]), ws[k]) == f(us[i], f(vs[j], ws[k]))
  }

  lemma {:induction false} ProductAppendLeft<T>(f: (T, T) -> T, xs: seq<T>, ys: seq<T>, vs: seq<T>)
    ensures Product(f, xs + ys, vs) == Product(f, xs, vs) + Product(f, ys, vs)
  {
    if xs == [] {
      assert xs + ys == ys;
    } else {
      var zs := xs + ys;
      assert zs[0] == xs[0] && zs[1..] == xs[1..] + ys;
      var row, restX, restY := Row(f, xs[0], vs), Product(f, xs[1..], vs), Product(f, ys, vs);
      ProductAppendLeft(f, xs[1..], ys, vs);
      assert Product(f, zs, vs) == row + (restX + restY);
      assert Product(f, xs, vs) == row + restX;
      assert row + (restX + restY) == (row + restX) + restY;
    }
  }

  lemma {:induction false} ProductRowAssoc<T>(f: (T, T) -> T, u: T, vs: seq<T>, ws: seq<T>)
    requires AssocOn(f, [u], vs, ws)
    ensures Product(f, Row(f, u, vs), ws) == Row(f, u, Product(f, vs, ws))
  {
    if vs != [] {
      var head := f(u, vs[0]);
      assert Row(f, u, vs) == [head] + Row(f, u, vs[1..]);
      ProductAppendLeft(f, [head], Row(f, u, vs[1..]), ws);
      assert Product(f, [head], ws) == Row(f, head, ws);
      assert Row(f, head, ws) == Row(f, u, Row(f, vs[0], ws)) by {
        forall k | 0 <= k < |ws|
          ensures f(head, ws[k]) == f(u, f(vs[0], ws[k]))
        {
          assert [u][0] == u;
        }
      }
      assert AssocOn(f, [u], vs[1..], ws) by {
        forall i, j, k | 0 <= i < 1 && 0 <= j < |vs[1..]| && 0 <= k < |ws|
          ensures f(f([u][i], vs[1..][j]), ws[k]) == f([u][i], f(vs[1..][j], ws[k]))
        {
          assert vs[1..][j] == vs[j + 1];
        }
      }
      ProductRowAssoc(f, u, vs[1..], ws);
      assert Row(f, u, Row(f, vs[0], ws) + Product(f, vs[1..], ws))
        == Row(f, u, Row(f, vs[0], ws)) + Row(f, u, Product(f, vs[1..], ws));
    }
  }

  lemma {:induction false} ProductAssoc<T>(f: (T, T) -> T, us: seq<T>, vs: seq<T>, ws: seq<T>)
    requires AssocOn(f, us, vs, ws)
    ensures Product(f, Product(f, us, vs), ws) == Product(f, us, Product(f, vs, ws))
  {
    if us != [] {
      ProductAppendLeft(f, Row(f, us[0], vs), Product(f, us[1..], vs), ws);
      assert AssocOn(f, [us[0]], vs, ws) by {
        forall i, j, k | 0 <= i < 1 && 0 <= j < |vs| && 0 <= k < |ws|
          ensures f(f([us[0]][i], vs[j]), ws[k]) == f([us[0]][i], f(vs[j], ws[k]))
        {
          assert [us[0]][i] == us[0];
        }
      }
      ProductRowAssoc(f, us[0], vs, ws);
      assert AssocOn(f, us[1..], vs, ws) by {
        forall i, j, k | 0 <= i < |us[1..]| && 0 <= j < |vs| && 0 <= k < |ws|
          ensures f(f(us[1..][i], vs[j]), ws[k]) == f(us[1..][i], f(vs[j], ws[k]))
        {
          assert us[1..][i] == us[i + 1];
        }
      }
      ProductAssoc(f, us[1..], vs, ws);
    }
  }

  /** Joining two non-blank trimmed alternatives with a space needs no further trimming. */
  lemma PieceAssoc(u: string, v: string, w: string)
    requires Trim(u) != "" && Trim(v) != "" && Trim(w) != ""
    ensures Piece(Piece(u, v), w) == Piece(u, Piece(v, w))
  {
    var tu, tv, tw := Trim(u), Trim(v), Trim(w);
    var l, r := Piece(u, v), Piece(v, w);
    PieceBare(u, v);
    PieceBare(v, w);
    assert Piece(l, w) == l + " " + tw;
    assert Piece(u, r) == tu + " " + r;
    assert l + " " + tw == tu + " " + r by {
      assert l == tu + " " + tv && r == tv + " " + tw;
    }
  }

  /** A piece of two non-blank alternatives needs no further trimming. */
  lemma PieceBare(u: string, v: string)
    requires Trim(u) != "" && Trim(v) != ""
    ensures Trim(Piece(u, v)) == Piece(u, v)
  {
    var tu, tv := Trim(u), Trim(v);
    TrimShape(u);
    TrimShape(v);
    var p := tu + " " + tv;
    assert p[0] == tu[0] && p[|p| - 1] == tv[|tv| - 1];
    TrimKeeps(p);
  }

  lemma SolidAssoc(us: seq<string>, vs: seq<string>, ws: seq<string>)
    requires Solid(us) && Solid(vs) && Solid(ws)
    ensures AssocOn(Piece, us, vs, ws)
  {
    forall i, j, k | 0 <= i < |us| && 0 <= j < |vs| && 0 <= k < |ws|
      ensures Piece(Piece(us[i], vs[j]), ws[k]) == Piece(us[i], Piece(vs[j], ws[k]))
    {
      PieceAssoc(us[i], vs[j], ws[k]);
    }
  }

  /**
   * Composition is associative, as the core requires of every adapter
   * (core/index.ts:458), provided no comma-separated alternative of the
   * operands is blank once trimmed.
   */
  lemma ComposeAssociative(a: string, b: string, c: string)
    requires Solid(Split(a, ',')) && Solid(Split(b, ',')) && Solid(Split(c, ','))
    ensures ComposeSelectors(ComposeSelectors(a, b), c) == ComposeSelectors(a, ComposeSelectors(b, c))
  {
    ComposePieces(a, b);
    ComposePieces(b, c);
    SolidAssoc(Split(a, ','), Split(b, ','), Split(c, ','));
    ProductAssoc(Piece, Split(a, ','), Split(b, ','), Split(c, ','));
  }

  /** Two comma-free selectors compose to their trimmed texts around a space. */
  lemma ComposeSingle(a: string, b: string)
    requires ',' !in a && ',' !in b
    ensures ComposeSelectors(a, b) == Trim(a) + " " + Trim(b)
  {
    SplitPiece(a, ',');
    SplitPiece(b, ',');
    assert [a][1..] == [];
    assert Product(Piece, [a], [b]) == Row(Piece, a, [b]) + Product(Piece, [], [b]);
    assert Product(Piece, [a], [b]) == [Piece(a, b)];
  }

  /**
   * With a blank alternative the two bracketings differ: composing "" with
   * `x` and then `y` gives "x y", composing "" with the composite of `x` and
   * `y` keeps a leading space, for every pair of plain selectors `x`, `y`
   * (`"x"` and `"y"` among them).
   */
  lemma BlankBreaksAssociativity(x: string, y: string)
    requires Plain(x) && Plain(y)
    ensures ComposeSelectors(ComposeSelectors("", x), y) == x + " " + y
    ensures ComposeSelectors("", ComposeSelectors(x, y)) == " " + x + " " + y
    ensures ComposeSelectors(ComposeSelectors("", x), y) != ComposeSelectors("", ComposeSelectors(x, y))
  {
    BlankThenPlain(x, y);
    BlankBeforeComposite(x, y);
    assert |x + " " + y| != |" " + x + " " + y|;
  }

  lemma BlankThenPlain(x: string, y: string)
    requires Plain(x) && Plain(y)
    ensures ComposeSelectors(ComposeSelectors("", x), y) == x + " " + y
  {
    var p := ComposeSelectors("", x);
    BlankLeft(x);
    SpaceLeft(x, y);
    assert ComposeSelectors(p, y) == ComposeSelectors(" " + x, y);
  }

  lemma BlankBeforeComposite(x: string, y: string)
    requires Plain(x) && Plain(y)
    ensures ComposeSelectors("", ComposeSelectors(x, y)) == " " + x + " " + y
  {
    PlainCompose(x, y);
    BlankBeforePlain(ComposeSelectors(x, y), x, y);
  }

  /** The blank selector composed with a plain descendant join keeps one leading space. */
  lemma BlankBeforePlain(z: string, x: string, y: string)
    requires Plain(z) && z == x + " " + y
    ensures ComposeSelectors("", z) == " " + x + " " + y
  {
    BlankLeft(z);
    assert " " + z == " " + x + " " + y;
  }

  /** Composing the blank selector with a plain one leaves a leading space. */
  lemma BlankLeft(x: string)
    requires Plain(x)
    ensures ComposeSelectors("", x) == " " + x
  {
    TrimBlank();
    TrimKeeps(x);
    ComposeTrimmed("", x, "", x);
  }

  /** Two comma-free selectors whose trimmed texts are known compose to those texts around a space. */
  lemma ComposeTrimmed(a: string, b: string, ta: string, tb: string)
    requires ',' !in a && ',' !in b && Trim(a) == ta && Trim(b) == tb
    ensures ComposeSelectors(a, b) == ta + " " + tb
  {
    ComposeSingle(a, b);
  }

  /** The leading space of the left operand is trimmed away. */
  lemma SpaceLeft(x: string, y: string)
    requires Plain(x) && Plain(y)
    ensures ComposeSelectors(" " + x, y) == x + " " + y
  {
    assert ',' !in " ";
    TrimLeadingSpace(x);
    TrimKeeps(y);
    ComposeSingle(" " + x, y);
  }

  /** Plain selectors compose to a plain selector: the two around a space. */
  lemma PlainCompose(x: string, y: string)
    requires Plain(x) && Plain(y)
    ensures ComposeSelectors(x, y) == x + " " + y
    ensures Plain(x + " " + y)
  {
    TrimKeeps(x);
    TrimKeeps(y);
    ComposeSingle(x, y);
    var xy := x + " " + y;
    assert xy[0] == x[0] && xy[|xy| - 1] == y[|y| - 1];
    assert ',' !in " ";
  }

  /** A comma-free, non-empty selector without white space at its ends. */
  predicate Plain(s: string)
  {
    s != [] && ',' !in s && !IsWhitespace(s[0]) && !IsWhitespace(s[|s| - 1])
  }

  lemma TrimBlank()
    ensures Trim("") == ""
  {
  }

  /** One leading space is trimmed away from a string that needs no trimming. */
  lemma TrimLeadingSpace(s: string)
    requires s != [] && !IsWhitespace(s[0]) && !IsWhitespace(s[|s| - 1])
    ensures Trim(" " + s) == s
  {
    assert (" " + s)[1..] == s;
    assert TrimStart(" " + s) == TrimStart(s);
    TrimKeeps(s);
  }

  // ---------------------------------------------------------------------
  // Iteration
  // ---------------------------------------------------------------------

  /**
   * `iterateSelector(nodes, fn)` (css/index.ts:32-43): `fn` runs on each node
   * in index order, each run seeing the world the previous one left, and the
   * results are collected in that order.
   */
  method IterateSelector<D, E>(nodes: seq<E>, action: Core.Action<D, E>, w: D, args: Core.Args<E>)
    returns (w': D, results: seq<Core.Value<E>>)
    ensures (w', results) == Core.ApplyEach(action, w, nodes, args)
    ensures |results| == |nodes|
  {
    w' := w;
    results := [];
    var i := 0;
    while i < |nodes|
      invariant 0 <= i <= |nodes|
      invariant (w', results) == Core.ApplyEach(action, w, nodes[..i], args)
    {
      CoreLaws.ApplyEachSnoc(action, w, nodes[..i], nodes[i], args);
      assert nodes[..i + 1] == nodes[..i] + [nodes[i]];
      var step := action(w', nodes[i], args);
      w' := step.0;
      results := results + [step.1];
      i := i + 1;
    }
    assert nodes[..i] == nodes;
  }

  // ---------------------------------------------------------------------
  // Default views
  // ---------------------------------------------------------------------

  /**
   * The selectors of the adapter's default views (css/index.ts:58-188). The
   * two with several comma-separated alternatives are written as their
   * alternatives joined by ", ": the same strings as in the source.
   */
  const DefaultSelectors: map<string, string> := map[
    "checkbox" := "input[type='checkbox']",
    "radio" := "input[type='radio']",
    "textInput" := "input[type='text']" + ", " + "textarea",
    "singleSelect" := "select:not([multiple])",
    "multiSelect" := "select[multiple]",
    "form" := "form",
    "button" := "button" + ", " + "input[type='button']" + ", " + "input[type='submit']"]

  /** Each default selector, split at its commas, has only non-blank alternatives. */
  lemma CheckboxSolid()
    ensures Solid(Split(DefaultSelectors["checkbox"], ','))
  {
    PlainSolid("input[type='checkbox']");
  }

  lemma RadioSolid()
    ensures Solid(Split(DefaultSelectors["radio"], ','))
  {
    PlainSolid("input[type='radio']");
  }

  lemma TextInputSolid()
    ensures Solid(Split(DefaultSelectors["textInput"], ','))
  {
    TwoAlternatives("input[type='text']", "textarea");
  }

  lemma SingleSelectSolid()
    ensures Solid(Split(DefaultSelectors["singleSelect"], ','))
  {
    PlainSolid("select:not([multiple])");
  }

  lemma MultiSelectSolid()
    ensures Solid(Split(DefaultSelectors["multiSelect"], ','))
  {
    PlainSolid("select[multiple]");
  }

  lemma FormSolid()
    ensures Solid(Split(DefaultSelectors["form"], ','))
  {
    PlainSolid("form");
  }

  lemma ButtonSolid()
    ensures Solid(Split(DefaultSelectors["button"], ','))
  {
    ThreeAlternatives("button", "input[type='button']", "input[type='submit']");
  }

  /**
   * Every alternative of every default selector is non-blank, so composing
   * default selectors is associative (see `DefaultsAssociative`).
   */
  lemma DefaultSelectorsSolid()
    ensures forall k :: k in DefaultSelectors ==> Solid(Split(DefaultSelectors[k], ','))
  {
    forall k | k in DefaultSelectors
      ensures Solid(Split(DefaultSelectors[k], ','))
    {
      if k == "checkbox" {
        CheckboxSolid();
      } else if k == "radio" {
        RadioSolid();
      } else if k == "textInput" {
        TextInputSolid();
      } else if k == "singleSelect" {
        SingleSelectSolid();
      } else if k == "multiSelect" {
        MultiSelectSolid();
      } else if k == "form" {
        FormSolid();
      } else {
        assert k == "button";
        ButtonSolid();
      }
    }
  }

  /** Two plain alternatives joined by ", " are both non-blank once split. */
  lemma TwoAlternatives(x: string, y: string)
    requires Plain(x) && Plain(y)
    ensures Solid(Split(x + ", " + y, ','))
  {
    SpacedSolid(y);
    PlainAlternative(x);
    SolidFirst(x, " " + y);
    assert x + ", " + y == x + [','] + (" " + y);
  }

  /** Three plain alternatives joined by ", " are all non-blank once split. */
  lemma ThreeAlternatives(x: string, y: string, z: string)
    requires Plain(x) && Plain(y) && Plain(z)
    ensures Solid(Split(x + ", " + y + ", " + z, ','))
  {
    var rest := " " + y + [','] + (" " + z);
    SpacedPair(y, z);
    PlainAlternative(x);
    SolidFirst(x, rest);
    assert x + ", " + y + ", " + z == x + [','] + rest;
  }

  /** The two alternatives after the first comma of `ThreeAlternatives`. */
  lemma SpacedPair(y: string, z: string)
    requires Plain(y) && Plain(z)
    ensures Solid(Split(" " + y + [','] + (" " + z), ','))
  {
    SpacedSolid(z);
    SpacedAlternative(y);
    SolidFirst(" " + y, " " + z);
  }

  /** Composition of default selectors, bracketed either way, gives the same selector. */
  lemma DefaultsAssociative(x: string, y: string, z: string)
    requires x in DefaultSelectors.Values && y in DefaultSelectors.Values && z in DefaultSelectors.Values
    ensures ComposeSelectors(ComposeSelectors(x, y), z) == ComposeSelectors(x, ComposeSelectors(y, z))
  {
    DefaultSelectorsSolid();
    ComposeAssociative(x, y, z);
  }

  /**
   * The core's `defaultViews` (core/index.ts:249-269), given this adapter's
   * seven views, keeps each of their selectors as a concrete selector.
   */
  lemma DefaultViewsKeepSelectors<D, E>(defaults: map<string, Core.DefaultView<string, D, E>>)
    requires defaults.Keys == DefaultSelectors.Keys
    requires forall k :: k in defaults ==> defaults[k].selector == DefaultSelectors[k]
    ensures defaults.Keys == Core.DefaultViewNames
    ensures var r := Core.WrapDefaultViews(defaults);
      forall k :: k in DefaultSelectors ==> k in r && r[k].selector == Core.Concrete(DefaultSelectors[k])
  {
  }

  /** One comma-free alternative with non-blank trim is solid. */
  lemma SolidOne(p: string)
    requires ',' !in p && Trim(p) != ""
    ensures Solid(Split(p, ','))
  {
    SplitPiece(p, ',');
  }

  /** A non-blank comma-free alternative in front of solid ones keeps them solid. */
  lemma SolidFirst(p: string, rest: string)
    requires ',' !in p && Trim(p) != "" && Solid(Split(rest, ','))
    ensures Solid(Split(p + [','] + rest, ','))
  {
    SplitCons(p, ',', rest);
    SolidCons(p, Split(rest, ','));
  }

  lemma SolidCons(p: string, tail: seq<string>)
    requires Trim(p) != "" && Solid(tail)
    ensures Solid([p] + tail)
  {
    var ps := [p] + tail;
    forall i | 0 <= i < |ps|
      ensures Trim(ps[i]) != ""
    {
      if i == 0 {
        assert ps[0] == p;
      } else {
        assert ps[i] == tail[i - 1];
      }
    }
  }

  /** A plain selector is a non-blank comma-free alternative. */
  lemma PlainAlternative(x: string)
    requires Plain(x)
    ensures ',' !in x && Trim(x) != ""
  {
    TrimKeeps(x);
  }

  lemma PlainSolid(x: string)
    requires Plain(x)
    ensures Solid(Split(x, ','))
  {
    PlainAlternative(x);
    SolidOne(x);
  }

  /** A plain selector after the space that follows a comma is still a non-blank alternative. */
  lemma SpacedAlternative(x: string)
    requires Plain(x)
    ensures ',' !in " " + x && Trim(" " + x) != ""
  {
    assert ',' !in " ";
    TrimLeadingSpace(x);
  }

  lemma SpacedSolid(x: string)
    requires Plain(x)
    ensures Solid(Split(" " + x, ','))
  {
    SpacedAlternative(x);
    SolidOne(" " + x);
  }

  /** `findSelectOption(options, value)` (css/index.ts:45-56): the first option with the value. */
  method FindSelectOption(options: seq<SelectOption>, value: string) returns (r: Option<nat>)
    ensures r == FindOption(options, value)
  {
    var i := 0;
    while i < |options|
      invariant 0 <= i <= |options|
      invariant forall j :: 0 <= j < i ==> options[j].value != value
    {
      if options[i].value == value {
        FindOptionFirst(options, value, i);
        return Some(i);
      }
      i := i + 1;
    }
    return None;
  }

  /** The first index carrying `value` is what FindOption reports. */
  lemma FindOptionFirst(options: seq<SelectOption>, value: string, i: nat)
    requires i < |options| && options[i].value == value
    requires forall j :: 0 <= j < i ==> options[j].value != value
    ensures FindOption(options, value) == Some(i)
  {
    match FindOption(options, value)
    case None =>
    case Some(k) =>
      assert !(k < i) && !(i < k);
  }

  /** Checkbox `toggle` (css/index.ts:62-65): `checked` flips, then a change is dispatched. */
  method Toggle(e: InputElement)
    modifies e
    ensures e.checked == !old(e.checked)
    ensures e.value == old(e.value)
    ensures e.events == old(e.events) + [Change]
  {
    e.checked := !e.checked;
    e.Dispatch(Change);
  }

  /** Radio `select` (css/index.ts:74-77): the radio is checked and a change dispatched. */
  method RadioSelect(e: InputElement)
    modifies e
    ensures e.checked && e.value == old(e.value)
    ensures e.events == old(e.events) + [Change]
  {
    e.checked := true;
    e.Dispatch(Change);
  }

  /** The radio group name: the element's `name`, or its `id` when the name is empty. */
  function GroupKey(e: InputElement): (r: string)
    reads e
    ensures e.name != "" ==> r == e.name
    ensures e.name == "" ==> r == e.id
  {
    if e.name != "" then e.name else e.id
  }

  /** A radio whose `name` is the group key: what `input[type='radio'][name='key']` matches. */
  predicate InGroup(e: InputElement, key: string)
    reads e
  {
    e.inputType == "radio" && e.name == key
  }

  /** The positions, in document order, of the children in the group. */
  function GroupPositions(children: seq<InputElement>, key: string): (p: seq<nat>)
    reads children
    ensures forall k :: 0 <= k < |p| ==> p[k] < |children| && InGroup(children[p[k]], key)
    ensures Ascending(p)
    ensures forall j :: 0 <= j < |children| && InGroup(children[j], key) ==> j in p
  {
    if children == [] then []
    else
      var n := |children| - 1;
      var init := GroupPositions(children[..n], key);
      assert forall j :: 0 <= j < n ==> children[j] == children[..n][j];
      if InGroup(children[n], key) then
        AscendingSnoc(init, n);
        init + [n]
      else init
  }

  /**
   * `:scope > input[type='radio'][name='key']`: the parent's radio children
   * in the group.
   */
  function RadioGroup(children: seq<InputElement>, key: string): (r: seq<InputElement>)
    reads children
    ensures forall i :: 0 <= i < |r| ==> r[i] in children && r[i].inputType == "radio" && r[i].name == key
    ensures forall j :: 0 <= j < |children| && children[j].inputType == "radio" && children[j].name == key ==>
      children[j] in r
  {
    if children == [] then []
    else
      var n := |children| - 1;
      var init := RadioGroup(children[..n], key);
      assert forall j :: 0 <= j < n ==> children[j] == children[..n][j];
      if InGroup(children[n], key) then init + [children[n]] else init
  }

  /** The group lists the children at `GroupPositions`: each once, in document order. */
  lemma {:induction false} RadioGroupInOrder(children: seq<InputElement>, key: string)
    ensures var r, p := RadioGroup(children, key), GroupPositions(children, key);
      |r| == |p| && forall k :: 0 <= k < |r| ==> r[k] == children[p[k]]
  {
    if children != [] {
      var n := |children| - 1;
      RadioGroupInOrder(children[..n], key);
      var init, q := RadioGroup(children[..n], key), GroupPositions(children[..n], key);
      var r, p := RadioGroup(children, key), GroupPositions(children, key);
      if InGroup(children[n], key) {
        assert r == init + [children[n]] && p == q + [n];
      } else {
        assert r == init && p == q;
      }
      forall k | 0 <= k < |init|
        ensures init[k] == children[q[k]]
      {
        assert children[..n][q[k]] == children[q[k]];
      }
    }
  }

  /** The value of the first checked radio, if any. */
  function FirstChecked(radios: seq<InputElement>): (r: Option<string>)
    reads radios
    ensures r.None? <==> forall j :: 0 <= j < |radios| ==> !radios[j].checked
    ensures r.Some? ==>
      exists j :: 0 <= j < |radios| && radios[j].checked && radios[j].value == r.value
        && (forall k :: 0 <= k < j ==> !radios[k].checked)
  {
    if radios == [] then None
    else if radios[0].checked then Some(radios[0].value)
    else
      var rest := FirstChecked(radios[1..]);
      assert forall j :: 1 <= j < |radios| ==> radios[j] == radios[1..][j - 1];
      rest
  }

  /**
   * Radio `getSelectedValue` (css/index.ts:83-103): with no parent there is
   * no value; otherwise the value of the first checked radio of the group
   * among the parent's children, or none when no radio of the group is checked.
   */
  method GetSelectedValue(e: InputElement, parent: Option<seq<InputElement>>) returns (r: Option<string>)
    ensures parent.None? ==> r.None?
    ensures parent.Some? ==> r == FirstChecked(RadioGroup(parent.value, GroupKey(e)))
  {
    if parent.None? {
      return None;
    }
    var radios := RadioGroup(parent.value, GroupKey(e));
    var i := 0;
    while i < |radios|
      invariant 0 <= i <= |radios|
      invariant FirstChecked(radios) == FirstChecked(radios[i..])
    {
      if radios[i].checked {
        return Some(radios[i].value);
      }
      assert radios[i..][1..] == radios[i + 1..];
      i := i + 1;
    }
    return None;
  }

  /** Text input `enterText` (css/index.ts:110-113): the value becomes the text, then a change. */
  method EnterText(e: InputElement, text: string)
    modifies e
    ensures e.value == text && e.checked == old(e.checked)
    ensures e.events == old(e.events) + [Change]
  {
    e.value := text;
    e.Dispatch(Change);
  }

  /**
   * Single select `select(value)` (css/index.ts:121-130): when an option has
   * the value, the first such option becomes the only selected one, so the
   * select's value is then `value`, and a change is dispatched; otherwise
   * nothing happens.
   */
  method SingleSelectSelect(e: SelectElement, value: string)
    modifies e
    ensures FindOption(old(e.options), value).Some? ==>
      && e.options == SelectOnly(old(e.options), FindOption(old(e.options), value).value)
      && e.Value() == value
      && e.events == old(e.events) + [Change]
    ensures FindOption(old(e.options), value).None? ==> e.options == old(e.options) && e.events == old(e.events)
  {
    var option := FindSelectOption(e.options, value);
    if option.Some? {
      SelectOnlyValue(e.options, value);
      e.SetSelectedIndex(option.value);
      e.Dispatch(Change);
    }
  }

  /**
   * Multi select `select(values)` (css/index.ts:139-155): every option is
   * selected iff its value is among `values`, and a change is dispatched iff
   * there is at least one option.
   */
  method MultiSelectSelect(e: SelectElement, values: seq<string>)
    modifies e
    ensures e.options == MarkSelected(old(e.options), values)
    ensures e.events == old(e.events) + (if |old(e.options)| > 0 then [Change] else [])
  {
    var shouldChange := false;
    var i := 0;
    while i < |e.options|
      invariant 0 <= i <= |e.options| == |old(e.options)|
      invariant e.options[..i] == MarkSelected(old(e.options)[..i], values)
      invariant e.options[i..] == old(e.options)[i..]
      invariant shouldChange <==> i > 0
      invariant e.events == old(e.events)
    {
      var option := e.options[i];
      shouldChange := true;
      e.options := e.options[i := option.(selected := option.value in values)];
      assert old(e.options)[i] == option;
      i := i + 1;
    }
    assert e.options == e.options[..i];
    assert old(e.options) == old(e.options)[..i];
    if shouldChange {
      e.Dispatch(Change);
    }
  }

  /**
   * Multi select `getSelection` (css/index.ts:156-166): the values of the
   * selected options, in option order.
   */
  method GetSelection(e: SelectElement) returns (ret: seq<string>)
    ensures ret == SelectedValues(e.options)
  {
    ret := [];
    var i := 0;
    while i < |e.options|
      invariant 0 <= i <= |e.options|
      invariant ret == SelectedValues(e.options[..i])
    {
      SelectedValuesSnoc(e.options[..i], e.options[i]);
      assert e.options[..i + 1] == e.options[..i] + [e.options[i]];
      if e.options[i].selected {
        ret := ret + [e.options[i].value];
      }
      i := i + 1;
    }
    assert e.options[..i] == e.options;
  }
}
