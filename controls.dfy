/**
 * The slice of the DOM the adapters' default views act on: inputs with a
 * `checked` flag and a `value`, select elements with their option list, and
 * the events the adapters dispatch. Dispatching an event is recorded by
 * appending it to the element's event log; the handlers it would run are not
 * part of this model.
 */
module Controls {
  import opened Wrappers

  /** The events the default views simulate. */
  datatype DomEvent = Change | Submit | Click

  /** One `<option>` of a select element. */
  datatype SelectOption = SelectOption(value: string, selected: bool)

  /** An `<input>` or `<textarea>`: its type, name and id are fixed, its state is not. */
  class InputElement {
    const inputType: string
    const name: string
    const id: string
    var checked: bool
    var value: string
    var events: seq<DomEvent>

    constructor (inputType: string, name: string, id: string, checked: bool, value: string)
      ensures this.inputType == inputType && this.name == name && this.id == id
      ensures this.checked == checked && this.value == value && events == []
    {
      this.inputType := inputType;
      this.name := name;
      this.id := id;
      this.checked := checked;
      this.value := value;
      events := [];
    }

    /** Dispatches an event at this element. */
    method Dispatch(ev: DomEvent)
      modifies this
      ensures events == old(events) + [ev]
      ensures checked == old(checked) && value == old(value)
    {
      events := events + [ev];
    }
  }

  /** A `<form>` or a `<button>`: only the events dispatched at it are observed. */
  class PlainElement {
    var events: seq<DomEvent>

    constructor ()
      ensures events == []
    {
      events := [];
    }

    method Dispatch(ev: DomEvent)
      modifies this
      ensures events == old(events) + [ev]
    {
      events := events + [ev];
    }
  }

  /** A `<select>` element with its options in document order. */
  class SelectElement {
    var options: seq<SelectOption>
    var events: seq<DomEvent>

    constructor (options: seq<SelectOption>)
      ensures this.options == options && events == []
    {
      this.options := options;
      events := [];
    }

    /** `select.value`: the value of the first selected option, or "" when none is. */
    function Value(): (v: string)
      reads this
      ensures FirstSelected(options).None? ==> v == ""
      ensures FirstSelected(options).Some? ==> v == options[FirstSelected(options).value].value
    {
      match FirstSelected(options)
      case None => ""
      case Some(i) => options[i].value
    }

    /**
     * Assigning `select.selectedIndex = i`: option `i` becomes the only
     * selected option; an index outside the list deselects every option.
     */
    method SetSelectedIndex(i: int)
      modifies this
      ensures options == SelectOnly(old(options), i)
      ensures events == old(events)
    {
      options := SelectOnly(options, i);
    }

    method Dispatch(ev: DomEvent)
      modifies this
      ensures events == old(events) + [ev]
      ensures options == old(options)
    {
      events := events + [ev];
    }
  }

  /** The index of the first selected option, if any: what `selectedIndex` reports. */
  function FirstSelected(opts: seq<SelectOption>): (r: Option<nat>)
    ensures r.Some? ==>
      (r.value < |opts| && opts[r.value].selected && forall j :: 0 <= j < r.value ==> !opts[j].selected)
    ensures r.None? ==> forall j :: 0 <= j < |opts| ==> !opts[j].selected
  {
    if opts == [] then None
    else if opts[0].selected then Some(0)
    else match FirstSelected(opts[1..])
      case None => None
      case Some(i) => Some(i + 1)
  }

  /** The index of the first option whose value is `v`, if any. */
  function FindOption(opts: seq<SelectOption>, v: string): (r: Option<nat>)
    ensures r.Some? ==>
      (r.value < |opts| && opts[r.value].value == v && forall j :: 0 <= j < r.value ==> opts[j].value != v)
    ensures r.None? ==> forall j :: 0 <= j < |opts| ==> opts[j].value != v
  {
    if opts == [] then None
    else if opts[0].value == v then Some(0)
    else match FindOption(opts[1..], v)
      case None => None
      case Some(i) => Some(i + 1)
  }

  /** The options after `selectedIndex = i`. */
  function SelectOnly(opts: seq<SelectOption>, i: int): (r: seq<SelectOption>)
    ensures |r| == |opts|
    ensures forall j :: 0 <= j < |r| ==> r[j].value == opts[j].value && (r[j].selected <==> j == i)
  {
    seq(|opts|, j requires 0 <= j < |opts| => opts[j].(selected := j == i))
  }

  /** The options after marking exactly those whose value is in `vs` as selected. */
  function MarkSelected(opts: seq<SelectOption>, vs: seq<string>): (r: seq<SelectOption>)
    ensures |r| == |opts|
    ensures forall j :: 0 <= j < |r| ==> r[j].value == opts[j].value && (r[j].selected <==> opts[j].value in vs)
  {
    seq(|opts|, j requires 0 <= j < |opts| => opts[j].(selected := opts[j].value in vs))
  }

  /** The values of the selected options, in option order. */
  function SelectedValues(opts: seq<SelectOption>): (r: seq<string>)
    ensures |r| <= |opts|
    ensures forall x :: x in r <==> exists j :: 0 <= j < |opts| && opts[j].selected && opts[j].value == x
  {
    if opts == [] then []
    else
      var rest := SelectedValues(opts[1..]);
      assert forall j :: 1 <= j < |opts| ==> opts[j] == opts[1..][j - 1];
      if opts[0].selected then [opts[0].value] + rest else rest
  }

  /** The selection of a longer option list extends the selection of its prefix. */
  lemma {:induction false} SelectedValuesSnoc(opts: seq<SelectOption>, o: SelectOption)
    ensures SelectedValues(opts + [o]) == SelectedValues(opts) + (if o.selected then [o.value] else [])
  {
    if opts != [] {
      SelectedValuesSnoc(opts[1..], o);
      assert (opts + [o])[1..] == opts[1..] + [o];
    }
  }

  /** The option values that occur in `vs`, in option order. */
  function ValuesIn(opts: seq<SelectOption>, vs: seq<string>): seq<string>
  {
    if opts == [] then []
    else if opts[0].value in vs then [opts[0].value] + ValuesIn(opts[1..], vs)
    else ValuesIn(opts[1..], vs)
  }

  /**
   * After marking by `vs`, the selection is the option values that occur in
   * `vs`, in option order: values of `vs` that name no option are ignored.
   */
  lemma {:induction false} SelectionAfterMark(opts: seq<SelectOption>, vs: seq<string>)
    ensures SelectedValues(MarkSelected(opts, vs)) == ValuesIn(opts, vs)
  {
    if opts != [] {
      SelectionAfterMark(opts[1..], vs);
      assert MarkSelected(opts, vs)[1..] == MarkSelected(opts[1..], vs);
    }
  }

  /** A value is selected after marking by `vs` iff it is in `vs` and some option has it. */
  lemma SelectionAfterMarkMembers(opts: seq<SelectOption>, vs: seq<string>, x: string)
    ensures x in SelectedValues(MarkSelected(opts, vs)) <==>
      x in vs && exists j :: 0 <= j < |opts| && opts[j].value == x
  {
    var m := MarkSelected(opts, vs);
    if x in vs && exists j :: 0 <= j < |opts| && opts[j].value == x {
      var j :| 0 <= j < |opts| && opts[j].value == x;
      assert m[j].selected && m[j].value == x;
    }
  }

  /** Selecting nothing leaves nothing selected. */
  lemma SelectNoneClears(opts: seq<SelectOption>)
    ensures SelectedValues(MarkSelected(opts, [])) == []
  {
    SelectionAfterMark(opts, []);
    ValuesInNone(opts);
  }

  lemma {:induction false} ValuesInNone(opts: seq<SelectOption>)
    ensures ValuesIn(opts, []) == []
  {
    if opts != [] {
      ValuesInNone(opts[1..]);
    }
  }

  /** A second multi-select replaces the first: the earlier selection leaves no trace. */
  lemma MarkReplaces(opts: seq<SelectOption>, us: seq<string>, vs: seq<string>)
    ensures MarkSelected(MarkSelected(opts, us), vs) == MarkSelected(opts, vs)
  {
  }

  /** After `selectedIndex` is set to the first option carrying `v`, `select.value` is `v`. */
  lemma SelectOnlyValue(opts: seq<SelectOption>, v: string)
    requires FindOption(opts, v).Some?
    ensures var r := SelectOnly(opts, FindOption(opts, v).value);
      FirstSelected(r) == FindOption(opts, v) && r[FindOption(opts, v).value].value == v
  {
    var i := FindOption(opts, v).value;
    var r := SelectOnly(opts, i);
    assert r[i].selected;
    var first := FirstSelected(r);
    assert first.Some?;
    var k := first.value;
    assert !(k < i) && !(i < k);
  }

  /** Strictly increasing: every index occurs once, in list order. */
  ghost predicate Ascending(r: seq<nat>)
  {
    forall k, l :: 0 <= k < l < |r| ==> r[k] < r[l]
  }

  lemma AscendingSnoc(r: seq<nat>, n: nat)
    requires Ascending(r) && forall k :: 0 <= k < |r| ==> r[k] < n
    ensures Ascending(r + [n])
  {
    var s := r + [n];
    forall k, l | 0 <= k < l < |s|
      ensures s[k] < s[l]
    {
      assert s[k] == r[k];
    }
  }
}
