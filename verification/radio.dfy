/** lib/gglib/widgets/radio.rb: RadioButtons and the RadioGroup that keeps one of them
    checked. */
module Radio {
  import opened Base
  import opened Volatile

  /** A RadioButton's text, its value, and `checked` behind its volatile setter. */
  datatype RadioButton = RadioButton(text: string, value: string, checked: bool, tracker: Tracker)

  /** `RadioButton.new(text, value)` on top of the widget tracker `t`: unchecked, with the
      value defaulting to the text. */
  function NewRadioButton(t: Tracker, text: string, value: Option<string>): (b: RadioButton)
    ensures !b.checked && b.text == text && b.tracker == t
    ensures b.value == (if value.Some? then value.value else text)
  {
    RadioButton(text, if value.Some? then value.value else text, false, t)
  }

  /** `checked=` through `attr_volatile`: damages `:checked` only when the value changes. */
  function SetChecked(b: RadioButton, v: bool): (r: RadioButton)
    ensures r.checked == v && r.text == b.text && r.value == b.value
    ensures v == b.checked ==> r == b
    ensures v != b.checked && Valid(b.tracker) && Outside(b.tracker) ==>
      r.tracker.published == b.tracker.published + [Modified(Symbol("checked"))]
  {
    var a := AssignVolatile(b.tracker, b.checked, v, "checked", false);
    b.(checked := a.value, tracker := a.tracker)
  }

  /** A child of the group: a RadioButton or any other widget. */
  datatype Child = Choice(button: RadioButton) | Other

  /** The group's children and the index of `@checked_button` among them. */
  datatype RadioGroup = RadioGroup(children: seq<Child>, checked: Option<nat>)

  /** `@checked_button` refers to one of the group's RadioButtons. */
  predicate Wf(g: RadioGroup) {
    g.checked.Some? ==> g.checked.value < |g.children| && g.children[g.checked.value].Choice?
  }

  /** The group's invariant: the recorded button is checked and no other one is. */
  predicate Consistent(g: RadioGroup) {
    && Wf(g)
    && (g.checked.Some? ==> g.children[g.checked.value].button.checked)
    && forall k :: 0 <= k < |g.children| && Checked(g, k) ==> g.checked == Some(k)
  }

  /** `value`: the checked button's text, nil when none is recorded. */
  function Value(g: RadioGroup): (r: Option<string>)
    requires Wf(g)
    ensures r.Some? <==> g.checked.Some?
    ensures r.Some? ==> r.value == g.children[g.checked.value].button.text
  {
    if g.checked.Some? then Some(g.children[g.checked.value].button.text) else None
  }

  /** Child `k` is a checked RadioButton. */
  predicate Checked(g: RadioGroup, k: int) {
    0 <= k < |g.children| && g.children[k].Choice? && g.children[k].button.checked
  }

  /** Child `k` is a RadioButton showing `v`. */
  predicate Shows(g: RadioGroup, k: nat, v: string) {
    k < |g.children| && g.children[k].Choice? && g.children[k].button.text == v
  }

  /** The first child showing `v`, from index `from` on. */
  function FirstShowing(g: RadioGroup, v: string, from: nat): (r: Option<nat>)
    ensures r.Some? ==> from <= r.value && Shows(g, r.value, v)
    ensures r.Some? ==> forall k :: from <= k < r.value ==> !Shows(g, k, v)
    ensures r.None? ==> forall k :: from <= k < |g.children| ==> !Shows(g, k, v)
    decreases |g.children| - from
  {
    if from >= |g.children| then None
    else if Shows(g, from, v) then Some(from)
    else FirstShowing(g, v, from + 1)
  }

  datatype Chosen = Chosen(group: RadioGroup, ret: Option<string>)

  /** `value=(v)`: the first RadioButton child whose text is `v` is checked, after the
      previously recorded one is unchecked, and becomes the recorded one; `v` is returned.
      With no such child nothing changes and nil is returned. */
  function SetValue(g: RadioGroup, v: string): (r: Chosen)
    requires Wf(g)
    ensures Wf(r.group) && |r.group.children| == |g.children|
    ensures FirstShowing(g, v, 0).None? ==> r == Chosen(g, None)
    ensures FirstShowing(g, v, 0).Some? ==>
      && r.ret == Some(v) && r.group.checked == FirstShowing(g, v, 0)
      && Value(r.group) == Some(v)
  {
    match FirstShowing(g, v, 0)
    case None => Chosen(g, None)
    case Some(i) =>
      var kids := if g.checked.Some?
        then g.children[g.checked.value := Choice(SetChecked(g.children[g.checked.value].button, false))]
        else g.children;
      var kids' := kids[i := Choice(SetChecked(kids[i].button, true))];
      Chosen(RadioGroup(kids', Some(i)), Some(kids'[i].button.text))
  }

  /** `value=` keeps the group consistent: whatever was checked before, exactly the
      recorded button is checked afterwards, and every child keeps its text and value. */
  lemma SetValueKeepsConsistent(g: RadioGroup, v: string)
    requires Consistent(g)
    ensures Consistent(SetValue(g, v).group)
    ensures forall k :: 0 <= k < |g.children| ==>
      SetValue(g, v).group.children[k].Choice? == g.children[k].Choice?
      && (g.children[k].Choice? ==>
            SetValue(g, v).group.children[k].button.text == g.children[k].button.text
            && SetValue(g, v).group.children[k].button.value == g.children[k].button.value)
  {
  }

  /** A group with nothing checked is consistent, so any sequence of `value=` on it
      leaves at most one button checked. */
  lemma {:induction false} AtMostOneChecked(g: RadioGroup, vs: seq<string>)
    requires g.checked.None? && forall k :: 0 <= k < |g.children| ==> !Checked(g, k)
    ensures Consistent(SetValues(g, vs))
    ensures forall j, k :: Checked(SetValues(g, vs), j) && Checked(SetValues(g, vs), k) ==> j == k
  {
    SetValuesKeepsConsistent(g, vs);
  }

  /** `value=` applied with each of `vs` in turn. */
  function SetValues(g: RadioGroup, vs: seq<string>): (r: RadioGroup)
    requires Wf(g)
    ensures Wf(r)
    decreases |vs|
  {
    if vs == [] then g else SetValues(SetValue(g, vs[0]).group, vs[1..])
  }

  lemma {:induction false} SetValuesKeepsConsistent(g: RadioGroup, vs: seq<string>)
    requires Consistent(g)
    ensures Consistent(SetValues(g, vs))
    decreases |vs|
  {
    if vs != [] {
      SetValueKeepsConsistent(g, vs[0]);
      SetValuesKeepsConsistent(SetValue(g, vs[0]).group, vs[1..]);
    }
  }

  /** Choosing a value that no RadioButton shows keeps the previous choice. */
  lemma UnknownValueKeepsChoice(g: RadioGroup, v: string)
    requires Wf(g) && forall k :: 0 <= k < |g.children| ==> !Shows(g, k, v)
    ensures SetValue(g, v) == Chosen(g, None)
    ensures Value(SetValue(g, v).group) == Value(g)
  {
  }
}
