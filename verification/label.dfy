/** lib/gglib/widgets/label.rb: a Label that passes the focus, and clicks, to the widget
    that owns it. The focus hand-off runs inside the window's `set_focused_widget`, so the
    order in which that method notifies and assigns decides who ends up focused. */
module Label {
  import opened Base
  import opened Widgets
  import Window

  /** A Label's text and `@owner`. */
  datatype LabelState = LabelState(text: string, owner: Option<Id>)

  /** `Label.new(text)`: no owner yet. */
  function NewLabel(text: string): (l: LabelState)
    ensures l.text == text && l.owner.None?
  {
    LabelState(text, None)
  }

  /** `set_owner(widget)`. */
  function SetOwner(l: LabelState, w: Id): (r: LabelState)
    ensures r.owner == Some(w) && r.text == l.text
  {
    l.(owner := Some(w))
  }

  /** `unset_owner(widget)`: forgets the owner only when it is `widget`. */
  function UnsetOwner(l: LabelState, w: Id): (r: LabelState)
    ensures l.owner == Some(w) ==> r.owner.None?
    ensures l.owner != Some(w) ==> r == l
    ensures r.text == l.text
  {
    if l.owner == Some(w) then l.(owner := None) else l
  }

  /** Unsetting the owner that was set undoes it; unsetting any other widget is ignored. */
  lemma OwnerRoundTrip(l: LabelState, w: Id, v: Id)
    ensures UnsetOwner(SetOwner(l, w), w) == l.(owner := None)
    ensures v != w ==> UnsetOwner(SetOwner(l, w), v) == SetOwner(l, w)
  {
  }

  /** The body of both the `:focus` and the `:click` handler: the owner, if any, takes
      the focus. */
  function Handler(m: Window.Main, l: LabelState): (r: Window.Main)
    ensures l.owner.Some? ==> Window.Focused(r, l.owner.value)
    ensures l.owner.None? ==> r == m
  {
    if l.owner.Some? then Window.Focus(m, l.owner.value).window else m
  }

  /** The `:focus` handler run inside `set_focused_widget(label)` as written: the old focus
      and then the label are notified; the handler's `owner.focus` sees the old focus still
      in the slot, so it refocuses the owner unless the owner was the old focus; and then
      the outer call stores the label in the slot, over the owner. (A label that owns
      itself would re-enter without end.) */
  function FocusAsWritten(m: Window.Main, id: Id, l: LabelState): (r: Window.Main)
    requires !Window.Focused(m, id) && l.owner != Some(id)
    ensures Window.Focused(r, id)
    ensures l.owner.Some? && l.owner.value != m.focused ==>
      r.sent == m.sent + [Window.Sent(m.focused, BlurNotice), Window.Sent(id, FocusNotice),
                          Window.Sent(m.focused, BlurNotice), Window.Sent(l.owner.value, FocusNotice)]
    ensures l.owner.None? || l.owner.value == m.focused ==>
      r.sent == m.sent + [Window.Sent(m.focused, BlurNotice), Window.Sent(id, FocusNotice)]
  {
    var notified := m.(store := Window.NotifyIn(Window.NotifyIn(m.store, m.focused, BlurNotice), id, FocusNotice),
                       sent := m.sent + [Window.Sent(m.focused, BlurNotice), Window.Sent(id, FocusNotice)]);
    var handled := Handler(notified, l);
    handled.(focused := id)
  }

  /** `set_focused_widget` with the slot assigned before the callbacks, so that a handler
      that moves the focus on sees the new focus and has the last word. */
  function SetFocusedFirst(m: Window.Main, w: Id): (r: Window.Main)
    ensures Window.Focused(r, w)
    ensures r.sent == m.sent + [Window.Sent(m.focused, BlurNotice), Window.Sent(w, FocusNotice)]
    ensures r.store == Window.SetFocusedWidget(m, w).store
  {
    var slot := m.(focused := w);
    slot.(store := Window.NotifyIn(Window.NotifyIn(m.store, m.focused, BlurNotice), w, FocusNotice),
          sent := m.sent + [Window.Sent(m.focused, BlurNotice), Window.Sent(w, FocusNotice)])
  }

  /** Focusing a label through the corrected `set_focused_widget`: the label takes the
      slot, its handler then finds the owner unfocused and moves the focus on to it. A
      label without an owner keeps the focus. */
  function Focus(m: Window.Main, id: Id, l: LabelState): (r: Window.Main)
    requires !Window.Focused(m, id)
    ensures l.owner.Some? ==> Window.Focused(r, l.owner.value)
    ensures l.owner.None? ==> Window.Focused(r, id)
    ensures l.owner.Some? && l.owner.value != id ==>
      r.sent == m.sent + [Window.Sent(m.focused, BlurNotice), Window.Sent(id, FocusNotice),
                          Window.Sent(id, BlurNotice), Window.Sent(l.owner.value, FocusNotice)]
  {
    var slot := SetFocusedFirst(m, id);
    if l.owner.Some? && !Window.Focused(slot, l.owner.value) then SetFocusedFirst(slot, l.owner.value) else slot
  }

  /** The hand-off as written leaves the label, not its owner, in the focus slot, even
      though the last focus callback went to the owner; after the correction the owner
      holds the focus, as the handler run on its own (a click) gives it. */
  lemma {:induction false} FocusHandOffLost(m: Window.Main, id: Id, owner: Id)
    requires !Window.Focused(m, id) && owner != id && owner != m.focused
    ensures var r := FocusAsWritten(m, id, SetOwner(NewLabel(""), owner));
            && Window.Focused(r, id) && !Window.Focused(r, owner)
            && r.sent[|r.sent| - 1] == Window.Sent(owner, FocusNotice)
    ensures var l := SetOwner(NewLabel(""), owner);
            Focus(m, id, l).focused == owner == Handler(m, l).focused
  {
    var l := SetOwner(NewLabel(""), owner);
    var r := FocusAsWritten(m, id, l);
    assert r.sent[|r.sent| - 1] == Window.Sent(owner, FocusNotice);
  }
}
