/** lib/gglib/widgets/button.rb: the pressed state a Button's own handlers keep, and
    where its icon is placed when the button draws. */
module Button {
  import opened Base
  import opened Events
  import opened Widgets
  import Window

  /** `@down`, the `@dirty` mark the handlers set, and whether a `:blur` handler was
      installed (the constructor's `draggable` argument was false). */
  datatype ButtonState = ButtonState(down: bool, dirty: bool, releasesOnBlur: bool)

  /** The state the constructor body sets up: not down, not yet marked dirty. */
  function NewButton(draggable: bool): (b: ButtonState)
    ensures !Down(b) && !b.dirty && b.releasesOnBlur == !draggable
  {
    ButtonState(false, false, !draggable)
  }

  /** `down?`. */
  predicate Down(b: ButtonState) {
    b.down
  }

  /** The modifier list of the `:mouse_down` and `:mouse_up` handlers. */
  const LeftOnly: Subscription := Subscription(0, [Symbol("left")])

  datatype Reacted = Reacted(window: Window.Main, button: ButtonState)

  /** The Button's handlers for an event signalled on button `id` of window `m`: a left
      `:mouse_down` presses it; a left `:mouse_up` releases and deactivates it; `:blur`
      releases and deactivates it only when it was installed and the button is down.
      Anything else leaves both unchanged. */
  function React(m: Window.Main, id: Id, b: ButtonState, event: Sym, args: seq<Value>): (r: Reacted)
    ensures event == "mouse_down" && Fires(LeftOnly, args) ==> r == Reacted(m, b.(down := true, dirty := true))
    ensures event == "mouse_up" && Fires(LeftOnly, args) ==>
      !Down(r.button) && r.button.dirty && r.window == Window.Deactivate(m, id).window
    ensures event == "blur" && b.releasesOnBlur && Down(b) ==>
      !Down(r.button) && r.button.dirty && r.window == Window.Deactivate(m, id).window
    ensures event == "blur" && !(b.releasesOnBlur && Down(b)) ==> r == Reacted(m, b)
    ensures event != "mouse_down" && event != "mouse_up" && event != "blur" ==> r == Reacted(m, b)
    ensures r.button.releasesOnBlur == b.releasesOnBlur
  {
    if event == "mouse_down" && Fires(LeftOnly, args) then Reacted(m, b.(down := true, dirty := true))
    else if event == "mouse_up" && Fires(LeftOnly, args) then
      Reacted(Window.Deactivate(m, id).window, b.(down := false, dirty := true))
    else if event == "blur" && b.releasesOnBlur && b.down then
      Reacted(Window.Deactivate(m, id).window, b.(down := false, dirty := true))
    else Reacted(m, b)
  }

  /** The middle and right buttons, which signal without the `:left` modifier, never
      press or release a Button. */
  lemma OtherMouseButtonsIgnored(m: Window.Main, id: Id, b: ButtonState, event: Sym, side: Sym, x: int, y: int)
    requires side != "left" && (event == "mouse_down" || event == "mouse_up")
    ensures React(m, id, b, event, [Symbol(side)]) == Reacted(m, b)
    ensures React(m, id, b, event, [Symbol(side), Int(x), Int(y)]) == Reacted(m, b)
  {
    assert Symbol("left") in LeftOnly.modifiers;
  }

  /** A left press on a focused, activatable Button makes it active and down; the release
      that follows leaves it up and hands activity back to the window. */
  lemma PressAndRelease(m: Window.Main, id: Id, b: ButtonState)
    requires m.focused == id && id in m.store && m.store[id].flags.activatable && id != m.self
    ensures var pressed := Window.ButtonDown(m, "mouse_left");
            var r1 := React(pressed, id, b, "mouse_down", [Symbol("left"), Int(m.cursor.x), Int(m.cursor.y)]);
            var r2 := React(r1.window, id, r1.button, "mouse_up", [Symbol("left"), Int(m.cursor.x), Int(m.cursor.y)]);
            && Down(r1.button) && Window.Active(r1.window, id)
            && !Down(r2.button) && Window.Active(r2.window, m.self)
  {
    assert forall v :: v in LeftOnly.modifiers ==> v == Symbol("left");
  }

  /** A Button built as draggable keeps its pressed state when it loses focus; any other
      is released by the blur. */
  lemma BlurReleasesUnlessDraggable(m: Window.Main, id: Id, draggable: bool)
    ensures var b := NewButton(draggable).(down := true);
            Down(React(m, id, b, "blur", []).button) == draggable
  {
  }

  // ---------------------------------------------------------------- the icon

  /** Where `draw` moves the icon: the button's corner plus half the spare room on each
      axis, rounded down (Ruby's integer division floors). */
  function IconOrigin(button: Widget, iconWidth: int, iconHeight: int): (o: (int, int))
    ensures var d := 2 * (o.0 - button.frame.x1) - (Width(button) - iconWidth); d == 0 || d == -1
    ensures var d := 2 * (o.1 - button.frame.y1) - (Height(button) - iconHeight); d == 0 || d == -1
  {
    (button.frame.x1 + (Width(button) - iconWidth) / 2, button.frame.y1 + (Height(button) - iconHeight) / 2)
  }

  /** `draw`'s icon step: an icon that needs redrawing is moved to the centre of the
      button; the icon is otherwise left where it is. */
  function PlaceIcon(button: Widget, icon: Option<Widget>): (r: Option<Widget>)
    ensures r.Some? <==> icon.Some?
    ensures icon.Some? && !icon.value.tracker.damaged ==> r == icon
    ensures icon.Some? && icon.value.tracker.damaged ==>
      (r.value.frame.x1, r.value.frame.y1) == IconOrigin(button, Width(icon.value), Height(icon.value))
      && Width(r.value) == Width(icon.value) && Height(r.value) == Height(icon.value)
  {
    if icon.Some? && icon.value.tracker.damaged then
      var o := IconOrigin(button, Width(icon.value), Height(icon.value));
      Some(Move(icon.value, o.0, o.1))
    else icon
  }

  /** A centred icon leaves equal margins on both sides, or one pixel more on the right
      (below) when the spare room is odd; an icon that fits stays inside the button. */
  lemma IconIsCentred(button: Widget, icon: Widget)
    requires icon.tracker.damaged
    ensures var i := PlaceIcon(button, Some(icon)).value;
            var left := i.frame.x1 - button.frame.x1;
            var right := button.frame.x2 - i.frame.x2;
            var top := i.frame.y1 - button.frame.y1;
            var bottom := button.frame.y2 - i.frame.y2;
            && (right == left || right == left + 1)
            && (bottom == top || bottom == top + 1)
            && (Width(icon) <= Width(button) ==> 0 <= left && 0 <= right)
            && (Height(icon) <= Height(button) ==> 0 <= top && 0 <= bottom)
  {
  }
}
