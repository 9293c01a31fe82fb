/** lib/gglib/mouse.rb: the Cursor the MainWindow owns, with its flags and the
    half-open hit test used by focus resolution. */
module Mouse {
  import opened Base

  /** A Cursor and the window that owns it. */
  datatype Cursor = Cursor(window: Id, x: int, y: int, enabled: bool, visible: bool, useSystemCursor: bool)

  /** `Cursor.new(window)`: enabled, visible, at the origin, remembering its window, and
      drawn by its own renderer. */
  function NewCursor(window: Id): (c: Cursor)
    ensures c.window == window
    ensures c.enabled && c.visible && c.x == 0 && c.y == 0 && !c.useSystemCursor
  {
    Cursor(window, 0, 0, true, true, false)
  }

  /** The cursor's `x1`/`x2` are both aliases of `x`, and `width` is the constant 0. */
  function Width(c: Cursor): int {
    0
  }

  /** The cursor's `y1`/`y2` are both aliases of `y`, and `height` is the constant 0. */
  function Height(c: Cursor): int {
    0
  }

  function Enable(c: Cursor): (r: Cursor)
    ensures r.enabled && !Disabled(r) && r.(enabled := c.enabled) == c
  {
    c.(enabled := true)
  }

  function Disable(c: Cursor): (r: Cursor)
    ensures !r.enabled && Disabled(r) && r.(enabled := c.enabled) == c
  {
    c.(enabled := false)
  }

  /** `disabled?` */
  predicate Disabled(c: Cursor) {
    !c.enabled
  }

  /** `disabled=(value)` */
  function SetDisabled(c: Cursor, v: bool): (r: Cursor)
    ensures Disabled(r) == v && r.(enabled := c.enabled) == c
  {
    c.(enabled := !v)
  }

  function Hide(c: Cursor): (r: Cursor)
    ensures !r.visible && r.(visible := c.visible) == c
  {
    c.(visible := false)
  }

  function Show(c: Cursor): (r: Cursor)
    ensures r.visible && r.(visible := c.visible) == c
  {
    c.(visible := true)
  }

  /** `hidden=(value)` as written: it negates the never-assigned `@value`, which is
      nil, so the cursor always ends up visible. */
  function SetHiddenAsWritten(c: Cursor, v: bool): (r: Cursor)
    ensures r.visible && r.(visible := c.visible) == c
  {
    c.(visible := !false)
  }

  /** `hidden=(value)` as evidently intended: the opposite of `value`. */
  function SetHidden(c: Cursor, v: bool): (r: Cursor)
    ensures r.visible == !v && r.(visible := c.visible) == c
  {
    c.(visible := !v)
  }

  /** Setting `hidden = true` as written leaves a visible cursor visible. */
  lemma SetHiddenAsWrittenDoesNotHide(c: Cursor)
    ensures SetHiddenAsWritten(c, true).visible
    ensures !SetHidden(c, true).visible
  {
  }

  /** `move(x, y)` as written reads an undefined local `value`, so every call raises. */
  function MoveAsWritten(c: Cursor, x: int, y: int): (r: Result<Cursor>)
    ensures r == Err(NameError)
  {
    Err(NameError)
  }

  /** `move(x, y)` as evidently intended: the cursor goes to `(x, y)`. */
  function Move(c: Cursor, x: int, y: int): (r: Result<Cursor>)
    ensures r.Ok? && r.value.x == x && r.value.y == y
    ensures r.value.(x := c.x, y := c.y) == c
  {
    Ok(c.(x := x, y := y))
  }

  /** `over?(widget)` for a widget spanning `(x1, y1)`-`(x2, y2)`. */
  function Over(c: Cursor, x1: int, y1: int, x2: int, y2: int): (hit: bool)
    ensures hit ==> x1 < x2 && y1 < y2
    ensures hit <==> x1 <= c.x < x2 && y1 <= c.y < y2
  {
    !(c.x < x1 || c.x >= x2 || c.y < y1 || c.y >= y2)
  }

  /** The hit test is half-open: the left and top edges hit, the right and bottom miss. */
  lemma OverIsHalfOpen(c: Cursor, x1: int, y1: int, x2: int, y2: int)
    ensures Over(c, x1, y1, x2, y2) <==> x1 <= c.x < x2 && y1 <= c.y < y2
    ensures x1 < x2 && y1 < y2 ==> Over(c.(x := x1, y := y1), x1, y1, x2, y2)
    ensures !Over(c.(x := x2), x1, y1, x2, y2) && !Over(c.(y := y2), x1, y1, x2, y2)
  {
  }

  /** The flag setters agree with each other: `disabled=` and `hidden=` (as evidently
      intended) choose between the two plain setters, and each plain setter undoes the
      other. */
  lemma FlagSettersAgree(c: Cursor, v: bool)
    ensures SetDisabled(c, v) == (if v then Disable(c) else Enable(c))
    ensures SetHidden(c, v) == (if v then Hide(c) else Show(c))
    ensures c.visible ==> Show(Hide(c)) == c
    ensures !c.visible ==> Hide(Show(c)) == c
    ensures c.enabled ==> Enable(Disable(c)) == c
    ensures !c.enabled ==> Disable(Enable(c)) == c
  {
  }

  /** A widget without width or without height is never under the cursor. */
  lemma EmptyWidgetNeverHit(c: Cursor, x1: int, y1: int, x2: int, y2: int)
    requires x1 == x2 || y1 == y2
    ensures !Over(c, x1, y1, x2, y2)
  {
  }
}
