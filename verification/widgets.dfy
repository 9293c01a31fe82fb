/** lib/gglib/widget.rb: a widget's box and flags, the damage each setter raises
    through its `attr_volatile` wrapper, drawing, and attaching to a container. */
module Widgets {
  import opened Base
  import opened Events
  import opened Volatile
  import opened Styles
  import Primitives
  import Themes

  /** What sort of widget this is: a plain Widget, a Container with its ordered
      children and `auto_z_order`, or a CompoundWidget around its internal container. */
  datatype Kind =
    | Plain
    | Box(children: seq<Id>, autoZ: bool)
    | Compound(inner: Id, autoSizeInner: bool)

  /** The widget's corners and its two auto-size flags. */
  datatype Frame = Frame(x1: int, y1: int, x2: int, y2: int, autoWidth: bool, autoHeight: bool)

  /** The widget's boolean attributes; `throttle` is `throttle_render`. */
  datatype Flags = Flags(enabled: bool, visible: bool, activatable: bool, draggable: bool,
    floating: bool, throttle: bool)

  /** The parts of a widget's WidgetStyle that layouts and clipping read. */
  datatype Look = Look(margin: Edges, padding: Edges, hOverflow: Overflow, vOverflow: Overflow)

  /** A widget's state; `style` holds its drawing source. */
  datatype Widget = Widget(
    frame: Frame, z: real, flags: Flags, look: Look,
    parent: Option<Id>, window: Option<Id>,
    style: Style, events: Table, tracker: Tracker, kind: Kind)

  /** `Widget#initialize` for the object `id`: an empty box at the origin, enabled,
      visible, activatable, auto-sized and throttled, in the default window. Assigning the
      default style goes through the volatile `style=` wrapper, so the widget starts
      damaged with one `:modified, :style` published. */
  function NewWidget(id: Id, defaultWindow: Option<Id>, kind: Kind): (w: Widget)
    ensures w.frame.x1 == 0 && w.frame.y1 == 0 && w.frame.x2 == 0 && w.frame.y2 == 0 && w.z == 0.0
    ensures w.flags.enabled && w.flags.visible && w.flags.activatable && !w.flags.draggable && !w.flags.floating && w.flags.throttle
    ensures w.frame.autoWidth && w.frame.autoHeight
    ensures w.parent.None? && w.window == defaultWindow && w.style.widget == Some(id)
    ensures w.look.margin == DefaultMargin && w.look.padding == DefaultPadding
    ensures w.look.hOverflow == OverflowAuto && w.look.vOverflow == OverflowAuto
    ensures Valid(w.tracker) && Outside(w.tracker) && w.tracker.damaged
    ensures w.tracker.published == [Modified(Symbol("style"))]
  {
    Widget(Frame(0, 0, 0, 0, true, true), 0.0, Flags(true, true, true, false, false, true),
      Look(DefaultMargin, DefaultPadding, OverflowAuto, OverflowAuto), None, defaultWindow,
      NewStyle().(widget := Some(id)), map[], Damage(Initial, Symbol("style")).tracker, kind)
  }

  // ---------------------------------------------------------------- damage bookkeeping

  /** How an operation touched a tracker, given the `:modified` events it raises through
      `damage`: the scope is unchanged; outside both scopes exactly those events were
      published, inside a scope none was; and the flag was set exactly when some damage
      happened while flagging was on. */
  predicate Reports(t: Tracker, u: Tracker, events: seq<Published>) {
    && SameScope(t, u)
    && (Valid(t) && Outside(t) ==> u.published == t.published + events)
    && (Valid(t) && !Outside(t) ==> u.published == t.published)
    && u.damaged == (t.damaged || (t.setDamage && events != []))
  }

  /** Two reported operations in a row report the concatenation of their events. */
  lemma ReportsCompose(t: Tracker, u: Tracker, v: Tracker, e1: seq<Published>, e2: seq<Published>)
    requires Reports(t, u, e1) && Reports(u, v, e2)
    ensures Reports(t, v, e1 + e2)
  {
  }

  /** `damage(region)` on the widget. */
  function Mark(w: Widget, region: Sym): (r: Widget)
    ensures r.(tracker := w.tracker) == w
    ensures Reports(w.tracker, r.tracker, [Modified(Symbol(region))])
  {
    w.(tracker := Damage(w.tracker, Symbol(region)).tracker)
  }

  // ---------------------------------------------------------------- geometry

  function Bounds(w: Widget): Primitives.Rect {
    Primitives.Rect(w.frame.x1, w.frame.y1, w.frame.x2, w.frame.y2)
  }

  /** `width`: `x2 - x1`. */
  function Width(w: Widget): int {
    Primitives.Width(Bounds(w))
  }

  /** `height`: `y2 - y1`. */
  function Height(w: Widget): int {
    Primitives.Height(Bounds(w))
  }

  /** Everything but the box, the auto-size flags and the tracker is as in `w`. */
  predicate OnlyBoxChanged(w: Widget, r: Widget) {
    r.(frame := w.frame, tracker := w.tracker) == w
  }

  /** `auto_size?`: both axes auto-sized. */
  predicate AutoSize(w: Widget) {
    w.frame.autoWidth && w.frame.autoHeight
  }

  /** `auto_size_width=` behind its volatile wrapper. */
  function SetAutoSizeWidth(w: Widget, v: bool): (r: Widget)
    ensures r.frame.autoWidth == v
    ensures r.frame.(autoWidth := w.frame.autoWidth) == w.frame && OnlyBoxChanged(w, r)
    ensures Reports(w.tracker, r.tracker, if v == w.frame.autoWidth then [] else [Modified(Symbol("auto_size_width"))])
  {
    if v == w.frame.autoWidth then w else Mark(w, "auto_size_width").(frame := w.frame.(autoWidth := v))
  }

  /** `auto_size_height=` behind its volatile wrapper. */
  function SetAutoSizeHeight(w: Widget, v: bool): (r: Widget)
    ensures r.frame.autoHeight == v
    ensures r.frame.(autoHeight := w.frame.autoHeight) == w.frame && OnlyBoxChanged(w, r)
    ensures Reports(w.tracker, r.tracker, if v == w.frame.autoHeight then [] else [Modified(Symbol("auto_size_height"))])
  {
    if v == w.frame.autoHeight then w else Mark(w, "auto_size_height").(frame := w.frame.(autoHeight := v))
  }

  /** `auto_size=(value)`: its wrapper compares against an `@auto_size` that is never
      assigned, so it always damages; both axes take the value. */
  function SetAutoSize(w: Widget, v: bool): (r: Widget)
    ensures AutoSize(r) == v && r.frame.autoWidth == v && r.frame.autoHeight == v
    ensures OnlyBoxChanged(w, r) && Bounds(r) == Bounds(w)
    ensures Reports(w.tracker, r.tracker, [Modified(Symbol("auto_size"))])
  {
    Mark(w, "auto_size").(frame := w.frame.(autoWidth := v, autoHeight := v))
  }

  /** `auto_size=` reaches the same widget as `auto_size_width=` followed by
      `auto_size_height=`, but reports a single `:auto_size` where the axis setters
      report each axis that changed. */
  lemma AutoSizeMatchesAxisSetters(w: Widget, v: bool)
    ensures var pair := SetAutoSizeHeight(SetAutoSizeWidth(w, v), v);
            SetAutoSize(w, v).(tracker := pair.tracker) == pair
    ensures Reports(w.tracker, SetAutoSizeHeight(SetAutoSizeWidth(w, v), v).tracker,
              (if v == w.frame.autoWidth then [] else [Modified(Symbol("auto_size_width"))])
              + (if v == w.frame.autoHeight then [] else [Modified(Symbol("auto_size_height"))]))
    ensures Reports(w.tracker, SetAutoSize(w, v).tracker, [Modified(Symbol("auto_size"))])
  {
    var a := SetAutoSizeWidth(w, v);
    ReportsCompose(w.tracker, a.tracker, SetAutoSizeHeight(a, v).tracker,
      if v == w.frame.autoWidth then [] else [Modified(Symbol("auto_size_width"))],
      if v == a.frame.autoHeight then [] else [Modified(Symbol("auto_size_height"))]);
  }

  /** `x=(value)`: a translation. The wrapper compares against the never-assigned `@x`,
      so it always damages `:x`; the auto-size flags are not touched. */
  function SetX(w: Widget, v: int): (r: Widget)
    ensures r.frame.x1 == v && Width(r) == Width(w)
    ensures r.frame.y1 == w.frame.y1 && r.frame.y2 == w.frame.y2
    ensures r.frame.autoWidth == w.frame.autoWidth && r.frame.autoHeight == w.frame.autoHeight && OnlyBoxChanged(w, r)
    ensures Reports(w.tracker, r.tracker, [Modified(Symbol("x"))])
  {
    Mark(w, "x").(frame := w.frame.(x1 := v, x2 := v + (w.frame.x2 - w.frame.x1)))
  }

  /** `y=(value)`: a translation, as `x=`. */
  function SetY(w: Widget, v: int): (r: Widget)
    ensures r.frame.y1 == v && Height(r) == Height(w)
    ensures r.frame.x1 == w.frame.x1 && r.frame.x2 == w.frame.x2
    ensures r.frame.autoWidth == w.frame.autoWidth && r.frame.autoHeight == w.frame.autoHeight && OnlyBoxChanged(w, r)
    ensures Reports(w.tracker, r.tracker, [Modified(Symbol("y"))])
  {
    Mark(w, "y").(frame := w.frame.(y1 := v, y2 := v + (w.frame.y2 - w.frame.y1)))
  }

  /** `move(x, y)` with the z order left out (the wrapper sees an unchanged z). */
  function Move(w: Widget, x: int, y: int): (r: Widget)
    ensures r.frame.x1 == x && r.frame.y1 == y && Width(r) == Width(w) && Height(r) == Height(w)
    ensures r.frame.autoWidth == w.frame.autoWidth && r.frame.autoHeight == w.frame.autoHeight && OnlyBoxChanged(w, r)
    ensures Reports(w.tracker, r.tracker, [Modified(Symbol("x")), Modified(Symbol("y"))])
  {
    SetY(SetX(w, x), y)
  }

  /** `width=(value)`: always damages `:width` (its wrapper compares against the
      never-assigned `@width`), turns width auto-sizing off and keeps `x1`. */
  function SetWidth(w: Widget, v: int): (r: Widget)
    ensures Width(r) == v && r.frame.x1 == w.frame.x1 && !r.frame.autoWidth
    ensures r.frame.y1 == w.frame.y1 && r.frame.y2 == w.frame.y2 && r.frame.autoHeight == w.frame.autoHeight && OnlyBoxChanged(w, r)
    ensures Reports(w.tracker, r.tracker,
      [Modified(Symbol("width"))] + (if w.frame.autoWidth then [Modified(Symbol("auto_size_width"))] else []))
  {
    var m := Mark(w, "width");
    var a := SetAutoSizeWidth(m, false);
    ReportsCompose(w.tracker, m.tracker, a.tracker, [Modified(Symbol("width"))],
      if w.frame.autoWidth then [Modified(Symbol("auto_size_width"))] else []);
    a.(frame := a.frame.(x2 := a.frame.x1 + v))
  }

  /** `height=(value)`, as `width=` on the other axis. */
  function SetHeight(w: Widget, v: int): (r: Widget)
    ensures Height(r) == v && r.frame.y1 == w.frame.y1 && !r.frame.autoHeight
    ensures r.frame.x1 == w.frame.x1 && r.frame.x2 == w.frame.x2 && r.frame.autoWidth == w.frame.autoWidth && OnlyBoxChanged(w, r)
    ensures Reports(w.tracker, r.tracker,
      [Modified(Symbol("height"))] + (if w.frame.autoHeight then [Modified(Symbol("auto_size_height"))] else []))
  {
    var m := Mark(w, "height");
    var a := SetAutoSizeHeight(m, false);
    ReportsCompose(w.tracker, m.tracker, a.tracker, [Modified(Symbol("height"))],
      if w.frame.autoHeight then [Modified(Symbol("auto_size_height"))] else []);
    a.(frame := a.frame.(y2 := a.frame.y1 + v))
  }

  /** `resize(width, height)`. */
  function Resize(w: Widget, width: int, height: int): (r: Widget)
    ensures Width(r) == width && Height(r) == height && r.frame.x1 == w.frame.x1 && r.frame.y1 == w.frame.y1
    ensures !r.frame.autoWidth && !r.frame.autoHeight && OnlyBoxChanged(w, r)
  {
    SetHeight(SetWidth(w, width), height)
  }

  /** Translating and resizing touch different things: moving keeps the size and the
      auto-size flags, resizing keeps the corner and turns auto-sizing off, and the two
      commute on the box. */
  lemma MoveAndResizeCommute(w: Widget, x: int, y: int, width: int, height: int)
    ensures Bounds(Move(Resize(w, width, height), x, y)) == Bounds(Resize(Move(w, x, y), width, height))
    ensures Bounds(Move(Resize(w, width, height), x, y)) == Primitives.Rect(x, y, x + width, y + height)
    ensures AutoSize(Move(w, x, y)) == AutoSize(w) && !AutoSize(Resize(w, width, height))
  {
  }

  /** The four corner coordinates. */
  datatype Coord = X1 | Y1 | X2 | Y2

  predicate Horizontal(c: Coord) {
    c.X1? || c.X2?
  }

  function CoordName(c: Coord): Sym {
    match c
    case X1 => "x1"
    case Y1 => "y1"
    case X2 => "x2"
    case Y2 => "y2"
  }

  function Get(w: Widget, c: Coord): int {
    match c
    case X1 => w.frame.x1
    case Y1 => w.frame.y1
    case X2 => w.frame.x2
    case Y2 => w.frame.y2
  }

  function Put(f: Frame, c: Coord, v: int): Frame {
    match c
    case X1 => f.(x1 := v)
    case Y1 => f.(y1 := v)
    case X2 => f.(x2 := v)
    case Y2 => f.(y2 := v)
  }

  /** The auto-size event that turning off `c`'s axis raises, if it was on. */
  function AxisOff(w: Widget, c: Coord): seq<Published> {
    if Horizontal(c) then (if w.frame.autoWidth then [Modified(Symbol("auto_size_width"))] else [])
    else (if w.frame.autoHeight then [Modified(Symbol("auto_size_height"))] else [])
  }

  /** `x1=`, `y1=`, `x2=`, `y2=` behind their wrappers: an unchanged value is a no-op;
      otherwise the coordinate is damaged, its axis stops auto-sizing, and only that
      coordinate moves. */
  function SetCoord(w: Widget, c: Coord, v: int): (r: Widget)
    ensures Get(r, c) == v
    ensures forall d :: d != c ==> Get(r, d) == Get(w, d)
    ensures Get(w, c) == v ==> r == w
    ensures Get(w, c) != v && Horizontal(c) ==> !r.frame.autoWidth && r.frame.autoHeight == w.frame.autoHeight
    ensures Get(w, c) != v && !Horizontal(c) ==> !r.frame.autoHeight && r.frame.autoWidth == w.frame.autoWidth
    ensures Get(w, c) != v ==> Reports(w.tracker, r.tracker, [Modified(Symbol(CoordName(c)))] + AxisOff(w, c))
    ensures OnlyBoxChanged(w, r)
  {
    if Get(w, c) == v then w
    else
      var m := Mark(w, CoordName(c));
      var a := if Horizontal(c) then SetAutoSizeWidth(m, false) else SetAutoSizeHeight(m, false);
      ReportsCompose(w.tracker, m.tracker, a.tracker, [Modified(Symbol(CoordName(c)))], AxisOff(w, c));
      a.(frame := Put(a.frame, c, v))
  }

  /** `set_region(x1, y1, x2, y2)`: one `:region` damage, both auto-size flags off (each
      through its wrapper), and all four coordinates assigned. */
  function SetRegion(w: Widget, x1: int, y1: int, x2: int, y2: int): (r: Widget)
    ensures Bounds(r) == Primitives.Rect(x1, y1, x2, y2)
    ensures !r.frame.autoWidth && !r.frame.autoHeight && OnlyBoxChanged(w, r)
    ensures Reports(w.tracker, r.tracker,
      [Modified(Symbol("region"))]
      + (if w.frame.autoWidth then [Modified(Symbol("auto_size_width"))] else [])
      + (if w.frame.autoHeight then [Modified(Symbol("auto_size_height"))] else []))
  {
    var m := Mark(w, "region");
    var a := SetAutoSizeWidth(m, false);
    var f := SetAutoSizeHeight(a, false);
    var ew := if w.frame.autoWidth then [Modified(Symbol("auto_size_width"))] else [];
    var eh := if w.frame.autoHeight then [Modified(Symbol("auto_size_height"))] else [];
    ReportsCompose(w.tracker, m.tracker, a.tracker, [Modified(Symbol("region"))], ew);
    ReportsCompose(w.tracker, a.tracker, f.tracker, [Modified(Symbol("region"))] + ew, eh);
    f.(frame := f.frame.(x1 := x1, y1 := y1, x2 := x2, y2 := y2))
  }

  /** `set_region` reaches the same box as the four corner setters, but unlike them it
      turns auto-sizing off even on an axis whose coordinates do not change. */
  lemma SetRegionMatchesCornerSetters(w: Widget, x1: int, y1: int, x2: int, y2: int)
    ensures var c := SetCoord(SetCoord(SetCoord(SetCoord(w, X1, x1), Y1, y1), X2, x2), Y2, y2);
            && Bounds(c) == Bounds(SetRegion(w, x1, y1, x2, y2))
            && c.frame.autoWidth == (w.frame.autoWidth && x1 == w.frame.x1 && x2 == w.frame.x2)
            && c.frame.autoHeight == (w.frame.autoHeight && y1 == w.frame.y1 && y2 == w.frame.y2)
  {
    var a := SetCoord(w, X1, x1);
    var b := SetCoord(a, Y1, y1);
    var c := SetCoord(b, X2, x2);
    var d := SetCoord(c, Y2, y2);
    assert a.frame.autoHeight == w.frame.autoHeight && a.frame.autoWidth == (w.frame.autoWidth && x1 == w.frame.x1);
    assert b.frame.autoWidth == a.frame.autoWidth && b.frame.autoHeight == (w.frame.autoHeight && y1 == w.frame.y1);
    assert c.frame.autoHeight == b.frame.autoHeight && c.frame.autoWidth == (a.frame.autoWidth && x2 == b.frame.x2);
    assert d.frame.autoWidth == c.frame.autoWidth && d.frame.autoHeight == (b.frame.autoHeight && y2 == c.frame.y2);
    assert Get(d, X1) == x1 && Get(d, Y1) == y1 && Get(d, X2) == x2 && Get(d, Y2) == y2;
  }

  // ---------------------------------------------------------------- enabled and visible

  /** Everything but the flags and the tracker is as in `w`. */
  predicate OnlyFlagsChanged(w: Widget, r: Widget) {
    r.(flags := w.flags, tracker := w.tracker) == w
  }

  /** `disabled?` */
  predicate Disabled(w: Widget) {
    !w.flags.enabled
  }

  /** `enabled=(value)`: damages `:enabled` only when the value changes. */
  function SetEnabled(w: Widget, v: bool): (r: Widget)
    ensures r.flags.enabled == v && !Disabled(r) == v
    ensures OnlyFlagsChanged(w, r) && r.flags.(enabled := w.flags.enabled) == w.flags
    ensures Reports(w.tracker, r.tracker, if v == w.flags.enabled then [] else [Modified(Symbol("enabled"))])
  {
    if v == w.flags.enabled then w else Mark(w, "enabled").(flags := w.flags.(enabled := v))
  }

  /** `disabled=(value)`. */
  function SetDisabled(w: Widget, v: bool): (r: Widget)
    ensures Disabled(r) == v
    ensures OnlyFlagsChanged(w, r) && r.flags.(enabled := w.flags.enabled) == w.flags
  {
    var m := if !v == w.flags.enabled then w else Mark(w, "enabled");
    m.(flags := w.flags.(enabled := !v))
  }

  /** `enable`: always damages `:enabled`. */
  function Enable(w: Widget): (r: Widget)
    ensures r.flags.enabled && OnlyFlagsChanged(w, r) && r.flags.(enabled := w.flags.enabled) == w.flags
    ensures Reports(w.tracker, r.tracker, [Modified(Symbol("enabled"))])
  {
    Mark(w, "enabled").(flags := w.flags.(enabled := true))
  }

  /** `disable`: always damages `:enabled`. */
  function Disable(w: Widget): (r: Widget)
    ensures Disabled(r) && OnlyFlagsChanged(w, r) && r.flags.(enabled := w.flags.enabled) == w.flags
    ensures Reports(w.tracker, r.tracker, [Modified(Symbol("enabled"))])
  {
    Mark(w, "enabled").(flags := w.flags.(enabled := false))
  }

  /** `disabled=` is `enabled=` of the negation, and setting the same value twice damages
      no more than setting it once; `enable` and `disable` reach the same state but damage
      even when nothing changes. */
  lemma EnabledSettersAgree(w: Widget, v: bool)
    ensures SetDisabled(w, v) == SetEnabled(w, !v)
    ensures SetEnabled(SetEnabled(w, v), v) == SetEnabled(w, v)
    ensures Enable(w).(tracker := w.tracker) == SetEnabled(w, true).(tracker := w.tracker)
    ensures Disable(w).(tracker := w.tracker) == SetEnabled(w, false).(tracker := w.tracker)
    ensures Valid(w.tracker) && Outside(w.tracker) && w.flags.enabled ==>
      SetEnabled(w, true).tracker.published == w.tracker.published
      && Enable(w).tracker.published == w.tracker.published + [Modified(Symbol("enabled"))]
  {
  }

  /** `hidden?` */
  predicate Hidden(w: Widget) {
    !w.flags.visible
  }

  /** `visible=(value)`: damages `:visible` only when the value changes. */
  function SetVisible(w: Widget, v: bool): (r: Widget)
    ensures r.flags.visible == v && OnlyFlagsChanged(w, r) && r.flags.(visible := w.flags.visible) == w.flags
    ensures Reports(w.tracker, r.tracker, if v == w.flags.visible then [] else [Modified(Symbol("visible"))])
  {
    if v == w.flags.visible then w else Mark(w, "visible").(flags := w.flags.(visible := v))
  }

  /** `hidden=(value)` as written: the damage test uses `value`, but the assignment
      negates the never-assigned `@value`, so the widget always ends up visible. */
  function SetHiddenAsWritten(w: Widget, v: bool): (r: Widget)
    ensures r.flags.visible
    ensures OnlyFlagsChanged(w, r) && r.flags.(visible := w.flags.visible) == w.flags
    ensures Reports(w.tracker, r.tracker, if !v == w.flags.visible then [] else [Modified(Symbol("visible"))])
  {
    var m := if !v == w.flags.visible then w else Mark(w, "visible");
    m.(flags := w.flags.(visible := !false))
  }

  /** `hidden=(value)` as evidently intended: visibility becomes the negation of `value`. */
  function SetHidden(w: Widget, v: bool): (r: Widget)
    ensures Hidden(r) == v
    ensures OnlyFlagsChanged(w, r) && r.flags.(visible := w.flags.visible) == w.flags
    ensures Reports(w.tracker, r.tracker, if !v == w.flags.visible then [] else [Modified(Symbol("visible"))])
  {
    var m := if !v == w.flags.visible then w else Mark(w, "visible");
    m.(flags := w.flags.(visible := !v))
  }

  /** `hide`: damages `:visible` only when the widget was visible. */
  function Hide(w: Widget): (r: Widget)
    ensures Hidden(r) && OnlyFlagsChanged(w, r) && r.flags.(visible := w.flags.visible) == w.flags
    ensures Reports(w.tracker, r.tracker, if w.flags.visible then [Modified(Symbol("visible"))] else [])
  {
    var m := if !w.flags.visible then w else Mark(w, "visible");
    m.(flags := w.flags.(visible := false))
  }

  /** `show`: damages `:visible` only when the widget was hidden. */
  function Show(w: Widget): (r: Widget)
    ensures r.flags.visible && OnlyFlagsChanged(w, r) && r.flags.(visible := w.flags.visible) == w.flags
    ensures Reports(w.tracker, r.tracker, if w.flags.visible then [] else [Modified(Symbol("visible"))])
  {
    var m := if w.flags.visible then w else Mark(w, "visible");
    m.(flags := w.flags.(visible := true))
  }

  /** `hide`, `show` and the corrected `hidden=` are all `visible=` in disguise, and
      hiding then showing restores the widget apart from its tracker. */
  lemma VisibilitySettersAgree(w: Widget, v: bool)
    ensures Hide(w) == SetVisible(w, false) && Show(w) == SetVisible(w, true)
    ensures SetHidden(w, v) == SetVisible(w, !v)
    ensures Show(Hide(w)).(tracker := w.tracker) == w.(flags := w.flags.(visible := true))
  {
  }

  /** `hidden = true` as written damages a visible widget yet leaves it visible. */
  lemma SetHiddenAsWrittenDoesNotHide(w: Widget)
    requires w.flags.visible && Valid(w.tracker) && Outside(w.tracker)
    ensures SetHiddenAsWritten(w, true).flags.visible
    ensures SetHiddenAsWritten(w, true).tracker.published == w.tracker.published + [Modified(Symbol("visible"))]
    ensures Hidden(SetHidden(w, true))
  {
  }

  /** `float`: the layouts stop positioning the widget; always damages `:floating`. */
  function Float(w: Widget): (r: Widget)
    ensures r.flags.floating && OnlyFlagsChanged(w, r) && r.flags.(floating := w.flags.floating) == w.flags
    ensures Reports(w.tracker, r.tracker, [Modified(Symbol("floating"))])
  {
    Mark(w.(flags := w.flags.(floating := true)), "floating")
  }

  /** `snap`: back under the layout; always damages `:floating`. */
  function Snap(w: Widget): (r: Widget)
    ensures !r.flags.floating && OnlyFlagsChanged(w, r) && r.flags.(floating := w.flags.floating) == w.flags
    ensures Reports(w.tracker, r.tracker, [Modified(Symbol("floating"))])
  {
    Mark(w.(flags := w.flags.(floating := false)), "floating")
  }

  /** `snap` undoes `float` on everything but the tracker, which records two damages. */
  lemma SnapUndoesFloat(w: Widget)
    requires !w.flags.floating
    ensures Snap(Float(w)).(tracker := w.tracker) == w
    ensures Valid(w.tracker) && Outside(w.tracker) ==>
      Snap(Float(w)).tracker.published == w.tracker.published + [Modified(Symbol("floating")), Modified(Symbol("floating"))]
  {
  }

  // ---------------------------------------------------------------- window callbacks

  /** The four callbacks MainWindow uses to tell a widget its focus or activity changed. */
  datatype Notice = FocusNotice | BlurNotice | ActivateNotice | DeactivateNotice

  function NoticeRegion(n: Notice): Sym {
    if n.FocusNotice? || n.BlurNotice? then "focused" else "active"
  }

  function NoticeEvent(n: Notice): Sym {
    match n
    case FocusNotice => "focus"
    case BlurNotice => "blur"
    case ActivateNotice => "activate"
    case DeactivateNotice => "deactivate"
  }

  /** `notify_focus`, `notify_blur`, `notify_activate`, `notify_deactivate`: a damage of
      `:focused` (or `:active`), then an unconditional signal of the event itself. */
  function Notify(w: Widget, n: Notice): (r: Widget)
    ensures r.(tracker := w.tracker) == w && SameScope(w.tracker, r.tracker)
    ensures Valid(w.tracker) && Outside(w.tracker) ==>
      r.tracker.published == w.tracker.published + [Modified(Symbol(NoticeRegion(n))), Published(NoticeEvent(n), [])]
    ensures Valid(w.tracker) && !Outside(w.tracker) ==>
      r.tracker.published == w.tracker.published + [Published(NoticeEvent(n), [])]
    ensures r.tracker.damaged == (w.tracker.damaged || w.tracker.setDamage)
  {
    var m := Mark(w, NoticeRegion(n));
    m.(tracker := Emit(m.tracker, NoticeEvent(n), []))
  }

  // ---------------------------------------------------------------- drawing

  datatype Drawn = Drawn(widget: Widget, visible: bool, rendered: bool)

  /** Asking the window whether it throttles would be asked of nil. */
  predicate DrawRaises(w: Widget) {
    w.flags.visible && w.style.renderer.Some? && w.flags.throttle && w.window.None?
  }

  /** `draw`, with `windowThrottle` the window's `throttle_render?`. A hidden widget is
      untouched and reports false. A visible one is rendered unless it and its window
      both throttle and it is undamaged, signals `:draw` when it has `:draw` handlers,
      clears its damage and reports true. `rendered` says whether the renderer was
      called. */
  function Draw(w: Widget, windowThrottle: bool): (r: Result<Drawn>)
    ensures !w.flags.visible ==> r == Ok(Drawn(w, false, false))
    ensures r.Err? <==> DrawRaises(w)
    ensures r.Ok? && w.flags.visible ==>
      && r.value.visible && !r.value.widget.tracker.damaged
      && r.value.widget.(tracker := w.tracker) == w
      && SameScope(w.tracker, r.value.widget.tracker)
      && r.value.widget.tracker.published
         == w.tracker.published + (if "draw" in w.events then [Published("draw", [])] else [])
    ensures r.Ok? && r.value.rendered ==> w.flags.visible && w.style.renderer.Some?
    ensures r.Ok? && w.flags.visible && w.style.renderer.Some? && w.tracker.damaged ==> r.value.rendered
  {
    if !w.flags.visible then Ok(Drawn(w, false, false))
    else if DrawRaises(w) then Err(NoMethodError)
    else
      var rendered := w.style.renderer.Some? && !(w.flags.throttle && windowThrottle && !w.tracker.damaged);
      var t := if "draw" in w.events then Emit(w.tracker, "draw", []) else w.tracker;
      Ok(Drawn(w.(tracker := ClearDamage(t)), true, rendered))
  }

  /** Drawing clears the damage that lets a throttled widget through: a second draw in a
      throttling window skips the renderer, while an unthrottled window draws again.
      A hidden widget keeps its damage for later. */
  lemma RedrawIsThrottled(w: Widget, windowThrottle: bool)
    requires w.flags.visible && w.style.renderer.Some? && w.flags.throttle && w.window.Some?
    ensures Draw(w, windowThrottle).Ok?
    ensures Draw(Draw(w, windowThrottle).value.widget, windowThrottle).Ok?
    ensures Draw(Draw(w, windowThrottle).value.widget, windowThrottle).value.rendered == !windowThrottle
    ensures Draw(Hide(w), windowThrottle).value.widget.tracker.damaged == Hide(w).tracker.damaged
  {
  }

  // ---------------------------------------------------------------- containers

  /** The style has an owner and a renderer, so `configure_renderer` does something. */
  predicate Configures(w: Widget) {
    w.style.widget.Some? && w.style.renderer.Some?
  }

  /** The width half of `configure_renderer`'s block: an auto-sized width takes the
      suggestion through `width=` and is then marked auto-sized again. */
  function ConfigureWidth(w: Widget, v: int): (r: Widget)
    ensures r.frame.x1 == w.frame.x1 && r.frame.y1 == w.frame.y1 && r.frame.y2 == w.frame.y2
    ensures r.frame.autoWidth == w.frame.autoWidth && r.frame.autoHeight == w.frame.autoHeight
    ensures Width(r) == (if w.frame.autoWidth then v else Width(w))
    ensures OnlyBoxChanged(w, r)
    ensures Reports(w.tracker, r.tracker, if w.frame.autoWidth
      then [Modified(Symbol("width")), Modified(Symbol("auto_size_width")), Modified(Symbol("auto_size_width"))]
      else [])
  {
    if w.frame.autoWidth then
      var a := SetWidth(w, v);
      var b := SetAutoSizeWidth(a, true);
      ReportsCompose(w.tracker, a.tracker, b.tracker,
        [Modified(Symbol("width")), Modified(Symbol("auto_size_width"))], [Modified(Symbol("auto_size_width"))]);
      b
    else w
  }

  /** The height half of `configure_renderer`'s block. */
  function ConfigureHeight(w: Widget, v: int): (r: Widget)
    ensures r.frame.x1 == w.frame.x1 && r.frame.y1 == w.frame.y1 && r.frame.x2 == w.frame.x2
    ensures r.frame.autoWidth == w.frame.autoWidth && r.frame.autoHeight == w.frame.autoHeight
    ensures Height(r) == (if w.frame.autoHeight then v else Height(w))
    ensures OnlyBoxChanged(w, r)
    ensures Reports(w.tracker, r.tracker, if w.frame.autoHeight
      then [Modified(Symbol("height")), Modified(Symbol("auto_size_height")), Modified(Symbol("auto_size_height"))]
      else [])
  {
    if w.frame.autoHeight then
      var a := SetHeight(w, v);
      var b := SetAutoSizeHeight(a, true);
      ReportsCompose(w.tracker, a.tracker, b.tracker,
        [Modified(Symbol("height")), Modified(Symbol("auto_size_height"))], [Modified(Symbol("auto_size_height"))]);
      b
    else w
  }

  /** `configure_renderer`, with `suggestion` the renderer's suggested width and height:
      inside an `unreported` block each auto-sized axis takes the suggestion and is then
      marked auto-sized again. Nothing is published; the widget is flagged damaged. */
  function ConfigureRenderer(w: Widget, suggestion: (int, int)): (r: Widget)
    ensures !Configures(w) ==> r == w
    ensures r.frame == w.frame.(
      x2 := if Configures(w) && w.frame.autoWidth then w.frame.x1 + suggestion.0 else w.frame.x2,
      y2 := if Configures(w) && w.frame.autoHeight then w.frame.y1 + suggestion.1 else w.frame.y2)
    ensures OnlyBoxChanged(w, r)
    ensures Valid(w.tracker) ==> SameScope(w.tracker, r.tracker) && r.tracker.published == w.tracker.published
    ensures Valid(w.tracker) && w.tracker.uncheckedLevel == 0 && Configures(w) && (w.frame.autoWidth || w.frame.autoHeight)
      ==> r.tracker.damaged
  {
    if !Configures(w) then w
    else
      var a := w.(tracker := EnterUnreported(w.tracker));
      var b := ConfigureWidth(a, suggestion.0);
      var c := ConfigureHeight(b, suggestion.1);
      c.(tracker := ExitUnreported(c.tracker))
  }

  /** With the base Renderer's suggestion (the widget's own size) configuring changes no
      coordinate, and configuring twice with one suggestion gives the box of once. */
  lemma ConfigureIsStable(w: Widget, suggestion: (int, int))
    ensures Bounds(ConfigureRenderer(w, Themes.SuggestedSize(Width(w), Height(w)))) == Bounds(w)
    ensures Bounds(ConfigureRenderer(ConfigureRenderer(w, suggestion), suggestion))
         == Bounds(ConfigureRenderer(w, suggestion))
  {
  }

  /** `set_container(object)` on a plain widget: the parent becomes `p`, the window
      becomes the parent's window, and the renderer is configured. It returns true. */
  function SetContainer(w: Widget, p: Id, parentWindow: Option<Id>, suggestion: (int, int)): (r: Widget)
    ensures r.parent == Some(p) && r.window == parentWindow
    ensures r.frame.x1 == w.frame.x1 && r.frame.y1 == w.frame.y1 && r.frame.autoWidth == w.frame.autoWidth && r.frame.autoHeight == w.frame.autoHeight
    ensures r.frame.(x2 := w.frame.x2, y2 := w.frame.y2) == w.frame
    ensures r.(parent := w.parent, window := w.window, frame := w.frame, tracker := w.tracker) == w
    ensures Valid(w.tracker) ==> SameScope(w.tracker, r.tracker) && r.tracker.published == w.tracker.published
  {
    ConfigureRenderer(w.(parent := Some(p), window := parentWindow), suggestion)
  }

  datatype Detached = Detached(widget: Widget, ok: bool)

  /** `unset_container(object)`: only the current parent can detach the widget, which
      then has neither parent nor window; anyone else gets false and no change. */
  function UnsetContainer(w: Widget, p: Id, suggestion: (int, int)): (r: Detached)
    ensures r.ok <==> w.parent == Some(p)
    ensures !r.ok ==> r.widget == w
    ensures r.ok ==> r.widget.parent.None? && r.widget.window.None?
    ensures r.ok ==> r.widget.frame.x1 == w.frame.x1 && r.widget.frame.y1 == w.frame.y1
    ensures r.widget.frame.(x2 := w.frame.x2, y2 := w.frame.y2) == w.frame
    ensures r.widget.(parent := w.parent, window := w.window, frame := w.frame, tracker := w.tracker) == w
  {
    if w.parent == Some(p) then
      Detached(ConfigureRenderer(w.(parent := None, window := None), suggestion), true)
    else Detached(w, false)
  }

  /** Detaching from the container just attached to succeeds and leaves no parent or
      window; detaching from any other container is refused. */
  lemma UnsetUndoesSet(w: Widget, p: Id, q: Id, win: Option<Id>, s1: (int, int), s2: (int, int))
    requires q != p
    ensures var d := UnsetContainer(SetContainer(w, p, win, s1), p, s2);
            d.ok && d.widget.parent.None? && d.widget.window.None?
    ensures !UnsetContainer(SetContainer(w, p, win, s1), q, s2).ok
  {
  }
}
