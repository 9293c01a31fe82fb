/** lib/gglib/theme.rb: how a CustomTheme picks a renderer, the backend handshake every
    Renderer performs, and the WidgetRenderer that draws a widget with one of its
    state grids. */
module Themes {
  import opened Base
  import opened Styles
  import opened Primitives

  /** A CustomTheme's `@renderers` hash: theme class to renderer id (nil entries absent). */
  type RendererTable = map<Sym, nat>

  /** `renderer_for(widget)` for a widget whose `theme_class` is `cls`: nothing for
      `:invisible`, the class's own renderer if there is one, else the `:default` one. */
  function RendererFor(t: RendererTable, cls: Sym): (r: Option<nat>)
    ensures cls == "invisible" ==> r == None
    ensures cls != "invisible" && cls in t ==> r == Some(t[cls])
    ensures cls != "invisible" && cls !in t ==> r == (if "default" in t then Some(t["default"]) else None)
    ensures r.Some? ==> r.value in t.Values
  {
    if cls == "invisible" then None
    else if cls in t then Some(t[cls])
    else if "default" in t then Some(t["default"])
    else None
  }

  /** Adding a renderer for one theme class changes the choice for that class only;
      when the class is `:default`, every other class without its own entry (except
      `:invisible`) takes the new renderer too. */
  lemma RendererForIsLocal(t: RendererTable, cls: Sym, other: Sym, id: nat)
    requires cls != other
    ensures cls != "default" ==> RendererFor(t[cls := id], other) == RendererFor(t, other)
    ensures cls == "default" ==>
      RendererFor(t[cls := id], other) == (if other == "invisible" then None else if other in t then Some(t[other]) else Some(id))
    ensures cls != "invisible" ==> RendererFor(t[cls := id], cls) == Some(id)
  {
  }

  /** A Renderer's backend, and the backend `set_backend` last configured it for. */
  datatype RendererCore = RendererCore(backend: Option<nat>, configured: Option<nat>)

  /** Whenever a backend is set, the primitives were configured for exactly that backend. */
  predicate Configured(r: RendererCore) {
    r.backend.Some? ==> r.configured == r.backend
  }

  /** `backend=(val)`: `set_backend` runs only for a non-nil backend different from the
      current one; the backend is stored in every case. */
  function SetBackend(r: RendererCore, v: Option<nat>): (o: RendererCore)
    ensures o.backend == v
    ensures v.Some? && v != r.backend ==> o.configured == v
    ensures v.None? || v == r.backend ==> o.configured == r.configured
    ensures Configured(r) ==> Configured(o)
  {
    if v.Some? && r.backend != v then RendererCore(v, v) else RendererCore(v, r.configured)
  }

  /** `Renderer.new`: takes the default window's backend when there is one. */
  function NewRenderer(defaultBackend: Option<nat>): (o: RendererCore)
    ensures o.backend == defaultBackend && Configured(o)
  {
    SetBackend(RendererCore(None, None), defaultBackend)
  }

  /** A new renderer is already configured for the backend it took: assigning that
      backend again changes nothing, and it draws exactly when there was a default
      window backend and the widget is in a window. */
  lemma NewRendererIsSettled(defaultBackend: Option<nat>, window: Option<Id>)
    ensures SetBackend(NewRenderer(defaultBackend), defaultBackend) == NewRenderer(defaultBackend)
    ensures Draws(NewRenderer(defaultBackend), window) <==> defaultBackend.Some? && window.Some?
  {
  }

  /** Setting the same backend twice configures no more than setting it once. */
  lemma SetBackendIdempotent(r: RendererCore, v: Option<nat>)
    ensures SetBackend(SetBackend(r, v), v) == SetBackend(r, v)
  {
  }

  /** Renderer `draw(widget)`: true exactly when a backend is set and the widget is in a window. */
  predicate Draws(r: RendererCore, window: Option<Id>) {
    r.backend.Some? && window.Some?
  }

  /** The base Renderer's `suggested_width`/`suggested_height`: the widget's current size. */
  function SuggestedSize(width: int, height: int): (s: (int, int))
    ensures s == (width, height)
  {
    (width, height)
  }

  // ---------------------------------------------------------------- WidgetRenderer

  /** What WidgetRenderer#draw asks of the widget. `down` is None for a widget without
      a `down?` method (every widget but Button). */
  datatype WidgetFlags = WidgetFlags(disabled: bool, down: Option<bool>, focused: bool, active: bool)

  /** The state grids in the order `draw` tries them. */
  const Priority: seq<Sym> := ["disabled", "down", "focused", "active"]

  /** State `s` holds for the widget. */
  predicate Holds(s: Sym, w: WidgetFlags) {
    || (s == "disabled" && w.disabled)
    || (s == "down" && w.down == Some(true))
    || (s == "focused" && w.focused)
    || (s == "active" && w.active)
  }

  /** The `case` in WidgetRenderer#draw: the first state that has a grid and holds; else
      `grids.fetch(:enabled)`. Asking `down?` of a widget without it raises, and a
      missing `:enabled` grid raises KeyError. */
  function ChooseGrid(grids: set<Sym>, w: WidgetFlags): (r: Result<Sym>)
    ensures r.Ok? ==> r.value in grids
    ensures r == Err(KeyError) ==> "enabled" !in grids
    ensures r == Err(NoMethodError) ==> "down" in grids && w.down.None?
  {
    if "disabled" in grids && w.disabled then Ok("disabled")
    else if "down" in grids && w.down.None? then Err(NoMethodError)
    else if "down" in grids && w.down == Some(true) then Ok("down")
    else if "focused" in grids && w.focused then Ok("focused")
    else if "active" in grids && w.active then Ok("active")
    else if "enabled" in grids then Ok("enabled")
    else Err(KeyError)
  }

  /** The grid drawn is the highest-priority state that has a grid and holds; `:enabled`
      only when none does. */
  lemma ChoiceIsHighestPriority(grids: set<Sym>, w: WidgetFlags, k: nat)
    requires k < |Priority|
    ensures ChooseGrid(grids, w) == Ok(Priority[k]) <==>
      && Priority[k] in grids && Holds(Priority[k], w)
      && (forall j :: 0 <= j < k ==> !(Priority[j] in grids && Holds(Priority[j], w)))
      && !(k > 1 && "down" in grids && w.down.None?)
    ensures ChooseGrid(grids, w) == Ok("enabled") <==>
      && "enabled" in grids
      && (forall j :: 0 <= j < |Priority| ==> !(Priority[j] in grids && Holds(Priority[j], w)))
      && !("down" in grids && w.down.None?)
  {
    assert Priority[0] == "disabled" && Priority[1] == "down";
    assert Priority[2] == "focused" && Priority[3] == "active";
    assert "disabled" != "down" && "disabled" != "focused" && "disabled" != "active" && "disabled" != "enabled";
    assert "down" != "focused" && "down" != "active" && "down" != "enabled";
    assert "focused" != "active" && "focused" != "enabled" && "active" != "enabled";
  }

  /** A widget without `down?` (anything but a Button) can only be drawn by a renderer
      without a `:down` grid, unless it is disabled and a `:disabled` grid exists. */
  lemma DownGridNeedsButton(grids: set<Sym>, w: WidgetFlags)
    requires "down" in grids && w.down.None?
    ensures ChooseGrid(grids, w).Ok? <==> "disabled" in grids && w.disabled
  {
  }

  /** `GGLib.margin(...)` and `GGLib.padding(...)`: no value gives zeros, one value is
      spread to all four sides, otherwise the four values are kept in order. */
  function Shorthand(top: Option<int>, right: Option<int>, bottom: Option<int>, left: Option<int>): (r: seq<Option<int>>)
    ensures |r| == 4
    ensures top.None? ==> r == [Some(0), Some(0), Some(0), Some(0)]
    ensures top.Some? && right.None? ==> forall i :: 0 <= i < 4 ==> r[i] == top
    ensures top.Some? && right.Some? ==> r == [top, right, bottom, left]
  {
    if top.None? then [Some(0), Some(0), Some(0), Some(0)]
    else if right.None? then [top, top, top, top]
    else [top, right, bottom, left]
  }

  /** Given a first value, the shorthand spreads values exactly as FourSidedStyle.new does. */
  lemma ShorthandMatchesFourSided(top: int, right: Option<int>, bottom: Option<int>, left: Option<int>)
    ensures var s := NewSides(Some(top), right, bottom, left);
            Shorthand(Some(top), right, bottom, left) == [s.top, s.right, s.bottom, s.left]
  {
  }

  /** A WidgetRenderer's state grids and the margins and paddings grid9renderer assigns. */
  datatype WidgetRenderer = WidgetRenderer(
    path: string, states: set<Sym>, margin: Sides, padding: Sides)

  /** `GGLib.grid9renderer(path, states, margin, padding)`: elements 0..3 of the two
      arrays become top, right, bottom and left (nil past the end). */
  function Grid9Renderer(path: string, states: seq<Sym>, margin: seq<Option<int>>, padding: seq<Option<int>>): (r: WidgetRenderer)
    ensures r.states == set s | s in states
    ensures r.margin == Sides(At(margin, 0), At(margin, 1), At(margin, 2), At(margin, 3))
    ensures r.padding == Sides(At(padding, 0), At(padding, 1), At(padding, 2), At(padding, 3))
  {
    WidgetRenderer(path, (set s | s in states),
      Sides(At(margin, 0), At(margin, 1), At(margin, 2), At(margin, 3)),
      Sides(At(padding, 0), At(padding, 1), At(padding, 2), At(padding, 3)))
  }

  /** A renderer built from the shorthands has the CSS-like sides the shorthands describe. */
  lemma Grid9FromShorthand(path: string, states: seq<Sym>, m: int, pt: int, pr: int, pb: int, pl: int)
    ensures var r := Grid9Renderer(path, states, Shorthand(Some(m), None, None, None),
                                   Shorthand(Some(pt), Some(pr), Some(pb), Some(pl)));
            Uniform(r.margin, Some(m)) && r.padding == Sides(Some(pt), Some(pr), Some(pb), Some(pl))
    ensures Uniform(Grid9Renderer(path, states, Shorthand(None, None, None, None), []).margin, Some(0))
    ensures Uniform(Grid9Renderer(path, states, [], []).padding, None)
  {
  }

  /** WidgetRenderer `suggested_width`/`suggested_height`: the `:enabled` grid's natural
      size once the renderer's margins are applied to it. */
  function GridSuggestedSize(enabled: Grid, margin: Edges): (s: (int, int))
    ensures s.0 == margin.left + enabled.images.leftWidth + enabled.images.centerWidth + enabled.images.rightWidth + margin.right
    ensures s.1 == margin.top + enabled.images.topHeight + enabled.images.centerHeight + enabled.images.bottomHeight + margin.bottom
  {
    var g := SetMargin(enabled, margin);
    (NaturalWidth(g), NaturalHeight(g))
  }

  /** The text rectangle WidgetRenderer#draw hands to `draw_text`: the centre cell with the
      renderer's padding taken off. */
  function TextArea(center: Rect, padding: Edges): (r: Rect)
    ensures Width(r) == Width(center) - padding.left - padding.right
    ensures Height(r) == Height(center) - padding.top - padding.bottom
  {
    Rect(center.x1 + padding.left, center.y1 + padding.top, center.x2 - padding.right, center.y2 - padding.bottom)
  }

  /** A widget sized by its renderer's suggestion, drawn with no scaling, gets the
      `:enabled` centre image's natural size as the text area plus padding. */
  lemma SuggestedSizeGivesNaturalCenter(enabled: Grid, margin: Edges, x: int, y: int)
    requires enabled.images.centerWidth >= 1 && enabled.images.centerHeight >= 1
    ensures var s := GridSuggestedSize(enabled, margin);
            var g := SetBox(SetMargin(enabled, margin), Rect(x, y, x + s.0, y + s.1));
            NoScaling(g) && Width(CalculateDimensions(g).center) == enabled.images.centerWidth
            && Height(CalculateDimensions(g).center) == enabled.images.centerHeight
  {
    var s := GridSuggestedSize(enabled, margin);
    var g := SetBox(SetMargin(enabled, margin), Rect(x, y, x + s.0, y + s.1));
    NaturalSizeFitsCenter(g);
  }
}
