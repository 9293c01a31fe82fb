/** lib/gglib/style.rb: Color construction, the four-sided Margin/Padding values,
    and the part of WidgetStyle that chooses how a widget is drawn (theme, image,
    colour or an explicit renderer). */
module Styles {
  import opened Base
  import opened Volatile

  datatype Overflow = OverflowAuto | OverflowShow | OverflowHide | OverflowScroll | OverflowStretch
  datatype Align = AlignLeft | AlignCenter | AlignRight
  datatype VerticalAlign = AlignTop | AlignMiddle | AlignBottom

  /** A Margin or Padding whose four sides are all integers, as laid-out widgets use them. */
  datatype Edges = Edges(top: int, right: int, bottom: int, left: int)

  /** WidgetStyle's default margin (`Margin.new(5)`) and padding (`Padding.new`). */
  const DefaultMargin := Edges(5, 5, 5, 5)
  const DefaultPadding := Edges(0, 0, 0, 0)
  const DefaultLineSpacing := 0

  // ---------------------------------------------------------------- Color

  /** A Color's four channels; a channel may be nil when built from a short array. */
  datatype Color = Color(alpha: Option<int>, red: Option<int>, green: Option<int>, blue: Option<int>)

  /** The first argument of `Color.new`. */
  datatype ColorSource = NoColor | FromInt(level: int) | FromArray(items: seq<Option<int>>) | FromColor(color: Color)

  const White := Color(Some(255), Some(255), Some(255), Some(255))

  /** `array[i]`: nil past the end. */
  function At(xs: seq<Option<int>>, i: nat): (r: Option<int>)
    ensures i < |xs| ==> r == xs[i]
    ensures i >= |xs| ==> r == None
  {
    if i < |xs| then xs[i] else None
  }

  /** `Color.new(color, green, blue, alpha)`; the caller passes `Some(255)` for an omitted alpha. */
  function NewColor(src: ColorSource, green: Option<int>, blue: Option<int>, alpha: Option<int>): (c: Color)
    ensures src == NoColor ==> c == White
    ensures src.FromInt? && src.level <= 255 ==> c == Color(alpha, Some(src.level), green, blue)
    ensures src.FromInt? && src.level > 255 ==> c == White
    ensures src.FromArray? ==> c.red == At(src.items, 0) && c.green == At(src.items, 1) && c.blue == At(src.items, 2)
    ensures src.FromArray? ==> c.alpha == (if |src.items| > 3 then src.items[3] else Some(255))
    ensures src.FromColor? ==> c == src.color
  {
    match src
    case NoColor => White
    case FromInt(level) => if level <= 255 then Color(alpha, Some(level), green, blue) else White
    case FromArray(items) => Color(if |items| > 3 then items[3] else Some(255), At(items, 0), At(items, 1), At(items, 2))
    case FromColor(other) => other
  }

  /** The array form and the channel form agree for an in-range red channel, and an
      array of three channels is opaque. */
  lemma ArrayFormMatchesChannels(r: int, g: Option<int>, b: Option<int>, a: Option<int>)
    requires r <= 255
    ensures NewColor(FromArray([Some(r), g, b, a]), None, None, Some(255)) == NewColor(FromInt(r), g, b, a)
    ensures NewColor(FromArray([Some(r), g, b]), None, None, Some(255)) == NewColor(FromInt(r), g, b, Some(255))
  {
  }

  /** Wrapping a Color copies it, so wrapping twice changes nothing. */
  lemma WrappingIsIdempotent(src: ColorSource)
    ensures var c := NewColor(src, None, None, Some(255));
            NewColor(FromColor(c), None, None, Some(255)) == c
  {
  }

  // ---------------------------------------------------------------- FourSidedStyle

  /** A FourSidedStyle (Margin or Padding); a side may be nil. */
  datatype Sides = Sides(top: Option<int>, right: Option<int>, bottom: Option<int>, left: Option<int>)

  predicate Uniform(s: Sides, v: Option<int>) {
    s.top == v && s.right == v && s.bottom == v && s.left == v
  }

  /** `FourSidedStyle.new(top = 0, right, bottom, left)`: a nil `right` spreads `top` to
      all four sides, whatever `bottom` and `left` are. */
  function NewSides(top: Option<int>, right: Option<int>, bottom: Option<int>, left: Option<int>): (s: Sides)
    ensures right.None? ==> Uniform(s, top)
    ensures right.Some? ==> s == Sides(top, right, bottom, left)
  {
    if right.None? then Sides(top, top, top, top) else Sides(top, right, bottom, left)
  }

  datatype SidesSet = SidesSet(sides: Sides, tracker: Tracker)

  /** `set(top, right, bottom, left)` as written: `@right, @bottom, @left = top` assigns
      `top` to `@right` only and nil to the other two. */
  function SetSidesAsWritten(s: Sides, t: Tracker, top: Option<int>, right: Option<int>, bottom: Option<int>, left: Option<int>): (r: SidesSet)
    ensures r.tracker == Emit(t, "modified", [Symbol("all")])
    ensures r.sides.top == top
    ensures right.None? && bottom.None? && left.None? ==> r.sides == Sides(top, top, None, None)
    ensures !(right.None? && bottom.None? && left.None?) ==> r.sides == SetSides(s, t, top, right, bottom, left).sides
  {
    var t' := Emit(t, "modified", [Symbol("all")]);
    if right.None? && bottom.None? && left.None? then SidesSet(Sides(top, top, None, None), t')
    else SidesSet(Sides(top, Keep(s.right, right), Keep(s.bottom, bottom), Keep(s.left, left)), t')
  }

  /** `current` unless a value is given. */
  function Keep(current: Option<int>, given: Option<int>): (r: Option<int>)
    ensures given.Some? ==> r == given
    ensures given.None? ==> r == current
  {
    if given.None? then current else given
  }

  /** `set` as its comment describes it: one value sets all four sides; otherwise each
      given side is replaced and each nil side is kept. */
  function SetSides(s: Sides, t: Tracker, top: Option<int>, right: Option<int>, bottom: Option<int>, left: Option<int>): (r: SidesSet)
    ensures r.tracker == Emit(t, "modified", [Symbol("all")])
    ensures right.None? && bottom.None? && left.None? ==> Uniform(r.sides, top)
    ensures !(right.None? && bottom.None? && left.None?) ==>
      r.sides.top == top && r.sides.right == Keep(s.right, right)
      && r.sides.bottom == Keep(s.bottom, bottom) && r.sides.left == Keep(s.left, left)
  {
    var t' := Emit(t, "modified", [Symbol("all")]);
    if right.None? && bottom.None? && left.None? then SidesSet(Sides(top, top, top, top), t')
    else SidesSet(Sides(top, Keep(s.right, right), Keep(s.bottom, bottom), Keep(s.left, left)), t')
  }

  /** `set` with one value agrees with the constructor with one value, and `set` with
      four values with the constructor with four values; as written, the one-value
      form leaves the bottom and left sides nil. */
  lemma SetAgreesWithNew(s: Sides, t: Tracker, top: int, right: int, bottom: int, left: int)
    ensures SetSides(s, t, Some(top), None, None, None).sides == NewSides(Some(top), None, None, None)
    ensures SetSides(s, t, Some(top), Some(right), Some(bottom), Some(left)).sides
         == NewSides(Some(top), Some(right), Some(bottom), Some(left))
    ensures SetSidesAsWritten(s, t, Some(top), None, None, None).sides.bottom == None
    ensures SetSidesAsWritten(s, t, Some(top), None, None, None).sides != NewSides(Some(top), None, None, None)
  {
  }

  // ---------------------------------------------------------------- WidgetStyle drawing sources

  /** The renderer a style installs. `Chosen` is whatever a theme's `renderer_for` or a
      caller supplied; the other two are built by `image=` and `color=`. */
  datatype RendererRef = Chosen(id: nat) | ImageRenderer(image: Option<nat>, autoSize: bool) | SolidRenderer(color: Color)

  /** The drawing-source part of a WidgetStyle. `theme` and `image` are object ids. */
  datatype Style = Style(
    theme: Option<nat>,
    image: Option<nat>,
    color: Option<Color>,
    renderer: Option<RendererRef>,
    widget: Option<Id>,
    tracker: Tracker)

  /** `WidgetStyle.new` as far as drawing sources go: nothing chosen and no owner. The
      padding, margin and font go through their volatile setters, each replacing nil,
      so the new style is already damaged and has signalled each of the three. */
  function NewStyle(): (s: Style)
    ensures s.theme.None? && s.image.None? && s.color.None? && s.renderer.None? && s.widget.None?
    ensures Valid(s.tracker) && Outside(s.tracker) && s.tracker.damaged
    ensures s.tracker.published == [Modified(Symbol("padding")), Modified(Symbol("margin")), Modified(Symbol("font"))]
  {
    var padded := Damage(Initial, Symbol("padding")).tracker;
    var margined := Damage(padded, Symbol("margin")).tracker;
    Style(None, None, None, None, None, Damage(margined, Symbol("font")).tracker)
  }

  /** At most one of theme, image and colour is set. */
  predicate OneSource(s: Style) {
    (s.theme.Some? ==> s.image.None? && s.color.None?) && (s.image.Some? ==> s.color.None?)
  }

  function Changed(name: Sym): Published {
    Published("modified", [Symbol(name)])
  }

  /** `set_renderer`: signals `:modified, :renderer` and installs the renderer. */
  function InstallRenderer(s: Style, v: Option<RendererRef>): (r: Style)
    ensures r.renderer == v && r.tracker.published == s.tracker.published + [Changed("renderer")]
    ensures r.(renderer := s.renderer, tracker := s.tracker) == s
  {
    s.(tracker := Emit(s.tracker, "modified", [Symbol("renderer")]), renderer := v)
  }

  function UnsetTheme(s: Style): (r: Style)
    ensures r.theme.None? && r.tracker.published == s.tracker.published + [Changed("theme")]
    ensures r.(theme := s.theme, tracker := s.tracker) == s
  {
    s.(tracker := Emit(s.tracker, "modified", [Symbol("theme")]), theme := None)
  }

  function UnsetImage(s: Style): (r: Style)
    ensures r.image.None? && r.tracker.published == s.tracker.published + [Changed("image")]
    ensures r.(image := s.image, tracker := s.tracker) == s
  {
    s.(tracker := Emit(s.tracker, "modified", [Symbol("image")]), image := None)
  }

  function UnsetColor(s: Style): (r: Style)
    ensures r.color.None? && r.tracker.published == s.tracker.published + [Changed("color")]
    ensures r.(color := s.color, tracker := s.tracker) == s
  {
    s.(tracker := Emit(s.tracker, "modified", [Symbol("color")]), color := None)
  }

  /** `renderer=(value)`: clears theme, image and colour, then installs `value`. */
  function SetRenderer(s: Style, v: Option<RendererRef>): (r: Style)
    ensures r.theme.None? && r.image.None? && r.color.None? && r.renderer == v
    ensures r.tracker.published == s.tracker.published
      + [Changed("theme"), Changed("image"), Changed("color"), Changed("renderer")]
    ensures r.widget == s.widget
  {
    InstallRenderer(UnsetColor(UnsetImage(UnsetTheme(s))), v)
  }

  /** `theme=(value)` behind its volatile wrapper. `chosen` is `value.renderer_for(widget)`.
      With an owner and a nil theme, `renderer_for` is called on nil and raises. */
  function SetTheme(s: Style, v: Option<nat>, chosen: Option<RendererRef>): (r: Result<Style>)
    ensures v == s.theme ==> r == Ok(s)
    ensures v != s.theme && s.widget.Some? && v.None? ==> r == Err(NoMethodError)
    ensures r.Ok? && v != s.theme ==>
      && r.value.theme == v && r.value.image.None? && r.value.color.None?
      && r.value.renderer == (if s.widget.Some? then chosen else s.renderer)
      && r.value.widget == s.widget
    ensures Valid(s.tracker) ==> (r.Ok? ==> Valid(r.value.tracker))
  {
    if v == s.theme then Ok(s)
    else
      var s1 := s.(tracker := Damage(s.tracker, Symbol("theme")).tracker);
      var s2 := UnsetColor(UnsetImage(s1));
      if s2.widget.None? then Ok(s2.(theme := v))
      else if v.None? then Err(NoMethodError)
      else Ok(InstallRenderer(s2, chosen).(theme := v))
  }

  /** `image=(value)` behind its volatile wrapper: an auto-sizing ImageRenderer. */
  function SetImage(s: Style, v: Option<nat>): (r: Style)
    ensures v == s.image ==> r == s
    ensures v != s.image ==>
      && r.image == v && r.theme.None? && r.color.None?
      && r.renderer == Some(ImageRenderer(v, true)) && r.widget == s.widget
    ensures Valid(s.tracker) ==> Valid(r.tracker)
  {
    if v == s.image then s
    else
      var s1 := s.(tracker := Damage(s.tracker, Symbol("image")).tracker);
      InstallRenderer(UnsetColor(UnsetTheme(s1)).(image := v), Some(ImageRenderer(v, true)))
  }

  /** The volatile wrapper's early return for `color=`: Color does not define `==`, so
      the argument equals the stored colour only when both are nil or when the argument
      is the very Color object the style holds (`sameObject`). */
  predicate HoldsColor(s: Style, src: ColorSource, sameObject: bool) {
    (src == NoColor && s.color.None?) || (sameObject && s.color.Some? && src == FromColor(s.color.value))
  }

  /** `color=(value)` behind its volatile wrapper: a SolidRenderer of `Color.new(value)`.
      A distinct Color with the same channels is a change. */
  function SetColor(s: Style, src: ColorSource, sameObject: bool): (r: Style)
    ensures HoldsColor(s, src, sameObject) ==> r == s
    ensures !HoldsColor(s, src, sameObject) ==>
      && r.color == Some(NewColor(src, None, None, Some(255))) && r.theme.None? && r.image.None?
      && r.renderer == Some(SolidRenderer(NewColor(src, None, None, Some(255)))) && r.widget == s.widget
      && |r.tracker.published| > |s.tracker.published|
    ensures Valid(s.tracker) ==> Valid(r.tracker)
  {
    if HoldsColor(s, src, sameObject) then s
    else
      var c := NewColor(src, None, None, Some(255));
      var s1 := s.(tracker := Damage(s.tracker, Symbol("color")).tracker);
      InstallRenderer(UnsetImage(UnsetTheme(s1)).(color := Some(c)), Some(SolidRenderer(c)))
  }

  /** Assigning nil to a fresh style's colour returns at once, while assigning a new
      Color equal to the one held still replaces it and signals. */
  lemma ColorAssignmentIsByIdentity(s: Style, c: Color)
    requires s.color == Some(c)
    ensures SetColor(NewStyle(), NoColor, false) == NewStyle()
    ensures SetColor(s, FromColor(c), true) == s
    ensures SetColor(s, FromColor(c), false).color == Some(c)
    ensures SetColor(s, FromColor(c), false).tracker.published != s.tracker.published
  {
  }

  /** `set_widget(widget)`: a theme chosen before the style had an owner is applied now.
      `chosen` is the theme's `renderer_for(widget)`. */
  function SetWidget(s: Style, w: Option<Id>, chosen: Option<RendererRef>): (r: Style)
    ensures r.widget == w && r.theme == s.theme && r.image == s.image && r.color == s.color
    ensures s.theme.Some? && s.renderer.None? ==> r.renderer == chosen
    ensures !(s.theme.Some? && s.renderer.None?) ==> r == s.(widget := w)
  {
    var s1 := s.(widget := w);
    if s1.theme.Some? && s1.renderer.None? then InstallRenderer(s1, chosen) else s1
  }

  /** Every way of choosing a drawing source keeps at most one of them set; a setter
      that changes anything leaves exactly its own source set. */
  lemma SettersKeepOneSource(s: Style, th: Option<nat>, chosen: Option<RendererRef>, img: Option<nat>, src: ColorSource, same: bool, v: Option<RendererRef>, w: Option<Id>)
    requires OneSource(s)
    ensures OneSource(SetRenderer(s, v))
    ensures SetTheme(s, th, chosen).Ok? ==> OneSource(SetTheme(s, th, chosen).value)
    ensures OneSource(SetImage(s, img))
    ensures OneSource(SetColor(s, src, same))
    ensures OneSource(SetWidget(s, w, chosen))
  {
  }

  /** A theme set before the widget is attached ends up with the same renderer as one set
      after: `set_widget` defers exactly the renderer `theme=` would have installed. */
  lemma ThemeBeforeOrAfterOwner(w: Id, th: nat, chosen: Option<RendererRef>)
    ensures SetTheme(NewStyle(), Some(th), chosen).Ok?
    ensures SetWidget(SetTheme(NewStyle(), Some(th), chosen).value, Some(w), chosen).renderer
         == SetTheme(SetWidget(NewStyle(), Some(w), chosen), Some(th), chosen).value.renderer
  {
  }
}
