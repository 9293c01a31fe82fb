/** lib/gglib/widgets/scroll.rb: a Scroll's range and value intervals, the rule that hides
    its grip, the clamp that keeps a dragged grip between the two arrow buttons, and the
    type switch that rebuilds its parts. */
module Scroll {
  import opened Base
  import opened Volatile
  import opened Widgets

  /** A Ruby integer range `first..last` (`first...last` when `excludeEnd`). */
  datatype RubyRange = RubyRange(first: int, last: int, excludeEnd: bool)

  /** Integer membership in a Ruby range. */
  predicate InRange(r: RubyRange, k: int) {
    r.first <= k && (if r.excludeEnd then k < r.last else k <= r.last)
  }

  /** The half-open bounds `[first, end)` the setters store: an inclusive end moves up by
      one, an exclusive one is kept. They hold exactly the range's integers. */
  function HalfOpen(r: RubyRange): (b: (int, int))
    ensures b.0 == r.first
    ensures forall k :: InRange(r, k) <==> b.0 <= k < b.1
  {
    (r.first, if r.excludeEnd then r.last else r.last + 1)
  }

  /** A Scroll: its type, the stored range and value bounds, its four parts, the number of
      times `init` has rebuilt the parts, and its own damage tracker. */
  datatype Scroll = Scroll(
    kind: Sym,
    rangeStart: int, rangeEnd: int, valueStart: int, valueEnd: int,
    decrease: Widget, increase: Widget, bar: Widget, grip: Widget,
    rebuilds: nat, tracker: Tracker)

  /** `range=` behind its volatile wrapper, which compares against an `@range` that is
      never assigned and so always damages `:range`. */
  function SetRange(s: Scroll, r: RubyRange): (t: Scroll)
    ensures (t.rangeStart, t.rangeEnd) == HalfOpen(r)
    ensures forall k :: InRange(r, k) <==> t.rangeStart <= k < t.rangeEnd
    ensures t.(rangeStart := s.rangeStart, rangeEnd := s.rangeEnd, tracker := s.tracker) == s
    ensures Valid(s.tracker) && Outside(s.tracker) ==>
      t.tracker.published == s.tracker.published + [Modified(Symbol("range"))]
  {
    var b := HalfOpen(r);
    s.(rangeStart := b.0, rangeEnd := b.1, tracker := Damage(s.tracker, Symbol("range")).tracker)
  }

  /** `value=`, as `range=`: always damages `:value`. */
  function SetValue(s: Scroll, r: RubyRange): (t: Scroll)
    ensures (t.valueStart, t.valueEnd) == HalfOpen(r)
    ensures forall k :: InRange(r, k) <==> t.valueStart <= k < t.valueEnd
    ensures t.(valueStart := s.valueStart, valueEnd := s.valueEnd, tracker := s.tracker) == s
    ensures Valid(s.tracker) && Outside(s.tracker) ==>
      t.tracker.published == s.tracker.published + [Modified(Symbol("value"))]
  {
    var b := HalfOpen(r);
    s.(valueStart := b.0, valueEnd := b.1, tracker := Damage(s.tracker, Symbol("value")).tracker)
  }

  /** An inclusive range and the exclusive one a step further store the same bounds. */
  lemma InclusiveIsExclusivePlusOne(s: Scroll, first: int, last: int)
    ensures SetRange(s, RubyRange(first, last, false)).rangeEnd == SetRange(s, RubyRange(first, last + 1, true)).rangeEnd
    ensures SetValue(s, RubyRange(first, last, false)) == SetValue(s, RubyRange(first, last + 1, true))
  {
  }

  // ---------------------------------------------------------------- the grip's size

  /** The value interval covers the whole range. */
  predicate Covered(s: Scroll) {
    s.valueStart <= s.rangeStart && s.valueEnd >= s.rangeEnd
  }

  /** For a non-empty range, the grip-hiding test holds exactly when every position of
      the range lies inside the value interval. */
  lemma CoveredMeansEveryPositionShown(s: Scroll)
    requires s.rangeStart < s.rangeEnd
    ensures Covered(s) <==> forall k :: Between(s.rangeStart, k, s.rangeEnd) ==> Between(s.valueStart, k, s.valueEnd)
  {
    if forall k :: Between(s.rangeStart, k, s.rangeEnd) ==> Between(s.valueStart, k, s.valueEnd) {
      assert Between(s.rangeStart, s.rangeStart, s.rangeEnd);
      assert Between(s.rangeStart, s.rangeEnd - 1, s.rangeEnd);
    }
  }

  /** `lo <= k < hi`. */
  predicate Between(lo: int, k: int, hi: int) {
    lo <= k < hi
  }

  /** The length of the bar along the scrolling axis as written: the type is compared with
      the misspelt `:horozontal`, which no Scroll has, so it is the bar's height. */
  function BarLengthAsWritten(s: Scroll): (n: int)
    ensures s.kind != "horozontal" ==> n == Height(s.bar)
  {
    if s.kind == "horozontal" then Width(s.bar) else Height(s.bar)
  }

  /** The bar's length along the scrolling axis: its width for a horizontal Scroll,
      its height otherwise. */
  function BarLength(s: Scroll): (n: int)
    ensures s.kind == "horizontal" ==> n == Width(s.bar)
    ensures s.kind != "horizontal" ==> n == Height(s.bar)
  {
    if s.kind == "horizontal" then Width(s.bar) else Height(s.bar)
  }

  /** For a horizontal Scroll whose bar is not square, the grip is scaled against the
      wrong side as written; a vertical Scroll is unaffected. */
  lemma HorizontalBarLengthMisread(s: Scroll)
    ensures s.kind == "horizontal" && Width(s.bar) != Height(s.bar) ==> BarLengthAsWritten(s) != BarLength(s)
    ensures s.kind != "horizontal" && s.kind != "horozontal" ==> BarLengthAsWritten(s) == BarLength(s)
  {
  }

  /** What `size_grip` settles: the grip is hidden, or it is scaled to the value's share
      of the range along a bar of the given length (the scaling itself is in floating
      point). */
  datatype GripSize = HiddenGrip | Scaled(barLength: int, valueLength: int, rangeLength: int)

  datatype Sized = Sized(scroll: Scroll, size: GripSize)

  /** `size_grip` as written: when the value covers the range the grip is hidden (its box
      kept); otherwise the grip is scaled by the value length over the range length along
      a bar length that is always the bar's height, because the type test compares with
      the misspelt `:horozontal`. */
  function SizeGripAsWritten(s: Scroll): (r: Sized)
    ensures Covered(s) <==> r.size.HiddenGrip?
    ensures Covered(s) ==>
      Hidden(r.scroll.grip) && r.scroll.grip.frame == s.grip.frame && r.scroll == s.(grip := r.scroll.grip)
    ensures !Covered(s) ==>
      && r.scroll == s && r.size.Scaled?
      && r.size.valueLength == s.valueEnd - s.valueStart && r.size.rangeLength == s.rangeEnd - s.rangeStart
    ensures !Covered(s) && s.kind != "horozontal" ==> r.size.barLength == Height(s.bar)
  {
    if Covered(s) then Sized(s.(grip := Hide(s.grip)), HiddenGrip)
    else Sized(s, Scaled(BarLengthAsWritten(s), s.valueEnd - s.valueStart, s.rangeEnd - s.rangeStart))
  }

  /** `size_grip` with the type test corrected: as written, except that a horizontal
      Scroll is scaled along the bar's width. */
  function SizeGrip(s: Scroll): (r: Sized)
    ensures Covered(s) <==> r.size.HiddenGrip?
    ensures Covered(s) ==>
      Hidden(r.scroll.grip) && r.scroll.grip.frame == s.grip.frame && r.scroll == s.(grip := r.scroll.grip)
    ensures !Covered(s) ==>
      r.scroll == s && r.size == Scaled(BarLength(s), s.valueEnd - s.valueStart, s.rangeEnd - s.rangeStart)
  {
    if Covered(s) then Sized(s.(grip := Hide(s.grip)), HiddenGrip)
    else Sized(s, Scaled(BarLength(s), s.valueEnd - s.valueStart, s.rangeEnd - s.rangeStart))
  }

  /** The written and the corrected `size_grip` hide the grip in the same cases and
      leave the same Scroll; they scale along different lengths exactly when the value
      does not cover the range of a horizontal Scroll whose bar is not square. */
  lemma SizeGripAsWrittenMisscales(s: Scroll)
    ensures SizeGripAsWritten(s).scroll == SizeGrip(s).scroll
    ensures SizeGripAsWritten(s).size.HiddenGrip? == SizeGrip(s).size.HiddenGrip?
    ensures s.kind != "horozontal" ==>
      (SizeGripAsWritten(s) != SizeGrip(s) <==> !Covered(s) && s.kind == "horizontal" && Width(s.bar) != Height(s.bar))
  {
  }

  /** The grip length along the scrolling axis. */
  function GripLength(s: Scroll): int {
    if s.kind == "horizontal" then Width(s.grip) else Height(s.grip)
  }

  /** `size_grip` carried out on the grip. Its floating-point scaling is not modelled: the
      length it produced arrives as `gripLength`. A covered range hides the grip;
      otherwise the grip takes that length along the scrolling axis, keeping its start
      and its other side. */
  function ApplyGripSize(s: Scroll, gripLength: int): (r: Scroll)
    ensures Covered(s) ==> r == SizeGrip(s).scroll
    ensures !Covered(s) ==> GripLength(r) == gripLength && Hidden(r.grip) == Hidden(s.grip)
    ensures r.grip.frame.x1 == s.grip.frame.x1 && r.grip.frame.y1 == s.grip.frame.y1
    ensures s.kind == "horizontal" ==> Height(r.grip) == Height(s.grip)
    ensures s.kind != "horizontal" ==> Width(r.grip) == Width(s.grip)
    ensures r.(grip := s.grip) == s
  {
    if Covered(s) then SizeGrip(s).scroll
    else if s.kind == "horizontal" then s.(grip := SetWidth(s.grip, gripLength))
    else s.(grip := SetHeight(s.grip, gripLength))
  }

  /** The clamped move of `on_grip_drag`, before `size_grip`. */
  function DragGrip(s: Scroll, x: int, y: int): (g: Widget)
    ensures Width(g) == Width(s.grip) && Height(g) == Height(s.grip) && Hidden(g) == Hidden(s.grip)
    ensures s.kind == "horizontal" ==>
      var p := s.grip.frame.x1 + x;
      && g.frame.y1 == s.grip.frame.y1
      && g.frame.x1 == (if p < s.decrease.frame.x2 then s.decrease.frame.x2
                        else if p + Width(s.grip) > s.increase.frame.x1 then s.increase.frame.x1 - Width(s.grip)
                        else p)
    ensures s.kind != "horizontal" ==>
      var p := s.grip.frame.y1 + y;
      && g.frame.x1 == s.grip.frame.x1
      && g.frame.y1 == (if p < s.decrease.frame.y2 then s.decrease.frame.y2
                        else if p + Height(s.grip) > s.increase.frame.y1 then s.increase.frame.y1 - Height(s.grip)
                        else p)
  {
    var g := s.grip;
    if s.kind == "horizontal" then
      var g1 := SetX(g, g.frame.x1 + x);
      if g1.frame.x1 < s.decrease.frame.x2 then SetX(g1, s.decrease.frame.x2)
      else if g1.frame.x2 > s.increase.frame.x1 then SetX(g1, s.increase.frame.x1 - Width(g1))
      else g1
    else
      var g1 := SetY(g, g.frame.y1 + y);
      if g1.frame.y1 < s.decrease.frame.y2 then SetY(g1, s.decrease.frame.y2)
      else if g1.frame.y2 > s.increase.frame.y1 then SetY(g1, s.increase.frame.y1 - Height(g1))
      else g1
  }

  /** `on_grip_drag(x, y)`: the grip moves along the scrolling axis by the matching
      displacement; a grip that passed the decrease button is put back against it, one
      that passed the increase button is pulled back against that, both judged with the
      grip's length before the drag; then `size_grip` hides the grip or gives it
      `gripLength` along the axis. */
  function OnGripDrag(s: Scroll, x: int, y: int, gripLength: int): (r: Scroll)
    ensures r.(grip := s.grip) == s
    ensures r.grip.frame.x1 == DragGrip(s, x, y).frame.x1 && r.grip.frame.y1 == DragGrip(s, x, y).frame.y1
    ensures Covered(s) ==> Width(r.grip) == Width(s.grip) && Height(r.grip) == Height(s.grip)
    ensures !Covered(s) ==> GripLength(r) == gripLength
    ensures s.kind == "horizontal" ==> Height(r.grip) == Height(s.grip)
    ensures s.kind != "horizontal" ==> Width(r.grip) == Width(s.grip)
    ensures Hidden(r.grip) <==> Covered(s) || Hidden(s.grip)
  {
    ApplyGripSize(s.(grip := DragGrip(s, x, y)), gripLength)
  }

  /** The track between the two buttons along the scrolling axis is long enough for the
      grip. */
  predicate TrackFits(s: Scroll) {
    if s.kind == "horizontal" then s.decrease.frame.x2 + Width(s.grip) <= s.increase.frame.x1
    else s.decrease.frame.y2 + Height(s.grip) <= s.increase.frame.y1
  }

  /** The grip lies within the track. */
  predicate InTrack(s: Scroll) {
    if s.kind == "horizontal" then s.decrease.frame.x2 <= s.grip.frame.x1 && s.grip.frame.x2 <= s.increase.frame.x1
    else s.decrease.frame.y2 <= s.grip.frame.y1 && s.grip.frame.y2 <= s.increase.frame.y1
  }

  /** In a track that fits the grip, a drag starts the grip inside the track whatever the
      displacement, and one that stays inside moves it by exactly the displacement. The
      whole grip stays inside when the range is covered or the new length is no longer
      than the old one, in particular once an earlier `size_grip` gave it that length. */
  lemma DragStaysInTrack(s: Scroll, x: int, y: int, gripLength: int)
    requires TrackFits(s)
    ensures var r := OnGripDrag(s, x, y, gripLength);
      if s.kind == "horizontal" then s.decrease.frame.x2 <= r.grip.frame.x1 <= s.increase.frame.x1 - Width(s.grip)
      else s.decrease.frame.y2 <= r.grip.frame.y1 <= s.increase.frame.y1 - Height(s.grip)
    ensures Covered(s) || gripLength <= GripLength(s) ==>
      InTrack(OnGripDrag(s, x, y, gripLength)) && TrackFits(OnGripDrag(s, x, y, gripLength))
    ensures s.kind == "horizontal" && InTrack(s.(grip := SetX(s.grip, s.grip.frame.x1 + x))) ==>
      OnGripDrag(s, x, y, gripLength).grip.frame.x1 == s.grip.frame.x1 + x
    ensures s.kind != "horizontal" && InTrack(s.(grip := SetY(s.grip, s.grip.frame.y1 + y))) ==>
      OnGripDrag(s, x, y, gripLength).grip.frame.y1 == s.grip.frame.y1 + y
  {
  }

  /** The clamp is judged with the old length, so a grip lengthened by `size_grip` while
      pulled back against the increase button overhangs it by the difference. */
  lemma LongerGripOverhangs(s: Scroll, x: int, gripLength: int)
    requires s.kind == "horizontal" && TrackFits(s) && !Covered(s)
    requires s.grip.frame.x1 + x + Width(s.grip) > s.increase.frame.x1 && gripLength > Width(s.grip)
    ensures var r := OnGripDrag(s, x, 0, gripLength);
      r.grip.frame.x2 == s.increase.frame.x1 + (gripLength - Width(s.grip)) && !InTrack(r)
  {
  }

  // ---------------------------------------------------------------- the type

  /** `type=` behind its volatile wrapper: the same type changes nothing; a new one
      damages `:type`, is stored, and has `init` rebuild the parts. */
  function SetType(s: Scroll, v: Sym): (r: Scroll)
    ensures r.kind == v
    ensures v == s.kind ==> r == s
    ensures v != s.kind ==> r.rebuilds == s.rebuilds + 1
    ensures v != s.kind && Valid(s.tracker) && Outside(s.tracker) ==>
      r.tracker.published == s.tracker.published + [Modified(Symbol("type"))]
  {
    if v == s.kind then s
    else s.(kind := v, rebuilds := s.rebuilds + 1, tracker := Damage(s.tracker, Symbol("type")).tracker)
  }

  /** Setting the same type twice rebuilds at most once. */
  lemma SetTypeIdempotent(s: Scroll, v: Sym)
    ensures SetType(SetType(s, v), v) == SetType(s, v)
    ensures SetType(SetType(s, v), v).rebuilds <= s.rebuilds + 1
  {
  }
}
