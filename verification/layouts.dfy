/** lib/gglib/layout.rb: the four layouts a Container uses to place its children. Each
    `align` reads the container's box, padding and overflow policies and the children's
    boxes and margins, moves children through `move` (or `x=`/`y=`), and returns an
    extent `[x, y]`. The overflow `case` arms that only hold comments do nothing. */
module Layouts {
  import opened Base
  import opened Styles
  import opened Widgets
  import opened Containers

  // ---------------------------------------------------------------- FreeLayout

  /** The running maximum of the children's right edges, continued from `acc`. */
  function MaxRightFrom(s: Store, ids: seq<Id>, acc: int): (m: int)
    ensures m >= acc
    ensures forall i :: 0 <= i < |ids| && ids[i] in s ==> s[ids[i]].frame.x2 <= m
    ensures m == acc || exists i :: 0 <= i < |ids| && ids[i] in s && m == s[ids[i]].frame.x2
    decreases |ids|
  {
    if ids == [] then acc
    else
      var x := ids[0];
      MaxRightFrom(s, ids[1..], if x in s && s[x].frame.x2 > acc then s[x].frame.x2 else acc)
  }

  /** The running maximum of the children's bottom edges, continued from `acc`. */
  function MaxBottomFrom(s: Store, ids: seq<Id>, acc: int): (m: int)
    ensures m >= acc
    ensures forall i :: 0 <= i < |ids| && ids[i] in s ==> s[ids[i]].frame.y2 <= m
    ensures m == acc || exists i :: 0 <= i < |ids| && ids[i] in s && m == s[ids[i]].frame.y2
    decreases |ids|
  {
    if ids == [] then acc
    else
      var x := ids[0];
      MaxBottomFrom(s, ids[1..], if x in s && s[x].frame.y2 > acc then s[x].frame.y2 else acc)
  }

  /** FreeLayout#align: the largest right and bottom edges over every child, floating ones
      included, each floored at 0. It moves nothing: only the extent comes back. */
  method FreeAlign(s: Store, ids: seq<Id>) returns (right: int, bottom: int)
    ensures right == MaxRightFrom(s, ids, 0) && bottom == MaxBottomFrom(s, ids, 0)
    ensures right >= 0 && bottom >= 0
    ensures forall i :: 0 <= i < |ids| && ids[i] in s ==> s[ids[i]].frame.x2 <= right && s[ids[i]].frame.y2 <= bottom
  {
    right, bottom := 0, 0;
    var i := 0;
    while i < |ids|
      invariant 0 <= i <= |ids|
      invariant MaxRightFrom(s, ids[i..], right) == MaxRightFrom(s, ids, 0)
      invariant MaxBottomFrom(s, ids[i..], bottom) == MaxBottomFrom(s, ids, 0)
    {
      var x := ids[i];
      assert ids[i..][1..] == ids[i + 1..];
      if x in s && s[x].frame.x2 > right {
        right := s[x].frame.x2;
      }
      if x in s && s[x].frame.y2 > bottom {
        bottom := s[x].frame.y2;
      }
      i := i + 1;
    }
    assert ids[i..] == [];
  }

  // ---------------------------------------------------------------- RelativeLayout

  /** The two metadata fields RelativeLayout keeps on its container: the last position
      (absent before the first `align`) and the children it has already seen. */
  datatype Memory = Memory(last: Option<(int, int)>, known: set<Id>)

  /** A container's metadata before its first `align`. */
  const NoMemory := Memory(None, {})

  datatype Followed = Followed(store: Store, known: set<Id>, right: int, bottom: int)

  /** A widget translated by `x += dx` then `y += dy`. */
  function Nudge(w: Widget, dx: int, dy: int): (r: Widget)
    ensures Bounds(r) == Primitives.Rect(w.frame.x1 + dx, w.frame.y1 + dy, w.frame.x2 + dx, w.frame.y2 + dy)
    ensures r.frame.autoWidth == w.frame.autoWidth && r.frame.autoHeight == w.frame.autoHeight && OnlyBoxChanged(w, r)
  {
    var a := SetX(w, w.frame.x1 + dx);
    SetY(a, a.frame.y1 + dy)
  }

  /** RelativeLayout's loop: a child it already knows is translated by `(dx, dy)`, a new
      one is only recorded; the running extent takes each child's box after that. */
  function Follow(s: Store, ids: seq<Id>, known: set<Id>, dx: int, dy: int, right: int, bottom: int): (r: Followed)
    ensures r.store.Keys == s.Keys
    ensures forall x {:trigger x in r.known} :: x in r.known <==> x in known || (x in s && x in ids)
    ensures forall x :: x in s && x !in ids ==> r.store[x] == s[x]
    ensures r.right >= right && r.bottom >= bottom
    decreases |ids|
  {
    if ids == [] then Followed(s, known, right, bottom)
    else
      var x := ids[0];
      if x !in s then Follow(s, ids[1..], known, dx, dy, right, bottom)
      else
        var v := Visit(s, x, known, dx, dy, right, bottom);
        Follow(v.store, ids[1..], v.known, dx, dy, v.right, v.bottom)
  }

  /** One child of RelativeLayout's loop: moved when known, then recorded, and the
      running extent widened to its box. */
  function Visit(s: Store, x: Id, known: set<Id>, dx: int, dy: int, right: int, bottom: int): (r: Followed)
    requires x in s
    ensures r.store.Keys == s.Keys && forall y :: y in r.known <==> y in known || y == x
    ensures forall y :: y in s && y != x ==> r.store[y] == s[y]
    ensures r.store[x] == if x in known then Nudge(s[x], dx, dy) else s[x]
    ensures r.right == (if r.store[x].frame.x2 > right then r.store[x].frame.x2 else right)
    ensures r.bottom == (if r.store[x].frame.y2 > bottom then r.store[x].frame.y2 else bottom)
  {
    var w := if x in known then Nudge(s[x], dx, dy) else s[x];
    Followed(s[x := w], known + {x},
      if w.frame.x2 > right then w.frame.x2 else right,
      if w.frame.y2 > bottom then w.frame.y2 else bottom)
  }

  /** Following touches only boxes, and keeps every child's size. */
  lemma {:induction false} FollowOnlyMoves(s: Store, ids: seq<Id>, known: set<Id>, dx: int, dy: int, right: int, bottom: int)
    ensures var f := Follow(s, ids, known, dx, dy, right, bottom);
            forall x :: x in s ==> OnlyBoxChanged(s[x], f.store[x]) && Width(f.store[x]) == Width(s[x]) && Height(f.store[x]) == Height(s[x])
    decreases |ids|
  {
    if ids != [] {
      var x := ids[0];
      if x in s {
        var v := Visit(s, x, known, dx, dy, right, bottom);
        FollowOnlyMoves(v.store, ids[1..], v.known, dx, dy, v.right, v.bottom);
      } else {
        FollowOnlyMoves(s, ids[1..], known, dx, dy, right, bottom);
      }
    }
  }

  /** Where the container was last seen: the recorded position, or its position now on
      the first `align`. */
  function LastPosition(c: Widget, m: Memory): (int, int) {
    if m.last.Some? then m.last.value else (c.frame.x1, c.frame.y1)
  }

  datatype Relative = Relative(store: Store, memory: Memory, extent: (int, int))

  /** RelativeLayout#align as written: the vertical displacement is taken from `x1`, and
      the last position is recorded once and never updated. */
  function RelativeAsWritten(s: Store, c: Widget, ids: seq<Id>, m: Memory): (r: Relative)
    ensures r.memory.last == Some(LastPosition(c, m))
    ensures r.store.Keys == s.Keys
    ensures forall x {:trigger x in r.memory.known} :: x in r.memory.known <==> x in m.known || (x in s && x in ids)
    ensures m.known <= r.memory.known
    ensures forall x :: x in s && Count(ids, x) == 1 ==>
      Bounds(r.store[x]) == Moved(Bounds(s[x]), x in m.known, c.frame.x1 - LastPosition(c, m).0, c.frame.x1 - LastPosition(c, m).1)
  {
    var last := LastPosition(c, m);
    FollowMovesAll(s, ids, m.known, c.frame.x1 - last.0, c.frame.x1 - last.1, 0, 0);
    var f := Follow(s, ids, m.known, c.frame.x1 - last.0, c.frame.x1 - last.1, 0, 0);
    Relative(f.store, Memory(Some(last), f.known), (f.right, f.bottom))
  }

  /** RelativeLayout#align as intended: known children follow the container's
      displacement since the previous `align`, which is then recorded. */
  function RelativeAlign(s: Store, c: Widget, ids: seq<Id>, m: Memory): (r: Relative)
    ensures r.memory.last == Some((c.frame.x1, c.frame.y1))
    ensures r.store.Keys == s.Keys
    ensures forall x {:trigger x in r.memory.known} :: x in r.memory.known <==> x in m.known || (x in s && x in ids)
    ensures m.known <= r.memory.known
    ensures r.extent.0 >= 0 && r.extent.1 >= 0
    ensures forall x :: x in s && Count(ids, x) == 1 ==>
      Bounds(r.store[x]) == Moved(Bounds(s[x]), x in m.known, c.frame.x1 - LastPosition(c, m).0, c.frame.y1 - LastPosition(c, m).1)
  {
    var last := LastPosition(c, m);
    FollowMovesAll(s, ids, m.known, c.frame.x1 - last.0, c.frame.y1 - last.1, 0, 0);
    var f := Follow(s, ids, m.known, c.frame.x1 - last.0, c.frame.y1 - last.1, 0, 0);
    Relative(f.store, Memory(Some((c.frame.x1, c.frame.y1)), f.known), (f.right, f.bottom))
  }

  /** No two entries of `ids` are the same widget. */
  predicate Distinct(ids: seq<Id>) {
    forall i, j :: 0 <= i < j < |ids| ==> ids[i] != ids[j]
  }

  /** A child listed once: moved by `(dx, dy)` when known, left in place when new. */
  lemma {:induction false} FollowMoves(s: Store, ids: seq<Id>, known: set<Id>, dx: int, dy: int, right: int, bottom: int, x: Id)
    requires Count(ids, x) == 1 && x in s
    ensures var b := Bounds(s[x]);
            Bounds(Follow(s, ids, known, dx, dy, right, bottom).store[x])
            == if x in known then Primitives.Rect(b.x1 + dx, b.y1 + dy, b.x2 + dx, b.y2 + dy) else b
    decreases |ids|
  {
    var y := ids[0];
    if y == x {
      assert x !in ids[1..];
    } else if y !in s {
      FollowMoves(s, ids[1..], known, dx, dy, right, bottom, x);
    } else {
      var v := Visit(s, y, known, dx, dy, right, bottom);
      FollowMoves(v.store, ids[1..], v.known, dx, dy, v.right, v.bottom, x);
    }
  }

  /** FollowMoves for every child listed once. */
  lemma FollowMovesAll(s: Store, ids: seq<Id>, known: set<Id>, dx: int, dy: int, right: int, bottom: int)
    ensures forall x :: x in s && Count(ids, x) == 1 ==>
      Bounds(Follow(s, ids, known, dx, dy, right, bottom).store[x]) == Moved(Bounds(s[x]), x in known, dx, dy)
  {
    forall x | x in s && Count(ids, x) == 1
      ensures Bounds(Follow(s, ids, known, dx, dy, right, bottom).store[x]) == Moved(Bounds(s[x]), x in known, dx, dy)
    {
      FollowMoves(s, ids, known, dx, dy, right, bottom, x);
    }
  }

  /** A box translated by `(dx, dy)` when `move` holds, kept otherwise. */
  function Moved(b: Primitives.Rect, move: bool, dx: int, dy: int): Primitives.Rect {
    if move then Primitives.Rect(b.x1 + dx, b.y1 + dy, b.x2 + dx, b.y2 + dy) else b
  }

  /** With no displacement nothing moves. */
  lemma {:induction false} FollowStillBounds(s: Store, ids: seq<Id>, known: set<Id>, right: int, bottom: int)
    ensures var f := Follow(s, ids, known, 0, 0, right, bottom);
            forall x :: x in s ==> Bounds(f.store[x]) == Bounds(s[x])
    decreases |ids|
  {
    if ids != [] {
      var x := ids[0];
      if x in s {
        var v := Visit(s, x, known, 0, 0, right, bottom);
        assert Bounds(v.store[x]) == Bounds(s[x]);
        FollowStillBounds(v.store, ids[1..], v.known, v.right, v.bottom);
      } else {
        FollowStillBounds(s, ids[1..], known, right, bottom);
      }
    }
  }

  /** With no displacement the extent is FreeLayout's running maximum. */
  lemma {:induction false} FollowStillExtent(s: Store, ids: seq<Id>, known: set<Id>, right: int, bottom: int)
    ensures var f := Follow(s, ids, known, 0, 0, right, bottom);
            f.right == MaxRightFrom(s, ids, right) && f.bottom == MaxBottomFrom(s, ids, bottom)
    decreases |ids|
  {
    if ids != [] {
      var x := ids[0];
      if x in s {
        var v := Visit(s, x, known, 0, 0, right, bottom);
        assert Bounds(v.store[x]) == Bounds(s[x]);
        FollowStillExtent(v.store, ids[1..], v.known, v.right, v.bottom);
        MaxFromSameBounds(s, v.store, ids[1..]);
        assert MaxRightFrom(s, ids, right) == MaxRightFrom(s, ids[1..], v.right);
        assert MaxBottomFrom(s, ids, bottom) == MaxBottomFrom(s, ids[1..], v.bottom);
      } else {
        FollowStillExtent(s, ids[1..], known, right, bottom);
      }
    }
  }

  /** The running maxima read only the boxes. */
  lemma {:induction false} MaxFromSameBounds(s: Store, t: Store, ids: seq<Id>)
    requires t.Keys == s.Keys && forall x :: x in s ==> Bounds(t[x]) == Bounds(s[x])
    ensures forall acc :: MaxRightFrom(t, ids, acc) == MaxRightFrom(s, ids, acc)
    ensures forall acc :: MaxBottomFrom(t, ids, acc) == MaxBottomFrom(s, ids, acc)
    decreases |ids|
  {
    if ids != [] {
      MaxFromSameBounds(s, t, ids[1..]);
      if ids[0] in s {
        assert t[ids[0]].frame.x2 == s[ids[0]].frame.x2 && t[ids[0]].frame.y2 == s[ids[0]].frame.y2;
      }
    }
  }

  /** The first `align` records every child without moving it and returns FreeLayout's
      extent. */
  lemma RelativeFirstAlign(s: Store, c: Widget, ids: seq<Id>)
    ensures var r := RelativeAlign(s, c, ids, NoMemory);
            && (forall y :: y in s ==> Bounds(r.store[y]) == Bounds(s[y]))
            && r.extent == (MaxRightFrom(s, ids, 0), MaxBottomFrom(s, ids, 0))
  {
    FollowStillBounds(s, ids, {}, 0, 0);
    FollowStillExtent(s, ids, {}, 0, 0);
  }

  /** A child seen before follows the container: it moves by exactly the container's
      displacement since the previous `align`. */
  lemma RelativeFollowsContainer(s: Store, c: Widget, ids: seq<Id>, last: (int, int), known: set<Id>, x: Id)
    requires Count(ids, x) == 1 && x in s && x in known
    ensures var b := Bounds(s[x]);
            var dx := c.frame.x1 - last.0;
            var dy := c.frame.y1 - last.1;
            Bounds(RelativeAlign(s, c, ids, Memory(Some(last), known)).store[x])
            == Primitives.Rect(b.x1 + dx, b.y1 + dy, b.x2 + dx, b.y2 + dy)
  {
  }

  /** As written, a known child moves by the container's horizontal displacement on both
      axes, and the recorded position stays the first one. */
  lemma RelativeAsWrittenMoves(s: Store, c: Widget, ids: seq<Id>, last: (int, int), known: set<Id>, x: Id)
    requires Count(ids, x) == 1 && x in s && x in known
    ensures RelativeAsWritten(s, c, ids, Memory(Some(last), known)).memory.last == Some(last)
    ensures var r := RelativeAsWritten(s, c, ids, Memory(Some(last), known));
            var b := Bounds(s[x]);
            var dx := c.frame.x1 - last.0;
            var dy := c.frame.x1 - last.1;
            Bounds(r.store[x]) == Primitives.Rect(b.x1 + dx, b.y1 + dy, b.x2 + dx, b.y2 + dy)
  {
  }

  /** As written, a container last seen at the origin that has moved only sideways drags
      its known children down by its horizontal displacement (10 to the right gives 10
      down), where it should not move them vertically at all. */
  lemma RelativeAsWrittenDrifts(s: Store, c: Widget, ids: seq<Id>, known: set<Id>, x: Id)
    requires Count(ids, x) == 1 && x in s && x in known
    requires c.frame.y1 == 0 && c.frame.x1 == 10
    ensures Bounds(RelativeAsWritten(s, c, ids, Memory(Some((0, 0)), known)).store[x]).y1 == s[x].frame.y1 + 10
    ensures Bounds(RelativeAlign(s, c, ids, Memory(Some((0, 0)), known)).store[x]).y1 == s[x].frame.y1
  {
    RelativeAsWrittenMoves(s, c, ids, (0, 0), known, x);
    RelativeFollowsContainer(s, c, ids, (0, 0), known, x);
  }

  /** As written, the recorded position never advances, so a container that moved once
      drags its known children again on every later `align`. */
  lemma RelativeAsWrittenNeverSettles(s: Store, c: Widget, ids: seq<Id>, last: (int, int), known: set<Id>, x: Id)
    requires Count(ids, x) == 1 && x in s && x in known
    ensures var once := RelativeAsWritten(s, c, ids, Memory(Some(last), known));
            var twice := RelativeAsWritten(once.store, c, ids, once.memory);
            var b := Bounds(s[x]);
            var dx := c.frame.x1 - last.0;
            var dy := c.frame.x1 - last.1;
            Bounds(twice.store[x]) == Primitives.Rect(b.x1 + 2 * dx, b.y1 + 2 * dy, b.x2 + 2 * dx, b.y2 + 2 * dy)
  {
    RelativeAsWrittenMoves(s, c, ids, last, known, x);
    var once := RelativeAsWritten(s, c, ids, Memory(Some(last), known));
    assert once.memory == Memory(Some(last), once.memory.known);
    RelativeAsWrittenMoves(once.store, c, ids, last, once.memory.known, x);
  }

  // ---------------------------------------------------------------- Vertical and Horizontal

  /** The container's padded content box and its two overflow policies. */
  datatype Area = Area(xMin: int, yMin: int, xMax: int, yMax: int, h: Overflow, v: Overflow)

  /** `x_min`, `y_min`, `x_max` and `y_max` of VerticalLayout/HorizontalLayout#align: the
      container's box shrunk by its padding. */
  function AreaOf(c: Widget): (a: Area)
    ensures a.xMax - a.xMin == Width(c) - c.look.padding.left - c.look.padding.right
    ensures a.yMax - a.yMin == Height(c) - c.look.padding.top - c.look.padding.bottom
    ensures a.xMin == c.frame.x1 + c.look.padding.left && a.yMin == c.frame.y1 + c.look.padding.top
  {
    Area(c.frame.x1 + c.look.padding.left, c.frame.y1 + c.look.padding.top,
      c.frame.x2 - c.look.padding.right, c.frame.y2 - c.look.padding.bottom,
      c.look.hOverflow, c.look.vOverflow)
  }

  /** The running `x_position`, `y_position` and `largest_x` (or `largest_y`). */
  datatype Pen = Pen(x: int, y: int, largest: int)

  /** The children's boxes once placed, and the pen after the last one. */
  datatype Laid = Laid(store: Store, pen: Pen)

  /** A child's height with its top and bottom margins. */
  function OuterHeight(w: Widget): int {
    w.look.margin.top + Height(w) + w.look.margin.bottom
  }

  /** A child's width with its left and right margins. */
  function OuterWidth(w: Widget): int {
    w.look.margin.left + Width(w) + w.look.margin.right
  }

  /** A child VerticalLayout places: present and not floating. */
  predicate Stacked(s: Store, x: Id) {
    x in s && !s[x].flags.floating
  }

  /** Two stores hold the same widgets with the same sizes, margins and floating flags:
      what the layouts read of a child before they move it. */
  predicate SameSizes(s: Store, t: Store) {
    && t.Keys == s.Keys
    && forall x :: x in s ==> OnlyBoxChanged(s[x], t[x]) && Width(t[x]) == Width(s[x]) && Height(t[x]) == Height(s[x])
  }

  /** Moving one child keeps every size. */
  lemma MoveKeepsSizes(s: Store, x: Id, h: int, v: int)
    requires x in s
    ensures SameSizes(s, s[x := Move(s[x], h, v)])
  {
  }

  lemma SameSizesTransitive(s: Store, t: Store, u: Store)
    requires SameSizes(s, t) && SameSizes(t, u)
    ensures SameSizes(s, u)
  {
    forall x | x in s
      ensures OnlyBoxChanged(s[x], u[x])
    {
      assert u[x].(frame := s[x].frame, tracker := s[x].tracker)
          == t[x].(frame := s[x].frame, tracker := s[x].tracker);
    }
  }

  /** The overflow test before a vertical placement: a child that would pass the padded
      bottom starts a new column under Auto (back to the padded top, right by the widest
      margin box so far); whatever the policy, once the pen is past the padded right edge
      the widest box is forgotten. */
  function ColumnBreak(a: Area, p: Pen, w: Widget): (q: Pen)
    ensures p.y + OuterHeight(w) <= a.yMax ==> q == p
    ensures p.y + OuterHeight(w) > a.yMax && a.v == OverflowAuto ==> q.x == p.x + p.largest && q.y == a.yMin
    ensures p.y + OuterHeight(w) > a.yMax && a.v != OverflowAuto ==> q.x == p.x && q.y == p.y
    ensures p.y + OuterHeight(w) > a.yMax ==> q.largest == (if q.x > a.xMax then 0 else p.largest)
  {
    if p.y + OuterHeight(w) > a.yMax then
      var q := if a.v == OverflowAuto then Pen(p.x + p.largest, a.yMin, p.largest) else p;
      if q.x > a.xMax then q.(largest := 0) else q
    else p
  }

  /** One vertical placement: the column break, then the move to the pen plus the child's
      margins; the pen goes down by the margin box and keeps the widest box. */
  function StackOne(s: Store, a: Area, x: Id, p: Pen): (r: Laid)
    requires Stacked(s, x)
    ensures x in r.store && r.store == s[x := r.store[x]] && SameSizes(s, r.store)
    ensures var q := ColumnBreak(a, p, s[x]);
            && r.store[x].frame.x1 == q.x + s[x].look.margin.left
            && r.store[x].frame.y1 == q.y + s[x].look.margin.top
            && r.pen.x == q.x && r.pen.y == r.store[x].frame.y2 + s[x].look.margin.bottom
            && r.pen.largest >= q.largest && r.pen.largest >= OuterWidth(s[x])
  {
    var w := s[x];
    var q := ColumnBreak(a, p, w);
    MoveKeepsSizes(s, x, q.x + w.look.margin.left, q.y + w.look.margin.top);
    Laid(s[x := Move(w, q.x + w.look.margin.left, q.y + w.look.margin.top)],
      Pen(q.x, q.y + OuterHeight(w), if OuterWidth(w) > q.largest then OuterWidth(w) else q.largest))
  }

  /** VerticalLayout's loop: floating (and absent) children are skipped; every other one
      is stacked below the previous one. */
  function VerticalRun(s: Store, a: Area, ids: seq<Id>, p: Pen): (r: Laid)
    ensures r.store.Keys == s.Keys
    ensures forall y :: y in s && (y !in ids || s[y].flags.floating) ==> r.store[y] == s[y]
    decreases |ids|
  {
    if ids == [] then Laid(s, p)
    else if !Stacked(s, ids[0]) then VerticalRun(s, a, ids[1..], p)
    else
      var t := StackOne(s, a, ids[0], p);
      VerticalRun(t.store, a, ids[1..], t.pen)
  }

  datatype Aligned = Aligned(store: Store, extent: (int, int))

  /** VerticalLayout#align: `[0, 0]` for no children, otherwise the pen after the last
      child, starting at the padded top-left corner with no widest box. */
  function VerticalAlign(s: Store, c: Widget, ids: seq<Id>): (r: Aligned)
    ensures ids == [] ==> r == Aligned(s, (0, 0))
    ensures r.store.Keys == s.Keys
    ensures forall y :: y in s && (y !in ids || s[y].flags.floating) ==> r.store[y] == s[y]
  {
    if ids == [] then Aligned(s, (0, 0))
    else
      var f := VerticalRun(s, AreaOf(c), ids, Pen(AreaOf(c).xMin, AreaOf(c).yMin, 0));
      Aligned(f.store, (f.pen.x, f.pen.y))
  }

  /** VerticalLayout only moves children: their sizes, margins and flags are kept. */
  lemma {:induction false} VerticalOnlyMoves(s: Store, a: Area, ids: seq<Id>, p: Pen)
    ensures SameSizes(s, VerticalRun(s, a, ids, p).store)
    decreases |ids|
  {
    if ids != [] {
      if Stacked(s, ids[0]) {
        var t := StackOne(s, a, ids[0], p);
        VerticalOnlyMoves(t.store, a, ids[1..], t.pen);
        SameSizesTransitive(s, t.store, VerticalRun(t.store, a, ids[1..], t.pen).store);
      } else {
        VerticalOnlyMoves(s, a, ids[1..], p);
      }
    }
  }

  /** The children VerticalLayout places, in order. */
  function StackedOnly(s: Store, ids: seq<Id>): (r: seq<Id>)
    ensures forall y :: y in r <==> y in ids && Stacked(s, y)
    ensures |r| <= |ids|
    decreases |ids|
  {
    if ids == [] then []
    else if Stacked(s, ids[0]) then [ids[0]] + StackedOnly(s, ids[1..])
    else StackedOnly(s, ids[1..])
  }

  /** What the layouts read of a child is kept by a store with the same sizes. */
  lemma SameSizesReadAlike(s: Store, t: Store, x: Id)
    requires SameSizes(s, t) && x in s
    ensures Stacked(t, x) == Stacked(s, x) && t[x].look == s[x].look
    ensures OuterHeight(t[x]) == OuterHeight(s[x]) && OuterWidth(t[x]) == OuterWidth(s[x])
  {
    assert t[x].(frame := s[x].frame, tracker := s[x].tracker) == s[x];
  }

  lemma {:induction false} StackedOnlySameSizes(s: Store, t: Store, ids: seq<Id>)
    requires SameSizes(s, t)
    ensures StackedOnly(t, ids) == StackedOnly(s, ids)
    decreases |ids|
  {
    if ids != [] {
      if ids[0] in s { SameSizesReadAlike(s, t, ids[0]); }
      StackedOnlySameSizes(s, t, ids[1..]);
    }
  }

  /** VerticalLayout behaves as if the floating children were not in the list at all:
      they neither move nor advance the pen. */
  lemma {:induction false} VerticalIgnoresFloating(s: Store, a: Area, ids: seq<Id>, p: Pen)
    ensures VerticalRun(s, a, ids, p) == VerticalRun(s, a, StackedOnly(s, ids), p)
    decreases |ids|
  {
    if ids != [] {
      if Stacked(s, ids[0]) {
        var t := StackOne(s, a, ids[0], p);
        var rest := StackedOnly(s, ids[1..]);
        assert StackedOnly(s, ids) == [ids[0]] + rest;
        assert ([ids[0]] + rest)[1..] == rest;
        VerticalIgnoresFloating(t.store, a, ids[1..], t.pen);
        StackedOnlySameSizes(s, t.store, ids[1..]);
      } else {
        VerticalIgnoresFloating(s, a, ids[1..], p);
      }
    }
  }

  /** The margin boxes' heights of the children VerticalLayout places. */
  function SumHeights(s: Store, ids: seq<Id>): int
    decreases |ids|
  {
    if ids == [] then 0
    else (if Stacked(s, ids[0]) then OuterHeight(s[ids[0]]) else 0) + SumHeights(s, ids[1..])
  }

  lemma {:induction false} SumHeightsSameSizes(s: Store, t: Store, ids: seq<Id>)
    requires SameSizes(s, t)
    ensures SumHeights(t, ids) == SumHeights(s, ids)
    decreases |ids|
  {
    if ids != [] {
      if ids[0] in s { SameSizesReadAlike(s, t, ids[0]); }
      SumHeightsSameSizes(s, t, ids[1..]);
    }
  }

  /** Unless vertical overflow is Auto, VerticalLayout never starts a second column: each
      placed child sits at the pen's x plus its left margin, below the margin boxes of the
      children placed before it, and the pen ends below all of them. */
  lemma {:induction false} VerticalSingleColumn(s: Store, a: Area, ids: seq<Id>, p: Pen)
    requires a.v != OverflowAuto
    ensures var r := VerticalRun(s, a, ids, p);
            r.pen.x == p.x && r.pen.y == p.y + SumHeights(s, ids)
    decreases |ids|
  {
    if ids != [] {
      if Stacked(s, ids[0]) {
        var t := StackOne(s, a, ids[0], p);
        VerticalSingleColumn(t.store, a, ids[1..], t.pen);
        SumHeightsSameSizes(s, t.store, ids[1..]);
      } else {
        VerticalSingleColumn(s, a, ids[1..], p);
      }
    }
  }

  lemma {:induction false} VerticalSingleColumnPlaces(s: Store, a: Area, ids: seq<Id>, p: Pen, i: nat)
    requires a.v != OverflowAuto && Distinct(ids) && i < |ids| && Stacked(s, ids[i])
    ensures var w := VerticalRun(s, a, ids, p).store[ids[i]];
            && w.frame.x1 == p.x + s[ids[i]].look.margin.left
            && w.frame.y1 == p.y + SumHeights(s, ids[..i]) + s[ids[i]].look.margin.top
    decreases |ids|
  {
    var x := ids[0];
    if i == 0 {
      assert x !in ids[1..];
      assert ids[..0] == [];
    } else {
      assert ids[..i][0] == x && ids[..i][1..] == ids[1..][..i - 1];
      assert ids[1..][i - 1] == ids[i];
      if Stacked(s, x) {
        var t := StackOne(s, a, x, p);
        VerticalSingleColumnPlaces(t.store, a, ids[1..], t.pen, i - 1);
        SumHeightsSameSizes(s, t.store, ids[1..][..i - 1]);
        SameSizesReadAlike(s, t.store, ids[i]);
      } else {
        VerticalSingleColumnPlaces(s, a, ids[1..], p, i - 1);
      }
    }
  }

  /** Every child VerticalLayout places in `ids` fits the padded height on its own. */
  predicate FitsTall(s: Store, a: Area, ids: seq<Id>) {
    forall y :: y in ids && Stacked(s, y) ==> 0 <= OuterHeight(s[y]) <= a.yMax - a.yMin
  }

  /** With Auto vertical overflow, children that each fit the padded height are wrapped
      into columns so that every margin box lies between the padded top and bottom. */
  lemma {:induction false} VerticalAutoStaysInside(s: Store, a: Area, ids: seq<Id>, p: Pen)
    requires a.v == OverflowAuto && a.yMin <= p.y && FitsTall(s, a, ids)
    ensures var r := VerticalRun(s, a, ids, p);
            forall y :: y in ids && Stacked(s, y) ==>
              a.yMin <= r.store[y].frame.y1 - s[y].look.margin.top
              && r.store[y].frame.y2 + s[y].look.margin.bottom <= a.yMax
    decreases |ids|
  {
    if ids != [] {
      var x := ids[0];
      if Stacked(s, x) {
        var t := StackOne(s, a, x, p);
        forall y | y in ids[1..] && Stacked(t.store, y)
          ensures 0 <= OuterHeight(t.store[y]) <= a.yMax - a.yMin
        {
          SameSizesReadAlike(s, t.store, y);
        }
        VerticalAutoStaysInside(t.store, a, ids[1..], t.pen);
        var r := VerticalRun(t.store, a, ids[1..], t.pen);
        forall y | y in ids && Stacked(s, y)
          ensures a.yMin <= r.store[y].frame.y1 - s[y].look.margin.top
          ensures r.store[y].frame.y2 + s[y].look.margin.bottom <= a.yMax
        {
          SameSizesReadAlike(s, t.store, y);
        }
      } else {
        VerticalAutoStaysInside(s, a, ids[1..], p);
      }
    }
  }

  /** The overflow test before a horizontal placement: a child that would pass the padded
      right edge starts a new row under Auto (back to the padded left, down by the tallest
      margin box so far); whatever the policy, once the pen is past the padded bottom the
      tallest box is forgotten. */
  function RowBreak(a: Area, p: Pen, w: Widget): (q: Pen)
    ensures p.x + OuterWidth(w) <= a.xMax ==> q == p
    ensures p.x + OuterWidth(w) > a.xMax && a.h == OverflowAuto ==> q.x == a.xMin && q.y == p.y + p.largest
    ensures p.x + OuterWidth(w) > a.xMax && a.h != OverflowAuto ==> q.x == p.x && q.y == p.y
    ensures p.x + OuterWidth(w) > a.xMax ==> q.largest == (if q.y > a.yMax then 0 else p.largest)
  {
    if p.x + OuterWidth(w) > a.xMax then
      var q := if a.h == OverflowAuto then Pen(a.xMin, p.y + p.largest, p.largest) else p;
      if q.y > a.yMax then q.(largest := 0) else q
    else p
  }

  /** One horizontal step: the row break, then the move to the pen plus the child's
      margins, skipped for a floating child; the pen goes right by the margin box either
      way and keeps the tallest box. */
  function RowOne(s: Store, a: Area, x: Id, p: Pen): (r: Laid)
    requires x in s
    ensures x in r.store && r.store == s[x := r.store[x]] && SameSizes(s, r.store)
    ensures s[x].flags.floating ==> r.store == s
    ensures var q := RowBreak(a, p, s[x]);
            && (!s[x].flags.floating ==>
                  r.store[x].frame.x1 == q.x + s[x].look.margin.left
                  && r.store[x].frame.y1 == q.y + s[x].look.margin.top
                  && r.pen.x == r.store[x].frame.x2 + s[x].look.margin.right)
            && r.pen.x == q.x + OuterWidth(s[x]) && r.pen.y == q.y
            && r.pen.largest >= q.largest && r.pen.largest >= OuterHeight(s[x])
  {
    var w := s[x];
    var q := RowBreak(a, p, w);
    MoveKeepsSizes(s, x, q.x + w.look.margin.left, q.y + w.look.margin.top);
    Laid(if w.flags.floating then s else s[x := Move(w, q.x + w.look.margin.left, q.y + w.look.margin.top)],
      Pen(q.x + OuterWidth(w), q.y, if OuterHeight(w) > q.largest then OuterHeight(w) else q.largest))
  }

  /** HorizontalLayout's loop: every child takes a step along the row, floating ones
      included, but only the others are moved. */
  function HorizontalRun(s: Store, a: Area, ids: seq<Id>, p: Pen): (r: Laid)
    ensures r.store.Keys == s.Keys
    ensures forall y :: y in s && (y !in ids || s[y].flags.floating) ==> r.store[y] == s[y]
    decreases |ids|
  {
    if ids == [] then Laid(s, p)
    else if ids[0] !in s then HorizontalRun(s, a, ids[1..], p)
    else
      var t := RowOne(s, a, ids[0], p);
      SameSizesReadAlike(s, t.store, ids[0]);
      HorizontalRun(t.store, a, ids[1..], t.pen)
  }

  /** HorizontalLayout#align: `[0, 0]` for no children, otherwise the pen after the last
      child, starting at the padded top-left corner with no tallest box. */
  function HorizontalAlign(s: Store, c: Widget, ids: seq<Id>): (r: Aligned)
    ensures ids == [] ==> r == Aligned(s, (0, 0))
    ensures r.store.Keys == s.Keys
    ensures forall y :: y in s && (y !in ids || s[y].flags.floating) ==> r.store[y] == s[y]
  {
    if ids == [] then Aligned(s, (0, 0))
    else
      var f := HorizontalRun(s, AreaOf(c), ids, Pen(AreaOf(c).xMin, AreaOf(c).yMin, 0));
      Aligned(f.store, (f.pen.x, f.pen.y))
  }

  /** HorizontalLayout only moves children: their sizes, margins and flags are kept. */
  lemma {:induction false} HorizontalOnlyMoves(s: Store, a: Area, ids: seq<Id>, p: Pen)
    ensures SameSizes(s, HorizontalRun(s, a, ids, p).store)
    decreases |ids|
  {
    if ids != [] {
      if ids[0] in s {
        var t := RowOne(s, a, ids[0], p);
        HorizontalOnlyMoves(t.store, a, ids[1..], t.pen);
        SameSizesTransitive(s, t.store, HorizontalRun(t.store, a, ids[1..], t.pen).store);
      } else {
        HorizontalOnlyMoves(s, a, ids[1..], p);
      }
    }
  }

  /** The margin boxes' widths of every child, floating ones included. */
  function SumWidths(s: Store, ids: seq<Id>): int
    decreases |ids|
  {
    if ids == [] then 0
    else (if ids[0] in s then OuterWidth(s[ids[0]]) else 0) + SumWidths(s, ids[1..])
  }

  lemma {:induction false} SumWidthsSameSizes(s: Store, t: Store, ids: seq<Id>)
    requires SameSizes(s, t)
    ensures SumWidths(t, ids) == SumWidths(s, ids)
    decreases |ids|
  {
    if ids != [] {
      if ids[0] in s { SameSizesReadAlike(s, t, ids[0]); }
      SumWidthsSameSizes(s, t, ids[1..]);
    }
  }

  /** Unless horizontal overflow is Auto, HorizontalLayout keeps to one row, and the pen
      ends right of every child's margin box, floating ones included. */
  lemma {:induction false} HorizontalSingleRow(s: Store, a: Area, ids: seq<Id>, p: Pen)
    requires a.h != OverflowAuto
    ensures var r := HorizontalRun(s, a, ids, p);
            r.pen.y == p.y && r.pen.x == p.x + SumWidths(s, ids)
    decreases |ids|
  {
    if ids != [] {
      if ids[0] in s {
        var t := RowOne(s, a, ids[0], p);
        HorizontalSingleRow(t.store, a, ids[1..], t.pen);
        SumWidthsSameSizes(s, t.store, ids[1..]);
      } else {
        HorizontalSingleRow(s, a, ids[1..], p);
      }
    }
  }

  /** In a single row each non-floating child sits right of the margin boxes of all the
      children before it, floating ones included, at the pen's y plus its top margin. */
  lemma {:induction false} HorizontalSingleRowPlaces(s: Store, a: Area, ids: seq<Id>, p: Pen, i: nat)
    requires a.h != OverflowAuto && Distinct(ids) && i < |ids| && Stacked(s, ids[i])
    ensures var w := HorizontalRun(s, a, ids, p).store[ids[i]];
            && w.frame.x1 == p.x + SumWidths(s, ids[..i]) + s[ids[i]].look.margin.left
            && w.frame.y1 == p.y + s[ids[i]].look.margin.top
    decreases |ids|
  {
    var x := ids[0];
    if i == 0 {
      assert x !in ids[1..];
      assert ids[..0] == [];
    } else {
      assert ids[..i][0] == x && ids[..i][1..] == ids[1..][..i - 1];
      assert ids[1..][i - 1] == ids[i];
      if x in s {
        var t := RowOne(s, a, x, p);
        HorizontalSingleRowPlaces(t.store, a, ids[1..], t.pen, i - 1);
        SumWidthsSameSizes(s, t.store, ids[1..][..i - 1]);
        SameSizesReadAlike(s, t.store, ids[i]);
      } else {
        HorizontalSingleRowPlaces(s, a, ids[1..], p, i - 1);
      }
    }
  }

  /** Every child in `ids`, floating ones included, fits the padded width on its own. */
  predicate FitsWide(s: Store, a: Area, ids: seq<Id>) {
    forall y :: y in ids && y in s ==> 0 <= OuterWidth(s[y]) <= a.xMax - a.xMin
  }

  /** With Auto horizontal overflow, children that each fit the padded width are wrapped
      into rows so that every placed margin box lies between the padded left and right. */
  lemma {:induction false} HorizontalAutoStaysInside(s: Store, a: Area, ids: seq<Id>, p: Pen)
    requires a.h == OverflowAuto && a.xMin <= p.x && FitsWide(s, a, ids)
    ensures var r := HorizontalRun(s, a, ids, p);
            forall y :: y in ids && Stacked(s, y) ==>
              a.xMin <= r.store[y].frame.x1 - s[y].look.margin.left
              && r.store[y].frame.x2 + s[y].look.margin.right <= a.xMax
    decreases |ids|
  {
    if ids != [] {
      var x := ids[0];
      if x in s {
        var t := RowOne(s, a, x, p);
        forall y | y in ids[1..] && y in t.store
          ensures 0 <= OuterWidth(t.store[y]) <= a.xMax - a.xMin
        {
          SameSizesReadAlike(s, t.store, y);
        }
        HorizontalAutoStaysInside(t.store, a, ids[1..], t.pen);
        var r := HorizontalRun(t.store, a, ids[1..], t.pen);
        forall y | y in ids && Stacked(s, y)
          ensures a.xMin <= r.store[y].frame.x1 - s[y].look.margin.left
          ensures r.store[y].frame.x2 + s[y].look.margin.right <= a.xMax
        {
          SameSizesReadAlike(s, t.store, y);
        }
      } else {
        HorizontalAutoStaysInside(s, a, ids[1..], p);
      }
    }
  }

  /** A container without Auto vertical overflow stacks its non-floating children in one
      column from its padded top-left corner, and reports that corner's x with the
      bottom of the stack. */
  lemma VerticalAlignExtent(s: Store, c: Widget, ids: seq<Id>)
    requires ids != [] && c.look.vOverflow != OverflowAuto
    ensures VerticalAlign(s, c, ids).extent
         == (c.frame.x1 + c.look.padding.left, c.frame.y1 + c.look.padding.top + SumHeights(s, ids))
  {
    VerticalSingleColumn(s, AreaOf(c), ids, Pen(AreaOf(c).xMin, AreaOf(c).yMin, 0));
  }

  /** A container without Auto horizontal overflow lines up every child in one row from
      its padded top-left corner, and reports the end of the row with that corner's y. */
  lemma HorizontalAlignExtent(s: Store, c: Widget, ids: seq<Id>)
    requires ids != [] && c.look.hOverflow != OverflowAuto
    ensures HorizontalAlign(s, c, ids).extent
         == (c.frame.x1 + c.look.padding.left + SumWidths(s, ids), c.frame.y1 + c.look.padding.top)
  {
    HorizontalSingleRow(s, AreaOf(c), ids, Pen(AreaOf(c).xMin, AreaOf(c).yMin, 0));
  }
}
