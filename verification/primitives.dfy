/** lib/gglib/primatives.rb: the Renderable rectangle, the alignment pass of text
    layout, and the nine-cell FlexibleGrid the theme renderers draw with. */
module Primitives {
  import opened Base
  import opened Styles

  /** A Renderable's screen rectangle. */
  datatype Rect = Rect(x1: int, y1: int, x2: int, y2: int)

  function Width(r: Rect): int {
    r.x2 - r.x1
  }

  function Height(r: Rect): int {
    r.y2 - r.y1
  }

  /** Renderable `x=(value)`: moves the left edge to `value`, keeping the width. */
  function MoveX(r: Rect, v: int): (o: Rect)
    ensures o.x1 == v && Width(o) == Width(r)
    ensures o.y1 == r.y1 && o.y2 == r.y2
  {
    Rect(v, r.y1, v + Width(r), r.y2)
  }

  /** Renderable `y=(value)`: moves the top edge to `value`, keeping the height. */
  function MoveY(r: Rect, v: int): (o: Rect)
    ensures o.y1 == v && Height(o) == Height(r)
    ensures o.x1 == r.x1 && o.x2 == r.x2
  {
    Rect(r.x1, v, r.x2, v + Height(r))
  }

  /** Moving back to where it was restores the rectangle, and moves compose. */
  lemma MovesCompose(r: Rect, a: int, b: int)
    ensures MoveX(MoveX(r, a), r.x1) == r && MoveY(MoveY(r, a), r.y1) == r
    ensures MoveX(MoveX(r, a), b) == MoveX(r, b)
    ensures MoveX(MoveY(r, b), a) == MoveY(MoveX(r, a), b)
  {
  }

  // ---------------------------------------------------------------- text alignment (pass2)

  /** A CachedLine without its text: where a line is drawn. */
  datatype LinePos = LinePos(x: int, y: int)

  /** The text rectangle after `style.padding` is taken off each side. */
  function Inset(b: Rect, pad: Edges): Rect {
    Rect(b.x1 + pad.left, b.y1 + pad.top, b.x2 - pad.right, b.y2 - pad.bottom)
  }

  /** `lines.size * font.height + (lines.size - 1) * line_spacing`. */
  function BlockHeight(n: nat, fontHeight: int, spacing: int): int {
    n * fontHeight + (n - 1) * spacing
  }

  /** The first line's y for the vertical alignment; Ruby's `/` floors, as Dafny's does
      for the positive divisor 2. */
  function FirstY(inner: Rect, blockHeight: int, v: VerticalAlign): int {
    match v
    case AlignTop => inner.y1
    case AlignMiddle => inner.y1 + (Height(inner) - blockHeight) / 2
    case AlignBottom => inner.y2 - blockHeight
  }

  /** A line's x for the horizontal alignment, given its measured text width. */
  function LineX(inner: Rect, textWidth: int, a: Align): int {
    match a
    case AlignLeft => inner.x1
    case AlignRight => inner.x2 - textWidth
    case AlignCenter => inner.x1 + (Width(inner) - textWidth) / 2
  }

  /** Places the lines with the given text widths from `y` down, `step` apart. */
  function PlaceLines(widths: seq<int>, inner: Rect, a: Align, y: int, step: int): (out: seq<LinePos>)
    ensures |out| == |widths|
    ensures forall i :: 0 <= i < |out| ==> out[i] == LinePos(LineX(inner, widths[i], a), y + i * step)
  {
    if widths == [] then []
    else
      var rest := PlaceLines(widths[1..], inner, a, y + step, step);
      assert forall i :: 1 <= i < |widths| ==> y + i * step == (y + step) + (i - 1) * step by {
        forall i | 1 <= i < |widths| ensures y + i * step == (y + step) + (i - 1) * step {
          assert i * step == step + (i - 1) * step;
        }
      }
      [LinePos(LineX(inner, widths[0], a), y)] + rest
  }

  /** `pass2(lines, style, x1, y1, x2, y2)`: `widths` are the backend's measured widths
      of the lines pass1 produced. An empty list stays empty; otherwise each line is
      aligned horizontally, and the block as a whole vertically, one font height plus
      the line spacing apart. */
  function Pass2(widths: seq<int>, fontHeight: int, spacing: int, pad: Edges, box: Rect, v: VerticalAlign, a: Align): (out: seq<LinePos>)
    ensures |out| == |widths|
    ensures forall i :: 0 <= i < |out| ==>
      var inner := Inset(box, pad);
      out[i].x == LineX(inner, widths[i], a)
      && out[i].y == FirstY(inner, BlockHeight(|widths|, fontHeight, spacing), v) + i * (fontHeight + spacing)
  {
    if widths == [] then []
    else
      var inner := Inset(box, pad);
      PlaceLines(widths, inner, a, FirstY(inner, BlockHeight(|widths|, fontHeight, spacing), v), fontHeight + spacing)
  }

  /** The block occupies exactly `BlockHeight`: the last line's bottom is that far below
      the first line's top. Top alignment starts at the inner top, bottom alignment ends
      at the inner bottom, and middle alignment leaves gaps above and below that differ
      by at most one pixel, the extra pixel going below. */
  lemma {:induction false} Pass2Alignment(widths: seq<int>, fontHeight: int, spacing: int, pad: Edges, box: Rect, v: VerticalAlign, a: Align)
    requires |widths| > 0
    ensures var out := Pass2(widths, fontHeight, spacing, pad, box, v, a);
            var inner := Inset(box, pad);
            var n := |widths|;
            && out[n - 1].y + fontHeight == out[0].y + BlockHeight(n, fontHeight, spacing)
            && (v == AlignTop ==> out[0].y == inner.y1)
            && (v == AlignBottom ==> out[n - 1].y + fontHeight == inner.y2)
            && (v == AlignMiddle ==>
                 var above := out[0].y - inner.y1;
                 var below := inner.y2 - (out[n - 1].y + fontHeight);
                 above <= below <= above + 1)
  {
    var out := Pass2(widths, fontHeight, spacing, pad, box, v, a);
    var n := |widths|;
    assert (n - 1) * (fontHeight + spacing) + fontHeight == BlockHeight(n, fontHeight, spacing) by {
      assert (n - 1) * (fontHeight + spacing) == (n - 1) * fontHeight + (n - 1) * spacing;
    }
  }

  // ---------------------------------------------------------------- FlexibleGrid

  /** The natural sizes of the eight outer images and the centre image, as the backend
      reports them. */
  datatype Naturals = Naturals(leftWidth: int, rightWidth: int, topHeight: int, bottomHeight: int,
                               centerWidth: int, centerHeight: int)

  /** The rectangles of the nine cells. A new grid starts with one Image shared by all
      nine slots; the model tracks only where each cell is drawn, not which image. */
  datatype Cells = Cells(topLeft: Rect, top: Rect, topRight: Rect,
                         left: Rect, center: Rect, right: Rect,
                         bottomLeft: Rect, bottom: Rect, bottomRight: Rect)

  /** A FlexibleGrid: its rectangle, margins, image sizes, cell layout and dirty flag. */
  datatype Grid = Grid(box: Rect, margin: Edges, images: Naturals, cells: Cells, dirty: bool)

  /** `natural_width`. */
  function NaturalWidth(g: Grid): int {
    g.margin.left + g.images.leftWidth + g.images.centerWidth + g.images.rightWidth + g.margin.right
  }

  /** `natural_height`. */
  function NaturalHeight(g: Grid): int {
    g.margin.top + g.images.topHeight + g.images.centerHeight + g.images.bottomHeight + g.margin.bottom
  }

  /** The rectangle inside the margins. */
  function Inner(g: Grid): Rect {
    Rect(g.box.x1 + g.margin.left, g.box.y1 + g.margin.top, g.box.x2 - g.margin.right, g.box.y2 - g.margin.bottom)
  }

  /** The condition under which `calculate_dimensions` does not scale: the inner
      rectangle has room for both fixed columns (rows) plus one pixel. */
  predicate NoScaling(g: Grid) {
    && Width(Inner(g)) >= g.images.leftWidth + 1 + g.images.rightWidth
    && Height(Inner(g)) >= g.images.topHeight + 1 + g.images.bottomHeight
  }

  /** `resize_cell(cell, x1, y1, width, height)`. */
  function Cell(x1: int, y1: int, width: int, height: int): (c: Rect)
    ensures c.x1 == x1 && c.y1 == y1 && Width(c) == width && Height(c) == height
  {
    Rect(x1, y1, x1 + width, y1 + height)
  }

  /** `calculate_dimensions` without scaling: each cell is placed against the cell to
      its left and the cell above it, in the source's order. */
  function CalculateDimensions(g: Grid): (c: Cells)
    requires NoScaling(g)
    ensures Width(c.center) >= 1 && Height(c.center) >= 1
    ensures Width(c.center) == Width(Inner(g)) - g.images.leftWidth - g.images.rightWidth
    ensures Height(c.center) == Height(Inner(g)) - g.images.topHeight - g.images.bottomHeight
  {
    var m := Inner(g);
    var lw, rw := g.images.leftWidth, g.images.rightWidth;
    var th, bh := g.images.topHeight, g.images.bottomHeight;
    var cw := Width(m) - (lw + rw);
    var ch := Height(m) - (th + bh);
    var topLeft := Cell(m.x1, m.y1, lw, th);
    var top := Cell(topLeft.x2, m.y1, cw, th);
    var topRight := Cell(top.x2, m.y1, rw, th);
    var left := Cell(m.x1, topLeft.y2, lw, ch);
    var center := Cell(left.x2, top.y2, cw, ch);
    var right := Cell(center.x2, topRight.y2, rw, ch);
    var bottomLeft := Cell(m.x1, left.y2, lw, bh);
    var bottom := Cell(topLeft.x2, center.y2, cw, bh);
    var bottomRight := Cell(bottom.x2, right.y2, rw, bh);
    Cells(topLeft, top, topRight, left, center, right, bottomLeft, bottom, bottomRight)
  }

  /** Three cells form a row from `x1` to `x4` between `y1` and `y2` with column
      boundaries `x2` and `x3`. */
  predicate Row(a: Rect, b: Rect, c: Rect, xs: seq<int>, y1: int, y2: int)
    requires |xs| == 4
  {
    && a == Rect(xs[0], y1, xs[1], y2)
    && b == Rect(xs[1], y1, xs[2], y2)
    && c == Rect(xs[2], y1, xs[3], y2)
  }

  /** The nine cells tile the rectangle inside the margins with no gap or overlap:
      shared column boundaries at the fixed left and right widths, shared row
      boundaries at the fixed top and bottom heights. */
  lemma CellsTileInner(g: Grid)
    requires NoScaling(g)
    ensures var c := CalculateDimensions(g);
            var m := Inner(g);
            var xs := [m.x1, m.x1 + g.images.leftWidth, m.x2 - g.images.rightWidth, m.x2];
            var ya, yb := m.y1 + g.images.topHeight, m.y2 - g.images.bottomHeight;
            && Row(c.topLeft, c.top, c.topRight, xs, m.y1, ya)
            && Row(c.left, c.center, c.right, xs, ya, yb)
            && Row(c.bottomLeft, c.bottom, c.bottomRight, xs, yb, m.y2)
  {
  }

  /** A grid laid out at its natural size gives the centre its natural size. */
  lemma NaturalSizeFitsCenter(g: Grid)
    requires Width(g.box) == NaturalWidth(g) && Height(g.box) == NaturalHeight(g)
    requires g.images.centerWidth >= 1 && g.images.centerHeight >= 1
    ensures NoScaling(g)
    ensures Width(CalculateDimensions(g).center) == g.images.centerWidth
    ensures Height(CalculateDimensions(g).center) == g.images.centerHeight
  {
  }

  /** A clean grid's cells are those its current geometry calls for. */
  predicate Fresh(g: Grid) {
    !g.dirty ==> NoScaling(g) && g.cells == CalculateDimensions(g)
  }

  /** Setting the grid's rectangle through its volatile accessors: a change marks the
      grid dirty (its own `:modified` subscription), an equal rectangle changes nothing. */
  function SetBox(g: Grid, b: Rect): (r: Grid)
    ensures Fresh(g) ==> Fresh(r)
    ensures r.box == b && r.margin == g.margin && r.images == g.images
    ensures b != g.box ==> r.dirty
  {
    if b == g.box then g else g.(box := b, dirty := true)
  }

  /** Setting the margins, likewise. */
  function SetMargin(g: Grid, m: Edges): (r: Grid)
    ensures Fresh(g) ==> Fresh(r)
    ensures r.margin == m && r.box == g.box && r.images == g.images
    ensures m != g.margin ==> r.dirty
  {
    if m == g.margin then g else g.(margin := m, dirty := true)
  }

  /** `draw`: recalculates the cells only when dirty, and leaves the grid clean. */
  function DrawGrid(g: Grid): (r: Grid)
    requires g.dirty ==> NoScaling(g)
    ensures !r.dirty && r.box == g.box && r.margin == g.margin && r.images == g.images
    ensures Fresh(g) ==> NoScaling(g) && r.cells == CalculateDimensions(g)
    ensures !g.dirty ==> r == g
  {
    if g.dirty then g.(cells := CalculateDimensions(g), dirty := false) else g
  }

  /** Drawing twice is drawing once. */
  lemma DrawIsIdempotent(g: Grid)
    requires g.dirty ==> NoScaling(g)
    ensures DrawGrid(DrawGrid(g)) == DrawGrid(g)
  {
  }
}
