/** lib/gglib/widgets/line-edit.rb: the selection a LineEdit reports, its caret blink
    counter, and where `draw` puts the caret and the selection highlight. The text, caret
    and selection positions come from the backend's text input on every update; the
    pixel widths of text come from the backend's font, so both arrive as parameters. */
module LineEdit {
  import opened Base
  import opened Volatile
  import Primitives

  /** `DefaultCursorBlinkRate`. */
  const DefaultBlinkRate := 70

  /** A LineEdit's text, `@cursor_pos`, `@selection_pos`, `@cursor_blink_rate`,
      `@cycles_until_next_cursor_draw`, and its damage tracker. */
  datatype Edit = Edit(
    text: string, cursorPos: int, selectionPos: int,
    blinkRate: int, countdown: int, tracker: Tracker)

  /** The constructor on a fresh widget (tracker `t`, corner at the origin): caret and
      selection start at the widget's `x1`, which is 0, and the countdown starts at the
      default blink rate. */
  function NewEdit(t: Tracker): (e: Edit)
    ensures e.text == "" && e.cursorPos == 0 && e.selectionPos == 0
    ensures e.blinkRate == DefaultBlinkRate && e.countdown == e.blinkRate && e.tracker == t
  {
    Edit("", 0, 0, DefaultBlinkRate, DefaultBlinkRate, t)
  }

  // ---------------------------------------------------------------- the selection

  /** `selection`: the selection's start and its signed length up to the caret. */
  function Selection(e: Edit): (r: (int, int))
    ensures r.0 == e.selectionPos && r.0 + r.1 == e.cursorPos
  {
    (e.selectionPos, e.cursorPos - e.selectionPos)
  }

  /** `set_cursor_position` and `set_selection_position`, as the update handler applies
      the backend's positions. */
  function SetPositions(e: Edit, cursor: int, selection: int): (r: Edit)
    ensures r.cursorPos == cursor && r.selectionPos == selection
    ensures r.(cursorPos := e.cursorPos, selectionPos := e.selectionPos) == e
  {
    e.(cursorPos := cursor, selectionPos := selection)
  }

  /** Ruby's `String#slice(start, length)`: nil for a negative length, a start that counts
      from the end and still falls before the string, or a start past the end; otherwise
      the (possibly shortened, possibly empty) run from the start. */
  function RubySlice(s: string, start: int, len: int): (r: Option<string>)
    ensures len < 0 ==> r.None?
    ensures 0 <= len && 0 <= start <= |s| ==> r.Some? && r.value == s[start..Min(start + len, |s|)]
    ensures 0 <= len && -|s| <= start < 0 ==> r.Some? && r.value == s[|s| + start..Min(|s| + start + len, |s|)]
    ensures start > |s| || start < -|s| ==> r.None?
    ensures r.Some? ==> |r.value| <= len
  {
    if len < 0 then None
    else
      var from := if start < 0 then start + |s| else start;
      if from < 0 || from > |s| then None
      else Some(s[from..Min(from + len, |s|)])
  }

  function Min(a: int, b: int): int {
    if a <= b then a else b
  }

  /** `selected_text`: the text from the selection start for the selection's length. */
  function SelectedText(e: Edit): (r: Option<string>)
    ensures e.cursorPos < e.selectionPos ==> r.None?
    ensures r.Some? ==> |r.value| <= e.cursorPos - e.selectionPos
  {
    RubySlice(e.text, Selection(e).0, Selection(e).1)
  }

  /** With the selection start before the caret and both inside the text, the selected
      text is exactly the characters between them, and it is as long as the selection. */
  lemma SelectedTextIsBetween(e: Edit)
    requires 0 <= e.selectionPos <= e.cursorPos <= |e.text|
    ensures SelectedText(e) == Some(e.text[e.selectionPos..e.cursorPos])
    ensures |SelectedText(e).value| == Selection(e).1
  {
  }

  /** A caret left of the selection start (a selection made leftwards) selects nothing:
      `selected_text` is nil, whatever the text. */
  lemma BackwardSelectionIsNil(e: Edit, cursor: int, selection: int)
    requires cursor < selection
    ensures SelectedText(SetPositions(e, cursor, selection)).None?
    ensures Selection(SetPositions(e, cursor, selection)).1 < 0
  {
  }

  // ---------------------------------------------------------------- the caret blink

  /** `should_draw_cursor`: the countdown is above half the blink rate (rounded down) and
      the LineEdit is active. */
  predicate ShouldDrawCursor(e: Edit, active: bool) {
    e.countdown > e.blinkRate / 2 && active
  }

  /** The countdown step of the update handler: decrement, and wrap a negative count
      back to the blink rate. */
  function NextCountdown(c: int, rate: int): (r: int)
    ensures c >= 1 ==> r == c - 1
    ensures c < 1 ==> r == rate
  {
    if c - 1 < 0 then rate else c - 1
  }

  /** The `:update` handler: adopt the backend's text (damaging `:text` only when it
      differs), caret and selection positions; then step the countdown, and when it did
      not wrap and the caret should be drawn, damage `:ibeam`. */
  function Update(e: Edit, text: string, cursor: int, selection: int, active: bool): (r: Edit)
    ensures r.text == text && r.cursorPos == cursor && r.selectionPos == selection
    ensures r.blinkRate == e.blinkRate && r.countdown == NextCountdown(e.countdown, e.blinkRate)
    ensures text == e.text && (e.countdown < 1 || !ShouldDrawCursor(r, active)) ==> r.tracker == e.tracker
    ensures Valid(e.tracker) && Outside(e.tracker) ==>
      r.tracker.published == e.tracker.published
        + (if text != e.text then [Modified(Symbol("text"))] else [])
        + (if e.countdown >= 1 && ShouldDrawCursor(r, active) then [Modified(Symbol("ibeam"))] else [])
  {
    var t := AssignVolatile(e.tracker, e.text, text, "text", false).tracker;
    var moved := e.(text := text, cursorPos := cursor, selectionPos := selection, tracker := t);
    var ticked := moved.(countdown := e.countdown - 1);
    if ticked.countdown < 0 then ticked.(countdown := e.blinkRate)
    else if ShouldDrawCursor(ticked, active) then ticked.(tracker := Damage(t, Symbol("ibeam")).tracker)
    else ticked
  }

  /** `n` countdown steps. */
  function Ticks(c: int, rate: int, n: nat): (r: int)
    decreases n
  {
    if n == 0 then c else Ticks(NextCountdown(c, rate), rate, n - 1)
  }

  /** From any count in `[0, rate]`, `k` steps that do not reach below zero count down by
      `k`. */
  lemma {:induction false} TicksCountDown(c: int, rate: int, k: nat)
    requires k <= c
    ensures Ticks(c, rate, k) == c - k
    decreases k
  {
    if k > 0 {
      TicksCountDown(c - 1, rate, k - 1);
    }
  }

  /** `a + b` steps are `a` steps followed by `b` steps. */
  lemma {:induction false} TicksSplit(c: int, rate: int, a: nat, b: nat)
    ensures Ticks(c, rate, a + b) == Ticks(Ticks(c, rate, a), rate, b)
    decreases a
  {
    if a > 0 {
      TicksSplit(NextCountdown(c, rate), rate, a - 1, b);
    }
  }

  /** The blink is periodic: starting from the blink rate, the countdown returns to the
      rate after exactly `rate + 1` updates and never leaves `[0, rate]` on the way. */
  lemma {:induction false} BlinkPeriod(rate: nat)
    ensures Ticks(rate, rate, rate + 1) == rate
    ensures forall k :: 0 <= k <= rate ==> 0 <= Ticks(rate, rate, k) <= rate
  {
    TicksCountDown(rate, rate, rate);
    TicksSplit(rate, rate, rate, 1);
    assert Ticks(0, rate, 1) == Ticks(rate, rate, 0);
    forall k | 0 <= k <= rate
      ensures 0 <= Ticks(rate, rate, k) <= rate
    {
      TicksCountDown(rate, rate, k);
    }
  }

  /** Each update keeps a countdown inside `[0, rate]` there. */
  lemma CountdownStaysInRange(e: Edit, text: string, cursor: int, selection: int, active: bool)
    requires 0 <= e.countdown <= e.blinkRate
    ensures 0 <= Update(e, text, cursor, selection, active).countdown <= e.blinkRate
  {
  }

  // ---------------------------------------------------------------- drawing

  /** What `draw` draws over the widget: the caret (when drawn) and the selection
      highlight, each as a rectangle. */
  datatype Overlay = Overlay(caret: Option<Primitives.Rect>, selection: Option<Primitives.Rect>)

  /** `draw` after the widget itself: on a visible LineEdit with content bounds from
      `(left, top0)` to `(right, _)`, a font `fontHeight` tall, and the measured caret and
      selection-start widths, the caret is a one-pixel column drawn only while it should
      blink on and lies left of the right bound, and the selection spans from its start to
      the caret, both clamped to the right bound. A hidden LineEdit draws neither. */
  function DrawOverlay(e: Edit, active: bool, visible: bool, left: int, top0: int, right: int,
                       fontHeight: int, caretWidth: int, selectionWidth: int): (r: Overlay)
    ensures !visible ==> r == Overlay(None, None)
    ensures visible ==> r.selection.Some?
    ensures r.caret.Some? <==> visible && ShouldDrawCursor(e, active) && left + caretWidth < right
    ensures r.caret.Some? ==>
      r.caret.value.x1 == left + caretWidth && r.caret.value.x2 == r.caret.value.x1 + 1 <= right
    ensures r.selection.Some? ==>
      && r.selection.value.x1 <= right && r.selection.value.x2 <= right
      && (left + selectionWidth <= right ==> r.selection.value.x1 == left + selectionWidth)
      && (left + caretWidth <= right ==> r.selection.value.x2 == left + caretWidth)
    ensures r.caret.Some? && r.selection.Some? ==> r.caret.value.x1 == r.selection.value.x2
    ensures forall b :: b in [r.caret, r.selection] && b.Some? ==>
      b.value.y1 == top0 - 1 && b.value.y2 - b.value.y1 == fontHeight + 1
  {
    if !visible then Overlay(None, None)
    else
      var top := top0 - 1;
      var bottom := top + fontHeight + 1;
      var caretX := left + caretWidth;
      var selectionX := left + selectionWidth;
      var caret := if ShouldDrawCursor(e, active) && caretX < right
        then Some(Primitives.Rect(caretX, top, caretX + 1, bottom)) else None;
      var from := if selectionX < right then selectionX else right;
      var to := if caretX < right then caretX else right;
      Overlay(caret, Some(Primitives.Rect(from, top, to, bottom)))
  }

  /** With a text measure that adds up over concatenation and the caret and selection
      start measured as the text before them, an unclamped selection highlight is exactly
      as wide as the measured `selected_text`. */
  lemma SelectionSpansSelectedText(e: Edit, active: bool, left: int, top0: int, right: int,
                                   fontHeight: int, measure: string -> int)
    requires 0 <= e.selectionPos <= e.cursorPos <= |e.text|
    requires forall a: string, b: string :: measure(a + b) == measure(a) + measure(b)
    requires forall a: string :: measure(a) >= 0
    requires left + measure(e.text[..e.cursorPos]) <= right
    ensures var r := DrawOverlay(e, active, true, left, top0, right, fontHeight,
                                 measure(e.text[..e.cursorPos]), measure(e.text[..e.selectionPos]));
            r.selection.Some? && SelectedText(e).Some?
            && r.selection.value.x2 - r.selection.value.x1 == measure(SelectedText(e).value)
  {
    SelectedTextIsBetween(e);
    assert e.text[..e.cursorPos] == e.text[..e.selectionPos] + e.text[e.selectionPos..e.cursorPos];
  }
}
