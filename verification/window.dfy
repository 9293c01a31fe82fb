/** lib/gglib/window.rb, with the focus and activity methods of lib/gglib/widget.rb that
    act on it: the MainWindow's focused, active and dragged slots, the drag anchor, the
    focus scan run on every update, and the mouse button routing. Widget callbacks and
    signals are recorded on each widget's tracker; `sent` lists the focus and activity
    callbacks in the order the window made them. */
module Window {
  import opened Base
  import opened Volatile
  import opened Widgets
  import opened Containers
  import Mouse

  /** One `notify_*` callback the window made. */
  datatype Sent = Sent(to: Id, notice: Notice)

  /** A MainWindow: its own id (`self`) in the widget store, the three slots, the drag
      state and anchor, and its cursor. */
  datatype Main = Main(
    self: Id, focused: Id, active: Id, dragged: Option<Id>,
    inDrag: bool, dragX: int, dragY: int,
    cursor: Mouse.Cursor, store: Store, sent: seq<Sent>)

  /** `MainWindow#initialize` for a backend window of the given size: the window is its own
      parent and window, focused and active, drags nothing, does not throttle rendering,
      and covers the backend window from the origin. */
  function NewMain(self: Id, width: int, height: int): (m: Main)
    ensures m.focused == self && m.active == self && m.dragged.None? && !m.inDrag
    ensures m.dragX == 0 && m.dragY == 0 && m.cursor == Mouse.NewCursor(self) && m.sent == []
    ensures (forall x :: x in m.store <==> x == self) && m.store[self].kind == Box([], true)
    ensures Bounds(m.store[self]) == Primitives.Rect(0, 0, width, height)
    ensures m.store[self].parent == Some(self) && m.store[self].window == Some(self)
    ensures !m.store[self].flags.throttle
  {
    var w := NewWidget(self, None, Box([], true));
    var w' := w.(frame := w.frame.(x1 := 0, y1 := 0, x2 := width, y2 := height),
                 parent := Some(self), window := Some(self), flags := w.flags.(throttle := false));
    Main(self, self, self, None, false, 0, 0, Mouse.NewCursor(self), map[self := w'], [])
  }

  /** Every widget but the ones named keeps its state. */
  predicate Untouched(s: Store, t: Store, a: Id, b: Id) {
    t.Keys == s.Keys && forall y :: y in s && y != a && y != b ==> t[y] == s[y]
  }

  /** A callback on a widget of the store (nothing for an id outside it). */
  function NotifyIn(s: Store, id: Id, n: Notice): (t: Store)
    ensures Untouched(s, t, id, id)
    ensures id in s ==> t[id] == Notify(s[id], n)
  {
    if id in s then s[id := Notify(s[id], n)] else s
  }

  /** `signal` on a widget of the store: the event and its arguments are published. */
  function SignalIn(s: Store, id: Id, event: Sym, args: seq<Value>): (t: Store)
    ensures Untouched(s, t, id, id)
    ensures id in s ==> t[id] == s[id].(tracker := Emit(s[id].tracker, event, args))
    ensures id in s ==> Grew(s[id], t[id], [Published(event, args)])
  {
    if id in s then s[id := s[id].(tracker := Emit(s[id].tracker, event, args))] else s
  }

  /** Only the widgets' trackers differ between the two stores. */
  predicate SameButTrackers(s: Store, t: Store) {
    t.Keys == s.Keys && forall y :: y in s ==> t[y].(tracker := s[y].tracker) == s[y]
  }

  // ---------------------------------------------------------------- the slots

  /** `set_focused_widget(w)`: the old focus is told it lost focus, then `w` that it has
      it, and only then does the slot change. */
  function SetFocusedWidget(m: Main, w: Id): (r: Main)
    ensures r.focused == w && r.(store := m.store, focused := m.focused, sent := m.sent) == m
    ensures r.sent == m.sent + [Sent(m.focused, BlurNotice), Sent(w, FocusNotice)]
    ensures Untouched(m.store, r.store, m.focused, w) && SameButTrackers(m.store, r.store)
    ensures m.focused != w && w in m.store ==> r.store[w] == Notify(m.store[w], FocusNotice)
    ensures m.focused != w && m.focused in m.store ==> r.store[m.focused] == Notify(m.store[m.focused], BlurNotice)
    ensures m.focused == w && w in m.store ==> r.store[w] == Notify(Notify(m.store[w], BlurNotice), FocusNotice)
  {
    var s := NotifyIn(NotifyIn(m.store, m.focused, BlurNotice), w, FocusNotice);
    m.(store := s, focused := w, sent := m.sent + [Sent(m.focused, BlurNotice), Sent(w, FocusNotice)])
  }

  /** `set_active_widget(w)`: deactivate the old, activate the new, then replace the slot. */
  function SetActiveWidget(m: Main, w: Id): (r: Main)
    ensures r.active == w && r.(store := m.store, active := m.active, sent := m.sent) == m
    ensures r.sent == m.sent + [Sent(m.active, DeactivateNotice), Sent(w, ActivateNotice)]
    ensures Untouched(m.store, r.store, m.active, w) && SameButTrackers(m.store, r.store)
    ensures m.active != w && w in m.store ==> r.store[w] == Notify(m.store[w], ActivateNotice)
    ensures m.active != w && m.active in m.store ==> r.store[m.active] == Notify(m.store[m.active], DeactivateNotice)
    ensures m.active == w && w in m.store ==> r.store[w] == Notify(Notify(m.store[w], DeactivateNotice), ActivateNotice)
  {
    var s := NotifyIn(NotifyIn(m.store, m.active, DeactivateNotice), w, ActivateNotice);
    m.(store := s, active := w, sent := m.sent + [Sent(m.active, DeactivateNotice), Sent(w, ActivateNotice)])
  }

  /** `focused?` of widget `id`: the window's single focus slot holds it. */
  predicate Focused(m: Main, id: Id) {
    m.focused == id
  }

  /** `active?` of widget `id`. */
  predicate Active(m: Main, id: Id) {
    m.active == id
  }

  datatype Answer = Answer(window: Main, value: bool)

  /** Widget#focus: the window refocuses only when the widget is not focused already;
      always true. Afterwards the widget, and only it, is focused. */
  function Focus(m: Main, id: Id): (r: Answer)
    ensures r.value
    ensures forall y :: Focused(r.window, y) <==> y == id
    ensures Focused(m, id) ==> r.window == m
    ensures !Focused(m, id) ==> r.window.sent == m.sent + [Sent(m.focused, BlurNotice), Sent(id, FocusNotice)]
  {
    if Focused(m, id) then Answer(m, true) else Answer(SetFocusedWidget(m, id), true)
  }

  /** Widget#blur: a focused widget hands the focus back to the window; always false. */
  function Blur(m: Main, id: Id): (r: Answer)
    ensures !r.value
    ensures Focused(m, id) ==> Focused(r.window, m.self) && r.window.sent == m.sent + [Sent(id, BlurNotice), Sent(m.self, FocusNotice)]
    ensures !Focused(m, id) ==> r.window == m
  {
    if Focused(m, id) then Answer(SetFocusedWidget(m, m.self), false) else Answer(m, false)
  }

  /** Widget#activate: an activatable widget that is not active becomes the window's
      active widget; the answer is `activatable` either way. */
  function Activate(m: Main, id: Id): (r: Answer)
    requires id in m.store
    ensures r.value == m.store[id].flags.activatable
    ensures r.value ==> Active(r.window, id)
    ensures !r.value || Active(m, id) ==> r.window == m
    ensures r.value && !Active(m, id) ==> r.window.sent == m.sent + [Sent(m.active, DeactivateNotice), Sent(id, ActivateNotice)]
  {
    var activatable := m.store[id].flags.activatable;
    if activatable && !Active(m, id) then Answer(SetActiveWidget(m, id), activatable) else Answer(m, activatable)
  }

  /** Widget#deactivate: an active widget hands activity back to the window; false. */
  function Deactivate(m: Main, id: Id): (r: Answer)
    ensures !r.value
    ensures Active(m, id) ==> Active(r.window, m.self) && r.window.sent == m.sent + [Sent(id, DeactivateNotice), Sent(m.self, ActivateNotice)]
    ensures !Active(m, id) ==> r.window == m
  {
    if Active(m, id) then Answer(SetActiveWidget(m, m.self), false) else Answer(m, false)
  }

  /** Widget#active=: activates only an activatable widget that is not active, deactivates
      only an active one, and answers whether the widget asked for activity and may have it. */
  function SetActive(m: Main, id: Id, v: bool): (r: Answer)
    requires id in m.store
    ensures r.value == (v && m.store[id].flags.activatable)
    ensures v && m.store[id].flags.activatable ==> Active(r.window, id)
    ensures !v && Active(m, id) ==> Active(r.window, m.self)
    ensures (v && !m.store[id].flags.activatable) || (v && Active(m, id)) || (!v && !Active(m, id)) ==> r.window == m
  {
    var activatable := m.store[id].flags.activatable;
    if v && activatable && !Active(m, id) then Answer(Activate(m, id).window, v && activatable)
    else if !v && Active(m, id) then Answer(Deactivate(m, id).window, v && activatable)
    else Answer(m, v && activatable)
  }

  /** Focusing and then blurring a widget that was not focused leaves the window focused,
      after telling the old focus, the widget, the widget again and the window in turn. */
  lemma FocusThenBlur(m: Main, id: Id)
    requires !Focused(m, id)
    ensures var r := Blur(Focus(m, id).window, id).window;
            && Focused(r, m.self)
            && r.sent == m.sent + [Sent(m.focused, BlurNotice), Sent(id, FocusNotice), Sent(id, BlurNotice), Sent(m.self, FocusNotice)]
  {
  }

  /** A widget's published events grow by exactly `events`. */
  predicate Grew(before: Widget, after: Widget, events: seq<Published>) {
    after.tracker.published == before.tracker.published + events
  }

  /** Focus and blur reach the widgets through `notify_*`: outside the volatile scopes,
      each widget told of the change damages `:focused` once and then signals its own
      event, and nothing else is published on it. Focusing tells the old focus `blur`
      and the new one `focus`; blurring it again tells it `blur` and the window `focus`. */
  lemma FocusAndBlurNotifyOnce(m: Main, id: Id)
    requires id in m.store && m.focused in m.store && m.self in m.store
    requires m.focused != id && m.self != id
    requires forall y :: y in m.store ==> Valid(m.store[y].tracker) && Outside(m.store[y].tracker)
    ensures var r := Focus(m, id).window.store;
            && Grew(m.store[id], r[id], [Modified(Symbol("focused")), Published("focus", [])])
            && Grew(m.store[m.focused], r[m.focused], [Modified(Symbol("focused")), Published("blur", [])])
    ensures var f := Focus(m, id).window;
            var r := Blur(f, id).window.store;
            && Grew(f.store[id], r[id], [Modified(Symbol("focused")), Published("blur", [])])
            && Grew(f.store[m.self], r[m.self], [Modified(Symbol("focused")), Published("focus", [])])
  {
    var f := Focus(m, id).window;
    assert f.store[m.self].tracker.uncheckedLevel == m.store[m.self].tracker.uncheckedLevel;
    assert f.store[m.self].tracker.unreportedLevel == m.store[m.self].tracker.unreportedLevel;
  }

  /** Activating twice is activating once. */
  lemma ActivateIdempotent(m: Main, id: Id)
    requires id in m.store
    ensures Activate(m, id).window.store.Keys == m.store.Keys
    ensures Activate(Activate(m, id).window, id) == Activate(m, id)
  {
  }

  // ---------------------------------------------------------------- the focus scan

  /** The conditions for a child to take the focus from the current candidate, other than
      its z: the cursor is enabled and over it, and it is enabled. */
  predicate Eligible(s: Store, c: Mouse.Cursor, id: Id) {
    id in s && c.enabled && s[id].flags.enabled
    && Mouse.Over(c, s[id].frame.x1, s[id].frame.y1, s[id].frame.x2, s[id].frame.y2)
  }

  /** The inner `widgets.each` of `update_focus`: an eligible child whose z is at least the
      current candidate's becomes the candidate. The candidate's z never goes down, and
      it only ever becomes an eligible child. */
  function Scan(s: Store, c: Mouse.Cursor, ids: seq<Id>, cand: Id): (r: Id)
    requires cand in s
    ensures r in s && s[r].z >= s[cand].z
    ensures r == cand || (r in ids && Eligible(s, c, r))
    decreases |ids|
  {
    if ids == [] then cand
    else
      var x := ids[0];
      Scan(s, c, ids[1..], if Eligible(s, c, x) && s[x].z >= s[cand].z then x else cand)
  }

  /** The scan ends at least as high as every eligible child, and keeps the candidate
      when every eligible child is lower. */
  lemma {:induction false} ScanIsHighest(s: Store, c: Mouse.Cursor, ids: seq<Id>, cand: Id)
    requires cand in s
    ensures forall i :: 0 <= i < |ids| && Eligible(s, c, ids[i]) ==> s[ids[i]].z <= s[Scan(s, c, ids, cand)].z
    ensures (forall i :: 0 <= i < |ids| && Eligible(s, c, ids[i]) ==> s[ids[i]].z < s[cand].z) ==> Scan(s, c, ids, cand) == cand
    decreases |ids|
  {
    if ids != [] {
      var x := ids[0];
      var next := if Eligible(s, c, x) && s[x].z >= s[cand].z then x else cand;
      var r := Scan(s, c, ids[1..], next);
      assert Scan(s, c, ids, cand) == r;
      ScanIsHighest(s, c, ids[1..], next);
      assert forall i :: 0 < i < |ids| ==> ids[i] == ids[1..][i - 1];
      if forall i :: 0 <= i < |ids| && Eligible(s, c, ids[i]) ==> s[ids[i]].z < s[cand].z {
        assert next == cand;
        assert forall i :: 0 <= i < |ids[1..]| && Eligible(s, c, ids[1..][i]) ==> s[ids[1..][i]].z < s[next].z by {
          forall i | 0 <= i < |ids[1..]| && Eligible(s, c, ids[1..][i])
            ensures s[ids[1..][i]].z < s[next].z
          {
            assert ids[1..][i] == ids[i + 1];
          }
        }
      }
    }
  }

  /** When some eligible child reaches the candidate's z, the scan ends on an eligible
      child none of whose eligible successors in the list is as high: the last of the
      highest eligible children. */
  lemma {:induction false} ScanPicksLastHighest(s: Store, c: Mouse.Cursor, ids: seq<Id>, cand: Id, k: nat)
    requires cand in s && k < |ids| && Eligible(s, c, ids[k]) && s[ids[k]].z >= s[cand].z
    ensures var r := Scan(s, c, ids, cand);
            exists i :: 0 <= i < |ids| && ids[i] == r && Eligible(s, c, r)
              && forall j :: i < j < |ids| && Eligible(s, c, ids[j]) ==> s[ids[j]].z < s[r].z
    decreases |ids|
  {
    var x := ids[0];
    var next := if Eligible(s, c, x) && s[x].z >= s[cand].z then x else cand;
    var r := Scan(s, c, ids[1..], next);
    assert Scan(s, c, ids, cand) == r;
    if j :| 0 <= j < |ids[1..]| && Eligible(s, c, ids[1..][j]) && s[ids[1..][j]].z >= s[next].z {
      ScanPicksLastHighest(s, c, ids[1..], next, j);
      var i :| 0 <= i < |ids[1..]| && ids[1..][i] == r && Eligible(s, c, r)
              && forall j :: i < j < |ids[1..]| && Eligible(s, c, ids[1..][j]) ==> s[ids[1..][j]].z < s[r].z;
      assert ids[i + 1] == r;
      forall j | i + 1 < j < |ids| && Eligible(s, c, ids[j])
        ensures s[ids[j]].z < s[r].z
      {
        assert ids[j] == ids[1..][j - 1];
      }
    } else {
      forall j | 0 <= j < |ids[1..]| && Eligible(s, c, ids[1..][j])
        ensures s[ids[1..][j]].z < s[next].z
      {
      }
      assert r == next;
      if next != x || !(Eligible(s, c, x) && s[x].z >= s[cand].z) {
        assert false;
      }
      forall j | 0 < j < |ids| && Eligible(s, c, ids[j])
        ensures s[ids[j]].z < s[r].z
      {
        assert ids[j] == ids[1..][j - 1];
      }
      assert ids[0] == r;
    }
  }

  /** The children `update_focus` scans next: a Container's own (none for anything else). */
  function Scanned(s: Store, container: Id): seq<Id> {
    if container in s && s[container].kind.Box? then s[container].kind.children else []
  }

  /** What `update_focus` does after a scan of `container` that ended on `n`. */
  datatype Step = Stop | Descend(into: Id)

  /** Stop at the container itself, at a CompoundWidget whose internal container was just
      searched, or at anything but a Container or CompoundWidget; otherwise search the
      Container, or the CompoundWidget's internal container. `fuel` bounds the descent. */
  function NextStep(s: Store, container: Id, n: Id, fuel: nat): (r: Step)
    requires n in s
    ensures r.Descend? ==> fuel > 0 && n != container && (s[n].kind.Box? || s[n].kind.Compound?)
    ensures r.Descend? && s[n].kind.Box? ==> r.into == n
    ensures r.Descend? && s[n].kind.Compound? ==> r.into == s[n].kind.inner && r.into != container
  {
    if n == container then Stop
    else if s[n].kind.Compound? && s[n].kind.inner == container then Stop
    else if fuel == 0 then Stop
    else if s[n].kind.Box? then Descend(n)
    else if s[n].kind.Compound? then Descend(s[n].kind.inner)
    else Stop
  }

  /** The `loop` of `update_focus` from `container` with candidate `cand`: scan the
      container's children, then stop or search again one level down, the candidate
      carried along. */
  function FocusSearch(s: Store, c: Mouse.Cursor, container: Id, cand: Id, fuel: nat): (r: Id)
    requires cand in s
    ensures r in s && s[r].z >= s[cand].z
    ensures r == cand || Eligible(s, c, r)
    decreases fuel
  {
    var n := Scan(s, c, Scanned(s, container), cand);
    match NextStep(s, container, n, fuel)
    case Stop => n
    case Descend(k) => FocusSearch(s, c, k, n, fuel - 1)
  }

  /** The search reads only boxes, flags, z and kinds, never the trackers. */
  lemma {:induction false} FocusSearchIgnoresTrackers(s: Store, t: Store, c: Mouse.Cursor, container: Id, cand: Id, fuel: nat)
    requires cand in s && SameButTrackers(s, t)
    ensures FocusSearch(t, c, container, cand, fuel) == FocusSearch(s, c, container, cand, fuel)
    decreases fuel
  {
    StepIgnoresTrackers(s, t, c, container, cand, fuel);
    var n := Scan(s, c, Scanned(s, container), cand);
    if NextStep(s, container, n, fuel).Descend? {
      FocusSearchIgnoresTrackers(s, t, c, NextStep(s, container, n, fuel).into, n, fuel - 1);
    }
  }

  /** One round of the search, a scan and the choice of the next step, reads no tracker. */
  lemma StepIgnoresTrackers(s: Store, t: Store, c: Mouse.Cursor, container: Id, cand: Id, fuel: nat)
    requires cand in s && SameButTrackers(s, t)
    ensures var n := Scan(s, c, Scanned(s, container), cand);
            && Scan(t, c, Scanned(t, container), cand) == n && n in s && n in t
            && NextStep(t, container, n, fuel) == NextStep(s, container, n, fuel)
  {
    var kids := Scanned(s, container);
    assert Scanned(t, container) == kids by {
      if container in s { assert t[container].kind == s[container].kind; }
    }
    ScanIgnoresTrackers(s, t, c, kids, cand);
    var n := Scan(s, c, kids, cand);
    assert t[n].kind == s[n].kind;
  }

  lemma {:induction false} ScanIgnoresTrackers(s: Store, t: Store, c: Mouse.Cursor, ids: seq<Id>, cand: Id)
    requires cand in s && SameButTrackers(s, t)
    ensures Scan(t, c, ids, cand) == Scan(s, c, ids, cand)
    decreases |ids|
  {
    if ids != [] {
      var x := ids[0];
      if x in s { assert t[x].(tracker := s[x].tracker) == s[x]; }
      assert t[cand].(tracker := s[cand].tracker) == s[cand];
      ScanIgnoresTrackers(s, t, c, ids[1..], if Eligible(s, c, x) && s[x].z >= s[cand].z then x else cand);
    }
  }

  datatype Refocused = Refocused(window: Main, focus: Id)

  /** `update_focus`: search from the window itself, and call `focus` on the result only
      when it differs from the old focus. The result is the window or an enabled widget
      under an enabled cursor, never below the window in z. */
  function UpdateFocus(m: Main, fuel: nat): (r: Refocused)
    requires m.self in m.store
    ensures r.window.focused == r.focus && r.focus in m.store
    ensures r.focus == m.self || Eligible(m.store, m.cursor, r.focus)
    ensures m.store[r.focus].z >= m.store[m.self].z
    ensures r.focus == m.focused ==> r.window == m
    ensures r.focus != m.focused ==> r.window == SetFocusedWidget(m, r.focus)
  {
    var n := FocusSearch(m.store, m.cursor, m.self, m.self, fuel);
    if n == m.focused then Refocused(m, n) else Refocused(Focus(m, n).window, n)
  }

  /** A second `update_focus` with the cursor where it was changes nothing: the callbacks
      of the first only touch trackers, which the search does not read. */
  lemma UpdateFocusSettles(m: Main, fuel: nat)
    requires m.self in m.store
    ensures var once := UpdateFocus(m, fuel).window;
            once.self in once.store && UpdateFocus(once, fuel) == Refocused(once, once.focused)
  {
    var n := FocusSearch(m.store, m.cursor, m.self, m.self, fuel);
    var once := UpdateFocus(m, fuel).window;
    FocusSearchIgnoresTrackers(m.store, once.store, m.cursor, m.self, m.self, fuel);
  }

  /** With the cursor disabled nothing is eligible, so the window takes the focus. */
  lemma DisabledCursorFocusesWindow(m: Main, fuel: nat)
    requires m.self in m.store && !m.cursor.enabled
    ensures UpdateFocus(m, fuel).focus == m.self
    ensures Focused(UpdateFocus(m, fuel).window, m.self)
  {
  }

  // ---------------------------------------------------------------- mouse buttons

  /** The cursor position as signal arguments. */
  function At(m: Main): seq<Value> {
    [Int(m.cursor.x), Int(m.cursor.y)]
  }

  /** Two signals in a row to one widget of the store: its published events grow by
      exactly those two, in order, and no other widget changes. */
  function SignalTwice(s: Store, id: Id, first: Published, second: Published): (t: Store)
    ensures Untouched(s, t, id, id) && SameButTrackers(s, t)
    ensures id in s ==> Grew(s[id], t[id], [first, second])
  {
    var u := SignalIn(s, id, first.event, first.args);
    var t := SignalIn(u, id, second.event, second.args);
    assert id in s ==> t[id].tracker.published == s[id].tracker.published + [first] + [second];
    assert [first] + [second] == [first, second];
    t
  }

  /** Only trackers differ, then only trackers differ again: only trackers differ. */
  lemma SameButTrackersTransitive(s: Store, t: Store, u: Store)
    requires SameButTrackers(s, t) && SameButTrackers(t, u)
    ensures SameButTrackers(s, u)
  {
    forall y | y in s
      ensures u[y].(tracker := s[y].tracker) == s[y]
    {
      assert t[y].(tracker := s[y].tracker) == s[y];
      assert u[y].(tracker := t[y].tracker) == t[y];
    }
  }

  /** `@focused_widget.signal(event, *args)`: only the focused widget's published events
      grow, by exactly that one event. */
  function SignalFocused(m: Main, event: Sym, args: seq<Value>): (r: Main)
    ensures r == m.(store := r.store)
    ensures Untouched(m.store, r.store, m.focused, m.focused) && SameButTrackers(m.store, r.store)
    ensures m.focused in m.store ==> Grew(m.store[m.focused], r.store[m.focused], [Published(event, args)])
  {
    m.(store := SignalIn(m.store, m.focused, event, args))
  }

  /** The two events a left press signals to the focused widget. */
  function PressEvents(m: Main): (e: seq<Published>)
    ensures |e| == 2 && e[0].event == "mouse_down" && e[1].event == "mouse_drag"
  {
    [Published("mouse_down", [Symbol("left")] + At(m)), Published("mouse_drag", [Symbol("start")] + At(m))]
  }

  /** The left-button branch of `button_down`: the focused widget is made active (even
      when it already is), is signalled `:mouse_down, :left` and then `:mouse_drag, :start`
      at the cursor, and becomes the dragged widget of a drag anchored at the cursor. */
  function PressLeft(m: Main): (r: Main)
    ensures r.active == m.focused && r.dragged == Some(m.focused) && r.inDrag
    ensures r.dragX == m.cursor.x && r.dragY == m.cursor.y
    ensures r.focused == m.focused && r.cursor == m.cursor
    ensures r.sent == m.sent + [Sent(m.active, DeactivateNotice), Sent(m.focused, ActivateNotice)]
    ensures SameButTrackers(m.store, r.store)
    ensures m.focused in m.store ==>
      var p := r.store[m.focused].tracker.published;
      |p| >= 2 && p[|p| - 2..] == PressEvents(m)
  {
    var f := m.focused;
    var a := SetActiveWidget(m, f);
    var e := PressEvents(m);
    var s := SignalTwice(a.store, f, e[0], e[1]);
    SameButTrackersTransitive(m.store, a.store, s);
    assert f in m.store ==> s[f].tracker.published[|s[f].tracker.published| - 2..] == e;
    a.(store := s, dragged := Some(f), inDrag := true, dragX := m.cursor.x, dragY := m.cursor.y)
  }

  /** `button_down(button)`. The left button makes the focused widget active, signals
      `:mouse_down, :left, x, y` and `:mouse_drag, :start, x, y` to it, and starts a drag
      anchored at the cursor. The middle and right buttons signal `:mouse_down` with only
      the button's name; any other button signals `:button_down, button`. */
  function ButtonDown(m: Main, button: Sym): (r: Main)
    ensures SameButTrackers(m.store, r.store)
    ensures button == "mouse_left" ==>
      && r.active == m.focused && r.dragged == Some(m.focused) && r.inDrag
      && r.dragX == m.cursor.x && r.dragY == m.cursor.y
      && r.focused == m.focused && r.cursor == m.cursor
      && r.sent == m.sent + [Sent(m.active, DeactivateNotice), Sent(m.focused, ActivateNotice)]
    ensures button == "mouse_left" && m.focused in m.store ==>
      var p := r.store[m.focused].tracker.published;
      |p| >= 2 && p[|p| - 2..] == [Published("mouse_down", [Symbol("left")] + At(m)), Published("mouse_drag", [Symbol("start")] + At(m))]
    ensures button != "mouse_left" ==> r == m.(store := r.store)
    ensures button != "mouse_left" ==> Untouched(m.store, r.store, m.focused, m.focused)
    ensures m.focused in m.store && button == "mouse_middle" ==>
      Grew(m.store[m.focused], r.store[m.focused], [Published("mouse_down", [Symbol("middle")])])
    ensures m.focused in m.store && button == "mouse_right" ==>
      Grew(m.store[m.focused], r.store[m.focused], [Published("mouse_down", [Symbol("right")])])
    ensures m.focused in m.store && button !in {"mouse_left", "mouse_middle", "mouse_right"} ==>
      Grew(m.store[m.focused], r.store[m.focused], [Published("button_down", [Symbol(button)])])
  {
    if button == "mouse_left" then PressLeft(m)
    else if button == "mouse_middle" then SignalFocused(m, "mouse_down", [Symbol("middle")])
    else if button == "mouse_right" then SignalFocused(m, "mouse_down", [Symbol("right")])
    else SignalFocused(m, "button_down", [Symbol(button)])
  }

  /** The release signals on the store: `:mouse_up, :left` and `:click` to widget `f`,
      then `:mouse_drag, :end` to widget `d`; nobody else changes. */
  function ReleaseIn(s: Store, f: Id, d: Id, at: seq<Value>): (t: Store)
    ensures Untouched(s, t, f, d) && SameButTrackers(s, t)
    ensures f in s && d != f ==> Grew(s[f], t[f], ReleaseUp(at))
    ensures f in s && d == f ==> Grew(s[f], t[f], ReleaseUp(at) + ReleaseEnd(at))
    ensures d in s && d != f ==> Grew(s[d], t[d], ReleaseEnd(at))
  {
    var up := ReleaseUp(at);
    var u := SignalTwice(s, f, up[0], up[1]);
    var t := SignalIn(u, d, "mouse_drag", [Symbol("end")] + at);
    SameButTrackersTransitive(s, u, t);
    assert f in s && d == f ==> t[f].tracker.published == s[f].tracker.published + up + ReleaseEnd(at);
    t
  }

  /** What a left release signals to the focused widget. */
  function ReleaseUp(at: seq<Value>): (e: seq<Published>)
    ensures |e| == 2 && e[0].event == "mouse_up" && e[1].event == "click"
  {
    [Published("mouse_up", [Symbol("left")] + at), Published("click", at)]
  }

  /** What a left release signals to the dragged widget. */
  function ReleaseEnd(at: seq<Value>): (e: seq<Published>)
    ensures |e| == 1 && e[0].event == "mouse_drag"
  {
    [Published("mouse_drag", [Symbol("end")] + at)]
  }

  /** The left-button branch of `button_up`: `:mouse_up, :left` and `:click` at the cursor
      go to the focused widget, then `:mouse_drag, :end` to the dragged one, which is nil
      (NoMethodError) when nothing is dragged; the drag ends. */
  function ReleaseLeft(m: Main): (r: Result<Main>)
    ensures m.dragged.None? <==> r == Err(NoMethodError)
    ensures m.dragged.Some? ==> r.Ok?
    ensures r.Ok? ==> r.value == m.(store := r.value.store, inDrag := false) && SameButTrackers(m.store, r.value.store)
    ensures r.Ok? ==> Untouched(m.store, r.value.store, m.focused, m.dragged.value)
    ensures r.Ok? && m.focused in m.store && m.dragged.value != m.focused ==>
      Grew(m.store[m.focused], r.value.store[m.focused], ReleaseUp(At(m)))
    ensures r.Ok? && m.focused in m.store && m.dragged.value == m.focused ==>
      Grew(m.store[m.focused], r.value.store[m.focused], ReleaseUp(At(m)) + ReleaseEnd(At(m)))
    ensures r.Ok? && m.dragged.value != m.focused && m.dragged.value in m.store ==>
      Grew(m.store[m.dragged.value], r.value.store[m.dragged.value], ReleaseEnd(At(m)))
  {
    if m.dragged.None? then Err(NoMethodError)
    else Ok(m.(store := ReleaseIn(m.store, m.focused, m.dragged.value, At(m)), inDrag := false))
  }

  /** `button_up(button)`. The left button signals `:mouse_up, :left, x, y` and
      `:click, x, y` to the focused widget and `:mouse_drag, :end, x, y` to the dragged
      one, and ends the drag; with no dragged widget that last signal is sent to nil and
      raises. The middle and right buttons signal `:mouse_up` with the button's name and
      the cursor; any other button signals `:button_up, button`. No button changes the
      focus, the active widget or the dragged widget. */
  function ButtonUp(m: Main, button: Sym): (r: Result<Main>)
    ensures button == "mouse_left" && m.dragged.None? ==> r == Err(NoMethodError)
    ensures r.Ok? ==> r.value.focused == m.focused && r.value.active == m.active && r.value.dragged == m.dragged
    ensures r.Ok? ==> r.value.sent == m.sent && SameButTrackers(m.store, r.value.store)
    ensures button == "mouse_left" && m.dragged.Some? ==> r.Ok? && r.value == m.(store := r.value.store, inDrag := false)
    ensures button != "mouse_left" ==> r.Ok? && r.value == m.(store := r.value.store)
    ensures button == "mouse_left" && m.dragged.Some? && m.focused in m.store ==>
      var up := [Published("mouse_up", [Symbol("left")] + At(m)), Published("click", At(m))];
      var end := [Published("mouse_drag", [Symbol("end")] + At(m))];
      && (m.dragged.value != m.focused ==> Grew(m.store[m.focused], r.value.store[m.focused], up))
      && (m.dragged.value == m.focused ==> Grew(m.store[m.focused], r.value.store[m.focused], up + end))
    ensures button == "mouse_left" && m.dragged.Some? && m.dragged.value != m.focused && m.dragged.value in m.store ==>
      Grew(m.store[m.dragged.value], r.value.store[m.dragged.value], [Published("mouse_drag", [Symbol("end")] + At(m))])
    ensures m.focused in m.store && button == "mouse_middle" ==>
      Grew(m.store[m.focused], r.value.store[m.focused], [Published("mouse_up", [Symbol("middle")] + At(m))])
    ensures m.focused in m.store && button == "mouse_right" ==>
      Grew(m.store[m.focused], r.value.store[m.focused], [Published("mouse_up", [Symbol("right")] + At(m))])
    ensures m.focused in m.store && button !in {"mouse_left", "mouse_middle", "mouse_right"} ==>
      Grew(m.store[m.focused], r.value.store[m.focused], [Published("button_up", [Symbol(button)])])
  {
    if button == "mouse_left" then ReleaseLeft(m)
    else if button == "mouse_middle" then Ok(SignalFocused(m, "mouse_up", [Symbol("middle")] + At(m)))
    else if button == "mouse_right" then Ok(SignalFocused(m, "mouse_up", [Symbol("right")] + At(m)))
    else Ok(SignalFocused(m, "button_up", [Symbol(button)]))
  }

  /** A drag in progress always has a widget to send its moves to. */
  predicate DragReady(m: Main) {
    m.inDrag ==> m.dragged.Some?
  }

  /** `update_drag`: while dragging, the dragged widget is sent the cursor's displacement
      from the anchor (as `:mouse_drag, :continue` and as `:drag`), and the anchor moves to
      the cursor; otherwise nothing happens. */
  function UpdateDrag(m: Main): (r: Result<Main>)
    ensures DragReady(m) ==> r.Ok?
    ensures !m.inDrag ==> r == Ok(m)
    ensures r.Ok? && m.inDrag ==> m.dragged.Some?
    ensures r.Ok? && m.inDrag && m.dragged.Some? ==>
      && r.value == m.(store := r.value.store, dragX := m.cursor.x, dragY := m.cursor.y)
      && Untouched(m.store, r.value.store, m.dragged.value, m.dragged.value)
      && (m.dragged.value in m.store ==>
            r.value.store[m.dragged.value].tracker.published == m.store[m.dragged.value].tracker.published
              + [Published("mouse_drag", [Symbol("continue"), Int(m.cursor.x - m.dragX), Int(m.cursor.y - m.dragY)]),
                 Published("drag", [Int(m.cursor.x - m.dragX), Int(m.cursor.y - m.dragY)])])
  {
    if !m.inDrag then Ok(m)
    else if m.dragged.None? then Err(NoMethodError)
    else
      var dx, dy := Int(m.cursor.x - m.dragX), Int(m.cursor.y - m.dragY);
      var s := SignalIn(m.store, m.dragged.value, "mouse_drag", [Symbol("continue"), dx, dy]);
      Ok(m.(store := SignalIn(s, m.dragged.value, "drag", [dx, dy]), dragX := m.cursor.x, dragY := m.cursor.y))
  }

  /** Every button and every drag update keeps a drag in progress attached to a widget. */
  lemma DragReadyIsKept(m: Main, button: Sym)
    requires DragReady(m)
    ensures DragReady(ButtonDown(m, button))
    ensures ButtonUp(m, button).Ok? ==> DragReady(ButtonUp(m, button).value)
    ensures UpdateDrag(m).Ok? && DragReady(UpdateDrag(m).value)
  {
  }

  /** The displacements sent by two drag updates add up to the cursor's whole movement
      since the anchor was set: nothing is lost or counted twice. */
  lemma DragDisplacementsAdd(m: Main, x: int, y: int)
    requires m.inDrag && m.dragged.Some?
    ensures var once := UpdateDrag(m).value;
            var twice := UpdateDrag(once.(cursor := once.cursor.(x := x, y := y))).value;
            && (m.cursor.x - m.dragX) + (x - once.dragX) == x - m.dragX
            && (m.cursor.y - m.dragY) + (y - once.dragY) == y - m.dragY
            && twice.dragX == x && twice.dragY == y
  {
  }

  /** A drag started by the left button and updated with the cursor where it pressed
      sends a zero displacement. */
  lemma PressThenUpdateSendsZero(m: Main)
    requires m.focused in m.store
    ensures var d := ButtonDown(m, "mouse_left");
            && UpdateDrag(d).Ok?
            && UpdateDrag(d).value.store[m.focused].tracker.published
               == d.store[m.focused].tracker.published
                  + [Published("mouse_drag", [Symbol("continue"), Int(0), Int(0)]), Published("drag", [Int(0), Int(0)])]
  {
    var d := ButtonDown(m, "mouse_left");
    UpdateAtAnchorSendsZero(d);
  }

  /** A drag update with the cursor still on the anchor sends a zero displacement. */
  lemma UpdateAtAnchorSendsZero(d: Main)
    requires d.inDrag && d.dragged.Some? && d.dragged.value in d.store
    requires d.dragX == d.cursor.x && d.dragY == d.cursor.y
    ensures UpdateDrag(d).Ok?
    ensures UpdateDrag(d).value.store[d.dragged.value].tracker.published
            == d.store[d.dragged.value].tracker.published
               + [Published("mouse_drag", [Symbol("continue"), Int(0), Int(0)]), Published("drag", [Int(0), Int(0)])]
  {
  }

  // ---------------------------------------------------------------- set_dragged_widget

  /** The parents `set_dragged_widget` walks through from `w`, at most `fuel` of them,
      stopping at nil or at a widget outside the store. */
  function Ancestry(s: Store, w: Option<Id>, fuel: nat): (r: seq<Id>)
    ensures |r| <= fuel + 1
    ensures forall i :: 0 <= i < |r| ==> r[i] in s
    decreases fuel
  {
    if w.None? || w.value !in s then []
    else if fuel == 0 then [w.value]
    else [w.value] + Ancestry(s, s[w.value].parent, fuel - 1)
  }

  /** Where the walk may stop: a draggable widget or the MainWindow. */
  predicate Grabs(m: Main, id: Id) {
    id in m.store && (m.store[id].flags.draggable || id == m.self)
  }

  /** `set_dragged_widget(w)`: walk up from `w` until a draggable widget or the window is
      found, and record it (nil when the walk runs out of parents). */
  function WalkUp(m: Main, w: Option<Id>, fuel: nat): (r: Option<Id>)
    ensures r.Some? ==> Grabs(m, r.value)
    decreases fuel
  {
    if w.None? || w.value !in m.store then None
    else if Grabs(m, w.value) then w
    else if fuel == 0 then None
    else WalkUp(m, m.store[w.value].parent, fuel - 1)
  }

  /** `set_dragged_widget(w)`: only the dragged slot changes, and it receives what the
      walk up from `w` finds. */
  function SetDraggedWidget(m: Main, w: Option<Id>, fuel: nat): (r: Main)
    ensures r.(dragged := m.dragged) == m
    ensures r.dragged.Some? ==> Grabs(m, r.dragged.value)
    ensures w.Some? && Grabs(m, w.value) ==> r.dragged == w
    ensures w.None? ==> r.dragged == None
    ensures r.dragged == FirstGrab(m, Ancestry(m.store, w, fuel))
  {
    WalkUpFindsFirstGrab(m, w, fuel);
    m.(dragged := WalkUp(m, w, fuel))
  }

  /** The first widget of `a` that can be grabbed. */
  function FirstGrab(m: Main, a: seq<Id>): Option<Id>
    decreases |a|
  {
    if a == [] then None
    else if Grabs(m, a[0]) then Some(a[0])
    else FirstGrab(m, a[1..])
  }

  /** FirstGrab finds nothing exactly when no widget of `a` can be grabbed, and otherwise
      a widget that can, with none before it that could. */
  lemma {:induction false} FirstGrabIsFirst(m: Main, a: seq<Id>)
    ensures FirstGrab(m, a).None? <==> forall i :: 0 <= i < |a| ==> !Grabs(m, a[i])
    ensures FirstGrab(m, a).Some? ==>
      exists i :: 0 <= i < |a| && a[i] == FirstGrab(m, a).value && Grabs(m, a[i]) && forall j :: 0 <= j < i ==> !Grabs(m, a[j])
    decreases |a|
  {
    if a != [] && !Grabs(m, a[0]) {
      var rest := a[1..];
      FirstGrabIsFirst(m, rest);
      assert FirstGrab(m, a) == FirstGrab(m, rest);
      assert forall i :: 0 < i < |a| ==> a[i] == rest[i - 1];
      if FirstGrab(m, rest).Some? {
        var i :| 0 <= i < |rest| && rest[i] == FirstGrab(m, rest).value && Grabs(m, rest[i])
                 && forall j :: 0 <= j < i ==> !Grabs(m, rest[j]);
        assert a[i + 1] == rest[i];
        assert forall j :: 0 <= j < i + 1 ==> !Grabs(m, a[j]);
      }
    }
  }

  /** The walk stops at the first widget of the ancestry that can be grabbed, and finds
      nothing when no widget of the ancestry can. */
  lemma {:induction false} WalkUpFindsFirstGrab(m: Main, w: Option<Id>, fuel: nat)
    ensures WalkUp(m, w, fuel) == FirstGrab(m, Ancestry(m.store, w, fuel))
    decreases fuel
  {
    var a := Ancestry(m.store, w, fuel);
    if w.None? || w.value !in m.store {
      assert a == [];
    } else if Grabs(m, w.value) {
      assert a[0] == w.value;
      assert FirstGrab(m, a) == w;
    } else if fuel == 0 {
      assert a == [w.value];
      assert FirstGrab(m, a) == FirstGrab(m, []);
    } else {
      var p := m.store[w.value].parent;
      WalkUpFindsFirstGrab(m, p, fuel - 1);
      assert a == [w.value] + Ancestry(m.store, p, fuel - 1);
      assert FirstGrab(m, a) == FirstGrab(m, Ancestry(m.store, p, fuel - 1));
    }
  }

  /** Starting the walk at the window itself finds the window. */
  lemma WalkFromWindow(m: Main, fuel: nat)
    requires m.self in m.store
    ensures SetDraggedWidget(m, Some(m.self), fuel).dragged == Some(m.self)
  {
  }
}
