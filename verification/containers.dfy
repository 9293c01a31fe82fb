/** lib/gglib/container.rb: the Container mixin over a store of widgets keyed by
    object id: the ordered child list, attaching a subtree to a window, z-order
    propagation, traversal, and the overflow clip decision; and CompoundWidget's
    drawing, which keeps its internal container over its own box. */
module Containers {
  import opened Base
  import opened Events
  import opened Volatile
  import opened Styles
  import opened Widgets

  /** Every live widget, by object id. */
  type Store = map<Id, Widget>

  /** A renderer's suggested size for a widget, as `configure_renderer` asks for it. */
  type Suggest = Widget -> (int, int)

  /** `c` is a Container. */
  predicate IsContainer(s: Store, c: Id) {
    c in s && s[c].kind.Box?
  }

  /** The shape of the store: which ids exist and what kind of widget each is. */
  function Kinds(s: Store): (k: map<Id, Kind>)
    ensures k.Keys == s.Keys && forall x :: x in s ==> k[x] == s[x].kind
  {
    map x | x in s :: s[x].kind
  }

  /** Same ids, same kinds and same handler tables: attaching and re-ordering keep
      the shape; only `add`, `remove` and `clear` change it. */
  predicate SameShape(s: Store, r: Store) {
    && r.Keys == s.Keys
    && (forall x :: x in s ==> r[x].kind == s[x].kind)
    && (forall x :: x in s ==> r[x].events == s[x].events)
  }

  lemma SameShapeSameKinds(s: Store, r: Store)
    requires SameShape(s, r)
    ensures Kinds(r) == Kinds(s)
  {
    assert Kinds(r).Keys == Kinds(s).Keys;
  }

  // ---------------------------------------------------------------- attaching

  /** The ids a widget's `set_container` passes on to as children: a Container's. */
  function Below(s: Store, id: Id): seq<Id>
    requires id in s
  {
    if s[id].kind.Box? then s[id].kind.children else []
  }

  /** The widgets `set_container` reaches from `id` with `fuel` levels of nesting: the
      widget itself, a Container's children, a CompoundWidget's internal container. */
  function Reach(k: map<Id, Kind>, id: Id, fuel: nat): (r: set<Id>)
    ensures r <= k.Keys
    ensures fuel > 0 && id in k ==> id in r
    decreases fuel, 0, 0
  {
    if fuel == 0 || id !in k then {}
    else {id} + match k[id]
      case Plain => {}
      case Box(children, _) => ReachAll(k, children, fuel - 1)
      case Compound(inner, _) => Reach(k, inner, fuel - 1)
  }

  function ReachAll(k: map<Id, Kind>, ids: seq<Id>, fuel: nat): (r: set<Id>)
    ensures r <= k.Keys
    decreases fuel, 1, |ids|
  {
    if ids == [] then {} else Reach(k, ids[0], fuel) + ReachAll(k, ids[1..], fuel)
  }

  /** `set_container(p)` on widget `id`, where `win` is `p`'s window. A Container first
      attaches itself, then re-attaches every child to itself; a CompoundWidget first
      attaches its internal container to `p` and floats it, then attaches itself. */
  function Attach(s: Store, id: Id, p: Id, win: Option<Id>, suggest: Suggest, fuel: nat): (r: Store)
    ensures SameShape(s, r)
    ensures forall x :: x in s && x !in Reach(Kinds(s), id, fuel) ==> r[x] == s[x]
    ensures forall x :: x in Reach(Kinds(s), id, fuel) ==> r[x].window == win
    ensures fuel > 0 && id in s && id !in ReachAll(Kinds(s), Below(s, id), fuel - 1) ==> r[id].parent == Some(p)
    decreases fuel, 0, 1
  {
    if fuel == 0 || id !in s then s
    else
      match s[id].kind
      case Plain =>
        assert Reach(Kinds(s), id, fuel) == {id};
        AttachOne(s, id, p, win, suggest)
      case Box(_, _) => AttachBox(s, id, p, win, suggest, fuel)
      case Compound(_, _) => AttachCompound(s, id, p, win, suggest, fuel)
  }

  /** A Container's `set_container(p)`: itself first, then each child to itself. */
  function AttachBox(s: Store, id: Id, p: Id, win: Option<Id>, suggest: Suggest, fuel: nat): (r: Store)
    requires id in s && s[id].kind.Box? && fuel > 0
    ensures SameShape(s, r)
    ensures forall x :: x in s && x !in Reach(Kinds(s), id, fuel) ==> r[x] == s[x]
    ensures forall x :: x in Reach(Kinds(s), id, fuel) ==> r[x].window == win
    ensures id !in ReachAll(Kinds(s), Below(s, id), fuel - 1) ==> r[id].parent == Some(p)
    decreases fuel, 0, 0
  {
    assert Reach(Kinds(s), id, fuel) == {id} + ReachAll(Kinds(s), s[id].kind.children, fuel - 1);
    var s1 := AttachOne(s, id, p, win, suggest);
    SameShapeSameKinds(s, s1);
    AttachAll(s1, s[id].kind.children, id, win, suggest, fuel - 1)
  }

  /** A CompoundWidget's `set_container(p)`: its internal container is attached to `p`
      and floated, then the CompoundWidget itself is attached. */
  function AttachCompound(s: Store, id: Id, p: Id, win: Option<Id>, suggest: Suggest, fuel: nat): (r: Store)
    requires id in s && s[id].kind.Compound? && fuel > 0
    ensures SameShape(s, r)
    ensures forall x :: x in s && x !in Reach(Kinds(s), id, fuel) ==> r[x] == s[x]
    ensures forall x :: x in Reach(Kinds(s), id, fuel) ==> r[x].window == win
    ensures r[id].parent == Some(p)
    decreases fuel, 0, 0
  {
    var inner := s[id].kind.inner;
    assert Reach(Kinds(s), id, fuel) == {id} + Reach(Kinds(s), inner, fuel - 1);
    var s2 := AttachFloated(s, inner, p, win, suggest, fuel - 1);
    AttachOne(s2, id, p, win, suggest)
  }

  /** The internal container's part of a CompoundWidget's `set_container(p)`: attached to
      `p`, then floated. */
  function AttachFloated(s: Store, inner: Id, p: Id, win: Option<Id>, suggest: Suggest, fuel: nat): (r: Store)
    ensures SameShape(s, r)
    ensures forall x :: x in s && x !in Reach(Kinds(s), inner, fuel) ==> r[x] == s[x]
    ensures forall x :: x in Reach(Kinds(s), inner, fuel) ==> r[x].window == win
    decreases fuel, 0, 2
  {
    var s1 := Attach(s, inner, p, win, suggest, fuel);
    if inner in Reach(Kinds(s), inner, fuel) then FloatIn(s1, inner) else s1
  }

  /** The widget's own `set_container(p)`, leaving every other widget as it is. */
  function AttachOne(s: Store, id: Id, p: Id, win: Option<Id>, suggest: Suggest): (r: Store)
    requires id in s
    ensures SameShape(s, r)
    ensures forall x :: x in s && x != id ==> r[x] == s[x]
    ensures r[id].parent == Some(p) && r[id].window == win
  {
    s[id := SetContainer(s[id], p, win, suggest(s[id]))]
  }

  /** `float` on widget `id` of the store. */
  function FloatIn(s: Store, id: Id): (r: Store)
    requires id in s
    ensures SameShape(s, r)
    ensures forall x :: x in s && x != id ==> r[x] == s[x]
    ensures r[id].window == s[id].window && r[id].parent == s[id].parent
  {
    s[id := Float(s[id])]
  }

  /** `set_container(p)` on each of `ids` in turn. */
  function AttachAll(s: Store, ids: seq<Id>, p: Id, win: Option<Id>, suggest: Suggest, fuel: nat): (r: Store)
    ensures SameShape(s, r)
    ensures forall x :: x in s && x !in ReachAll(Kinds(s), ids, fuel) ==> r[x] == s[x]
    ensures forall x :: x in ReachAll(Kinds(s), ids, fuel) ==> r[x].window == win
    decreases fuel, 1, |ids|
  {
    if ids == [] then s
    else
      var s1 := Attach(s, ids[0], p, win, suggest, fuel);
      SameShapeSameKinds(s, s1);
      AttachAll(s1, ids[1..], p, win, suggest, fuel)
  }

  // ---------------------------------------------------------------- the child list

  /** `contains?(widget)`. */
  predicate Contains(s: Store, c: Id, w: Id)
    requires IsContainer(s, c)
  {
    w in s[c].kind.children
  }

  /** The `:modified` subscription `add` gives a child on behalf of container `c`. */
  function ChildHandle(c: Id): EventHandle {
    EventHandle("modified", Decimal(c), Subscription(c, []))
  }

  /** `add(widget)`: the container signals `:modified, :children`, the widget gets a
      `:modified` handler that re-signals on the container, the widget is attached to
      the container (with the container's window), and it is appended to the children. */
  function Add(s: Store, c: Id, w: Id, suggest: Suggest, fuel: nat): (r: Store)
    requires IsContainer(s, c) && w in s
    ensures IsContainer(r, c) && Contains(r, c, w)
    ensures r[c].kind.children == s[c].kind.children + [w]
    ensures r.Keys == s.Keys
    ensures Handlers(r[w].events, "modified") == Handlers(s[w].events, "modified") + [Subscription(c, [])]
    ensures fuel > 0 ==> r[w].window == s[c].window
    ensures fuel > 0 && w !in ReachAll(Kinds(s), Below(s, w), fuel - 1) ==> r[w].parent == Some(c)
    ensures w != c && c !in Reach(Kinds(s), w, fuel) ==>
      r[c].tracker.published == s[c].tracker.published + [Published("modified", [Symbol("children")])]
  {
    var s2 := Enlist(s, c, w);
    var s3 := Attach(s2, w, c, s2[c].window, suggest, fuel);
    s3[c := s3[c].(kind := Box(s3[c].kind.children + [w], s3[c].kind.autoZ))]
  }

  /** The first two steps of `add(widget)`: the container signals `:modified, :children`
      and the widget gets its `:modified` handler. */
  function Enlist(s: Store, c: Id, w: Id): (r: Store)
    requires IsContainer(s, c) && w in s
    ensures r.Keys == s.Keys && Kinds(r) == Kinds(s)
    ensures r[c].window == s[c].window
    ensures Handlers(r[w].events, "modified") == Handlers(s[w].events, "modified") + [Subscription(c, [])]
    ensures w != c ==> r[c].tracker.published == s[c].tracker.published + [Published("modified", [Symbol("children")])]
  {
    var s1 := s[c := s[c].(tracker := Emit(s[c].tracker, "modified", [Symbol("children")]))];
    var r := s1[w := s1[w].(events := Subscribe(s1[w].events, "modified", Decimal(c), [], c).table)];
    assert Kinds(r) == Kinds(s);
    r
  }

  datatype Removed = Removed(store: Store, ret: Option<Id>)

  /** `remove(widget)`: deletes every occurrence from the children, drops the handler
      `add` installed, detaches the widget and damages `:children`, returning the widget;
      a widget that is not a child gives nil and no change. */
  function Remove(s: Store, c: Id, w: Id, suggest: Suggest): (r: Removed)
    requires IsContainer(s, c) && w in s
    ensures !Contains(s, c, w) ==> r == Removed(s, None)
    ensures Contains(s, c, w) ==>
      && r.ret == Some(w) && r.store.Keys == s.Keys
      && IsContainer(r.store, c) && !Contains(r.store, c, w)
      && r.store[c].kind.children == Without(s[c].kind.children, w)
      && (Handlers(r.store[w].events, "modified") == Without(Handlers(s[w].events, "modified"), Subscription(c, [])))
      && (w != c && s[w].parent == Some(c) ==> r.store[w].parent.None? && r.store[w].window.None?)
      && (w != c ==> Reports(s[c].tracker, r.store[c].tracker, [Modified(Symbol("children"))]))
  {
    var ch := s[c].kind.children;
    if w !in ch then Removed(s, None)
    else
      var s1 := s[c := s[c].(kind := Box(Without(ch, w), s[c].kind.autoZ))];
      var s2 := s1[w := s1[w].(events := Unsubscribe(s1[w].events, ChildHandle(c)))];
      var s3 := s2[w := UnsetContainer(s2[w], c, suggest(s2[w])).widget];
      Removed(s3[c := Widgets.Mark(s3[c], "children")], Some(w))
  }

  /** Removing a widget just added restores the child list and the widget's `:modified`
      handlers, and leaves the widget without a parent. */
  lemma RemoveUndoesAdd(s: Store, c: Id, w: Id, suggest: Suggest, fuel: nat)
    requires IsContainer(s, c) && w in s && w != c && !Contains(s, c, w)
    requires Subscription(c, []) !in Handlers(s[w].events, "modified")
    requires fuel > 0 && c !in Reach(Kinds(s), w, fuel) && w !in ReachAll(Kinds(s), Below(s, w), fuel - 1)
    ensures var a := Add(s, c, w, suggest, fuel);
            var d := Remove(a, c, w, suggest);
            && d.ret == Some(w)
            && d.store[c].kind.children == s[c].kind.children
            && Handlers(d.store[w].events, "modified") == Handlers(s[w].events, "modified")
            && d.store[w].parent.None?
  {
    var a := Add(s, c, w, suggest, fuel);
    var ch := s[c].kind.children;
    WithoutAppend(ch, [w], w);
    WithoutAbsent(ch, w);
    assert Without([w], w) == [];
    var hs := Handlers(s[w].events, "modified");
    WithoutAppend(hs, [Subscription(c, [])], Subscription(c, []));
    WithoutAbsent(hs, Subscription(c, []));
    assert Without([Subscription(c, [])], Subscription(c, [])) == [];
  }

  /** `unsubscribe(:modified, c)` and `unset_container(c)` on each of `ids` in turn.
      As written the unsubscribe does nothing (`dropHandler` false); with the removal
      its comment describes (`dropHandler` true) the forwarding handler leaves. */
  function DetachAll(s: Store, ids: seq<Id>, c: Id, suggest: Suggest, dropHandler: bool): (r: Store)
    ensures r.Keys == s.Keys
    ensures forall x :: x in s ==> r[x].kind == s[x].kind
    ensures forall x :: x in s && x !in ids ==> r[x] == s[x]
    ensures forall x :: x in s && x in ids ==> r[x].parent != Some(c)
    ensures !dropHandler ==> forall x :: x in s ==> r[x].events == s[x].events
    ensures dropHandler ==> forall x :: x in s && x in ids ==> Subscription(c, []) !in Handlers(r[x].events, "modified")
    ensures dropHandler ==> forall x :: x in s ==> (Subscription(c, []) !in Handlers(s[x].events, "modified") ==> Subscription(c, []) !in Handlers(r[x].events, "modified"))
  {
    if ids == [] then s
    else
      var x := ids[0];
      var s1 := if x in s then
        var events := if dropHandler then Unsubscribe(s[x].events, ChildHandle(c)) else s[x].events;
        s[x := UnsetContainer(s[x].(events := events), c, suggest(s[x])).widget]
      else s;
      DetachAll(s1, ids[1..], c, suggest, dropHandler)
  }

  /** `clear` as written: every child is detached and `:children` damaged, but the child
      list is left as it was, and so is each child's forwarding handler. */
  function ClearAsWritten(s: Store, c: Id, suggest: Suggest): (r: Store)
    requires IsContainer(s, c)
    ensures IsContainer(r, c) && r[c].kind == s[c].kind && r.Keys == s.Keys
    ensures forall x :: x in s && x in s[c].kind.children && x != c ==> r[x].parent != Some(c)
    ensures forall x :: x in s && x != c ==> r[x].events == s[x].events
    ensures c !in s[c].kind.children ==> Reports(s[c].tracker, r[c].tracker, [Modified(Symbol("children"))])
  {
    var s1 := DetachAll(s, s[c].kind.children, c, suggest, false);
    s1[c := Widgets.Mark(s1[c], "children")]
  }

  /** `clear` as its comment promises: the child list is emptied and each former child
      loses the handler `add` gave it, besides being detached. */
  function Clear(s: Store, c: Id, suggest: Suggest): (r: Store)
    requires IsContainer(s, c)
    ensures IsContainer(r, c) && r[c].kind.children == [] && r.Keys == s.Keys
    ensures forall x :: x in s && x in s[c].kind.children && x != c ==> r[x].parent != Some(c)
    ensures forall x :: x in s && x in s[c].kind.children && x != c ==>
      Subscription(c, []) !in Handlers(r[x].events, "modified")
    ensures c !in s[c].kind.children ==> Reports(s[c].tracker, r[c].tracker, [Modified(Symbol("children"))])
  {
    var s1 := DetachAll(s, s[c].kind.children, c, suggest, true);
    var marked := Widgets.Mark(s1[c], "children");
    s1[c := marked.(kind := Box([], s[c].kind.autoZ))]
  }

  /** As written, a cleared container still contains the children it has just detached. */
  lemma ClearAsWrittenKeepsChildren(s: Store, c: Id, x: Id, suggest: Suggest)
    requires IsContainer(s, c) && x in s && x != c && Contains(s, c, x) && s[x].parent == Some(c)
    ensures var r := ClearAsWritten(s, c, suggest);
            Contains(r, c, x) && r[x].parent != Some(c)
    ensures !Contains(Clear(s, c, suggest), c, x)
  {
  }

  // ---------------------------------------------------------------- traversal

  /** What `recursive_each` yields over the children `ids`: each child, then what a
      Container child's own `recursive_each` yields, siblings in list order. */
  function Preorder(s: Store, ids: seq<Id>, fuel: nat): (r: seq<Id>)
    ensures |r| >= |ids|
    ensures forall i :: 0 <= i < |ids| ==> ids[i] in r
    decreases fuel, 1, |ids|
  {
    if ids == [] then []
    else [ids[0]] + Descendants(s, ids[0], fuel) + Preorder(s, ids[1..], fuel)
  }

  /** What a child's own `recursive_each` contributes: nothing unless it is a Container. */
  function Descendants(s: Store, id: Id, fuel: nat): (r: seq<Id>)
    decreases fuel, 0, 0
  {
    if fuel > 0 && IsContainer(s, id) then Preorder(s, s[id].kind.children, fuel - 1) else []
  }

  /** `recursive_each` on container `c`. */
  function RecursiveEach(s: Store, c: Id, fuel: nat): (r: seq<Id>)
    requires IsContainer(s, c)
    ensures forall x :: Contains(s, c, x) ==> x in r
  {
    Preorder(s, s[c].kind.children, fuel)
  }

  lemma {:induction false} PreorderAppend(s: Store, a: seq<Id>, b: seq<Id>, fuel: nat)
    ensures Preorder(s, a + b, fuel) == Preorder(s, a, fuel) + Preorder(s, b, fuel)
  {
    if a != [] {
      assert (a + b)[0] == a[0];
      assert (a + b)[1..] == a[1..] + b;
      PreorderAppend(s, a[1..], b, fuel);
    } else {
      assert a + b == b;
    }
  }

  /** Pre-order: the `i`-th child is yielded right after everything yielded for the
      siblings before it, and is followed immediately by its own descendants. */
  lemma RecursiveEachIsPreorder(s: Store, c: Id, i: nat, fuel: nat)
    requires IsContainer(s, c) && i < |s[c].kind.children|
    ensures var ch := s[c].kind.children;
            var r := RecursiveEach(s, c, fuel);
            var k := |Preorder(s, ch[..i], fuel)|;
            var d := Descendants(s, ch[i], fuel);
            && k + 1 + |d| <= |r|
            && r[k] == ch[i]
            && r[k + 1..k + 1 + |d|] == d
            && r[..k] == Preorder(s, ch[..i], fuel)
  {
    var ch := s[c].kind.children;
    PreorderAt(s, ch, i, fuel);
    Splice(Preorder(s, ch[..i], fuel), ch[i], Descendants(s, ch[i], fuel), Preorder(s, ch[i + 1..], fuel));
  }

  /** The traversal of a child list, cut at its `i`-th child. */
  lemma PreorderAt(s: Store, ch: seq<Id>, i: nat, fuel: nat)
    requires i < |ch|
    ensures Preorder(s, ch, fuel)
            == Preorder(s, ch[..i], fuel) + ([ch[i]] + Descendants(s, ch[i], fuel) + Preorder(s, ch[i + 1..], fuel))
  {
    assert ch == ch[..i] + ch[i..];
    PreorderAppend(s, ch[..i], ch[i..], fuel);
    assert ch[i..][0] == ch[i] && ch[i..][1..] == ch[i + 1..];
  }

  /** Where the parts of `pre + [x] + d + post` sit. */
  lemma Splice(pre: seq<Id>, x: Id, d: seq<Id>, post: seq<Id>)
    ensures var r := pre + ([x] + d + post);
            && |pre| + 1 + |d| <= |r| && r[|pre|] == x
            && r[|pre| + 1..|pre| + 1 + |d|] == d && r[..|pre|] == pre
  {
    var r := pre + ([x] + d + post);
    assert r[|pre| + 1..|pre| + 1 + |d|] == d;
    assert r[..|pre|] == pre;
  }

  /** `recursive_contains?` with the misspelt recursive call corrected: a Container child
      is searched, not compared; any other child is compared with `w`. */
  function Search(s: Store, ids: seq<Id>, w: Id, fuel: nat): (r: bool)
    ensures !IsContainer(s, w) && w in ids ==> r
    ensures fuel == 0 ==> (r <==> w in ids && !IsContainer(s, w))
    decreases fuel, |ids|
  {
    if ids == [] then false
    else
      (if IsContainer(s, ids[0]) then fuel > 0 && Search(s, s[ids[0]].kind.children, w, fuel - 1) else w == ids[0])
      || Search(s, ids[1..], w, fuel)
  }

  /** `recursive_contains?(w)` on Container `c`, corrected: a direct child that is not a
      Container is always found; without fuel to enter nested Containers only the direct
      children are compared. */
  function RecursiveContains(s: Store, c: Id, w: Id, fuel: nat): (r: bool)
    requires IsContainer(s, c)
    ensures !IsContainer(s, w) && w in s[c].kind.children ==> r
    ensures fuel == 0 ==> (r <==> w in s[c].kind.children && !IsContainer(s, w))
  {
    Search(s, s[c].kind.children, w, fuel)
  }

  /** `recursive_contains?` agrees with `recursive_each` on every widget that is not
      itself a Container (Containers are searched, never compared). */
  lemma RecursiveContainsMatchesEach(s: Store, c: Id, w: Id, fuel: nat)
    requires IsContainer(s, c) && !IsContainer(s, w)
    ensures RecursiveContains(s, c, w, fuel) <==> w in RecursiveEach(s, c, fuel)
  {
    SearchMatchesPreorder(s, s[c].kind.children, w, fuel);
  }

  /** For a widget that is not itself a Container, the search finds it exactly when the
      pre-order traversal yields it. */
  lemma {:induction false} SearchMatchesPreorder(s: Store, ids: seq<Id>, w: Id, fuel: nat)
    requires !IsContainer(s, w)
    ensures Search(s, ids, w, fuel) <==> w in Preorder(s, ids, fuel)
    decreases fuel, |ids|
  {
    if ids != [] {
      var d := Descendants(s, ids[0], fuel);
      var rest := Preorder(s, ids[1..], fuel);
      assert Preorder(s, ids, fuel) == [ids[0]] + d + rest;
      assert w in Preorder(s, ids, fuel) <==> w == ids[0] || w in d || w in rest;
      SearchMatchesPreorder(s, ids[1..], w, fuel);
      if fuel > 0 && IsContainer(s, ids[0]) {
        SearchMatchesPreorder(s, s[ids[0]].kind.children, w, fuel - 1);
        assert w != ids[0];
      } else {
        assert d == [];
      }
    }
  }

  /** `recursive_contains?` as written: the recursive call names a method that does not
      exist, so meeting a Container child raises NoMethodError. The children are scanned
      in order: the answer is true when `w` comes before every Container child, an error
      when a Container child comes first, and false when there is neither. */
  function RecursiveContainsAsWritten(s: Store, ids: seq<Id>, w: Id): (r: Result<bool>)
    ensures r.Err? ==> r.error == NoMethodError
    ensures r.Err? <==> exists i :: RaisesAt(s, ids, w, i)
    ensures r == Ok(true) <==> exists i :: FoundAt(s, ids, w, i)
  {
    if ids == [] then Ok(false)
    else if IsContainer(s, ids[0]) then assert RaisesAt(s, ids, w, 0); Err(NoMethodError)
    else if w == ids[0] then assert FoundAt(s, ids, w, 0); Ok(true)
    else
      ScanStep(s, ids, w);
      RecursiveContainsAsWritten(s, ids[1..], w)
  }

  /** Child `i` is a Container and no child before it is `w`. */
  predicate RaisesAt(s: Store, ids: seq<Id>, w: Id, i: int) {
    0 <= i < |ids| && IsContainer(s, ids[i]) && w !in ids[..i]
  }

  /** Child `i` is `w`, not a Container, and no child before it is a Container. */
  predicate FoundAt(s: Store, ids: seq<Id>, w: Id, i: int) {
    0 <= i < |ids| && ids[i] == w && !IsContainer(s, ids[i]) && ContainerFree(s, ids[..i])
  }

  /** No child of `ids` is a Container. */
  predicate ContainerFree(s: Store, ids: seq<Id>) {
    forall j :: 0 <= j < |ids| ==> !IsContainer(s, ids[j])
  }

  /** Past a first child that is neither a Container nor `w`, the scan's two stopping
      points are those of the remaining children, one place later. */
  lemma ScanStep(s: Store, ids: seq<Id>, w: Id)
    requires ids != [] && !IsContainer(s, ids[0]) && w != ids[0]
    ensures (exists i :: RaisesAt(s, ids, w, i)) <==> (exists i :: RaisesAt(s, ids[1..], w, i))
    ensures (exists i :: FoundAt(s, ids, w, i)) <==> (exists i :: FoundAt(s, ids[1..], w, i))
  {
    forall i | RaisesAt(s, ids, w, i) ensures RaisesAt(s, ids[1..], w, i - 1) {
      assert ids[..i] == [ids[0]] + ids[1..][..i - 1];
    }
    forall i | RaisesAt(s, ids[1..], w, i) ensures RaisesAt(s, ids, w, i + 1) {
      assert ids[..i + 1] == [ids[0]] + ids[1..][..i];
    }
    forall i | FoundAt(s, ids, w, i) ensures FoundAt(s, ids[1..], w, i - 1) {
      var p := ids[1..][..i - 1];
      forall j | 0 <= j < |p| ensures !IsContainer(s, p[j]) {
        assert p[j] == ids[..i][j + 1];
      }
    }
    forall i | FoundAt(s, ids[1..], w, i) ensures FoundAt(s, ids, w, i + 1) {
      assert ids[..i + 1] == [ids[0]] + ids[1..][..i];
    }
  }

  /** Without nested Containers the written code gives the corrected answer; a nested
      Container makes it raise even though the widget is there to be found. */
  lemma {:induction false} RecursiveContainsAsWrittenOnFlatLists(s: Store, ids: seq<Id>, w: Id, fuel: nat)
    requires forall i :: 0 <= i < |ids| ==> !IsContainer(s, ids[i])
    ensures RecursiveContainsAsWritten(s, ids, w) == Ok(Search(s, ids, w, fuel))
  {
    if ids != [] {
      RecursiveContainsAsWrittenOnFlatLists(s, ids[1..], w, fuel);
    }
  }

  /** A Container child that comes before `w` makes the written code raise, even when
      `w` sits inside that child and the corrected search, given one more level of fuel,
      finds it. */
  lemma RecursiveContainsAsWrittenRaises(s: Store, c: Id, i: nat, w: Id, fuel: nat)
    requires IsContainer(s, c) && i < |s[c].kind.children|
    requires IsContainer(s, s[c].kind.children[i]) && w !in s[c].kind.children[..i]
    requires Search(s, s[s[c].kind.children[i]].kind.children, w, fuel)
    ensures RecursiveContainsAsWritten(s, s[c].kind.children, w) == Err(NoMethodError)
    ensures RecursiveContains(s, c, w, fuel + 1)
  {
    assert RaisesAt(s, s[c].kind.children, w, i);
    SearchFindsInside(s, s[c].kind.children, i, w, fuel + 1);
  }

  /** The search finds whatever it finds inside any Container child it is given fuel
      to enter. */
  lemma {:induction false} SearchFindsInside(s: Store, ids: seq<Id>, i: nat, w: Id, fuel: nat)
    requires i < |ids| && IsContainer(s, ids[i]) && fuel > 0
    requires Search(s, s[ids[i]].kind.children, w, fuel - 1)
    ensures Search(s, ids, w, fuel)
    decreases i
  {
    if i > 0 {
      SearchFindsInside(s, ids[1..], i - 1, w, fuel);
    }
  }

  // ---------------------------------------------------------------- z order

  /** `n` shifts by `delta` in a row. */
  function Shift(delta: real, n: nat): real {
    if n == 0 then 0.0 else delta + Shift(delta, n - 1)
  }

  lemma {:induction false} ShiftAdd(delta: real, m: nat, n: nat)
    ensures Shift(delta, m + n) == Shift(delta, m) + Shift(delta, n)
  {
    if m > 0 {
      ShiftAdd(delta, m - 1, n);
      assert m + n - 1 == (m - 1) + n;
    }
  }

  /** A Container whose `z=` passes the change on to its children. */
  predicate AutoZ(k: Kind) {
    k.Box? && k.autoZ
  }

  /** The widgets a `z=` on a child list shifts, one entry per shift: each child, and
      under an auto-z Container child, what that child's own `z=` shifts. */
  function Targets(k: map<Id, Kind>, ids: seq<Id>, fuel: nat): (r: seq<Id>)
    decreases fuel, 1, |ids|
  {
    if ids == [] then [] else Block(k, ids[0], fuel) + Targets(k, ids[1..], fuel)
  }

  /** What one child's `z=` shifts: the child, and what it passes on. */
  function Block(k: map<Id, Kind>, id: Id, fuel: nat): (r: seq<Id>)
    decreases fuel, 0, 1
  {
    if id in k then [id] + Shifted(k, id, fuel) else []
  }

  function Shifted(k: map<Id, Kind>, id: Id, fuel: nat): (r: seq<Id>)
    decreases fuel, 0, 0
  {
    if fuel > 0 && id in k && AutoZ(k[id]) then Targets(k, k[id].children, fuel - 1) else []
  }

  /** `z=(v)` on widget `id`. A Container with `auto_z_order` first adds `v - z` to each
      child's z (through the child's own `z=`); any Container then stores `v` with no
      damage. Other widgets use the volatile setter: damage `:z` only on a change. */
  function SetZ(s: Store, id: Id, v: real, fuel: nat): (r: Store)
    ensures SameShape(s, r)
    ensures forall x :: x in s ==> r[x].frame == s[x].frame && r[x].parent == s[x].parent
    ensures id in s ==> r[id].z == v
    ensures forall x :: x in s && x != id && x !in Shifted(Kinds(s), id, fuel) ==> r[x] == s[x]
    ensures forall x :: id in s && x in s && x != id && !AutoZ(s[x].kind) ==>
      r[x].z == s[x].z + Shift(v - s[id].z, Count(Shifted(Kinds(s), id, fuel), x))
    ensures id in s && !s[id].kind.Box? ==>
      && (forall x :: x in s && x != id ==> r[x] == s[x])
      && (v == s[id].z ==> r[id] == s[id])
      && (v != s[id].z ==> Reports(s[id].tracker, r[id].tracker, [Modified(Symbol("z"))]))
    decreases fuel, 0, 1
  {
    if id !in s then s
    else if AutoZ(s[id].kind) && fuel > 0 then ShiftThenStoreZ(s, id, v, fuel)
    else
      assert Shifted(Kinds(s), id, fuel) == [];
      if s[id].kind.Box? then StoreZ(s, id, v) else MarkZ(s, id, v)
  }

  /** `z=(v)` on an auto-z Container: every child's z moves by `v - z` through its own
      `z=`, then the Container stores `v`. */
  function ShiftThenStoreZ(s: Store, id: Id, v: real, fuel: nat): (r: Store)
    requires id in s && AutoZ(s[id].kind) && fuel > 0
    ensures SameShape(s, r) && r[id].z == v
    ensures forall x :: x in s ==> r[x].frame == s[x].frame && r[x].parent == s[x].parent
    ensures forall x :: x in s && x != id && x !in Shifted(Kinds(s), id, fuel) ==> r[x] == s[x]
    ensures forall x :: x in s && x != id && !AutoZ(s[x].kind) ==>
      r[x].z == s[x].z + Shift(v - s[id].z, Count(Shifted(Kinds(s), id, fuel), x))
    decreases fuel, 0, 0
  {
    assert Shifted(Kinds(s), id, fuel) == Targets(Kinds(s), s[id].kind.children, fuel - 1);
    var s1 := ShiftAll(s, s[id].kind.children, v - s[id].z, fuel - 1);
    SameShapeSameKinds(s, s1);
    StoreZ(s1, id, v)
  }

  /** The volatile `z=` of a widget that is not a Container: damage `:z` and store `v`,
      only when `v` differs. */
  function MarkZ(s: Store, id: Id, v: real): (r: Store)
    requires id in s
    ensures SameShape(s, r) && r[id].z == v
    ensures forall x :: x in s ==> r[x].frame == s[x].frame && r[x].parent == s[x].parent
    ensures forall x :: x in s && x != id ==> r[x] == s[x]
    ensures v == s[id].z ==> r == s
    ensures v != s[id].z ==> Reports(s[id].tracker, r[id].tracker, [Modified(Symbol("z"))])
  {
    if v == s[id].z then s else s[id := Widgets.Mark(s[id], "z").(z := v)]
  }

  /** A Container's `@z = value`, with no damage. */
  function StoreZ(s: Store, id: Id, v: real): (r: Store)
    requires id in s
    ensures SameShape(s, r) && r[id].z == v
    ensures forall x :: x in s ==> r[x].frame == s[x].frame && r[x].parent == s[x].parent
    ensures forall x :: x in s && x != id ==> r[x] == s[x]
  {
    s[id := s[id].(z := v)]
  }

  /** `child.z += delta` for each of `ids` in turn. */
  function ShiftAll(s: Store, ids: seq<Id>, delta: real, fuel: nat): (r: Store)
    ensures SameShape(s, r)
    ensures forall x :: x in s ==> r[x].frame == s[x].frame && r[x].parent == s[x].parent
    ensures forall x :: x in s && !AutoZ(s[x].kind) ==>
      r[x].z == s[x].z + Shift(delta, Count(Targets(Kinds(s), ids, fuel), x))
    ensures forall x :: x in s && x !in Targets(Kinds(s), ids, fuel) ==> r[x] == s[x]
    decreases fuel, 1, |ids|
  {
    if ids == [] then s
    else
      var s1 := ShiftOne(s, ids[0], delta, fuel);
      SameShapeSameKinds(s, s1);
      var r := ShiftAll(s1, ids[1..], delta, fuel);
      ShiftCompose(s, s1, r, Block(Kinds(s), ids[0], fuel), Targets(Kinds(s), ids[1..], fuel), delta);
      r
  }

  /** `child.z += delta` on one child. */
  function ShiftOne(s: Store, x: Id, delta: real, fuel: nat): (r: Store)
    ensures SameShape(s, r)
    ensures forall y :: y in s ==> r[y].frame == s[y].frame && r[y].parent == s[y].parent
    ensures forall y :: y in s && !AutoZ(s[y].kind) ==>
      r[y].z == s[y].z + Shift(delta, Count(Block(Kinds(s), x, fuel), y))
    ensures forall y :: y in s && y !in Block(Kinds(s), x, fuel) ==> r[y] == s[y]
    decreases fuel, 0, 2
  {
    if x in s then
      var r := SetZ(s, x, s[x].z + delta, fuel);
      ShiftStep(s, x, r, delta, fuel);
      r
    else s
  }

  /** Two rounds of shifting add up: counts over `block` then over `rest` are counts over
      `block + rest`. */
  lemma ShiftCompose(s: Store, s1: Store, r: Store, block: seq<Id>, rest: seq<Id>, delta: real)
    requires s1.Keys == s.Keys && forall y :: y in s ==> s1[y].kind == s[y].kind
    requires forall y :: y in s && !AutoZ(s[y].kind) ==> s1[y].z == s[y].z + Shift(delta, Count(block, y))
    requires r.Keys == s1.Keys
    requires forall y :: y in s1 && !AutoZ(s1[y].kind) ==> r[y].z == s1[y].z + Shift(delta, Count(rest, y))
    ensures forall y :: y in s && !AutoZ(s[y].kind) ==> r[y].z == s[y].z + Shift(delta, Count(block + rest, y))
  {
    forall y | y in s && !AutoZ(s[y].kind)
      ensures r[y].z == s[y].z + Shift(delta, Count(block + rest, y))
    {
      CountAppend(block, rest, y);
      ShiftAdd(delta, Count(block, y), Count(rest, y));
    }
  }

  /** The first step of `ShiftAll`: the child itself moves by `delta` once, plus once for
      every time its own `z=` reaches a widget. */
  lemma ShiftStep(s: Store, x: Id, s1: Store, delta: real, fuel: nat)
    requires s1.Keys == s.Keys
    requires x !in s ==> s1 == s
    requires x in s ==> s1[x].z == s[x].z + delta
    requires x in s ==> forall y :: y in s && y != x && !AutoZ(s[y].kind) ==>
      s1[y].z == s[y].z + Shift((s[x].z + delta) - s[x].z, Count(Shifted(Kinds(s), x, fuel), y))
    ensures forall y :: y in s && !AutoZ(s[y].kind) ==>
      s1[y].z == s[y].z + Shift(delta, Count(if x in s then [x] + Shifted(Kinds(s), x, fuel) else [], y))
  {
    if x in s {
      var sh := Shifted(Kinds(s), x, fuel);
      assert (s[x].z + delta) - s[x].z == delta;
      forall y | y in s && !AutoZ(s[y].kind)
        ensures s1[y].z == s[y].z + Shift(delta, Count([x] + sh, y))
      {
        CountAppend([x], sh, y);
        if y == x {
          assert sh == [] by {
            if fuel > 0 { assert !AutoZ(Kinds(s)[x]); }
          }
        }
      }
    }
  }

  /** With `auto_z_order`, `z=` moves every non-Container widget below by the same delta
      for each path that reaches it, so two children reached equally often keep their
      distance: the children's relative order is preserved. Without it only the
      container's own z changes. */
  lemma SetZPreservesOrder(s: Store, c: Id, v: real, a: Id, b: Id, fuel: nat)
    requires IsContainer(s, c) && a in s && b in s && a != c && b != c
    requires !AutoZ(s[a].kind) && !AutoZ(s[b].kind)
    requires Count(Shifted(Kinds(s), c, fuel), a) == Count(Shifted(Kinds(s), c, fuel), b)
    ensures var r := SetZ(s, c, v, fuel);
            r[a].z - r[b].z == s[a].z - s[b].z
    ensures !s[c].kind.autoZ ==> forall x :: x in s && x != c ==> SetZ(s, c, v, fuel)[x] == s[x]
  {
    var r := SetZ(s, c, v, fuel);
    var n := Shift(v - s[c].z, Count(Shifted(Kinds(s), c, fuel), a));
    assert r[a].z == s[a].z + n;
    assert r[b].z == s[b].z + n;
  }

  datatype Placed = Placed(store: Store, z: Option<real>)

  /** The running minimum `send_child_to_back` computes: 0, lowered to any child's z below it. */
  function LowestZ(s: Store, ids: seq<Id>): (m: real)
    ensures m <= 0.0
    ensures forall i :: 0 <= i < |ids| && ids[i] in s ==> m <= s[ids[i]].z
    ensures m == 0.0 || exists i :: 0 <= i < |ids| && ids[i] in s && m == s[ids[i]].z
  {
    if ids == [] then 0.0
    else
      var m := LowestZ(s, ids[1..]);
      if ids[0] in s && s[ids[0]].z < m then s[ids[0]].z else m
  }

  /** A running maximum: 0, raised to any child's z above it. */
  function HighestZ(s: Store, ids: seq<Id>): (m: real)
    ensures m >= 0.0
    ensures forall i :: 0 <= i < |ids| && ids[i] in s ==> m >= s[ids[i]].z
    ensures m == 0.0 || exists i :: 0 <= i < |ids| && ids[i] in s && m == s[ids[i]].z
  {
    if ids == [] then 0.0
    else
      var m := HighestZ(s, ids[1..]);
      if ids[0] in s && s[ids[0]].z > m then s[ids[0]].z else m
  }

  /** `send_child_to_back(child)`: nil and no change unless the child's parent is `c`;
      otherwise the child's z becomes 0.1 below the lowest of 0 and every child's z, and
      that z is returned. */
  function SendChildToBack(s: Store, c: Id, ch: Id, fuel: nat): (r: Placed)
    requires IsContainer(s, c) && ch in s
    ensures s[ch].parent != Some(c) ==> r == Placed(s, None)
    ensures s[ch].parent == Some(c) ==>
      && SameShape(s, r.store)
      && r.z == Some(r.store[ch].z) && r.z.value < 0.0
      && forall x :: x in s[c].kind.children && x in s ==> r.z.value < s[x].z
  {
    if s[ch].parent != Some(c) then Placed(s, None)
    else
      var t := SetZ(s, ch, LowestZ(s, s[c].kind.children) - 0.1, fuel);
      Placed(t, Some(t[ch].z))
  }

  /** `bring_child_to_front(child)` as written: the loop keeps the minimum, so the child
      lands 0.1 above the lowest z instead of above the highest. */
  function BringChildToFrontAsWritten(s: Store, c: Id, ch: Id, fuel: nat): (r: Placed)
    requires IsContainer(s, c) && ch in s
    ensures s[ch].parent != Some(c) ==> r == Placed(s, None)
    ensures s[ch].parent == Some(c) ==>
      && SameShape(s, r.store)
      && r.z == Some(r.store[ch].z) && r.z.value <= 0.1
  {
    if s[ch].parent != Some(c) then Placed(s, None)
    else
      var t := SetZ(s, ch, LowestZ(s, s[c].kind.children) + 0.1, fuel);
      Placed(t, Some(t[ch].z))
  }

  /** `bring_child_to_front(child)` as its comment describes: 0.1 above the highest of 0
      and every child's z. */
  function BringChildToFront(s: Store, c: Id, ch: Id, fuel: nat): (r: Placed)
    requires IsContainer(s, c) && ch in s
    ensures s[ch].parent != Some(c) ==> r == Placed(s, None)
    ensures s[ch].parent == Some(c) ==>
      && SameShape(s, r.store)
      && r.z == Some(r.store[ch].z) && r.z.value > 0.0
      && forall x :: x in s[c].kind.children && x in s ==> r.z.value > s[x].z
  {
    if s[ch].parent != Some(c) then Placed(s, None)
    else
      var t := SetZ(s, ch, HighestZ(s, s[c].kind.children) + 0.1, fuel);
      Placed(t, Some(t[ch].z))
  }

  /** For a child that is not a Container, sending it to the back leaves every sibling
      where it was and strictly above it; bringing it to the front leaves them strictly
      below it. */
  lemma BackAndFrontOrderSiblings(s: Store, c: Id, ch: Id, x: Id, fuel: nat)
    requires IsContainer(s, c) && ch in s && s[ch].parent == Some(c) && !s[ch].kind.Box?
    requires x in s && x != ch && Contains(s, c, x)
    ensures var r := SendChildToBack(s, c, ch, fuel).store; r[x] == s[x] && r[ch].z < r[x].z
    ensures var r := BringChildToFront(s, c, ch, fuel).store; r[x] == s[x] && r[ch].z > r[x].z
  {
  }

  /** As written, "bringing to the front" a child that is not a Container puts it 0.1
      above the lowest z, so it ends at or below exactly those siblings whose z is at
      least that high, children at z 0 and 1 for instance; the corrected version puts it
      above every sibling. Siblings never move. */
  lemma BringChildToFrontAsWrittenStaysBehind(s: Store, c: Id, ch: Id, x: Id, fuel: nat)
    requires IsContainer(s, c) && ch in s && s[ch].parent == Some(c) && !s[ch].kind.Box?
    requires x in s && x != ch && x in s[c].kind.children
    ensures var low := LowestZ(s, s[c].kind.children);
            var r := BringChildToFrontAsWritten(s, c, ch, fuel).store;
            && r[x] == s[x] && r[ch].z == low + 0.1
            && (r[ch].z <= r[x].z <==> s[x].z >= low + 0.1)
    ensures var r := BringChildToFront(s, c, ch, fuel).store; r[x] == s[x] && r[ch].z > r[x].z
  {
  }

  // ---------------------------------------------------------------- clipping

  datatype Clipping = Clipping(clip: bool, right: int, bottom: int)

  /** The overflow policies under which `clip` cuts the children off. */
  predicate Cuts(o: Overflow) {
    o.OverflowHide? || o.OverflowScroll?
  }

  /** The `case` on one overflow policy: Hide and Scroll clip, the rest leave it. */
  function PolicyClips(o: Overflow): bool {
    match o
    case OverflowAuto => false
    case OverflowShow => false
    case OverflowStretch => false
    case OverflowHide => true
    case OverflowScroll => true
  }

  /** `clip` as written, where `coords` is the extent the layout returned and `windowSize`
      the window's size (nil without a window). The vertical test compares the
      horizontal extent `coords[0]` with the padded bottom. */
  function ClipAsWritten(w: Widget, coords: (int, int), windowSize: Option<(int, int)>): (r: Result<Clipping>)
    ensures r.Ok? <==> windowSize.Some?
    ensures r.Ok? && !Cuts(w.look.hOverflow) && !Cuts(w.look.vOverflow) ==>
      r.value == Clipping(false, windowSize.value.0, windowSize.value.1)
  {
    match windowSize
    case None => Err(NoMethodError)
    case Some(size) =>
      var right := w.frame.x2 - w.look.padding.right;
      var bottom := w.frame.y2 - w.look.padding.bottom;
      var h := coords.0 > right && PolicyClips(w.look.hOverflow);
      var v := coords.0 > bottom && PolicyClips(w.look.vOverflow);
      Ok(Clipping(h || v, if h then right else size.0, if v then bottom else size.1))
  }

  /** `clip` with the vertical test on the vertical extent `coords[1]`: it clips exactly
      when an axis has a Hide or Scroll policy and the extent passes that axis's padded
      edge, and then bounds that axis at the edge; otherwise the window's size bounds it. */
  function Clip(w: Widget, coords: (int, int), windowSize: Option<(int, int)>): (r: Result<Clipping>)
    ensures r.Ok? <==> windowSize.Some?
    ensures r.Ok? ==>
      var h := coords.0 > w.frame.x2 - w.look.padding.right && Cuts(w.look.hOverflow);
      var v := coords.1 > w.frame.y2 - w.look.padding.bottom && Cuts(w.look.vOverflow);
      && (r.value.clip <==> h || v)
      && r.value.right == (if h then w.frame.x2 - w.look.padding.right else windowSize.value.0)
      && r.value.bottom == (if v then w.frame.y2 - w.look.padding.bottom else windowSize.value.1)
  {
    match windowSize
    case None => Err(NoMethodError)
    case Some(size) =>
      var right := w.frame.x2 - w.look.padding.right;
      var bottom := w.frame.y2 - w.look.padding.bottom;
      var h := coords.0 > right && PolicyClips(w.look.hOverflow);
      var v := coords.1 > bottom && PolicyClips(w.look.vOverflow);
      Ok(Clipping(h || v, if h then right else size.0, if v then bottom else size.1))
  }

  /** Auto, Show and Stretch never clip, whatever the extent. */
  lemma PassivePoliciesNeverClip(w: Widget, coords: (int, int), size: (int, int))
    requires !Cuts(w.look.hOverflow) && !Cuts(w.look.vOverflow)
    ensures Clip(w, coords, Some(size)) == Ok(Clipping(false, size.0, size.1))
    ensures Clip(w, coords, None) == Err(NoMethodError)
  {
  }

  /** As written, `clip` treats the content as exactly as tall as it is wide. So under a
      Hide or Scroll policy on the vertical axis, content whose height passes the padded
      bottom while its width does not is left unbounded below; content whose width
      passes it while its height does not is cut off. */
  lemma ClipAsWrittenMissesTallContent(w: Widget, coords: (int, int), size: Option<(int, int)>)
    ensures ClipAsWritten(w, coords, size) == Clip(w, (coords.0, coords.0), size)
    ensures var bottom := w.frame.y2 - w.look.padding.bottom;
            size.Some? && Cuts(w.look.vOverflow) && coords.0 <= bottom < coords.1 ==>
              && ClipAsWritten(w, coords, size).value.bottom == size.value.1
              && Clip(w, coords, size).value.clip && Clip(w, coords, size).value.bottom == bottom
    ensures var bottom := w.frame.y2 - w.look.padding.bottom;
            size.Some? && Cuts(w.look.vOverflow) && coords.1 <= bottom < coords.0 ==>
              && ClipAsWritten(w, coords, size).value.clip && ClipAsWritten(w, coords, size).value.bottom == bottom
              && Clip(w, coords, size).value.bottom == size.value.1
  {
  }

  /** When the content is as tall as it is wide, the written code gives the corrected
      answer. */
  lemma ClipAsWrittenAgreesOnSquareExtents(w: Widget, e: int, size: Option<(int, int)>)
    ensures ClipAsWritten(w, (e, e), size) == Clip(w, (e, e), size)
  {
  }

  // ---------------------------------------------------------------- CompoundWidget

  datatype CompoundDrawn = CompoundDrawn(store: Store, visible: bool)

  /** The internal container of CompoundWidget `id`, kept apart from the compound. */
  predicate Compound(s: Store, id: Id, fuel: nat) {
    && id in s && s[id].kind.Compound?
    && s[id].kind.inner != id && id !in Shifted(Kinds(s), s[id].kind.inner, fuel)
  }

  /** The internal container takes the compound's box (`set_region`) and z (`z=`). */
  function SyncInner(s: Store, id: Id, fuel: nat): (r: Store)
    requires Compound(s, id, fuel) && s[id].kind.inner in s
    ensures SameShape(s, r) && r[id] == s[id]
    ensures Bounds(r[s[id].kind.inner]) == Bounds(s[id]) && r[s[id].kind.inner].z == s[id].z
  {
    var w := s[id];
    var inner := w.kind.inner;
    var s0 := s[inner := SetRegion(s[inner], w.frame.x1, w.frame.y1, w.frame.x2, w.frame.y2)];
    assert SameShape(s, s0);
    SameShapeSameKinds(s, s0);
    SetZ(s0, inner, w.z, fuel)
  }

  /** CompoundWidget#draw: a damaged compound that auto-sizes its internal container
      first gives the container its own box and z; then it draws as a widget. Drawing
      the internal container itself (its layout and children) is not part of this. */
  function CompoundDraw(s: Store, id: Id, windowThrottle: bool, fuel: nat): (r: Result<CompoundDrawn>)
    requires Compound(s, id, fuel)
    ensures r.Err? <==> DrawRaises(s[id])
    ensures r.Ok? ==> SameShape(s, r.value.store) && r.value.visible == s[id].flags.visible
    ensures r.Ok? && s[id].flags.visible ==> !r.value.store[id].tracker.damaged
    ensures r.Ok? && s[id].tracker.damaged && s[id].kind.autoSizeInner && s[id].kind.inner in s ==>
      var inner := r.value.store[s[id].kind.inner];
      Bounds(inner) == Bounds(s[id]) && inner.z == s[id].z
    ensures r.Ok? && !(s[id].tracker.damaged && s[id].kind.autoSizeInner) ==>
      forall x :: x in s && x != id ==> r.value.store[x] == s[x]
  {
    var w := s[id];
    var inner := w.kind.inner;
    var s1 := if w.tracker.damaged && w.kind.autoSizeInner && inner in s then SyncInner(s, id, fuel) else s;
    match Draw(w, windowThrottle)
    case Err(e) => Err(e)
    case Ok(d) => Ok(CompoundDrawn(Redrawn(s1, id, d.widget), d.visible))
  }

  /** The store with widget `id` replaced by its drawn self, which keeps its kind and
      handlers. */
  function Redrawn(s: Store, id: Id, w: Widget): (r: Store)
    requires id in s && w.kind == s[id].kind && w.events == s[id].events
    ensures SameShape(s, r) && r[id] == w
    ensures forall x :: x in s && x != id ==> r[x] == s[x]
  {
    s[id := w]
  }

  /** Once drawn, a visible compound is undamaged, so drawing it again leaves the internal
      container where the first draw put it: over the compound's own box. */
  lemma CompoundDrawIsStable(s: Store, id: Id, windowThrottle: bool, fuel: nat)
    requires Compound(s, id, fuel) && s[id].flags.visible && s[id].kind.inner in s
    requires CompoundDraw(s, id, windowThrottle, fuel).Ok?
    ensures var r1 := CompoundDraw(s, id, windowThrottle, fuel).value.store;
            Compound(r1, id, fuel) && CompoundDraw(r1, id, windowThrottle, fuel).Ok?
            && CompoundDraw(r1, id, windowThrottle, fuel).value.store[s[id].kind.inner] == r1[s[id].kind.inner]
  {
    var r1 := CompoundDraw(s, id, windowThrottle, fuel).value.store;
    SameShapeSameKinds(s, r1);
  }
}
