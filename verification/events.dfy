/** The Publisher mixin of lib/gglib/event.rb: per-event handler lists,
    modifier filtering on publish, and the EventHandle returned by subscribe.
    Handler bodies are opaque; publishing returns the handlers it would call,
    in the order it would call them. */
module Events {
  import opened Base

  /** An opaque handler (the block given to `subscribe`). */
  type HandlerId = nat

  /** The `[handler, modifiers]` pair stored in the handler table. */
  datatype Subscription = Subscription(handler: HandlerId, modifiers: seq<Value>)

  /** The EventHandle `subscribe` returns. */
  datatype EventHandle = EventHandle(event: Sym, handleName: string, handleObject: Subscription)

  /** A Publisher's `@events` table: per event, its subscriptions in registration order. */
  type Table = map<Sym, seq<Subscription>>

  /** The subscriptions of `event`, empty when the event has never been subscribed. */
  function Handlers(t: Table, event: Sym): seq<Subscription> {
    if event in t then t[event] else []
  }

  datatype Subscribed = Subscribed(table: Table, handle: EventHandle)

  /** `subscribe(event, handle_name, *modifiers, &handler)`. */
  function Subscribe(t: Table, event: Sym, name: string, modifiers: seq<Value>, handler: HandlerId): (r: Subscribed)
    ensures Handlers(r.table, event) == Handlers(t, event) + [Subscription(handler, modifiers)]
    ensures forall e :: e != event ==> Handlers(r.table, e) == Handlers(t, e)
    ensures r.handle.event == event && r.handle.handleName == name
    ensures r.handle.handleObject == Subscription(handler, modifiers)
  {
    var sub := Subscription(handler, modifiers);
    Subscribed(t[event := Handlers(t, event) + [sub]], EventHandle(event, name, sub))
  }

  /** `on(event, *modifiers, &handler)`: a subscription under the empty handle name. */
  function On(t: Table, event: Sym, modifiers: seq<Value>, handler: HandlerId): (r: Subscribed)
    ensures Handlers(r.table, event) == Handlers(t, event) + [Subscription(handler, modifiers)]
    ensures forall e :: e != event ==> Handlers(r.table, e) == Handlers(t, e)
    ensures r.handle == EventHandle(event, "", Subscription(handler, modifiers))
  {
    Subscribe(t, event, "", modifiers, handler)
  }

  /** `unsubscribe(event, handle_name)` as written: its body is commented out,
      so the table is returned untouched. */
  function UnsubscribeAsWritten(t: Table, event: Sym, handleName: string): (r: Table)
    ensures forall e :: Handlers(r, e) == Handlers(t, e)
  {
    t
  }

  /** The removal the commented-out body describes: every subscription equal to the
      handle's `[handler, modifiers]` pair leaves the handle's event. */
  function Unsubscribe(t: Table, handle: EventHandle): (r: Table)
    ensures handle.handleObject !in Handlers(r, handle.event)
    ensures forall s :: s in Handlers(r, handle.event) <==> s in Handlers(t, handle.event) && s != handle.handleObject
    ensures forall e :: e != handle.event ==> Handlers(r, e) == Handlers(t, e)
    ensures Handlers(r, handle.event) == Without(Handlers(t, handle.event), handle.handleObject)
  {
    if handle.event in t then t[handle.event := Without(t[handle.event], handle.handleObject)] else t
  }

  /** `a` is obtained from `b` by deleting elements, the rest keeping their order. */
  predicate Subsequence<T(==)>(a: seq<T>, b: seq<T>)
    decreases |b|
  {
    a == [] || (b != [] && ((a[0] == b[0] && Subsequence(a[1..], b[1..])) || Subsequence(a, b[1..])))
  }

  /** `xs` with every element equal to `x` deleted (Ruby's `Array#delete`): the other
      elements stay, each as often as before and in their old order. */
  function Without<T(==)>(xs: seq<T>, x: T): (r: seq<T>)
    ensures forall i :: 0 <= i < |r| ==> r[i] in xs && r[i] != x
    ensures forall i :: 0 <= i < |xs| && xs[i] != x ==> xs[i] in r
    ensures multiset(r) == multiset(xs)[x := 0]
    ensures Subsequence(r, xs)
    ensures |r| <= |xs|
  {
    if xs == [] then []
    else
      var rest := Without(xs[1..], x);
      WithoutStep(xs, x, rest);
      var r := if xs[0] == x then rest else [xs[0]] + rest;
      DeletedMembers(xs, x, r);
      r
  }

  /** Membership read off the element counts of a deletion. */
  lemma DeletedMembers<T>(xs: seq<T>, x: T, r: seq<T>)
    requires multiset(r) == multiset(xs)[x := 0]
    ensures forall i :: 0 <= i < |r| ==> r[i] in xs && r[i] != x
    ensures forall i :: 0 <= i < |xs| && xs[i] != x ==> xs[i] in r
  {
    forall i | 0 <= i < |r| ensures r[i] in xs && r[i] != x {
      assert r[i] in multiset(r);
    }
    forall i | 0 <= i < |xs| && xs[i] != x ensures xs[i] in r {
      assert multiset(xs)[xs[i]] > 0;
      assert multiset(r)[xs[i]] > 0;
    }
  }

  /** One step of `Without`: the head is dropped when it is `x`, else kept in front. */
  lemma WithoutStep<T>(xs: seq<T>, x: T, rest: seq<T>)
    requires xs != []
    requires multiset(rest) == multiset(xs[1..])[x := 0] && Subsequence(rest, xs[1..])
    ensures xs[0] == x ==> multiset(rest) == multiset(xs)[x := 0] && Subsequence(rest, xs)
    ensures xs[0] != x ==> multiset([xs[0]] + rest) == multiset(xs)[x := 0] && Subsequence([xs[0]] + rest, xs)
  {
    assert xs == [xs[0]] + xs[1..];
    assert multiset(xs) == multiset([xs[0]]) + multiset(xs[1..]);
    if xs[0] != x {
      assert ([xs[0]] + rest)[0] == xs[0] && ([xs[0]] + rest)[1..] == rest;
    }
  }

  lemma {:induction false} WithoutAppend<T>(xs: seq<T>, ys: seq<T>, x: T)
    ensures Without(xs + ys, x) == Without(xs, x) + Without(ys, x)
  {
    if xs == [] {
      assert xs + ys == ys;
    } else {
      assert (xs + ys)[1..] == xs[1..] + ys;
      WithoutAppend(xs[1..], ys, x);
    }
  }

  lemma {:induction false} WithoutAbsent<T>(xs: seq<T>, x: T)
    requires x !in xs
    ensures Without(xs, x) == xs
  {
    if xs != [] {
      WithoutAbsent(xs[1..], x);
    }
  }

  /** The publishing rule for one subscription: not more modifiers than arguments,
      and every modifier equal to some argument. */
  predicate Fires(sub: Subscription, args: seq<Value>) {
    |sub.modifiers| <= |args| && forall m :: m in sub.modifiers ==> m in args
  }

  /** The inner loop of `publish`: `call` stays true until a modifier is missing
      from the arguments (`arguments.index(mod)` is nil). */
  function AllPresent(mods: seq<Value>, args: seq<Value>): (b: bool)
    ensures b <==> forall m :: m in mods ==> m in args
  {
    if mods == [] then true
    else if mods[0] !in args then false
    else AllPresent(mods[1..], args)
  }

  /** The handlers of `subs`, in subscription order. */
  function HandlerIds(subs: seq<Subscription>): seq<HandlerId> {
    if subs == [] then [] else [subs[0].handler] + HandlerIds(subs[1..])
  }

  /** The outer loop of `publish` over one event's subscriptions: skip when there are
      more modifiers than arguments, call when every modifier is present. */
  function Dispatch(subs: seq<Subscription>, args: seq<Value>): (fired: seq<HandlerId>)
    ensures |fired| <= |subs|
    ensures forall h :: h in fired <==>
      exists i :: 0 <= i < |subs| && subs[i].handler == h && Fires(subs[i], args)
    ensures Subsequence(fired, HandlerIds(subs))
  {
    if subs == [] then []
    else
      var rest := Dispatch(subs[1..], args);
      assert forall i :: 1 <= i < |subs| ==> subs[i] == subs[1..][i - 1];
      assert HandlerIds(subs)[1..] == HandlerIds(subs[1..]);
      if |subs[0].modifiers| > |args| then rest
      else if AllPresent(subs[0].modifiers, args) then
        assert ([subs[0].handler] + rest)[1..] == rest;
        [subs[0].handler] + rest
      else rest
  }

  /** `publish(event, arguments)`: the handlers called, in the order they are called. */
  function Publish(t: Table, event: Sym, args: seq<Value>): (fired: seq<HandlerId>)
    ensures event !in t ==> fired == []
    ensures forall h :: h in fired <==>
      exists i :: 0 <= i < |Handlers(t, event)| && Handlers(t, event)[i].handler == h && Fires(Handlers(t, event)[i], args)
  {
    Dispatch(Handlers(t, event), args)
  }

  /** `signal(event, *arguments)`: publishing with the argument list as given. */
  function SignalEvent(t: Table, event: Sym, args: seq<Value>): (fired: seq<HandlerId>)
    ensures event !in t ==> fired == []
    ensures forall h :: h in fired <==>
      exists i :: 0 <= i < |Handlers(t, event)| && Handlers(t, event)[i].handler == h && Fires(Handlers(t, event)[i], args)
  {
    Publish(t, event, args)
  }

  lemma {:induction false} DispatchAppend(subs: seq<Subscription>, sub: Subscription, args: seq<Value>)
    ensures Dispatch(subs + [sub], args) == Dispatch(subs, args) + (if Fires(sub, args) then [sub.handler] else [])
  {
    if subs == [] {
      assert subs + [sub] == [sub];
      assert Dispatch([sub][1..], args) == [];
    } else {
      assert (subs + [sub])[1..] == subs[1..] + [sub];
      DispatchAppend(subs[1..], sub, args);
    }
  }

  /** Subscription order: dispatching a concatenation calls the first part's handlers,
      then the second's. With `DispatchOne` this fixes the whole call order. */
  lemma {:induction false} DispatchInOrder(xs: seq<Subscription>, ys: seq<Subscription>, args: seq<Value>)
    ensures Dispatch(xs + ys, args) == Dispatch(xs, args) + Dispatch(ys, args)
    decreases |ys|
  {
    if ys == [] {
      assert xs + ys == xs;
    } else {
      var init, last := ys[..|ys| - 1], ys[|ys| - 1];
      assert ys == init + [last];
      assert xs + ys == (xs + init) + [last];
      DispatchAppend(xs + init, last, args);
      DispatchAppend(init, last, args);
      DispatchInOrder(xs, init, args);
    }
  }

  /** A single subscription calls its handler exactly when it fires. */
  lemma DispatchOne(sub: Subscription, args: seq<Value>)
    ensures Dispatch([sub], args) == (if Fires(sub, args) then [sub.handler] else [])
  {
    assert [sub][1..] == [];
  }

  /** Registration order: a new subscription is called after every earlier one,
      and exactly when its modifiers are present. */
  lemma PublishAfterSubscribe(t: Table, event: Sym, name: string, mods: seq<Value>, h: HandlerId, args: seq<Value>)
    ensures Publish(Subscribe(t, event, name, mods, h).table, event, args)
         == Publish(t, event, args) + (if Fires(Subscription(h, mods), args) then [h] else [])
  {
    DispatchAppend(Handlers(t, event), Subscription(h, mods), args);
  }

  /** A handler with more modifiers than there are arguments is never called, even
      when every modifier occurs among the arguments. */
  lemma LongModifiersNeverFire(t: Table, event: Sym, name: string, mods: seq<Value>, h: HandlerId, args: seq<Value>)
    requires |mods| > |args|
    ensures Publish(Subscribe(t, event, name, mods, h).table, event, args) == Publish(t, event, args)
  {
    PublishAfterSubscribe(t, event, name, mods, h, args);
  }

  /** The length test is not implied by the membership test: a repeated modifier
      needs as many arguments as there are modifiers. */
  lemma RepeatedModifierNeedsRoom(h: HandlerId, a: Value, other: Value)
    ensures Dispatch([Subscription(h, [a, a])], [a]) == []
    ensures Dispatch([Subscription(h, [a, a])], [a, other]) == [h]
  {
    assert forall m :: m in [a, a] ==> m in [a, other];
  }

  lemma {:induction false} DispatchPermutation(subs: seq<Subscription>, args: seq<Value>, args': seq<Value>)
    requires multiset(args) == multiset(args')
    ensures Dispatch(subs, args) == Dispatch(subs, args')
  {
    assert |args| == |multiset(args)| == |args'|;
    assert forall v :: v in args <==> v in args' by {
      forall v ensures v in args <==> v in args' {
        assert v in args <==> v in multiset(args);
        assert v in args' <==> v in multiset(args');
      }
    }
    if subs != [] {
      DispatchPermutation(subs[1..], args, args');
    }
  }

  /** Membership ignores argument order: permuting the arguments calls the same
      handlers in the same order. */
  lemma PublishIgnoresArgumentOrder(t: Table, event: Sym, args: seq<Value>, args': seq<Value>)
    requires multiset(args) == multiset(args')
    ensures Publish(t, event, args) == Publish(t, event, args')
  {
    DispatchPermutation(Handlers(t, event), args, args');
  }

  /** As written, `unsubscribe` leaves a subscribed handler in place: whenever its
      modifiers fire, it is still called, after every handler that was there before. The
      corrected removal calls only those earlier handlers. */
  lemma UnsubscribeAsWrittenKeepsHandler(t: Table, event: Sym, name: string, mods: seq<Value>, h: HandlerId, args: seq<Value>)
    requires Fires(Subscription(h, mods), args)
    ensures var s := Subscribe(t, event, name, mods, h);
            Publish(UnsubscribeAsWritten(s.table, event, name), event, args) == Publish(t, event, args) + [h]
    ensures var s := Subscribe(t, event, name, mods, h);
            Subscription(h, mods) !in Handlers(t, event) ==> Publish(Unsubscribe(s.table, s.handle), event, args) == Publish(t, event, args)
  {
    var s := Subscribe(t, event, name, mods, h);
    PublishAfterSubscribe(t, event, name, mods, h, args);
    assert Handlers(UnsubscribeAsWritten(s.table, event, name), event) == Handlers(s.table, event);
    if Subscription(h, mods) !in Handlers(t, event) {
      UnsubscribeUndoesSubscribe(t, event, name, mods, h);
      assert Handlers(Unsubscribe(s.table, s.handle), event) == Handlers(t, event);
    }
  }

  /** Unsubscribing the handle a subscription returned restores the event's handler list. */
  lemma UnsubscribeUndoesSubscribe(t: Table, event: Sym, name: string, mods: seq<Value>, h: HandlerId)
    requires Subscription(h, mods) !in Handlers(t, event)
    ensures var s := Subscribe(t, event, name, mods, h);
            forall e :: Handlers(Unsubscribe(s.table, s.handle), e) == Handlers(t, e)
  {
    var sub := Subscription(h, mods);
    WithoutAppend(Handlers(t, event), [sub], sub);
    assert Without([sub], sub) == [];
    WithoutAbsent(Handlers(t, event), sub);
  }
}
