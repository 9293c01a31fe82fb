/** lib/gglib/util.rb: the Volatile damage tracker with its two suppression
    scopes, the setter that `attr_volatile` generates, and MetadataStore. */
module Volatile {
  import opened Base

  /** The Volatile instance variables. `published` records, in order, every event
      this object has published on its own Publisher (its outbox). */
  datatype Tracker = Tracker(
    damaged: bool,
    setDamage: bool,
    reportDamage: bool,
    uncheckedLevel: int,
    unreportedLevel: int,
    published: seq<Published>)

  /** The state `init_volatile` establishes the first time the tracker is used. */
  const Initial := Tracker(false, true, true, 0, 0, [])

  /** The state every scoped use keeps: depths are non-negative, flagging is on
      exactly outside `unchecked`, and reporting exactly outside both scopes. */
  predicate Valid(t: Tracker) {
    && t.uncheckedLevel >= 0
    && t.unreportedLevel >= 0
    && t.setDamage == (t.uncheckedLevel == 0)
    && t.reportDamage == (t.uncheckedLevel == 0 && t.unreportedLevel == 0)
  }

  /** Neither scope is open. */
  predicate Outside(t: Tracker) {
    t.uncheckedLevel == 0 && t.unreportedLevel == 0
  }

  /** `u` is in the same scope as `t`: both depths and both switches agree. */
  predicate SameScope(t: Tracker, u: Tracker) {
    && u.uncheckedLevel == t.uncheckedLevel && u.unreportedLevel == t.unreportedLevel
    && u.setDamage == t.setDamage && u.reportDamage == t.reportDamage
  }

  /** The `:modified` event carrying a damaged region. */
  function Modified(region: Value): Published {
    Published("modified", [region])
  }

  /** `signal(event, *args)` on this object's Publisher. */
  function Emit(t: Tracker, event: Sym, args: seq<Value>): (r: Tracker)
    ensures r.published == t.published + [Published(event, args)]
    ensures r.(published := t.published) == t
  {
    t.(published := t.published + [Published(event, args)])
  }

  datatype Damaged = Damaged(tracker: Tracker, flagged: bool)

  /** `damage(region)`: the new tracker and the returned `@set_damage`. */
  function Damage(t: Tracker, region: Value): (r: Damaged)
    ensures Valid(t) && Outside(t) ==>
      r.flagged && r.tracker.damaged && r.tracker.published == t.published + [Modified(region)]
    ensures Valid(t) && t.uncheckedLevel > 0 ==> r.tracker == t && !r.flagged
    ensures Valid(t) && t.uncheckedLevel == 0 && t.unreportedLevel > 0 ==>
      r.flagged && r.tracker.damaged && r.tracker.published == t.published
    ensures r.tracker.uncheckedLevel == t.uncheckedLevel && r.tracker.unreportedLevel == t.unreportedLevel
    ensures r.tracker.setDamage == t.setDamage && r.tracker.reportDamage == t.reportDamage
  {
    if t.setDamage then
      var flagged := t.(damaged := true);
      Damaged(if t.reportDamage then Emit(flagged, "modified", [region]) else flagged, true)
    else
      Damaged(t, false)
  }

  /** `clear_damage`. */
  function ClearDamage(t: Tracker): (r: Tracker)
    ensures !r.damaged
    ensures r.(damaged := t.damaged) == t
  {
    t.(damaged := false)
  }

  /** Entry into an `unchecked` block. */
  function EnterUnchecked(t: Tracker): (r: Tracker)
    ensures Valid(t) ==> Valid(r) && !r.setDamage && !r.reportDamage
    ensures r.uncheckedLevel == t.uncheckedLevel + 1 && r.unreportedLevel == t.unreportedLevel
    ensures r.damaged == t.damaged && r.published == t.published
  {
    t.(setDamage := false, reportDamage := false, uncheckedLevel := t.uncheckedLevel + 1)
  }

  /** Exit from an `unchecked` block. */
  function ExitUnchecked(t: Tracker): (r: Tracker)
    ensures r.uncheckedLevel == t.uncheckedLevel - 1 && r.unreportedLevel == t.unreportedLevel
    ensures Valid(t) && t.uncheckedLevel > 0 ==> Valid(r)
    ensures r.setDamage != t.setDamage ==> r.uncheckedLevel <= 0
    ensures r.reportDamage != t.reportDamage ==> r.uncheckedLevel <= 0 && r.unreportedLevel <= 0
    ensures r.damaged == t.damaged && r.published == t.published
  {
    var t1 := t.(uncheckedLevel := t.uncheckedLevel - 1);
    if t1.uncheckedLevel <= 0 then
      t1.(setDamage := true, reportDamage := if t1.unreportedLevel <= 0 then true else t1.reportDamage)
    else t1
  }

  /** Entry into an `unreported` block. */
  function EnterUnreported(t: Tracker): (r: Tracker)
    ensures Valid(t) ==> Valid(r) && !r.reportDamage && r.setDamage == t.setDamage
    ensures r.unreportedLevel == t.unreportedLevel + 1 && r.uncheckedLevel == t.uncheckedLevel
    ensures r.damaged == t.damaged && r.published == t.published
  {
    t.(reportDamage := false, unreportedLevel := t.unreportedLevel + 1)
  }

  /** Exit from an `unreported` block. */
  function ExitUnreported(t: Tracker): (r: Tracker)
    ensures r.unreportedLevel == t.unreportedLevel - 1 && r.uncheckedLevel == t.uncheckedLevel
    ensures Valid(t) && t.unreportedLevel > 0 ==> Valid(r)
    ensures r.reportDamage != t.reportDamage ==> r.uncheckedLevel <= 0 && r.unreportedLevel <= 0
    ensures r.setDamage == t.setDamage && r.damaged == t.damaged && r.published == t.published
  {
    var t1 := t.(unreportedLevel := t.unreportedLevel - 1);
    if t1.unreportedLevel <= 0 && t1.uncheckedLevel <= 0 then t1.(reportDamage := true) else t1
  }

  /** A block of tracker operations, with the two scopes nesting as Ruby blocks do. */
  datatype Step =
    | Mark(region: Value)
    | Clear
    | Unchecked(body: seq<Step>)
    | Unreported(body: seq<Step>)

  /** Runs a block of steps in order. */
  function Run(t: Tracker, steps: seq<Step>): Tracker
    decreases steps
  {
    if steps == [] then t else Run(RunStep(t, steps[0]), steps[1..])
  }

  /** Runs one step; a scope is entered, its body run, and the scope left. */
  function RunStep(t: Tracker, s: Step): Tracker
    decreases s
  {
    match s
    case Mark(region) => Damage(t, region).tracker
    case Clear => ClearDamage(t)
    case Unchecked(body) => ExitUnchecked(Run(EnterUnchecked(t), body))
    case Unreported(body) => ExitUnreported(Run(EnterUnreported(t), body))
  }

  /** Every block leaves both depth counters as it found them, and keeps the flags
      consistent with them. */
  lemma {:induction false} RunRestoresDepths(t: Tracker, steps: seq<Step>)
    requires Valid(t)
    ensures Valid(Run(t, steps))
    ensures Run(t, steps).uncheckedLevel == t.uncheckedLevel
    ensures Run(t, steps).unreportedLevel == t.unreportedLevel
    decreases steps
  {
    if steps != [] {
      StepRestoresDepths(t, steps[0]);
      RunRestoresDepths(RunStep(t, steps[0]), steps[1..]);
    }
  }

  /** Each scope restores its own depth counter to its entry value on exit. */
  lemma {:induction false} StepRestoresDepths(t: Tracker, s: Step)
    requires Valid(t)
    ensures Valid(RunStep(t, s))
    ensures RunStep(t, s).uncheckedLevel == t.uncheckedLevel
    ensures RunStep(t, s).unreportedLevel == t.unreportedLevel
    decreases s
  {
    match s
    case Mark(_) =>
    case Clear =>
    case Unchecked(body) => RunRestoresDepths(EnterUnchecked(t), body);
    case Unreported(body) => RunRestoresDepths(EnterUnreported(t), body);
  }

  /** Inside either scope nothing is published; inside `unchecked` nothing is flagged
      either (a `clear_damage` may still clear the flag). */
  lemma {:induction false} QuietRun(t: Tracker, steps: seq<Step>)
    requires Valid(t) && !Outside(t)
    ensures Run(t, steps).published == t.published
    ensures t.uncheckedLevel > 0 ==> (Run(t, steps).damaged ==> t.damaged)
    decreases steps
  {
    if steps != [] {
      QuietStep(t, steps[0]);
      StepRestoresDepths(t, steps[0]);
      QuietRun(RunStep(t, steps[0]), steps[1..]);
    }
  }

  lemma {:induction false} QuietStep(t: Tracker, s: Step)
    requires Valid(t) && !Outside(t)
    ensures RunStep(t, s).published == t.published
    ensures t.uncheckedLevel > 0 ==> (RunStep(t, s).damaged ==> t.damaged)
    decreases s
  {
    match s
    case Mark(_) =>
    case Clear =>
    case Unchecked(body) => QuietRun(EnterUnchecked(t), body);
    case Unreported(body) => QuietRun(EnterUnreported(t), body);
  }

  /** An `unchecked` block publishes nothing and never sets the damaged flag. */
  lemma UncheckedIsSilent(t: Tracker, body: seq<Step>)
    requires Valid(t)
    ensures RunStep(t, Unchecked(body)).published == t.published
    ensures RunStep(t, Unchecked(body)).damaged ==> t.damaged
    ensures RunStep(t, Unchecked(body)).uncheckedLevel == t.uncheckedLevel
  {
    QuietRun(EnterUnchecked(t), body);
    RunRestoresDepths(EnterUnchecked(t), body);
  }

  /** An `unreported` block publishes nothing. */
  lemma UnreportedIsSilent(t: Tracker, body: seq<Step>)
    requires Valid(t)
    ensures RunStep(t, Unreported(body)).published == t.published
    ensures RunStep(t, Unreported(body)).unreportedLevel == t.unreportedLevel
  {
    QuietRun(EnterUnreported(t), body);
    RunRestoresDepths(EnterUnreported(t), body);
  }

  /** A damage inside `unreported` but outside `unchecked` still sets the flag. */
  lemma UnreportedStillFlags(t: Tracker, region: Value)
    requires Valid(t) && t.uncheckedLevel == 0
    ensures RunStep(t, Unreported([Mark(region)])).damaged
    ensures RunStep(t, Unreported([Mark(region)])).published == t.published
  {
    var inner := EnterUnreported(t);
    assert Run(inner, [Mark(region)]) == Run(Damage(inner, region).tracker, []);
  }

  datatype Assigned<T> = Assigned(tracker: Tracker, value: T, forwarding: bool)

  /** The setter `attr_volatile` generates, for an attribute whose current value is
      `current`: an equal value returns at once; otherwise the owner damages the
      attribute name, starts forwarding the new value's damage when that value is
      itself Volatile, and stores the value. */
  function AssignVolatile<T(==)>(t: Tracker, current: T, v: T, attr: Sym, valueIsVolatile: bool): (r: Assigned<T>)
    ensures v == current ==> r == Assigned(t, current, false)
    ensures v != current ==> r.value == v && r.forwarding == valueIsVolatile
    ensures v != current && Valid(t) && Outside(t) ==>
      r.tracker.damaged && r.tracker.published == t.published + [Modified(Symbol(attr))]
    ensures Valid(t) ==> Valid(r.tracker)
  {
    if v == current then Assigned(t, current, false)
    else Assigned(Damage(t, Symbol(attr)).tracker, v, valueIsVolatile)
  }

  /** Assigning the value an assignment just stored changes nothing more, and
      assigning back the old value damages the attribute again. */
  lemma AssignVolatileSettles<T>(t: Tracker, current: T, v: T, attr: Sym, isVolatile: bool)
    requires Valid(t) && Outside(t) && v != current
    ensures var a := AssignVolatile(t, current, v, attr, isVolatile);
            AssignVolatile(a.tracker, a.value, v, attr, isVolatile) == Assigned(a.tracker, v, false)
    ensures var a := AssignVolatile(t, current, v, attr, isVolatile);
            AssignVolatile(a.tracker, a.value, current, attr, isVolatile).tracker.published
              == t.published + [Modified(Symbol(attr)), Modified(Symbol(attr))]
  {
  }

  /** A MetadataStore key: a symbol or a string, normalised by `to_sym`. */
  datatype FieldKey = SymKey(name: Sym) | StrKey(text: string)

  function ToSym(k: FieldKey): Sym {
    match k
    case SymKey(n) => n
    case StrKey(s) => s
  }

  /** MetadataStore's `@metadata` hash. */
  type Metadata = map<Sym, Value>

  /** `has_field?(field)`. */
  function HasField(m: Metadata, k: FieldKey): bool {
    ToSym(k) in m
  }

  /** `get_field(field)`: nil for a missing field. */
  function GetField(m: Metadata, k: FieldKey): (v: Value)
    ensures !HasField(m, k) ==> v == Nil
    ensures HasField(m, k) ==> v == m[ToSym(k)]
  {
    if ToSym(k) in m then m[ToSym(k)] else Nil
  }

  datatype Stored = Stored(meta: Metadata, ret: Value)

  /** `set_field(field, value)`: returns the value. */
  function SetField(m: Metadata, k: FieldKey, v: Value): (r: Stored)
    ensures r.ret == v && HasField(r.meta, k)
    ensures forall k' :: ToSym(k') == ToSym(k) ==> GetField(r.meta, k') == v
    ensures forall s :: s != ToSym(k) ==> (s in r.meta <==> s in m) && (s in m ==> r.meta[s] == m[s])
  {
    Stored(m[ToSym(k) := v], v)
  }

  /** `delete_field(field)`: returns the removed value, or nil. */
  function DeleteField(m: Metadata, k: FieldKey): (r: Stored)
    ensures !HasField(r.meta, k)
    ensures r.ret == GetField(m, k)
    ensures forall s :: s != ToSym(k) ==> (s in r.meta <==> s in m) && (s in m ==> r.meta[s] == m[s])
  {
    Stored(m - {ToSym(k)}, GetField(m, k))
  }

  /** A string key and a symbol key with the same name address the same field. */
  lemma StringAndSymbolKeysAgree(m: Metadata, name: string, v: Value)
    ensures GetField(SetField(m, StrKey(name), v).meta, SymKey(name)) == v
    ensures !HasField(DeleteField(m, SymKey(name)).meta, StrKey(name))
  {
  }
}
