/** The archetype loader of src/entity/class.ts: a class is its parent's
    processed record (or the basic record) overlaid with the class's own
    fields, with `skill` merged field by field and every prop laid over the
    default prop; each freshly processed class gets the next mockup id and
    is cached under its name.

    Records are values here, so the JavaScript object graph becomes the
    `Value` tree below and `deepCopy` is the identity on it. The global
    `Cache` and `mockups` counter are the `Loader` state, passed in and
    returned. */
module ClassLoading {
  import opened Wrappers

  /** A JavaScript value as the loader sees it. Functions (controller
      makers, `on` handlers, hit types) are opaque and compared by name. */
  datatype Value =
    | Str(s: string)
    | Num(x: real)
    | Bool(b: bool)
    | Null
    | Undefined
    | Fn(fn: string)
    | Arr(items: seq<Value>)
    | Obj(fields: map<string, Value>)

  /** A processed class (and a processed prop): a record of named fields. */
  type Record = map<string, Value>

  /** A class definition. `parent`, `skill` and `props` are the fields the
      loader inspects; every other field is in `other`. */
  datatype ClassDef = ClassDef(
    parent: Option<string>,
    skill: Option<Record>,
    props: Option<seq<Record>>,
    other: Record)

  /** The own enumerable fields of a class definition, as `Object.assign`
      copies them. */
  function OwnFields(c: ClassDef): (f: Record)
    ensures c.parent.Some? ==> "parent" in f && f["parent"] == Str(c.parent.value)
    ensures c.skill.Some? ==> "skill" in f && f["skill"] == Obj(c.skill.value)
    ensures c.props.Some? ==> "props" in f && f["props"] == Arr(PropValues(c.props.value))
    ensures forall k :: k in c.other && k !in {"parent", "skill", "props"} ==> k in f && f[k] == c.other[k]
    ensures forall k :: k in f <==> (k in c.other
      || (k == "parent" && c.parent.Some?) || (k == "skill" && c.skill.Some?) || (k == "props" && c.props.Some?))
  {
    var withParent := if c.parent.Some? then c.other["parent" := Str(c.parent.value)] else c.other;
    var withSkill := if c.skill.Some? then withParent["skill" := Obj(c.skill.value)] else withParent;
    if c.props.Some? then withSkill["props" := Arr(PropValues(c.props.value))] else withSkill
  }

  function PropValues(ps: seq<Record>): (vs: seq<Value>)
    ensures |vs| == |ps| && forall i :: 0 <= i < |ps| ==> vs[i] == Obj(ps[i])
  {
    seq(|ps|, i requires 0 <= i < |ps| => Obj(ps[i]))
  }

  // ---------------------------------------------------------------------
  // deepCopy

  /** `deepCopy(obj)`: primitives and functions come back as they are,
      arrays element by element and objects key by key. */
  function DeepCopy(v: Value): (r: Value)
  {
    match v
    case Arr(items) => Arr(seq(|items|, i requires 0 <= i < |items| => DeepCopy(items[i])))
    case Obj(fields) => Obj(map k | k in fields :: DeepCopy(fields[k]))
    case _ => v
  }

  /** A deep copy is structurally equal to the original: the copy can be
      mutated without touching the source, and otherwise reads the same. */
  lemma {:induction false} DeepCopyIsEqual(v: Value)
    ensures DeepCopy(v) == v
  {
    match v
    case Arr(items) =>
      forall i | 0 <= i < |items|
        ensures DeepCopy(items[i]) == items[i]
      {
        DeepCopyIsEqual(items[i]);
      }
      assert seq(|items|, i requires 0 <= i < |items| => DeepCopy(items[i])) == items;
    case Obj(fields) =>
      forall k | k in fields
        ensures DeepCopy(fields[k]) == fields[k]
      {
        DeepCopyIsEqual(fields[k]);
      }
      assert (map k | k in fields :: DeepCopy(fields[k])) == fields;
    case _ =>
  }

  /** `deepCopy` on a whole record. */
  function CopyRecord(r: Record): (c: Record)
    ensures c == r
  {
    DeepCopyIsEqual(Obj(r));
    match DeepCopy(Obj(r))
    case Obj(fields) => fields
    case _ => assert false; r
  }

  // ---------------------------------------------------------------------
  // Defaults (lines 77-133). Members of the `Color` enumeration are kept
  // by name: definitions/color.ts is not part of this model.

  function DefaultProp(): Record {
    map[
      "offset" := Obj(map["x" := Num(0.0), "y" := Num(0.0)]),
      "angle" := Num(0.0), "fixedAngle" := Bool(false), "spin" := Num(0.0), "spin2" := Num(0.0),
      "color" := Str("TeamColor"), "border" := Str("AutoBorder"), "size" := Num(5.0),
      "sides" := Num(0.0), "strokeWidth" := Num(4.0), "alpha" := Num(1.0), "layer" := Num(1.0)]
  }

  function DefaultSkill(): Record {
    map[
      "speed" := Num(0.5), "health" := Num(100.0), "regen" := Num(0.1), "damage" := Num(3.0),
      "pen" := Num(10.0), "range" := Null, "pushability" := Num(1.0), "fov" := Num(800.0),
      "shield" := Num(20.0), "shieldRegen" := Num(0.05)]
  }

  function DefaultEntity(): Record {
    map[
      "tier" := Num(0.0), "mockupId" := Num(0.0),
      "showHealth" := Bool(true), "showName" := Bool(true), "showScore" := Bool(true),
      "giveScore" := Bool(true), "killMessage" := Bool(false), "label" := Str("Entity"),
      "hitType" := Str("auto"), "miniMapType" := Str("none"), "score" := Num(25000.0),
      "name" := Null, "size" := Num(12.0), "mass" := Num(1.0), "sides" := Num(0.0),
      "isFixed" := Bool(false), "airplane" := Bool(false), "bullet" := Bool(false),
      "food" := Bool(false), "independent" := Bool(false), "controllers" := Arr([]),
      "skill" := Obj(DefaultSkill()), "color" := Str("TeamColor"), "border" := Str("AutoBorder"),
      "strokeWidth" := Num(4.0), "alpha" := Num(1.0), "props" := Arr([]), "upgrades" := Arr([]),
      "on" := Obj(map[])]
  }

  // ---------------------------------------------------------------------
  // The overlay of one class onto its base (lines 177-185)

  /** The own fields of an object; any other value contributes none to
      `Object.assign`. */
  function FieldsOf(v: Value): Record {
    if v.Obj? then v.fields else map[]
  }

  /** `Object.assign({}, a, b)`: b's fields win. */
  function Assign(a: Record, b: Record): (r: Record)
    ensures forall k :: k in r <==> k in a || k in b
    ensures forall k :: k in b ==> r[k] == b[k]
    ensures forall k :: k in a && k !in b ==> r[k] == a[k]
  {
    a + b
  }

  /** `prop => Object.assign({}, defaultProp, prop)` over the list. */
  function WithDefaultProps(ps: seq<Record>): (vs: seq<Value>)
    ensures |vs| == |ps|
    ensures forall i :: 0 <= i < |ps| ==> vs[i] == Obj(Assign(DefaultProp(), ps[i]))
  {
    seq(|ps|, i requires 0 <= i < |ps| => Obj(Assign(DefaultProp(), ps[i])))
  }

  /** The record before its mockup id is set: the base overlaid with the
      class's own fields, `skill` merged with the base's skill when the class
      has one, and the props rebuilt from the default prop when it has them. */
  function Overlay(base: Record, c: ClassDef): (r: Record)
  {
    var merged := Assign(base, OwnFields(c));
    var withSkill :=
      if c.skill.Some? then
        merged["skill" := Obj(Assign(if "skill" in base then FieldsOf(base["skill"]) else map[], c.skill.value))]
      else merged;
    if c.props.Some? then withSkill["props" := Arr(WithDefaultProps(c.props.value))] else withSkill
  }

  /** What `Overlay` gives, field by field: a class's own fields other than
      `skill` and `props` win over the base; missing fields come from the
      base; `skill` keys the class does not set come from the base's skill;
      a class without `skill` or `props` keeps the base's. */
  lemma OverlayFields(base: Record, c: ClassDef)
    ensures forall k :: k in OwnFields(c) && k != "skill" && k != "props" ==>
      k in Overlay(base, c) && Overlay(base, c)[k] == OwnFields(c)[k]
    ensures forall k :: k in base && k !in OwnFields(c) ==>
      k in Overlay(base, c) && Overlay(base, c)[k] == base[k]
    ensures forall k :: k in Overlay(base, c) <==> k in base || k in OwnFields(c)
    ensures c.skill.Some? ==> "skill" in Overlay(base, c) && Overlay(base, c)["skill"].Obj?
    ensures c.skill.Some? ==> forall k :: k in c.skill.value ==>
      k in Overlay(base, c)["skill"].fields && Overlay(base, c)["skill"].fields[k] == c.skill.value[k]
    ensures c.skill.Some? && "skill" in base ==> forall k :: k in FieldsOf(base["skill"]) && k !in c.skill.value ==>
      k in Overlay(base, c)["skill"].fields && Overlay(base, c)["skill"].fields[k] == FieldsOf(base["skill"])[k]
    ensures c.props.Some? ==> "props" in Overlay(base, c) && Overlay(base, c)["props"] == Arr(WithDefaultProps(c.props.value))
  {
  }

  // ---------------------------------------------------------------------
  // ProcessClass

  /** The module-level `Cache` and `mockups`. */
  datatype Loader = Loader(cache: map<string, Record>, mockups: nat)

  /** The loader as the module starts: an empty cache and the counter at 1. */
  function Start(): Loader {
    Loader(map[], 1)
  }

  datatype LoadError =
    /** `Parent class "<parent>" not found for "<name>"`. */
    | MissingParent(parent: string, name: string)
    /** A parent chain that returns to a class already being processed: the
        source recurses until the stack overflows. */
    | Cycle(name: string)

  /** `if (entityClass.parent)`: the empty string is falsy. */
  predicate HasParent(c: ClassDef) {
    c.parent.Some? && c.parent.value != ""
  }

  /** Whether processing `name` with `c` is the call the source makes for a
      registered parent: only a repeat of such a call loops. */
  predicate Registered(classes: map<string, ClassDef>, name: string, c: ClassDef) {
    name in classes && classes[name] == c
  }

  /** `ProcessClass(name, entityClass, basic)` with the registry `Class` and
      the loader state. `active` holds the registered classes whose
      processing is under way further up the recursion. */
  function Process(classes: map<string, ClassDef>, name: string, c: ClassDef, basic: Record,
                   ld: Loader, active: set<string>): (out: (Result<Record, LoadError>, Loader))
    requires active <= classes.Keys
    decreases |classes.Keys - active|, if Registered(classes, name, c) then 2 else 4
  {
    if name in ld.cache then (Success(ld.cache[name]), ld)
    else if Registered(classes, name, c) && name in active then (Failure(Cycle(name)), ld)
    else
      var active' := Mark(classes, name, c, active);
      Finish(name, c, BaseOf(classes, name, c, basic, ld, active'))
  }

  /** The classes under way once `name` is entered. */
  function Mark(classes: map<string, ClassDef>, name: string, c: ClassDef, active: set<string>): (a: set<string>)
    requires active <= classes.Keys
    ensures a <= classes.Keys
    ensures Registered(classes, name, c) && name !in active ==> |classes.Keys - a| < |classes.Keys - active|
    ensures !Registered(classes, name, c) ==> a == active
  {
    if Registered(classes, name, c) then
      assert name !in active ==> classes.Keys - (active + {name}) == (classes.Keys - active) - {name};
      active + {name}
    else active
  }

  /** Lines 163-175: the deep copy of the processed parent, the error for a
      missing parent, or the deep copy of `basic`. */
  function BaseOf(classes: map<string, ClassDef>, name: string, c: ClassDef, basic: Record,
                  ld: Loader, active: set<string>): (out: (Result<Record, LoadError>, Loader))
    requires active <= classes.Keys
    decreases |classes.Keys - active|, 3
  {
    if HasParent(c) then
      var p := c.parent.value;
      if p !in classes then (Failure(MissingParent(p, name)), ld)
      else
        var (pr, ld') := Process(classes, p, classes[p], DefaultEntity(), ld, active);
        if pr.Failure? then (pr, ld') else (Success(CopyRecord(pr.value)), ld')
    else (Success(CopyRecord(basic)), ld)
  }

  /** Lines 177-191: overlay the class on its base, take the next mockup id
      and cache the result; an error from the base passes through. */
  function Finish(name: string, c: ClassDef, based: (Result<Record, LoadError>, Loader)): (out: (Result<Record, LoadError>, Loader))
    ensures based.0.Failure? ==> out == (Failure(based.0.error), based.1)
    ensures based.0.Success? ==> (out.0.Success?
      && out.1 == Loader(based.1.cache[name := out.0.value], based.1.mockups + 1)
      && "mockupId" in out.0.value && out.0.value["mockupId"] == Num(based.1.mockups as real))
  {
    var (br, ld) := based;
    if br.Failure? then (Failure(br.error), ld)
    else
      var id := ld.mockups;
      var processed := Overlay(br.value, c)["mockupId" := Num(id as real)];
      (Success(processed), Loader(ld.cache[name := processed], id + 1))
  }

  /** A cached name is answered from the cache: the same record, and the
      loader (in particular the mockup counter) is unchanged. */
  lemma CacheHit(classes: map<string, ClassDef>, name: string, c: ClassDef, basic: Record, ld: Loader, active: set<string>)
    requires active <= classes.Keys && name in ld.cache
    ensures Process(classes, name, c, basic, ld, active) == (Success(ld.cache[name]), ld)
  {
  }

  /** A parent name missing from the registry throws, and nothing in the
      loader changes. */
  lemma MissingParentThrows(classes: map<string, ClassDef>, name: string, c: ClassDef, basic: Record, ld: Loader, active: set<string>)
    requires active <= classes.Keys && name !in ld.cache && !(Registered(classes, name, c) && name in active)
    requires HasParent(c) && c.parent.value !in classes
    ensures Process(classes, name, c, basic, ld, active) == (Failure(MissingParent(c.parent.value, name)), ld)
  {
  }

  /** A registered class that names itself as its parent never finishes:
      the model reports the cycle, with the loader unchanged. */
  lemma SelfParentCycles(classes: map<string, ClassDef>, name: string, basic: Record, ld: Loader)
    requires name in classes && name !in ld.cache
    requires HasParent(classes[name]) && classes[name].parent.value == name
    ensures Process(classes, name, classes[name], basic, ld, {}) == (Failure(Cycle(name)), ld)
  {
    assert {name} <= classes.Keys;
    assert Process(classes, name, classes[name], DefaultEntity(), ld, {name}) == (Failure(Cycle(name)), ld);
  }

  /** Every cached record carries a mockup id from 1 up to, not including,
      the counter. */
  ghost predicate IdsBelow(ld: Loader) {
    ld.mockups >= 1 &&
    forall n :: n in ld.cache ==> IdBelow(ld.cache[n], ld.mockups)
  }

  predicate IdBelow(r: Record, bound: nat) {
    "mockupId" in r && r["mockupId"].Num? && 1.0 <= r["mockupId"].x < bound as real
  }

  predicate IdAtLeast(r: Record, lo: nat) {
    "mockupId" in r && r["mockupId"].Num? && r["mockupId"].x >= lo as real
  }

  /** How the loader may change across calls: the counter never goes back,
      cached entries are never changed or dropped, and every entry added
      has an id at or above the counter's old value. */
  ghost predicate Grows(ld: Loader, ld': Loader) {
    IdsBelow(ld') && ld'.mockups >= ld.mockups
    && (forall n :: n in ld.cache ==> n in ld'.cache && ld'.cache[n] == ld.cache[n])
    && (forall n :: n in ld'.cache && n !in ld.cache ==> IdAtLeast(ld'.cache[n], ld.mockups))
  }

  lemma GrowsTrans(a: Loader, b: Loader, c: Loader)
    requires Grows(a, b) && Grows(b, c)
    ensures Grows(a, c)
  {
    forall n | n in c.cache && n !in a.cache
      ensures IdAtLeast(c.cache[n], a.mockups)
    {
      if n in b.cache {
        assert c.cache[n] == b.cache[n];
      }
    }
  }

  /** One `ProcessClass` call: the loader grows; on success the answer is
      the record cached under the name, and a name that was not cached gets
      the counter's value just before its own id was taken, which is at
      least the counter's value when the call began. */
  lemma {:induction false} ProcessLoader(classes: map<string, ClassDef>, name: string, c: ClassDef, basic: Record, ld: Loader, active: set<string>)
    requires active <= classes.Keys && IdsBelow(ld)
    ensures Grows(ld, Process(classes, name, c, basic, ld, active).1)
    ensures Settled(ld, name, Process(classes, name, c, basic, ld, active))
    decreases |classes.Keys - active|, if Registered(classes, name, c) then 2 else 4
  {
    if name in ld.cache {
    } else if Registered(classes, name, c) && name in active {
    } else {
      var active' := Mark(classes, name, c, active);
      var based := BaseOf(classes, name, c, basic, ld, active');
      BaseLoader(classes, name, c, basic, ld, active');
      FinishLoader(ld, name, c, based);
    }
  }

  /** On success the record is cached under the name, with an id below the
      counter; when the name was new, its id is the counter's last value and
      no lower than the counter before the call. */
  ghost predicate Settled(ld: Loader, name: string, out: (Result<Record, LoadError>, Loader)) {
    (out.0.Success? ==> name in out.1.cache && out.1.cache[name] == out.0.value && IdBelow(out.0.value, out.1.mockups))
    && (out.0.Success? && name !in ld.cache ==> (out.1.mockups >= 1 && out.1.mockups - 1 >= ld.mockups
          && out.0.value["mockupId"] == Num((out.1.mockups - 1) as real)))
  }

  lemma {:induction false} BaseLoader(classes: map<string, ClassDef>, name: string, c: ClassDef, basic: Record, ld: Loader, active: set<string>)
    requires active <= classes.Keys && IdsBelow(ld)
    ensures Grows(ld, BaseOf(classes, name, c, basic, ld, active).1)
    decreases |classes.Keys - active|, 3
  {
    if HasParent(c) && c.parent.value in classes {
      var p := c.parent.value;
      ProcessLoader(classes, p, classes[p], DefaultEntity(), ld, active);
    }
  }

  lemma FinishLoader(ld: Loader, name: string, c: ClassDef, based: (Result<Record, LoadError>, Loader))
    requires IdsBelow(ld) && Grows(ld, based.1) && name !in ld.cache
    ensures Grows(ld, Finish(name, c, based).1)
    ensures Settled(ld, name, Finish(name, c, based))
  {
    var out := Finish(name, c, based);
    if based.0.Success? {
      var ld1 := based.1;
      assert IdBelow(out.0.value, out.1.mockups);
      forall n | n in ld.cache
        ensures n in out.1.cache && out.1.cache[n] == ld.cache[n]
      {
        assert n != name;
      }
      forall n | n in out.1.cache
        ensures IdBelow(out.1.cache[n], out.1.mockups)
      {
        if n != name {
          assert out.1.cache[n] == ld1.cache[n];
        }
      }
    }
  }

  /** The mockup id a successful fresh `ProcessClass` assigns is never 0,
      and each fresh class gets a different one: it is the counter's value
      before the call or later, and the counter has moved past it. */
  lemma FreshIds(classes: map<string, ClassDef>, name: string, c: ClassDef, basic: Record, ld: Loader, active: set<string>)
    requires active <= classes.Keys && IdsBelow(ld) && name !in ld.cache
    requires Process(classes, name, c, basic, ld, active).0.Success?
    ensures var (r, ld') := Process(classes, name, c, basic, ld, active);
      r.value["mockupId"].Num? && r.value["mockupId"].x >= 1.0
      && r.value["mockupId"].x >= ld.mockups as real && ld'.mockups as real > r.value["mockupId"].x
  {
    ProcessLoader(classes, name, c, basic, ld, active);
  }

  /** A class without a parent is `basic` overlaid with the class: its own
      fields win, and it gets the counter's current value as mockup id. */
  lemma RootClass(classes: map<string, ClassDef>, name: string, c: ClassDef, basic: Record, ld: Loader, active: set<string>)
    requires active <= classes.Keys && name !in ld.cache && !(Registered(classes, name, c) && name in active)
    requires !HasParent(c)
    ensures var (r, ld') := Process(classes, name, c, basic, ld, active);
      r == Success(Overlay(basic, c)["mockupId" := Num(ld.mockups as real)])
      && ld' == Loader(ld.cache[name := r.value], ld.mockups + 1)
  {
  }

  /** A class with a registered parent is laid over the parent's processed
      record, processed first (and cached) with the same loader state. */
  lemma ChildClass(classes: map<string, ClassDef>, name: string, c: ClassDef, basic: Record, ld: Loader, active: set<string>)
    requires active <= classes.Keys && name !in ld.cache && !(Registered(classes, name, c) && name in active)
    requires HasParent(c) && c.parent.value in classes
    ensures var (pr, ld1) := Process(classes, c.parent.value, classes[c.parent.value], DefaultEntity(), ld, Mark(classes, name, c, active));
      var (r, ld') := Process(classes, name, c, basic, ld, active);
      (pr.Failure? ==> r == Failure(pr.error) && ld' == ld1)
      && (pr.Success? ==> (r == Success(Overlay(pr.value, c)["mockupId" := Num(ld1.mockups as real)])
            && ld' == Loader(ld1.cache[name := r.value], ld1.mockups + 1)))
  {
  }

  // ---------------------------------------------------------------------
  // ClassLoader

  /** `ClassLoader()`: clear the cache (the counter keeps counting) and
      process every registered class in key order, with the default entity
      as basic record, storing each result in `EntityClass`. The first
      error ends the load; what was stored until then stays. */
  function LoadAll(classes: map<string, ClassDef>, keys: seq<string>, ld: Loader, loaded: map<string, Record>): (out: (Result<map<string, Record>, LoadError>, Loader))
    requires forall i :: 0 <= i < |keys| ==> keys[i] in classes
  {
    LoadFrom(classes, keys, 0, Loader(map[], ld.mockups), loaded)
  }

  function LoadFrom(classes: map<string, ClassDef>, keys: seq<string>, i: nat, ld: Loader, loaded: map<string, Record>): (out: (Result<map<string, Record>, LoadError>, Loader))
    requires i <= |keys| && forall j :: 0 <= j < |keys| ==> keys[j] in classes
    decreases |keys| - i
  {
    if i == |keys| then (Success(loaded), ld)
    else
      var out := Process(classes, keys[i], classes[keys[i]], DefaultEntity(), ld, {});
      if out.0.Failure? then (Failure(out.0.error), out.1)
      else LoadFrom(classes, keys, i + 1, out.1, loaded[keys[i] := out.0.value])
  }

  /** A load never resets the mockup counter: every class loaded gets an id
      at least the counter's value before the load, and after a complete
      load every listed class is in `EntityClass`, equal to its cached
      record. */
  /** What holds before key i: the counter is above `floor`, every cached
      record and every record loaded so far has an id in [floor, counter). */
  ghost predicate LoadInv(classes: map<string, ClassDef>, keys: seq<string>, i: nat, ld: Loader, loaded: map<string, Record>, floor: nat) {
    i <= |keys| && (forall j :: 0 <= j < |keys| ==> keys[j] in classes)
    && IdsBelow(ld) && floor <= ld.mockups
    && (forall n :: n in ld.cache ==> IdAtLeast(ld.cache[n], floor))
    && (forall j :: 0 <= j < i ==> keys[j] in loaded && IdBelow(loaded[keys[j]], ld.mockups) && IdAtLeast(loaded[keys[j]], floor))
  }

  lemma {:induction false} LoadFromIds(classes: map<string, ClassDef>, keys: seq<string>, i: nat, ld: Loader, loaded: map<string, Record>, floor: nat)
    requires LoadInv(classes, keys, i, ld, loaded, floor)
    ensures LoadFrom(classes, keys, i, ld, loaded).1.mockups >= ld.mockups
    ensures LoadedIds(keys, LoadFrom(classes, keys, i, ld, loaded), floor)
    decreases |keys| - i
  {
    if i < |keys| {
      var out := Process(classes, keys[i], classes[keys[i]], DefaultEntity(), ld, {});
      LoadNext(classes, keys, i, ld, loaded, floor);
      if out.0.Success? {
        var loaded' := loaded[keys[i] := out.0.value];
        assert LoadFrom(classes, keys, i, ld, loaded) == LoadFrom(classes, keys, i + 1, out.1, loaded');
        LoadFromIds(classes, keys, i + 1, out.1, loaded', floor);
      }
    } else {
      assert LoadFrom(classes, keys, i, ld, loaded) == (Success(loaded), ld);
    }
  }

  lemma LoadNext(classes: map<string, ClassDef>, keys: seq<string>, i: nat, ld: Loader, loaded: map<string, Record>, floor: nat)
    requires LoadInv(classes, keys, i, ld, loaded, floor) && i < |keys|
    ensures var out := Process(classes, keys[i], classes[keys[i]], DefaultEntity(), ld, {});
      out.1.mockups >= ld.mockups
      && (out.0.Success? ==> LoadInv(classes, keys, i + 1, out.1, loaded[keys[i] := out.0.value], floor))
  {
    var out := Process(classes, keys[i], classes[keys[i]], DefaultEntity(), ld, {});
    ProcessLoader(classes, keys[i], classes[keys[i]], DefaultEntity(), ld, {});
    if out.0.Success? {
      var ld' := out.1;
      CacheFloor(ld, ld', floor);
      assert IdAtLeast(out.0.value, floor);
      LoadedStep(keys, i, loaded, out.0.value, ld.mockups, ld'.mockups, floor);
    }
  }

  lemma CacheFloor(ld: Loader, ld': Loader, floor: nat)
    requires Grows(ld, ld') && floor <= ld.mockups
    requires forall n :: n in ld.cache ==> IdAtLeast(ld.cache[n], floor)
    ensures forall n :: n in ld'.cache ==> IdAtLeast(ld'.cache[n], floor)
  {
    forall n | n in ld'.cache
      ensures IdAtLeast(ld'.cache[n], floor)
    {
      if n in ld.cache {
        assert ld'.cache[n] == ld.cache[n];
      }
    }
  }

  lemma LoadedStep(keys: seq<string>, i: nat, loaded: map<string, Record>, r: Record, m: nat, m': nat, floor: nat)
    requires i < |keys| && m <= m'
    requires forall j :: 0 <= j < i ==> keys[j] in loaded && IdBelow(loaded[keys[j]], m) && IdAtLeast(loaded[keys[j]], floor)
    requires IdBelow(r, m') && IdAtLeast(r, floor)
    ensures forall j :: 0 <= j < i + 1 ==> (keys[j] in loaded[keys[i] := r]
      && IdBelow(loaded[keys[i] := r][keys[j]], m') && IdAtLeast(loaded[keys[i] := r][keys[j]], floor))
  {
  }

  /** After a successful load every listed class has a record whose id is
      in [floor, counter). */
  ghost predicate LoadedIds(keys: seq<string>, out: (Result<map<string, Record>, LoadError>, Loader), floor: nat) {
    out.0.Success? ==> forall j :: 0 <= j < |keys| ==>
      keys[j] in out.0.value && IdBelow(out.0.value[keys[j]], out.1.mockups) && IdAtLeast(out.0.value[keys[j]], floor)
  }

  /** `ClassLoader` starts from an empty cache, keeps the counter, and on
      success every registered key has a record whose id is no lower than
      the counter before the load. */
  lemma LoadAllIds(classes: map<string, ClassDef>, keys: seq<string>, ld: Loader, loaded: map<string, Record>)
    requires forall i :: 0 <= i < |keys| ==> keys[i] in classes
    requires ld.mockups >= 1
    ensures LoadAll(classes, keys, ld, loaded).1.mockups >= ld.mockups
    ensures LoadedIds(keys, LoadAll(classes, keys, ld, loaded), ld.mockups)
  {
    assert LoadInv(classes, keys, 0, Loader(map[], ld.mockups), loaded, ld.mockups);
    LoadFromIds(classes, keys, 0, Loader(map[], ld.mockups), loaded, ld.mockups);
  }
}
