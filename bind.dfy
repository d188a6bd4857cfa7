/**
 * What the binder of ast/ast.go:109-260 and 649-717 does to a target, with Go
 * reflection replaced by an explicit capability table. A target object has
 * exported methods and fields by name. A method takes parameters of known kinds
 * and either returns a value or not. A field holds a scalar of a known kind or a
 * pointer to a child object. What a method does when it is called, and which
 * object it returns, is up to the Host.
 *
 * Go's failures map to a Status:
 *  - an error return is Error;
 *  - a reflect panic is Panic;
 *  - log.Fatalf, which ends the process, is Exit.
 *
 * The Execute methods of class Binding.Binder are proved to compute these functions.
 */
module Bind {
  import opened Base
  import opened Ast

  type ObjId = nat

  /** The kind of a parameter or a field, as reflect.Kind distinguishes them here. */
  datatype Kind = KString | KInt | KFloat | KOther

  datatype Scalar = SStr(s: string) | SInt(i: int) | SFloat(f: real)

  /** The exported method `name` of an object: its parameter kinds, and whether it
      returns a value (the target that get binds into). */
  datatype MethodCap = MethodCap(params: seq<Kind>, hasResult: bool)

  /** An exported field: a scalar of some kind, or a pointer (nil when None). */
  datatype Slot = ScalarSlot(kind: Kind, value: Scalar) | ChildSlot(child: Option<ObjId>)

  datatype Obj = Obj(methods: map<string, MethodCap>, fields: map<string, Slot>)

  /** A method call the binder made through reflection. */
  datatype Call = Call(obj: ObjId, name: string, args: seq<Scalar>)

  /** The objects and the calls made on them so far; the effect of a call is its
      entry in the log. */
  datatype World = World(objs: map<ObjId, Obj>, log: seq<Call>)

  /** strconv.ParseInt/Atoi and strconv.ParseFloat, which are not part of this model. */
  datatype Numerals = Numerals(parseInt: string -> Option<int>, parseFloat: string -> Option<real>)

  /** The bodies of the target's methods, which are not part of this model. Called
      on world w, a call c leaves the objects effect(w, c) and, for a method that
      returns a value, returns the object result(w, c). Both see the calls made so
      far, so a factory method can return a new child on every call. */
  datatype Host = Host(effect: (World, Call) -> map<ObjId, Obj>, result: (World, Call) -> ObjId)

  /** The world after call c: its effect on the objects, and c logged. */
  function Invoke(w: World, host: Host, c: Call): World
  {
    World(host.effect(w, c), w.log + [c])
  }

  datatype BindError =
    | Missing(name: string)                        // "did not have method or field"
    | BadMethodArgument(name: string, text: string) // "error while calling method"
    | BadFieldValue(name: string, text: string)     // "error while setting field"
    | Recovered                                     // "Recovered from panic"

  datatype Status = Done | Error(error: BindError) | Panic | Exit

  datatype Step = Step(world: World, status: Status)

  /** What get hands back: the child to bind into, or the status that stops binding. */
  datatype Fetch = Fetched(world: World, child: ObjId) | Stopped(world: World, status: Status)

  /** w' has every call of w, in order, and possibly more after them. */
  predicate LogExtends(w: World, w': World)
  {
    |w.log| <= |w'.log| && w'.log[..|w.log|] == w.log
  }

  predicate OfKind(v: Scalar, k: Kind)
  {
    match v
    case SStr(_) => k == KString
    case SInt(_) => k == KInt
    case SFloat(_) => k == KFloat
  }

  /** An object not in the table has no members. */
  function Lookup(w: World, o: ObjId): Obj
  {
    if o in w.objs then w.objs[o] else Obj(map[], map[])
  }

  /** The text of a leaf as a value of kind k; KOther has no conversion. */
  function Coerce(nums: Numerals, k: Kind, text: string): (r: Option<Scalar>)
    ensures r.Some? ==> OfKind(r.value, k)
    ensures k == KString ==> r == Some(SStr(text))
    ensures k == KOther ==> r.None?
  {
    match k
    case KString => Some(SStr(text))
    case KInt => (match nums.parseInt(text) case Some(i) => Some(SInt(i)) case None => None)
    case KFloat => (match nums.parseFloat(text) case Some(f) => Some(SFloat(f)) case None => None)
    case KOther => None
  }

  /** set (ast/ast.go:665-717): a method named `name` is called with the text
      converted to its first parameter's kind; otherwise a field of that name is
      assigned; otherwise the name is missing. */
  function SetMember(w: World, nums: Numerals, host: Host, o: ObjId, name: string, text: string): (r: Step)
    ensures LogExtends(w, r.world) && |r.world.log| <= |w.log| + 1
    ensures r.status == Error(Missing(name)) <==> name !in Lookup(w, o).methods && name !in Lookup(w, o).fields
  {
    var ob := Lookup(w, o);
    if name in ob.methods then CallSetter(w, nums, host, o, name, ob.methods[name], text)
    else if name in ob.fields then SetField(w, nums, o, name, ob.fields[name], text)
    else Step(w, Error(Missing(name)))
  }

  /** The method branch of set (ast/ast.go:668-689). */
  function CallSetter(w: World, nums: Numerals, host: Host, o: ObjId, name: string, m: MethodCap, text: string): Step
  {
    if m.params == [] then Step(w, Panic)                  // m.Type().In(0)
    else if m.params[0] == KOther then Step(w, Exit)       // log.Fatalf
    else
      match Coerce(nums, m.params[0], text)
      case None => Step(w, Error(BadMethodArgument(name, text)))
      case Some(arg) =>
        if |m.params| == 1 then Step(Invoke(w, host, Call(o, name, [arg])), Done)
        else Step(w, Panic)                                // Call with too few arguments
  }

  /** The field branch of set (ast/ast.go:691-714). */
  function SetField(w: World, nums: Numerals, o: ObjId, name: string, f: Slot, text: string): Step
  {
    match f
    case ChildSlot(_) => Step(w, Exit)                     // pointer kind: log.Fatalf
    case ScalarSlot(k, _) =>
      if k == KOther then Step(w, Exit)
      else
        match Coerce(nums, k, text)
        case None => Step(w, Error(BadFieldValue(name, text)))
        case Some(v) => Step(Assign(w, o, name, ScalarSlot(k, v)), Done)
  }

  function Assign(w: World, o: ObjId, name: string, f: Slot): World
  {
    var ob := Lookup(w, o);
    w.(objs := w.objs[o := ob.(fields := ob.fields[name := f])])
  }

  /** Calling method `name` with no arguments, as get does (ast/ast.go:653-654). */
  function CallGetter(w: World, host: Host, o: ObjId, name: string, m: MethodCap): Fetch
  {
    if m.params != [] then Stopped(w, Panic)               // Call with too few arguments
    else
      var c := Call(o, name, []);
      if m.hasResult then Fetched(Invoke(w, host, c), host.result(w, c))
      else Stopped(Invoke(w, host, c), Panic)              // out[0] of no results
  }

  /** get exactly as ast/ast.go:649-663 writes it. MethodByName yields the zero
      Value when there is no such method, and IsNil panics on the zero Value; so
      without a method get panics and never looks at the fields. */
  function GetAsWritten(w: World, host: Host, o: ObjId, name: string): (r: Fetch)
    ensures r.Fetched? ==> name in Lookup(w, o).methods && Lookup(w, o).methods[name] == MethodCap([], true)
    ensures r.Stopped? ==> r.status == Panic
  {
    var ob := Lookup(w, o);
    if name in ob.methods then CallGetter(w, host, o, name, ob.methods[name])
    else Stopped(w, Panic)
  }

  /** get as evidently intended: the method if there is one, else a non-nil
      pointer field, else the name is missing. IsNil still panics on a scalar
      field, whose kind cannot be nil. */
  function Get(w: World, host: Host, o: ObjId, name: string): (r: Fetch)
    ensures LogExtends(w, r.world) && |r.world.log| <= |w.log| + 1
    ensures r.Stopped? ==> r.status == Panic || r.status == Error(Missing(name))
  {
    var ob := Lookup(w, o);
    if name in ob.methods then CallGetter(w, host, o, name, ob.methods[name])
    else if name in ob.fields then
      match ob.fields[name]
      case ChildSlot(Some(c)) => Fetched(w, c)
      case ChildSlot(None) => Stopped(w, Error(Missing(name)))
      case ScalarSlot(_, _) => Stopped(w, Panic)
    else Stopped(w, Error(Missing(name)))
  }

  /** The deferred recover of RepeatedDirective.Execute (ast/ast.go:214-219). */
  function Recover(st: Status): Status
  {
    if st.Panic? then Error(Recovered) else st
  }

  /** Document.Execute and Object.Execute (ast/ast.go:109-117, 196-204): the entries
      in order, stopping at the first that does not succeed. */
  function BindEntries(w: World, nums: Numerals, host: Host, o: ObjId, es: seq<Entry>): (r: Step)
    ensures LogExtends(w, r.world)
    decreases es
  {
    if es == [] then Step(w, Done)
    else
      var r := BindEntry(w, nums, host, o, es[0]);
      if r.status.Done? then BindEntries(r.world, nums, host, o, es[1..]) else r
  }

  /** Whitespace.Execute, Directive.Execute and RepeatedDirective.Execute
      (ast/ast.go:70-72, 175-191, 213-249). The context flag plays no part. */
  function BindEntry(w: World, nums: Numerals, host: Host, o: ObjId, e: Entry): (r: Step)
    ensures LogExtends(w, r.world)
    ensures e.Whitespace? ==> r == Step(w, Done)
    decreases e
  {
    match e
    case Whitespace => Step(w, Done)
    case Directive(id, _, v) =>
      if v.Object? then
        match Get(w, host, o, id)
        case Stopped(w', st) => Step(w', st)
        case Fetched(w', c) => BindEntries(w', nums, host, c, v.entries)
      else SetMember(w, nums, host, o, id, v.value)
    case RepeatedDirective(id, _, vs) => BindRepeated(w, nums, host, o, id, vs)
  }

  /** The loop of RepeatedDirective.Execute (ast/ast.go:221-248): one get or set
      per value. What a nested object's binding returns is dropped, unless it
      panicked; get and set errors end the loop; a panic becomes Recovered. */
  function BindRepeated(w: World, nums: Numerals, host: Host, o: ObjId, id: string, vs: seq<Value>): (r: Step)
    ensures LogExtends(w, r.world)
    decreases vs
  {
    if vs == [] then Step(w, Done)
    else if vs[0].Object? then
      match Get(w, host, o, id)
      case Stopped(w', st) => Step(w', Recover(st))
      case Fetched(w', c) =>
        var r := BindEntries(w', nums, host, c, vs[0].entries);
        if r.status.Panic? then Step(r.world, Error(Recovered))
        else if r.status.Exit? then r
        else BindRepeated(r.world, nums, host, o, id, vs[1..])
    else
      var r := SetMember(w, nums, host, o, id, vs[0].value);
      if r.status.Done? then BindRepeated(r.world, nums, host, o, id, vs[1..])
      else Step(r.world, Recover(r.status))
  }

  /** Document.Execute on the target `root`. */
  function BindDocument(w: World, nums: Numerals, host: Host, root: ObjId, d: Document): Step
  {
    BindEntries(w, nums, host, root, d.entries)
  }
}
