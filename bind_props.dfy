/** What the binder guarantees: document order, stopping at the first failure with
    earlier effects kept, the special treatment of repeated directives, and what
    set and get do to the target. */
module BindProps {
  import opened Base
  import opened Ast
  import opened Bind

  // ---------------------------------------------------------------------
  // Order and early return

  /** Binding a + b binds a, then b from where a left the target, unless a did not
      succeed, in which case b is never looked at. */
  lemma {:induction false} EntriesConcat(w: World, nums: Numerals, host: Host, o: ObjId, a: seq<Entry>, b: seq<Entry>)
    ensures var r := BindEntries(w, nums, host, o, a);
      BindEntries(w, nums, host, o, a + b) == if r.status.Done? then BindEntries(r.world, nums, host, o, b) else r
    decreases |a|
  {
    if a == [] {
      assert a + b == b;
    } else {
      assert (a + b)[0] == a[0] && (a + b)[1..] == a[1..] + b;
      var r0 := BindEntry(w, nums, host, o, a[0]);
      if r0.status.Done? {
        EntriesConcat(r0.world, nums, host, o, a[1..], b);
      }
    }
  }

  /** The first entry that fails decides the result: the state is what the earlier
      entries and the failing one left, and nothing after it runs. */
  lemma EntriesStopAtFirstFailure(w: World, nums: Numerals, host: Host, o: ObjId, a: seq<Entry>, e: Entry, b: seq<Entry>)
    requires BindEntries(w, nums, host, o, a).status.Done?
    requires !BindEntry(BindEntries(w, nums, host, o, a).world, nums, host, o, e).status.Done?
    ensures BindEntries(w, nums, host, o, a + [e] + b) == BindEntry(BindEntries(w, nums, host, o, a).world, nums, host, o, e)
  {
    var r := BindEntries(w, nums, host, o, a);
    EntriesConcat(w, nums, host, o, a, [e] + b);
    assert a + [e] + b == a + ([e] + b);
    assert ([e] + b)[0] == e;
  }

  /** The values of a repeated directive are bound left to right in the same way. */
  lemma {:induction false} RepeatedConcat(w: World, nums: Numerals, host: Host, o: ObjId, id: string, a: seq<Value>, b: seq<Value>)
    ensures var r := BindRepeated(w, nums, host, o, id, a);
      BindRepeated(w, nums, host, o, id, a + b) == if r.status.Done? then BindRepeated(r.world, nums, host, o, id, b) else r
    decreases |a|
  {
    if a == [] {
      assert a + b == b;
    } else {
      assert (a + b)[0] == a[0] && (a + b)[1..] == a[1..] + b;
      if a[0].Object? {
        match Get(w, host, o, id)
        case Stopped(_, _) =>
        case Fetched(w1, c) =>
          var r1 := BindEntries(w1, nums, host, c, a[0].entries);
          if !r1.status.Panic? && !r1.status.Exit? {
            RepeatedConcat(r1.world, nums, host, o, id, a[1..], b);
          }
      } else {
        var r1 := SetMember(w, nums, host, o, id, a[0].value);
        if r1.status.Done? {
          RepeatedConcat(r1.world, nums, host, o, id, a[1..], b);
        }
      }
    }
  }

  // ---------------------------------------------------------------------
  // Repeated directives

  /** A repeated directive recovers every panic under it: it can fail with an
      error or end the process, but never panics. */
  lemma {:induction false} RepeatedNeverPanics(w: World, nums: Numerals, host: Host, o: ObjId, id: string, vs: seq<Value>)
    ensures !BindRepeated(w, nums, host, o, id, vs).status.Panic?
    decreases |vs|
  {
    if vs != [] {
      if vs[0].Object? {
        match Get(w, host, o, id)
        case Stopped(_, _) =>
        case Fetched(w1, c) =>
          var r := BindEntries(w1, nums, host, c, vs[0].entries);
          if !r.status.Panic? && !r.status.Exit? {
            RepeatedNeverPanics(r.world, nums, host, o, id, vs[1..]);
          }
      } else {
        var r := SetMember(w, nums, host, o, id, vs[0].value);
        if r.status.Done? {
          RepeatedNeverPanics(r.world, nums, host, o, id, vs[1..]);
        }
      }
    }
  }

  /** In a repeated directive the error of a nested object is dropped and the loop
      goes on from the state that object left; the effects it had are kept. */
  lemma RepeatedDropsNestedError(w: World, nums: Numerals, host: Host, o: ObjId, id: string, es: seq<Entry>, rest: seq<Value>)
    requires Get(w, host, o, id).Fetched?
    requires BindEntries(Get(w, host, o, id).world, nums, host, Get(w, host, o, id).child, es).status.Error?
    ensures BindRepeated(w, nums, host, o, id, [Object(es)] + rest)
      == BindRepeated(BindEntries(Get(w, host, o, id).world, nums, host, Get(w, host, o, id).child, es).world, nums, host, o, id, rest)
  {
    var vs := [Object(es)] + rest;
    assert vs[0] == Object(es) && vs[1..] == rest;
  }

  /** A plain directive with the same object value returns that error instead. */
  lemma DirectiveKeepsNestedError(w: World, nums: Numerals, host: Host, o: ObjId, id: string, ctx: bool, es: seq<Entry>)
    requires Get(w, host, o, id).Fetched?
    requires BindEntries(Get(w, host, o, id).world, nums, host, Get(w, host, o, id).child, es).status.Error?
    ensures BindEntry(w, nums, host, o, Directive(id, ctx, Object(es)))
      == BindEntries(Get(w, host, o, id).world, nums, host, Get(w, host, o, id).child, es)
    ensures BindEntry(w, nums, host, o, Directive(id, ctx, Object(es))).status.Error?
  {
  }

  /** A nested panic under a repeated directive becomes the Recovered error, with
      the effects made before it kept. */
  lemma RepeatedRecoversNestedPanic(w: World, nums: Numerals, host: Host, o: ObjId, id: string, es: seq<Entry>, rest: seq<Value>)
    requires Get(w, host, o, id).Fetched?
    requires BindEntries(Get(w, host, o, id).world, nums, host, Get(w, host, o, id).child, es).status.Panic?
    ensures BindRepeated(w, nums, host, o, id, [Object(es)] + rest)
      == Step(BindEntries(Get(w, host, o, id).world, nums, host, Get(w, host, o, id).child, es).world, Error(Recovered))
  {
    var vs := [Object(es)] + rest;
    assert vs[0] == Object(es);
  }

  /** The context flag has no effect on binding. */
  lemma ContextFlagIgnored(w: World, nums: Numerals, host: Host, o: ObjId, e: Entry)
    requires !e.Whitespace?
    ensures BindEntry(w, nums, host, o, e.(isContext := true)) == BindEntry(w, nums, host, o, e.(isContext := false))
  {
  }

  // ---------------------------------------------------------------------
  // set

  /** A set that does not succeed leaves the target as it was. */
  lemma SetFailureChangesNothing(w: World, nums: Numerals, host: Host, o: ObjId, name: string, text: string)
    ensures !SetMember(w, nums, host, o, name, text).status.Done? ==> SetMember(w, nums, host, o, name, text).world == w
  {
  }

  /** With a method of that name, set calls it and ignores any field: it succeeds
      exactly when the method takes one parameter of a supported kind and the text
      converts to that kind, and then its one effect is that call, with what the
      host's method does; otherwise nothing changes. */
  lemma SetPrefersMethod(w: World, nums: Numerals, host: Host, o: ObjId, name: string, text: string)
    requires name in Lookup(w, o).methods
    ensures var m := Lookup(w, o).methods[name];
      var r := SetMember(w, nums, host, o, name, text);
      (r.status.Done? <==> |m.params| == 1 && m.params[0] != KOther && Coerce(nums, m.params[0], text).Some?)
      && (r.status.Done? ==> r.world == Invoke(w, host, Call(o, name, [Coerce(nums, m.params[0], text).value])))
      && (!r.status.Done? ==> r.world == w)
      && (r.status.Error? <==>
           |m.params| >= 1 && m.params[0] != KOther && Coerce(nums, m.params[0], text).None?)
      && (r.status.Error? ==> r.status.error == BadMethodArgument(name, text))
  {
  }

  /** Without a method, set assigns the field of that name and nothing else; the
      log is untouched. */
  lemma SetFieldOnly(w: World, nums: Numerals, host: Host, o: ObjId, name: string, text: string)
    requires name !in Lookup(w, o).methods && name in Lookup(w, o).fields
    requires SetMember(w, nums, host, o, name, text).status.Done?
    ensures var r := SetMember(w, nums, host, o, name, text);
      var f := Lookup(w, o).fields[name];
      f.ScalarSlot? && f.kind != KOther && Coerce(nums, f.kind, text).Some?
      && r.world.log == w.log
      && Lookup(r.world, o).fields[name] == ScalarSlot(f.kind, Coerce(nums, f.kind, text).value)
      && Lookup(r.world, o).methods == Lookup(w, o).methods
      && (forall n :: n in Lookup(w, o).fields && n != name ==>
            n in Lookup(r.world, o).fields && Lookup(r.world, o).fields[n] == Lookup(w, o).fields[n])
      && Lookup(r.world, o).fields.Keys == Lookup(w, o).fields.Keys
      && (forall p :: p != o ==> Lookup(r.world, p) == Lookup(w, p))
  {
  }

  /** A field whose text does not convert gives the field error. */
  lemma SetFieldBadText(w: World, nums: Numerals, host: Host, o: ObjId, name: string, text: string)
    requires name !in Lookup(w, o).methods && name in Lookup(w, o).fields
    requires Lookup(w, o).fields[name].ScalarSlot? && Lookup(w, o).fields[name].kind != KOther
    requires Coerce(nums, Lookup(w, o).fields[name].kind, text).None?
    ensures SetMember(w, nums, host, o, name, text) == Step(w, Error(BadFieldValue(name, text)))
  {
  }

  /** A name that is neither a method nor a field is an error and changes nothing. */
  lemma SetMissingName(w: World, nums: Numerals, host: Host, o: ObjId, name: string, text: string)
    ensures SetMember(w, nums, host, o, name, text).status == Error(Missing(name)) <==>
      name !in Lookup(w, o).methods && name !in Lookup(w, o).fields
  {
  }

  // ---------------------------------------------------------------------
  // get

  /** get calls the getter when there is a method of the name taking no
      parameters, and then its effect is that one call: the world the host's
      method leaves, with the call logged, and the child it returns when it
      returns a value (a method returning nothing panics after the call).
      In every other case get changes nothing. */
  lemma GetMakesOneCall(w: World, host: Host, o: ObjId, name: string)
    ensures var r := Get(w, host, o, name);
      var c := Call(o, name, []);
      if name in Lookup(w, o).methods && Lookup(w, o).methods[name].params == [] then
        r.world == Invoke(w, host, c)
        && (r.Fetched? <==> Lookup(w, o).methods[name].hasResult)
        && (r.Fetched? ==> r.child == host.result(w, c))
        && (r.Stopped? ==> r.status == Panic)
      else r.world == w
  {
  }

  /** With a method of that name, the corrected get is get as written. */
  lemma GetAgreesOnMethods(w: World, host: Host, o: ObjId, name: string)
    requires name in Lookup(w, o).methods
    ensures Get(w, host, o, name) == GetAsWritten(w, host, o, name)
  {
  }

  /** As written, get panics for every name that is not a method, whatever the
      fields: the pointer-field branch cannot be reached. */
  lemma GetAsWrittenIgnoresFields(w: World, host: Host, o: ObjId, name: string)
    requires name !in Lookup(w, o).methods
    ensures GetAsWritten(w, host, o, name) == Stopped(w, Panic)
  {
  }

  /** The input that shows it: target 0 has only a non-nil pointer field `child`. */
  lemma GetAsWrittenPanicsOnChildField(host: Host)
    ensures var w := World(map[0 := Obj(map[], map["child" := ChildSlot(Some(1))])], []);
      GetAsWritten(w, host, 0, "child") == Stopped(w, Panic) && Get(w, host, 0, "child") == Fetched(w, 1)
  {
  }

  /** The corrected get binds into a non-nil pointer field and reports a nil one or
      an unknown name as missing. */
  lemma GetUsesChildField(w: World, host: Host, o: ObjId, name: string)
    requires name !in Lookup(w, o).methods
    ensures (name in Lookup(w, o).fields && Lookup(w, o).fields[name].ChildSlot?
             && Lookup(w, o).fields[name].child.Some?) ==>
      Get(w, host, o, name) == Fetched(w, Lookup(w, o).fields[name].child.value)
    ensures Get(w, host, o, name) == Stopped(w, Error(Missing(name))) <==>
      name !in Lookup(w, o).fields || Lookup(w, o).fields[name] == ChildSlot(None)
  {
  }

  // ---------------------------------------------------------------------
  // Factory getters

  /** The values of a repeated directive that are objects are each bound into the
      child that their own call of the getter returns: the second block's getter
      is called on the world the first block left, and so can hand back another
      child. */
  lemma RepeatedObjectsGetOwnChildren(w: World, nums: Numerals, host: Host, o: ObjId, id: string,
                                      a: seq<Entry>, b: seq<Entry>)
    requires id in Lookup(w, o).methods && Lookup(w, o).methods[id] == MethodCap([], true)
    ensures var c := Call(o, id, []);
      var r1 := BindEntries(Invoke(w, host, c), nums, host, host.result(w, c), a);
      !r1.status.Panic? && !r1.status.Exit?
      && id in Lookup(r1.world, o).methods && Lookup(r1.world, o).methods[id] == MethodCap([], true) ==>
        BindRepeated(w, nums, host, o, id, [Object(a), Object(b)])
        == (var r2 := BindEntries(Invoke(r1.world, host, c), nums, host, host.result(r1.world, c), b);
            if r2.status.Panic? then Step(r2.world, Error(Recovered))
            else if r2.status.Exit? then r2
            else Step(r2.world, Done))
  {
    var c := Call(o, id, []);
    var vs := [Object(a), Object(b)];
    assert vs[0] == Object(a) && vs[1..] == [Object(b)];
    assert [Object(b)][0] == Object(b) && [Object(b)][1..] == [];
    var r1 := BindEntries(Invoke(w, host, c), nums, host, host.result(w, c), a);
    assert Get(w, host, o, id) == Fetched(Invoke(w, host, c), host.result(w, c));
    if !r1.status.Panic? && !r1.status.Exit?
      && id in Lookup(r1.world, o).methods && Lookup(r1.world, o).methods[id] == MethodCap([], true) {
      assert BindRepeated(w, nums, host, o, id, vs) == BindRepeated(r1.world, nums, host, o, id, [Object(b)]);
      assert Get(r1.world, host, o, id) == Fetched(Invoke(r1.world, host, c), host.result(r1.world, c));
    }
  }

  /** A target 0 whose method `note` makes a new child with a float field
      `pitch` on each call, and returns it. */
  function NoteFactory(): Host
  {
    Host((w: World, c: Call) => if c.name == "note" then w.objs[|w.log| + 1 := PitchHolder()] else w.objs,
         (w: World, c: Call) => |w.log| + 1)
  }

  function PitchHolder(): Obj
  {
    Obj(map[], map["pitch" := ScalarSlot(KFloat, SFloat(0.0))])
  }

  function Composer(): World
  {
    World(map[0 := Obj(map["note" := MethodCap([], true)], map[])], [])
  }

  /** `[note {pitch 1.0} {pitch 2.0}]` on that target makes two notes, the first
      with pitch 1.0 and the second with pitch 2.0, and calls `note` twice. */
  lemma FactoryBindsEachBlock(nums: Numerals)
    requires nums.parseFloat("1.0") == Some(1.0) && nums.parseFloat("2.0") == Some(2.0)
    ensures var r := BindEntry(Composer(), nums, NoteFactory(), 0,
      RepeatedDirective("note", false, [Object([Directive("pitch", false, Number("1.0"))]),
                                        Object([Directive("pitch", false, Number("2.0"))])]));
      r.status == Done
      && r.world.log == [Call(0, "note", []), Call(0, "note", [])]
      && Lookup(r.world, 1).fields == map["pitch" := ScalarSlot(KFloat, SFloat(1.0))]
      && Lookup(r.world, 2).fields == map["pitch" := ScalarSlot(KFloat, SFloat(2.0))]
  {
    var h, c := NoteFactory(), Call(0, "note", []);
    var e1, e2 := Directive("pitch", false, Number("1.0")), Directive("pitch", false, Number("2.0"));
    var w0 := Composer();
    FactoryCall(w0);
    var w1 := Invoke(w0, h, c);
    var r1 := PitchStep(w1, nums, h, 1, e1, 1.0);
    FactoryCall(r1.world);
    var w2 := Invoke(r1.world, h, c);
    var r2 := PitchStep(w2, nums, h, 2, e2, 2.0);
    assert Lookup(r1.world, 0) == Lookup(w0, 0);
    RepeatedObjectsGetOwnChildren(w0, nums, h, 0, "note", [e1], [e2]);
    var vs := [Object([e1]), Object([e2])];
    assert BindRepeated(w0, nums, h, 0, "note", vs) == Step(r2.world, Done);
    assert BindEntry(w0, nums, h, 0, RepeatedDirective("note", false, vs)) == Step(r2.world, Done);
    assert r2.world.log == [c, c];
    assert r2.world.objs[1] == r1.world.objs[1] == Obj(map[], map["pitch" := ScalarSlot(KFloat, SFloat(1.0))]);
    assert r2.world.objs[2] == Obj(map[], map["pitch" := ScalarSlot(KFloat, SFloat(2.0))]);
  }

  /** A call of `note` adds a fresh note under the next free number and returns it. */
  lemma FactoryCall(w: World)
    ensures var c := Call(0, "note", []);
      Invoke(w, NoteFactory(), c) == World(w.objs[|w.log| + 1 := PitchHolder()], w.log + [c])
      && NoteFactory().result(w, c) == |w.log| + 1
  {
  }

  /** Binding `{pitch t}` into a fresh note sets its pitch and nothing else. */
  lemma PitchStep(w: World, nums: Numerals, host: Host, n: ObjId, e: Entry, p: real) returns (r: Step)
    requires n in w.objs && w.objs[n] == PitchHolder()
    requires e.Directive? && e.identifier == "pitch" && e.value.Number?
    requires nums.parseFloat(e.value.value) == Some(p)
    ensures r == BindEntries(w, nums, host, n, [e]) && r.status == Done && r.world.log == w.log
    ensures r.world.objs == w.objs[n := Obj(map[], map["pitch" := ScalarSlot(KFloat, SFloat(p))])]
  {
    r := BindEntries(w, nums, host, n, [e]);
    assert [e][1..] == [];
    assert PitchHolder().fields["pitch" := ScalarSlot(KFloat, SFloat(p))] == map["pitch" := ScalarSlot(KFloat, SFloat(p))];
  }
}
