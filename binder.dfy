/**
 * The Execute methods and get/set of ast/ast.go on a mutable target table. Each
 * method changes `world` as the reflective Go code changes the target, and is
 * proved to compute the function of module Bind with the same role.
 */
module Binding {
  import opened Base
  import opened Ast
  import opened Bind

  class Binder {
    var world: World
    const nums: Numerals
    const host: Host

    constructor(world: World, nums: Numerals, host: Host)
      ensures this.world == world && this.nums == nums && this.host == host
    {
      this.world := world;
      this.nums := nums;
      this.host := host;
    }

    /** set (ast/ast.go:665-717). */
    method Set(o: ObjId, name: string, text: string) returns (st: Status)
      modifies this
      ensures Step(world, st) == SetMember(old(world), nums, host, o, name, text)
    {
      var ob := Lookup(world, o);
      if name in ob.methods {
        var m := ob.methods[name];
        if m.params == [] {
          return Panic;
        }
        if m.params[0] == KOther {
          return Exit;
        }
        var arg := Coerce(nums, m.params[0], text);
        if arg.None? {
          return Error(BadMethodArgument(name, text));
        }
        if |m.params| != 1 {
          return Panic;
        }
        world := Invoke(world, host, Call(o, name, [arg.value]));
        return Done;
      }
      if name in ob.fields {
        var f := ob.fields[name];
        if f.ChildSlot? || f.kind == KOther {
          return Exit;
        }
        var v := Coerce(nums, f.kind, text);
        if v.None? {
          return Error(BadFieldValue(name, text));
        }
        world := world.(objs := world.objs[o := ob.(fields := ob.fields[name := ScalarSlot(f.kind, v.value)])]);
        return Done;
      }
      return Error(Missing(name));
    }

    /** get (ast/ast.go:649-663), with the field fallback it evidently intends. */
    method Get(o: ObjId, name: string) returns (r: Fetch)
      modifies this
      ensures r == Bind.Get(old(world), host, o, name) && world == r.world
    {
      var ob := Lookup(world, o);
      if name in ob.methods {
        var m := ob.methods[name];
        if m.params != [] {
          return Stopped(world, Panic);
        }
        var c := Call(o, name, []);
        var child := host.result(world, c);
        world := Invoke(world, host, c);
        if !m.hasResult {
          return Stopped(world, Panic);
        }
        return Fetched(world, child);
      }
      if name in ob.fields {
        var f := ob.fields[name];
        if f.ScalarSlot? {
          return Stopped(world, Panic);
        }
        if f.child.None? {
          return Stopped(world, Error(Missing(name)));
        }
        return Fetched(world, f.child.value);
      }
      return Stopped(world, Error(Missing(name)));
    }

    /** Document.Execute and Object.Execute (ast/ast.go:109-117, 196-204). */
    method ExecuteEntries(o: ObjId, es: seq<Entry>) returns (st: Status)
      modifies this
      ensures Step(world, st) == BindEntries(old(world), nums, host, o, es)
      decreases es
    {
      var i := 0;
      while i < |es|
        invariant 0 <= i <= |es|
        invariant BindEntries(old(world), nums, host, o, es) == BindEntries(world, nums, host, o, es[i..])
        decreases |es| - i
      {
        assert es[i..][0] == es[i] && es[i..][1..] == es[i + 1..];
        var s := ExecuteEntry(o, es[i]);
        if !s.Done? {
          return s;
        }
        i := i + 1;
      }
      return Done;
    }

    /** Whitespace.Execute and Directive.Execute (ast/ast.go:70-72, 175-191), and the
        dispatch to RepeatedDirective.Execute. */
    method ExecuteEntry(o: ObjId, e: Entry) returns (st: Status)
      modifies this
      ensures Step(world, st) == BindEntry(old(world), nums, host, o, e)
      decreases e
    {
      match e
      case Whitespace =>
        return Done;
      case Directive(id, _, v) =>
        if v.Object? {
          var y := Get(o, id);
          if y.Stopped? {
            return y.status;
          }
          st := ExecuteEntries(y.child, v.entries);
        } else {
          st := Set(o, id, v.value);
        }
      case RepeatedDirective(id, _, vs) =>
        st := ExecuteRepeated(o, id, vs);
    }

    /** RepeatedDirective.Execute (ast/ast.go:213-249). */
    method ExecuteRepeated(o: ObjId, id: string, vs: seq<Value>) returns (st: Status)
      modifies this
      ensures Step(world, st) == BindRepeated(old(world), nums, host, o, id, vs)
      decreases vs
    {
      var i := 0;
      while i < |vs|
        invariant 0 <= i <= |vs|
        invariant BindRepeated(old(world), nums, host, o, id, vs) == BindRepeated(world, nums, host, o, id, vs[i..])
        decreases |vs| - i
      {
        var v := vs[i];
        assert vs[i..][0] == v && vs[i..][1..] == vs[i + 1..];
        if v.Object? {
          var y := Get(o, id);
          if y.Stopped? {
            return Recover(y.status);
          }
          var nested := ExecuteEntries(y.child, v.entries);
          if nested.Panic? {
            return Error(Recovered);
          }
          if nested.Exit? {
            return Exit;
          }
        } else {
          var s := Set(o, id, v.value);
          if !s.Done? {
            return Recover(s);
          }
        }
        i := i + 1;
      }
      return Done;
    }

    /** Document.Execute on the target `root`, as directive.Execute runs it. */
    method ExecuteDocument(root: ObjId, d: Document) returns (st: Status)
      modifies this
      ensures Step(world, st) == BindDocument(old(world), nums, host, root, d)
    {
      st := ExecuteEntries(root, d.entries);
    }
  }
}
