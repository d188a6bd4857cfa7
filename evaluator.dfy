/**
 * The Evaluate methods of eval/node.go and Eval of eval/eval.go:16-22, with
 * their loops. Each is proved to compute the function of module EvalSemantics
 * with the same role.
 */
module Evaluator {
  import opened Base
  import opened Tokens
  import opened EvalSyntax
  import opened EvalParser
  import opened EvalSemantics

  lemma {:induction false} CrossLength(minus: bool, left: seq<real>, right: seq<real>)
    ensures |Cross(minus, left, right)| == |left| * |right|
    decreases |left|
  {
    if left != [] {
      var n := |left| - 1;
      CrossLength(minus, left[..n], right);
      assert |Row(minus, left[n], right)| == |right|;
      MulSucc(n, |right|);
    }
  }

  lemma MulSucc(n: nat, m: nat)
    ensures (n + 1) * m == n * m + m
  {
  }

  lemma MulMono(a: nat, b: nat, n: nat)
    requires a <= b
    ensures a * n <= b * n
  {
  }

  /** The inner loop of the + and - cases: x combined with every right value,
      written from index i on. */
  method FillRow(a: array<real>, i: nat, minus: bool, x: real, right: seq<real>)
    requires i + |right| <= a.Length
    modifies a
    ensures a[..i + |right|] == old(a[..i]) + Row(minus, x, right)
  {
    ghost var front := a[..i];
    for yi := 0 to |right|
      invariant a[..i + yi] == front + Row(minus, x, right)[..yi]
    {
      a[i + yi] := Pair(minus, x, right[yi]);
      assert a[..i + yi + 1] == a[..i + yi] + [a[i + yi]];
      assert Row(minus, x, right)[..yi + 1] == Row(minus, x, right)[..yi] + [Pair(minus, x, right[yi])];
    }
    assert Row(minus, x, right)[..|right|] == Row(minus, x, right);
  }

  /** The + and - cases (eval/node.go:38-57): a buffer of |left|·|right| values
      filled with an index that runs over left outer and right inner. */
  method CrossInto(minus: bool, left: seq<real>, right: seq<real>) returns (out: seq<real>)
    ensures out == Cross(minus, left, right)
  {
    CrossLength(minus, left, right);
    var a := new real[|left| * |right|];
    var i := 0;
    for xi := 0 to |left|
      invariant |Cross(minus, left[..xi], right)| == i <= a.Length
      invariant a[..i] == Cross(minus, left[..xi], right)
    {
      assert left[..xi + 1][..xi] == left[..xi];
      CrossLength(minus, left[..xi + 1], right);
      MulMono(xi + 1, |left|, |right|);
      FillRow(a, i, minus, left[xi], right);
      i := i + |right|;
    }
    assert left[..|left|] == left;
    return a[..];
  }

  /** The % case (eval/node.go:58-73), once the right operand has its three values,
      there is a left value and the step is positive. */
  method RangeLoops(left: seq<real>, mod: real, min: real, max: real) returns (out: seq<real>)
    requires mod > 0.0
    ensures out == RangeAll(left, mod, min, max)
  {
    out := [];
    for k := 0 to |left|
      invariant out == RangeAll(left[..k], mod, min, max)
    {
      assert left[..k + 1][..k] == left[..k];
      var v := left[k];
      while v >= min
        invariant Down(v, mod, min) == Down(left[k], mod, min)
        decreases if v >= min then (v - min) / mod + 1.0 else 0.0
      {
        DivStep(v - min, mod);
        v := v - mod;
      }
      while v < min
        invariant Up(v, mod, min) == Normalize(left[k], mod, min)
        decreases if v < min then (min - v) / mod + 1.0 else 0.0
      {
        DivStep(min - v, mod);
        v := v + mod;
      }
      while v < max
        invariant RangeAll(left[..k + 1], mod, min, max) == out + Steps(v, mod, max)
        decreases if v < max then (max - v) / mod + 1.0 else 0.0
      {
        DivStep(max - v, mod);
        out := out + [v];
        v := v + mod;
      }
    }
    assert left[..|left|] == left;
  }

  /** The % case with its index and step checks. */
  method RangeGenerate(left: seq<real>, right: seq<real>) returns (r: Result<seq<real>, Fault>)
    ensures r == ModRange(left, right)
  {
    if |right| < 3 {
      return Err(IndexOutOfRange);
    }
    var mod, min, max := right[0], right[1], right[2];
    if left == [] {
      return Ok([]);
    }
    if mod <= 0.0 {
      return Err(Diverges);
    }
    var out := RangeLoops(left, mod, min, max);
    return Ok(out);
  }

  /** int(count) for a float: truncation toward zero. */
  function Trunc(c: real): (n: int)
    ensures c >= 0.0 ==> 0 <= n && n as real <= c < n as real + 1.0
    ensures c < 0.0 ==> n <= 0 && n as real - 1.0 < c <= n as real
  {
    if c >= 0.0 then c.Floor else -((-c).Floor)
  }

  /** The * case (eval/node.go:74-82). */
  method RepeatEach(left: seq<real>, right: seq<real>) returns (out: seq<real>)
    ensures out == RepeatAll(left, right)
  {
    out := [];
    for ci := 0 to |right|
      invariant out == RepeatAll(left, right[..ci])
    {
      assert right[..ci + 1][..ci] == right[..ci];
      var count := right[ci];
      var n := Trunc(count);
      assert Reps(count) == if n > 0 then n else 0;
      for xi := 0 to |left|
        invariant out == RepeatAll(left, right[..ci]) + RepeatRow(left[..xi], Reps(count))
      {
        assert left[..xi + 1][..xi] == left[..xi];
        var x := left[xi];
        ghost var base := out;
        var i := 0;
        while i < n
          invariant 0 <= i && (i <= n || i == 0)
          invariant out == base + Repeat(x, i)
          decreases n - i
        {
          assert Repeat(x, i + 1) == Repeat(x, i) + [x];
          out := out + [x];
          i := i + 1;
        }
        assert i == Reps(count);
      }
      assert left[..|left|] == left;
    }
    assert right[..|right|] == right;
  }

  lemma {:induction false} ListPrefixFails(num: string -> real, ns: seq<Node>, k: nat)
    requires k <= |ns| && EvalList(num, ns[..k]).Err?
    ensures EvalList(num, ns) == EvalList(num, ns[..k])
    decreases |ns|
  {
    if k == |ns| {
      assert ns[..k] == ns;
    } else {
      assert ns[..|ns| - 1][..k] == ns[..k];
      ListPrefixFails(num, ns[..|ns| - 1], k);
    }
  }

  /** Evaluate, dispatched on the kind of node. */
  method Evaluate(num: string -> real, n: Node) returns (r: Result<seq<real>, Fault>)
    ensures r == EvalNode(num, n)
    decreases n
  {
    match n
    case Token(t) =>
      return Ok([num(t)]);
    case Value(t) =>
      var x := ValueOf(num, t);
      if x.Err? {
        return Err(x.error);
      }
      return Ok([x.value]);
    case Group(c) =>
      r := Evaluate(num, c);
    case Operator(op, l, rhs) =>
      var left := Evaluate(num, l);
      if left.Err? {
        return Err(left.error);
      }
      var right := Evaluate(num, rhs);
      if right.Err? {
        return Err(right.error);
      }
      if op == "+" {
        var out := CrossInto(false, left.value, right.value);
        return Ok(out);
      } else if op == "-" {
        var out := CrossInto(true, left.value, right.value);
        return Ok(out);
      } else if op == "%" {
        r := RangeGenerate(left.value, right.value);
      } else if op == "*" {
        var out := RepeatEach(left.value, right.value);
        return Ok(out);
      } else {
        return Err(Unsupported(op));
      }
    case List(ns) =>
      var out: seq<real> := [];
      for k := 0 to |ns|
        invariant EvalList(num, ns[..k]) == Ok(out)
      {
        assert ns[..k + 1][..k] == ns[..k];
        var e := Evaluate(num, ns[k]);
        if e.Err? {
          ListPrefixFails(num, ns, k + 1);
          return Err(e.error);
        }
        out := out + e.value;
      }
      assert ns[..|ns|] == ns;
      return Ok(out);
  }

  /** Eval (eval/eval.go:16-22). */
  method Eval(num: string -> real, order: Order, s: string) returns (r: Result<seq<real>, Fault>)
    ensures r == EvalText(num, order, s)
  {
    var tkns := Tokenize(s);
    var p := new Parser(tkns);
    var tree := p.Parse(order);
    if tree.Err? {
      return Err(tree.error);
    }
    r := Evaluate(num, tree.value);
  }
}
