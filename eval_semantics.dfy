/**
 * What the Evaluate methods of eval/node.go compute, as functions over real
 * numbers. The methods of module Evaluator are proved to compute them; the
 * lemmas of module EvalProps say what they mean.
 *
 * strconv.ParseFloat is not part of this model: `num` stands for it with its
 * error dropped, as every caller here drops it. What it gives for text that is no
 * number is left open.
 */
module EvalSemantics {
  import opened Base
  import opened Tokens
  import opened EvalSyntax

  /** The index of the first c in s, as strings.Index finds it. */
  function FirstIndex(s: string, c: char): (r: Option<nat>)
    ensures r.Some? ==> r.value < |s| && s[r.value] == c && c !in s[..r.value]
    ensures r.None? ==> c !in s
  {
    if s == [] then None
    else if s[0] == c then Some(0)
    else
      var r := FirstIndex(s[1..], c);
      assert s == [s[0]] + s[1..];
      assert r.Some? ==> s[..r.value + 1] == [s[0]] + s[1..][..r.value];
      if r.Some? then Some(r.value + 1) else None
  }

  /** Value.Evaluate (eval/node.go:96-104): a token with a `/` is a quotient. */
  function ValueOf(num: string -> real, tok: string): (r: Result<real, Fault>)
    ensures r.Err? ==> r.error == NonFinite && '/' in tok
    ensures '/' !in tok ==> r == Ok(num(tok))
  {
    match FirstIndex(tok, '/')
    case Some(idx) =>
      var d := num(tok[idx + 1..]);
      if d == 0.0 then Err(NonFinite) else Ok(num(tok[..idx]) / d)
    case None => Ok(num(tok))
  }

  // ---------------------------------------------------------------------
  // + and - (eval/node.go:38-57)

  function Pair(minus: bool, x: real, y: real): real
  {
    if minus then x - y else x + y
  }

  /** x combined with every right value, in order. */
  function Row(minus: bool, x: real, right: seq<real>): seq<real>
  {
    seq(|right|, j requires 0 <= j < |right| => Pair(minus, x, right[j]))
  }

  /** The cross product, left values outer and right values inner. */
  function Cross(minus: bool, left: seq<real>, right: seq<real>): seq<real>
  {
    if left == [] then []
    else Cross(minus, left[..|left| - 1], right) + Row(minus, left[|left| - 1], right)
  }

  // ---------------------------------------------------------------------
  // % (eval/node.go:58-73)

  /** For m > 0, stepping a by m changes a/m by exactly 1. */
  lemma DivStep(a: real, m: real)
    requires m > 0.0
    ensures (a - m) / m == a / m - 1.0
    ensures (a + m) / m == a / m + 1.0
    ensures a >= 0.0 ==> a / m >= 0.0
  {
    var q := a / m;
    assert q * m == a;
    var x, y := (a - m) / m, (a + m) / m;
    assert x * m == a - m;
    assert (x - q + 1.0) * m == 0.0;
    ZeroProduct(x - q + 1.0, m);
    assert y * m == a + m;
    assert (y - q - 1.0) * m == 0.0;
    ZeroProduct(y - q - 1.0, m);
  }

  lemma ZeroProduct(z: real, m: real)
    requires m > 0.0 && z * m == 0.0
    ensures z == 0.0
  {
  }

  /** The loop `for v >= min { v -= mod }`. */
  function Down(v: real, mod: real, min: real): (r: real)
    requires mod > 0.0
    ensures r < min
    ensures v >= min ==> r >= min - mod
    ensures v < min ==> r == v
    decreases if v >= min then (v - min) / mod + 1.0 else 0.0
  {
    if v >= min then
      DivStep(v - min, mod);
      Down(v - mod, mod, min)
    else v
  }

  /** The loop `for v < min { v += mod }`. */
  function Up(v: real, mod: real, min: real): (r: real)
    requires mod > 0.0
    ensures r >= min
    ensures v < min ==> r < min + mod
    ensures v >= min ==> r == v
    decreases if v < min then (min - v) / mod + 1.0 else 0.0
  {
    if v < min then
      DivStep(min - v, mod);
      Up(v + mod, mod, min)
    else v
  }

  /** Where both normalising loops leave v. */
  function Normalize(v: real, mod: real, min: real): (r: real)
    requires mod > 0.0
    ensures min <= r < min + mod
  {
    Up(Down(v, mod, min), mod, min)
  }

  /** The loop `for ; v < max; v += mod`: v, v + mod, ... below max. */
  function Steps(v: real, mod: real, max: real): (r: seq<real>)
    requires mod > 0.0
    ensures r == [] <==> v >= max
    ensures forall k :: 0 <= k < |r| ==> v <= r[k] < max
    decreases if v < max then (max - v) / mod + 1.0 else 0.0
  {
    if v < max then
      DivStep(max - v, mod);
      [v] + Steps(v + mod, mod, max)
    else []
  }

  /** Every left value normalised, then stepped up to max, in order. */
  function RangeAll(left: seq<real>, mod: real, min: real, max: real): seq<real>
    requires mod > 0.0
  {
    if left == [] then []
    else RangeAll(left[..|left| - 1], mod, min, max) + Steps(Normalize(left[|left| - 1], mod, min), mod, max)
  }

  /** % with right = [mod, min, max, ...]. Fewer than three right values is an
      index panic; a step of at most 0 makes the normalising loops run forever
      as soon as there is a left value. */
  function ModRange(left: seq<real>, right: seq<real>): Result<seq<real>, Fault>
  {
    if |right| < 3 then Err(IndexOutOfRange)
    else if left == [] then Ok([])
    else if right[0] <= 0.0 then Err(Diverges)
    else Ok(RangeAll(left, right[0], right[1], right[2]))
  }

  // ---------------------------------------------------------------------
  // * (eval/node.go:74-82)

  /** int(count) as the loop bound: truncation, and no repetition below 1. */
  function Reps(count: real): (n: nat)
    ensures count < 1.0 ==> n == 0
    ensures count >= 1.0 ==> n as real <= count < n as real + 1.0
  {
    if count > 0.0 then count.Floor else 0
  }

  function Repeat(x: real, n: nat): seq<real>
  {
    seq(n, _ => x)
  }

  /** Each left value n times in a row. */
  function RepeatRow(left: seq<real>, n: nat): seq<real>
  {
    if left == [] then []
    else RepeatRow(left[..|left| - 1], n) + Repeat(left[|left| - 1], n)
  }

  /** For each count in turn, each left value that many times. */
  function RepeatAll(left: seq<real>, right: seq<real>): seq<real>
  {
    if right == [] then []
    else RepeatAll(left, right[..|right| - 1]) + RepeatRow(left, Reps(right[|right| - 1]))
  }

  // ---------------------------------------------------------------------
  // Evaluate

  /** The switch of Operator.Evaluate (eval/node.go:37-85). */
  function Apply(op: string, left: seq<real>, right: seq<real>): Result<seq<real>, Fault>
  {
    if op == "+" then Ok(Cross(false, left, right))
    else if op == "-" then Ok(Cross(true, left, right))
    else if op == "%" then ModRange(left, right)
    else if op == "*" then Ok(RepeatAll(left, right))
    else Err(Unsupported(op))
  }

  /** Evaluate on every kind of node (eval/eval.go:11-14, eval/node.go:19-21,
      33-86, 96-104, 114-119); the left operand is evaluated before the right. */
  function EvalNode(num: string -> real, n: Node): Result<seq<real>, Fault>
    decreases n, 1
  {
    match n
    case Token(t) => Ok([num(t)])
    case Value(t) =>
      (match ValueOf(num, t)
       case Err(e) => Err(e)
       case Ok(x) => Ok([x]))
    case Group(c) => EvalNode(num, c)
    case Operator(op, l, r) =>
      (match EvalNode(num, l)
       case Err(e) => Err(e)
       case Ok(left) =>
         match EvalNode(num, r)
         case Err(e) => Err(e)
         case Ok(right) => Apply(op, left, right))
    case List(ns) => EvalList(num, ns)
  }

  /** List.Evaluate: the outputs of the elements, concatenated in order. */
  function EvalList(num: string -> real, ns: seq<Node>): Result<seq<real>, Fault>
    decreases ns, 0
  {
    if ns == [] then Ok([])
    else
      match EvalList(num, ns[..|ns| - 1])
      case Err(e) => Err(e)
      case Ok(front) =>
        match EvalNode(num, ns[|ns| - 1])
        case Err(e) => Err(e)
        case Ok(last) => Ok(front + last)
  }

  /** Eval (eval/eval.go:16-22): tokenize, parse, evaluate. */
  function EvalText(num: string -> real, order: Order, s: string): Result<seq<real>, Fault>
  {
    match ParseTokens(order, Tokenize(s))
    case Err(e) => Err(e)
    case Ok(n) => EvalNode(num, n)
  }
}
