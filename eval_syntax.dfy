/**
 * The syntax tree of the pattern-expression evaluator (eval/node.go) and what
 * the parser of eval/eval.go:49-136 builds from a token sequence, as pure
 * functions. The imperative parser of module EvalParser is proved to compute
 * them.
 */
module EvalSyntax {
  import opened Base

  /** Why an evaluation stops. Every one of these is a Go panic (or, for
      Diverges, a loop that never ends) that ends Eval. */
  datatype Fault =
    | OutOfTokens            // parseAny on no tokens (eval/eval.go:113-114)
    | IndexOutOfRange        // p.tkns[0] or right[k] past the end
    | Expected(s: string)    // mustParse on another token (eval/eval.go:106-108)
    | Unsupported(op: string) // an operator Evaluate has no case for (eval/node.go:85)
    | Diverges               // the normalising loops of % with a step <= 0
    | NonFinite              // a fraction with denominator 0: Go yields Inf or NaN

  /** The Node interface and its implementations. A Token is what the parser
      collects; compact turns each remaining token into a Value. */
  datatype Node =
    | Token(t: string)
    | Value(tok: string)
    | Group(child: Node)
    | Operator(op: string, lhs: Node, rhs: Node)
    | List(nums: seq<Node>)

  /** The precedence table `order`: levels of operator tokens, tried in turn. */
  type Order = seq<set<string>>

  /** What the parser hands to compact: tokens and groups only. */
  predicate IsItem(n: Node)
  {
    n.Token? || n.Group?
  }

  predicate AllItems(ns: seq<Node>)
  {
    forall k :: 0 <= k < |ns| ==> IsItem(ns[k])
  }

  /** n is a token of the level ops (eval/eval.go:75-81). */
  predicate IsOp(ops: set<string>, n: Node)
  {
    n.Token? && n.t in ops
  }

  /** The leftmost token of level ops in ns, from i on. */
  function SplitAt(ops: set<string>, ns: seq<Node>, i: nat): (r: Option<nat>)
    requires i <= |ns|
    ensures r.Some? ==> (i <= r.value < |ns| && IsOp(ops, ns[r.value])
      && forall k :: i <= k < r.value ==> !IsOp(ops, ns[k]))
    ensures r.None? ==> forall k :: i <= k < |ns| ==> !IsOp(ops, ns[k])
    decreases |ns| - i
  {
    if i == |ns| then None
    else if IsOp(ops, ns[i]) then Some(i)
    else SplitAt(ops, ns, i + 1)
  }

  /** The level and index compact splits at: the first level of `order` (from
      `lv` on) with a token in ns, and its leftmost such token. */
  function Split(order: Order, lv: nat, ns: seq<Node>): (r: Option<(nat, nat)>)
    requires lv <= |order|
    ensures r.Some? ==> (lv <= r.value.0 < |order| && r.value.1 < |ns|
      && IsOp(order[r.value.0], ns[r.value.1])
      && (forall k :: 0 <= k < r.value.1 ==> !IsOp(order[r.value.0], ns[k]))
      && (forall l, k :: lv <= l < r.value.0 && 0 <= k < |ns| ==> !IsOp(order[l], ns[k])))
    ensures r.None? ==> forall l, k :: lv <= l < |order| && 0 <= k < |ns| ==> !IsOp(order[l], ns[k])
    decreases |order| - lv
  {
    if lv == |order| then None
    else
      match SplitAt(order[lv], ns, 0)
      case Some(i) => Some((lv, i))
      case None => Split(order, lv + 1, ns)
  }

  /** The entry compact puts in its List for an item (eval/eval.go:94-101). */
  function Leaf(n: Node): Node
  {
    if n.Token? then Value(n.t) else n
  }

  /** compact (eval/eval.go:72-103). */
  function Compact(order: Order, ns: seq<Node>): (r: Node)
    ensures r.List? || r.Operator?
    ensures r.Operator? ==> Token(r.op) in ns
    decreases |ns|
  {
    match Split(order, 0, ns)
    case Some((_, i)) => Operator(ns[i].t, Compact(order, ns[..i]), Compact(order, ns[i + 1..]))
    case None => List(seq(|ns|, k requires 0 <= k < |ns| => Leaf(ns[k])))
  }

  /** The index of the first `)` from i on. */
  function FindClose(ts: seq<string>, i: nat): (r: Option<nat>)
    requires i <= |ts|
    ensures r.Some? ==> i <= r.value < |ts| && ts[r.value] == ")" && ")" !in ts[i..r.value]
    ensures r.None? ==> ")" !in ts[i..]
    decreases |ts| - i
  {
    if i == |ts| then None
    else if ts[i] == ")" then Some(i)
    else
      var r := FindClose(ts, i + 1);
      assert r.Some? ==> ts[i..r.value] == [ts[i]] + ts[i + 1..r.value];
      assert ts[i..] == [ts[i]] + ts[i + 1..];
      r
  }

  /** A group and the tokens after its `)`. */
  datatype Cut = Cut(node: Node, rest: seq<string>)

  /** Parser.Parse (eval/eval.go:53-70): the items, then compact. */
  function ParseTokens(order: Order, ts: seq<string>): Result<Node, Fault>
    decreases |ts|, 2
  {
    match ParseItems(order, ts)
    case Err(e) => Err(e)
    case Ok(nodes) => Ok(Compact(order, nodes))
  }

  /** The loop of Parser.Parse: a group at each `(`, a token otherwise. */
  function ParseItems(order: Order, ts: seq<string>): (r: Result<seq<Node>, Fault>)
    ensures r.Ok? ==> |r.value| <= |ts| && (r.value == [] <==> ts == [])
    decreases |ts|, 1
  {
    if ts == [] then Ok([])
    else if ts[0] == "(" then
      match GroupCut(order, ts)
      case Err(e) => Err(e)
      case Ok(c) =>
        match ParseItems(order, c.rest)
        case Err(e) => Err(e)
        case Ok(nodes) => Ok([c.node] + nodes)
    else
      match ParseItems(order, ts[1..])
      case Err(e) => Err(e)
      case Ok(nodes) => Ok([Token(ts[0])] + nodes)
  }

  /** parseGroup (eval/eval.go:121-136): `(`, the tokens before the first `)`,
      parsed on their own, then `)`. Running out before a `)` is the index
      panic of eval/eval.go:126. */
  function GroupCut(order: Order, ts: seq<string>): (r: Result<Cut, Fault>)
    ensures r.Ok? ==> |r.value.rest| < |ts| && r.value.rest == ts[|ts| - |r.value.rest|..]
    decreases |ts|, 0
  {
    if ts == [] then Err(IndexOutOfRange)
    else if ts[0] != "(" then Err(Expected("("))
    else
      match FindClose(ts, 1)
      case None => Err(IndexOutOfRange)
      case Some(j) =>
        match ParseTokens(order, ts[1..j])
        case Err(e) => Err(e)
        case Ok(child) => Ok(Cut(Group(child), ts[j + 1..]))
  }

  // ---------------------------------------------------------------------
  // Reading a tree back as tokens

  /** The tokens a tree was built from, in order, parentheses included. */
  function Text(n: Node): seq<string>
    decreases n, 1
  {
    match n
    case Token(t) => [t]
    case Value(t) => [t]
    case Group(c) => ["("] + Text(c) + [")"]
    case Operator(op, l, r) => Text(l) + [op] + Text(r)
    case List(ms) => TextSeq(ms)
  }

  function TextSeq(ns: seq<Node>): seq<string>
    decreases ns, 0
  {
    if ns == [] then [] else Text(ns[0]) + TextSeq(ns[1..])
  }

  /** The items a compacted tree was built from, in order. */
  function Leaves(n: Node): seq<Node>
    decreases n, 1
  {
    match n
    case Token(t) => [n]
    case Value(t) => [Token(t)]
    case Group(_) => [n]
    case Operator(op, l, r) => Leaves(l) + [Token(op)] + Leaves(r)
    case List(ms) => LeavesSeq(ms)
  }

  function LeavesSeq(ns: seq<Node>): seq<Node>
    decreases ns, 0
  {
    if ns == [] then [] else Leaves(ns[0]) + LeavesSeq(ns[1..])
  }
}
