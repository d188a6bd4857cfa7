/**
 * What compact and the token parser build: compact keeps its items in order and
 * splits at the leftmost operator of the first level that has one; a parse uses
 * every token, in order; and a parse fails exactly when some `(` is not closed
 * by a `)` before the next `(`.
 */
module EvalSyntaxProps {
  import opened Base
  import opened EvalSyntax

  lemma {:induction false} TextSeqConcat(a: seq<Node>, b: seq<Node>)
    ensures TextSeq(a + b) == TextSeq(a) + TextSeq(b)
    decreases |a|
  {
    if a == [] {
      assert a + b == b;
    } else {
      assert (a + b)[0] == a[0] && (a + b)[1..] == a[1..] + b;
      TextSeqConcat(a[1..], b);
    }
  }

  lemma {:induction false} LeavesOfItems(ns: seq<Node>)
    requires AllItems(ns)
    ensures LeavesSeq(seq(|ns|, k requires 0 <= k < |ns| => Leaf(ns[k]))) == ns
    decreases |ns|
  {
    if ns != [] {
      var ls := seq(|ns|, k requires 0 <= k < |ns| => Leaf(ns[k]));
      assert ls[1..] == seq(|ns[1..]|, k requires 0 <= k < |ns[1..]| => Leaf(ns[1..][k]));
      LeavesOfItems(ns[1..]);
      assert ns == [ns[0]] + ns[1..];
    }
  }

  lemma {:induction false} TextOfItems(ns: seq<Node>)
    ensures TextSeq(seq(|ns|, k requires 0 <= k < |ns| => Leaf(ns[k]))) == TextSeq(ns)
    decreases |ns|
  {
    if ns != [] {
      var ls := seq(|ns|, k requires 0 <= k < |ns| => Leaf(ns[k]));
      assert ls[1..] == seq(|ns[1..]|, k requires 0 <= k < |ns[1..]| => Leaf(ns[1..][k]));
      TextOfItems(ns[1..]);
    }
  }

  /** compact loses and reorders nothing: its tree's leaves are its items. */
  lemma {:induction false} CompactLeaves(order: Order, ns: seq<Node>)
    requires AllItems(ns)
    ensures Leaves(Compact(order, ns)) == ns
    decreases |ns|
  {
    match Split(order, 0, ns)
    case Some((_, i)) =>
      ItemsSlice(ns, 0, i);
      ItemsSlice(ns, i + 1, |ns|);
      assert ns[0..i] == ns[..i] && ns[i + 1..|ns|] == ns[i + 1..];
      CompactLeaves(order, ns[..i]);
      CompactLeaves(order, ns[i + 1..]);
      assert Compact(order, ns) == Operator(ns[i].t, Compact(order, ns[..i]), Compact(order, ns[i + 1..]));
      OperatorLeaves(ns, i, Compact(order, ns[..i]), Compact(order, ns[i + 1..]));
    case None =>
      LeavesOfItems(ns);
  }

  lemma OperatorLeaves(ns: seq<Node>, i: nat, a: Node, b: Node)
    requires i < |ns| && ns[i].Token? && Leaves(a) == ns[..i] && Leaves(b) == ns[i + 1..]
    ensures Leaves(Operator(ns[i].t, a, b)) == ns
  {
    assert Token(ns[i].t) == ns[i];
    assert ns == ns[..i] + [ns[i]] + ns[i + 1..];
  }

  lemma ItemsSlice(ns: seq<Node>, a: nat, b: nat)
    requires a <= b <= |ns| && AllItems(ns)
    ensures AllItems(ns[a..b])
  {
    forall k | 0 <= k < b - a ensures IsItem(ns[a..b][k]) {
      assert ns[a..b][k] == ns[a + k];
    }
  }

  /** The same, read as tokens. */
  lemma {:induction false} CompactText(order: Order, ns: seq<Node>)
    ensures Text(Compact(order, ns)) == TextSeq(ns)
    decreases |ns|
  {
    match Split(order, 0, ns)
    case Some((_, i)) =>
      CompactText(order, ns[..i]);
      CompactText(order, ns[i + 1..]);
      SplitText(ns, i);
    case None =>
      TextOfItems(ns);
  }

  lemma SplitText(ns: seq<Node>, i: nat)
    requires i < |ns| && ns[i].Token?
    ensures TextSeq(ns) == TextSeq(ns[..i]) + [ns[i].t] + TextSeq(ns[i + 1..])
  {
    var a, b := ns[..i], ns[i + 1..];
    var c := [ns[i]] + b;
    assert ns == a + c;
    TextSeqConcat(a, c);
    assert c[0] == ns[i] && c[1..] == b;
    assert TextSeq(c) == Text(ns[i]) + TextSeq(b);
    assert Text(ns[i]) == [ns[i].t];
  }

  /** compact builds a List exactly when no level has an operator among the items,
      and then has one entry per item: a Value for a token, the group itself. */
  lemma CompactList(order: Order, ns: seq<Node>)
    ensures Compact(order, ns).List? <==> forall l, k :: 0 <= l < |order| && 0 <= k < |ns| ==> !IsOp(order[l], ns[k])
    ensures Compact(order, ns).List? ==> (|Compact(order, ns).nums| == |ns|
      && forall k :: 0 <= k < |ns| ==> Compact(order, ns).nums[k] == (if ns[k].Token? then Value(ns[k].t) else ns[k]))
  {
    if Split(order, 0, ns).Some? {
      var (l, k) := Split(order, 0, ns).value;
      assert IsOp(order[l], ns[k]);
    }
  }

  /** An operator node splits at an operator of some level: no earlier level has
      an operator among the items, and its left side holds no operator of its own
      level, so the split is at the leftmost one. */
  lemma CompactOperator(order: Order, ns: seq<Node>)
    requires AllItems(ns)
    ensures var n := Compact(order, ns);
      n.Operator? ==> exists lv :: (0 <= lv < |order| && n.op in order[lv]
        && (forall k :: 0 <= k < |Leaves(n.lhs)| ==> !IsOp(order[lv], Leaves(n.lhs)[k]))
        && (forall l, k :: 0 <= l < lv && 0 <= k < |ns| ==> !IsOp(order[l], ns[k])))
  {
    var n := Compact(order, ns);
    if n.Operator? {
      var (lv, i) := Split(order, 0, ns).value;
      CompactLeaves(order, ns[..i]);
      assert Leaves(n.lhs) == ns[..i];
      assert n.op in order[lv];
    }
  }

  lemma AllItemsConcat(a: seq<Node>, b: seq<Node>)
    requires AllItems(a) && AllItems(b)
    ensures AllItems(a + b)
  {
  }

  // ---------------------------------------------------------------------
  // A parse uses every token, in order

  lemma {:induction false} TokensRoundTrip(order: Order, ts: seq<string>)
    ensures ParseTokens(order, ts).Ok? ==> Text(ParseTokens(order, ts).value) == ts
    decreases |ts|, 2
  {
    ItemsRoundTrip(order, ts);
    if ParseItems(order, ts).Ok? {
      CompactText(order, ParseItems(order, ts).value);
    }
  }

  lemma ConsItems(n: Node, more: seq<Node>)
    requires IsItem(n) && AllItems(more)
    ensures AllItems([n] + more) && TextSeq([n] + more) == Text(n) + TextSeq(more)
  {
    assert ([n] + more)[1..] == more;
  }

  lemma {:induction false} ItemsRoundTrip(order: Order, ts: seq<string>)
    ensures ParseItems(order, ts).Ok? ==>
      AllItems(ParseItems(order, ts).value) && TextSeq(ParseItems(order, ts).value) == ts
    decreases |ts|, 1
  {
    if ts != [] && ParseItems(order, ts).Ok? {
      var nodes := ParseItems(order, ts).value;
      if ts[0] == "(" {
        var c := GroupCut(order, ts).value;
        GroupRoundTrip(order, ts);
        ItemsRoundTrip(order, c.rest);
        var more := ParseItems(order, c.rest).value;
        assert nodes == [c.node] + more;
        ConsItems(c.node, more);
        assert ts == ts[..|ts| - |c.rest|] + c.rest;
      } else {
        ItemsRoundTrip(order, ts[1..]);
        var more := ParseItems(order, ts[1..]).value;
        assert nodes == [Token(ts[0])] + more;
        ConsItems(Token(ts[0]), more);
        assert ts == [ts[0]] + ts[1..];
      }
    }
  }

  lemma GroupText(ts: seq<string>, j: nat, child: Node)
    requires 0 < j < |ts| && ts[0] == "(" && ts[j] == ")" && Text(child) == ts[1..j]
    ensures Text(Group(child)) == ts[..j + 1]
  {
    assert ts[..j + 1] == ["("] + ts[1..j] + [")"];
  }

  lemma {:induction false} GroupRoundTrip(order: Order, ts: seq<string>)
    ensures GroupCut(order, ts).Ok? ==> (GroupCut(order, ts).value.node.Group?
      && Text(GroupCut(order, ts).value.node) == ts[..|ts| - |GroupCut(order, ts).value.rest|])
    decreases |ts|, 0
  {
    if GroupCut(order, ts).Ok? {
      var j := FindClose(ts, 1).value;
      TokensRoundTrip(order, ts[1..j]);
      GroupText(ts, j, ParseTokens(order, ts[1..j]).value);
    }
  }


  // ---------------------------------------------------------------------
  // When a parse fails

  /** The `(` at i is closed by a `)` that comes before any other `(`. */
  predicate ClosedAt(ts: seq<string>, i: nat)
    requires i < |ts|
  {
    exists j :: i < j < |ts| && ts[j] == ")" && "(" !in ts[i + 1..j]
  }

  /** Every `(` is closed before the next `(`: groups are flat and terminated. */
  predicate Balanced(ts: seq<string>)
  {
    forall i :: 0 <= i < |ts| && ts[i] == "(" ==> ClosedAt(ts, i)
  }

  lemma ClosedShift(ts: seq<string>, m: nat, i: nat)
    requires m <= i < |ts|
    ensures ClosedAt(ts, i) <==> ClosedAt(ts[m..], i - m)
  {
    var u := ts[m..];
    if ClosedAt(ts, i) {
      var j :| i < j < |ts| && ts[j] == ")" && "(" !in ts[i + 1..j];
      SuffixSlice(ts, m, i - m + 1, j - m);
      assert u[j - m] == ")";
    }
    if ClosedAt(u, i - m) {
      var j :| i - m < j < |u| && u[j] == ")" && "(" !in u[i - m + 1..j];
      SuffixSlice(ts, m, i - m + 1, j);
      assert ts[j + m] == ")";
    }
  }

  lemma SuffixSlice(ts: seq<string>, m: nat, a: nat, b: nat)
    requires m <= |ts| && a <= b <= |ts| - m
    ensures ts[m..][a..b] == ts[m + a..m + b]
  {
  }

  /** Balanced(ts[m..]) is Balanced(ts) for the positions from m on. */
  lemma BalancedSuffix(ts: seq<string>, m: nat)
    requires m <= |ts|
    ensures Balanced(ts[m..]) <==> forall i :: m <= i < |ts| && ts[i] == "(" ==> ClosedAt(ts, i)
  {
    var u := ts[m..];
    if Balanced(u) {
      forall i | m <= i < |ts| && ts[i] == "(" ensures ClosedAt(ts, i) {
        assert u[i - m] == "(";
        ClosedShift(ts, m, i);
      }
    }
    if forall i :: m <= i < |ts| && ts[i] == "(" ==> ClosedAt(ts, i) {
      forall i | 0 <= i < |u| && u[i] == "(" ensures ClosedAt(u, i) {
        assert ts[i + m] == "(";
        ClosedShift(ts, m, i + m);
      }
    }
  }

  /** Without any `)`, a sequence is balanced exactly when it has no `(`. */
  lemma NoCloseBalanced(ts: seq<string>)
    requires ")" !in ts
    ensures Balanced(ts) <==> "(" !in ts
  {
    if "(" in ts {
      var i :| 0 <= i < |ts| && ts[i] == "(";
      assert forall j :: 0 <= j < |ts| ==> ts[j] != ")" by {
        forall j | 0 <= j < |ts| ensures ts[j] != ")" { assert ts[j] in ts; }
      }
      assert !ClosedAt(ts, i);
    }
  }

  /** A leading `(` closed first at j: the tokens between hold no `(`, and what
      follows is balanced. */
  lemma BalancedGroup(ts: seq<string>, j: nat)
    requires 0 < j < |ts| && ts[0] == "(" && ts[j] == ")" && ")" !in ts[1..j]
    ensures Balanced(ts) <==> "(" !in ts[1..j] && Balanced(ts[j + 1..])
  {
    if Balanced(ts) {
      BalancedGroupThen(ts, j);
    }
    if "(" !in ts[1..j] && Balanced(ts[j + 1..]) {
      BalancedGroupFrom(ts, j);
    }
  }

  lemma BalancedGroupThen(ts: seq<string>, j: nat)
    requires 0 < j < |ts| && ts[0] == "(" && ts[j] == ")" && ")" !in ts[1..j]
    requires Balanced(ts)
    ensures "(" !in ts[1..j] && Balanced(ts[j + 1..])
  {
    BalancedSuffix(ts, j + 1);
    assert ClosedAt(ts, 0);
    assert forall k :: 0 < k < j ==> ts[k] != ")" by {
      forall k | 0 < k < j ensures ts[k] != ")" { assert ts[1..j][k - 1] == ts[k]; }
    }
    var j' :| 0 < j' < |ts| && ts[j'] == ")" && "(" !in ts[1..j'];
    if j < j' {
      assert "(" !in ts[1..j] by {
        forall k | 0 <= k < j - 1 ensures ts[1..j][k] != "(" {
          assert ts[1..j][k] == ts[1..j'][k];
        }
      }
    }
  }

  lemma BalancedGroupFrom(ts: seq<string>, j: nat)
    requires 0 < j < |ts| && ts[0] == "(" && ts[j] == ")" && ")" !in ts[1..j]
    requires "(" !in ts[1..j] && Balanced(ts[j + 1..])
    ensures Balanced(ts)
  {
    BalancedSuffix(ts, j + 1);
    assert forall k :: 0 < k < j ==> ts[k] != "(" by {
      forall k | 0 < k < j ensures ts[k] != "(" { assert ts[1..j][k - 1] == ts[k]; }
    }
    forall i | 0 <= i < |ts| && ts[i] == "(" ensures ClosedAt(ts, i) {
      if i == 0 {
        assert ClosedAt(ts, 0);
      }
    }
  }

  lemma SkipBalanced(ts: seq<string>)
    requires ts != [] && ts[0] != "("
    ensures Balanced(ts) <==> Balanced(ts[1..])
  {
    BalancedSuffix(ts, 1);
  }

  lemma {:induction false} TokensFailIff(order: Order, ts: seq<string>)
    ensures ParseTokens(order, ts).Ok? <==> Balanced(ts)
    ensures ParseTokens(order, ts).Err? ==> ParseTokens(order, ts).error == IndexOutOfRange
    decreases |ts|, 1
  {
    ItemsFailIff(order, ts);
  }

  lemma {:induction false} ItemsFailIff(order: Order, ts: seq<string>)
    ensures ParseItems(order, ts).Ok? <==> Balanced(ts)
    ensures ParseItems(order, ts).Err? ==> ParseItems(order, ts).error == IndexOutOfRange
    decreases |ts|, 0
  {
    if ts == [] {
    } else if ts[0] == "(" {
      match FindClose(ts, 1)
      case None =>
        assert forall j :: 0 < j < |ts| ==> ts[j] != ")" by {
          forall j | 0 < j < |ts| ensures ts[j] != ")" { assert ts[1..][j - 1] == ts[j]; }
        }
        assert !ClosedAt(ts, 0);
      case Some(j) =>
        var children := ts[1..j];
        TokensFailIff(order, children);
        NoCloseBalanced(children);
        BalancedGroup(ts, j);
        if ParseTokens(order, children).Ok? {
          var rest := GroupCut(order, ts).value.rest;
          assert rest == ts[j + 1..];
          ItemsFailIff(order, rest);
        }
    } else {
      ItemsFailIff(order, ts[1..]);
      SkipBalanced(ts);
    }
  }

  /** A parse fails exactly when some `(` is not closed by a `)` before the next
      `(`; it then fails with the index panic of parseGroup. */
  lemma ParseFailsIffUnbalanced(order: Order, ts: seq<string>)
    ensures ParseTokens(order, ts).Err? <==> !Balanced(ts)
    ensures ParseTokens(order, ts).Err? ==> ParseTokens(order, ts).error == IndexOutOfRange
  {
    TokensFailIff(order, ts);
  }
}
