/**
 * What the evaluator's combinators mean: + and - are cross products with the
 * left operand outer; % puts every value into [min, max) by whole steps; *
 * repeats each left value count times; and the expressions of the evaluator's
 * own examples evaluate as stated.
 */
module EvalProps {
  import opened Base
  import opened EvalSyntax
  import opened EvalSemantics
  import opened Evaluator

  // ---------------------------------------------------------------------
  // + and -

  /** The value at index i·|right| + j combines left[i] with right[j]. */
  lemma {:induction false} CrossAt(minus: bool, left: seq<real>, right: seq<real>, i: nat, j: nat)
    requires i < |left| && j < |right|
    ensures |Cross(minus, left, right)| == |left| * |right|
    ensures i * |right| + j < |Cross(minus, left, right)|
    ensures Cross(minus, left, right)[i * |right| + j] == Pair(minus, left[i], right[j])
    decreases |left|
  {
    var n := |left| - 1;
    var front := left[..n];
    CrossLength(minus, left, right);
    CrossLength(minus, front, right);
    if i < n {
      CrossAt(minus, front, right, i, j);
      assert left[i] == front[i];
    } else {
      assert i * |right| == |Cross(minus, front, right)|;
    }
  }

  // ---------------------------------------------------------------------
  // %

  /** Normalising depends on v only up to whole steps. */
  lemma NormalizeStep(v: real, mod: real, min: real)
    requires mod > 0.0
    ensures Normalize(v + mod, mod, min) == Normalize(v, mod, min)
  {
    assert v + mod - mod == v;
  }

  /** A value already in the window is left alone. */
  lemma NormalizeFixed(v: real, mod: real, min: real)
    requires mod > 0.0 && min <= v < min + mod
    ensures Normalize(v, mod, min) == v
  {
    assert Down(v - mod, mod, min) == v - mod;
    assert Down(v, mod, min) == v - mod;
    assert v - mod + mod == v;
    assert Up(v - mod, mod, min) == Up(v, mod, min);
  }

  /** The stepping loop: v, v + mod, ..., up to the last value below max. */
  lemma StepsShape(v: real, mod: real, max: real)
    requires mod > 0.0
    ensures |Steps(v, mod, max)| > 0 ==> (Steps(v, mod, max)[0] == v
      && Steps(v, mod, max)[|Steps(v, mod, max)| - 1] + mod >= max)
    ensures forall k :: 0 < k < |Steps(v, mod, max)| ==> Steps(v, mod, max)[k] == Steps(v, mod, max)[k - 1] + mod
    decreases if v < max then (max - v) / mod + 1.0 else 0.0
  {
    if v < max {
      DivStep(max - v, mod);
      StepsShape(v + mod, mod, max);
      var s := Steps(v, mod, max);
      assert s == [v] + Steps(v + mod, mod, max);
      assert forall k :: 0 < k < |s| ==> s[k] == Steps(v + mod, mod, max)[k - 1];
    }
  }

  /** Every value % produces lies in [min, max). */
  lemma {:induction false} RangeInBounds(left: seq<real>, mod: real, min: real, max: real)
    requires mod > 0.0
    ensures forall k :: 0 <= k < |RangeAll(left, mod, min, max)| ==> min <= RangeAll(left, mod, min, max)[k] < max
    decreases |left|
  {
    if left != [] {
      var front := left[..|left| - 1];
      var v := Normalize(left[|left| - 1], mod, min);
      RangeInBounds(front, mod, min, max);
      StepsShape(v, mod, max);
      var a, b := RangeAll(front, mod, min, max), Steps(v, mod, max);
      assert forall k :: |a| <= k < |a| + |b| ==> (a + b)[k] == b[k - |a|];
    }
  }

  /** % reads three right values, and loops forever on a step of at most 0. */
  lemma ModRangeFails(left: seq<real>, right: seq<real>)
    ensures ModRange(left, right) == Err(IndexOutOfRange) <==> |right| < 3
    ensures ModRange(left, right) == Err(Diverges) <==> |right| >= 3 && left != [] && right[0] <= 0.0
    ensures ModRange(left, right).Ok? && |right| >= 3 && right[0] > 0.0 ==>
      forall k :: 0 <= k < |ModRange(left, right).value| ==> right[1] <= ModRange(left, right).value[k] < right[2]
  {
    if |right| >= 3 && right[0] > 0.0 && left != [] {
      RangeInBounds(left, right[0], right[1], right[2]);
    }
  }

  // ---------------------------------------------------------------------
  // *

  function SumReps(right: seq<real>): nat
  {
    if right == [] then 0 else SumReps(right[..|right| - 1]) + Reps(right[|right| - 1])
  }

  lemma {:induction false} RepeatRowLength(left: seq<real>, n: nat)
    ensures |RepeatRow(left, n)| == |left| * n
    decreases |left|
  {
    if left != [] {
      RepeatRowLength(left[..|left| - 1], n);
      assert |Repeat(left[|left| - 1], n)| == n;
      MulSucc(|left| - 1, n);
    }
  }

  /** Each left value n times in a row: value i·n + j is left[i]. */
  lemma {:induction false} RepeatRowAt(left: seq<real>, n: nat, i: nat, j: nat)
    requires i < |left| && j < n
    ensures |RepeatRow(left, n)| == |left| * n
    ensures i * n + j < |RepeatRow(left, n)|
    ensures RepeatRow(left, n)[i * n + j] == left[i]
    decreases |left|
  {
    var m := |left| - 1;
    var front := left[..m];
    RepeatRowLength(left, n);
    RepeatRowLength(front, n);
    if i < m {
      RepeatRowAt(front, n, i, j);
      assert left[i] == front[i];
    } else {
      assert i * n == |RepeatRow(front, n)|;
    }
  }

  lemma MulAdd(a: nat, b: nat, c: nat)
    ensures a * b + a * c == a * (b + c)
  {
  }

  /** * yields |left| values for every repetition the counts ask for. */
  lemma {:induction false} RepeatAllLength(left: seq<real>, right: seq<real>)
    ensures |RepeatAll(left, right)| == |left| * SumReps(right)
    decreases |right|
  {
    if right != [] {
      var front := right[..|right| - 1];
      var n := Reps(right[|right| - 1]);
      RepeatAllLength(left, front);
      RepeatRowLength(left, n);
      assert RepeatAll(left, right) == RepeatAll(left, front) + RepeatRow(left, n);
      assert SumReps(right) == SumReps(front) + n;
      MulAdd(|left|, SumReps(front), n);
    }
  }

  /** Every value * yields is a left value. */
  lemma {:induction false} RepeatAllFromLeft(left: seq<real>, right: seq<real>)
    ensures forall k :: 0 <= k < |RepeatAll(left, right)| ==> RepeatAll(left, right)[k] in left
    decreases |right|
  {
    if right != [] {
      var front := right[..|right| - 1];
      var n := Reps(right[|right| - 1]);
      RepeatAllFromLeft(left, front);
      RepeatRowIn(left, n);
      var a, b := RepeatAll(left, front), RepeatRow(left, n);
      assert RepeatAll(left, right) == a + b;
      forall k | 0 <= k < |a + b| ensures (a + b)[k] in left {
        if k < |a| {
          assert (a + b)[k] == a[k];
        } else {
          assert (a + b)[k] == b[k - |a|];
        }
      }
    }
  }

  lemma {:induction false} RepeatRowIn(left: seq<real>, n: nat)
    ensures forall k :: 0 <= k < |RepeatRow(left, n)| ==> RepeatRow(left, n)[k] in left
    decreases |left|
  {
    if left != [] {
      var front := left[..|left| - 1];
      RepeatRowIn(front, n);
      var a, b := RepeatRow(front, n), Repeat(left[|left| - 1], n);
      assert forall k :: 0 <= k < |a| ==> a[k] in front;
      assert forall x :: x in front ==> x in left;
      assert forall k :: |a| <= k < |a| + |b| ==> (a + b)[k] == left[|left| - 1];
    }
  }
  // ---------------------------------------------------------------------
  // Value tokens

  /** The first '/' is found right after a prefix that holds none. */
  lemma {:induction false} FirstSlash(n: string, d: string)
    requires '/' !in n
    ensures FirstIndex(n + ['/'] + d, '/') == Some(|n|)
    decreases |n|
  {
    var s := n + ['/'] + d;
    if n != [] {
      assert n[0] in n;
      assert s[1..] == n[1..] + ['/'] + d;
      assert '/' !in n[1..] by {
        forall k | 0 <= k < |n[1..]| ensures n[1..][k] != '/' {
          assert n[1..][k] == n[k + 1];
        }
      }
      FirstSlash(n[1..], d);
    }
  }

  /** A token n/d is the quotient of its two halves, split at its first '/';
      a zero denominator is the non-finite value Go would produce. */
  lemma ValueOfQuotient(num: string -> real, n: string, d: string)
    requires '/' !in n
    ensures ValueOf(num, n + ['/'] + d) ==
      (if num(d) == 0.0 then Err(NonFinite) else Ok(num(n) / num(d)))
  {
    var s := n + ['/'] + d;
    FirstSlash(n, d);
    assert s[..|n|] == n;
    assert s[|n| + 1..] == d;
  }

  /** A token without '/' is the number its text denotes. */
  lemma ValueOfPlain(num: string -> real, t: string)
    requires '/' !in t
    ensures ValueOf(num, t) == Ok(num(t))
  {
  }
}
