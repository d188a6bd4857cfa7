/**
 * Eval on whole expressions: a list of numbers, and one operator between two
 * lists, for any precedence table whose operators are symbol tokens; then the
 * expressions of eval/eval_test.go. `num` is strconv.ParseFloat, fixed only on
 * the texts each example uses.
 */
module EvalExamples {
  import opened Base
  import opened Lexer
  import opened Tokens
  import opened TokenProps
  import opened EvalSyntax
  import opened EvalSyntaxProps
  import opened EvalSemantics
  import EvalProps

  /** Every operator of the table is one of the symbol tokens. */
  predicate SymbolLevels(order: Order)
  {
    forall l, x :: 0 <= l < |order| && x in order[l] ==> |x| == 1 && IsSymbol(x[0])
  }

  /** A token that is no symbol, so no table of symbols makes it an operator. */
  predicate Operand(t: string)
  {
    IsTokenText(t) && !(|t| == 1 && IsSymbol(t[0]))
  }

  function Toks(ts: seq<string>): seq<Node>
  {
    seq(|ts|, k requires 0 <= k < |ts| => Token(ts[k]))
  }

  function Values(ts: seq<string>): seq<Node>
  {
    seq(|ts|, k requires 0 <= k < |ts| => Value(ts[k]))
  }

  predicate AllValued(num: string -> real, ts: seq<string>)
  {
    forall k :: 0 <= k < |ts| ==> ValueOf(num, ts[k]).Ok?
  }

  /** What the operands evaluate to, one number each. */
  function Numbers(num: string -> real, ts: seq<string>): seq<real>
    requires AllValued(num, ts)
  {
    seq(|ts|, k requires 0 <= k < |ts| => ValueOf(num, ts[k]).value)
  }

  /** Without any `(`, the parser collects every token as it is. */
  lemma {:induction false} ItemsPlain(order: Order, ts: seq<string>)
    requires "(" !in ts
    ensures ParseItems(order, ts) == Ok(Toks(ts))
  {
    if ts != [] {
      assert ts[0] != "(" by { assert ts[0] in ts; }
      assert "(" !in ts[1..] by {
        forall k | 0 <= k < |ts[1..]| ensures ts[1..][k] != "(" { assert ts[1..][k] == ts[k + 1]; }
      }
      ItemsPlain(order, ts[1..]);
      assert ParseItems(order, ts) == Ok([Token(ts[0])] + Toks(ts[1..]));
      assert Toks(ts) == [Token(ts[0])] + Toks(ts[1..]) by {
        forall k | 0 <= k < |ts| ensures Toks(ts)[k] == ([Token(ts[0])] + Toks(ts[1..]))[k] {
          if k > 0 { assert ts[1..][k - 1] == ts[k]; }
        }
      }
    } else {
      assert Toks(ts) == [];
    }
  }

  /** Operands only: compact makes a List of Values. */
  lemma CompactPlain(order: Order, ts: seq<string>)
    requires SymbolLevels(order) && forall k :: 0 <= k < |ts| ==> Operand(ts[k])
    ensures Compact(order, Toks(ts)) == List(Values(ts))
  {
    var ns := Toks(ts);
    assert forall l, k :: 0 <= l < |order| && 0 <= k < |ns| ==> !IsOp(order[l], ns[k]) by {
      forall l, k | 0 <= l < |order| && 0 <= k < |ns| ensures !IsOp(order[l], ns[k]) {
        assert ns[k] == Token(ts[k]);
        assert Operand(ts[k]);
      }
    }
    CompactList(order, ns);
  }

  lemma ToksBinary(a: seq<string>, op: string, b: seq<string>)
    ensures Toks(a + [op] + b) == Toks(a) + [Token(op)] + Toks(b)
  {
    var ts := a + [op] + b;
    forall k | 0 <= k < |ts| ensures Toks(ts)[k] == (Toks(a) + [Token(op)] + Toks(b))[k] {
      if k < |a| {
        assert ts[k] == a[k];
      } else if k > |a| {
        assert ts[k] == b[k - |a| - 1];
      }
    }
  }

  /** In `a op b` with operands a and b, only op can be an operator. */
  lemma OnlyOp(order: Order, a: seq<string>, op: string, b: seq<string>, lv: nat)
    requires SymbolLevels(order) && lv < |order|
    requires forall k :: 0 <= k < |a| ==> Operand(a[k])
    requires forall k :: 0 <= k < |b| ==> Operand(b[k])
    ensures forall i :: 0 <= i < |a| + 1 + |b| && i != |a| ==> !IsOp(order[lv], (Toks(a) + [Token(op)] + Toks(b))[i])
  {
    var ns := Toks(a) + [Token(op)] + Toks(b);
    forall i | 0 <= i < |ns| && i != |a| ensures !IsOp(order[lv], ns[i]) {
      if i < |a| {
        assert ns[i] == Token(a[i]);
        assert Operand(a[i]);
      } else {
        assert ns[i] == Token(b[i - |a| - 1]);
        assert Operand(b[i - |a| - 1]);
      }
    }
  }

  /** One operator between operands: compact splits there. */
  lemma CompactBinary(order: Order, a: seq<string>, op: string, b: seq<string>, l: nat)
    requires SymbolLevels(order) && l < |order| && op in order[l]
    requires forall k :: 0 <= k < |a| ==> Operand(a[k])
    requires forall k :: 0 <= k < |b| ==> Operand(b[k])
    ensures Compact(order, Toks(a + [op] + b)) == Operator(op, List(Values(a)), List(Values(b)))
  {
    ToksBinary(a, op, b);
    var ns := Toks(a) + [Token(op)] + Toks(b);
    assert IsOp(order[l], ns[|a|]);
    var sp := Split(order, 0, ns);
    assert sp.Some?;
    OnlyOp(order, a, op, b, sp.value.0);
    assert sp.value.1 == |a|;
    assert ns[..|a|] == Toks(a);
    assert ns[|a| + 1..] == Toks(b);
    CompactPlain(order, a);
    CompactPlain(order, b);
    assert Compact(order, ns) == Operator(ns[|a|].t, Compact(order, ns[..|a|]), Compact(order, ns[|a| + 1..]));
  }

  lemma NumbersSnoc(num: string -> real, ts: seq<string>)
    requires ts != [] && AllValued(num, ts)
    ensures AllValued(num, ts[..|ts| - 1]) && ValueOf(num, ts[|ts| - 1]).Ok?
    ensures Numbers(num, ts) == Numbers(num, ts[..|ts| - 1]) + [ValueOf(num, ts[|ts| - 1]).value]
  {
    var front := ts[..|ts| - 1];
    forall k | 0 <= k < |front| ensures ValueOf(num, front[k]).Ok? {
      assert front[k] == ts[k];
    }
  }

  lemma ValuesSnoc(ts: seq<string>)
    requires ts != []
    ensures Values(ts)[..|ts| - 1] == Values(ts[..|ts| - 1])
    ensures Values(ts)[|ts| - 1] == Value(ts[|ts| - 1])
  {
  }

  lemma {:induction false} ValuesEvaluate(num: string -> real, ts: seq<string>)
    requires AllValued(num, ts)
    ensures EvalList(num, Values(ts)) == Ok(Numbers(num, ts))
    decreases |ts|
  {
    if ts != [] {
      var front, last := ts[..|ts| - 1], ts[|ts| - 1];
      NumbersSnoc(num, ts);
      ValuesSnoc(ts);
      ValuesEvaluate(num, front);
      var ns := Values(ts);
      assert |ns| == |ts|;
      assert EvalNode(num, ns[|ns| - 1]) == Ok([ValueOf(num, last).value]);
      assert EvalList(num, ns[..|ns| - 1]) == Ok(Numbers(num, front));
    } else {
      assert Values(ts) == [] && Numbers(num, ts) == [];
    }
  }

  lemma NoOpenParen(ts: seq<string>)
    requires forall k :: 0 <= k < |ts| ==> Operand(ts[k])
    ensures "(" !in ts
  {
    forall k | 0 <= k < |ts| ensures ts[k] != "(" {
      assert Operand(ts[k]);
    }
  }

  /** A list of operands evaluates to their numbers, in order. */
  lemma EvalPlain(num: string -> real, order: Order, ts: seq<string>, s: string)
    requires SymbolLevels(order) && AllValued(num, ts)
    requires forall k :: 0 <= k < |ts| ==> Operand(ts[k])
    requires Tokenize(s) == ts
    ensures EvalText(num, order, s) == Ok(Numbers(num, ts))
  {
    ParsePlain(order, ts);
    EvalTextOf(num, order, s, List(Values(ts)));
    ValuesEvaluate(num, ts);
    assert EvalNode(num, List(Values(ts))) == EvalList(num, Values(ts));
  }

  /** Operands joined by spaces tokenize back to themselves. */
  lemma TokenizePlain(ts: seq<string>)
    requires forall k :: 0 <= k < |ts| ==> Operand(ts[k])
    ensures Tokenize(Join(ts)) == ts
  {
    forall k | 0 <= k < |ts| ensures IsTokenText(ts[k]) {
      assert Operand(ts[k]);
    }
    TokenizeJoin(ts);
  }

  lemma EvalTextOf(num: string -> real, order: Order, s: string, n: Node)
    requires ParseTokens(order, Tokenize(s)) == Ok(n)
    ensures EvalText(num, order, s) == EvalNode(num, n)
  {
  }

  /** A list of operands parses to the list of their values. */
  lemma ParsePlain(order: Order, ts: seq<string>)
    requires SymbolLevels(order)
    requires forall k :: 0 <= k < |ts| ==> Operand(ts[k])
    ensures ParseTokens(order, ts) == Ok(List(Values(ts)))
  {
    NoOpenParen(ts);
    ItemsPlain(order, ts);
    CompactPlain(order, ts);
  }

  /** The tokens of `a op b` are in the token language, and none is `(`. */
  lemma BinaryTexts(order: Order, a: seq<string>, op: string, b: seq<string>, l: nat)
    requires SymbolLevels(order) && l < |order| && op in order[l] && op != "("
    requires forall k :: 0 <= k < |a| ==> Operand(a[k])
    requires forall k :: 0 <= k < |b| ==> Operand(b[k])
    ensures forall k :: 0 <= k < |a + [op] + b| ==> IsTokenText((a + [op] + b)[k])
    ensures "(" !in a + [op] + b
  {
    var ts := a + [op] + b;
    assert IsTokenText(op) by { assert |op| == 1 && IsSymbol(op[0]); }
    forall k | 0 <= k < |ts| ensures IsTokenText(ts[k]) && ts[k] != "(" {
      if k < |a| {
        assert ts[k] == a[k];
        assert Operand(a[k]);
      } else if k > |a| {
        assert ts[k] == b[k - |a| - 1];
        assert Operand(b[k - |a| - 1]);
      }
    }
  }

  /** `a op b` parses to op over the two lists. */
  lemma ParseBinary(order: Order, a: seq<string>, op: string, b: seq<string>, l: nat)
    requires SymbolLevels(order) && l < |order| && op in order[l] && op != "("
    requires forall k :: 0 <= k < |a| ==> Operand(a[k])
    requires forall k :: 0 <= k < |b| ==> Operand(b[k])
    ensures Tokenize(Join(a + [op] + b)) == a + [op] + b
    ensures ParseTokens(order, a + [op] + b) == Ok(Operator(op, List(Values(a)), List(Values(b))))
  {
    var ts := a + [op] + b;
    BinaryTexts(order, a, op, b, l);
    TokenizeJoin(ts);
    ItemsPlain(order, ts);
    CompactBinary(order, a, op, b, l);
  }

  /** `a op b` evaluates to the operator applied to the two lists of numbers. */
  lemma EvalBinary(num: string -> real, order: Order, a: seq<string>, op: string, b: seq<string>, l: nat)
    requires SymbolLevels(order) && l < |order| && op in order[l] && op != "("
    requires AllValued(num, a) && AllValued(num, b)
    requires forall k :: 0 <= k < |a| ==> Operand(a[k])
    requires forall k :: 0 <= k < |b| ==> Operand(b[k])
    ensures EvalText(num, order, Join(a + [op] + b)) == Apply(op, Numbers(num, a), Numbers(num, b))
  {
    ParseBinary(order, a, op, b, l);
    ValuesEvaluate(num, a);
    ValuesEvaluate(num, b);
    assert EvalNode(num, List(Values(a))) == Ok(Numbers(num, a));
    assert EvalNode(num, List(Values(b))) == Ok(Numbers(num, b));
  }

  // ---------------------------------------------------------------------
  // The expressions of eval/eval_test.go

  lemma DigitOperand(t: string)
    requires |t| == 1 && IsDigit(t[0])
    ensures Operand(t)
  {
    assert IsUnsignedDecimal(t);
  }

  /** A one-digit operand has no `/`, so it is its number. */
  lemma DigitValue(num: string -> real, t: string)
    requires |t| == 1 && IsDigit(t[0])
    ensures Operand(t) && ValueOf(num, t) == Ok(num(t))
  {
    DigitOperand(t);
    assert FirstIndex(t, '/') == None by { assert t[1..] == []; }
  }

  /** "0 1 2" is the list 0, 1, 2. */
  lemma ExampleList(num: string -> real, order: Order)
    requires SymbolLevels(order)
    requires num("0") == 0.0 && num("1") == 1.0 && num("2") == 2.0
    ensures EvalText(num, order, "0 1 2") == Ok([0.0, 1.0, 2.0])
  {
    var ts := ["0", "1", "2"];
    DigitsThree(num, "0", "1", "2");
    JoinListText();
    TokenizePlain(ts);
    EvalPlain(num, order, ts, "0 1 2");
  }

  lemma JoinListText()
    ensures Join(["0", "1", "2"]) == "0 1 2"
  {
    JoinThree("0", "1", "2");
  }

  /** "1 2 + 3 4": each left value plus each right value, left outer. */
  lemma ExampleAdd(num: string -> real, order: Order, l: nat)
    requires SymbolLevels(order) && l < |order| && "+" in order[l]
    requires num("1") == 1.0 && num("2") == 2.0 && num("3") == 3.0 && num("4") == 4.0
    ensures EvalText(num, order, "1 2 + 3 4") == Ok([4.0, 5.0, 5.0, 6.0])
  {
    var a, b := ["1", "2"], ["3", "4"];
    JoinPairsText("+");
    assert "1 2 " + "+" + " 3 4" == "1 2 + 3 4";
    DigitsTwo(num, "1", "2");
    DigitsTwo(num, "3", "4");
    EvalBinary(num, order, a, "+", b, l);
    CrossTwoByTwo(false, 1.0, 2.0, 3.0, 4.0);
    assert Apply("+", [1.0, 2.0], [3.0, 4.0]) == Ok([4.0, 5.0, 5.0, 6.0]);
  }

  lemma OneValue(num: string -> real, x: string, vx: real)
    requires Operand(x) && ValueOf(num, x) == Ok(vx)
    ensures forall k :: 0 <= k < |[x]| ==> Operand([x][k])
    ensures AllValued(num, [x]) && Numbers(num, [x]) == [vx]
  {
  }

  lemma TwoValues(num: string -> real, x: string, y: string, vx: real, vy: real)
    requires Operand(x) && ValueOf(num, x) == Ok(vx)
    requires Operand(y) && ValueOf(num, y) == Ok(vy)
    ensures forall k :: 0 <= k < |[x, y]| ==> Operand([x, y][k])
    ensures AllValued(num, [x, y]) && Numbers(num, [x, y]) == [vx, vy]
  {
  }

  lemma ThreeValues(num: string -> real, x: string, y: string, z: string, vx: real, vy: real, vz: real)
    requires Operand(x) && ValueOf(num, x) == Ok(vx)
    requires Operand(y) && ValueOf(num, y) == Ok(vy)
    requires Operand(z) && ValueOf(num, z) == Ok(vz)
    ensures forall k :: 0 <= k < |[x, y, z]| ==> Operand([x, y, z][k])
    ensures AllValued(num, [x, y, z]) && Numbers(num, [x, y, z]) == [vx, vy, vz]
  {
    var ts, vs := [x, y, z], [vx, vy, vz];
    assert forall k :: 0 <= k < 3 ==> Operand(ts[k]) && ValueOf(num, ts[k]) == Ok(vs[k]);
    assert AllValued(num, ts);
    assert |Numbers(num, ts)| == 3;
    assert forall k :: 0 <= k < 3 ==> Numbers(num, ts)[k] == vs[k];
  }

  lemma FourValues(num: string -> real, w: string, x: string, y: string, z: string, vw: real, vx: real, vy: real, vz: real)
    requires Operand(w) && ValueOf(num, w) == Ok(vw)
    requires Operand(x) && ValueOf(num, x) == Ok(vx)
    requires Operand(y) && ValueOf(num, y) == Ok(vy)
    requires Operand(z) && ValueOf(num, z) == Ok(vz)
    ensures forall k :: 0 <= k < |[w, x, y, z]| ==> Operand([w, x, y, z][k])
    ensures AllValued(num, [w, x, y, z]) && Numbers(num, [w, x, y, z]) == [vw, vx, vy, vz]
  {
    var ts, vs := [w, x, y, z], [vw, vx, vy, vz];
    assert forall k :: 0 <= k < 4 ==> Operand(ts[k]) && ValueOf(num, ts[k]) == Ok(vs[k]);
    assert AllValued(num, ts);
    assert |Numbers(num, ts)| == 4;
    assert forall k :: 0 <= k < 4 ==> Numbers(num, ts)[k] == vs[k];
  }

  lemma DigitsTwo(num: string -> real, x: string, y: string)
    requires |x| == 1 && IsDigit(x[0]) && |y| == 1 && IsDigit(y[0])
    ensures forall k :: 0 <= k < |[x, y]| ==> Operand([x, y][k])
    ensures AllValued(num, [x, y]) && Numbers(num, [x, y]) == [num(x), num(y)]
  {
    DigitValue(num, x);
    DigitValue(num, y);
    TwoValues(num, x, y, num(x), num(y));
  }

  lemma JoinThree(x: string, y: string, z: string)
    ensures Join([x, y, z]) == x + " " + y + " " + z
  {
    assert [x, y, z][1..] == [y, z];
    assert [y, z][1..] == [z];
    assert Join([y, z]) == y + " " + z;
    assert x + " " + (y + " " + z) == x + " " + y + " " + z;
  }

  lemma CrossOneByOne(minus: bool, x: real, y: real)
    ensures Cross(minus, [x], [y]) == [Pair(minus, x, y)]
  {
    assert [x][..0] == [];
    assert Row(minus, x, [y]) == [Pair(minus, x, y)];
  }

  /** The text of `1 2 op 3 4`. */
  lemma JoinPairsText(op: string)
    ensures Join(["1", "2"] + [op] + ["3", "4"]) == "1 2 " + op + " 3 4"
  {
    assert ["1", "2"] + [op] + ["3", "4"] == ["1", "2", op, "3", "4"];
    assert Join(["4"]) == "4";
    assert Join(["3", "4"]) == "3 4";
    assert Join([op, "3", "4"]) == op + " 3 4";
    assert Join(["2", op, "3", "4"]) == "2 " + op + " 3 4";
  }

  lemma CrossTwoByTwo(minus: bool, x0: real, x1: real, y0: real, y1: real)
    ensures Cross(minus, [x0, x1], [y0, y1])
      == [Pair(minus, x0, y0), Pair(minus, x0, y1), Pair(minus, x1, y0), Pair(minus, x1, y1)]
  {
    assert [x0, x1][..1] == [x0];
    assert Cross(minus, [x0], [y0, y1]) == Row(minus, x0, [y0, y1]);
  }

  /** "1 + 2" is the one sum 3. */
  lemma ExampleAddOne(num: string -> real, order: Order, l: nat)
    requires SymbolLevels(order) && l < |order| && "+" in order[l]
    requires num("1") == 1.0 && num("2") == 2.0
    ensures EvalText(num, order, "1 + 2") == Ok([3.0])
  {
    JoinOneText("+");
    assert "1 " + "+" + " 2" == "1 + 2";
    DigitValue(num, "1");
    DigitValue(num, "2");
    OneValue(num, "1", 1.0);
    OneValue(num, "2", 2.0);
    EvalBinary(num, order, ["1"], "+", ["2"], l);
    AddOneApply();
  }

  /** The text of `1 op 2`. */
  lemma JoinOneText(op: string)
    ensures Join(["1"] + [op] + ["2"]) == "1 " + op + " 2"
  {
    JoinThree("1", op, "2");
    assert ["1"] + [op] + ["2"] == ["1", op, "2"];
  }

  lemma AddOneApply()
    ensures Apply("+", [1.0], [2.0]) == Ok([3.0])
  {
    CrossOneByOne(false, 1.0, 2.0);
  }

  /** "1 - 2" is the one difference -1. */
  lemma ExampleSubOne(num: string -> real, order: Order, l: nat)
    requires SymbolLevels(order) && l < |order| && "-" in order[l]
    requires num("1") == 1.0 && num("2") == 2.0
    ensures EvalText(num, order, "1 - 2") == Ok([-1.0])
  {
    JoinOneText("-");
    assert "1 " + "-" + " 2" == "1 - 2";
    DigitValue(num, "1");
    DigitValue(num, "2");
    OneValue(num, "1", 1.0);
    OneValue(num, "2", 2.0);
    EvalBinary(num, order, ["1"], "-", ["2"], l);
    SubOneApply();
  }

  lemma SubOneApply()
    ensures Apply("-", [1.0], [2.0]) == Ok([-1.0])
  {
    CrossOneByOne(true, 1.0, 2.0);
  }

  /** "1 2 - 3 4": each left value minus each right value, left outer. */
  lemma ExampleSub(num: string -> real, order: Order, l: nat)
    requires SymbolLevels(order) && l < |order| && "-" in order[l]
    requires num("1") == 1.0 && num("2") == 2.0 && num("3") == 3.0 && num("4") == 4.0
    ensures EvalText(num, order, "1 2 - 3 4") == Ok([-2.0, -3.0, -1.0, -2.0])
  {
    var a, b := ["1", "2"], ["3", "4"];
    JoinPairsText("-");
    assert "1 2 " + "-" + " 3 4" == "1 2 - 3 4";
    DigitsTwo(num, "1", "2");
    DigitsTwo(num, "3", "4");
    EvalBinary(num, order, a, "-", b, l);
    CrossTwoByTwo(true, 1.0, 2.0, 3.0, 4.0);
    assert Apply("-", [1.0, 2.0], [3.0, 4.0]) == Ok([-2.0, -3.0, -1.0, -2.0]);
  }

  lemma JoinFive(t0: string, t1: string, t2: string, t3: string, t4: string)
    ensures Join([t0, t1, t2, t3, t4]) == t0 + " " + t1 + " " + t2 + " " + t3 + " " + t4
  {
    assert [t0, t1, t2, t3, t4][1..] == [t1, t2, t3, t4];
    JoinThree(t2, t3, t4);
    assert [t1, t2, t3, t4][1..] == [t2, t3, t4];
    assert Join([t1, t2, t3, t4]) == t1 + " " + t2 + " " + t3 + " " + t4;
  }

  lemma JoinRangeText()
    ensures Join(["0"] + ["%"] + ["1", "0", "8"]) == "0 % 1 0 8"
  {
    JoinFive("0", "%", "1", "0", "8");
    assert ["0"] + ["%"] + ["1", "0", "8"] == ["0", "%", "1", "0", "8"];
  }

  lemma StepsToEight()
    ensures Steps(0.0, 1.0, 8.0) == [0.0, 1.0, 2.0, 3.0, 4.0, 5.0, 6.0, 7.0]
  {
    assert Steps(8.0, 1.0, 8.0) == [];
    assert Steps(7.0, 1.0, 8.0) == [7.0];
    assert Steps(6.0, 1.0, 8.0) == [6.0, 7.0];
    assert Steps(5.0, 1.0, 8.0) == [5.0, 6.0, 7.0];
    assert Steps(4.0, 1.0, 8.0) == [4.0, 5.0, 6.0, 7.0];
    assert Steps(3.0, 1.0, 8.0) == [3.0, 4.0, 5.0, 6.0, 7.0];
    assert Steps(2.0, 1.0, 8.0) == [2.0, 3.0, 4.0, 5.0, 6.0, 7.0];
    assert Steps(1.0, 1.0, 8.0) == [1.0, 2.0, 3.0, 4.0, 5.0, 6.0, 7.0];
  }

  lemma RangeOperands(num: string -> real)
    requires num("0") == 0.0 && num("1") == 1.0 && num("8") == 8.0
    ensures forall k :: 0 <= k < |["0"]| ==> Operand(["0"][k])
    ensures forall k :: 0 <= k < |["1", "0", "8"]| ==> Operand(["1", "0", "8"][k])
    ensures AllValued(num, ["0"]) && Numbers(num, ["0"]) == [0.0]
    ensures AllValued(num, ["1", "0", "8"]) && Numbers(num, ["1", "0", "8"]) == [1.0, 0.0, 8.0]
  {
    DigitValue(num, "0");
    DigitValue(num, "1");
    DigitValue(num, "8");
    OneValue(num, "0", 0.0);
    ThreeValues(num, "1", "0", "8", 1.0, 0.0, 8.0);
  }

  lemma RangeToEight()
    ensures ModRange([0.0], [1.0, 0.0, 8.0]) == Ok([0.0, 1.0, 2.0, 3.0, 4.0, 5.0, 6.0, 7.0])
  {
    EvalProps.NormalizeFixed(0.0, 1.0, 0.0);
    StepsToEight();
    assert [0.0][..0] == [];
    assert RangeAll([0.0], 1.0, 0.0, 8.0) == [] + Steps(Normalize(0.0, 1.0, 0.0), 1.0, 8.0);
    assert Steps(Normalize(0.0, 1.0, 0.0), 1.0, 8.0) == [0.0, 1.0, 2.0, 3.0, 4.0, 5.0, 6.0, 7.0];
    assert RangeAll([0.0], 1.0, 0.0, 8.0) == [0.0, 1.0, 2.0, 3.0, 4.0, 5.0, 6.0, 7.0];
    var right := [1.0, 0.0, 8.0];
    assert right[0] == 1.0 && right[1] == 0.0 && right[2] == 8.0;
    assert ModRange([0.0], right) == Ok(RangeAll([0.0], 1.0, 0.0, 8.0));
  }

  /** "0 % 1 0 8": 0 in the window [0, 1), stepped by 1 up to 8. */
  lemma ExampleRange(num: string -> real, order: Order, l: nat)
    requires SymbolLevels(order) && l < |order| && "%" in order[l]
    requires num("0") == 0.0 && num("1") == 1.0 && num("8") == 8.0
    ensures EvalText(num, order, "0 % 1 0 8") == Ok([0.0, 1.0, 2.0, 3.0, 4.0, 5.0, 6.0, 7.0])
  {
    JoinRangeText();
    RangeOperands(num);
    EvalBinary(num, order, ["0"], "%", ["1", "0", "8"], l);
    RangeToEight();
  }


  // "0 % 0.33 0 2"

  lemma JoinRangeStepText()
    ensures Join(["0"] + ["%"] + ["0.33", "0", "2"]) == "0 % 0.33 0 2"
  {
    JoinFive("0", "%", "0.33", "0", "2");
    assert ["0"] + ["%"] + ["0.33", "0", "2"] == ["0", "%", "0.33", "0", "2"];
  }

  lemma PointValue(num: string -> real)
    ensures Operand("0.33") && ValueOf(num, "0.33") == Ok(num("0.33"))
  {
    var u := "0.33";
    assert u[..1] == "0" && u[2..] == "33";
    assert AllDigits(u[..1]) && AllDigits(u[2..]);
    assert IsUnsignedDecimal(u);
    assert FirstIndex(u, '/') == None by {
      assert u[1..] == ".33" && u[1..][1..] == "33" && u[1..][1..][1..] == "3";
      assert u[1..][1..][1..][1..] == [];
    }
  }

  lemma RangeStepOperands(num: string -> real)
    requires num("0") == 0.0 && num("0.33") == 0.33 && num("2") == 2.0
    ensures forall k :: 0 <= k < |["0"]| ==> Operand(["0"][k])
    ensures forall k :: 0 <= k < |["0.33", "0", "2"]| ==> Operand(["0.33", "0", "2"][k])
    ensures AllValued(num, ["0"]) && Numbers(num, ["0"]) == [0.0]
    ensures AllValued(num, ["0.33", "0", "2"]) && Numbers(num, ["0.33", "0", "2"]) == [0.33, 0.0, 2.0]
  {
    DigitValue(num, "0");
    PointValue(num);
    DigitValue(num, "2");
    OneValue(num, "0", 0.0);
    ThreeValues(num, "0.33", "0", "2", 0.33, 0.0, 2.0);
  }

  lemma RangeStepPoint()
    ensures ModRange([0.0], [0.33, 0.0, 2.0]) == Ok([0.0, 0.33, 0.66, 0.99, 1.32, 1.65, 1.98])
  {
    EvalProps.NormalizeFixed(0.0, 0.33, 0.0);
    assert Steps(2.31, 0.33, 2.0) == [];
    assert Steps(1.98, 0.33, 2.0) == [1.98];
    assert Steps(1.65, 0.33, 2.0) == [1.65, 1.98];
    assert Steps(1.32, 0.33, 2.0) == [1.32, 1.65, 1.98];
    assert Steps(0.99, 0.33, 2.0) == [0.99, 1.32, 1.65, 1.98];
    assert Steps(0.66, 0.33, 2.0) == [0.66, 0.99, 1.32, 1.65, 1.98];
    assert Steps(0.33, 0.33, 2.0) == [0.33, 0.66, 0.99, 1.32, 1.65, 1.98];
    assert Steps(0.0, 0.33, 2.0) == [0.0, 0.33, 0.66, 0.99, 1.32, 1.65, 1.98];
    assert [0.0][..0] == [];
    assert RangeAll([0.0], 0.33, 0.0, 2.0) == [] + Steps(Normalize(0.0, 0.33, 0.0), 0.33, 2.0);
    assert RangeAll([0.0], 0.33, 0.0, 2.0) == [0.0, 0.33, 0.66, 0.99, 1.32, 1.65, 1.98];
    var right := [0.33, 0.0, 2.0];
    assert right[0] == 0.33 && right[1] == 0.0 && right[2] == 2.0;
  }

  /** "0 % 0.33 0 2": 0 stepped by 0.33 while below 2 (exact in the reals). */
  lemma ExampleRangeStep(num: string -> real, order: Order, l: nat)
    requires SymbolLevels(order) && l < |order| && "%" in order[l]
    requires num("0") == 0.0 && num("0.33") == 0.33 && num("2") == 2.0
    ensures EvalText(num, order, "0 % 0.33 0 2") == Ok([0.0, 0.33, 0.66, 0.99, 1.32, 1.65, 1.98])
  {
    JoinRangeStepText();
    RangeStepOperands(num);
    EvalBinary(num, order, ["0"], "%", ["0.33", "0", "2"], l);
    RangeStepPoint();
  }

  // "1/3 2/3 % 1 0 2"

  lemma JoinRangeThirdsText()
    ensures Join(["1/3", "2/3"] + ["%"] + ["1", "0", "2"]) == "1/3 2/3 % 1 0 2"
  {
    var ts := ["1/3", "2/3", "%", "1", "0", "2"];
    assert ["1/3", "2/3"] + ["%"] + ["1", "0", "2"] == ts;
    JoinFive("2/3", "%", "1", "0", "2");
    assert ts[1..] == ["2/3", "%", "1", "0", "2"];
  }

  /** A fraction of two one-digit numbers is their quotient. */
  lemma ThirdValue(num: string -> real, t: string)
    requires |t| == 3 && IsDigit(t[0]) && t[1] == '/' && IsDigit(t[2])
    ensures Operand(t) && ValueOf(num, t) == (if num([t[2]]) == 0.0 then Err(NonFinite) else Ok(num([t[0]]) / num([t[2]])))
  {
    assert t[..1] == [t[0]] && t[2..] == [t[2]];
    assert AllDigits(t[..1]) && AllDigits(t[2..]);
    assert IsFractionText(t);
    assert FirstIndex(t, '/') == Some(1) by {
      assert t[1..][0] == '/';
    }
  }

  lemma OneThird(num: string -> real)
    requires num("1") == 1.0 && num("3") == 3.0
    ensures Operand("1/3") && ValueOf(num, "1/3") == Ok(1.0 / 3.0)
  {
    ThirdValue(num, "1/3");
    assert ["1/3"[0]] == "1" && ["1/3"[2]] == "3";
  }

  lemma TwoThirds(num: string -> real)
    requires num("2") == 2.0 && num("3") == 3.0
    ensures Operand("2/3") && ValueOf(num, "2/3") == Ok(2.0 / 3.0)
  {
    ThirdValue(num, "2/3");
    assert ["2/3"[0]] == "2" && ["2/3"[2]] == "3";
  }

  lemma RangeThirdsOperands(num: string -> real)
    requires num("1") == 1.0 && num("2") == 2.0 && num("3") == 3.0
    ensures forall k :: 0 <= k < |["1/3", "2/3"]| ==> Operand(["1/3", "2/3"][k])
    ensures AllValued(num, ["1/3", "2/3"]) && Numbers(num, ["1/3", "2/3"]) == [1.0 / 3.0, 2.0 / 3.0]
  {
    OneThird(num);
    TwoThirds(num);
    TwoValues(num, "1/3", "2/3", 1.0 / 3.0, 2.0 / 3.0);
  }

  lemma RangeThirdsBounds(num: string -> real)
    requires num("0") == 0.0 && num("1") == 1.0 && num("2") == 2.0
    ensures forall k :: 0 <= k < |["1", "0", "2"]| ==> Operand(["1", "0", "2"][k])
    ensures AllValued(num, ["1", "0", "2"]) && Numbers(num, ["1", "0", "2"]) == [1.0, 0.0, 2.0]
  {
    DigitValue(num, "0");
    DigitValue(num, "1");
    DigitValue(num, "2");
    ThreeValues(num, "1", "0", "2", 1.0, 0.0, 2.0);
  }

  lemma RangeThirds()
    ensures ModRange([1.0 / 3.0, 2.0 / 3.0], [1.0, 0.0, 2.0]) == Ok([1.0 / 3.0, 4.0 / 3.0, 2.0 / 3.0, 5.0 / 3.0])
  {
    EvalProps.NormalizeFixed(1.0 / 3.0, 1.0, 0.0);
    EvalProps.NormalizeFixed(2.0 / 3.0, 1.0, 0.0);
    assert Steps(7.0 / 3.0, 1.0, 2.0) == [];
    assert Steps(4.0 / 3.0, 1.0, 2.0) == [4.0 / 3.0];
    assert Steps(1.0 / 3.0, 1.0, 2.0) == [1.0 / 3.0, 4.0 / 3.0];
    assert Steps(8.0 / 3.0, 1.0, 2.0) == [];
    assert Steps(5.0 / 3.0, 1.0, 2.0) == [5.0 / 3.0];
    assert Steps(2.0 / 3.0, 1.0, 2.0) == [2.0 / 3.0, 5.0 / 3.0];
    var left := [1.0 / 3.0, 2.0 / 3.0];
    assert left[..1] == [1.0 / 3.0] && left[..1][..0] == [];
    assert RangeAll(left[..1], 1.0, 0.0, 2.0) == [] + Steps(Normalize(1.0 / 3.0, 1.0, 0.0), 1.0, 2.0);
    assert RangeAll(left, 1.0, 0.0, 2.0) == RangeAll(left[..1], 1.0, 0.0, 2.0) + Steps(Normalize(2.0 / 3.0, 1.0, 0.0), 1.0, 2.0);
    assert RangeAll(left, 1.0, 0.0, 2.0) == [1.0 / 3.0, 4.0 / 3.0, 2.0 / 3.0, 5.0 / 3.0];
    var right := [1.0, 0.0, 2.0];
    assert right[0] == 1.0 && right[1] == 0.0 && right[2] == 2.0;
  }

  /** "1/3 2/3 % 1 0 2": fractions are quotients, each stepped in turn. */
  lemma ExampleRangeThirds(num: string -> real, order: Order, l: nat)
    requires SymbolLevels(order) && l < |order| && "%" in order[l]
    requires num("0") == 0.0 && num("1") == 1.0 && num("2") == 2.0 && num("3") == 3.0
    ensures EvalText(num, order, "1/3 2/3 % 1 0 2") == Ok([1.0 / 3.0, 4.0 / 3.0, 2.0 / 3.0, 5.0 / 3.0])
  {
    JoinRangeThirdsText();
    RangeThirdsOperands(num);
    RangeThirdsBounds(num);
    EvalBinary(num, order, ["1/3", "2/3"], "%", ["1", "0", "2"], l);
    RangeThirds();
  }

  lemma JoinSeven(t0: string, t1: string, t2: string, t3: string, t4: string, t5: string, t6: string)
    ensures Join([t0, t1, t2, t3, t4, t5, t6])
      == t0 + " " + t1 + " " + t2 + " " + t3 + " " + t4 + " " + t5 + " " + t6
  {
    var ts := [t0, t1, t2, t3, t4, t5, t6];
    assert ts[1..] == [t1, t2, t3, t4, t5, t6];
    assert ts[1..][1..] == [t2, t3, t4, t5, t6];
    JoinFive(t2, t3, t4, t5, t6);
    assert Join(ts[1..]) == t1 + " " + (t2 + " " + t3 + " " + t4 + " " + t5 + " " + t6);
  }

  // "0 * 8" and "4 5 6 * 1 2 3"

  lemma RepeatOperands(num: string -> real)
    requires num("0") == 0.0 && num("8") == 8.0
    ensures forall k :: 0 <= k < |["0"]| ==> Operand(["0"][k])
    ensures forall k :: 0 <= k < |["8"]| ==> Operand(["8"][k])
    ensures AllValued(num, ["0"]) && Numbers(num, ["0"]) == [0.0]
    ensures AllValued(num, ["8"]) && Numbers(num, ["8"]) == [8.0]
  {
    DigitValue(num, "0");
    DigitValue(num, "8");
    OneValue(num, "0", 0.0);
    OneValue(num, "8", 8.0);
  }

  lemma RepeatEight()
    ensures RepeatAll([0.0], [8.0]) == [0.0, 0.0, 0.0, 0.0, 0.0, 0.0, 0.0, 0.0]
  {
    assert Reps(8.0) == 8;
    assert [8.0][..0] == [] && [0.0][..0] == [];
    assert RepeatRow([0.0], 8) == [] + Repeat(0.0, 8);
    assert RepeatAll([0.0], [8.0]) == [] + RepeatRow([0.0], 8);
  }

  lemma JoinRepeatOneText()
    ensures Join(["0"] + ["*"] + ["8"]) == "0 * 8"
  {
    JoinThree("0", "*", "8");
    assert ["0"] + ["*"] + ["8"] == ["0", "*", "8"];
  }

  /** "0 * 8": 0 eight times. */
  lemma ExampleRepeatOne(num: string -> real, order: Order, l: nat)
    requires SymbolLevels(order) && l < |order| && "*" in order[l]
    requires num("0") == 0.0 && num("8") == 8.0
    ensures EvalText(num, order, "0 * 8") == Ok([0.0, 0.0, 0.0, 0.0, 0.0, 0.0, 0.0, 0.0])
  {
    JoinRepeatOneText();
    RepeatOperands(num);
    EvalBinary(num, order, ["0"], "*", ["8"], l);
    RepeatEightApply();
  }

  lemma RepeatEightApply()
    ensures Apply("*", [0.0], [8.0]) == Ok([0.0, 0.0, 0.0, 0.0, 0.0, 0.0, 0.0, 0.0])
  {
    RepeatEight();
  }

  lemma JoinRepeatText()
    ensures Join(["4", "5", "6"] + ["*"] + ["1", "2", "3"]) == "4 5 6 * 1 2 3"
  {
    JoinSeven("4", "5", "6", "*", "1", "2", "3");
    assert ["4", "5", "6"] + ["*"] + ["1", "2", "3"] == ["4", "5", "6", "*", "1", "2", "3"];
  }

  lemma DigitsThree(num: string -> real, x: string, y: string, z: string)
    requires |x| == 1 && IsDigit(x[0]) && |y| == 1 && IsDigit(y[0]) && |z| == 1 && IsDigit(z[0])
    ensures forall k :: 0 <= k < |[x, y, z]| ==> Operand([x, y, z][k])
    ensures AllValued(num, [x, y, z]) && Numbers(num, [x, y, z]) == [num(x), num(y), num(z)]
  {
    DigitValue(num, x);
    DigitValue(num, y);
    DigitValue(num, z);
    ThreeValues(num, x, y, z, num(x), num(y), num(z));
  }

  lemma RepeatRowThree(x: real, y: real, z: real, n: nat)
    ensures RepeatRow([x, y, z], n) == Repeat(x, n) + Repeat(y, n) + Repeat(z, n)
  {
    var l := [x, y, z];
    assert l[..2] == [x, y] && l[..2][..1] == [x] && l[..2][..1][..0] == [];
    assert RepeatRow([x], n) == [] + Repeat(x, n);
  }

  lemma RepeatCounts()
    ensures RepeatAll([4.0, 5.0, 6.0], [1.0, 2.0, 3.0])
      == [4.0, 5.0, 6.0, 4.0, 4.0, 5.0, 5.0, 6.0, 6.0, 4.0, 4.0, 4.0, 5.0, 5.0, 5.0, 6.0, 6.0, 6.0]
  {
    var l, r := [4.0, 5.0, 6.0], [1.0, 2.0, 3.0];
    assert Reps(1.0) == 1 && Reps(2.0) == 2 && Reps(3.0) == 3;
    RepeatRowThree(4.0, 5.0, 6.0, 1);
    RepeatRowThree(4.0, 5.0, 6.0, 2);
    RepeatRowThree(4.0, 5.0, 6.0, 3);
    assert Repeat(4.0, 1) == [4.0] && Repeat(5.0, 1) == [5.0] && Repeat(6.0, 1) == [6.0];
    assert Repeat(4.0, 2) == [4.0, 4.0] && Repeat(5.0, 2) == [5.0, 5.0] && Repeat(6.0, 2) == [6.0, 6.0];
    assert Repeat(4.0, 3) == [4.0, 4.0, 4.0] && Repeat(5.0, 3) == [5.0, 5.0, 5.0] && Repeat(6.0, 3) == [6.0, 6.0, 6.0];
    assert r[..2] == [1.0, 2.0] && r[..2][..1] == [1.0] && r[..2][..1][..0] == [];
    assert RepeatAll(l, [1.0]) == [] + RepeatRow(l, 1);
    assert RepeatAll(l, [1.0, 2.0]) == RepeatAll(l, [1.0]) + RepeatRow(l, 2);
    assert RepeatAll(l, r) == RepeatAll(l, [1.0, 2.0]) + RepeatRow(l, 3);
  }

  /** "4 5 6 * 1 2 3": for each count in turn, each left value that often. */
  lemma ExampleRepeat(num: string -> real, order: Order, l: nat)
    requires SymbolLevels(order) && l < |order| && "*" in order[l]
    requires num("1") == 1.0 && num("2") == 2.0 && num("3") == 3.0
    requires num("4") == 4.0 && num("5") == 5.0 && num("6") == 6.0
    ensures EvalText(num, order, "4 5 6 * 1 2 3")
      == Ok([4.0, 5.0, 6.0, 4.0, 4.0, 5.0, 5.0, 6.0, 6.0, 4.0, 4.0, 4.0, 5.0, 5.0, 5.0, 6.0, 6.0, 6.0])
  {
    JoinRepeatText();
    DigitsThree(num, "4", "5", "6");
    DigitsThree(num, "1", "2", "3");
    assert Numbers(num, ["4", "5", "6"]) == [4.0, 5.0, 6.0];
    assert Numbers(num, ["1", "2", "3"]) == [1.0, 2.0, 3.0];
    EvalBinary(num, order, ["4", "5", "6"], "*", ["1", "2", "3"], l);
    RepeatApply();
  }

  lemma RepeatApply()
    ensures Apply("*", [4.0, 5.0, 6.0], [1.0, 2.0, 3.0])
      == Ok([4.0, 5.0, 6.0, 4.0, 4.0, 5.0, 5.0, 6.0, 6.0, 4.0, 4.0, 4.0, 5.0, 5.0, 5.0, 6.0, 6.0, 6.0])
  {
    RepeatCounts();
  }

  // "4 3 4 2 + 0 -1"

  lemma JoinThingText()
    ensures Join(["4", "3", "4", "2"] + ["+"] + ["0", "-1"]) == "4 3 4 2 + 0 -1"
  {
    JoinSeven("4", "3", "4", "2", "+", "0", "-1");
    assert ["4", "3", "4", "2"] + ["+"] + ["0", "-1"] == ["4", "3", "4", "2", "+", "0", "-1"];
  }

  lemma NegativeValue(num: string -> real)
    ensures Operand("-1") && ValueOf(num, "-1") == Ok(num("-1"))
  {
    assert "-1"[1..] == "1";
    assert IsUnsignedDecimal("-1"[1..]);
    assert FirstIndex("-1", '/') == None by {
      assert "-1"[1..][1..] == [];
    }
  }

  lemma ThingOperands(num: string -> real)
    requires num("0") == 0.0 && num("-1") == -1.0
    requires num("2") == 2.0 && num("3") == 3.0 && num("4") == 4.0
    ensures forall k :: 0 <= k < |["4", "3", "4", "2"]| ==> Operand(["4", "3", "4", "2"][k])
    ensures forall k :: 0 <= k < |["0", "-1"]| ==> Operand(["0", "-1"][k])
    ensures AllValued(num, ["4", "3", "4", "2"]) && Numbers(num, ["4", "3", "4", "2"]) == [4.0, 3.0, 4.0, 2.0]
    ensures AllValued(num, ["0", "-1"]) && Numbers(num, ["0", "-1"]) == [0.0, -1.0]
  {
    DigitValue(num, "0");
    DigitValue(num, "2");
    DigitValue(num, "3");
    DigitValue(num, "4");
    NegativeValue(num);
    FourValues(num, "4", "3", "4", "2", 4.0, 3.0, 4.0, 2.0);
    TwoValues(num, "0", "-1", 0.0, -1.0);
  }

  lemma ThingSums()
    ensures Cross(false, [4.0, 3.0, 4.0, 2.0], [0.0, -1.0]) == [4.0, 3.0, 3.0, 2.0, 4.0, 3.0, 2.0, 1.0]
  {
    var l, r := [4.0, 3.0, 4.0, 2.0], [0.0, -1.0];
    assert l[..3] == [4.0, 3.0, 4.0] && l[..3][..2] == [4.0, 3.0] && l[..3][..2][..1] == [4.0];
    assert [4.0][..0] == [];
    assert Row(false, 4.0, r) == [4.0, 3.0];
    assert Row(false, 3.0, r) == [3.0, 2.0];
    assert Row(false, 2.0, r) == [2.0, 1.0];
    assert Cross(false, [4.0], r) == [] + Row(false, 4.0, r);
    assert Cross(false, [4.0, 3.0], r) == Cross(false, [4.0], r) + Row(false, 3.0, r);
    assert Cross(false, [4.0, 3.0, 4.0], r) == Cross(false, [4.0, 3.0], r) + Row(false, 4.0, r);
    assert Cross(false, l, r) == Cross(false, [4.0, 3.0, 4.0], r) + Row(false, 2.0, r);
  }

  /** "4 3 4 2 + 0 -1": the sums with the left values outer, so each left value
      is followed by itself minus one. */
  lemma ExampleThing(num: string -> real, order: Order, l: nat)
    requires SymbolLevels(order) && l < |order| && "+" in order[l]
    requires num("0") == 0.0 && num("-1") == -1.0
    requires num("2") == 2.0 && num("3") == 3.0 && num("4") == 4.0
    ensures EvalText(num, order, "4 3 4 2 + 0 -1") == Ok([4.0, 3.0, 3.0, 2.0, 4.0, 3.0, 2.0, 1.0])
  {
    JoinThingText();
    ThingOperands(num);
    EvalBinary(num, order, ["4", "3", "4", "2"], "+", ["0", "-1"], l);
    ThingSums();
  }
}
