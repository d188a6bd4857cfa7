/**
 * The token parser of eval/eval.go:49-136: a Parser owns the tokens it has not
 * consumed yet and advances over them in place. Each method is proved to
 * compute the function of module EvalSyntax with the same role.
 */
module EvalParser {
  import opened Base
  import opened EvalSyntax

  /** The nodes already collected, in front of what the rest of the tokens parse to. */
  function Prepend(nodes: seq<Node>, r: Result<seq<Node>, Fault>): Result<seq<Node>, Fault>
  {
    match r
    case Err(e) => Err(e)
    case Ok(more) => Ok(nodes + more)
  }

  lemma PrependNothing(r: Result<seq<Node>, Fault>)
    ensures Prepend([], r) == r
  {
    if r.Ok? {
      assert [] + r.value == r.value;
    }
  }

  lemma PrependTwice(nodes: seq<Node>, n: Node, r: Result<seq<Node>, Fault>)
    ensures Prepend(nodes, Prepend([n], r)) == Prepend(nodes + [n], r)
  {
    if r.Ok? {
      assert nodes + ([n] + r.value) == nodes + [n] + r.value;
    }
  }

  /** The tokens after a `(` with no `)` among them: the group is not closed. */
  lemma Unclosed(order: Order, ts: seq<string>, children: seq<string>)
    requires ts == ["("] + children && ")" !in children
    ensures GroupCut(order, ts) == Err(IndexOutOfRange)
  {
    assert ts[1..] == children;
    assert FindClose(ts, 1).None?;
  }

  /** The first `)` after the `(` ends the children. */
  lemma Closed(order: Order, ts: seq<string>, children: seq<string>, rest: seq<string>)
    requires ts == ["("] + children + [")"] + rest && ")" !in children
    ensures GroupCut(order, ts) == match ParseTokens(order, children)
      case Err(e) => Err(e)
      case Ok(child) => Ok(Cut(Group(child), rest))
  {
    assert ts[1..|children| + 1] == children;
    assert ts[|children| + 1] == ")";
    assert FindClose(ts, 1) == Some(|children| + 1);
    assert ts[|children| + 2..] == rest;
  }

  class Parser {
    var tkns: seq<string>

    constructor(tkns: seq<string>)
      ensures this.tkns == tkns
    {
      this.tkns := tkns;
    }

    /** parseAny (eval/eval.go:112-120): the first token, consumed. */
    method ParseAny() returns (r: Result<string, Fault>)
      modifies this
      ensures old(tkns) == [] ==> r == Err(OutOfTokens) && tkns == old(tkns)
      ensures old(tkns) != [] ==> r == Ok(old(tkns)[0]) && tkns == old(tkns)[1..]
    {
      if tkns == [] {
        return Err(OutOfTokens);
      }
      r := Ok(tkns[0]);
      tkns := tkns[1..];
    }

    /** mustParse (eval/eval.go:105-111): the first token, which must be s. */
    method MustParse(s: string) returns (r: Result<string, Fault>)
      modifies this
      ensures old(tkns) == [] ==> r == Err(IndexOutOfRange) && tkns == old(tkns)
      ensures old(tkns) != [] && old(tkns)[0] != s ==> r == Err(Expected(s)) && tkns == old(tkns)
      ensures old(tkns) != [] && old(tkns)[0] == s ==> r == Ok(s) && tkns == old(tkns)[1..]
    {
      if tkns == [] {
        return Err(IndexOutOfRange);
      }
      if tkns[0] != s {
        return Err(Expected(s));
      }
      r := ParseAny();
    }

    /** parseGroup (eval/eval.go:121-136): the tokens up to the first `)` are
        collected and handed to a second parser. */
    method ParseGroup(order: Order) returns (r: Result<Node, Fault>)
      modifies this
      ensures GroupCut(order, old(tkns)).Err? ==> r == Err(GroupCut(order, old(tkns)).error)
      ensures GroupCut(order, old(tkns)).Ok? ==>
        r == Ok(GroupCut(order, old(tkns)).value.node) && tkns == GroupCut(order, old(tkns)).value.rest
      decreases |tkns|, 0
    {
      var ts := tkns;
      var open := MustParse("(");
      if open.Err? {
        return Err(open.error);
      }
      var children: seq<string> := [];
      while true
        invariant ts == ["("] + children + tkns
        invariant ")" !in children
        decreases |tkns|
      {
        if tkns == [] {
          Unclosed(order, ts, children);
          return Err(IndexOutOfRange);
        }
        if tkns[0] == ")" {
          assert ts == ["("] + children + [")"] + tkns[1..];
          var close := MustParse(")");
          break;
        }
        var t := ParseAny();
        children := children + [t.value];
      }
      Closed(order, ts, children, tkns);
      var p2 := new Parser(children);
      var child := p2.Parse(order);
      if child.Err? {
        return Err(child.error);
      }
      return Ok(Group(child.value));
    }

    /** Parse (eval/eval.go:53-70): groups and tokens until none is left, then compact. */
    method Parse(order: Order) returns (r: Result<Node, Fault>)
      modifies this
      ensures r == ParseTokens(order, old(tkns))
      ensures r.Ok? ==> tkns == []
      decreases |tkns|, 2
    {
      var nodes: seq<Node> := [];
      PrependNothing(ParseItems(order, tkns));
      while tkns != []
        invariant ParseItems(order, old(tkns)) == Prepend(nodes, ParseItems(order, tkns))
        decreases |tkns|
      {
        if tkns[0] == "(" {
          var c := ParseGroup(order);
          if c.Err? {
            return Err(c.error);
          }
          PrependTwice(nodes, c.value, ParseItems(order, tkns));
          nodes := nodes + [c.value];
        } else {
          var t := ParseAny();
          PrependTwice(nodes, Token(t.value), ParseItems(order, tkns));
          nodes := nodes + [Token(t.value)];
        }
      }
      assert nodes + [] == nodes;
      return Ok(Compact(order, nodes));
    }
  }
}
