/**
 The textual form shared by every WriteableTuple arity: each component is
 rendered by its own string conversion (the empty string when the component
 or its conversion is null), and components are separated by ", ".
 */
module Rendering {

  datatype Option<+T> = None | Some(value: T)

  /** What `item?.ToString()` yields for one component: None when the component is null. */
  type Item = Option<string>

  /** The two exceptions a tuple operation can raise. */
  datatype Error = ArgumentException | NullReference

  datatype Result<+T> = Ok(value: T) | Err(error: Error)

  /** String concatenation turns a null string into the empty string. */
  function Show(x: Item): (s: string)
  {
    match x
    case None => ""
    case Some(s) => s
  }

  /** The components rendered one after another, separated by ", ". */
  function Join(xs: seq<Item>): (r: string)
  {
    if |xs| == 0 then ""
    else if |xs| == 1 then Show(xs[0])
    else Show(xs[0]) + ", " + Join(xs[1..])
  }

  /** Joining two non-empty runs puts exactly one separator between them. */
  lemma {:induction false} JoinAppend(xs: seq<Item>, ys: seq<Item>)
    requires |xs| > 0 && |ys| > 0
    ensures Join(xs + ys) == Join(xs) + ", " + Join(ys)
  {
    if |xs| == 1 {
      assert (xs + ys)[1..] == ys;
    } else {
      JoinAppend(xs[1..], ys);
      assert (xs + ys)[1..] == xs[1..] + ys;
    }
  }

  /** No component text contains the character c. */
  ghost predicate FreeOf(xs: seq<Item>, c: char)
  {
    forall i :: 0 <= i < |xs| ==> c !in Show(xs[i])
  }

  /** A character that is neither in a component nor in the separator is not in the join. */
  lemma {:induction false} JoinFreeOf(xs: seq<Item>, c: char)
    requires FreeOf(xs, c) && c != ',' && c != ' '
    ensures c !in Join(xs)
  {
    if |xs| > 1 {
      assert FreeOf(xs[1..], c) by {
        forall i | 0 <= i < |xs[1..]| ensures c !in Show(xs[1..][i]) {
          assert xs[1..][i] == xs[i + 1];
        }
      }
      JoinFreeOf(xs[1..], c);
      assert c !in Show(xs[0]);
    }
  }

  /**
   "(" + s + ")" where s has no parenthesis: the only '(' is the first
   character and the only ')' is the last.
   */
  lemma Parenthesised(s: string)
    requires '(' !in s && ')' !in s
    ensures var r := "(" + s + ")";
      forall i :: 0 <= i < |r| ==> (r[i] == '(' <==> i == 0) && (r[i] == ')' <==> i == |r| - 1)
  {
    var r := "(" + s + ")";
    forall i | 0 <= i < |r| ensures (r[i] == '(' <==> i == 0) && (r[i] == ')' <==> i == |r| - 1) {
      if 0 < i < |r| - 1 {
        assert r[i] == s[i - 1];
      }
    }
  }
}
