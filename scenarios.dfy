/**
 Client code of the tuple family: what a caller can conclude from the
 contracts alone about concrete tuples.
 */
module Scenarios {
  import opened Rendering
  import opened WriteableTuples

  /** Create(1, "a").ToString() */
  method RenderPair() returns (s: string)
    ensures s == "(1, a)"
  {
    var t := Create([Some("1"), Some("a")]);
    s := t.ToString();
  }

  /** Create<object>(null).ToString(): a null component renders as nothing. */
  method RenderNullSingleton() returns (s: string)
    ensures s == "()"
  {
    var t := Create([None]);
    s := t.ToString();
  }

  /*
   Evaluating Join on concrete components. The components 1 … 7 and 8 … 15 are
   spelt out once, and their joins are computed a few components at a time.
   */

  /** The components 1 … 7 and 8 … 15 as their texts. */
  const Low: seq<Item> := [Some("1"), Some("2"), Some("3"), Some("4"), Some("5"), Some("6"), Some("7")]
  const High: seq<Item> := [Some("8"), Some("9"), Some("10"), Some("11"),
                            Some("12"), Some("13"), Some("14"), Some("15")]

  lemma JoinCons(x: Item, xs: seq<Item>)
    requires |xs| > 0
    ensures Join([x] + xs) == Show(x) + ", " + Join(xs)
  {
    assert ([x] + xs)[1..] == xs;
  }

  lemma JoinLow()
    ensures Join(Low) == "1, 2, 3, 4, 5, 6, 7"
  {
    var a, b := [Some("1"), Some("2"), Some("3")], [Some("4"), Some("5"), Some("6"), Some("7")];
    assert Low == a + b;
    JoinAppend(a, b);
    JoinCons(Some("2"), [Some("3")]);
    JoinCons(Some("1"), [Some("2"), Some("3")]);
    JoinLowTail();
    LowText();
  }

  lemma JoinLowTail()
    ensures Join([Some("4"), Some("5"), Some("6"), Some("7")]) == "4, 5, 6, 7"
  {
    JoinCons(Some("6"), [Some("7")]);
    JoinCons(Some("5"), [Some("6"), Some("7")]);
    JoinCons(Some("4"), [Some("5"), Some("6"), Some("7")]);
  }

  lemma JoinHigh()
    ensures Join(High) == "8, 9, 10, 11, 12, 13, 14, 15"
  {
    var a, b := [Some("8"), Some("9"), Some("10"), Some("11")], [Some("12"), Some("13"), Some("14"), Some("15")];
    assert High == a + b;
    JoinAppend(a, b);
    JoinFirstHalf();
    JoinSecondHalf();
    HighText();
  }

  lemma JoinFirstHalf()
    ensures Join([Some("8"), Some("9"), Some("10"), Some("11")]) == "8, 9, 10, 11"
  {
    JoinCons(Some("10"), [Some("11")]);
    JoinCons(Some("9"), [Some("10"), Some("11")]);
    JoinCons(Some("8"), [Some("9"), Some("10"), Some("11")]);
    assert "8" + ", " + "9" + ", " + "10" + ", " + "11" == "8, 9, 10, 11";
  }

  lemma JoinSecondHalf()
    ensures Join([Some("12"), Some("13"), Some("14"), Some("15")]) == "12, 13, 14, 15"
  {
    JoinCons(Some("14"), [Some("15")]);
    JoinCons(Some("13"), [Some("14"), Some("15")]);
    JoinCons(Some("12"), [Some("13"), Some("14"), Some("15")]);
    assert "12" + ", " + "13" + ", " + "14" + ", " + "15" == "12, 13, 14, 15";
  }

  /*
   The concatenations of literal texts the scenarios need, each stated on its
   own: next to Join terms the solver takes far longer over them.
   */

  lemma LowText()
    ensures "1" + ", " + "2" + ", " + "3" + ", " + "4, 5, 6, 7" == "1, 2, 3, 4, 5, 6, 7"
  {
  }

  lemma HighText()
    ensures "8, 9, 10, 11" + ", " + "12, 13, 14, 15" == "8, 9, 10, 11, 12, 13, 14, 15"
  {
  }

  lemma OpenLowText()
    ensures "(" + ("1, 2, 3, 4, 5, 6, 7" + ", ") == "(1, 2, 3, 4, 5, 6, 7, "
  {
  }

  /** The rendering of the items 1 … 7 followed by a run of components joined as tail. */
  lemma LowThen(low: seq<Item>, more: seq<Item>, tail: string, s: string)
    requires |low| > 0 && Join(low) == "1, 2, 3, 4, 5, 6, 7"
    requires |more| > 0 && Join(more) == tail
    requires s == "(" + Join(low + more) + ")"
    ensures s == "(1, 2, 3, 4, 5, 6, 7, " + tail + ")"
  {
    JoinAppend(low, more);
    assert "(" + ((Join(low) + ", ") + tail) == ("(" + (Join(low) + ", ")) + tail;
    OpenLowText();
  }

  /** The text of 1 … 15 is that of 1 … 7, ", " and that of 8 … 15. */
  lemma FifteenText()
    ensures "(1, 2, 3, 4, 5, 6, 7, " + "8, 9, 10, 11, 12, 13, 14, 15" + ")"
      == "(1, 2, 3, 4, 5, 6, 7, 8, 9, 10, 11, 12, 13, 14, 15)"
  {
  }

  /** Create(1, …, 8): seven items and a 1-tuple Rest print as one list of eight. */
  method RenderEight() returns (s: Result<string>, n: nat)
    ensures s == Ok("(1, 2, 3, 4, 5, 6, 7, 8)")
    ensures n == 8
  {
    var t := Create8(Low + [Some("8")]);
    s, n := t.ToString(), t.Size();
    JoinLow();
    LowThen(Low, [Some("8")], "8", s.value);
    assert "(1, 2, 3, 4, 5, 6, 7, " + "8" + ")" == "(1, 2, 3, 4, 5, 6, 7, 8)";
  }

  /** Two extended tuples chained: fifteen components, one pair of parentheses. */
  method RenderFifteen() returns (s: Result<string>, n: nat)
    ensures s == Ok("(1, 2, 3, 4, 5, 6, 7, 8, 9, 10, 11, 12, 13, 14, 15)")
    ensures n == 15
  {
    var inner := Create8(High);
    var r := ExtendedTuple.New(Low, ToExt(inner));
    var outer := r.value;
    assert outer.Valid() && outer.Chained();
    FlatRendering(outer);
    JoinLow();
    JoinHigh();
    s, n := outer.ToString(), outer.Size();
    LowThen(outer.items, inner.Elements(), "8, 9, 10, 11, 12, 13, 14, 15", s.value);
    FifteenText();
  }

  /** The extended constructor refuses a Rest that is a plain value or null. */
  method RejectNonTupleRest() returns (fromValue: Error, fromNull: Error)
    ensures fromValue == ArgumentException && fromNull == ArgumentException
  {
    var items := [Some("1"), Some("2"), Some("3"), Some("4"), Some("5"), Some("6"), Some("7")];
    var r := ExtendedTuple.New(items, Opaque("8"));
    fromValue := r.error;
    r := ExtendedTuple.New(items, Null);
    fromNull := r.error;
  }

  /** Setting Item1 of a 3-tuple shows in the next rendering. */
  method MutationReflected() returns (before: string, after: string)
    ensures before == "(1, 2, 3)" && after == "(x, 2, 3)"
  {
    var t := Create([Some("1"), Some("2"), Some("3")]);
    before := t.ToString();
    t.SetItem(1, Some("x"));
    after := t.ToString();
  }

  /**
   The 1-tuple at the end of an 8-tuple is an object of its own: setting its
   item changes what the enclosing tuple prints.
   */
  method NestedMutationReflected(z: string) returns (s: Result<string>)
    ensures s == Ok("(1, 2, 3, 4, 5, 6, 7, " + z + ")")
  {
    var t := Create8(Low + [Some("8")]);
    assert t.items == Low;
    var last := t.rest.s;
    last.SetItem(1, Some(z));
    assert t.Valid() && !t.EndsInNull();
    assert t.Elements() == Low + [Some(z)];
    s := t.ToString();
    JoinLow();
    LowThen(Low, [Some(z)], z, s.value);
  }

  /**
   The Rest setter skips the constructor's check. With TRest = object, as in
   new WriteableTuple<…, object>(1, …, 7, Create(8)), a plain value can be
   assigned to Rest and is then printed as the last component; a null Rest
   makes rendering throw; Size reports 8 in both cases.
   */
  method RestBypassesCheck() returns (withValue: Result<string>, withNull: Result<string>, n: nat)
    ensures withValue == Ok("(1, 2, 3, 4, 5, 6, 7, x)")
    ensures withNull == Err(NullReference)
    ensures n == 8
  {
    var eighth := Create([Some("8")]);
    var r := ExtendedTuple.New(Low, ToSmall(eighth));
    var t := r.value;
    t.SetRest(Opaque("x"));
    assert t.Valid() && !t.Chained() && !t.EndsInNull();
    assert t.Elements() == Low + [Some("x")];
    withValue := t.ToString();
    JoinLow();
    LowThen(Low, [Some("x")], "x", withValue.value);
    assert "(1, 2, 3, 4, 5, 6, 7, " + "x" + ")" == "(1, 2, 3, 4, 5, 6, 7, x)";
    t.SetRest(Null);
    assert t.Valid() && t.EndsInNull();
    withNull := t.ToString();
    n := t.Size();
  }

  /**
   With TRest = object, a tuple can be assigned to its own Rest. That closes a
   cycle, which leaves the well-formed chains; the item setters still work on
   such a tuple.
   */
  method SelfRestIsCyclic() returns (t: ExtendedTuple)
    ensures t.rest == ToExt(t) && !t.Valid()
    ensures t.items == [Some("x")] + Low[1..]
  {
    var eighth := Create([Some("8")]);
    var r := ExtendedTuple.New(Low, ToSmall(eighth));
    t := r.value;
    t.SetRest(ToExt(t));
    t.SetItem(1, Some("x"));
  }
}
