/**
 The mutable WriteableTuple family. The seven fixed-arity classes
 WriteableTuple<T1> … WriteableTuple<T1..T7> are one class, SmallTuple, whose
 arity is the constant Size; the eight-slot WriteableTuple<T1..T7,TRest> is
 ExtendedTuple, whose Rest slot is a Link. Components are kept as what their
 own ToString yields (see Rendering.Item).
 */
module WriteableTuples {
  import opened Rendering

  /** WriteableTuple<T1> … WriteableTuple<T1..T7>: settable items and a constant Size. */
  class SmallTuple {
    const Size: nat
    var items: seq<Item>

    /** The arity is fixed at construction: the items always number Size. */
    ghost predicate Valid()
      reads this
    {
      1 <= Size <= 7 && |items| == Size
    }

    constructor (values: seq<Item>)
      requires 1 <= |values| <= 7
      ensures Valid() && Size == |values| && items == values
    {
      Size := |values|;
      items := values;
    }

    /** "(" + the items joined by ", " + ")". */
    function ToString(): (r: string)
      reads this
      ensures r == "(" + ToStringEnd()
    {
      "(" + Join(items) + ")"
    }

    /** The form used when this tuple is the Rest of an extended tuple: no leading "(". */
    function ToStringEnd(): (r: string)
      reads this
      ensures |r| > 0 && r[|r| - 1] == ')'
      ensures r[..|r| - 1] == Join(items)
    {
      Join(items) + ")"
    }

    /** The setter of Item<n>: only slot n changes, and Size stays. */
    method SetItem(n: nat, v: Item)
      requires Valid() && 1 <= n <= Size
      modifies this
      ensures Valid()
      ensures items == old(items)[n - 1 := v]
      ensures ToString() == "(" + Join(old(items)[n - 1 := v]) + ")"
    {
      items := items[n - 1 := v];
    }
  }

  /**
   The runtime value held in the Rest slot of an extended tuple: a tuple of
   either kind, some other non-null value (kept as the text its ToString
   contributes), or null.
   */
  datatype Link = ToSmall(s: SmallTuple) | ToExt(e: ExtendedTuple) | Opaque(text: string) | Null
  {
    /** `rest is ITupleInternal` */
    predicate IsTuple()
    {
      ToSmall? || ToExt?
    }
  }

  /** The objects a link's rendering reads. */
  ghost function Footprint(l: Link): set<object>
    reads if l.ToExt? then {l.e} else {}
  {
    match l
    case ToSmall(s) => {s}
    case ToExt(e) => e.Repr
    case _ => {}
  }

  /** The linked tuple, if any, satisfies its own invariant. */
  ghost predicate Sound(l: Link)
    reads if l.ToSmall? then {l.s} else {}
    reads if l.ToExt? then {l.e} + l.e.Repr else {}
  {
    match l
    case ToSmall(s) => s.Valid()
    case ToExt(e) => e.Valid()
    case _ => true
  }

  /** WriteableTuple<T1..T7,TRest>: seven settable items and a settable Rest. */
  class ExtendedTuple {
    var items: seq<Item>
    var rest: Link
    ghost var Repr: set<object>

    /**
     Seven items, and the chain of Rest links below this object is finite
     and does not come back to it.
     */
    ghost predicate Valid()
      reads this, Repr
      decreases Repr
    {
      && this in Repr
      && |items| == 7
      && match rest
         case ToSmall(s) => s in Repr && s.Valid()
         case ToExt(e) => e in Repr && e.Repr <= Repr && this !in e.Repr && e.Valid()
         case _ => true
    }

    /** The assignments of the constructor, after its check has passed. */
    constructor (values: seq<Item>, rest: Link)
      requires |values| == 7 && rest.IsTuple()
      ensures items == values && this.rest == rest
      ensures Repr == {this} + Footprint(rest)
      ensures Sound(rest) ==> Valid()
    {
      items := values;
      this.rest := rest;
      Repr := {this} + Footprint(rest);
    }

    /** The public constructor: it throws ArgumentException unless rest is a tuple. */
    static method New(values: seq<Item>, rest: Link) returns (r: Result<ExtendedTuple>)
      requires |values| == 7
      ensures r.Err? <==> !rest.IsTuple()
      ensures r.Err? ==> r.error == ArgumentException
      ensures r.Ok? ==> fresh(r.value) && r.value.items == values && r.value.rest == rest
      ensures r.Ok? && Sound(rest) ==> r.value.Valid()
    {
      if !rest.IsTuple() {
        return Err(ArgumentException);
      }
      var t := new ExtendedTuple(values, rest);
      r := Ok(t);
    }

    /** The flattened components of the whole chain; a non-tuple Rest counts as one more. */
    ghost function Elements(): (xs: seq<Item>)
      reads Repr
      requires Valid()
      decreases Repr
    {
      items + match rest
        case ToSmall(s) => s.items
        case ToExt(e) => e.Elements()
        case Opaque(text) => [Some(text)]
        case Null => [None]
    }

    /** The chain ends in a null Rest, whose ToString throws. */
    ghost predicate EndsInNull()
      reads Repr
      requires Valid()
      decreases Repr
    {
      match rest
      case ToExt(e) => e.EndsInNull()
      case Null => true
      case _ => false
    }

    /** Every Rest along the chain is a tuple, as the constructor checks for its own Rest. */
    ghost predicate Chained()
      reads Repr
      requires Valid()
      decreases Repr
    {
      match rest
      case ToSmall(_) => true
      case ToExt(e) => e.Chained()
      case _ => false
    }

    /** 7 + rest.Size when Rest is a tuple, otherwise 8: the number of flattened components. */
    function Size(): (n: nat)
      reads Repr
      requires Valid()
      decreases Repr
      ensures n == |Elements()|
    {
      match rest
      case ToSmall(s) => 7 + s.Size
      case ToExt(e) => 7 + e.Size()
      case _ => 8
    }

    /**
     The items, ", ", then the tail of Rest when it is a tuple, or Rest's own
     text and ")" when it is not; a null Rest throws.
     */
    function ToStringEnd(): (r: Result<string>)
      reads Repr
      requires Valid()
      decreases Repr
      ensures r == if EndsInNull() then Err(NullReference) else Ok(Join(Elements()) + ")")
    {
      match rest
      case ToSmall(s) =>
        var tail := s.ToStringEnd();
        assert tail == tail[..|tail| - 1] + ")";
        JoinAppend(items, s.items);
        assert Join(items) + ", " + tail == Join(items + s.items) + ")";
        Ok(Join(items) + ", " + tail)
      case ToExt(e) =>
        JoinAppend(items, e.Elements());
        (match e.ToStringEnd()
         case Ok(tail) =>
           assert Join(items) + ", " + tail == Join(items + e.Elements()) + ")";
           Ok(Join(items) + ", " + tail)
         case Err(x) => Err(x))
      case Opaque(text) =>
        JoinAppend(items, [Some(text)]);
        Ok(Join(items) + ", " + text + ")")
      case Null => Err(NullReference)
    }

    /** As ToStringEnd, with the opening "(" in front. */
    function ToString(): (r: Result<string>)
      reads Repr
      requires Valid()
      ensures r == match ToStringEnd()
        case Ok(tail) => Ok("(" + tail)
        case Err(x) => Err(x)
      ensures r == if EndsInNull() then Err(NullReference) else Ok("(" + Join(Elements()) + ")")
    {
      assert "(" + Join(Elements()) + ")" == "(" + (Join(Elements()) + ")");
      match rest
      case ToSmall(s) =>
        var tail := s.ToStringEnd();
        assert "(" + Join(items) + ", " + tail == "(" + (Join(items) + ", " + tail);
        Ok("(" + Join(items) + ", " + tail)
      case ToExt(e) =>
        (match e.ToStringEnd()
         case Ok(tail) =>
           assert ToStringEnd() == Ok(Join(items) + ", " + tail);
           assert "(" + Join(items) + ", " + tail == "(" + (Join(items) + ", " + tail);
           Ok("(" + Join(items) + ", " + tail)
         case Err(x) => Err(x))
      case Opaque(text) =>
        assert ToStringEnd() == Ok(Join(items) + ", " + text + ")");
        assert "(" + Join(items) + ", " + text + ")" == "(" + (Join(items) + ", " + text + ")");
        Ok("(" + Join(items) + ", " + text + ")")
      case Null => Err(NullReference)
    }

    /**
     The setter of Item<n>: only slot n changes, on any tuple, a cyclic one
     included; on a well-formed chain it is component n of the chain.
     */
    method SetItem(n: nat, v: Item)
      requires |items| == 7 && 1 <= n <= 7
      modifies this
      ensures Repr == old(Repr) && rest == old(rest)
      ensures items == old(items)[n - 1 := v]
      ensures old(Valid()) ==> Valid()
      ensures old(Valid()) ==> Elements() == old(Elements())[n - 1 := v]
      ensures old(Valid()) ==> Size() == old(Size()) && EndsInNull() == old(EndsInNull())
    {
      items := items[n - 1 := v];
    }

    /** The setter of Rest: it assigns without the constructor's tuple check. */
    method SetRest(l: Link)
      modifies this
      ensures items == old(items) && rest == l
      ensures Repr == {this} + Footprint(l)
      ensures Valid() <==> |items| == 7 && Sound(l) && this !in Footprint(l)
    {
      rest := l;
      Repr := {this} + Footprint(l);
    }
  }

  /** A chain whose every Rest is a tuple never reaches a null Rest. */
  lemma {:induction false} ChainedNeverNull(t: ExtendedTuple)
    requires t.Valid() && t.Chained()
    ensures !t.EndsInNull()
    decreases t.Repr
  {
    if t.rest.ToExt? {
      ChainedNeverNull(t.rest.e);
    }
  }

  /**
   A chain built through the constructor's check renders as one flat,
   comma-joined list in a single pair of parentheses, and Size counts it.
   */
  lemma FlatRendering(t: ExtendedTuple)
    requires t.Valid() && t.Chained()
    ensures t.ToString() == Ok("(" + Join(t.Elements()) + ")")
    ensures t.ToStringEnd() == Ok(Join(t.Elements()) + ")")
    ensures t.Size() == |t.Elements()|
  {
    ChainedNeverNull(t);
  }

  /** Nested tuples add no parentheses of their own. */
  lemma SingleParenthesisPair(t: ExtendedTuple)
    requires t.Valid() && t.Chained()
    requires FreeOf(t.Elements(), '(') && FreeOf(t.Elements(), ')')
    ensures t.ToString().Ok?
    ensures var r := t.ToString().value;
      forall i :: 0 <= i < |r| ==> (r[i] == '(' <==> i == 0) && (r[i] == ')' <==> i == |r| - 1)
  {
    FlatRendering(t);
    JoinFreeOf(t.Elements(), '(');
    JoinFreeOf(t.Elements(), ')');
    Parenthesised(Join(t.Elements()));
  }

  /** WriteableTuple.Create with one to seven values. */
  method Create(values: seq<Item>) returns (t: SmallTuple)
    requires 1 <= |values| <= 7
    ensures fresh(t) && t.Valid()
    ensures t.items == values && t.Size == |values|
  {
    t := new SmallTuple(values);
  }

  /** WriteableTuple.Create with eight values: the eighth goes into a 1-tuple as Rest. */
  method Create8(values: seq<Item>) returns (t: ExtendedTuple)
    requires |values| == 8
    ensures fresh(t) && t.Valid() && t.Chained()
    ensures t.items == values[..7]
    ensures t.rest.ToSmall? && fresh(t.rest.s) && t.rest.s.items == [values[7]]
    ensures t.Elements() == values && t.Size() == 8
    ensures t.ToString() == Ok("(" + Join(values) + ")")
  {
    var last := Create([values[7]]);
    var r := ExtendedTuple.New(values[..7], ToSmall(last));
    t := r.value;
    FlatRendering(t);
  }
}
