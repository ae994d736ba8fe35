/**
 * The S-expression object of s_expression.py: a wrapper around a parsed value
 * (an atom string or a tuple) that precomputes its head and tail objects.
 *
 * The objects form a graph, not a tree of values: nil is its own head and its
 * own tail, and equality between two non-empty lists is object identity. So
 * the wrapper is a class. Its fields are set by the constructor and no method
 * changes them afterwards.
 */
module SExpression {
  import opened Results
  import Tokenizer
  import SParser

  /** The value of `(h,) + t` for a tuple `t`: the data of a cons. */
  function ConsData(h: SParser.Datum, t: SParser.Datum): (r: SParser.Datum)
    requires t.Tup?
    ensures r.Tup? && |r.items| == |t.items| + 1 && r.items[0] == h && r.items[1..] == t.items
  {
    SParser.Tup([h] + t.items)
  }

  /** The one way `cons` fails: the tail holds an atom string, not a tuple. */
  datatype ConsError = TailNotTuple

  class S {
    var data: SParser.Datum
    var head: S?
    var tail: S?
    /** The objects reachable through `head` and `tail`. */
    ghost var Footprint: set<object>

    /**
     * The shape the constructor builds: an atom has no head or tail, nil is
     * its own head and tail, and a non-empty tuple has a head object holding
     * its first element and a tail object holding the rest.
     */
    ghost predicate Valid()
      reads this, Footprint
      decreases Footprint
    {
      this in Footprint &&
      match data
      case Str(_) => head == null && tail == null
      case Tup(items) =>
        if items == [] then head == this && tail == this
        else
          head != null && tail != null &&
          head in Footprint && tail in Footprint &&
          head.Footprint <= Footprint && tail.Footprint <= Footprint &&
          this !in head.Footprint && this !in tail.Footprint &&
          head.Valid() && tail.Valid() &&
          head.data == items[0] && tail.data == SParser.Tup(items[1..])
    }

    /** `S(data)`; no data (`None`) means nil, the empty tuple. */
    constructor (d: Option<SParser.Datum>)
      ensures Valid() && fresh(Footprint)
      ensures data == if d.None? then SParser.Tup([]) else d.value
      decreases if d.None? then 1 else SParser.Size(d.value)
    {
      var v := if d.None? then SParser.Tup([]) else d.value;
      data := v;
      if v.Tup? && v.items != [] {
        assert SParser.SizeEach(v.items) == SParser.Size(v.items[0]) + SParser.SizeEach(v.items[1..]);
        assert SParser.Size(v.items[0]) >= 1;
        var h := new S(Some(v.items[0]));
        var t := new S(Some(SParser.Tup(v.items[1..])));
        head, tail := h, t;
        Footprint := {this} + h.Footprint + t.Footprint;
      } else {
        head, tail := null, null;
        Footprint := {this};
      }
      new;
      if v.Tup? && v.items == [] {
        head, tail := this, this;
      }
    }

    /** `isNil`: the empty tuple. */
    function IsNil(): (b: bool)
      reads this
      ensures b <==> data.Tup? && |data.items| == 0
    {
      data == SParser.Tup([])
    }

    /** `isVar`: any data that is not a tuple is an atom string. */
    function IsVar(): (b: bool)
      reads this
      ensures b <==> !data.Tup?
    {
      data.Str?
    }

    /** `isAtom`: nil or an atom string, so every object except a non-empty tuple. */
    function IsAtom(): (b: bool)
      reads this
      ensures b <==> !(data.Tup? && data.items != [])
    {
      IsNil() || IsVar()
    }

    /** `head`: the object for the first element; nil's head is nil. Only tuples have one. */
    function Head(): (h: S)
      reads this, Footprint
      requires Valid() && data.Tup?
      ensures h in Footprint && h.Footprint <= Footprint && h.Valid()
      ensures IsNil() ==> h == this
      ensures !IsNil() ==> h != this && h.data == data.items[0]
    {
      head
    }

    /** `tail`: the object for the other elements; nil's tail is nil. Only tuples have one. */
    function Tail(): (t: S)
      reads this, Footprint
      requires Valid() && data.Tup?
      ensures t in Footprint && t.Footprint <= Footprint && t.Valid()
      ensures IsNil() ==> t == this
      ensures !IsNil() ==> t != this && t.data == SParser.Tup(data.items[1..])
    {
      tail
    }

    /** `len`: 1 for an atom string, the number of elements for a tuple. */
    function Len(): (n: nat)
      reads this
      ensures n == 0 <==> IsNil()
      ensures data.Str? ==> n == 1
      ensures data.Tup? ==> n == |data.items|
    {
      if IsVar() then 1 else |data.items|
    }

    /** `==` against another object: by value between atoms, by identity otherwise. */
    function Eq(other: S): (r: bool)
      reads this, other
      ensures r <==> this == other || (IsAtom() && data == other.data)
      ensures r ==> data == other.data
    {
      if IsAtom() && other.IsAtom() then data == other.data else this == other
    }

    /** `==` against a string: the object holds that atom. */
    function EqStr(other: string): (b: bool)
      reads this
      ensures b <==> IsVar() && data.name == other
    {
      data == SParser.Str(other)
    }

    /** `repr`: the text of the data. */
    function Show(): (text: string)
      reads this
      ensures data.Tup? && SParser.WellFormed(data) ==> SParser.ParseOf(text) == Ok(data)
    {
      if data.Tup? && SParser.WellFormed(data) then
        SParser.RoundTrip(data);
        SParser.Unparse(data)
      else
        SParser.Unparse(data)
    }

    /**
     * `cons`: a new object for the tuple with `h`'s data in front of `t`'s
     * elements. A tail holding an atom string cannot be appended to a tuple:
     * that is the `TypeError` of the source.
     */
    static method Cons(h: S, t: S) returns (r: Result<S, ConsError>)
      ensures r.Err? <==> t.data.Str?
      ensures r.Ok? ==> fresh(r.value.Footprint) && r.value.Valid()
      ensures r.Ok? ==> t.data.Tup? && r.value.data == ConsData(h.data, t.data)
      ensures r.Ok? ==> r.value.Len() == t.Len() + 1
    {
      if t.data.Str? {
        return Err(TailNotTuple);
      }
      var c := new S(Some(ConsData(h.data, t.data)));
      return Ok(c);
    }

    /** `S.parse`: a new object for the parsed text. */
    static method Parse(text: string) returns (r: Result<S, SParser.ParseError>)
      ensures r.Ok? ==> fresh(r.value.Footprint) && r.value.Valid()
      ensures r.Ok? ==> SParser.ParseOf(text) == Ok(r.value.data)
      ensures r.Err? ==> SParser.ParseOf(text) == Err(r.error)
    {
      var p := SParser.Parse(text);
      if p.Err? {
        return Err(p.error);
      }
      var x := new S(Some(p.value));
      return Ok(x);
    }
  }

  // ---------------------------------------------------------------------
  // Properties

  /** An object is nil exactly when it is a tuple that is its own head (and then its own tail). */
  lemma NilIsOwnHead(x: S)
    requires x.Valid()
    ensures x.IsNil() <==> x.data.Tup? && x.head == x
    ensures x.IsNil() ==> x.tail == x
  {
    if x.data.Tup? && x.data.items != [] {
      assert x.head.Valid();
      assert x.head in x.head.Footprint;
    }
  }

  /** Consing the head of a non-empty tuple onto its tail gives the tuple's data back. */
  lemma ConsOfHeadAndTail(x: S)
    requires x.Valid() && x.data.Tup? && !x.IsNil()
    ensures ConsData(x.Head().data, x.Tail().data) == x.data
  {
    var items := x.data.items;
    assert [items[0]] + items[1..] == items;
  }

  /** The length of a non-empty tuple is one more than its tail's. */
  lemma TailIsShorter(x: S)
    requires x.Valid() && x.data.Tup? && !x.IsNil()
    ensures x.Tail().Len() == x.Len() - 1
  {
  }

  /** Equality is reflexive and symmetric. */
  lemma EqReflexiveSymmetric(a: S, b: S)
    ensures a.Eq(a)
    ensures a.Eq(b) == b.Eq(a)
  {
  }

  /** Two atoms are equal when their data are, whichever objects hold them. */
  lemma EqualAtomsAreEqual(a: S, b: S)
    requires a.IsAtom() && a.data == b.data
    ensures a.Eq(b)
  {
  }

  /** Two distinct objects for the same non-empty tuple are not equal. */
  lemma DistinctListsAreUnequal(a: S, b: S)
    requires a != b && a.data == b.data && a.data.Tup? && a.data.items != []
    ensures !a.Eq(b)
  {
  }

  /** An object parsed from the text of a well-formed tuple shows that text again. */
  lemma ShowAfterParse(x: S, e: SParser.Datum)
    requires e.Tup? && SParser.WellFormed(e)
    requires SParser.ParseOf(SParser.Unparse(e)) == Ok(x.data)
    ensures x.Show() == SParser.Unparse(e)
    ensures x.Len() == |e.items|
  {
    SParser.RoundTrip(e);
  }

  /** The documented `S.parse('()')` is nil. */
  lemma ParsedEmptyIsNil(x: S)
    requires SParser.ParseOf("()") == Ok(x.data)
    ensures x.IsNil() && x.IsAtom() && !x.IsVar() && x.Len() == 0
  {
    SParser.EmptyTupleExample();
  }

  /**
   * The documented `S.parse('(foo bar)') == S.parse('(foo bar)')` is false:
   * parsing the same non-empty tuple text twice gives two unequal objects.
   */
  method ParseTwiceUnequal(e: SParser.Datum) returns (same: bool)
    requires e.Tup? && e.items != [] && SParser.WellFormed(e)
    ensures !same
  {
    SParser.RoundTrip(e);
    var x := S.Parse(SParser.Unparse(e));
    var y := S.Parse(SParser.Unparse(e));
    assert x.value in x.value.Footprint;
    same := x.value.Eq(y.value);
  }
}
