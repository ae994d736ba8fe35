/**
 * The cons cells of cons.py. A cell's `car` is a cell or a symbol and its
 * `cdr` is a cell or `NIL`; cells are not changed after construction, so they
 * are values. Rendering walks the `cdr` chain with a loop.
 */
module Cells {
  import opened Text
  import opened Symbols

  /** A symbol or a cell. */
  datatype Obj = Sym(sym: Symbol) | Cell(car: Obj, cdr: Obj)

  /** `isNIL` on any object: only the symbol named `NIL` is NIL; a cell never is. */
  function IsNILObj(o: Obj): (b: bool)
    ensures b <==> o == Sym(NIL)
  {
    o.Sym? && IsNIL(o.sym)
  }

  /** What the constructor asserts of a `cdr`: a cell or the NIL symbol. */
  predicate ProperCdr(cdr: Obj)
  {
    cdr.Cell? || IsNILObj(cdr)
  }

  /** Every cell in the object, in `car` and in `cdr` position, passed the constructor's checks. */
  predicate WellFormed(o: Obj)
  {
    match o
    case Sym(_) => true
    case Cell(car, cdr) => ProperCdr(cdr) && WellFormed(car) && WellFormed(cdr)
  }

  /** The `car`s along the `cdr` chain, up to the terminating symbol. */
  function Cars(o: Obj): seq<Obj>
  {
    match o
    case Sym(_) => []
    case Cell(car, cdr) => [car] + Cars(cdr)
  }

  /** `repr`: a symbol's name, or the texts of the `car`s spaced inside parentheses. */
  function Show(o: Obj): (text: string)
    ensures o.Cell? ==> |text| >= 2 && text[0] == '(' && text[|text| - 1] == ')'
    decreases o, 1
  {
    match o
    case Sym(s) => Symbols.Show(s)
    case Cell(_, _) => "(" + Join(ShowChain(o), " ") + ")"
  }

  /** The texts of the `car`s along the `cdr` chain. */
  function ShowChain(o: Obj): (texts: seq<string>)
    ensures |texts| == |Cars(o)|
    decreases o, 0
  {
    match o
    case Sym(_) => []
    case Cell(car, cdr) => [Show(car)] + ShowChain(cdr)
  }

  /** The texts of the given objects, in order. */
  function ShowEach(xs: seq<Obj>): (texts: seq<string>)
    ensures |texts| == |xs|
    ensures forall i :: 0 <= i < |xs| ==> texts[i] == Show(xs[i])
  {
    if xs == [] then [] else [Show(xs[0])] + ShowEach(xs[1..])
  }

  /** The chain's texts are the texts of its `car`s. */
  lemma {:induction false} ShowChainIsShowEachCar(o: Obj)
    ensures ShowChain(o) == ShowEach(Cars(o))
  {
    if o.Cell? {
      ShowChainIsShowEachCar(o.cdr);
      assert ([o.car] + Cars(o.cdr))[1..] == Cars(o.cdr);
    }
  }

  /**
   * `repr` of a cell: collect the `car`s while the current object is not NIL,
   * then join their texts with spaces inside parentheses.
   */
  method Render(c: Obj) returns (s: string)
    requires c.Cell? && WellFormed(c)
    ensures s == Show(c)
  {
    var curr := c;
    var top: seq<Obj> := [];
    while !IsNILObj(curr)
      invariant WellFormed(curr) && ProperCdr(curr)
      invariant Cars(c) == top + Cars(curr)
      decreases curr
    {
      top := top + [curr.car];
      curr := curr.cdr;
    }
    assert Cars(curr) == [];
    assert top == Cars(c);
    ShowChainIsShowEachCar(c);
    s := "(" + Join(ShowEach(top), " ") + ")";
  }

  /** The chain of cells holding the given objects, ended by NIL. */
  function Chain(xs: seq<Obj>): (o: Obj)
    ensures ProperCdr(o)
  {
    if xs == [] then Sym(NIL) else Cell(xs[0], Chain(xs[1..]))
  }

  /** Building a chain passes the constructor's checks, and walking it gives the objects back. */
  lemma {:induction false} ChainRoundTrip(xs: seq<Obj>)
    requires forall i :: 0 <= i < |xs| ==> WellFormed(xs[i])
    ensures WellFormed(Chain(xs))
    ensures Cars(Chain(xs)) == xs
  {
    if xs != [] {
      ChainRoundTrip(xs[1..]);
      assert [xs[0]] + xs[1..] == xs;
    }
  }

  /** And every well-formed chain is built that way from its `car`s. */
  lemma {:induction false} ChainOfCars(o: Obj)
    requires WellFormed(o) && ProperCdr(o)
    ensures Chain(Cars(o)) == o
  {
    if o.Cell? {
      ChainOfCars(o.cdr);
      assert ([o.car] + Cars(o.cdr))[1..] == Cars(o.cdr);
    }
  }

  /** NIL in `car` position is an element: the documented `(NIL)` and `(T)`. */
  lemma SingletonExamples()
    ensures Show(Cell(Sym(NIL), Sym(NIL))) == "(NIL)"
    ensures Show(Cell(Sym(T), Sym(NIL))) == "(T)"
  {
    assert ShowChain(Cell(Sym(NIL), Sym(NIL))) == ["NIL"];
    assert ShowChain(Cell(Sym(T), Sym(NIL))) == ["T"];
  }

  /** The texts of a chain of three symbols are their names. */
  lemma TripleTexts(a: string, b: string, c: string)
    ensures var o := Chain([Sym(Symbol(a)), Sym(Symbol(b)), Sym(Symbol(c))]);
      o.Cell? && ShowChain(o) == [a, b, c]
  {
    var xs := [Sym(Symbol(a)), Sym(Symbol(b)), Sym(Symbol(c))];
    ChainRoundTrip(xs);
    ShowChainIsShowEachCar(Chain(xs));
    assert ShowEach(xs) == [a, b, c];
  }

  /** The documented `(A B C)`, for any three symbol names. */
  lemma TripleExample(a: string, b: string, c: string)
    ensures Show(Chain([Sym(Symbol(a)), Sym(Symbol(b)), Sym(Symbol(c))])) == "(" + a + " " + b + " " + c + ")"
  {
    TripleTexts(a, b, c);
    JoinThree(a, b, c, " ");
  }
}
