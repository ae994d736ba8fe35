/**
 * The evaluator prototype of eval.py: atoms, list nodes chained through
 * `next` and ended by `nil`, the list builder `li`, the flattening `vals`,
 * and an `eval` that knows only self-evaluating atoms, `quote` and `atom`.
 *
 * Nodes never change after construction, so values are a datatype. An atom
 * is identified by its name here: a second `Atom("()")` is the same value as
 * `nil`, whereas the source tells the two objects apart.
 */
module Evaluator {
  import opened Results
  import opened Text

  /** An atom, or a list node holding a value and the rest of the list. */
  datatype Value = Atom(name: string) | Node(value: Value, next: Value)

  /** The ways evaluation and flattening fail. */
  datatype EvalError = NoValues | NYI

  /** The empty list, itself an atom. */
  const Nil: Value := Atom("()")

  /** Truth. */
  const T: Value := Atom("t")

  /** What the `Node` constructor demands of its `next`: `nil` or another node. */
  predicate ProperNext(next: Value)
  {
    next == Nil || next.Node?
  }

  /** A value all of whose nodes, including nested ones, were built by the `Node` constructor. */
  predicate WellFormed(v: Value)
  {
    match v
    case Atom(_) => true
    case Node(x, next) => ProperNext(next) && WellFormed(x) && WellFormed(next)
  }

  /** `isAtom`: true for atoms and false for nodes; an atom is its own value, a node is not. */
  function IsAtom(v: Value): (b: bool)
    ensures b <==> ValueOf(v) == v
  {
    v.Atom?
  }

  /** `isNil`: an atom named `()`; a node never is. */
  function IsNil(v: Value): (b: bool)
    ensures b <==> v == Nil
  {
    match v
    case Atom(n) => n == "()"
    case Node(_, _) => false
  }

  /** `value`: an atom is its own value, a node holds one. */
  function ValueOf(v: Value): (r: Value)
    ensures v.Atom? ==> r == v
    ensures v.Node? ==> r < v
  {
    match v
    case Atom(_) => v
    case Node(x, _) => x
  }

  /** The elements along the `next` chain, or the error for a chain ending in an atom other than `nil`. */
  function Elements(v: Value): Result<seq<Value>, EvalError>
  {
    match v
    case Atom(_) => if IsNil(v) then Ok([]) else Err(NoValues)
    case Node(x, next) =>
      match Elements(next)
      case Ok(rest) => Ok([x] + rest)
      case Err(e) => Err(e)
  }

  /** `vals`: the rest of the chain flattened first, then the node's value inserted in front. */
  method Vals(v: Value) returns (r: Result<seq<Value>, EvalError>)
    ensures r == Elements(v)
    ensures WellFormed(v) && ProperNext(v) ==> r.Ok?
  {
    match v
    case Atom(_) =>
      if IsNil(v) {
        return Ok([]);
      }
      return Err(NoValues);
    case Node(x, next) =>
      var ret := Vals(next);
      if ret.Err? {
        return ret;
      }
      return Ok([x] + ret.value);
  }

  /** `li`: the list of the given elements, built from nodes ended by `nil`. */
  function Li(elements: seq<Value>): (v: Value)
    ensures ProperNext(v)
    ensures v == Nil <==> elements == []
  {
    if elements == [] then Nil else Node(elements[0], Li(elements[1..]))
  }

  /** `li` builds well-formed lists from well-formed elements. */
  lemma {:induction false} LiWellFormed(elements: seq<Value>)
    requires forall i :: 0 <= i < |elements| ==> WellFormed(elements[i])
    ensures WellFormed(Li(elements))
  {
    if elements != [] {
      LiWellFormed(elements[1..]);
    }
  }

  /** `vals` undoes `li`. */
  lemma {:induction false} ElementsOfLi(elements: seq<Value>)
    ensures Elements(Li(elements)) == Ok(elements)
  {
    if elements != [] {
      ElementsOfLi(elements[1..]);
      assert [elements[0]] + elements[1..] == elements;
    }
  }

  /** And `li` undoes `vals`: a well-formed list is rebuilt from its elements. */
  lemma {:induction false} LiOfElements(v: Value)
    requires WellFormed(v) && ProperNext(v)
    ensures Elements(v).Ok? && Li(Elements(v).value) == v
  {
    if v.Node? {
      LiOfElements(v.next);
      assert (Elements(v).value)[1..] == Elements(v.next).value;
    }
  }

  /** Every chain of a well-formed value is a proper list, so `vals` succeeds on every node. */
  lemma {:induction false} WellFormedNodesHaveElements(v: Value)
    requires WellFormed(v) && v.Node?
    ensures Elements(v).Ok? && |Elements(v).value| >= 1
  {
    if v.next.Node? {
      WellFormedNodesHaveElements(v.next);
    }
  }

  /** `vals` on an atom: the empty list for `nil`, an error for any other. */
  lemma AtomElements(name: string)
    ensures Elements(Atom(name)) == if name == "()" then Ok([]) else Err(NoValues)
  {
  }

  /** `repr`: an atom's name, or the elements' texts spaced inside parentheses. */
  function Show(v: Value): (text: string)
    ensures v.Node? ==> |text| >= 2 && text[0] == '(' && text[|text| - 1] == ')'
    decreases v, 1
  {
    match v
    case Atom(n) => n
    case Node(_, _) => "(" + Join(ShowChain(v), " ") + ")"
  }

  /** The texts of the values along the `next` chain. */
  function ShowChain(v: Value): (texts: seq<string>)
    ensures texts == [] <==> v.Atom?
    decreases v, 0
  {
    match v
    case Atom(_) => []
    case Node(x, next) => [Show(x)] + ShowChain(next)
  }

  /** The texts along the chain are the texts of the elements `vals` returns, in order. */
  lemma {:induction false} ShowChainIsElements(v: Value)
    requires Elements(v).Ok?
    ensures |ShowChain(v)| == |Elements(v).value|
    ensures forall i :: 0 <= i < |ShowChain(v)| ==> ShowChain(v)[i] == Show(Elements(v).value[i])
  {
    if v.Node? {
      ShowChainIsElements(v.next);
      assert Elements(v).value == [v.value] + Elements(v.next).value;
    }
  }

  /**
   * `eval`: an atom evaluates to itself; `(quote x ...)` gives `x` unevaluated,
   * and `(atom x ...)` gives `t` when `x` evaluates to an atom and `nil` when
   * it evaluates to a list. Anything else is not yet implemented. Extra
   * arguments are ignored, and `(quote)` gives `nil`, the value of `nil`.
   */
  function Eval(e: Value): (r: Result<Value, EvalError>)
    ensures e.Atom? ==> r == Ok(e)
    ensures r.Err? ==> r.error == NYI
    ensures r.Ok? && e.Node? && e.value == Atom("atom") ==> r.value == T || r.value == Nil
    decreases e
  {
    match e
    case Atom(_) => Ok(e)
    case Node(head, next) =>
      if head.Atom? && head.name == "quote" then
        Ok(ValueOf(next))
      else if head.Atom? && head.name == "atom" then
        match Eval(ValueOf(next))
        case Ok(v) => Ok(if IsAtom(v) then T else Nil)
        case Err(err) => Err(err)
      else
        Err(NYI)
  }

  /** `quote` returns its argument unevaluated, whatever follows it. */
  lemma QuoteReturnsArgument(x: Value, rest: seq<Value>)
    ensures Eval(Li([Atom("quote"), x] + rest)) == Ok(x)
  {
    assert ([Atom("quote"), x] + rest)[1..] == [x] + rest;
  }

  /** A bare `(quote)` gives `nil`, because `nil` is its own value. */
  lemma BareQuoteIsNil()
    ensures Eval(Li([Atom("quote")])) == Ok(Nil)
  {
    assert [Atom("quote")][1..] == [];
  }

  /** `atom` is true exactly when its argument evaluates to an atom, `nil` included. */
  lemma AtomTestsArgument(x: Value, rest: seq<Value>)
    ensures Eval(Li([Atom("atom"), x] + rest)) ==
      match Eval(x)
      case Ok(v) => Ok(if v.Atom? then T else Nil)
      case Err(err) => Err(err)
  {
    assert ([Atom("atom"), x] + rest)[1..] == [x] + rest;
  }

  /** A list headed by a list, or by any atom other than `quote` and `atom`, is not implemented. */
  lemma OtherFormsAreNotImplemented(e: Value)
    requires e.Node?
    requires !(e.value.Atom? && (e.value.name == "quote" || e.value.name == "atom"))
    ensures Eval(e) == Err(NYI)
  {
  }

  /** Exactly the atoms evaluate to themselves: no form gives back the list it is. */
  lemma SelfEvaluatingIffAtom(e: Value)
    ensures Eval(e) == Ok(e) <==> IsAtom(e)
  {
    if e.Node? && e.value.Atom? && e.value.name == "quote" {
      assert ValueOf(e.next) == e.next || ValueOf(e.next) < e.next;
    }
  }

  /** The documented `(quote a)` and `(quote (a b c))`. */
  lemma QuoteExamples()
    ensures Eval(Li([Atom("quote"), Atom("a")])) == Ok(Atom("a"))
    ensures Eval(Li([Atom("quote"), Li([Atom("a"), Atom("b"), Atom("c")])]))
         == Ok(Li([Atom("a"), Atom("b"), Atom("c")]))
  {
    QuoteReturnsArgument(Atom("a"), []);
    assert [Atom("quote"), Atom("a")] + [] == [Atom("quote"), Atom("a")];
    var abc := Li([Atom("a"), Atom("b"), Atom("c")]);
    QuoteReturnsArgument(abc, []);
    assert [Atom("quote"), abc] + [] == [Atom("quote"), abc];
  }

  /** The module's fixtures: `(atom (quote a))`, `(atom (quote (a b c))`, `(atom (quote ()))`. */
  lemma FixtureExamples()
    ensures Eval(Node(Atom("atom"), Node(Node(Atom("quote"), Node(Atom("a"), Nil)), Nil))) == Ok(T)
    ensures Eval(Node(Atom("atom"), Node(Node(Atom("quote"),
      Node(Node(Atom("a"), Node(Atom("b"), Node(Atom("c"), Nil))), Nil)), Nil))) == Ok(Nil)
    ensures Eval(Node(Atom("atom"), Node(Node(Atom("quote"), Node(Nil, Nil)), Nil))) == Ok(T)
  {
  }

  /** A list's text from its elements' texts, one element at a time. */
  lemma ShowChainCons(x: Value, rest: seq<Value>)
    ensures ShowChain(Li([x] + rest)) == [Show(x)] + ShowChain(Li(rest))
  {
    assert ([x] + rest)[1..] == rest;
  }

  /** The documented rendering `(foo bar)`, for any two atom names. */
  lemma ShowPairExample(f: string, g: string)
    ensures Show(Li([Atom(f), Atom(g)])) == "(" + f + " " + g + ")"
  {
    ShowChainCons(Atom(f), [Atom(g)]);
    ShowChainCons(Atom(g), []);
    assert [Atom(g)] + [] == [Atom(g)];
    assert ShowChain(Li([Atom(f), Atom(g)])) == [f, g];
    assert [f, g][1..] == [g];
    assert Join([f, g], " ") == f + " " + g;
    assert Li([Atom(f), Atom(g)]).Node?;
  }

  /** A one-element list shows as its element's text in parentheses. */
  lemma ShowSingleton(x: Value)
    ensures Show(Li([x])) == "(" + Show(x) + ")"
  {
    ShowChainCons(x, []);
    assert [x] + [] == [x];
    assert Join([Show(x)], " ") == Show(x);
  }

  /** The texts of a two-element list are its elements' texts. */
  lemma ShowChainTwo(y: Value, z: Value)
    ensures ShowChain(Li([y, z])) == [Show(y), Show(z)]
  {
    ShowChainCons(z, []);
    assert [z] + [] == [z];
    ShowChainCons(y, [z]);
    assert [y] + [z] == [y, z];
  }

  /** The texts of a four-element list are its elements' texts. */
  lemma ShowChainFour(w: Value, x: Value, y: Value, z: Value)
    ensures ShowChain(Li([w, x, y, z])) == [Show(w), Show(x), Show(y), Show(z)]
  {
    ShowChainTwo(y, z);
    ShowChainCons(x, [y, z]);
    assert [x] + [y, z] == [x, y, z];
    ShowChainCons(w, [x, y, z]);
    assert [w] + [x, y, z] == [w, x, y, z];
  }

  /** The documented rendering `(a b (c) d)`, for any four atom names. */
  lemma ShowNestedExample(a: string, b: string, c: string, d: string)
    ensures Show(Li([Atom(a), Atom(b), Li([Atom(c)]), Atom(d)]))
         == "(" + a + " " + b + " " + "(" + c + ")" + " " + d + ")"
  {
    var lc := Li([Atom(c)]);
    ShowSingleton(Atom(c));
    ShowChainFour(Atom(a), Atom(b), lc, Atom(d));
    var cc := "(" + c + ")";
    JoinCons(cc, [d], " ");
    assert [cc] + [d] == [cc, d];
    JoinCons(b, [cc, d], " ");
    assert [b] + [cc, d] == [b, cc, d];
    JoinCons(a, [b, cc, d], " ");
    assert [a] + [b, cc, d] == [a, b, cc, d];
    assert Li([Atom(a), Atom(b), lc, Atom(d)]).Node?;
  }
}
