/**
 * The symbols of symbol.py: an immutable name, compared by name, with the
 * two distinguished symbols `NIL` and `T`.
 */
module Symbols {

  /** A symbol is its name; the constructor accepts only strings, which the type enforces. */
  datatype Symbol = Symbol(atom: string)

  /** `Symbol.NIL`. */
  const NIL: Symbol := Symbol("NIL")

  /** `Symbol.T`. */
  const T: Symbol := Symbol("T")

  /**
   * `==` between symbols compares names. That is the same as comparing the
   * symbols themselves: two symbols with one name cannot be told apart.
   */
  function Equals(a: Symbol, b: Symbol): (r: bool)
    ensures r <==> a == b
  {
    a.atom == b.atom
  }

  /** `hash`: the hash of the name, for the string hash the runtime supplies. */
  function Hash(s: Symbol, hashString: string -> int): (h: int)
    ensures forall t: Symbol {:trigger Equals(s, t)} :: Equals(s, t) ==> h == hashString(t.atom)
  {
    hashString(s.atom)
  }

  /** Equal symbols hash alike, whatever the string hash is. */
  lemma HashAgreesWithEquality(a: Symbol, b: Symbol, hashString: string -> int)
    requires Equals(a, b)
    ensures Hash(a, hashString) == Hash(b, hashString)
  {
  }

  /** `repr`: the name itself, from which the symbol is rebuilt. */
  function Show(s: Symbol): (text: string)
    ensures Symbol(text) == s
  {
    s.atom
  }

  /** `isNIL` on a symbol: its name is `NIL`. (On anything else it is false; see the cons cells.) */
  function IsNIL(s: Symbol): (b: bool)
    ensures b <==> s == NIL
  {
    s.atom == "NIL"
  }

  /** Symbols with different names are different; a name shows as itself. */
  lemma NamesDistinguish(x: string, y: string)
    ensures Equals(Symbol(x), Symbol(y)) <==> x == y
    ensures Show(Symbol(x)) == x
  {
  }

  /** The documented facts about the two constants: they show as `NIL` and `T`, and only `NIL` is NIL. */
  lemma ConstantsExample()
    ensures Show(NIL) == "NIL" && Show(T) == "T"
    ensures IsNIL(Symbol("NIL")) && !IsNIL(T)
    ensures Equals(Symbol("A"), Symbol("A")) && !Equals(Symbol("A"), Symbol("B"))
  {
    assert T.atom[0] != NIL.atom[0];
    assert "A"[0] != "B"[0];
  }
}
