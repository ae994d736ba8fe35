/**
 * The recursive-descent parser of s_parser.py, which turns text into nested
 * tuples of atom strings, and its inverse `unparse`.
 *
 * The parser works on the token list of the text with the sentinel "(EOL)"
 * appended. `ETupleOf` and `ExprOf` are the functional reading of
 * `parse_etuple` and `parse_expr`; the class `Tokens` is the token queue the
 * source mutates, and its methods are proved to compute those functions.
 */
module SParser {
  import opened Results
  import opened Text
  import Tokenizer

  /** A parsed value: an atom string or a tuple of values. */
  datatype Datum = Str(name: string) | Tup(items: seq<Datum>)

  /** The three ways parsing fails. */
  datatype ParseError = Unmatched | PrematureEOL | ExtraStuff

  /** The sentinel appended after the last token. */
  const EOL: string := "(EOL)"

  /** A token list that still ends with the sentinel. */
  predicate Terminated(ts: seq<string>)
  {
    |ts| > 0 && ts[|ts| - 1] == EOL
  }

  // ---------------------------------------------------------------------
  // The parser as functions on token lists

  /**
   * `parse_etuple` on the token list `ts`: the elements up to the `)` that
   * closes the tuple, and the tokens left, which start with that `)` (it is
   * not consumed here). A nested tuple is followed by `_close`, which drops
   * the next token without looking at it.
   */
  function ETupleOf(ts: seq<string>): (r: Result<(seq<Datum>, seq<string>), ParseError>)
    requires Terminated(ts)
    ensures r.Ok? ==> var rest := r.value.1;
      |rest| <= |ts| && Terminated(rest) && rest[0] == ")"
    ensures r.Err? ==> r.error == PrematureEOL
    decreases |ts|
  {
    var h := ts[0];
    if h == "(" then
      match ETupleOf(ts[1..])
      case Err(e) => Err(e)
      case Ok((inner, rest)) =>
        match ETupleOf(rest[1..])
        case Err(e) => Err(e)
        case Ok((more, rest')) => Ok(([Tup(inner)] + more, rest'))
    else if h == ")" then
      Ok(([], ts))
    else if h == EOL then
      Err(PrematureEOL)
    else
      match ETupleOf(ts[1..])
      case Err(e) => Err(e)
      case Ok((more, rest)) => Ok(([Str(h)] + more, rest))
  }

  /**
   * `parse_expr` on the token list `ts`. An atom is accepted only when it is
   * the last token, which, with the sentinel always present, it never is.
   */
  function ExprOf(ts: seq<string>): (r: Result<Datum, ParseError>)
    requires Terminated(ts)
    ensures r.Ok? ==> r.value.Tup?
  {
    var h := ts[0];
    if h == "(" then
      match ETupleOf(ts[1..])
      case Err(e) => Err(e)
      case Ok((items, _)) => Ok(Tup(items))
    else if h == ")" then
      Err(Unmatched)
    else if h == EOL then
      Err(PrematureEOL)
    else if |ts| > 1 then
      Err(ExtraStuff)
    else
      Ok(Str(h))
  }

  /** `parse` on a text. */
  function ParseOf(s: string): Result<Datum, ParseError>
  {
    ExprOf(Tokenizer.Tokens(s) + [EOL])
  }

  // ---------------------------------------------------------------------
  // The token queue

  /** The token queue `_Tokens`: the remaining tokens, ending with the sentinel. */
  class Tokens {
    var tokens: seq<string>

    predicate Valid()
      reads this
    {
      Terminated(tokens)
    }

    /** The tokens of `s` followed by the sentinel. */
    constructor (s: string)
      ensures tokens == Tokenizer.Tokens(s) + [EOL]
      ensures Valid()
    {
      var ts := Tokenizer.Tokenize(s);
      tokens := ts + [EOL];
    }

    /** The next token; the queue is never empty while it is valid, and its last token is the sentinel. */
    function Head(): (h: string)
      reads this
      requires Valid()
      ensures |tokens| == 1 ==> h == EOL
    {
      tokens[0]
    }

    /** Drops the next token (an empty queue stays empty). */
    method Next()
      modifies this
      ensures tokens == if old(tokens) == [] then [] else old(tokens)[1..]
    {
      if tokens != [] {
        tokens := tokens[1..];
      }
    }

    /**
     * Drops the next token, which should be `)`; the source builds an error
     * for any other token but does not raise it.
     */
    method Close()
      requires tokens != []
      modifies this
      ensures tokens == old(tokens)[1..]
    {
      Next();
    }

    method ParseETuple() returns (r: Result<seq<Datum>, ParseError>)
      requires Valid()
      modifies this
      ensures ETupleOf(old(tokens)) == if r.Ok? then Ok((r.value, tokens)) else Err(r.error)
      ensures r.Ok? ==> Valid()
      decreases |tokens|
    {
      var h := Head();
      if h == "(" {
        Next();
        var inner := ParseETuple();
        if inner.Err? {
          return Err(inner.error);
        }
        assert tokens[0] == ")";
        Close();
        var more := ParseETuple();
        if more.Err? {
          return Err(more.error);
        }
        return Ok([Tup(inner.value)] + more.value);
      } else if h == ")" {
        return Ok([]);
      } else if h == EOL {
        return Err(PrematureEOL);
      } else {
        var ret := [Str(h)];
        Next();
        var more := ParseETuple();
        if more.Err? {
          return Err(more.error);
        }
        return Ok(ret + more.value);
      }
    }

    method ParseExpr() returns (r: Result<Datum, ParseError>)
      requires Valid()
      modifies this
      ensures r == ExprOf(old(tokens))
      ensures r.Ok? ==> old(tokens)[0] == "(" && |old(tokens)| > 1 && ETupleOf(old(tokens)[1..]).Ok?
      ensures r.Ok? ==> Valid() && tokens == ETupleOf(old(tokens)[1..]).value.1 && tokens[0] == ")"
    {
      var h := Head();
      if h == "(" {
        Next();
        var items := ParseETuple();
        if items.Err? {
          return Err(items.error);
        }
        return Ok(Tup(items.value));
      } else if h == ")" {
        return Err(Unmatched);
      } else if h == EOL {
        return Err(PrematureEOL);
      } else {
        if |tokens| > 1 {
          return Err(ExtraStuff);
        }
        return Ok(Str(h));
      }
    }
  }

  /** `parse`: tokenize the text and read one expression. */
  method Parse(s: string) returns (r: Result<Datum, ParseError>)
    ensures r == ParseOf(s)
    ensures r.Ok? ==> r.value.Tup?
  {
    var t := new Tokens(s);
    r := t.ParseExpr();
  }

  // ---------------------------------------------------------------------
  // Unparsing

  /** `unparse`: an atom is its own text, a tuple its elements' texts spaced inside parentheses. */
  function Unparse(e: Datum): (r: string)
    ensures e.Tup? ==> |r| >= 2 && r[0] == '(' && r[|r| - 1] == ')'
    decreases e
  {
    match e
    case Str(a) => a
    case Tup(items) => "(" + Join(UnparseEach(items), " ") + ")"
  }

  /** The unparse of each element, in order. */
  function UnparseEach(items: seq<Datum>): (r: seq<string>)
    ensures |r| == |items|
    decreases items
  {
    if items == [] then [] else [Unparse(items[0])] + UnparseEach(items[1..])
  }

  /** The number of atoms and tuples in a value, counted for termination. */
  function Size(e: Datum): nat
    decreases e
  {
    match e
    case Str(_) => 1
    case Tup(items) => 1 + SizeEach(items)
  }

  function SizeEach(items: seq<Datum>): nat
    decreases items
  {
    if items == [] then 0 else Size(items[0]) + SizeEach(items[1..])
  }

  /** A value every atom of which is a symbol token, so that it survives unparsing. */
  predicate WellFormed(e: Datum)
    decreases e
  {
    match e
    case Str(a) => Tokenizer.IsSymbol(a)
    case Tup(items) => WellFormedEach(items)
  }

  predicate WellFormedEach(items: seq<Datum>)
    decreases items
  {
    items == [] || (WellFormed(items[0]) && WellFormedEach(items[1..]))
  }

  /** The token list a value stands for. */
  function TokensOf(e: Datum): seq<string>
    decreases e
  {
    match e
    case Str(a) => [a]
    case Tup(items) => ["("] + ItemsTokens(items) + [")"]
  }

  function ItemsTokens(items: seq<Datum>): seq<string>
    decreases items
  {
    if items == [] then [] else TokensOf(items[0]) + ItemsTokens(items[1..])
  }

  /** The text of a well-formed value splits into exactly the tokens the value stands for. */
  lemma {:induction false} UnparseTokens(e: Datum)
    requires WellFormed(e)
    ensures Tokenizer.Tokens(Unparse(e)) == TokensOf(e)
    decreases e, 1
  {
    match e
    case Str(a) =>
      Tokenizer.SymbolIsOneToken(a);
    case Tup(items) =>
      Tokenizer.TokensParenthesized(Join(UnparseEach(items), " "));
      JoinTokens(items);
  }

  lemma {:induction false} JoinTokens(items: seq<Datum>)
    requires WellFormedEach(items)
    ensures Tokenizer.Tokens(Join(UnparseEach(items), " ")) == ItemsTokens(items)
    decreases items, 0
  {
    if items == [] {
    } else if |items| == 1 {
      UnparseTokens(items[0]);
      assert ItemsTokens(items[1..]) == [];
    } else {
      UnparseTokens(items[0]);
      JoinTokens(items[1..]);
      Tokenizer.TokensSpaced(Unparse(items[0]), Join(UnparseEach(items[1..]), " "));
    }
  }

  lemma ItemsTokensCons(x: Datum, tl: seq<Datum>)
    ensures ItemsTokens([x] + tl) == TokensOf(x) + ItemsTokens(tl)
  {
    assert ([x] + tl)[1..] == tl;
  }

  /** One step of `parse_etuple` on an atom. */
  lemma StepAtom(ts: seq<string>)
    requires Terminated(ts) && ts[0] != "(" && ts[0] != ")" && ts[0] != EOL
    ensures ETupleOf(ts) == if ETupleOf(ts[1..]).Err? then Err(ETupleOf(ts[1..]).error)
      else Ok(([Str(ts[0])] + ETupleOf(ts[1..]).value.0, ETupleOf(ts[1..]).value.1))
  {
  }

  /** One step of `parse_etuple` on a nested tuple. */
  lemma StepNested(ts: seq<string>)
    requires Terminated(ts) && ts[0] == "("
    ensures ETupleOf(ts) == if ETupleOf(ts[1..]).Err? then Err(ETupleOf(ts[1..]).error)
      else var r := ETupleOf(ts[1..]).value;
        if ETupleOf(r.1[1..]).Err? then Err(ETupleOf(r.1[1..]).error)
        else Ok(([Tup(r.0)] + ETupleOf(r.1[1..]).value.0, ETupleOf(r.1[1..]).value.1))
  {
  }

  /** A symbol is none of the three marker tokens. */
  lemma SymbolIsNoMarker(a: string)
    requires Tokenizer.IsSymbol(a)
    ensures a != "(" && a != ")" && a != EOL
  {
    assert a[0] != '(' && a[0] != ')';
    assert "("[0] == '(' && ")"[0] == ')' && EOL[0] == '(';
  }

  /** One successful step of `parse_etuple` on a symbol in front of a readable queue. */
  lemma AtomStepOk(a: string, us: seq<string>, tl: seq<Datum>, rest: seq<string>)
    requires a != "(" && a != ")" && a != EOL && Terminated(us)
    requires ETupleOf(us) == Ok((tl, rest))
    ensures ETupleOf([a] + us) == Ok(([Str(a)] + tl, rest))
  {
    var ts := [a] + us;
    assert ts[0] == a && ts[1..] == us;
    assert ts[|ts| - 1] == us[|us| - 1];
    StepAtom(ts);
  }

  /** The tokens of a symbol in front of other items. */
  lemma SymbolFirstTokens(a: string, tl: seq<Datum>, rest: seq<string>)
    ensures ItemsTokens([Str(a)] + tl) + rest == [a] + (ItemsTokens(tl) + rest)
  {
    ItemsTokensCons(Str(a), tl);
  }

  lemma NestedSplit(inner: seq<Datum>, tl: seq<Datum>, rest: seq<string>)
    ensures var ts := ItemsTokens([Tup(inner)] + tl) + rest;
      |ts| > 0 && ts[0] == "(" && ts[1..] == ItemsTokens(inner) + ([")"] + (ItemsTokens(tl) + rest))
  {
    ItemsTokensCons(Tup(inner), tl);
  }

  lemma NestedStepOk(ts: seq<string>, inner: seq<Datum>, mid: seq<string>, tl: seq<Datum>, rest: seq<string>)
    requires Terminated(ts) && ts[0] == "("
    requires ETupleOf(ts[1..]) == Ok((inner, mid))
    requires ETupleOf(mid[1..]) == Ok((tl, rest))
    ensures ETupleOf(ts) == Ok(([Tup(inner)] + tl, rest))
  {
    StepNested(ts);
  }

  lemma ReadNested(inner: seq<Datum>, tl: seq<Datum>, rest: seq<string>)
    requires Terminated(rest)
    requires ETupleOf(ItemsTokens(inner) + ([")"] + (ItemsTokens(tl) + rest)))
          == Ok((inner, [")"] + (ItemsTokens(tl) + rest)))
    requires ETupleOf(ItemsTokens(tl) + rest) == Ok((tl, rest))
    ensures ETupleOf(ItemsTokens([Tup(inner)] + tl) + rest) == Ok(([Tup(inner)] + tl, rest))
  {
    var us := ItemsTokens(tl) + rest;
    var mid := [")"] + us;
    var ts := ItemsTokens([Tup(inner)] + tl) + rest;
    NestedSplit(inner, tl, rest);
    assert mid[1..] == us;
    NestedStepOk(ts, inner, mid, tl, rest);
  }

  /** A tuple's elements are read back from their tokens up to the closing `)`. */
  lemma {:induction false} ReadItems(items: seq<Datum>, rest: seq<string>)
    requires WellFormedEach(items) && Terminated(rest) && rest[0] == ")"
    ensures ETupleOf(ItemsTokens(items) + rest) == Ok((items, rest))
    decreases SizeEach(items)
  {
    if items == [] {
      assert ItemsTokens(items) + rest == rest;
    } else {
      var tl := items[1..];
      assert items == [items[0]] + tl;
      assert WellFormed(items[0]) && WellFormedEach(tl);
      match items[0]
      case Str(a) =>
        ReadItems(tl, rest);
        SymbolIsNoMarker(a);
        SymbolFirstTokens(a, tl, rest);
        AtomStepOk(a, ItemsTokens(tl) + rest, tl, rest);
      case Tup(inner) =>
        assert SizeEach(inner) < SizeEach(items);
        ReadItems(inner, [")"] + (ItemsTokens(tl) + rest));
        ReadItems(tl, rest);
        ReadNested(inner, tl, rest);
    }
  }

  lemma AtomTokens(ts: seq<string>, items: seq<Datum>, rest: seq<string>)
    requires |ts| > 0 && ts[1..] == ItemsTokens(items) + rest
    ensures ts == ItemsTokens([Str(ts[0])] + items) + rest
  {
    ItemsTokensCons(Str(ts[0]), items);
    assert ts == [ts[0]] + ts[1..];
  }

  lemma NestedTokens(ts: seq<string>, inner: seq<Datum>, mid: seq<string>, items: seq<Datum>, rest: seq<string>)
    requires |ts| > 0 && ts[0] == "(" && ts[1..] == ItemsTokens(inner) + mid
    requires |mid| > 0 && mid[0] == ")" && mid[1..] == ItemsTokens(items) + rest
    ensures ts == ItemsTokens([Tup(inner)] + items) + rest
  {
    ItemsTokensCons(Tup(inner), items);
    assert mid == [")"] + mid[1..];
    assert ts == ["("] + ts[1..];
  }

  /**
   * Conversely, whatever `parse_etuple` returns is read from exactly the
   * tokens of its elements: the consumed tokens are `ItemsTokens(items)`.
   */
  lemma {:induction false} ItemsRead(ts: seq<string>)
    requires Terminated(ts) && ETupleOf(ts).Ok?
    ensures ts == ItemsTokens(ETupleOf(ts).value.0) + ETupleOf(ts).value.1
    decreases |ts|
  {
    var h := ts[0];
    if h == "(" {
      var r := ETupleOf(ts[1..]).value;
      ItemsRead(ts[1..]);
      var m := ETupleOf(r.1[1..]).value;
      ItemsRead(r.1[1..]);
      StepNested(ts);
      NestedTokens(ts, r.0, r.1, m.0, m.1);
    } else if h == ")" {
      assert ItemsTokens([]) + ts == ts;
    } else {
      var r := ETupleOf(ts[1..]).value;
      ItemsRead(ts[1..]);
      StepAtom(ts);
      AtomTokens(ts, r.0, r.1);
    }
  }

  /** A tuple that is read successfully was closed by some `)`. */
  lemma ReadNeedsClose(ts: seq<string>)
    requires Terminated(ts)
    ensures ETupleOf(ts).Ok? ==> ")" in ts
  {
    if ETupleOf(ts).Ok? {
      ItemsRead(ts);
      var r := ETupleOf(ts).value;
      assert ts[|ItemsTokens(r.0)|] == r.1[0];
    }
  }

  /**
   * A well-formed tuple is read back from its text, and whatever text follows
   * it is ignored: the closing `)` is never consumed and nothing checks for
   * trailing tokens.
   */
  lemma TrailingTextIgnored(e: Datum, s: string)
    requires e.Tup? && WellFormed(e)
    ensures ParseOf(Unparse(e) + s) == Ok(e)
  {
    var u := Unparse(e);
    Tokenizer.TokensAppend(u, s);
    UnparseTokens(e);
    var b := Tokenizer.Tokens(s) + [EOL];
    var ts := Tokenizer.Tokens(u + s) + [EOL];
    assert ts == TokensOf(e) + b;
    OpenSplit(ItemsTokens(e.items), b);
    ReadItems(e.items, [")"] + b);
    ExprOfTuple(ts, e.items, [")"] + b);
  }

  lemma OpenSplit(a: seq<string>, b: seq<string>)
    ensures var ts := ["("] + a + [")"] + b;
      ts[0] == "(" && ts[1..] == a + ([")"] + b)
  {
  }

  /** `parse_expr` returns the tuple `parse_etuple` read after the leading `(`. */
  lemma ExprOfTuple(ts: seq<string>, items: seq<Datum>, rest: seq<string>)
    requires Terminated(ts) && ts[0] == "(" && ETupleOf(ts[1..]) == Ok((items, rest))
    ensures ExprOf(ts) == Ok(Tup(items))
  {
  }

  /** Round trip: parsing the text of a well-formed tuple gives the tuple back. */
  lemma RoundTrip(e: Datum)
    requires e.Tup? && WellFormed(e)
    ensures ParseOf(Unparse(e)) == Ok(e)
  {
    TrailingTextIgnored(e, "");
    assert Unparse(e) + "" == Unparse(e);
  }

  /** What a successful `parse_expr` did: it read a tuple after a leading `(`. */
  lemma ExprOk(ts: seq<string>)
    requires Terminated(ts) && ExprOf(ts).Ok?
    ensures ts[0] == "(" && ETupleOf(ts[1..]).Ok?
    ensures ExprOf(ts).value == Tup(ETupleOf(ts[1..]).value.0)
  {
  }

  /** A prefix of the terminated list that does not end with the sentinel lies before it. */
  lemma PrefixBeforeSentinel(t: seq<string>, p: seq<string>, x: seq<string>)
    requires t + [EOL] == p + x
    requires p != [] && p[|p| - 1] != EOL
    ensures |p| <= |t| && t[..|p|] == p
  {
    assert (t + [EOL])[|p| - 1] == p[|p| - 1];
    assert (t + [EOL])[|t|] == EOL;
    assert t[..|p|] == (p + x)[..|p|];
  }

  lemma ClosedTokens(ts: seq<string>, items: seq<Datum>, mid: seq<string>)
    requires |ts| > 0 && ts[0] == "(" && ts[1..] == ItemsTokens(items) + mid
    requires |mid| > 0 && mid[0] == ")"
    ensures ts == TokensOf(Tup(items)) + mid[1..]
  {
    assert mid == [")"] + mid[1..];
    assert ts == ["("] + ts[1..];
  }

  /** A successful parse read a complete expression from the front of the tokens. */
  lemma ParsedPrefix(s: string)
    requires ParseOf(s).Ok?
    ensures var e, ts := ParseOf(s).value, Tokenizer.Tokens(s);
      |TokensOf(e)| <= |ts| && ts[..|TokensOf(e)|] == TokensOf(e)
  {
    var ts := Tokenizer.Tokens(s) + [EOL];
    ExprOk(ts);
    var r := ETupleOf(ts[1..]).value;
    ItemsRead(ts[1..]);
    ClosedTokens(ts, r.0, r.1);
    PrefixBeforeSentinel(Tokenizer.Tokens(s), TokensOf(Tup(r.0)), r.1[1..]);
  }

  // ---------------------------------------------------------------------
  // Errors

  /** Text that starts with `)` is unmatched. */
  lemma LeadingCloseIsUnmatched(t: string)
    ensures ParseOf(")" + t) == Err(Unmatched)
  {
    Tokenizer.TokensOfSeparator(')', t);
    assert ")" + t == [')'] + t;
  }

  /** Empty or whitespace-only text ends before any expression. */
  lemma BlankIsPrematureEOL(s: string)
    requires forall j :: 0 <= j < |s| ==> Tokenizer.IsWhitespace(s[j])
    ensures ParseOf(s) == Err(PrematureEOL)
  {
    Tokenizer.NoTokensIffWhitespace(s, 0);
  }

  /** A text whose first token is a symbol always has "extra stuff": the sentinel follows it. */
  lemma LeadingSymbolIsExtraStuff(s: string)
    requires Tokenizer.Tokens(s) != [] && Tokenizer.IsSymbol(Tokenizer.Tokens(s)[0])
    ensures ParseOf(s) == Err(ExtraStuff)
  {
    var a := Tokenizer.Tokens(s)[0];
    assert a[0] != '(' && a[0] != ')';
    Tokenizer.NoTokenIsEOL(s);
  }

  /** In particular a lone symbol, which the source's own examples expect to parse, does not. */
  lemma BareSymbolIsExtraStuff(a: string)
    requires Tokenizer.IsSymbol(a)
    ensures ParseOf(a) == Err(ExtraStuff)
  {
    Tokenizer.SymbolIsOneToken(a);
    LeadingSymbolIsExtraStuff(a);
  }

  /** A `(` that is never followed by a `)` runs into the end of the input. */
  lemma UnclosedIsPrematureEOL(s: string)
    requires Tokenizer.Tokens(s) != [] && Tokenizer.Tokens(s)[0] == "("
    requires ")" !in Tokenizer.Tokens(s)
    ensures ParseOf(s) == Err(PrematureEOL)
  {
    var ts := Tokenizer.Tokens(s) + [EOL];
    ReadNeedsClose(ts[1..]);
    assert ts[1..] == Tokenizer.Tokens(s)[1..] + [EOL];
  }

  /** The documented `()` is the empty tuple, not a tuple holding an empty tuple. */
  lemma EmptyTupleExample()
    ensures ParseOf("()") == Ok(Tup([]))
    ensures Unparse(Tup([])) == "()"
  {
    assert Unparse(Tup([])) == "()";
    RoundTrip(Tup([]));
  }

  /** The text of the elements of a one-element tuple. */
  lemma SpacedOne(x: Datum)
    ensures Join(UnparseEach([x]), " ") == Unparse(x)
  {
    assert [x][1..] == [];
  }

  /** The text of the elements of a longer tuple: the first, a space, the others. */
  lemma SpacedCons(x: Datum, rest: seq<Datum>)
    requires rest != []
    ensures Join(UnparseEach([x] + rest), " ") == Unparse(x) + " " + Join(UnparseEach(rest), " ")
  {
    assert ([x] + rest)[1..] == rest;
  }

  lemma WellFormedCons(x: Datum, rest: seq<Datum>)
    requires WellFormed(x) && WellFormedEach(rest)
    ensures WellFormedEach([x] + rest)
  {
    assert ([x] + rest)[1..] == rest;
  }

  /** The documented `(foo bar)`, for any two symbols. */
  lemma PairExample(f: string, g: string)
    requires Tokenizer.IsSymbol(f) && Tokenizer.IsSymbol(g)
    ensures Unparse(Tup([Str(f), Str(g)])) == "(" + f + " " + g + ")"
    ensures ParseOf("(" + f + " " + g + ")") == Ok(Tup([Str(f), Str(g)]))
  {
    var e := Tup([Str(f), Str(g)]);
    assert [Str(f), Str(g)] == [Str(f)] + [Str(g)];
    SpacedCons(Str(f), [Str(g)]);
    SpacedOne(Str(g));
    WellFormedCons(Str(g), []);
    WellFormedCons(Str(f), [Str(g)]);
    RoundTrip(e);
  }

  /** The documented `((foo))`, for any symbol. */
  lemma NestedExample(f: string)
    requires Tokenizer.IsSymbol(f)
    ensures Unparse(Tup([Tup([Str(f)])])) == "((" + f + "))"
    ensures ParseOf("((" + f + "))") == Ok(Tup([Tup([Str(f)])]))
  {
    var e := Tup([Tup([Str(f)])]);
    SpacedOne(Str(f));
    SpacedOne(Tup([Str(f)]));
    assert "(" + ("(" + f + ")") + ")" == "((" + f + "))";
    WellFormedCons(Str(f), []);
    WellFormedCons(Tup([Str(f)]), []);
    RoundTrip(e);
  }

  /** The text and well-formedness of a two-element tuple. */
  lemma PairText(x: Datum, y: Datum)
    ensures Unparse(Tup([x, y])) == "(" + Unparse(x) + " " + Unparse(y) + ")"
    ensures WellFormed(x) && WellFormed(y) ==> WellFormed(Tup([x, y]))
  {
    assert [x, y] == [x] + [y];
    SpacedCons(x, [y]);
    SpacedOne(y);
    if WellFormed(x) && WellFormed(y) {
      WellFormedCons(y, []);
      WellFormedCons(x, [y]);
    }
  }

  /** The text of a three-element tuple. */
  lemma TripleText(x: Datum, y: Datum, z: Datum)
    ensures Unparse(Tup([x, y, z])) == "(" + (Unparse(x) + " " + (Unparse(y) + " " + Unparse(z))) + ")"
  {
    assert [x, y, z] == [x] + [y, z];
    assert [y, z] == [y] + [z];
    SpacedCons(x, [y, z]);
    SpacedCons(y, [z]);
    SpacedOne(z);
  }

  lemma TripleWellFormed(x: Datum, y: Datum, z: Datum)
    requires WellFormed(x) && WellFormed(y) && WellFormed(z)
    ensures WellFormed(Tup([x, y, z]))
  {
    assert [x, y, z] == [x] + [y, z];
    assert [y, z] == [y] + [z];
    WellFormedCons(z, []);
    WellFormedCons(y, [z]);
    WellFormedCons(x, [y, z]);
  }

  /**
   * The documented `(cdr (cons (quote a) (quote (b c))))`, for any symbols in
   * its place (the text is grouped as `unparse` builds it).
   */
  lemma CdrExample(cdr: string, cons: string, quote: string, a: string, b: string, c: string)
    requires Tokenizer.IsSymbol(cdr) && Tokenizer.IsSymbol(cons) && Tokenizer.IsSymbol(quote)
    requires Tokenizer.IsSymbol(a) && Tokenizer.IsSymbol(b) && Tokenizer.IsSymbol(c)
    ensures var e := Tup([Str(cdr), Tup([Str(cons), Tup([Str(quote), Str(a)]),
                                           Tup([Str(quote), Tup([Str(b), Str(c)])])])]);
      var qa, bc := "(" + quote + " " + a + ")", "(" + b + " " + c + ")";
      var text := "(" + cdr + " " + ("(" + (cons + " " + (qa + " " + ("(" + quote + " " + bc + ")"))) + ")") + ")";
      Unparse(e) == text && ParseOf(text) == Ok(e)
  {
    var qa := Tup([Str(quote), Str(a)]);
    var bc := Tup([Str(b), Str(c)]);
    var qbc := Tup([Str(quote), bc]);
    var inner := Tup([Str(cons), qa, qbc]);
    var e := Tup([Str(cdr), inner]);
    PairText(Str(quote), Str(a));
    PairText(Str(b), Str(c));
    PairText(Str(quote), bc);
    TripleText(Str(cons), qa, qbc);
    TripleWellFormed(Str(cons), qa, qbc);
    PairText(Str(cdr), inner);
    RoundTrip(e);
  }
}
