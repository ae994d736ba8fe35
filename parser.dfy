/**
 * The recursive-descent parser of parser.py, the same algorithm as the tuple
 * parser of s_parser.py but building lists: `parse_elist` collects the
 * elements of a list, appending the rest of the list in place with `extend`.
 *
 * It reads the same token lists with the same "(EOL)" sentinel, uses the
 * same tokenizer, and fails in the same three ways; the lemmas at the end
 * show that it agrees with the tuple parser element for element.
 */
module Parser {
  import opened Results
  import Tokenizer
  import SParser

  /** A parsed value: an atom string or a list of values. */
  datatype Expr = Atom(name: string) | List(items: seq<Expr>)

  // ---------------------------------------------------------------------
  // The parser as functions on token lists

  /**
   * `parse_elist` on the token list `ts`: the elements up to the `)` that
   * closes the list, and the tokens left, which start with that `)`.
   */
  function EListOf(ts: seq<string>): (r: Result<(seq<Expr>, seq<string>), SParser.ParseError>)
    requires SParser.Terminated(ts)
    ensures r.Ok? ==> var rest := r.value.1;
      |rest| <= |ts| && SParser.Terminated(rest) && rest[0] == ")"
    ensures r.Err? ==> r.error == SParser.PrematureEOL
    decreases |ts|
  {
    var h := ts[0];
    if h == "(" then
      match EListOf(ts[1..])
      case Err(e) => Err(e)
      case Ok((inner, rest)) =>
        match EListOf(rest[1..])
        case Err(e) => Err(e)
        case Ok((more, rest')) => Ok(([List(inner)] + more, rest'))
    else if h == ")" then
      Ok(([], ts))
    else if h == SParser.EOL then
      Err(SParser.PrematureEOL)
    else
      match EListOf(ts[1..])
      case Err(e) => Err(e)
      case Ok((more, rest)) => Ok(([Atom(h)] + more, rest))
  }

  /** `parse_expr` on the token list `ts`. */
  function ExprOf(ts: seq<string>): (r: Result<Expr, SParser.ParseError>)
    requires SParser.Terminated(ts)
    ensures r.Ok? ==> r.value.List?
  {
    var h := ts[0];
    if h == "(" then
      match EListOf(ts[1..])
      case Err(e) => Err(e)
      case Ok((items, _)) => Ok(List(items))
    else if h == ")" then
      Err(SParser.Unmatched)
    else if h == SParser.EOL then
      Err(SParser.PrematureEOL)
    else if |ts| > 1 then
      Err(SParser.ExtraStuff)
    else
      Ok(Atom(h))
  }

  /** `parse` on a text. */
  function ParseOf(s: string): Result<Expr, SParser.ParseError>
  {
    ExprOf(Tokenizer.Tokens(s) + [SParser.EOL])
  }

  // ---------------------------------------------------------------------
  // The token queue

  /** The token queue `Tokens`: the remaining tokens, ending with the sentinel. */
  class Tokens {
    var tokens: seq<string>

    predicate Valid()
      reads this
    {
      SParser.Terminated(tokens)
    }

    /** The tokens of `s` followed by the sentinel. */
    constructor (s: string)
      ensures tokens == Tokenizer.Tokens(s) + [SParser.EOL]
      ensures Valid()
    {
      var ts := Tokenizer.Tokenize(s);
      tokens := ts + [SParser.EOL];
    }

    /** The next token; the queue is never empty while it is valid, and its last token is the sentinel. */
    function Head(): (h: string)
      reads this
      requires Valid()
      ensures |tokens| == 1 ==> h == SParser.EOL
    {
      tokens[0]
    }

    /** Drops the next token (an empty queue stays empty). */
    method Next()
      modifies this
      ensures tokens == if old(tokens) == [] then [] else old(tokens)[1..]
    {
      if tokens != [] {
        tokens := tokens[1..];
      }
    }

    /** Drops the next token; an error is built for a token other than `)` but not raised. */
    method Close()
      requires tokens != []
      modifies this
      ensures tokens == old(tokens)[1..]
    {
      Next();
    }

    method ParseEList() returns (r: Result<seq<Expr>, SParser.ParseError>)
      requires Valid()
      modifies this
      ensures EListOf(old(tokens)) == if r.Ok? then Ok((r.value, tokens)) else Err(r.error)
      ensures r.Ok? ==> Valid()
      decreases |tokens|
    {
      var h := Head();
      if h == "(" {
        Next();
        var inner := ParseEList();
        if inner.Err? {
          return Err(inner.error);
        }
        var ret := [List(inner.value)];
        assert tokens[0] == ")";
        Close();
        var more := ParseEList();
        if more.Err? {
          return Err(more.error);
        }
        ret := ret + more.value;
        return Ok(ret);
      } else if h == ")" {
        return Ok([]);
      } else if h == SParser.EOL {
        return Err(SParser.PrematureEOL);
      } else {
        var ret := [Atom(h)];
        Next();
        var more := ParseEList();
        if more.Err? {
          return Err(more.error);
        }
        ret := ret + more.value;
        return Ok(ret);
      }
    }

    method ParseExpr() returns (r: Result<Expr, SParser.ParseError>)
      requires Valid()
      modifies this
      ensures r == ExprOf(old(tokens))
      ensures r.Ok? ==> old(tokens)[0] == "(" && |old(tokens)| > 1 && EListOf(old(tokens)[1..]).Ok?
      ensures r.Ok? ==> Valid() && tokens == EListOf(old(tokens)[1..]).value.1 && tokens[0] == ")"
    {
      var h := Head();
      if h == "(" {
        Next();
        var items := ParseEList();
        if items.Err? {
          return Err(items.error);
        }
        return Ok(List(items.value));
      } else if h == ")" {
        return Err(SParser.Unmatched);
      } else if h == SParser.EOL {
        return Err(SParser.PrematureEOL);
      } else {
        if |tokens| > 1 {
          return Err(SParser.ExtraStuff);
        }
        return Ok(Atom(h));
      }
    }
  }

  /** `parse`: tokenize the text and read one expression. */
  method Parse(s: string) returns (r: Result<Expr, SParser.ParseError>)
    ensures r == ParseOf(s)
    ensures r.Ok? ==> r.value.List?
  {
    var t := new Tokens(s);
    r := t.ParseExpr();
  }

  // ---------------------------------------------------------------------
  // Agreement with the tuple parser

  /** The same value with lists in place of tuples. */
  function ToExpr(d: SParser.Datum): Expr
    decreases d
  {
    match d
    case Str(a) => Atom(a)
    case Tup(items) => List(ToExprEach(items))
  }

  function ToExprEach(items: seq<SParser.Datum>): (r: seq<Expr>)
    ensures |r| == |items|
    decreases items
  {
    if items == [] then [] else [ToExpr(items[0])] + ToExprEach(items[1..])
  }

  /** A tuple parser outcome with lists in place of tuples. */
  function ToListOutcome(r: Result<(seq<SParser.Datum>, seq<string>), SParser.ParseError>)
    : Result<(seq<Expr>, seq<string>), SParser.ParseError>
  {
    match r
    case Ok((items, rest)) => Ok((ToExprEach(items), rest))
    case Err(e) => Err(e)
  }

  lemma ToExprEachCons(x: SParser.Datum, tl: seq<SParser.Datum>)
    ensures ToExprEach([x] + tl) == [ToExpr(x)] + ToExprEach(tl)
  {
    assert ([x] + tl)[1..] == tl;
  }

  /** One step of `parse_elist` on an atom. */
  lemma ListStepAtom(ts: seq<string>)
    requires SParser.Terminated(ts) && ts[0] != "(" && ts[0] != ")" && ts[0] != SParser.EOL
    ensures EListOf(ts) == if EListOf(ts[1..]).Err? then Err(EListOf(ts[1..]).error)
      else Ok(([Atom(ts[0])] + EListOf(ts[1..]).value.0, EListOf(ts[1..]).value.1))
  {
  }

  /** One step of `parse_elist` on a nested list. */
  lemma ListStepNested(ts: seq<string>)
    requires SParser.Terminated(ts) && ts[0] == "("
    ensures EListOf(ts) == if EListOf(ts[1..]).Err? then Err(EListOf(ts[1..]).error)
      else var r := EListOf(ts[1..]).value;
        if EListOf(r.1[1..]).Err? then Err(EListOf(r.1[1..]).error)
        else Ok(([List(r.0)] + EListOf(r.1[1..]).value.0, EListOf(r.1[1..]).value.1))
  {
  }

  lemma SameShapeAtom(ts: seq<string>)
    requires SParser.Terminated(ts) && ts[0] != "(" && ts[0] != ")" && ts[0] != SParser.EOL
    requires EListOf(ts[1..]) == ToListOutcome(SParser.ETupleOf(ts[1..]))
    ensures EListOf(ts) == ToListOutcome(SParser.ETupleOf(ts))
  {
    SParser.StepAtom(ts);
    ListStepAtom(ts);
    if SParser.ETupleOf(ts[1..]).Ok? {
      ToExprEachCons(SParser.Str(ts[0]), SParser.ETupleOf(ts[1..]).value.0);
    }
  }

  lemma SameShapeNested(ts: seq<string>)
    requires SParser.Terminated(ts) && ts[0] == "("
    requires EListOf(ts[1..]) == ToListOutcome(SParser.ETupleOf(ts[1..]))
    requires SParser.ETupleOf(ts[1..]).Ok? ==>
      var rest := SParser.ETupleOf(ts[1..]).value.1;
      EListOf(rest[1..]) == ToListOutcome(SParser.ETupleOf(rest[1..]))
    ensures EListOf(ts) == ToListOutcome(SParser.ETupleOf(ts))
  {
    SParser.StepNested(ts);
    ListStepNested(ts);
    if SParser.ETupleOf(ts[1..]).Ok? {
      var r := SParser.ETupleOf(ts[1..]).value;
      if SParser.ETupleOf(r.1[1..]).Ok? {
        ToExprEachCons(SParser.Tup(r.0), SParser.ETupleOf(r.1[1..]).value.0);
      }
    }
  }

  /**
   * `parse_elist` and `parse_etuple` agree on every token list: the same
   * elements with lists in place of tuples, the same tokens left, the same
   * error.
   */
  lemma {:induction false} SameShape(ts: seq<string>)
    requires SParser.Terminated(ts)
    ensures EListOf(ts) == ToListOutcome(SParser.ETupleOf(ts))
    decreases |ts|
  {
    var h := ts[0];
    if h == "(" {
      SameShape(ts[1..]);
      if SParser.ETupleOf(ts[1..]).Ok? {
        SameShape(SParser.ETupleOf(ts[1..]).value.1[1..]);
      }
      SameShapeNested(ts);
    } else if h != ")" && h != SParser.EOL {
      SameShape(ts[1..]);
      SameShapeAtom(ts);
    }
  }

  /** The two parsers agree on every text. */
  lemma SameParse(s: string)
    ensures ParseOf(s) == match SParser.ParseOf(s)
      case Ok(d) => Ok(ToExpr(d))
      case Err(e) => Err(e)
  {
    var ts := Tokenizer.Tokens(s) + [SParser.EOL];
    if ts[0] == "(" {
      SameShape(ts[1..]);
    }
  }

  // ---------------------------------------------------------------------
  // Consequences

  /** The text of a well-formed tuple reads back as the same shape of lists, whatever follows it. */
  lemma ReadsUnparsedTuple(e: SParser.Datum, s: string)
    requires e.Tup? && SParser.WellFormed(e)
    ensures ParseOf(SParser.Unparse(e) + s) == Ok(ToExpr(e))
  {
    SParser.TrailingTextIgnored(e, s);
    SameParse(SParser.Unparse(e) + s);
  }

  /** Text that starts with `)` is unmatched. */
  lemma LeadingCloseIsUnmatched(t: string)
    ensures ParseOf(")" + t) == Err(SParser.Unmatched)
  {
    SParser.LeadingCloseIsUnmatched(t);
    SameParse(")" + t);
  }

  /** Empty or whitespace-only text ends before any expression. */
  lemma BlankIsPrematureEOL(s: string)
    requires forall j :: 0 <= j < |s| ==> Tokenizer.IsWhitespace(s[j])
    ensures ParseOf(s) == Err(SParser.PrematureEOL)
  {
    SParser.BlankIsPrematureEOL(s);
    SameParse(s);
  }

  /** A lone symbol has "extra stuff" after it: the sentinel. */
  lemma BareSymbolIsExtraStuff(a: string)
    requires Tokenizer.IsSymbol(a)
    ensures ParseOf(a) == Err(SParser.ExtraStuff)
  {
    SParser.BareSymbolIsExtraStuff(a);
    SameParse(a);
  }

  /** A `(` that is never followed by a `)` runs into the end of the input. */
  lemma UnclosedIsPrematureEOL(s: string)
    requires Tokenizer.Tokens(s) != [] && Tokenizer.Tokens(s)[0] == "("
    requires ")" !in Tokenizer.Tokens(s)
    ensures ParseOf(s) == Err(SParser.PrematureEOL)
  {
    SParser.UnclosedIsPrematureEOL(s);
    SameParse(s);
  }

  /** The documented `()` is the empty list. */
  lemma EmptyListExample()
    ensures ParseOf("()") == Ok(List([]))
  {
    SParser.EmptyTupleExample();
    SameParse("()");
  }

  lemma ToExprEachOne(x: SParser.Datum)
    ensures ToExprEach([x]) == [ToExpr(x)]
  {
    assert [x][1..] == [];
  }

  /** The documented `((foo))`, for any symbol. */
  lemma NestedExample(f: string)
    requires Tokenizer.IsSymbol(f)
    ensures ParseOf("((" + f + "))") == Ok(List([List([Atom(f)])]))
  {
    SParser.NestedExample(f);
    SameParse("((" + f + "))");
    ToExprEachOne(SParser.Str(f));
    ToExprEachOne(SParser.Tup([SParser.Str(f)]));
  }

  /** The documented `(foo bar)`, for any two symbols. */
  lemma PairExample(f: string, g: string)
    requires Tokenizer.IsSymbol(f) && Tokenizer.IsSymbol(g)
    ensures ParseOf("(" + f + " " + g + ")") == Ok(List([Atom(f), Atom(g)]))
  {
    SParser.PairExample(f, g);
    SameParse("(" + f + " " + g + ")");
    ToExprEachCons(SParser.Str(f), [SParser.Str(g)]);
    ToExprEachOne(SParser.Str(g));
    assert [SParser.Str(f), SParser.Str(g)] == [SParser.Str(f)] + [SParser.Str(g)];
    assert [Atom(f)] + [Atom(g)] == [Atom(f), Atom(g)];
  }
}
