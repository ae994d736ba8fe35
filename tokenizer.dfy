/**
 * The S-expression tokenizer (lisp/s_tokenizer.py; character-for-character
 * the same `tokenize` is repeated in lisp/s_parser.py and lisp/parser.py).
 *
 * Whitespace (space, tab, carriage return, newline) separates tokens and is
 * never emitted; each parenthesis is a token of its own; every other
 * character belongs to a symbol, and a symbol token is a maximal run of such
 * characters.
 */
module Tokenizer {
  import opened Results
  import opened Text

  /** The four separator characters the tokenizer recognises. */
  predicate IsWhitespace(c: char)
  {
    c == ' ' || c == '\t' || c == '\r' || c == '\n'
  }

  predicate IsParen(c: char)
  {
    c == '(' || c == ')'
  }

  /** A character that is part of a symbol run. */
  predicate IsSymbolChar(c: char)
  {
    !IsWhitespace(c) && !IsParen(c)
  }

  predicate IsNonWhitespace(c: char)
  {
    !IsWhitespace(c)
  }

  /** A non-empty run of symbol characters. */
  predicate IsSymbol(t: string)
  {
    |t| > 0 && forall j :: 0 <= j < |t| ==> IsSymbolChar(t[j])
  }

  predicate IsParenToken(t: string)
  {
    t == "(" || t == ")"
  }

  /** The shapes a token can take. */
  predicate IsToken(t: string)
  {
    IsParenToken(t) || IsSymbol(t)
  }


  /** The length of the run of symbol characters that starts at index `i`. */
  function RunLength(s: string, i: nat): (n: nat)
    requires i <= |s|
    ensures i + n <= |s|
    decreases |s| - i
  {
    if i == |s| || !IsSymbolChar(s[i]) then 0 else 1 + RunLength(s, i + 1)
  }

  /** The run consists of symbol characters and stops before a non-symbol character (or at the end). */
  lemma {:induction false} RunLengthFacts(s: string, i: nat)
    requires i <= |s|
    ensures forall j :: i <= j < i + RunLength(s, i) ==> IsSymbolChar(s[j])
    ensures i + RunLength(s, i) < |s| ==> !IsSymbolChar(s[i + RunLength(s, i)])
    decreases |s| - i
  {
    if i < |s| && IsSymbolChar(s[i]) {
      RunLengthFacts(s, i + 1);
    }
  }

  /** A run of symbol characters followed by a non-symbol character (or the end) is the run. */
  lemma {:induction false} RunLengthIs(s: string, i: nat, k: nat)
    requires i + k <= |s|
    requires forall j :: i <= j < i + k ==> IsSymbolChar(s[j])
    requires i + k < |s| ==> !IsSymbolChar(s[i + k])
    ensures RunLength(s, i) == k
    decreases k
  {
    if k > 0 {
      RunLengthIs(s, i + 1, k - 1);
    }
  }

  /** Where tokenizing continues after the character, or the symbol run, at `i`. */
  function NextFrom(s: string, i: nat): (j: nat)
    requires i < |s|
    ensures i < j <= |s|
  {
    if IsWhitespace(s[i]) || IsParen(s[i]) then i + 1 else i + RunLength(s, i)
  }

  /**
   * What the character at `i` contributes: nothing for whitespace, otherwise
   * the token that starts there (a parenthesis, or the whole symbol run).
   */
  function EmittedAt(s: string, i: nat): seq<string>
    requires i < |s|
  {
    if IsWhitespace(s[i]) then [] else [s[i..NextFrom(s, i)]]
  }

  /**
   * Maximal-munch tokenization of the suffix of `s` that starts at index `i`:
   * whitespace is skipped, a parenthesis is a token of its own, and a symbol
   * token extends as far as the symbol characters do.
   */
  function TokensFrom(s: string, i: nat): seq<string>
    requires i <= |s|
    decreases |s| - i
  {
    if i == |s| then [] else EmittedAt(s, i) + TokensFrom(s, NextFrom(s, i))
  }

  /** The tokens of `s`. */
  function Tokens(s: string): seq<string>
  {
    TokensFrom(s, 0)
  }

  /** Where each token of `TokensFrom(s, i)` starts in `s`. */
  function OffsetsFrom(s: string, i: nat): (ps: seq<nat>)
    requires i <= |s|
    ensures |ps| == |TokensFrom(s, i)|
    decreases |s| - i
  {
    if i == |s| then []
    else (if IsWhitespace(s[i]) then [] else [i]) + OffsetsFrom(s, NextFrom(s, i))
  }

  function Offsets(s: string): (ps: seq<nat>)
    ensures |ps| == |Tokens(s)|
  {
    OffsetsFrom(s, 0)
  }

  /** A pending run that stops at `i` is the next token. */
  lemma RunEndsAt(s: string, start: nat, i: nat)
    requires start < i <= |s|
    requires forall j :: start <= j < i ==> IsSymbolChar(s[j])
    requires i < |s| ==> !IsSymbolChar(s[i])
    ensures TokensFrom(s, start) == [s[start..i]] + TokensFrom(s, i)
  {
    RunLengthIs(s, start, i - start);
    assert IsSymbolChar(s[start]);
    assert NextFrom(s, start) == i;
    assert EmittedAt(s, start) == [s[start..i]];
  }

  /**
   * The loop's state after the first `i` characters: the tokens emitted so
   * far, followed by the tokens of the rest of the input from the pending
   * run's start (or from `i` when there is none), are all the tokens.
   */
  ghost predicate Scanned(s: string, tokens: seq<string>, start: Option<nat>, i: nat)
    requires i <= |s|
  {
    match start
    case None => Tokens(s) == tokens + TokensFrom(s, i)
    case Some(b) =>
      b < i && (forall j :: b <= j < i ==> IsSymbolChar(s[j])) &&
      Tokens(s) == tokens + TokensFrom(s, b)
  }

  /** The tokens emitted so far with the pending run, if any, closed at `i`. */
  function Closed(s: string, tokens: seq<string>, start: Option<nat>, i: nat): seq<string>
    requires i <= |s|
    requires start.Some? ==> start.value <= i
  {
    if start.Some? then tokens + [s[start.value..i]] else tokens
  }

  /** Closing the pending run at a separator, or at the end of the input, emits it. */
  lemma CloseRun(s: string, tokens: seq<string>, start: Option<nat>, i: nat)
    requires i <= |s| && Scanned(s, tokens, start, i)
    requires i < |s| ==> !IsSymbolChar(s[i])
    ensures Scanned(s, Closed(s, tokens, start, i), None, i)
  {
    if start.Some? {
      RunEndsAt(s, start.value, i);
    }
  }

  /** A whitespace character contributes no token. */
  lemma WhitespaceTokens(s: string, i: nat)
    requires i < |s| && IsWhitespace(s[i])
    ensures TokensFrom(s, i) == TokensFrom(s, i + 1)
  {
    assert EmittedAt(s, i) == [];
  }

  /** A parenthesis is a token of its own. */
  lemma ParenTokens(s: string, i: nat)
    requires i < |s| && IsParen(s[i])
    ensures TokensFrom(s, i) == [[s[i]]] + TokensFrom(s, i + 1)
  {
    assert s[i..i + 1] == [s[i]];
    assert EmittedAt(s, i) == [[s[i]]];
  }

  /** With no run pending, a whitespace character contributes nothing. */
  lemma WhitespaceStep(s: string, tokens: seq<string>, i: nat)
    requires i < |s| && IsWhitespace(s[i]) && Scanned(s, tokens, None, i)
    ensures Scanned(s, tokens, None, i + 1)
  {
    WhitespaceTokens(s, i);
  }

  /** With no run pending, a parenthesis is a token of its own. */
  lemma ParenStep(s: string, tokens: seq<string>, i: nat)
    requires i < |s| && IsParen(s[i]) && Scanned(s, tokens, None, i)
    ensures Scanned(s, tokens + [[s[i]]], None, i + 1)
  {
    ParenTokens(s, i);
    assert tokens + ([[s[i]]] + TokensFrom(s, i + 1)) == (tokens + [[s[i]]]) + TokensFrom(s, i + 1);
  }

  /** A symbol character starts a run, or extends the pending one. */
  lemma SymbolStep(s: string, tokens: seq<string>, start: Option<nat>, i: nat)
    requires i < |s| && IsSymbolChar(s[i]) && Scanned(s, tokens, start, i)
    ensures Scanned(s, tokens, if start.None? then Some(i) else start, i + 1)
  {
  }

  /**
   * The character loop of `tokenize`: `start` remembers where a pending
   * symbol run began; whitespace and parentheses end it.
   */
  method Tokenize(s: string) returns (tokens: seq<string>)
    ensures tokens == Tokens(s)
  {
    tokens := [];
    var start: Option<nat> := None;
    for i := 0 to |s|
      invariant start.Some? ==> start.value < i
      invariant Scanned(s, tokens, start, i)
    {
      var c := s[i];
      if IsWhitespace(c) {
        CloseRun(s, tokens, start, i);
        WhitespaceStep(s, Closed(s, tokens, start, i), i);
        if start.Some? {
          tokens := tokens + [s[start.value..i]];
          start := None;
        }
      } else if IsParen(c) {
        CloseRun(s, tokens, start, i);
        ParenStep(s, Closed(s, tokens, start, i), i);
        if start.Some? {
          tokens := tokens + [s[start.value..i]];
          start := None;
        }
        tokens := tokens + [[c]];
      } else {
        SymbolStep(s, tokens, start, i);
        if start.None? {
          start := Some(i);
        }
      }
    }
    CloseRun(s, tokens, start, |s|);
    if start.Some? {
      assert s[start.value..] == s[start.value..|s|];
      tokens := tokens + [s[start.value..]];
    }
  }

  // ---------------------------------------------------------------------
  // What each step contributes

  /** The token that starts at a non-whitespace character is well formed. */
  lemma EmittedIsToken(s: string, i: nat)
    requires i < |s| && !IsWhitespace(s[i])
    ensures IsToken(s[i..NextFrom(s, i)])
  {
    var t := s[i..NextFrom(s, i)];
    if IsParen(s[i]) {
      assert t == [s[i]];
    } else {
      RunLengthFacts(s, i);
      assert IsSymbolChar(s[i]);
      forall j | 0 <= j < |t|
        ensures IsSymbolChar(t[j])
      {
        assert t[j] == s[i + j];
      }
    }
  }

  /** A step keeps exactly the non-whitespace characters it passes over. */
  lemma EmittedKeepsNonWhitespace(s: string, i: nat)
    requires i < |s|
    ensures Flatten(EmittedAt(s, i)) == Filter(s[i..NextFrom(s, i)], IsNonWhitespace)
  {
    var n := NextFrom(s, i);
    if IsWhitespace(s[i]) {
      assert s[i..n] == [s[i]];
    } else {
      RunLengthFacts(s, i);
      forall j | 0 <= j < n - i
        ensures IsNonWhitespace(s[i..n][j])
      {
        assert s[i..n][j] == s[i + j];
      }
      FilterKeepsAll(s[i..n], IsNonWhitespace);
      assert Flatten(EmittedAt(s, i)) == s[i..n] + Flatten([]);
    }
  }

  /** A step yields one parenthesis token exactly when it passes over a parenthesis. */
  lemma EmittedKeepsParens(s: string, i: nat)
    requires i < |s|
    ensures Filter(EmittedAt(s, i), IsParenToken) == Singletons(Filter(s[i..NextFrom(s, i)], IsParen))
  {
    var n := NextFrom(s, i);
    if IsWhitespace(s[i]) || IsParen(s[i]) {
      assert s[i..n] == [s[i]];
    } else {
      RunLengthFacts(s, i);
      forall j | 0 <= j < n - i
        ensures !IsParen(s[i..n][j])
      {
        assert s[i..n][j] == s[i + j];
      }
      FilterDropsAll(s[i..n], IsParen);
      assert !IsParenToken(s[i..n]) by {
        assert s[i..n][0] == s[i];
      }
    }
  }

  /** Splitting the suffix at `i` where the step from `i` ends. */
  lemma SuffixSplit(s: string, i: nat)
    requires i < |s|
    ensures s[i..] == s[i..NextFrom(s, i)] + s[NextFrom(s, i)..]
  {
  }

  // ---------------------------------------------------------------------
  // Laws of the tokenization

  /** Every token is "(", ")" or a non-empty run of symbol characters. */
  lemma {:induction false} TokenIsWellFormed(s: string, i: nat, k: nat)
    requires i <= |s| && k < |TokensFrom(s, i)|
    ensures IsToken(TokensFrom(s, i)[k])
    decreases |s| - i
  {
    var next := NextFrom(s, i);
    if IsWhitespace(s[i]) {
      TokenIsWellFormed(s, next, k);
    } else if k > 0 {
      TokenIsWellFormed(s, next, k - 1);
    } else {
      EmittedIsToken(s, i);
    }
  }

  lemma TokensWellFormed(s: string)
    ensures forall k :: 0 <= k < |Tokens(s)| ==> IsToken(Tokens(s)[k])
  {
    forall k | 0 <= k < |Tokens(s)|
      ensures IsToken(Tokens(s)[k])
    {
      TokenIsWellFormed(s, 0, k);
    }
  }

  /** The sentinel the parsers append, "(EOL)", is never a token. */
  lemma NoTokenIsEOL(s: string)
    ensures "(EOL)" !in Tokens(s)
  {
    TokensWellFormed(s);
    assert !IsSymbolChar("(EOL)"[0]);
    assert !IsToken("(EOL)");
  }

  /** The tokens, concatenated, are the input with its whitespace deleted. */
  lemma {:induction false} ConcatIsInputWithoutWhitespace(s: string, i: nat)
    requires i <= |s|
    ensures Flatten(TokensFrom(s, i)) == Filter(s[i..], IsNonWhitespace)
    decreases |s| - i
  {
    if i < |s| {
      var next := NextFrom(s, i);
      ConcatIsInputWithoutWhitespace(s, next);
      FlattenAppend(EmittedAt(s, i), TokensFrom(s, next));
      EmittedKeepsNonWhitespace(s, i);
      SuffixSplit(s, i);
      FilterAppend(s[i..next], s[next..], IsNonWhitespace);
    }
  }

  /** One one-character token per character. */
  function Singletons(p: string): (r: seq<string>)
    ensures |r| == |p|
  {
    if p == [] then [] else [[p[0]]] + Singletons(p[1..])
  }

  lemma {:induction false} SingletonsAppend(a: string, b: string)
    ensures Singletons(a + b) == Singletons(a) + Singletons(b)
  {
    if a == [] {
      assert a + b == b;
    } else {
      assert (a + b)[1..] == a[1..] + b;
      SingletonsAppend(a[1..], b);
    }
  }

  /**
   * Each parenthesis character of the input yields exactly one token, and the
   * parenthesis tokens come in the order of the parenthesis characters.
   */
  lemma {:induction false} ParenTokensFollowInput(s: string, i: nat)
    requires i <= |s|
    ensures Filter(TokensFrom(s, i), IsParenToken) == Singletons(Filter(s[i..], IsParen))
    decreases |s| - i
  {
    if i < |s| {
      var next := NextFrom(s, i);
      ParenTokensFollowInput(s, next);
      FilterAppend(EmittedAt(s, i), TokensFrom(s, next), IsParenToken);
      EmittedKeepsParens(s, i);
      SuffixSplit(s, i);
      FilterAppend(s[i..next], s[next..], IsParen);
      SingletonsAppend(Filter(s[i..next], IsParen), Filter(s[next..], IsParen));
    }
  }

  /** How the `k`-th token and offset from `i` relate to those after the first step. */
  lemma StepIndex(s: string, i: nat, k: nat)
    requires i < |s| && k < |TokensFrom(s, i)|
    ensures IsWhitespace(s[i]) ==>
      TokensFrom(s, i) == TokensFrom(s, NextFrom(s, i)) && OffsetsFrom(s, i) == OffsetsFrom(s, NextFrom(s, i))
    ensures !IsWhitespace(s[i]) && k == 0 ==>
      TokensFrom(s, i)[0] == s[i..NextFrom(s, i)] && OffsetsFrom(s, i)[0] == i
    ensures !IsWhitespace(s[i]) && k > 0 ==>
      TokensFrom(s, i)[k] == TokensFrom(s, NextFrom(s, i))[k - 1] &&
      OffsetsFrom(s, i)[k] == OffsetsFrom(s, NextFrom(s, i))[k - 1]
  {
  }

  /** The `k`-th token sits in the input at the `k`-th offset. */
  lemma {:induction false} TokenAtOffset(s: string, i: nat, k: nat)
    requires i <= |s| && k < |TokensFrom(s, i)|
    ensures var t, p := TokensFrom(s, i)[k], OffsetsFrom(s, i)[k];
      i <= p && p + |t| <= |s| && s[p..p + |t|] == t
    decreases |s| - i
  {
    var next := NextFrom(s, i);
    StepIndex(s, i, k);
    if IsWhitespace(s[i]) {
      TokenAtOffset(s, next, k);
    } else if k > 0 {
      TokenAtOffset(s, next, k - 1);
    }
  }

  /** Only whitespace lies before the first token (or, when there is none, up to the end). */
  lemma {:induction false} WhitespaceBeforeFirst(s: string, i: nat, j: nat)
    requires i <= j < |s|
    ensures (TokensFrom(s, i) == [] || j < OffsetsFrom(s, i)[0]) ==> IsWhitespace(s[j])
    decreases |s| - i
  {
    if IsWhitespace(s[i]) {
      if j > i {
        WhitespaceBeforeFirst(s, i + 1, j);
      }
    } else {
      assert OffsetsFrom(s, i)[0] == i;
    }
  }

  /** Consecutive tokens do not overlap. */
  lemma {:induction false} TokensInOrder(s: string, i: nat, k: nat)
    requires i <= |s| && k + 1 < |TokensFrom(s, i)|
    ensures OffsetsFrom(s, i)[k] + |TokensFrom(s, i)[k]| <= OffsetsFrom(s, i)[k + 1]
    decreases |s| - i
  {
    var next := NextFrom(s, i);
    if IsWhitespace(s[i]) {
      TokensInOrder(s, next, k);
    } else if k > 0 {
      TokensInOrder(s, next, k - 1);
    } else {
      TokenAtOffset(s, next, 0);
      assert TokensFrom(s, i)[0] == s[i..next];
      assert OffsetsFrom(s, i)[0] == i && OffsetsFrom(s, i)[1] == OffsetsFrom(s, next)[0];
    }
  }

  /** Only whitespace lies between two consecutive tokens. */
  lemma {:induction false} WhitespaceBetween(s: string, i: nat, k: nat, j: nat)
    requires i <= |s| && k + 1 < |TokensFrom(s, i)|
    requires OffsetsFrom(s, i)[k] + |TokensFrom(s, i)[k]| <= j < OffsetsFrom(s, i)[k + 1]
    ensures j < |s| && IsWhitespace(s[j])
    decreases |s| - i
  {
    var next := NextFrom(s, i);
    TokenAtOffset(s, i, k + 1);
    if IsWhitespace(s[i]) {
      WhitespaceBetween(s, next, k, j);
    } else if k > 0 {
      WhitespaceBetween(s, next, k - 1, j);
    } else {
      assert TokensFrom(s, i)[0] == s[i..next];
      assert OffsetsFrom(s, i)[0] == i && OffsetsFrom(s, i)[1] == OffsetsFrom(s, next)[0];
      WhitespaceBeforeFirst(s, next, j);
    }
  }

  /** Only whitespace lies after the last token. */
  lemma {:induction false} WhitespaceAfterLast(s: string, i: nat, j: nat)
    requires i <= |s| && TokensFrom(s, i) != []
    requires var last := |TokensFrom(s, i)| - 1;
      OffsetsFrom(s, i)[last] + |TokensFrom(s, i)[last]| <= j < |s|
    ensures IsWhitespace(s[j])
    decreases |s| - i
  {
    var next := NextFrom(s, i);
    if IsWhitespace(s[i]) {
      WhitespaceAfterLast(s, next, j);
    } else if TokensFrom(s, next) != [] {
      WhitespaceAfterLast(s, next, j);
    } else {
      assert TokensFrom(s, i) == [s[i..next]];
      WhitespaceBeforeFirst(s, next, j);
    }
  }

  /** The symbol token emitted at `i` is not followed directly by a symbol character. */
  lemma EmittedSymbolEndsRun(s: string, i: nat)
    requires i < |s| && IsSymbol(s[i..NextFrom(s, i)])
    ensures NextFrom(s, i) < |s| ==> !IsSymbolChar(s[NextFrom(s, i)])
  {
    assert s[i..NextFrom(s, i)][0] == s[i];
    RunLengthFacts(s, i);
  }

  /** A symbol token is never followed directly by a symbol character. */
  lemma {:induction false} SymbolEndsRun(s: string, i: nat, k: nat)
    requires i <= |s| && k < |TokensFrom(s, i)| && IsSymbol(TokensFrom(s, i)[k])
    ensures var e := OffsetsFrom(s, i)[k] + |TokensFrom(s, i)[k]|;
      e < |s| ==> !IsSymbolChar(s[e])
    decreases |s| - i
  {
    var next := NextFrom(s, i);
    StepIndex(s, i, k);
    if IsWhitespace(s[i]) {
      SymbolEndsRun(s, next, k);
    } else if k > 0 {
      SymbolEndsRun(s, next, k - 1);
    } else {
      EmittedSymbolEndsRun(s, i);
    }
  }

  /** A token that starts right where a symbol token ends is not a symbol. */
  lemma AdjacentAfterSymbol(s: string, k: nat)
    requires k + 1 < |Tokens(s)| && IsSymbol(Tokens(s)[k]) && IsSymbol(Tokens(s)[k + 1])
    ensures Offsets(s)[k] + |Tokens(s)[k]| != Offsets(s)[k + 1]
  {
    var ts, ps := Tokens(s), Offsets(s);
    TokenAtOffset(s, 0, k + 1);
    SymbolEndsRun(s, 0, k);
    assert s[ps[k + 1]] == ts[k + 1][0];
  }

  /** The character just before a token that directly follows a parenthesis is that parenthesis. */
  lemma AdjacentAfterParen(s: string, k: nat)
    requires k + 1 < |Tokens(s)| && !IsSymbol(Tokens(s)[k])
    requires Offsets(s)[k] + |Tokens(s)[k]| == Offsets(s)[k + 1]
    ensures var p := Offsets(s)[k + 1];
      0 < p <= |s| && IsParen(s[p - 1])
  {
    var t, q := Tokens(s)[k], Offsets(s)[k];
    TokenIsWellFormed(s, 0, k);
    assert t == "(" || t == ")";
    assert |t| == 1;
    TokenAtOffset(s, 0, k);
    assert s[q] == t[0];
  }


  /** The character before a symbol token that follows another token is not a symbol character. */
  lemma SymbolAfterToken(s: string, k: nat)
    requires 0 < k < |Tokens(s)| && IsSymbol(Tokens(s)[k])
    requires 0 < Offsets(s)[k] <= |s|
    ensures !IsSymbolChar(s[Offsets(s)[k] - 1])
  {
    var ts, ps := Tokens(s), Offsets(s);
    TokensInOrder(s, 0, k - 1);
    if ps[k - 1] + |ts[k - 1]| < ps[k] {
      WhitespaceBetween(s, 0, k - 1, ps[k] - 1);
    } else if IsSymbol(ts[k - 1]) {
      AdjacentAfterSymbol(s, k - 1);
    } else {
      AdjacentAfterParen(s, k - 1);
    }
  }

  /** A symbol token is never preceded directly by a symbol character. */
  lemma SymbolStartsRun(s: string, k: nat)
    requires k < |Tokens(s)| && IsSymbol(Tokens(s)[k])
    ensures var p := Offsets(s)[k];
      p < |s| && (p > 0 ==> !IsSymbolChar(s[p - 1]))
  {
    var p := Offsets(s)[k];
    TokenAtOffset(s, 0, k);
    if p > 0 {
      if k == 0 {
        WhitespaceBeforeFirst(s, 0, p - 1);
      } else {
        SymbolAfterToken(s, k);
      }
    }
  }





  /**
   * Symbol tokens are maximal: two consecutive symbol tokens were separated
   * by whitespace in the input, at least one whitespace character following
   * the first of them.
   */
  lemma SymbolTokensSeparatedByWhitespace(s: string, k: nat)
    requires k + 1 < |Tokens(s)|
    requires IsSymbol(Tokens(s)[k]) && IsSymbol(Tokens(s)[k + 1])
    ensures var e := Offsets(s)[k] + |Tokens(s)[k]|;
      e < Offsets(s)[k + 1] && e < |s| && IsWhitespace(s[e])
  {
    var ts, ps := Tokens(s), Offsets(s);
    var e := ps[k] + |ts[k]|;
    TokensInOrder(s, 0, k);
    TokenAtOffset(s, 0, k + 1);
    SymbolEndsRun(s, 0, k);
    assert e != ps[k + 1] by {
      assert s[ps[k + 1]] == ts[k + 1][0];
    }
    WhitespaceBetween(s, 0, k, e);
  }

  // ---------------------------------------------------------------------
  // Tokenizing concatenated text

  lemma NextFromShift(s: string, i: nat, j: nat)
    requires i + j < |s|
    ensures NextFrom(s[i..], j) == NextFrom(s, i + j) - i
  {
    var t := s[i..];
    assert t[j] == s[i + j];
    if IsSymbolChar(s[i + j]) {
      var k := RunLength(s, i + j);
      RunLengthFacts(s, i + j);
      forall jj | j <= jj < j + k
        ensures IsSymbolChar(t[jj])
      {
        assert t[jj] == s[i + jj];
      }
      if j + k < |t| {
        assert t[j + k] == s[i + j + k];
      }
      RunLengthIs(t, j, k);
    }
  }

  lemma EmittedShift(s: string, i: nat, j: nat)
    requires i + j < |s|
    ensures EmittedAt(s[i..], j) == EmittedAt(s, i + j)
  {
    var t := s[i..];
    assert t[j] == s[i + j];
    NextFromShift(s, i, j);
    var n := NextFrom(s, i + j);
    assert t[j..n - i] == s[i + j..n];
  }

  lemma {:induction false} TokensFromShift(s: string, i: nat, j: nat)
    requires i + j <= |s|
    ensures TokensFrom(s, i + j) == TokensFrom(s[i..], j)
    decreases |s| - i - j
  {
    if i + j < |s| {
      var t := s[i..];
      var n := NextFrom(s, i + j);
      NextFromShift(s, i, j);
      EmittedShift(s, i, j);
      var m := n - i;
      assert TokensFrom(t, j) == EmittedAt(t, j) + TokensFrom(t, m);
      assert TokensFrom(s, i + j) == EmittedAt(s, i + j) + TokensFrom(s, n);
      TokensFromShift(s, i, m);
      assert i + m == n;
    }
  }

  /** Tokenizing a suffix from index `i` is tokenizing the suffix on its own. */
  lemma TokensFromSuffix(s: string, i: nat)
    requires i <= |s|
    ensures TokensFrom(s, i) == Tokens(s[i..])
  {
    TokensFromShift(s, i, 0);
  }

  /** A boundary between `a` and `b` that does not fall inside a symbol run. */
  predicate Separable(a: string, b: string)
  {
    a == [] || b == [] || !IsSymbolChar(a[|a| - 1]) || !IsSymbolChar(b[0])
  }

  lemma NextFromPrefix(a: string, b: string, i: nat)
    requires i < |a| && Separable(a, b)
    ensures NextFrom(a + b, i) == NextFrom(a, i) && NextFrom(a, i) <= |a|
    ensures EmittedAt(a + b, i) == EmittedAt(a, i)
  {
    var s := a + b;
    assert s[i] == a[i];
    var n := NextFrom(a, i);
    if IsSymbolChar(a[i]) {
      var m := RunLength(a, i);
      RunLengthFacts(a, i);
      forall j | i <= j < i + m
        ensures IsSymbolChar(s[j])
      {
        assert s[j] == a[j];
      }
      if i + m < |a| {
        assert s[i + m] == a[i + m];
      } else if b != [] {
        assert IsSymbolChar(a[|a| - 1]);
        assert s[i + m] == b[0];
      }
      RunLengthIs(s, i, m);
    }
    assert s[i..n] == a[i..n];
  }

  lemma {:induction false} TokensAppendFrom(a: string, b: string, i: nat)
    requires i <= |a| && Separable(a, b)
    ensures TokensFrom(a + b, i) == TokensFrom(a, i) + Tokens(b)
    decreases |a| - i
  {
    var s := a + b;
    if i == |a| {
      TokensFromSuffix(s, |a|);
      assert s[|a|..] == b;
    } else {
      NextFromPrefix(a, b, i);
      TokensAppendFrom(a, b, NextFrom(a, i));
    }
  }

  /**
   * Text splits into tokens independently on either side of a boundary that
   * does not fall inside a symbol run.
   */
  lemma TokensAppend(a: string, b: string)
    requires Separable(a, b)
    ensures Tokens(a + b) == Tokens(a) + Tokens(b)
  {
    TokensAppendFrom(a, b, 0);
  }

  /** A symbol on its own is a single token. */
  lemma SymbolIsOneToken(t: string)
    requires IsSymbol(t)
    ensures Tokens(t) == [t]
  {
    RunEndsAt(t, 0, |t|);
    assert t[0..|t|] == t;
  }

  /** A symbol run that reaches the end of the input is still emitted, as the last token. */
  lemma FinalRunIsEmitted(a: string, run: string)
    requires IsSymbol(run)
    requires a == [] || !IsSymbolChar(a[|a| - 1])
    ensures Tokens(a + run) == Tokens(a) + [run]
  {
    TokensAppend(a, run);
    SymbolIsOneToken(run);
  }

  /** Whitespace alone yields no tokens, and only whitespace does. */
  lemma {:induction false} NoTokensIffWhitespace(s: string, i: nat)
    requires i <= |s|
    ensures TokensFrom(s, i) == [] <==> forall j :: i <= j < |s| ==> IsWhitespace(s[j])
    decreases |s| - i
  {
    if i < |s| {
      if IsWhitespace(s[i]) {
        NoTokensIffWhitespace(s, i + 1);
      }
    }
  }

  // ---------------------------------------------------------------------
  // The documented examples

  /** A separator character in front of text. */
  lemma TokensOfSeparator(c: char, rest: string)
    requires !IsSymbolChar(c)
    ensures Tokens([c] + rest) == (if IsWhitespace(c) then [] else [[c]]) + Tokens(rest)
  {
    var s := [c] + rest;
    assert s[0..1] == [c];
    TokensFromSuffix(s, 1);
    assert s[1..] == rest;
  }

  /** A symbol in front of text that does not continue it. */
  lemma TokensOfSymbol(t: string, rest: string)
    requires IsSymbol(t) && (rest == [] || !IsSymbolChar(rest[0]))
    ensures Tokens(t + rest) == [t] + Tokens(rest)
  {
    TokensAppend(t, rest);
    SymbolIsOneToken(t);
  }

  /** Parentheses around text add one token on either side. */
  lemma TokensParenthesized(x: string)
    ensures Tokens("(" + x + ")") == ["("] + Tokens(x) + [")"]
  {
    TokensOfSeparator('(', x + ")");
    assert "(" + x + ")" == ['('] + (x + ")");
    TokensAppend(x, ")");
    TokensOfSeparator(')', "");
    assert ")" == [')'] + "";
  }

  /** A space between two texts separates their tokens. */
  lemma TokensSpaced(x: string, y: string)
    ensures Tokens(x + " " + y) == Tokens(x) + Tokens(y)
  {
    TokensAppend(x, " ");
    TokensAppend(x + " ", y);
    TokensOfSeparator(' ', "");
    assert " " == [' '] + "";
  }

  /** The documented `()`: an empty list is its two parentheses. */
  lemma DocExampleEmpty()
    ensures Tokens("()") == ["(", ")"]
  {
    TokensParenthesized("");
    assert "(" + "" + ")" == "()";
  }

  /** The documented `(foo)`, for any symbol in place of `foo`. */
  lemma DocExampleList(f: string)
    requires IsSymbol(f)
    ensures Tokens("(" + f + ")") == ["(", f, ")"]
  {
    TokensParenthesized(f);
    SymbolIsOneToken(f);
  }

  /** The documented `(foo bar)`, for any two symbols. */
  lemma DocExamplePair(f: string, g: string)
    requires IsSymbol(f) && IsSymbol(g)
    ensures Tokens("(" + f + " " + g + ")") == ["(", f, g, ")"]
  {
    SymbolIsOneToken(f);
    SymbolIsOneToken(g);
    TokensSpaced(f, g);
    TokensParenthesized(f + " " + g);
    assert "(" + f + " " + g + ")" == "(" + (f + " " + g) + ")";
  }

  /** A symbol and a text spaced inside parentheses: the symbol then the text's tokens, parenthesized. */
  lemma TokensNested(f: string, inner: string)
    requires IsSymbol(f)
    ensures Tokens("(" + (f + " " + inner) + ")") == ["(", f] + Tokens(inner) + [")"]
  {
    SymbolIsOneToken(f);
    TokensSpaced(f, inner);
    TokensParenthesized(f + " " + inner);
  }

  /** Three symbols spaced inside parentheses. */
  lemma ThreeSymbolList(a: string, b: string, c: string)
    requires IsSymbol(a) && IsSymbol(b) && IsSymbol(c)
    ensures Tokens("(" + (a + " " + b + " " + c) + ")") == ["(", a, b, c, ")"]
  {
    SymbolIsOneToken(a);
    SymbolIsOneToken(b);
    SymbolIsOneToken(c);
    TokensSpaced(a, b);
    TokensSpaced(a + " " + b, c);
    TokensParenthesized(a + " " + b + " " + c);
  }

  /** The documented `(cdr (quote (a b c)))`, for any five symbols. */
  lemma DocExampleNested(f: string, q: string, a: string, b: string, c: string)
    requires IsSymbol(f) && IsSymbol(q) && IsSymbol(a) && IsSymbol(b) && IsSymbol(c)
    ensures Tokens("(" + f + " (" + q + " (" + a + " " + b + " " + c + ")))")
         == ["(", f, "(", q, "(", a, b, c, ")", ")", ")"]
  {
    var abc := a + " " + b + " " + c;
    var l1 := "(" + abc + ")";
    var l2 := "(" + (q + " " + l1) + ")";
    NestedText(f, q, a, b, c);
    ThreeSymbolList(a, b, c);
    TokensNested(q, l1);
    TokensNested(f, l2);
  }

  /** The nested example's text is built level by level. */
  lemma NestedText(f: string, q: string, a: string, b: string, c: string)
    ensures "(" + f + " (" + q + " (" + a + " " + b + " " + c + ")))"
         == "(" + (f + " " + ("(" + (q + " " + ("(" + (a + " " + b + " " + c) + ")")) + ")")) + ")"
  {
    assert " (" == " " + "(";
    assert ")))" == ")" + ")" + ")";
  }
}
