/**
 * Properties of the lexer's specification (module LexerSpec): what each
 * branch of `next_token` yields, that end of input repeats forever, how the
 * token stream relates to repeated calls, and that the token texts cover
 * every non-whitespace input character exactly once, in order.
 */
module LexerProperties {
  import opened Options
  import opened Tokens
  import opened LexerSpec

  /**
   * `=` and `!` look one character ahead: followed by `=` they make the
   * two-character `==` or `!=` and the cursor moves past both; otherwise they
   * are `=` or `!` alone and the cursor moves past one.
   */
  lemma ScanTwoCharOperator(cls: CharClasses, s: string, p: nat, q: nat)
    requires q == RunEnd(cls, Whitespace, s, p) && q < |s|
    requires s[q] == '=' || s[q] == '!'
    ensures var r := Scan(cls, s, p);
      if q + 1 < |s| && s[q + 1] == '=' then
        r.tok == (if s[q] == '=' then Token(Eq, "==") else Token(NotEq, "!=")) && r.next == q + 2
      else
        r.tok == (if s[q] == '=' then Token(Assign, "=") else Token(Bang, "!")) && r.next == q + 1
  {
  }

  /**
   * Each of `+ - / * < > ; , ( ) { }` is a token of its own kind whose text
   * is that character, and the cursor moves past it and no further.
   */
  lemma ScanSingleCharOperator(cls: CharClasses, s: string, p: nat, q: nat)
    requires q == RunEnd(cls, Whitespace, s, p) && q < |s|
    requires s[q] in "+-/*<>;,(){}"
    ensures var r := Scan(cls, s, p);
      Spelling(r.tok.typ) == Some([s[q]]) && r.tok.literal == [s[q]] && r.next == q + 1
  {
    var c := s[q];
    assert OperatorKind(c).Some?;
    OperatorKindSpelling(c, OperatorKind(c).value);
  }

  /**
   * A letter (alphabetic or `_`) starts an identifier: its text is the
   * maximal run of letters from there, the cursor stops on the first
   * character that is not a letter, and the kind is the keyword lookup of
   * the whole text.
   */
  lemma ScanIdentifier(cls: CharClasses, s: string, p: nat, q: nat)
    requires q == RunEnd(cls, Whitespace, s, p) && q < |s|
    requires OperatorKind(s[q]).None? && InRun(cls, Letter, s[q])
    ensures var r := Scan(cls, s, p);
      q < r.next <= |s| &&
      (forall i :: q <= i < r.next ==> InRun(cls, Letter, s[i])) &&
      (r.next < |s| ==> !InRun(cls, Letter, s[r.next])) &&
      r.tok.literal == s[q..r.next] && r.tok.typ == LookUpIdent(r.tok.literal)
  {
    RunEndInRun(cls, Letter, s, q);
  }

  /**
   * A numeric character that is not a letter starts an integer: its text is
   * the maximal run of numeric characters and the cursor stops on the first
   * character that is not numeric.
   */
  lemma ScanNumber(cls: CharClasses, s: string, p: nat, q: nat)
    requires q == RunEnd(cls, Whitespace, s, p) && q < |s|
    requires OperatorKind(s[q]).None? && !InRun(cls, Letter, s[q]) && InRun(cls, Numeric, s[q])
    ensures var r := Scan(cls, s, p);
      q < r.next <= |s| &&
      (forall i :: q <= i < r.next ==> InRun(cls, Numeric, s[i])) &&
      (r.next < |s| ==> !InRun(cls, Numeric, s[r.next])) &&
      r.tok == Token(Int, s[q..r.next])
  {
    RunEndInRun(cls, Numeric, s, q);
  }

  /** Any other character is one illegal token with that character as text. */
  lemma ScanIllegal(cls: CharClasses, s: string, p: nat, q: nat)
    requires q == RunEnd(cls, Whitespace, s, p) && q < |s|
    requires OperatorKind(s[q]).None? && !InRun(cls, Letter, s[q]) && !InRun(cls, Numeric, s[q])
    ensures Scan(cls, s, p) == Step(Token(Illegal, [s[q]]), q + 1)
  {
  }

  /** The stream from `p` is the first token followed, unless it is end of input, by the stream after it. */
  lemma TokensFromUnfold(cls: CharClasses, s: string, p: nat)
    ensures var r := Scan(cls, s, p);
      TokensFrom(cls, s, p) == if r.tok.typ == EOF then [r.tok] else [r.tok] + TokensFrom(cls, s, r.next)
  {
    assert Scanner(cls, s)(p) == Scan(cls, s, p);
  }

  /**
   * A stream ends with the first end-of-input token: it is never empty, its
   * last token is end of input with empty text, no earlier one is end of
   * input, and when every token `step` yields carries its kind's fixed text,
   * so does every token of the stream.
   */
  lemma {:induction false} StreamShape(step: nat -> Step, bound: nat, p: nat)
    requires Advances(step, bound)
    requires forall q: nat :: WellSpelled(step(q).tok)
    ensures var ts := Stream(step, bound, p);
      |ts| >= 1 && ts[|ts| - 1] == Token(EOF, "") &&
      (forall i :: 0 <= i < |ts| - 1 ==> ts[i].typ != EOF) &&
      (forall i :: 0 <= i < |ts| ==> WellSpelled(ts[i]))
    decreases bound - p
  {
    var r := step(p);
    assert WellSpelled(r.tok);
    if r.tok.typ != EOF {
      StreamShape(step, bound, r.next);
      var rest := Stream(step, bound, r.next);
      assert Stream(step, bound, p) == [r.tok] + rest;
      forall i | 0 < i < |rest| + 1
        ensures ([r.tok] + rest)[i] == rest[i - 1]
      {
      }
    }
  }

  /**
   * Totality of the lexer: its stream ends with the first end-of-input
   * token, which has empty text, every token before it is a real one, and
   * every token carries its kind's fixed text when its kind has one.
   */
  lemma TokensFromShape(cls: CharClasses, s: string, p: nat)
    ensures var ts := TokensFrom(cls, s, p);
      |ts| >= 1 && ts[|ts| - 1] == Token(EOF, "") &&
      (forall i :: 0 <= i < |ts| - 1 ==> ts[i].typ != EOF) &&
      (forall i :: 0 <= i < |ts| ==> WellSpelled(ts[i]))
  {
    var step := Scanner(cls, s);
    forall q: nat
      ensures WellSpelled(step(q).tok)
    {
      ScanProgress(cls, s, q);
    }
    StreamShape(step, |s|, p);
  }

  /** One more call moves the cursor from where `n` calls left it to where that call's step ends. */
  lemma {:induction false} CursorAfterStep(step: nat -> Step, p: nat, n: nat)
    ensures CursorAfter(step, p, n + 1) == step(CursorAfter(step, p, n)).next
    decreases n
  {
    if n > 0 {
      CursorAfterStep(step, step(p).next, n - 1);
    }
  }

  /** The i-th token of a stream is what the (i+1)-th call of `step` yields. */
  lemma {:induction false} StreamCalls(step: nat -> Step, bound: nat, p: nat, i: nat)
    requires Advances(step, bound)
    requires i < |Stream(step, bound, p)|
    ensures Stream(step, bound, p)[i] == step(CursorAfter(step, p, i)).tok
    decreases i
  {
    if i > 0 {
      var r := step(p);
      assert Stream(step, bound, p) == [r.tok] + Stream(step, bound, r.next);
      StreamCalls(step, bound, r.next, i - 1);
    }
  }

  /** The i-th token of the lexer's stream is what the (i+1)-th call of `next_token` returns. */
  lemma TokensFromCalls(cls: CharClasses, s: string, p: nat, i: nat)
    requires i < |TokensFrom(cls, s, p)|
    ensures TokensFrom(cls, s, p)[i] == Scan(cls, s, CursorAfter(Scanner(cls, s), p, i)).tok
  {
    StreamCalls(Scanner(cls, s), |s|, p, i);
  }

  /**
   * Calling `next_token` once more, after `i` calls from `p`, returns the
   * i-th token of the stream and leaves the cursor where `i + 1` calls do.
   */
  lemma NextCall(cls: CharClasses, s: string, p: nat, i: nat)
    requires i < |TokensFrom(cls, s, p)|
    ensures Scan(cls, s, CursorAfter(Scanner(cls, s), p, i)) ==
      Step(TokensFrom(cls, s, p)[i], CursorAfter(Scanner(cls, s), p, i + 1))
  {
    TokensFromCalls(cls, s, p, i);
    CursorAfterStep(Scanner(cls, s), p, i);
  }

  /** Once `step` has yielded end of input, the cursor stays past `bound` and every later call yields end of input. */
  lemma {:induction false} StreamEndRepeats(step: nat -> Step, bound: nat, p: nat, n: nat)
    requires Advances(step, bound)
    requires step(p).tok.typ == EOF
    ensures bound < CursorAfter(step, p, n + 1)
    ensures step(CursorAfter(step, p, n)).tok.typ == EOF
    decreases n
  {
    if n > 0 {
      var p' := step(p).next;
      assert step(p').tok.typ == EOF by {
        assert p' < step(p').next;
      }
      StreamEndRepeats(step, bound, p', n - 1);
    }
  }

  /**
   * Once `next_token` has returned end of input, every later call returns
   * end of input with empty text again, and the cursor stays past the end.
   */
  lemma EndOfInputRepeats(cls: CharClasses, s: string, p: nat, n: nat)
    requires Scan(cls, s, p).tok.typ == EOF
    ensures |s| < CursorAfter(Scanner(cls, s), p, n + 1)
    ensures Scan(cls, s, CursorAfter(Scanner(cls, s), p, n)).tok == Token(EOF, "")
  {
    StreamEndRepeats(Scanner(cls, s), |s|, p, n);
    ScanProgress(cls, s, CursorAfter(Scanner(cls, s), p, n));
  }

  /** No whitespace character is alphabetic or numeric (true of the Unicode tables). */
  predicate WhitespaceUnclassified(cls: CharClasses)
  {
    forall c :: IsWhitespace(c) ==> !cls.alphabetic(c) && !cls.numeric(c)
  }

  lemma AsciiWhitespaceUnclassified(cls: CharClasses)
    requires AgreesOnAscii(cls)
    ensures WhitespaceUnclassified(cls)
  {
    forall c | IsWhitespace(c)
      ensures !cls.alphabetic(c) && !cls.numeric(c)
    {
      assert c < 128 as char;
    }
  }

  /** The texts of a sequence of tokens, concatenated. */
  function Literals(ts: seq<Token>): string
  {
    if ts == [] then [] else ts[0].literal + Literals(ts[1..])
  }

  /** The characters of `s` that are not whitespace, in order. */
  function NonWhitespace(s: string): string
  {
    if s == [] then [] else (if IsWhitespace(s[0]) then [] else [s[0]]) + NonWhitespace(s[1..])
  }

  lemma {:induction false} NonWhitespaceAppend(a: string, b: string)
    ensures NonWhitespace(a + b) == NonWhitespace(a) + NonWhitespace(b)
    decreases |a|
  {
    if a != [] {
      var head := if IsWhitespace(a[0]) then [] else [a[0]];
      assert (a + b)[0] == a[0] && (a + b)[1..] == a[1..] + b;
      NonWhitespaceAppend(a[1..], b);
      calc {
        NonWhitespace(a + b);
        head + NonWhitespace(a[1..] + b);
        head + (NonWhitespace(a[1..]) + NonWhitespace(b));
        (head + NonWhitespace(a[1..])) + NonWhitespace(b);
      }
    } else {
      assert a + b == b;
    }
  }

  lemma {:induction false} NonWhitespaceOfWhitespace(a: string)
    requires forall i :: 0 <= i < |a| ==> IsWhitespace(a[i])
    ensures NonWhitespace(a) == []
    decreases |a|
  {
    if a != [] {
      NonWhitespaceOfWhitespace(a[1..]);
    }
  }

  lemma {:induction false} NonWhitespaceOfText(a: string)
    requires forall i :: 0 <= i < |a| ==> !IsWhitespace(a[i])
    ensures NonWhitespace(a) == a
    decreases |a|
  {
    if a != [] {
      NonWhitespaceOfText(a[1..]);
    }
  }

  /** No token's text contains whitespace. */
  lemma TokenTextHasNoWhitespace(cls: CharClasses, s: string, p: nat)
    requires WhitespaceUnclassified(cls)
    requires Scan(cls, s, p).tok.typ != EOF
    ensures forall i :: RunEnd(cls, Whitespace, s, p) <= i < Scan(cls, s, p).next ==> !IsWhitespace(s[i])
  {
    ScanProgress(cls, s, p);
    var q := RunEnd(cls, Whitespace, s, p);
    RunEndInRun(cls, Letter, s, q);
    RunEndInRun(cls, Numeric, s, q);
  }

  /** Skipping whitespace from `p` drops only whitespace. */
  lemma SkipKeepsNonWhitespace(cls: CharClasses, s: string, p: nat)
    requires p <= |s|
    ensures RunEnd(cls, Whitespace, s, p) <= |s|
    ensures NonWhitespace(s[p..]) == NonWhitespace(s[RunEnd(cls, Whitespace, s, p)..])
  {
    var q := RunEnd(cls, Whitespace, s, p);
    assert s[p..] == s[p..q] + s[q..];
    NonWhitespaceAppend(s[p..q], s[q..]);
    RunEndInRun(cls, Whitespace, s, p);
    NonWhitespaceOfWhitespace(s[p..q]);
  }

  /** A token's text is exactly the non-whitespace characters it covers. */
  lemma TokenKeepsNonWhitespace(cls: CharClasses, s: string, p: nat)
    requires WhitespaceUnclassified(cls)
    requires Scan(cls, s, p).tok.typ != EOF
    ensures RunEnd(cls, Whitespace, s, p) < Scan(cls, s, p).next <= |s|
    ensures NonWhitespace(s[RunEnd(cls, Whitespace, s, p)..]) ==
      Scan(cls, s, p).tok.literal + NonWhitespace(s[Scan(cls, s, p).next..])
  {
    ScanProgress(cls, s, p);
    var q, e := RunEnd(cls, Whitespace, s, p), Scan(cls, s, p).next;
    assert s[q..] == s[q..e] + s[e..];
    NonWhitespaceAppend(s[q..e], s[e..]);
    TokenTextHasNoWhitespace(cls, s, p);
    NonWhitespaceOfText(s[q..e]);
  }

  /**
   * Coverage: the texts of the tokens a lexer yields from `p` until end of
   * input, concatenated, are exactly the non-whitespace characters of the
   * input from `p` on. No character is skipped or duplicated, and only
   * whitespace is dropped.
   */
  lemma {:induction false} Coverage(cls: CharClasses, s: string, p: nat)
    requires WhitespaceUnclassified(cls)
    requires p <= |s|
    ensures Literals(TokensFrom(cls, s, p)) == NonWhitespace(s[p..])
    decreases |s| - p
  {
    var r := Scan(cls, s, p);
    ScanProgress(cls, s, p);
    SkipKeepsNonWhitespace(cls, s, p);
    TokensFromUnfold(cls, s, p);
    if r.tok.typ == EOF {
      assert s[RunEnd(cls, Whitespace, s, p)..] == [];
      assert Literals([r.tok]) == [];
    } else {
      TokenKeepsNonWhitespace(cls, s, p);
      Coverage(cls, s, r.next);
      var ts := TokensFrom(cls, s, r.next);
      assert ([r.tok] + ts)[1..] == ts;
    }
  }
}
