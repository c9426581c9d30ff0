/**
 * Lexing splits at whitespace: when a piece of input ends in whitespace, no
 * token can straddle its end, so lexing the piece followed by more input
 * yields the piece's own tokens (without its end of input) followed by the
 * tokens of the rest. This is what makes feeding the lexer one line at a
 * time, as the interactive shell does, agree with lexing the whole text.
 */
module LexerSplit {
  import opened Options
  import opened Tokens
  import opened LexerSpec
  import opened LexerProperties

  /** `s` is non-empty and its last character is whitespace. */
  predicate EndsInWhitespace(s: string)
  {
    |s| > 0 && IsWhitespace(s[|s| - 1])
  }

  /** A token stream without its final end-of-input token. */
  function WithoutEnd(ts: seq<Token>): (r: seq<Token>)
    requires |ts| >= 1
    ensures |r| == |ts| - 1 && forall i :: 0 <= i < |r| ==> r[i] == ts[i]
  {
    ts[..|ts| - 1]
  }

  /** A run inside `b` is found at the same place, shifted by |a|, in `a + b`. */
  lemma RunEndShift(cls: CharClasses, k: Run, a: string, b: string, j: nat)
    requires j <= |b|
    ensures RunEnd(cls, k, a + b, |a| + j) == |a| + RunEnd(cls, k, b, j)
  {
    var e := RunEnd(cls, k, b, j);
    RunEndInRun(cls, k, b, j);
    forall i | |a| + j <= i < |a| + e
      ensures InRun(cls, k, (a + b)[i])
    {
      assert (a + b)[i] == b[i - |a|];
    }
    if |a| + e < |a + b| {
      assert (a + b)[|a| + e] == b[e];
    }
    RunEndUnique(cls, k, a + b, |a| + j, |a| + e);
  }

  /**
   * A run that starts in `a` ends where it ends in `a` alone when it stops
   * inside `a`; when it reaches the end of `a` it goes on into `b`.
   */
  lemma RunEndAppend(cls: CharClasses, k: Run, a: string, b: string, p: nat)
    requires p <= |a|
    ensures RunEnd(cls, k, a, p) < |a| ==> RunEnd(cls, k, a + b, p) == RunEnd(cls, k, a, p)
    ensures RunEnd(cls, k, a, p) >= |a| ==> RunEnd(cls, k, a + b, p) == |a| + RunEnd(cls, k, b, 0)
  {
    var e := RunEnd(cls, k, a, p);
    RunEndInRun(cls, k, a, p);
    if e < |a| {
      forall i | p <= i < e
        ensures InRun(cls, k, (a + b)[i])
      {
        assert (a + b)[i] == a[i];
      }
      assert (a + b)[e] == a[e];
      RunEndUnique(cls, k, a + b, p, e);
    } else {
      var e' := |a| + RunEnd(cls, k, b, 0);
      RunEndInRun(cls, k, b, 0);
      forall i | p <= i < e'
        ensures InRun(cls, k, (a + b)[i])
      {
        if i < |a| {
          assert (a + b)[i] == a[i];
        } else {
          assert (a + b)[i] == b[i - |a|];
        }
      }
      if e' < |a + b| {
        assert (a + b)[e'] == b[e' - |a|];
      }
      RunEndUnique(cls, k, a + b, p, e');
    }
  }

  /** A slice of `b` is the same slice, shifted by |a|, of `a + b`. */
  lemma SliceShift(a: string, b: string, i: nat, j: nat)
    requires i <= j <= |b|
    ensures (a + b)[|a| + i..|a| + j] == b[i..j]
  {
    assert forall n :: 0 <= n < j - i ==> (a + b)[|a| + i..|a| + j][n] == b[i..j][n];
  }

  /** The character after `q` inside `b` is the one after `|a| + q` inside `a + b`. */
  lemma CharAtShift(a: string, b: string, q: nat)
    requires q < |b|
    ensures (a + b)[|a| + q] == b[q]
    ensures CharAt(a + b, |a| + q + 1) == CharAt(b, q + 1)
  {
    if q + 1 < |b| {
      assert (a + b)[|a| + q + 1] == b[q + 1];
    }
  }

  /** An identifier or an integer starting at `q` inside `b` is the same, shifted by |a|, inside `a + b`. */
  lemma RunTokenShift(cls: CharClasses, k: Run, a: string, b: string, q: nat)
    requires q < |b| && (k == Letter || k == Numeric)
    ensures var e := RunEnd(cls, k, b, q);
      RunEnd(cls, k, a + b, |a| + q) == |a| + e && (a + b)[|a| + q..|a| + e] == b[q..e]
  {
    RunEndShift(cls, k, a, b, q);
    SliceShift(a, b, q, RunEnd(cls, k, b, q));
  }

  /** The token starting at `q` inside `b` is the same, shifted by |a|, inside `a + b`. */
  lemma TokenAtShift(cls: CharClasses, a: string, b: string, q: nat)
    requires q < |b|
    ensures TokenAt(cls, a + b, |a| + q) == Step(TokenAt(cls, b, q).tok, |a| + TokenAt(cls, b, q).next)
  {
    CharAtShift(a, b, q);
    var c := b[q];
    if c == '=' && CharAt(b, q + 1) == Some('=') {
    } else if c == '!' && CharAt(b, q + 1) == Some('=') {
    } else if OperatorKind(c).Some? {
    } else if InRun(cls, Letter, c) {
      RunTokenShift(cls, Letter, a, b, q);
    } else if InRun(cls, Numeric, c) {
      RunTokenShift(cls, Numeric, a, b, q);
    }
  }

  /** One call of `next_token` inside `b` behaves the same, shifted by |a|, inside `a + b`. */
  lemma ScanShift(cls: CharClasses, a: string, b: string, j: nat)
    requires j <= |b|
    ensures Scan(cls, a + b, |a| + j) == Step(Scan(cls, b, j).tok, |a| + Scan(cls, b, j).next)
  {
    RunEndShift(cls, Whitespace, a, b, j);
    var q := RunEnd(cls, Whitespace, b, j);
    if q < |b| {
      TokenAtShift(cls, a, b, q);
    }
  }

  /** Two cursors at which `step` yields the same step start the same stream. */
  lemma StreamSameStep(step: nat -> Step, bound: nat, p: nat, p': nat)
    requires Advances(step, bound)
    requires step(p) == step(p')
    ensures Stream(step, bound, p) == Stream(step, bound, p')
  {
  }

  /** The call of `stepS` from `off + i` behaves like the call of `stepB` from `i`, shifted by `off`. */
  ghost predicate ShiftedAt(stepS: nat -> Step, stepB: nat -> Step, off: nat, i: nat)
  {
    stepS(off + i) == Step(stepB(i).tok, off + stepB(i).next)
  }

  /**
   * When every call of `stepS` from `off + i` behaves like the call of
   * `stepB` from `i`, shifted by `off`, the two streams agree.
   */
  lemma {:induction false} StreamShifted(stepS: nat -> Step, boundS: nat, stepB: nat -> Step, boundB: nat, off: nat, j: nat)
    requires Advances(stepS, boundS) && Advances(stepB, boundB)
    requires j <= boundB
    requires forall i: nat :: i <= boundB ==> ShiftedAt(stepS, stepB, off, i)
    ensures Stream(stepS, boundS, off + j) == Stream(stepB, boundB, j)
    decreases boundB - j
  {
    var r := stepB(j);
    assert ShiftedAt(stepS, stepB, off, j);
    if r.tok.typ != EOF {
      StreamShifted(stepS, boundS, stepB, boundB, off, r.next);
    }
  }

  /** Every call of `next_token` inside `b` behaves the same, shifted by |a|, inside `a + b`. */
  lemma ScannerShift(cls: CharClasses, a: string, b: string)
    ensures forall i: nat :: i <= |b| ==> ShiftedAt(Scanner(cls, a + b), Scanner(cls, b), |a|, i)
  {
    forall i: nat | i <= |b|
      ensures ShiftedAt(Scanner(cls, a + b), Scanner(cls, b), |a|, i)
    {
      ScanShift(cls, a, b, i);
    }
  }

  /** The whole token stream inside `b` is the same inside `a + b`. */
  lemma TokensFromShift(cls: CharClasses, a: string, b: string, j: nat)
    requires j <= |b|
    ensures TokensFrom(cls, a + b, |a| + j) == TokensFrom(cls, b, j)
  {
    ScannerShift(cls, a, b);
    StreamShifted(Scanner(cls, a + b), |a + b|, Scanner(cls, b), |b|, |a|, j);
  }

  /**
   * A token that starts inside `a`, when `a` ends in whitespace, ends inside
   * `a` too, and is the same token inside `a + b`.
   */
  lemma TokenAtAppend(cls: CharClasses, a: string, b: string, q: nat)
    requires WhitespaceUnclassified(cls) && EndsInWhitespace(a)
    requires q < |a| && !IsWhitespace(a[q])
    ensures TokenAt(cls, a + b, q) == TokenAt(cls, a, q)
  {
    var s, c := a + b, a[q];
    assert s[q] == c;
    assert q + 1 < |a|;
    assert s[q + 1] == a[q + 1];
    if c == '=' && CharAt(a, q + 1) == Some('=') {
    } else if c == '!' && CharAt(a, q + 1) == Some('=') {
    } else if OperatorKind(c).Some? {
    } else if InRun(cls, Letter, c) {
      assert !InRun(cls, Letter, a[|a| - 1]);
      RunEndInRun(cls, Letter, a, q);
      RunEndAppend(cls, Letter, a, b, q);
      var e := RunEnd(cls, Letter, a, q);
      assert s[q..e] == a[q..e];
    } else if InRun(cls, Numeric, c) {
      assert !InRun(cls, Numeric, a[|a| - 1]);
      RunEndInRun(cls, Numeric, a, q);
      RunEndAppend(cls, Numeric, a, b, q);
      var e := RunEnd(cls, Numeric, a, q);
      assert s[q..e] == a[q..e];
    }
  }

  /** A call of `next_token` that finds a token inside `a` finds the same one inside `a + b`. */
  lemma ScanAppendToken(cls: CharClasses, a: string, b: string, p: nat)
    requires WhitespaceUnclassified(cls) && EndsInWhitespace(a)
    requires p <= |a| && RunEnd(cls, Whitespace, a, p) < |a|
    ensures Scan(cls, a + b, p) == Scan(cls, a, p)
  {
    RunEndAppend(cls, Whitespace, a, b, p);
    TokenAtAppend(cls, a, b, RunEnd(cls, Whitespace, a, p));
  }

  /**
   * A call of `next_token` that finds only whitespace left in `a` skips, inside
   * `a + b`, to where a call at the start of `b` does, and so yields the same.
   */
  lemma ScanAppendEnd(cls: CharClasses, a: string, b: string, p: nat)
    requires p <= |a| && RunEnd(cls, Whitespace, a, p) >= |a|
    ensures RunEnd(cls, Whitespace, a + b, p) == RunEnd(cls, Whitespace, a + b, |a|)
    ensures Scan(cls, a + b, p) == Scan(cls, a + b, |a|)
  {
    RunEndAppend(cls, Whitespace, a, b, p);
    RunEndAppend(cls, Whitespace, a, b, |a|);
  }

  /**
   * When `stepAB` agrees with `stepA` on every real token `stepA` yields
   * within `a`, and the stream of `stepAB` from wherever `stepA` finds only
   * whitespace left is the stream of `stepB`, then the stream of `stepAB`
   * is that of `stepA` without its end of input, followed by that of `stepB`.
   */
  lemma {:induction false} StreamAppended(stepAB: nat -> Step, boundAB: nat, stepA: nat -> Step, boundA: nat,
                                          stepB: nat -> Step, boundB: nat, p: nat)
    requires Advances(stepAB, boundAB) && Advances(stepA, boundA) && Advances(stepB, boundB)
    requires p <= boundA
    requires forall q: nat :: q <= boundA && stepA(q).tok.typ != EOF ==> stepAB(q) == stepA(q)
    requires forall q: nat :: q <= boundA && stepA(q).tok.typ == EOF ==>
               Stream(stepAB, boundAB, q) == Stream(stepB, boundB, 0)
    ensures |Stream(stepA, boundA, p)| >= 1
    ensures Stream(stepAB, boundAB, p) == WithoutEnd(Stream(stepA, boundA, p)) + Stream(stepB, boundB, 0)
    decreases boundA - p
  {
    var r := stepA(p);
    if r.tok.typ != EOF {
      assert stepAB(p) == r;
      StreamAppended(stepAB, boundAB, stepA, boundA, stepB, boundB, r.next);
      var rest := Stream(stepA, boundA, r.next);
      assert Stream(stepA, boundA, p) == [r.tok] + rest;
      assert Stream(stepAB, boundAB, p) == [r.tok] + Stream(stepAB, boundAB, r.next);
      assert WithoutEnd([r.tok] + rest) == [r.tok] + WithoutEnd(rest);
    } else {
      assert Stream(stepA, boundA, p) == [r.tok];
    }
  }

  /**
   * From a cursor in `a` after which only whitespace is left, lexing `a + b`
   * gives the tokens of `b`.
   */
  lemma TokensFromAppendEnd(cls: CharClasses, a: string, b: string, p: nat)
    requires p <= |a| && RunEnd(cls, Whitespace, a, p) >= |a|
    ensures TokensFrom(cls, a + b, p) == TokensFrom(cls, b, 0)
  {
    ScanAppendEnd(cls, a, b, p);
    StreamSameStep(Scanner(cls, a + b), |a + b|, p, |a|);
    TokensFromShift(cls, a, b, 0);
  }

  /** From any cursor in `a`, lexing `a + b` gives the rest of `a`'s tokens, then `b`'s. */
  lemma TokensFromAppend(cls: CharClasses, a: string, b: string, p: nat)
    requires WhitespaceUnclassified(cls) && EndsInWhitespace(a)
    requires p <= |a|
    ensures |TokensFrom(cls, a, p)| >= 1
    ensures TokensFrom(cls, a + b, p) == WithoutEnd(TokensFrom(cls, a, p)) + TokensFrom(cls, b, 0)
  {
    var stepAB, stepA, stepB := Scanner(cls, a + b), Scanner(cls, a), Scanner(cls, b);
    forall q: nat | q <= |a| && stepA(q).tok.typ != EOF
      ensures stepAB(q) == stepA(q)
    {
      ScanProgress(cls, a, q);
      ScanAppendToken(cls, a, b, q);
    }
    forall q: nat | q <= |a| && stepA(q).tok.typ == EOF
      ensures Stream(stepAB, |a + b|, q) == Stream(stepB, |b|, 0)
    {
      ScanProgress(cls, a, q);
      TokensFromAppendEnd(cls, a, b, q);
    }
    StreamAppended(stepAB, |a + b|, stepA, |a|, stepB, |b|, p);
  }

  /** The lines, concatenated. */
  function Join(lines: seq<string>): string
  {
    if lines == [] then "" else lines[0] + Join(lines[1..])
  }

  /** Each line lexed on its own, with one end of input at the very end. */
  function TokensOfLines(cls: CharClasses, lines: seq<string>): (ts: seq<Token>)
    ensures |ts| >= 1 && ts[|ts| - 1] == Token(EOF, "")
  {
    if lines == [] then [Token(EOF, "")]
    else WithoutEnd(TokensFrom(cls, lines[0], 0)) + TokensOfLines(cls, lines[1..])
  }

  /**
   * Lexing whitespace-terminated lines joined together yields the same
   * tokens as lexing each line separately and dropping all but the last
   * end of input.
   */
  lemma {:induction false} TokensOfJoin(cls: CharClasses, lines: seq<string>)
    requires WhitespaceUnclassified(cls)
    requires forall i :: 0 <= i < |lines| ==> EndsInWhitespace(lines[i])
    ensures TokensFrom(cls, Join(lines), 0) == TokensOfLines(cls, lines)
  {
    if lines == [] {
      TokensFromUnfold(cls, "", 0);
    } else {
      TokensOfJoin(cls, lines[1..]);
      TokensFromAppend(cls, lines[0], Join(lines[1..]), 0);
    }
  }
}
