/**
 * The Monkey lexer as the cursor-driven state machine of src/lexer/mod.rs:
 * the input, the cursor (`position`, `readPosition`) and the current
 * character `ch`, updated in place by `ReadChar` and the scanning loops.
 * Each method is proved against the specification in module LexerSpec.
 */
module Lexing {
  import opened Options
  import opened Tokens
  import opened LexerSpec

  class Lexer {
    const input: string
    /** The Unicode classes `is_alphabetic` and `is_numeric` consult (see LexerSpec.CharClasses). */
    const classes: CharClasses
    /** Index of the current character, counted in characters. */
    var position: nat
    /** Index of the character after the current one. */
    var readPosition: nat
    /** The current character; None once the cursor is past the end of the input. */
    var ch: Option<char>

    /**
     * The cursor invariant: `readPosition` is one past `position`, and `ch`
     * is the character at `position`, or None past the end.
     */
    ghost predicate Valid()
      reads this
      ensures Valid() ==> (ch.Some? <==> position < |input|)
    {
      readPosition == position + 1 && ch == CharAt(input, position)
    }

    /** Lexer::new: the cursor on the first character of `input`. */
    constructor (input: string, classes: CharClasses)
      ensures this.input == input && this.classes == classes
      ensures Valid() && position == 0
    {
      this.input := input;
      this.classes := classes;
      position := 0;
      readPosition := 0;
      ch := None;
      new;
      ReadChar();
    }

    /** read_char: move the cursor to `readPosition` and load the character there. */
    method ReadChar()
      modifies this
      ensures position == old(readPosition) && readPosition == old(readPosition) + 1
      ensures ch == CharAt(input, old(readPosition))
      ensures Valid()
    {
      ch := CharAt(input, readPosition);
      position := readPosition;
      readPosition := readPosition + 1;
    }

    /** peek_char: the character after the current one, without moving the cursor. */
    function PeekChar(): (c: Option<char>)
      reads this
      requires Valid()
      ensures c == CharAt(input, position + 1)
    {
      CharAt(input, readPosition)
    }

    /** skip_white_space: move past the run of spaces, tabs, newlines and carriage returns. */
    method SkipWhiteSpace()
      requires Valid()
      modifies this
      ensures Valid()
      ensures position == RunEnd(classes, Whitespace, input, old(position))
      ensures old(position) <= position
      ensures forall i :: old(position) <= i < position ==> IsWhitespace(input[i])
      ensures ch.None? || !IsWhitespace(ch.value)
    {
      RunEndInRun(classes, Whitespace, input, position);
      while ch.Some?
        invariant Valid() && old(position) <= position
        invariant RunEnd(classes, Whitespace, input, position) == RunEnd(classes, Whitespace, input, old(position))
        decreases |input| - position
      {
        var c := ch.value;
        if c == ' ' || c == '\t' || c == '\n' || c == '\r' {
          ReadChar();
          continue;
        }
        break;
      }
    }

    /**
     * read_identifier: move past the run of letters from the cursor and
     * return the characters moved past.
     */
    method ReadIdentifier() returns (word: string)
      requires Valid()
      modifies this
      ensures Valid()
      ensures position == RunEnd(classes, Letter, input, old(position))
      ensures word == Substring(input, old(position), position)
      ensures !IsLetter(classes, ch)
    {
      var start := position;
      while IsLetter(classes, ch)
        invariant Valid() && start <= position
        invariant RunEnd(classes, Letter, input, position) == RunEnd(classes, Letter, input, start)
        decreases |input| - position
      {
        ReadChar();
      }
      word := Substring(input, start, position);
    }

    /**
     * read_number: move past the run of numeric characters from the cursor
     * and return the characters moved past.
     */
    method ReadNumber() returns (digits: string)
      requires Valid()
      modifies this
      ensures Valid()
      ensures position == RunEnd(classes, Numeric, input, old(position))
      ensures digits == Substring(input, old(position), position)
      ensures ch.None? || !classes.numeric(ch.value)
    {
      var start := position;
      while ch.Some?
        invariant Valid() && start <= position
        invariant RunEnd(classes, Numeric, input, position) == RunEnd(classes, Numeric, input, start)
        decreases |input| - position
      {
        var c := ch.value;
        if !classes.numeric(c) {
          break;
        }
        ReadChar();
      }
      digits := Substring(input, start, position);
    }

    /**
     * next_token: skip whitespace, then classify the current character and
     * consume the token it starts. The identifier and integer branches
     * return straight away, since their scanning loops already leave the
     * cursor on the first character after the token; every other branch
     * ends with one more `ReadChar`.
     */
    method NextToken() returns (t: Token)
      requires Valid()
      modifies this
      ensures Valid()
      ensures Step(t, position) == Scan(classes, input, old(position))
      ensures old(position) < position
    {
      SkipWhiteSpace();
      ghost var q := position;
      if ch.Some? {
        var c := ch.value;
        match c {
          case '=' =>
            if PeekChar() == Some('=') {
              ReadChar();
              t := NewEq();
            } else {
              t := NewToken(Assign, c);
            }
          case '+' => t := NewToken(Plus, c);
          case '-' => t := NewToken(Minus, c);
          case '!' =>
            if PeekChar() == Some('=') {
              ReadChar();
              t := NewNotEq();
            } else {
              t := NewToken(Bang, c);
            }
          case '/' => t := NewToken(Slash, c);
          case '*' => t := NewToken(Asterisk, c);
          case '<' => t := NewToken(Lt, c);
          case '>' => t := NewToken(Gt, c);
          case ';' => t := NewToken(Semicolon, c);
          case ',' => t := NewToken(Comma, c);
          case '(' => t := NewToken(Lparen, c);
          case ')' => t := NewToken(Rparen, c);
          case '{' => t := NewToken(Lbrace, c);
          case '}' => t := NewToken(Rbrace, c);
          case _ =>
            if classes.alphabetic(c) || c == '_' {
              assert RunEnd(classes, Letter, input, q) == RunEnd(classes, Letter, input, q + 1);
              var word := ReadIdentifier();
              assert word == input[q..position];
              t := NewIdent(word);
              return;
            } else if classes.numeric(c) {
              assert RunEnd(classes, Numeric, input, q) == RunEnd(classes, Numeric, input, q + 1);
              var digits := ReadNumber();
              assert digits == input[q..position];
              t := NewInt(digits);
              return;
            } else {
              t := NewToken(Illegal, c);
            }
        }
      } else {
        t := Token(EOF, "");
      }
      ReadChar();
    }
  }
}
