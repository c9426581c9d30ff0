/**
 * The token vocabulary of the Monkey language (src/token/mod.rs): the closed
 * set of token kinds, the keyword lookup and the constructors the lexer uses
 * to build tokens.
 */
module Tokens {
  import opened Options

  /** Every kind of token the lexer can produce. */
  datatype TokenType =
    | Illegal | EOF
      // identifiers and literals
    | Ident | Int
      // operators
    | Assign | Plus | Minus | Bang | Asterisk | Slash
    | Lt | Gt | Eq | NotEq
      // delimiters
    | Comma | Semicolon
    | Lparen | Rparen | Lbrace | Rbrace
      // keywords
    | Function | Let | True | False | If | Else | Return

  /** A token: its kind and the text it was made from. */
  datatype Token = Token(typ: TokenType, literal: string)

  /** The seven keyword kinds. */
  predicate IsKeyword(k: TokenType)
  {
    k.Function? || k.Let? || k.True? || k.False? || k.If? || k.Else? || k.Return?
  }

  /**
   * The fixed text of every kind that has one (operators, delimiters,
   * keywords, and the empty text of end of input). Identifiers, integers and
   * illegal characters carry whatever text was scanned, so they have none.
   */
  function Spelling(k: TokenType): Option<string>
  {
    match k
    case Illegal => None
    case EOF => Some("")
    case Ident => None
    case Int => None
    case Assign => Some("=")
    case Plus => Some("+")
    case Minus => Some("-")
    case Bang => Some("!")
    case Asterisk => Some("*")
    case Slash => Some("/")
    case Lt => Some("<")
    case Gt => Some(">")
    case Eq => Some("==")
    case NotEq => Some("!=")
    case Comma => Some(",")
    case Semicolon => Some(";")
    case Lparen => Some("(")
    case Rparen => Some(")")
    case Lbrace => Some("{")
    case Rbrace => Some("}")
    case Function => Some("fn")
    case Let => Some("let")
    case True => Some("true")
    case False => Some("false")
    case If => Some("if")
    case Else => Some("else")
    case Return => Some("return")
  }

  /** A token whose kind has a fixed text carries exactly that text. */
  predicate WellSpelled(t: Token)
  {
    Spelling(t.typ).Some? ==> t.literal == Spelling(t.typ).value
  }

  /** The keywords and their kinds, in the order the lookup tries them. */
  const Keywords: seq<(string, TokenType)> :=
    [("fn", Function), ("let", Let), ("true", True), ("false", False),
     ("if", If), ("else", Else), ("return", Return)]

  /** Every entry of `table` pairs a keyword kind with that kind's own spelling. */
  predicate SpellsKeywords(table: seq<(string, TokenType)>)
  {
    forall i :: 0 <= i < |table| ==> IsKeyword(table[i].1) && Spelling(table[i].1) == Some(table[i].0)
  }

  /** The keyword table pairs each keyword kind with its own spelling. */
  lemma KeywordsSpelled()
    ensures SpellsKeywords(Keywords)
  {
    forall i | 0 <= i < |Keywords|
      ensures IsKeyword(Keywords[i].1) && Spelling(Keywords[i].1) == Some(Keywords[i].0)
    {
      var (w, k) := Keywords[i];
      assert w == Spelling(k).value by {
        match k
        case Function =>
        case Let =>
        case True =>
        case False =>
        case If =>
        case Else =>
        case Return =>
      }
    }
  }

  /** The kind of the first entry of `table` whose text is `ident`, or Ident when there is none. */
  function LookUpIn(table: seq<(string, TokenType)>, ident: string): TokenType
  {
    if table == [] then Ident
    else if table[0].0 == ident then table[0].1
    else LookUpIn(table[1..], ident)
  }

  /**
   * Searching a table of keyword spellings yields Ident exactly when no
   * entry's text is the word, and otherwise a keyword spelled by the word.
   */
  lemma {:induction false} LookUpInSound(table: seq<(string, TokenType)>, ident: string)
    requires SpellsKeywords(table)
    ensures var k := LookUpIn(table, ident);
      (k.Ident? <==> forall i :: 0 <= i < |table| ==> table[i].0 != ident) &&
      (!k.Ident? ==> IsKeyword(k) && Spelling(k) == Some(ident))
  {
    if table != [] && table[0].0 != ident {
      LookUpInSound(table[1..], ident);
      assert forall i :: 1 <= i < |table| ==> table[i] == table[1..][i - 1];
    }
  }

  /**
   * Keyword lookup of a scanned word: the keyword kind whose spelling is the
   * whole word, and Ident for every other word.
   */
  function LookUpIdent(ident: string): (k: TokenType)
    ensures k.Ident? || IsKeyword(k)
    ensures IsKeyword(k) ==> Spelling(k) == Some(ident)
  {
    KeywordsSpelled();
    LookUpInSound(Keywords, ident);
    LookUpIn(Keywords, ident)
  }

  /** The keyword table, entry by entry. */
  lemma KeywordTable()
    ensures LookUpIdent("fn") == Function
    ensures LookUpIdent("let") == Let
    ensures LookUpIdent("true") == True
    ensures LookUpIdent("false") == False
    ensures LookUpIdent("if") == If
    ensures LookUpIdent("else") == Else
    ensures LookUpIdent("return") == Return
  {
  }

  /** Looking up a keyword's own spelling gives that keyword back. */
  lemma {:induction false} LookUpSpelling(k: TokenType)
    requires IsKeyword(k)
    ensures LookUpIdent(Spelling(k).value) == k
  {
    match k
    case Function =>
    case Let =>
    case True =>
    case False =>
    case If =>
    case Else =>
    case Return =>
  }

  /** A word is an identifier exactly when it is no keyword's spelling. */
  lemma LookUpIdentIsIdent(ident: string)
    ensures LookUpIdent(ident).Ident? <==> forall kw :: IsKeyword(kw) ==> Spelling(kw) != Some(ident)
  {
    if k :| IsKeyword(k) && Spelling(k) == Some(ident) {
      LookUpSpelling(k);
    }
  }

  /** Only the whole word selects a keyword: a keyword with letters added or removed is an identifier. */
  lemma WholeWordOnly()
    ensures LookUpIdent("letx") == Ident
    ensures LookUpIdent("le") == Ident
    ensures LookUpIdent("fnord") == Ident
    ensures LookUpIdent("Let") == Ident
    ensures LookUpIdent("") == Ident
  {
  }

  /** Token::new: the given kind with the one-character text `ch`. */
  function NewToken(typ: TokenType, ch: char): (t: Token)
    ensures t.typ == typ && |t.literal| == 1 && t.literal[0] == ch
  {
    Token(typ, [ch])
  }

  /** Token::new_ident: the scanned word unchanged, classified by the keyword lookup. */
  function NewIdent(s: string): (t: Token)
    ensures t.literal == s
    ensures t.typ == LookUpIdent(s)
    ensures t.typ.Ident? || IsKeyword(t.typ)
    ensures WellSpelled(t)
  {
    Token(LookUpIdent(s), s)
  }

  /** Token::new_eq: the `==` operator. */
  function NewEq(): (t: Token)
    ensures t.typ == Eq && WellSpelled(t)
  {
    Token(Eq, "==")
  }

  /** Token::new_not_eq: the `!=` operator. */
  function NewNotEq(): (t: Token)
    ensures t.typ == NotEq && WellSpelled(t)
  {
    Token(NotEq, "!=")
  }

  /** Token::new_int: an integer token carrying the scanned digits unchanged. */
  function NewInt(s: string): (t: Token)
    ensures t.typ == Int && t.literal == s && WellSpelled(t)
  {
    Token(Int, s)
  }
}
