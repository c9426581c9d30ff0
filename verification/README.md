# The Monkey lexer in Dafny

This project models the lexer of the Monkey language interpreter. The lexer
turns a character string into tokens, one token per call of `next_token`. It
is a cursor-driven state machine:

- `input` is the source text.
- `position` is the index of the current character, counted in characters.
- `read_position` is the index of the next character.
- `ch` is the current character, or none once the cursor is past the end.

Each call skips whitespace and then produces one token:

- `==` or `!=`, chosen by one character of lookahead;
- a single-character operator or delimiter;
- an identifier or keyword (a maximal run of alphabetic characters and `_`);
- an integer (a maximal run of numeric characters);
- one illegal character;
- end of input, which every later call returns again.

The project has seven modules:

| file | module | what it holds |
|---|---|---|
| `option.dfy` | `Options` | the `Option` type, standing for Rust's `Option` |
| `token.dfy` | `Tokens` | the token kinds, `look_up_ident` and the `Token` constructors (src/token/mod.rs), as a datatype and pure functions |
| `lexer_spec.dfy` | `LexerSpec` | what `next_token` computes, as functions of the input and the cursor: `Scan` (one call) and `TokensFrom` (every call until end of input) |
| `lexer.dfy` | `Lexing` | the lexer itself (src/lexer/mod.rs) as class `Lexer`, with fields updated in place by `ReadChar` and the scanning loops; each method is proved against `LexerSpec` |
| `lexer_props.dfy` | `LexerProperties` | what each branch of `next_token` yields, end of input repeating, the stream and the calls that produce it, and coverage of the input |
| `lexer_split.dfy` | `LexerSplit` | lexing splits at whitespace: a whitespace-terminated prefix lexes the same on its own as inside a longer input |
| `lexer_tests.dfy` | `LexerTests` | the two lexer tests, `test_next_token` and `test_read_identifier`, as a lemma and methods |

The Unicode classes `char::is_alphabetic` and `char::is_numeric` are library
tables, so they are a parameter, `CharClasses`. The test lemmas assume only
`AgreesOnAscii`: on ASCII, exactly the letters are alphabetic and exactly the
decimal digits are numeric. Outside ASCII nothing is assumed.

Integers are scanned with `char::is_numeric`, as the code does.
`char::is_numeric` accepts more than the ASCII digits `0`–`9`, and the model
follows the code.

## Model

| member | source | states |
|---|---|---|
| Tokens.KeywordsSpelled | src/token/mod.rs:39-50 | every entry of the keyword table pairs a keyword kind with that kind's own spelling |
| Tokens.LookUpInSound | src/token/mod.rs:39-50 | searching a table of keyword spellings gives Ident exactly when no entry is the word, and otherwise a keyword spelled by the word |
| Tokens.LookUpIdent | src/token/mod.rs:39-50 | `look_up_ident` returns only Ident or a keyword kind, and a keyword only when the word is exactly that keyword's spelling |
| Tokens.KeywordTable | src/token/mod.rs:41-47 | `fn`, `let`, `true`, `false`, `if`, `else`, `return` map to Function, Let, True, False, If, Else, Return |
| Tokens.LookUpSpelling | src/token/mod.rs:41-47 | looking up any keyword's spelling gives that keyword back |
| Tokens.LookUpIdentIsIdent | src/token/mod.rs:48 | a word is Ident exactly when it is no keyword's spelling, in both directions |
| Tokens.WholeWordOnly | src/token/mod.rs:40-49 | examples of the default arm: `letx`, `le`, `fnord`, `Let` and the empty word are all Ident (the general statement is `LookUpIdentIsIdent`) |
| Tokens.NewToken | src/token/mod.rs:59-64 | `Token::new` keeps the kind, and its text is the one character given |
| Tokens.NewIdent | src/token/mod.rs:66-71 | `new_ident` keeps the word unchanged as text, and its kind is `look_up_ident` of the word: a keyword's spelling gives that keyword (`KeywordTable`), any other word gives Ident (`LookUpIdentIsIdent`) |
| Tokens.NewEq | src/token/mod.rs:73-78 | `new_eq` is the Eq token with text `==` |
| Tokens.NewNotEq | src/token/mod.rs:80-85 | `new_not_eq` is the NotEq token with text `!=` |
| Tokens.NewInt | src/token/mod.rs:87-92 | `new_int` is an Int token carrying the digits unchanged |
| LexerSpec.CharAt | src/lexer/mod.rs:24 | `chars().nth(i)` is the i-th character when `i` is within the input, and none past its end |
| LexerSpec.IsLetter | src/lexer/mod.rs:131-136 | `is_letter` holds exactly for a present character that is alphabetic or `_` |
| LexerSpec.RunEnd | src/lexer/mod.rs:87-124 | a maximal run ends no earlier than where it starts, within the input once non-empty, and on a character outside the run |
| LexerSpec.RunEndInRun | src/lexer/mod.rs:87-124 | every character a scanning loop moves past belongs to its run |
| LexerSpec.RunEndUnique | src/lexer/mod.rs:87-124 | any end point with the maximal-run properties is the run's end: the run is determined uniquely |
| LexerSpec.Substring | src/lexer/mod.rs:93-97 | `chars().skip(from).take(to - from)` gives the characters from `from` up to `to`, cut short at the end of the input: exactly `min(to, length) - from` characters when `from` is within the input, and none when it is past the end |
| LexerSpec.OperatorKindSpelling | src/lexer/mod.rs:35-63 | the operator table maps a character to a kind exactly when that kind's fixed text is the character alone |
| LexerSpec.TokenAtText | src/lexer/mod.rs:34-76 | a token found at a non-whitespace character is never end of input, carries its kind's fixed text, and its text is exactly the input it spans, which is at least one character |
| LexerSpec.ScanProgress | src/lexer/mod.rs:30-85 | every call moves the cursor forward; end of input comes exactly when only whitespace is left, with empty text and the cursor one past where skipping stopped; any other token's text is the input from the first non-whitespace character up to the new cursor |
| LexerSpec.ScanAdvances | src/lexer/mod.rs:30-85 | from every cursor position, a call moves forward and stays within the input exactly when it yields a real token |
| LexerSpec.Scanner | src/lexer/mod.rs:30-85 | `next_token` as a function of the cursor position, which always advances |
| LexerProperties.ScanTwoCharOperator | src/lexer/mod.rs:36-53 | `=` or `!` followed by `=` yields `==` or `!=` and moves 2; otherwise it yields `=` or `!` and moves 1 |
| LexerProperties.ScanSingleCharOperator | src/lexer/mod.rs:44-63 | each of `+ - / * < > ; , ( ) { }` yields the kind whose fixed text is that character, with that text, and moves exactly 1 |
| LexerProperties.ScanIdentifier | src/lexer/mod.rs:66-68 | a letter starts an identifier whose text is the maximal run of letters, the cursor stops on the first non-letter, and the kind is the keyword lookup of the text |
| LexerProperties.ScanNumber | src/lexer/mod.rs:69-71 | a numeric character that is not a letter starts an Int whose text is the maximal numeric run, and the cursor stops on the first non-numeric character |
| LexerProperties.ScanIllegal | src/lexer/mod.rs:72-74 | any other character is one Illegal token with that character as text, and the cursor moves 1 |
| LexerProperties.TokensFromUnfold | src/lexer/mod.rs:30-85 | the stream is the first call's token followed, unless it is end of input, by the stream from where that call left the cursor |
| LexerProperties.TokensFromShape | src/lexer/mod.rs:77-84 | the stream ends with exactly one end-of-input token, which has empty text; every earlier token is a real one, and every token carries its kind's fixed text |
| LexerProperties.TokensFromCalls | src/lexer/mod.rs:30-85 | the i-th token of the stream is what the (i+1)-th call of `next_token` returns |
| LexerProperties.NextCall | src/lexer/mod.rs:30-85 | after i calls, one more call returns the i-th token of the stream and leaves the cursor where i+1 calls do |
| LexerProperties.EndOfInputRepeats | src/lexer/mod.rs:77-84 | once a call returns end of input, every later call returns end of input with empty text, and the cursor stays past the end |
| LexerProperties.AsciiWhitespaceUnclassified | src/lexer/mod.rs:118 | when the classes agree with ASCII, the four whitespace characters are neither alphabetic nor numeric |
| LexerProperties.TokenTextHasNoWhitespace | src/lexer/mod.rs:34-76 | no token's text contains whitespace |
| LexerProperties.SkipKeepsNonWhitespace | src/lexer/mod.rs:116-124 | skipping whitespace drops only whitespace |
| LexerProperties.TokenKeepsNonWhitespace | src/lexer/mod.rs:30-85 | a token's text is exactly the non-whitespace characters it consumes |
| LexerProperties.Coverage | src/lexer/mod.rs:30-85 | the texts of all tokens, concatenated, are exactly the non-whitespace characters of the input from the cursor on: none skipped, none repeated, in order |
| LexerSplit.ScanShift | src/lexer/mod.rs:30-85 | a call inside `b` gives the same token inside `a + b`, with the cursor shifted by the length of `a` |
| LexerSplit.ScanAppendToken | src/lexer/mod.rs:30-85 | when `a` ends in whitespace, a call that finds a token inside `a` finds the same token inside `a + b` |
| LexerSplit.ScanAppendEnd | src/lexer/mod.rs:116-124 | when only whitespace is left in `a`, skipping it inside `a + b` reaches where a call at the start of `b` would |
| LexerSplit.TokensFromShift | src/lexer/mod.rs:30-85 | the whole stream inside `b` is the same inside `a + b` |
| LexerSplit.TokensFromAppend | src/lexer/mod.rs:30-85 | when `a` ends in whitespace, lexing `a + b` gives `a`'s tokens without its end of input, then `b`'s tokens |
| LexerSplit.TokensOfJoin | src/lexer/mod.rs:30-85 | lexing whitespace-terminated lines joined together gives each line's tokens in turn, with a single end of input |
| Lexing.Lexer.Valid | src/lexer/mod.rs:11-28 | the cursor invariant that `new` and `read_char` establish: `read_position` is one past `position` and `ch` is the character there, so a character is present exactly while the cursor is within the input |
| Lexing.Lexer.constructor | src/lexer/mod.rs:11-21 | `Lexer::new` keeps the input, sets the cursor at 0 and establishes the cursor invariant |
| Lexing.Lexer.ReadChar | src/lexer/mod.rs:23-28 | `read_char` moves the cursor to `read_position`, loads the character there or none, and restores the cursor invariant |
| Lexing.Lexer.PeekChar | src/lexer/mod.rs:126-128 | `peek_char` returns the character after the current one without changing the state |
| Lexing.Lexer.SkipWhiteSpace | src/lexer/mod.rs:116-124 | `skip_white_space` moves only over spaces, tabs, newlines and carriage returns, to the end of their run, and stops on none or another character |
| Lexing.Lexer.ReadIdentifier | src/lexer/mod.rs:87-98 | `read_identifier` moves to the end of the run of letters, stops where `is_letter` fails, and returns the characters moved past |
| Lexing.Lexer.ReadNumber | src/lexer/mod.rs:100-114 | `read_number` moves to the end of the numeric run, stops on none or a non-numeric character, and returns the characters moved past |
| Lexing.Lexer.NextToken | src/lexer/mod.rs:30-85 | `next_token` returns exactly the token `Scan` specifies and leaves the cursor where `Scan` says, which is further on; the cursor invariant is kept |
| LexerTests.TestInputTokens | src/lexer/mod.rs:155-473 | the test program lexes to exactly the expected token list of `test_next_token`, end of input included |
| LexerTests.NextTokens | src/lexer/mod.rs:476-480 | n calls of `next_token` return the first n tokens of the stream from where the cursor was, and leave the cursor where n steps of `Scan` do |
| LexerTests.NextTokenTest | src/lexer/mod.rs:475-480 | a fresh lexer on the test program, called once per expected token, returns exactly the expected tokens |
| LexerTests.ReadIdentifierTest | src/lexer/mod.rs:484-488 | `read_identifier` on `hello_123+==` returns `hello_`: digits do not continue an identifier |

## Left out

- The interactive shell (src/repl/mod.rs) and src/main.rs are not part of this model. They are line reading and printing around `Lexer::new` and `next_token`.
- The `Debug` formatting of tokens is not modelled, and neither are the print-only tests `test_char` and `test_option`.
- The Unicode tables behind `char::is_alphabetic` and `char::is_numeric` are a parameter (`CharClasses`), not reproduced. The test lemmas assume only the ASCII part of them.
- `read_position` is a `usize` in the source, and calling `next_token` again and again at end of input would eventually overflow it. The model uses unbounded `nat`.
- `chars().nth` takes time linear in the index. The model indexes a sequence directly, which has the same result.
- `look_up_ident` is a `match` on string literals. The model searches an ordered table of the same seven keywords, and `KeywordTable` and `LookUpIdentIsIdent` show that this gives the same result.
- The assertions of `test_next_token` compare text and kind separately. The model compares whole tokens, which is the same.
