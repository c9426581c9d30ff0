/** The optional value used for the lexer's current character and for table lookups. */
module Options {

  datatype Option<T> = None | Some(value: T)
}
