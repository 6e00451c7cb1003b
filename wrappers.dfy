/** Small shared vocabulary: an optional value and the Python exceptions the program can meet. */
module Wrappers {

  datatype Option<+T> = None | Some(value: T)

  /** The exceptions that the todo program raises, catches or lets escape. */
  datatype PyError =
    | IndexError     // list subscript out of range
    | ValueError     // int() of a string that is not an integer
    | TypeError      // wrong argument count for a callable, or a str used as a list subscript
    | KeyError       // a command missing from the handler table
    | EOFError       // input() after the last answer
    | DatabaseError  // any sqlite3.Error, including the one raised when an overwrite is declined
}
