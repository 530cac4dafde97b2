/** The Some/None sum type the stack uses to report emptiness and "not found". */
module Options {

  datatype Option<+T> = None | Some(value: T)
}
