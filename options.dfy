/** The optional value that stands for TypeScript's `T | null`. */
module Options {

  datatype Option<+T> = None | Some(value: T)

}
