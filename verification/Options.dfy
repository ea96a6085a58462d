// A value that may be missing.
module Options {
  datatype Maybe<T> = Absent | Present(value: T)
}
