/** The optional value shared by the libc models: what strtoll reads and
    what inet_aton parses. */
module Wrappers {
  datatype Option<T> = None | Some(value: T)
}
