/** Optional values, shared by the parsing, timer, settings and sign-up modules. */
module Optional {
  datatype Option<T> = None | Some(value: T)
}
