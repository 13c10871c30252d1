/** The Some/None wrapper used where the C++ code holds a nullable handle
    (the morph buffer, the texture handle). */
module Optional {
  datatype Option<T> = None | Some(value: T)
}
