/** Value types shared by every component. */
module Common {
  datatype Option<+T> = None | Some(value: T)

  function Prepend<T>(a: seq<T>, more: Option<seq<T>>): Option<seq<T>> {
    match more
    case None => None
    case Some(rest) => Some(a + rest)
  }
}
