/** The optional value used wherever the chat client reads something that may be absent:
    a `find` that matches nothing, a field that is `undefined`, a regex that does not match. */
module Options {

  datatype Option<+T> = None | Some(value: T)

}
