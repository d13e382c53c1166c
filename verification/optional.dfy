/** The optional value returned by every recogniser in the classifier:
    `None` plays the role of Python's `None` result. */
module Optional {

  datatype Option<+T> = None | Some(value: T)
}
