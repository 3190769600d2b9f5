/** An optional value: `None` stands for a JavaScript value that is absent or falsy. */
module Optional {

  datatype Option<+T> = None | Some(value: T)

}
