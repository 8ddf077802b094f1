/** The result of a lookup that may find nothing (`Map.prototype.get`
    returning `undefined`). */
module Optional {

  datatype Option<+T> = None | Some(value: T)
}
