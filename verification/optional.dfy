/** A value that may be absent: the model's stand-in for JavaScript's `null` results
    (an unreadable file, a missing unified view, a missing `fileOwnership` table). */
module Optional {

  datatype Option<+T> = None | Some(value: T)
}
