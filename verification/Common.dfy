/** Small shared datatypes. */
module Common {

  datatype Option<+T> = None | Some(value: T)

  datatype Result<+R, +E> = Success(value: R) | Failure(error: E)

  /** A JSON field as an `is True` / `is False` test sees it: a truthy value
      other than `true` (the text "true", the number 1) is neither. */
  datatype Flag = Absent | Yes | No | Other
}
