/** How the model spells the two kinds of "missing" that the TypeScript source
    distinguishes: a key or property that is not there at all (`undefined`) and
    a property whose value is `null`. */
module JsValues {

  /** A property of a JavaScript object: either absent (`undefined`) or present with a value. */
  datatype Field<+T> = Absent | Present(value: T)

  /** A value that may be `null`. */
  datatype Option<+T> = None | Some(value: T)
}
