/** Value shapes shared by the whole model: an optional value, and a JSON request
    field that may be left out (`undefined`), sent as `null`, or given. */
module JsValues {

  /** A value that may be missing (`null`/`undefined` in a stored document). */
  datatype Option<+T> = None | Some(value: T) {
    function GetOr(default: T): T {
      match this
      case Some(v) => v
      case None => default
    }
  }

  /** One field of a JSON request body. The three cases are distinguished by the
      controllers (`x !== undefined`) and by Mongoose defaults (applied only to
      `undefined`). */
  datatype Field<+T> = Undefined | Null | Given(value: T) {
    /** The value a document field receives when this one is assigned to it. */
    function AsStored(): Option<T> {
      match this
      case Given(v) => Some(v)
      case _ => None
    }
  }

  /** JavaScript truthiness of a string field: `undefined`, `null` and `""` are falsy. */
  predicate FalsyText(f: Field<string>) {
    !f.Given? || f.value == ""
  }

  /** JavaScript truthiness of a numeric field: `undefined`, `null` and `0` are falsy
      (NaN does not arise in this model, which uses integers). */
  predicate FalsyNumber(f: Field<int>) {
    !f.Given? || f.value == 0
  }
}
