/** The Python values that a log record can hold and that a dotted key can
    walk through, and the log record itself. */
module PyValues {
  import opened Wrappers

  /** A Python value, as far as attribute and item lookup can tell.
      `Obj` is any object: `attrs` are the attributes `getattr` finds on it
      and `items` is its `__getitem__` table keyed by string, or `None`
      when the object does not support string subscripts (indexing it
      raises `TypeError`). A `dict` is an `Obj` whose `items` are its
      entries. Strings, integers and `None` have neither. */
  datatype Value =
    | NoneValue
    | Str(s: string)
    | Int(i: int)
    | Obj(attrs: map<string, Value>, items: Option<map<string, Value>>)

  /** A `logging.LogRecord`: its `__dict__` (the attributes set on it)
      and its level number. */
  class Record<V> {
    var fields: map<string, V>
    const levelno: int

    constructor (fields: map<string, V>, levelno: int)
      ensures this.fields == fields && this.levelno == levelno
    {
      this.fields := fields;
      this.levelno := levelno;
    }
  }
}
