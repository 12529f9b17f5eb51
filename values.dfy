/** Python value semantics shared by the whole model: optional values, dict keys
    that may be absent or null, and the truthiness tests the source relies on. */
module Values {

  /** A value that may be `None`. */
  datatype Option<+T> = None | Some(value: T) {
    function GetOr(default: T): T {
      match this
      case Some(v) => v
      case None => default
    }
  }

  /** A value, or the message of the exception that replaced it. */
  datatype Result<+T> = Ok(value: T) | Err(error: string)

  /** One key of a JSON-like dict: absent, present and null, or present with a value. */
  datatype Field<+T> = Missing | Null | Val(value: T) {

    /** `d.get(key, default)`: the default only when the key is absent; a null value stays null. */
    function Get(default: Option<T>): (r: Option<T>)
      ensures Missing? ==> r == default
      ensures Null? ==> r == None
      ensures Val? ==> r == Some(value)
    {
      match this
      case Missing => default
      case Null => None
      case Val(v) => Some(v)
    }

    /** `d.get(key)` and, when the key is present, `d[key]`. */
    function Raw(): Option<T> {
      Get(None)
    }
  }

  /** A key that the producing code always writes, holding a possibly-null value. */
  function Written<T>(o: Option<T>): (f: Field<T>)
    ensures !f.Missing? && f.Raw() == o
  {
    match o
    case Some(v) => Val(v)
    case None => Null
  }

  /** Python truthiness of an optional string: not None and not "". */
  predicate TruthyStr(o: Option<string>) {
    o.Some? && o.value != ""
  }

  /** Python truthiness of an optional integer: not None and not 0. */
  predicate TruthyInt(o: Option<int>) {
    o.Some? && o.value != 0
  }

  /** Python truthiness of an optional list: not None and not empty. */
  predicate TruthySeq<T>(o: Option<seq<T>>) {
    o.Some? && o.value != []
  }

  /** Python truthiness of an optional boolean. */
  predicate TruthyBool(o: Option<bool>) {
    o == Some(true)
  }
}
