/** Optional values and the shape of a Python dictionary entry. */
module Wrappers {

  /** A value that may be absent (Python's None). */
  datatype Option<+T> = None | Some(value: T) {

    /** Returns the value, or `default` when there is none. */
    function GetOr(default: T): T {
      match this
      case Some(v) => v
      case None => default
    }
  }

  /** A computation that returned a value or raised an exception. */
  datatype Result<+R, +E> = Success(value: R) | Failure(error: E)

  /** One key of a Python dict as read by the agents: the key is absent,
      present with the value None, or present with a value. */
  datatype Field<+T> = Missing | Null | Present(value: T) {

    /** `d.get(k)`: None when the key is absent or holds None. */
    function Get(): (r: Option<T>)
      ensures r.Some? <==> Present?
      ensures r.Some? ==> r.value == value
    {
      match this
      case Present(v) => Some(v)
      case _ => None
    }

    /** `d.get(k, default)`: the default only when the key is absent; a
        stored None is returned as None. */
    function GetOr(default: T): (r: Option<T>)
      ensures Missing? ==> r == Some(default)
      ensures Null? ==> r == None
      ensures Present? ==> r == Some(value)
    {
      match this
      case Missing => Some(default)
      case Null => None
      case Present(v) => Some(v)
    }

    /** `d.get(k, text)` where the default is a placeholder string of a
        different type than the stored values. */
    function GetOrText(text: string): (r: OrText<T>)
      ensures Missing? <==> r == Text(text)
      ensures Null? <==> r.NoValue?
      ensures Present? ==> r == Value(value)
    {
      match this
      case Missing => Text(text)
      case Null => NoValue
      case Present(v) => Value(v)
    }
  }

  /** A value, None, or a placeholder string standing in for a missing value. */
  datatype OrText<+T> = Value(value: T) | NoValue | Text(text: string)
}
