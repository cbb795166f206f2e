/** Values shared by every part of the model: optional values, results that
    carry the text of a raised exception, and bytes. */
module Common {

  /** A dictionary key that may be absent. */
  datatype Option<T> = None | Some(value: T) {
    /** `d.get(key, default)` */
    function GetOr(default: T): T
    {
      if Some? then value else default
    }
  }

  /** A computation that either returns a value or raises; `error` is the
      exception's `str(e)`. */
  datatype Result<T> = Success(value: T) | Failure(error: string) {
    function GetOr(default: T): T
    {
      if Success? then value else default
    }
  }

  newtype byte = x: int | 0 <= x < 256

  type Bytes = seq<byte>

  /** `str(e)` of the `KeyError` raised by `d[key]` when `key` is absent. */
  function KeyErrorDetail(key: string): string
  {
    "'" + key + "'"
  }
}
