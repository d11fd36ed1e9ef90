/** Shared value types: options, results, bounded integers, `f64`, JSON and attribute values. */
module Values {

  datatype Option<+T> = None | Some(value: T)

  datatype Result<+T, +E> = Ok(value: T) | Err(error: E)

  /** Rust's `i64`. */
  type i64 = n: int | -0x8000_0000_0000_0000 <= n < 0x8000_0000_0000_0000

  /** An IEEE 754 double. The two zeros are one value here. */
  datatype F64 = NaN | Infinity(negative: bool) | Finite(value: real)

  /** A `serde_json` number: an integer between `i64::MIN` and `u64::MAX`, or a finite double. */
  datatype Number = Whole(n: int) | Fractional(r: real)

  datatype Json =
    | Null
    | Bool(b: bool)
    | Num(n: Number)
    | Str(s: string)
    | Arr(items: seq<Json>)
    | Obj(fields: map<string, Json>)

  /** One value of the flat attribute namespace a policy is evaluated against. */
  datatype AttributeValue =
    | BoolValue(b: bool)
    | IntValue(i: i64)
    | FloatValue(f: F64)
    | StringValue(s: string)
    | StringSetValue(members: set<string>)
    | NonScalar

  /** Functions of other libraries, taken as given: float text, regexes, hashing, path expansion. */
  datatype Foreign = Foreign(
    parseF64: string -> Option<F64>,
    showF64: F64 -> string,
    // `n as f64`: a 64-bit integer never overflows binary64, so the result is finite.
    intAsF64: int -> real,
    showNumber: Number -> string,
    // `None` when the pattern does not compile.
    regexMatch: (string, string) -> Option<bool>,
    digest: Json -> string,
    // Root, dotted path, whether a redact stage is present; `None` on excessive fan-out.
    expand: (Json, string, bool) -> Option<seq<seq<string>>>)

  /** `Number::as_i64`. */
  function AsI64(n: Number): (r: Option<i64>)
  {
    match n
    case Whole(k) => if -0x8000_0000_0000_0000 <= k < 0x8000_0000_0000_0000 then Some(k) else None
    case Fractional(_) => None
  }
}
