/** The Python values a submission's raw input mapping can hold, with the
    two Python operations the schema applies to them: truthiness and `str`. */
module PyValues {
  import opened Decimal

  datatype Option<+T> = None | Some(value: T)

  datatype Result<+T, +E> = Ok(value: T) | Err(error: E)

  function DaysInMonth(year: int, month: int): int {
    if month == 2 then
      (if year % 4 == 0 && (year % 100 != 0 || year % 400 == 0) then 29 else 28)
    else if month == 4 || month == 6 || month == 9 || month == 11 then 30
    else 31
  }

  /** The fields of a naive `datetime`. */
  datatype RawDateTime = RawDateTime(year: int, month: int, day: int, hour: int, minute: int, second: int, microsecond: int)
  {
    /** The ranges `datetime` enforces on its fields. */
    predicate WellFormed() {
      && 1 <= year <= 9999
      && 1 <= month <= 12
      && 1 <= day <= DaysInMonth(year, month)
      && 0 <= hour <= 23
      && 0 <= minute <= 59
      && 0 <= second <= 59
      && 0 <= microsecond <= 999999
    }
  }

  type DateTime = d: RawDateTime | d.WellFormed() witness RawDateTime(1, 1, 1, 0, 0, 0, 0)

  /** A value in the raw input mapping or in an exported mapping. */
  datatype Value =
    | VNone
    | VBool(b: bool)
    | VInt(i: int)
    | VStr(s: string)
    | VTime(t: DateTime)

  /** Python truthiness: None, False, 0 and "" are false; everything else is true. */
  function Truthy(v: Value): (t: bool)
    ensures !t <==> v == VNone || v == VBool(false) || v == VInt(0) || v == VStr("")
  {
    match v
    case VNone => false
    case VBool(b) => b
    case VInt(i) => i != 0
    case VStr(s) => s != ""
    case VTime(_) => true
  }

  /** `values.get(key)`: the value under `key`, or None when the key is absent. */
  function Get<K>(values: map<K, Value>, key: K): (v: Value)
    ensures key !in values ==> v == VNone
    ensures key in values ==> v == values[key]
  {
    if key in values then values[key] else VNone
  }

  /** The value under `key`, distinguishing an absent key from an explicit None. */
  function Lookup<K>(values: map<K, Value>, key: K): (v: Option<Value>)
    ensures v.Some? <==> key in values
    ensures v.Some? ==> v.value == values[key]
  {
    if key in values then Some(values[key]) else None
  }

  /** `str(dt)` of a naive datetime: `YYYY-MM-DD HH:MM:SS`, then `.ffffff` when
      the microseconds are not zero. */
  function DateTimeText(t: DateTime): string {
    Padded(t.year, 4) + "-" + Padded(t.month, 2) + "-" + Padded(t.day, 2) + " "
    + Padded(t.hour, 2) + ":" + Padded(t.minute, 2) + ":" + Padded(t.second, 2)
    + (if t.microsecond != 0 then "." + Padded(t.microsecond, 6) else "")
  }

  /** `str(v)`, which is what an f-string interpolates. */
  function Text(v: Value): (s: string)
    ensures v.VStr? ==> s == v.s
    ensures v.VInt? ==> s == IntText(v.i)
    ensures v.VTime? ==> |s| == if v.t.microsecond != 0 then 26 else 19
  {
    match v
    case VNone => "None"
    case VBool(b) => if b then "True" else "False"
    case VInt(i) => IntText(i)
    case VStr(s) => s
    case VTime(t) => DateTimeText(t)
  }
}
