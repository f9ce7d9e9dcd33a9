/** Value types shared by the scheduler model: optional values, timestamps
    (a calendar day and a second of that day) and weekday names. */
module Base {

  datatype Option<+T> = None | Some(value: T)

  datatype Result<+T, +E> = Ok(value: T) | Err(error: E)

  /** A day as Python's `date.toordinal()` numbers it: 1 is 0001-01-01. */
  type Ordinal = d: int | 1 <= d <= 3652059 witness 1

  /** Seconds since midnight. */
  type SecondOfDay = s: int | 0 <= s < 86400

  /** Minutes since midnight, the resolution of the `'%H:%M'` working-hours strings. */
  type MinuteOfDay = m: int | 0 <= m < 1440

  /** A naive `datetime` at second precision. */
  datatype Timestamp = Timestamp(day: Ordinal, second: SecondOfDay)

  const WEEKDAY_NAMES: seq<string> :=
    ["Monday", "Tuesday", "Wednesday", "Thursday", "Friday", "Saturday", "Sunday"]

  /** `date.weekday()`: 0 is Monday, 6 is Sunday; 0001-01-01 was a Monday. */
  function Weekday(t: Timestamp): (w: nat)
    ensures w < 7
  {
    (t.day + 6) % 7
  }

  /** `strftime('%A')` in the C locale. */
  function DayName(t: Timestamp): (name: string)
    ensures name in WEEKDAY_NAMES
    ensures name == "Saturday" || name == "Sunday" <==> Weekday(t) >= 5
  {
    WEEKDAY_NAMES[Weekday(t)]
  }

  /** `datetime.date()`: the calendar day, dropping the time of day. */
  function Date(t: Timestamp): Ordinal
  {
    t.day
  }
}
