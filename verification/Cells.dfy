/** Column values, calendar dates and timestamps shared by every table. */
module Cells {
  import opened Wrappers

  datatype DateParts = DateParts(year: int, month: int, day: int)

  /** A calendar date. The number of days of each month plays no role here, so it is not fixed. */
  type Date = d: DateParts | 1 <= d.year && 1 <= d.month <= 12 && 1 <= d.day <= 31
    witness DateParts(1, 1, 1)

  /** A timestamp without time zone: a date and the microseconds since its midnight. */
  datatype Timestamp = Timestamp(date: Date, micros: nat)

  /** One column value. Negative zero and not-a-number are values of their own, because the
      duplicate checks have to normalise them. */
  datatype Cell =
    | Null
    | Int(number: int)
    | Real(amount: real)
    | NegativeZero
    | NaN
    | Text(text: string)
    | Stamp(at: Timestamp)

  type Row = seq<Cell>

  function AsInt(c: Cell): Option<int> {
    if c.Int? then Some(c.number) else None
  }

  function AsStamp(c: Cell): Option<Timestamp> {
    if c.Stamp? then Some(c.at) else None
  }
}
