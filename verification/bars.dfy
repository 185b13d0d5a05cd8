/** The fetched price history: one bar per trading period, in chronological order. */
module Bars {

  /** A trading-day stamp; the pipeline only copies dates from rows into trades. */
  type Date = int

  /** The columns of a fetched bar that the core reads. */
  datatype Bar = Bar(date: Date, close: real, volume: int)

  /** The `Date` column. */
  function Dates(bars: seq<Bar>): seq<Date>
  {
    seq(|bars|, i requires 0 <= i < |bars| => bars[i].date)
  }

  /** The `Close` column. */
  function Closes(bars: seq<Bar>): seq<real>
  {
    seq(|bars|, i requires 0 <= i < |bars| => bars[i].close)
  }

  /** The `Volume` column. */
  function Volumes(bars: seq<Bar>): seq<int>
  {
    seq(|bars|, i requires 0 <= i < |bars| => bars[i].volume)
  }
}
