/** Dates as Python's `date.toordinal()` day numbers (day 1 is Monday
    0001-01-01), so `weekday()` is `(ordinal + 6) % 7` exactly as CPython
    computes it. */
module Dates {

  /** A timestamp: the ordinal of its date and the second within that day. */
  datatype DateTime = DateTime(day: int, second: nat)

  /** `date.weekday()`: Monday is 0, Sunday is 6. */
  function Weekday(day: int): (w: nat)
    ensures w < 7
  {
    (day + 6) % 7
  }

  /** `d - timedelta(days=d.weekday())`: the Monday that starts the week of `day`. */
  function WeekStart(day: int): int
  {
    day - Weekday(day)
  }

  /** A total order on timestamps, used for `ORDER BY ... DESC`. */
  function Ticks(t: DateTime): int
  {
    t.day * 86400 + t.second
  }

  /** The week start is a Monday at most six days before the date. */
  lemma WeekStartIsMonday(day: int)
    ensures Weekday(WeekStart(day)) == 0
    ensures WeekStart(day) <= day < WeekStart(day) + 7
  {
    var w := Weekday(day);
    assert (day + 6) == 7 * ((day + 6) / 7) + w;
    assert WeekStart(day) + 6 == 7 * ((day + 6) / 7);
  }

  /** Every date of the week that starts on Monday `monday` has that week start:
      two dates share a weekly bucket iff they lie in the same Monday-to-Sunday week. */
  lemma WeekStartUnique(day: int, monday: int)
    requires Weekday(monday) == 0
    requires monday <= day < monday + 7
    ensures WeekStart(day) == monday
  {
    var q := (monday + 6) / 7;
    assert monday + 6 == 7 * q;
    var k := day - monday;
    assert day + 6 == 7 * q + k;
    assert (day + 6) % 7 == k;
  }
}
