/**
 * Whole years of tenure between a join date and the current date.
 * The source reads the clock itself; here the current date is a parameter.
 */
module Tenure {

  /**
   * A calendar date as the source reads it: full year, month and day of
   * month. Only comparisons are made on these numbers, so no range is imposed.
   */
  datatype Date = Date(year: int, month: int, day: int)

  /** Whether `a`'s month and day come strictly before `b`'s within a year. */
  predicate MonthDayBefore(a: Date, b: Date)
  {
    a.month < b.month || (a.month == b.month && a.day < b.day)
  }

  /** Calendar order on dates: by year, then month, then day. */
  predicate OnOrBefore(a: Date, b: Date)
  {
    a.year < b.year || (a.year == b.year && !MonthDayBefore(b, a))
  }

  /** The `n`-th anniversary of `d`: the same month and day, `n` years later. */
  function Anniversary(d: Date, n: int): Date
  {
    Date(d.year + n, d.month, d.day)
  }

  /**
   * getYearsWorked: the difference of the years, less one while this
   * year's anniversary is still ahead, and never below zero. The result is
   * the number of anniversaries of the join date that have been reached by
   * `now`: the last one counted is on or before `now`, the next one is not.
   */
  function YearsWorked(joined: Date, now: Date): (years: nat)
    ensures years <= if now.year >= joined.year then now.year - joined.year else 0
    ensures years > 0 ==> OnOrBefore(Anniversary(joined, years), now)
    ensures !OnOrBefore(Anniversary(joined, years + 1), now)
  {
    var difference := now.year - joined.year;
    var completed := if MonthDayBefore(now, joined) then difference - 1 else difference;
    if completed >= 0 then completed else 0
  }

  /** A join date after `now` gives no tenure. */
  lemma FutureJoinGivesZero(joined: Date, now: Date)
    requires !OnOrBefore(joined, now)
    ensures YearsWorked(joined, now) == 0
  {
  }

  /**
   * The count of reached anniversaries is unique: any `n` whose anniversary
   * is reached (or is zero) and whose next one is not equals YearsWorked.
   */
  lemma YearsWorkedIsUnique(joined: Date, now: Date, n: nat)
    requires n > 0 ==> OnOrBefore(Anniversary(joined, n), now)
    requires !OnOrBefore(Anniversary(joined, n + 1), now)
    ensures n == YearsWorked(joined, now)
  {
    var y := YearsWorked(joined, now);
    if n < y {
      AnniversariesOrdered(joined, n + 1, y, now);
    } else if y < n {
      AnniversariesOrdered(joined, y + 1, n, now);
    }
  }

  /** If a later anniversary is reached, so is every earlier one. */
  lemma AnniversariesOrdered(d: Date, m: int, n: int, now: Date)
    requires m <= n
    requires OnOrBefore(Anniversary(d, n), now)
    ensures OnOrBefore(Anniversary(d, m), now)
  {
  }

  /** Tenure never decreases as the current date moves forward. */
  lemma YearsWorkedMonotone(joined: Date, now1: Date, now2: Date)
    requires OnOrBefore(now1, now2)
    ensures YearsWorked(joined, now1) <= YearsWorked(joined, now2)
  {
    var y1 := YearsWorked(joined, now1);
    var y2 := YearsWorked(joined, now2);
    if y2 < y1 {
      AnniversariesOrdered(joined, y2 + 1, y1, now1);
      OnOrBeforeTransitive(Anniversary(joined, y2 + 1), now1, now2);
    }
  }

  lemma OnOrBeforeTransitive(a: Date, b: Date, c: Date)
    requires OnOrBefore(a, b) && OnOrBefore(b, c)
    ensures OnOrBefore(a, c)
  {
  }

  /** The dated cases the source's own tests check, with `now` = 2025-06-15. */
  lemma YearsWorkedExamples()
    ensures YearsWorked(Date(2025, 6, 15), Date(2025, 6, 15)) == 0
    ensures YearsWorked(Date(2025, 12, 1), Date(2025, 6, 15)) == 0
    ensures YearsWorked(Date(2024, 7, 1), Date(2025, 6, 15)) == 0
    ensures YearsWorked(Date(2024, 6, 15), Date(2025, 6, 15)) == 1
    ensures YearsWorked(Date(2024, 6, 16), Date(2025, 6, 15)) == 0
    ensures YearsWorked(Date(2000, 6, 12), Date(2025, 6, 15)) == 25
  {
  }

  /** Joining today gives zero; joining on this day `n` years ago gives `n`. */
  lemma YearsWorkedOnAnniversary(now: Date, n: nat)
    ensures YearsWorked(Date(now.year - n, now.month, now.day), now) == n
  {
  }
}
