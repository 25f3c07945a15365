/**
 Travel over allowed days: `DateTraveler` and `BusinessDaysBetween`. A date is a civil day
 number, with day 0 a Sunday, and a time is a day with a clock time.
 */
module DateTravel {
  import opened Basics

  datatype Instant = Instant(day: int, clock: int)
  {
    predicate Before(other: Instant) {
      day < other.day || (day == other.day && clock < other.clock)
    }
  }

  datatype Traveler = Traveler(holidays: seq<int>, businessDays: bool)

  predicate Weekend(day: int) {
    day % 7 == 0 || day % 7 == 6
  }

  predicate Allowed(t: Traveler, day: int) {
    (t.businessDays ==> !Weekend(day)) && day !in t.holidays
  }

  /** The number of allowed days after `a`, up to and including `b`. */
  function Count(t: Traveler, a: int, b: int): nat
    decreases b - a
  {
    if b <= a then 0 else Count(t, a, b - 1) + (if Allowed(t, b) then 1 else 0)
  }

  /** `to` is the n-th allowed day after `from`, or before it when n is negative. */
  predicate Travels(t: Traveler, from: int, n: int, to: int) {
    if n == 0 then to == from
    else if n > 0 then from < to && Allowed(t, to) && Count(t, from, to) == n
    else to < from && Allowed(t, to) && Count(t, to - 1, from - 1) == -n
  }

  // ---------------------------------------------------------------------------------------
  // Counting

  lemma {:induction false} CountSplits(t: Traveler, a: int, b: int, c: int)
    requires a <= b <= c
    ensures Count(t, a, c) == Count(t, a, b) + Count(t, b, c)
    decreases c - b
  {
    if b < c {
      CountSplits(t, a, b, c - 1);
    }
  }

  /** Taking one holiday off the list allows at most one more day. */
  lemma {:induction false} OneHoliday(t: Traveler, a: int, b: int)
    requires t.holidays != []
    ensures Count(t.(holidays := t.holidays[1..]), a, b)
      <= Count(t, a, b) + (if a < t.holidays[0] <= b then 1 else 0)
    decreases b - a
  {
    if a < b {
      OneHoliday(t, a, b - 1);
      assert forall day :: day in t.holidays <==> day == t.holidays[0] || day in t.holidays[1..];
    }
  }

  lemma {:induction false} HolidaysCostOneEach(t: Traveler, a: int, b: int)
    ensures Count(t.(holidays := []), a, b) <= Count(t, a, b) + |t.holidays|
    decreases |t.holidays|
  {
    if t.holidays == [] {
      assert t.(holidays := []) == t;
    } else {
      OneHoliday(t, a, b);
      HolidaysCostOneEach(t.(holidays := t.holidays[1..]), a, b);
    }
  }

  function Weekday(day: int): nat {
    if Weekend(day) then 0 else 1
  }

  lemma WeekdayOf(week: int, m: int)
    ensures 0 <= m < 7 ==> Weekday(7 * week + m) == if m == 0 || m == 6 then 0 else 1
    ensures 7 <= m < 14 ==> Weekday(7 * week + m) == if m == 7 || m == 13 then 0 else 1
  {
    if 0 <= m < 7 {
      assert (7 * week + m) % 7 == m;
    } else if 7 <= m < 14 {
      assert (7 * week + m) % 7 == m - 7;
    }
  }

  lemma WeekdaysOfAWeek(a: int)
    ensures Weekday(a + 1) + Weekday(a + 2) + Weekday(a + 3) + Weekday(a + 4)
            + Weekday(a + 5) + Weekday(a + 6) + Weekday(a + 7) == 5
  {
    var m, w := a % 7, a / 7;
    WeekdayOf(w, m + 1);
    WeekdayOf(w, m + 2);
    WeekdayOf(w, m + 3);
    WeekdayOf(w, m + 4);
    WeekdayOf(w, m + 5);
    WeekdayOf(w, m + 6);
    WeekdayOf(w, m + 7);
  }

  lemma NextWeekday(t: Traveler, a: int, b: int)
    requires t.holidays == [] && t.businessDays && a < b
    ensures Count(t, a, b) == Count(t, a, b - 1) + Weekday(b)
  {
  }

  /** Any seven days in a row have five weekdays. */
  lemma OneWeek(t: Traveler, a: int)
    requires t.holidays == [] && t.businessDays
    ensures Count(t, a, a + 7) == 5
  {
    NextWeekday(t, a, a + 1);
    NextWeekday(t, a, a + 2);
    NextWeekday(t, a, a + 3);
    NextWeekday(t, a, a + 4);
    NextWeekday(t, a, a + 5);
    NextWeekday(t, a, a + 6);
    NextWeekday(t, a, a + 7);
    WeekdaysOfAWeek(a);
  }

  lemma {:induction false} Weeks(t: Traveler, a: int, k: nat)
    requires t.holidays == [] && t.businessDays
    ensures Count(t, a, a + 7 * k) == 5 * k
  {
    if k > 0 {
      Weeks(t, a, k - 1);
      OneWeek(t, a + 7 * (k - 1));
      CountSplits(t, a, a + 7 * (k - 1), a + 7 * k);
    }
  }

  lemma {:induction false} EveryDay(t: Traveler, a: int, b: int)
    requires t.holidays == [] && !t.businessDays && a <= b
    ensures Count(t, a, b) == b - a
    decreases b - a
  {
    if a < b {
      EveryDay(t, a, b - 1);
    }
  }

  /** Enough one-day steps for `n` allowed days: 7 * ceil((n + H) / 5) with business days on. */
  function Horizon(t: Traveler, n: nat): nat {
    var needed := n + |t.holidays|;
    if t.businessDays then 7 * ((needed + 4) / 5) else needed
  }

  /** Pigeonhole: the weeks in the horizon have more weekdays than there are holidays to spoil them. */
  lemma HorizonSuffices(t: Traveler, a: int, n: nat)
    ensures Count(t, a, a + Horizon(t, n)) >= n
  {
    HolidaysCostOneEach(t, a, a + Horizon(t, n));
    if t.businessDays {
      Weeks(t.(holidays := []), a, (n + |t.holidays| + 4) / 5);
    } else {
      EveryDay(t.(holidays := []), a, a + Horizon(t, n));
    }
  }

  lemma {:induction false} TravelExistsForward(t: Traveler, from: int, n: nat, top: int) returns (to: int)
    requires n > 0 && Count(t, from, top) >= n
    ensures Travels(t, from, n, to) && to <= top
    decreases top - from
  {
    if Count(t, from, top) == n && Allowed(t, top) {
      to := top;
    } else {
      to := TravelExistsForward(t, from, n, top - 1);
    }
  }

  lemma CountLow(t: Traveler, a: int, b: int)
    requires a <= b
    ensures Count(t, a - 1, b) == Count(t, a, b) + (if Allowed(t, a) then 1 else 0)
  {
    CountSplits(t, a - 1, a, b);
  }

  lemma {:induction false} TravelExistsBackward(t: Traveler, from: int, n: int, low: int) returns (to: int)
    requires n > 0 && Count(t, low - 1, from - 1) >= n
    ensures Travels(t, from, -n, to) && to >= low
    decreases from - low
  {
    CountLow(t, low, from - 1);
    if Count(t, low - 1, from - 1) == n && Allowed(t, low) {
      to := low;
    } else {
      to := TravelExistsBackward(t, from, n, low + 1);
    }
  }

  lemma TravelExists(t: Traveler, from: int, n: int)
    ensures exists to :: Travels(t, from, n, to)
  {
    if n == 0 {
      assert Travels(t, from, n, from);
    } else if n > 0 {
      HorizonSuffices(t, from, n);
      var to := TravelExistsForward(t, from, n, from + Horizon(t, n));
    } else {
      HorizonSuffices(t, from - 1 - Horizon(t, -n), -n);
      var to := TravelExistsBackward(t, from, -n, from - Horizon(t, -n));
    }
  }

  lemma TravelIsUnique(t: Traveler, from: int, n: int, x: int, y: int)
    requires Travels(t, from, n, x) && Travels(t, from, n, y)
    ensures x == y
  {
    var low, high := if x < y then x else y, if x < y then y else x;
    if low < high && n > 0 {
      CountSplits(t, from, low, high - 1);
    } else if low < high && n < 0 {
      CountSplits(t, low - 1, low, from - 1);
      CountSplits(t, low, high - 1, from - 1);
    }
  }

  /** The n-th allowed day from `from`. */
  ghost function Travel(t: Traveler, from: int, n: int): (to: int)
    ensures Travels(t, from, n, to)
  {
    TravelExists(t, from, n);
    var to :| Travels(t, from, n, to);
    to
  }

  // ---------------------------------------------------------------------------------------
  // The program

  method Contains(t: Traveler, when: Instant) returns (r: bool)
    ensures r == Allowed(t, when.day)
    ensures r <==> !(t.businessDays && (when.day % 7 == 0 || when.day % 7 == 6)) && when.day !in t.holidays
  {
    if t.businessDays {
      if when.day % 7 == 0 || when.day % 7 == 6 {
        return false;
      }
    }
    for i := 0 to |t.holidays|
      invariant when.day !in t.holidays[..i]
    {
      if t.holidays[i] == when.day {
        return false;
      }
    }
    return true;
  }

  /** Multiplication by -1 in 64 bits. */
  function Negated(n: int): int {
    if n == MIN_INT64 then n else -n
  }

  /** The allowed days passed on the way from `from` to `day`. */
  function Passed(t: Traveler, from: int, day: int): nat {
    if from <= day then Count(t, from, day) else Count(t, day - 1, from - 1)
  }

  /**
   `AddDays`: the n-th allowed day, with the clock time kept, in at most `Horizon` one-day
   steps. The smallest int64 has no negative, and is taken for zero.
   */
  method AddDays(t: Traveler, when: Instant, n: int) returns (r: Instant, ghost steps: nat)
    requires MIN_INT64 <= n <= MAX_INT64
    ensures r.clock == when.clock
    ensures Travels(t, when.day, n, r.day) <==> n != MIN_INT64
    ensures r.day == Travel(t, when.day, if n == MIN_INT64 then 0 else n)
    ensures n != 0 && n != MIN_INT64 ==>
      r.day !in t.holidays && (t.businessDays ==> r.day % 7 != 0 && r.day % 7 != 6)
    ensures steps == (if n < 0 then when.day - r.day else r.day - when.day)
    ensures steps <= Horizon(t, if n < 0 then -n else n)
  {
    var direction, total := 1, n;
    if n < 0 {
      direction := -1;
      total := Negated(n);
    }
    ghost var need: nat := if total < 0 then 0 else total;
    if n < 0 {
      HorizonSuffices(t, when.day - 1 - Horizon(t, need), need);
    } else {
      HorizonSuffices(t, when.day, need);
    }
    r, steps := when, 0;
    var i := 0;
    while i < total
      invariant 0 <= i <= need && r.clock == when.clock
      invariant r.day == when.day + direction * steps
      invariant steps <= Horizon(t, need) && (total <= 0 ==> steps == 0)
      invariant i == Passed(t, when.day, r.day)
      invariant i == total && total > 0 ==> steps > 0 && Allowed(t, r.day)
      decreases Horizon(t, need) - steps
    {
      StepIsWithinHorizon(t, when.day, direction, steps, need);
      ghost var before := r.day;
      r := r.(day := r.day + direction);
      steps := steps + 1;
      StepPasses(t, when.day, direction, before);
      var ok := Contains(t, r);
      if ok {
        i := i + 1;
      }
    }
    TravelIsUnique(t, when.day, if n == MIN_INT64 then 0 else n,
                   Travel(t, when.day, if n == MIN_INT64 then 0 else n), r.day);
  }

  lemma StepPasses(t: Traveler, from: int, direction: int, day: int)
    requires direction == 1 || direction == -1
    requires if direction == 1 then from <= day else day <= from
    ensures Passed(t, from, day + direction) ==
      Passed(t, from, day) + if Allowed(t, day + direction) then 1 else 0
  {
    if direction == -1 {
      CountLow(t, day - 1, from - 1);
    }
  }

  /** As long as days are missing the horizon has not been reached. */
  lemma StepIsWithinHorizon(t: Traveler, from: int, direction: int, steps: nat, need: nat)
    requires direction == 1 || direction == -1
    requires Passed(t, from, from + direction * steps) < need && steps <= Horizon(t, need)
    ensures steps < Horizon(t, need)
  {
    if direction == 1 {
      HorizonSuffices(t, from, need);
    } else {
      HorizonSuffices(t, from - 1 - Horizon(t, need), need);
    }
  }

  /** The last day at the clock time of `when` that lies before `now`. */
  function LastBefore(when: Instant, now: Instant): int {
    if when.clock < now.clock then now.day else now.day - 1
  }

  /** `BusinessDaysBetween`. */
  method BusinessDaysBetween(when: Instant, now: Instant, holidays: seq<int>) returns (r: int)
    ensures r == if when.Before(now) then Count(Traveler(holidays, true), when.day, LastBefore(when, now)) else 0
  {
    var t := Traveler(holidays, true);
    var at := when;
    var ct := -1;
    ghost var last := when.day;
    while at.Before(now)
      invariant at.clock == when.clock && when.day <= last <= at.day
      invariant ct + 1 == Count(t, when.day, at.day)
      invariant ct == -1 <==> at == when
      invariant ct >= 0 ==> last <= LastBefore(when, now) && Count(t, last, at.day) == 1 && Allowed(t, at.day)
      decreases now.day - at.day
    {
      last := at.day;
      ghost var steps;
      at, steps := AddDays(t, at, 1);
      CountSplits(t, when.day, last, at.day);
      ct := ct + 1;
    }
    if ct == -1 {
      return 0;
    }
    CountSplits(t, when.day, last, LastBefore(when, now));
    CountSplits(t, last, LastBefore(when, now), at.day - 1);
    CountSplits(t, when.day, last, at.day);
    return ct;
  }

  // ---------------------------------------------------------------------------------------
  // Main results

  lemma {:induction false} CountIsAllowedDays(t: Traveler, a: int, b: int)
    ensures Count(t, a, b) == |set day | a < day <= b && Allowed(t, day)|
    decreases b - a
  {
    var days := set day | a < day <= b && Allowed(t, day);
    if b <= a {
      assert days == {};
    } else {
      CountIsAllowedDays(t, a, b - 1);
      var fewer := set day | a < day <= b - 1 && Allowed(t, day);
      assert days == if Allowed(t, b) then fewer + {b} else fewer;
    }
  }

  /** `Count` is the number of days in a range that are no holidays and, with business days on, no weekend days. */
  lemma CountIsCardinality(t: Traveler, a: int, b: int)
    ensures Count(t, a, b) ==
      |set day | a < day <= b && !(t.businessDays && (day % 7 == 0 || day % 7 == 6)) && day !in t.holidays|
  {
    CountIsAllowedDays(t, a, b);
    assert (set day | a < day <= b && Allowed(t, day)) ==
      set day | a < day <= b && !(t.businessDays && (day % 7 == 0 || day % 7 == 6)) && day !in t.holidays;
  }

  /** What BusinessDaysBetween counts: the weekdays that are no holidays with their instant strictly in between. */
  lemma BusinessDaysAreInBetween(when: Instant, now: Instant, holidays: seq<int>)
    requires when.Before(now)
    ensures Count(Traveler(holidays, true), when.day, LastBefore(when, now)) ==
      |set day | when.day < day <= now.day && Instant(day, when.clock).Before(now)
         && day % 7 != 0 && day % 7 != 6 && day !in holidays|
  {
    var t, last := Traveler(holidays, true), LastBefore(when, now);
    CountIsAllowedDays(t, when.day, last);
    assert (set day | when.day < day <= last && Allowed(t, day)) ==
      set day | when.day < day <= now.day && Instant(day, when.clock).Before(now)
        && day % 7 != 0 && day % 7 != 6 && day !in holidays;
  }

  /** Travelling there and back returns exactly to allowed days. */
  lemma ThereAndBack(t: Traveler, day: int, n: int)
    requires n != 0
    ensures Travel(t, Travel(t, day, n), -n) == day <==> Allowed(t, day)
  {
    var there := Travel(t, day, n);
    if Allowed(t, day) {
      if n > 0 {
        CountSplits(t, day, there - 1, there);
        CountLow(t, day, there - 1);
      } else {
        CountLow(t, there, day - 1);
        CountSplits(t, there, day - 1, day);
      }
      TravelIsUnique(t, there, -n, Travel(t, there, -n), day);
    }
  }

  /** Two journeys in one direction are one journey. */
  lemma JourneysCompose(t: Traveler, day: int, a: int, b: int)
    requires (a >= 0 && b >= 0) || (a <= 0 && b <= 0)
    ensures Travel(t, Travel(t, day, a), b) == Travel(t, day, a + b)
  {
    var middle := Travel(t, day, a);
    var end := Travel(t, middle, b);
    if a > 0 && b > 0 {
      CountSplits(t, day, middle, end);
    } else if a < 0 && b < 0 {
      CountSplits(t, end - 1, middle - 1, day - 1);
    }
    TravelIsUnique(t, day, a + b, end, Travel(t, day, a + b));
  }

  /** Later days arrive no earlier; two days arrive together exactly when no allowed day separates them. */
  lemma TravelIsMonotone(t: Traveler, x: int, y: int, n: int)
    requires x <= y && n != 0
    ensures Travel(t, x, n) <= Travel(t, y, n)
    ensures Travel(t, x, n) == Travel(t, y, n) <==> (if n > 0 then Count(t, x, y) else Count(t, x - 1, y - 1)) == 0
  {
    var a, b := Travel(t, x, n), Travel(t, y, n);
    if n > 0 {
      if b < a {
        CountSplits(t, x, y, b);
        CountSplits(t, x, b, a - 1);
      } else {
        ForwardGap(t, x, y, n);
      }
    } else {
      if b < a {
        CountSplits(t, b - 1, x - 1, y - 1);
        CountSplits(t, b - 1, b, x - 1);
        CountSplits(t, b, a - 1, x - 1);
      } else {
        BackwardGap(t, x, y, -n);
      }
    }
  }

  lemma ForwardGap(t: Traveler, x: int, y: int, n: nat)
    requires x <= y && n > 0 && Travel(t, x, n) <= Travel(t, y, n)
    ensures Travel(t, x, n) == Travel(t, y, n) <==> Count(t, x, y) == 0
  {
    var a, b := Travel(t, x, n), Travel(t, y, n);
    CountSplits(t, x, y, b);
    CountSplits(t, x, a, b);
    if a < b {
      CountSplits(t, a, b - 1, b);
    }
  }

  lemma BackwardGap(t: Traveler, x: int, y: int, n: int)
    requires x <= y && n > 0 && Travel(t, x, -n) <= Travel(t, y, -n)
    ensures Travel(t, x, -n) == Travel(t, y, -n) <==> Count(t, x - 1, y - 1) == 0
  {
    var a, b := Travel(t, x, -n), Travel(t, y, -n);
    CountSplits(t, a - 1, x - 1, y - 1);
    CountSplits(t, a - 1, b - 1, y - 1);
    if a < b {
      CountSplits(t, a - 1, a, b - 1);
    }
  }

  /**
   With clock times the order of two instants is kept exactly when their clock times allow it or
   an allowed day separates them: from Saturday morning and an earlier Sunday clock time the
   next business day comes out in the wrong order.
   */
  lemma OrderOfInstants(t: Traveler, x: Instant, y: Instant, n: int)
    requires x.Before(y) && n != 0
    ensures Instant(Travel(t, y.day, n), y.clock).Before(Instant(Travel(t, x.day, n), x.clock)) <==>
      y.clock < x.clock && (if n > 0 then Count(t, x.day, y.day) else Count(t, x.day - 1, y.day - 1)) == 0
  {
    TravelIsMonotone(t, x.day, y.day, n);
  }

  /** Such instants: Saturday morning and an earlier clock time on Sunday, one business day on. */
  lemma WeekendSwapsInstants()
    ensures var t, x, y := Traveler([], true), Instant(6, 10), Instant(7, 9);
      x.Before(y) && Instant(Travel(t, y.day, 1), y.clock).Before(Instant(Travel(t, x.day, 1), x.clock))
  {
    var t, x, y := Traveler([], true), Instant(6, 10), Instant(7, 9);
    assert Weekend(7) && Count(t, 6, 6) == 0;
    assert Count(t, 6, 7) == 0;
    OrderOfInstants(t, x, y, 1);
  }
}
