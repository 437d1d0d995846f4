/** The street-cleaning reminder rule of `MainActivity.getParkingTime`: from
    the current weekday and hour and the two spinner selections it works out
    how many days to roll the calendar forward, and at which hour (minute 0)
    the reminder starts. */
module ParkingTime {
  import opened JavaInt

  /** What the computation reads off the calendar: DAY_OF_WEEK (Sunday = 1
      through Saturday = 7) and HOUR_OF_DAY. */
  datatype Clock = Clock(weekday: int, hour: int)

  /** The outcome of the computation: the day increment passed to the
      roll, the weekday after it, and the hour and minute set afterwards. */
  datatype Reminder = Reminder(incrementDay: Int32, weekday: int, hour: Int32, minute: int)

  predicate IsWeekday(d: int) {
    1 <= d <= 7
  }

  /** What the platform calendar guarantees of the fields it reports. */
  predicate ValidClock(now: Clock) {
    IsWeekday(now.weekday) && 0 <= now.hour < 24
  }

  /** The target weekday `(int) mCurrDay + 1`: day spinner position p
      becomes calendar weekday p + 1, so positions 0..6 reach every weekday. */
  function ParkingDay(daySelection: Int64): (d: Int32)
    ensures -TWO_TO_31 <= daySelection as int < TWO_TO_31 - 1 ==> d as int == daySelection as int + 1
    ensures 0 <= daySelection <= 6 ==> IsWeekday(d as int)
  {
    AddInt(LongToInt(daySelection), 1)
  }

  /** The target hour `(int) mCurrTime + 6`: time spinner position p
      becomes hour p + 6, a valid hour for positions 0..17. */
  function ParkingHour(timeSelection: Int64): (h: Int32)
    ensures -TWO_TO_31 <= timeSelection as int < TWO_TO_31 - 6 ==> h as int == timeSelection as int + 6
    ensures 0 <= timeSelection <= 17 ==> 0 <= h < 24
  {
    AddInt(LongToInt(timeSelection), 6)
  }

  /** The three-way branch that chooses how many days to move forward. The
      subtractions cannot overflow a Java `int` when `currDay` is a weekday. */
  function IncrementDay(currDay: int, currHour: int, parkingDay: Int32, parkingHour: Int32): (inc: int)
    ensures IsWeekday(currDay) ==> -TWO_TO_31 <= inc < TWO_TO_31
  {
    if currDay == parkingDay as int then
      (if (parkingHour as int) < currHour then 7 else 0)
    else if parkingDay as int > currDay then
      parkingDay as int - currDay
    else
      parkingDay as int + 7 - currDay
  }

  /** `Calendar.roll(DAY_OF_WEEK, amount)` seen on the weekday alone: the
      weekday moves `amount` days around the week and stays in 1..7. */
  function Roll(weekday: int, amount: int): (r: int)
    ensures IsWeekday(r)
    ensures (r - weekday - amount) % 7 == 0
  {
    (weekday - 1 + amount) % 7 + 1
  }

  /** `getParkingTime`, up to the weekday, hour and minute of the calendar
      it would turn into a timestamp. */
  function GetParkingTime(now: Clock, daySelection: Int64, timeSelection: Int64): (r: Reminder)
    requires ValidClock(now)
    ensures r.minute == 0
    ensures r.hour == ParkingHour(timeSelection)
    ensures r.weekday == Roll(now.weekday, r.incrementDay as int)
    ensures 0 <= daySelection <= 6 ==> r.weekday == daySelection as int + 1 && 0 <= r.incrementDay <= 7
    ensures 0 <= timeSelection <= 17 ==> r.hour as int == timeSelection as int + 6
  {
    var parkingDay := ParkingDay(daySelection);
    var parkingHour := ParkingHour(timeSelection);
    var inc := IncrementDay(now.weekday, now.hour, parkingDay, parkingHour);
    Reminder(inc as Int32, Roll(now.weekday, inc), parkingHour, 0)
  }

  /** Moving `d` days forward from `currDay` and setting the target hour is a
      moment the reminder may name: it falls on the target weekday and, when
      it is today, the target hour has not yet passed. */
  predicate IsOccurrence(currDay: int, currHour: int, parkingDay: int, parkingHour: int, d: int) {
    0 <= d && Roll(currDay, d) == parkingDay && (d == 0 ==> currHour <= parkingHour)
  }

  /** Rolling by less than a week, written without `%`. */
  lemma RollWithinWeek(weekday: int, k: int)
    requires IsWeekday(weekday) && 0 <= k < 7
    ensures Roll(weekday, k) == if weekday + k <= 7 then weekday + k else weekday + k - 7
  {
    if weekday + k <= 7 {
      assert 0 <= weekday - 1 + k < 7;
    } else {
      assert weekday - 1 + k == 7 + (weekday + k - 8);
    }
  }

  /** The day increment is the NEXT occurrence of the target weekday and
      hour: at most a week ahead, on the target weekday, not earlier today,
      and no smaller number of days qualifies. */
  lemma IncrementDayIsNextOccurrence(currDay: int, currHour: int, parkingDay: Int32, parkingHour: Int32)
    requires IsWeekday(currDay) && IsWeekday(parkingDay as int)
    ensures var inc := IncrementDay(currDay, currHour, parkingDay, parkingHour);
      0 <= inc <= 7 &&
      IsOccurrence(currDay, currHour, parkingDay as int, parkingHour as int, inc) &&
      forall d {:trigger IsOccurrence(currDay, currHour, parkingDay as int, parkingHour as int, d)} :: 0 <= d < inc ==> !IsOccurrence(currDay, currHour, parkingDay as int, parkingHour as int, d)
  {
    var inc := IncrementDay(currDay, currHour, parkingDay, parkingHour);
    if inc < 7 {
      RollWithinWeek(currDay, inc);
    } else {
      assert Roll(currDay, inc) == currDay by {
        assert currDay - 1 + 7 == 7 + (currDay - 1);
      }
    }
    forall d: int {:trigger IsOccurrence(currDay, currHour, parkingDay as int, parkingHour as int, d)} | 0 <= d < inc
      ensures !IsOccurrence(currDay, currHour, parkingDay as int, parkingHour as int, d)
    {
      RollWithinWeek(currDay, d);
    }
  }

  /** A reference definition of the reminder day, independent of the
      three-way branch: try today, tomorrow and so on, and take the first
      day that is an occurrence; the search gives up at a week ahead. */
  function FirstOccurrenceFrom(currDay: int, currHour: int, parkingDay: int, parkingHour: int, d: int): (r: int)
    requires 0 <= d <= 7
    decreases 7 - d
    ensures d <= r <= 7
    ensures r < 7 ==> IsOccurrence(currDay, currHour, parkingDay, parkingHour, r)
    ensures forall k {:trigger IsOccurrence(currDay, currHour, parkingDay, parkingHour, k)} ::
      d <= k < r ==> !IsOccurrence(currDay, currHour, parkingDay, parkingHour, k)
  {
    if d == 7 || IsOccurrence(currDay, currHour, parkingDay, parkingHour, d) then d
    else FirstOccurrenceFrom(currDay, currHour, parkingDay, parkingHour, d + 1)
  }

  /** The three-way branch computes what the search finds. */
  lemma IncrementDayIsFirstOccurrence(currDay: int, currHour: int, parkingDay: Int32, parkingHour: Int32)
    requires IsWeekday(currDay) && IsWeekday(parkingDay as int)
    ensures IncrementDay(currDay, currHour, parkingDay, parkingHour) ==
      FirstOccurrenceFrom(currDay, currHour, parkingDay as int, parkingHour as int, 0)
  {
    IncrementDayIsNextOccurrence(currDay, currHour, parkingDay, parkingHour);
  }

  /** `d` days from today (negative: in the past) at the target hour is a
      moment the reminder should be chosen from: on the target weekday and,
      counted in hours from the start of the current hour, not in the past. */
  predicate IsTargetMoment(currDay: int, currHour: int, parkingDay: int, parkingHour: int, d: int) {
    Roll(currDay, d) == parkingDay && 24 * d + parkingHour - currHour >= 0
  }

  /** Two rolls of the same weekday agree exactly when their amounts differ
      by whole weeks. */
  lemma RollSameWhenWeeksApart(weekday: int, a: int, b: int)
    ensures Roll(weekday, a) == Roll(weekday, b) <==> (a - b) % 7 == 0
  {
    var x, y := weekday - 1 + a, weekday - 1 + b;
    assert x == 7 * (x / 7) + x % 7 && y == 7 * (y / 7) + y % 7;
    assert a - b == 7 * (x / 7 - y / 7) + (x % 7 - y % 7);
    if x % 7 == y % 7 {
      assert a - b == 7 * (x / 7 - y / 7);
    }
  }

  /** Over all days, past and future, the target moments are exactly the
      increment and the whole weeks after it: moving the increment's number
      of days forward, at the target hour, reaches the earliest moment at or
      after the current hour on the target weekday. This is about the moment
      the increment names; the calendar's `roll` stays inside the current
      week, so the date the code returns need not be that moment. */
  lemma IncrementDayIsEarliestTargetMoment(currDay: int, currHour: int, parkingDay: Int32, parkingHour: Int32)
    requires IsWeekday(currDay) && 0 <= currHour < 24
    requires IsWeekday(parkingDay as int) && 0 <= parkingHour < 24
    ensures var inc := IncrementDay(currDay, currHour, parkingDay, parkingHour);
      forall d {:trigger IsTargetMoment(currDay, currHour, parkingDay as int, parkingHour as int, d)} :: IsTargetMoment(currDay, currHour, parkingDay as int, parkingHour as int, d) <==>
        inc <= d && (d - inc) % 7 == 0
  {
    var inc := IncrementDay(currDay, currHour, parkingDay, parkingHour);
    IncrementDayIsNextOccurrence(currDay, currHour, parkingDay, parkingHour);
    forall d: int {:trigger IsTargetMoment(currDay, currHour, parkingDay as int, parkingHour as int, d)}
      ensures IsTargetMoment(currDay, currHour, parkingDay as int, parkingHour as int, d) <==>
        inc <= d && (d - inc) % 7 == 0
    {
      RollSameWhenWeeksApart(currDay, d, inc);
      if 0 <= d < inc {
        assert !IsOccurrence(currDay, currHour, parkingDay as int, parkingHour as int, d);
      }
    }
  }

  /** The three branches of the increment, with their ranges: today gives 0
      or 7 depending on whether the hour has passed, a later weekday gives
      the difference, an earlier one the difference plus a week; both of the
      last two lie in 1..6. */
  lemma IncrementDayCases(currDay: int, currHour: int, parkingDay: Int32, parkingHour: Int32)
    requires IsWeekday(currDay) && IsWeekday(parkingDay as int)
    ensures var inc := IncrementDay(currDay, currHour, parkingDay, parkingHour);
      (currDay == parkingDay as int ==>
         (inc == 0 <==> currHour <= parkingHour as int) && (inc == 7 <==> parkingHour as int < currHour)) &&
      (parkingDay as int > currDay ==> inc == parkingDay as int - currDay && 1 <= inc <= 6) &&
      (parkingDay as int < currDay ==> inc == parkingDay as int + 7 - currDay && 1 <= inc <= 6)
  {
  }

  /** Counted in hours from the start of the current hour, the moment the
      increment and the target hour describe (the increment's number of days
      ahead, at the target hour) is never in the past and is less than a week
      ahead. The rolled calendar's own date is not this moment in general. */
  lemma ReminderWithinNextWeek(now: Clock, daySelection: Int64, timeSelection: Int64)
    requires ValidClock(now)
    requires 0 <= daySelection <= 6 && 0 <= timeSelection <= 17
    ensures var r := GetParkingTime(now, daySelection, timeSelection);
      0 <= (r.incrementDay as int) * 24 + r.hour as int - now.hour < 7 * 24
  {
    var parkingDay := ParkingDay(daySelection);
    var parkingHour := ParkingHour(timeSelection);
    IncrementDayIsNextOccurrence(now.weekday, now.hour, parkingDay, parkingHour);
    IncrementDayCases(now.weekday, now.hour, parkingDay, parkingHour);
  }

  /** The narrowing cast really wraps: a day selection of 2^31 - 1 yields a
      negative target weekday, which matches no calendar day. */
  lemma ParkingDayWrapsAtIntMax()
    ensures ParkingDay(0x7fff_ffff) as int == -TWO_TO_31
  {
    assert LongToInt(0x7fff_ffff) as int == 0x7fff_ffff;
  }

  /** Which day selections name a weekday at all: exactly those whose low
      32 bits, read as an unsigned number, are 0..6. Large selections such
      as 2^32 wrap back onto a weekday; others, such as 2^31 - 1, do not. */
  lemma ParkingDayIsWeekdayIff(daySelection: Int64)
    ensures IsWeekday(ParkingDay(daySelection) as int) <==> 0 <= (daySelection as int) % TWO_TO_32 <= 6
  {
    var x := daySelection as int;
    var n := LongToInt(daySelection) as int;
    var q := x % TWO_TO_32;
    assert (n - x) % TWO_TO_32 == 0;
    assert x == TWO_TO_32 * (x / TWO_TO_32) + q;
    assert n - x == TWO_TO_32 * ((n - x) / TWO_TO_32);
    if 0 <= q <= 6 {
      var k := (n - x) / TWO_TO_32 + x / TWO_TO_32;
      assert n == TWO_TO_32 * k + q;
      assert k == 0;
      assert ParkingDay(daySelection) as int == q + 1;
    }
    if IsWeekday(ParkingDay(daySelection) as int) {
      assert -TWO_TO_31 <= n < TWO_TO_31 - 1;
      assert 0 <= n <= 6;
      var k := (n - x) / TWO_TO_32 + x / TWO_TO_32;
      assert n == TWO_TO_32 * k + q;
      assert q == n - TWO_TO_32 * k;
      assert k == 0;
    }
  }

  /** Two day selections on either side of the wrap: 2^32 becomes Sunday,
      2^31 - 1 names no weekday. */
  lemma ParkingDayWrapExamples()
    ensures ParkingDay(0x1_0000_0000) as int == 1
    ensures !IsWeekday(ParkingDay(0x7fff_ffff) as int)
  {
    ParkingDayWrapsAtIntMax();
    assert LongToInt(0x1_0000_0000) as int == 0;
  }
}
