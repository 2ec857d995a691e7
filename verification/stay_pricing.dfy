/** The length of a stay and the price of an order. */
module StayPricing {
  import opened Int64
  import opened Binary64

  /** Seconds from the year 1 to 1970, the offset at which the time library keeps instants. */
  const UNIX_TO_INTERNAL := 62_135_596_800
  /** The whole days in the longest duration, 2^63 - 1 nanoseconds. */
  const MAX_DAYS := 106_751

  /** `time.Unix(sec, 0)`: the kept instant wraps for seconds near the top of the range. */
  function Unix(sec: int): int {
    Wrap(sec + UNIX_TO_INTERNAL)
  }

  /** `t.Sub(u)`: the difference in nanoseconds, saturated to int64. */
  function Sub(t: int, u: int): int {
    var d := (t - u) * 1_000_000_000;
    if d < -TWO_63 then -TWO_63 else if d >= TWO_63 then TWO_63 - 1 else d
  }

  function Quo(x: int, y: int): int
    requires y > 0
  {
    if x >= 0 then x / y else -((-x) / y)
  }

  function NanosToSeconds(x: real): real {
    x / 1000000000.0
  }

  function SecondsToDays(x: real): real {
    x / 86400.0
  }

  function Rem(x: int, y: int): int
    requires y > 0
  {
    x - Quo(x, y) * y
  }

  /**
   One evaluation of `d.Seconds() / 86400`: whole seconds plus the remaining nanoseconds over 1e9, then
   the division, with the rounded result of each step.
   */
  datatype Evaluation = Evaluation(whole: real, rest: real, frac: real, seconds: real, days: real)

  ghost predicate Evaluates(f: Format, sec: int, rem: int, e: Evaluation) {
    && Rounds(f, sec as real, e.whole)
    && Rounds(f, rem as real, e.rest)
    && Rounds(f, NanosToSeconds(e.rest), e.frac)
    && Rounds(f, e.whole + e.frac, e.seconds)
    && Rounds(f, SecondsToDays(e.seconds), e.days)
  }

  /** `int64(d.Seconds() / 86400)`, for a duration of `sec` seconds and `rem` nanoseconds. */
  ghost predicate IsDayCount(f: Format, sec: int, rem: int, n: int) {
    exists e :: Evaluates(f, sec, rem, e) && n == Truncate(e.days)
  }

  /** What the floating-point expression may evaluate to. */
  ghost predicate IsLiveDays(start: int, end: int, n: int) {
    var d := Sub(Unix(end), Unix(start));
    IsDayCount(Binary64Numbers(), Quo(d, 1_000_000_000), Rem(d, 1_000_000_000), n)
  }

  /** The same count in integer arithmetic. */
  function Days(d: int): int {
    Quo(Quo(d, 1_000_000_000), 86_400)
  }

  function LiveDays(start: int, end: int): int {
    Days(Sub(Unix(end), Unix(start)))
  }

  // ----- the rounded count is the integer count -----

  /** Either no nanoseconds remain, or the duration is saturated at one end. */
  predicate IsStay(sec: int, rem: int) {
    || (-9_223_372_036 <= sec <= 9_223_372_036 && rem == 0)
    || (sec == 9_223_372_036 && 0 < rem < 1_000_000_000)
    || (sec == -9_223_372_036 && -1_000_000_000 < rem < 0)
  }

  lemma FractionStaysBetween(f: Format, rem: int, rest: real, frac: real)
    requires Fine(f) && -1_000_000_000 < rem < 1_000_000_000
    requires Rounds(f, rem as real, rest) && Rounds(f, NanosToSeconds(rest), frac)
    ensures rem >= 0 ==> 0.0 <= frac <= 1.0
    ensures rem <= 0 ==> -1.0 <= frac <= 0.0
  {
    IntegerRoundsToItself(f, rem, rest);
    if rem >= 0 {
      RoundingStaysBetweenIntegers(f, NanosToSeconds(rest), frac, 0, 1);
    }
    if rem <= 0 {
      RoundingStaysBetweenIntegers(f, NanosToSeconds(rest), frac, -1, 0);
    }
  }

  lemma SecondsStayBetween(f: Format, sec: int, rem: int, e: Evaluation)
    requires Fine(f) && IsStay(sec, rem) && Evaluates(f, sec, rem, e)
    ensures rem == 0 ==> e.seconds == sec as real
    ensures rem > 0 ==> sec as real <= e.seconds <= (sec + 1) as real
    ensures rem < 0 ==> (sec - 1) as real <= e.seconds <= sec as real
  {
    FractionStaysBetween(f, rem, e.rest, e.frac);
    IntegerRoundsToItself(f, sec, e.whole);
    if rem == 0 {
      IntegerRoundsToItself(f, sec, e.seconds);
    } else if rem > 0 {
      RoundingStaysBetweenIntegers(f, e.whole + e.frac, e.seconds, sec, sec + 1);
    } else {
      RoundingStaysBetweenIntegers(f, e.whole + e.frac, e.seconds, sec - 1, sec);
    }
  }

  lemma QuotientFloors(f: Format, y: real, q: real, sec: int)
    requires Fine(f) && 0 <= sec <= 9_223_372_036 && sec as real <= y
    requires y <= sec as real || (sec == 9_223_372_036 && y <= (sec + 1) as real)
    requires Rounds(f, SecondsToDays(y), q)
    ensures Truncate(q) == sec / 86_400
  {
    var n := sec / 86_400;
    var x := SecondsToDays(y);
    assert (n * 86_400) as real <= y <= ((n + 1) * 86_400 - 1) as real;
    assert n as real <= x <= (n + 1) as real - 1.0 / 86400.0;
    FloorSurvivesRounding(f, x, q, n);
    TruncateOfFloor(q, n);
  }

  lemma TruncateOfFloor(q: real, n: int)
    requires q.Floor == n && n >= 0
    ensures Truncate(q) == n
  {
  }

  lemma DaysRoundingIsOdd(f: Format, x: real, y: real)
    requires Symmetric(f) && Rounds(f, SecondsToDays(x), y)
    ensures Rounds(f, SecondsToDays(-x), -y)
  {
    assert SecondsToDays(-x) == -SecondsToDays(x);
    RoundingIsOdd(f, SecondsToDays(x), y);
  }

  lemma NegativeQuotientFloors(f: Format, y: real, q: real, sec: int)
    requires IsFormat(f) && -9_223_372_036 <= sec <= 0 && y <= sec as real
    requires sec as real <= y || (sec == -9_223_372_036 && (sec - 1) as real <= y)
    requires Rounds(f, SecondsToDays(y), q)
    ensures Truncate(q) == -((-sec) / 86_400)
  {
    DaysRoundingIsOdd(f, y, q);
    TruncateIsOdd(q);
    QuotientFloors(f, -y, -q, -sec);
  }

  lemma DayCountIsQuo(f: Format, sec: int, rem: int, n: int)
    requires IsFormat(f) && IsStay(sec, rem) && IsDayCount(f, sec, rem, n)
    ensures n == Quo(sec, 86_400)
  {
    var e :| Evaluates(f, sec, rem, e) && n == Truncate(e.days);
    SecondsStayBetween(f, sec, rem, e);
    if sec >= 0 {
      QuotientFloors(f, e.seconds, e.days, sec);
    } else {
      NegativeQuotientFloors(f, e.seconds, e.days, sec);
    }
  }

  /** A difference of instants has no loose nanoseconds unless it is saturated. */
  lemma SubIsStay(t: int, u: int)
    ensures IsStay(Quo(Sub(t, u), 1_000_000_000), Rem(Sub(t, u), 1_000_000_000))
  {
  }

  /** However the roundings go, the floating-point day count of two instants is the integer one. */
  lemma FloatDayCountIsLiveDays(start: int, end: int, n: int)
    requires IsLiveDays(start, end, n)
    ensures n == LiveDays(start, end)
  {
    var d := Sub(Unix(end), Unix(start));
    Binary64IsFormat();
    SubIsStay(Unix(end), Unix(start));
    DayCountIsQuo(Binary64Numbers(), Quo(d, 1_000_000_000), Rem(d, 1_000_000_000), n);
  }

  /** The floating-point count does evaluate, for every pair of instants. */
  lemma EveryStayEvaluates(start: int, end: int)
    ensures IsLiveDays(start, end, LiveDays(start, end))
  {
    var d := Sub(Unix(end), Unix(start));
    var sec, rem := Quo(d, 1_000_000_000), Rem(d, 1_000_000_000);
    var e := SomeEvaluation(sec, rem);
    assert IsDayCount(Binary64Numbers(), sec, rem, Truncate(e.days));
    FloatDayCountIsLiveDays(start, end, Truncate(e.days));
  }

  lemma SomeEvaluation(sec: int, rem: int) returns (e: Evaluation)
    ensures Evaluates(Binary64Numbers(), sec, rem, e)
  {
    var f := Binary64Numbers();
    Binary64IsFormat();
    Binary64IsDiscrete();
    var whole, rest := Nearest(f, sec as real), Nearest(f, rem as real);
    var frac := Nearest(f, NanosToSeconds(rest));
    var seconds := Nearest(f, whole + frac);
    e := Evaluation(whole, rest, frac, seconds, Nearest(f, SecondsToDays(seconds)));
  }

  // ----- what the count is -----

  function CappedDays(start: int, end: int): int {
    var days := (end - start) / 86_400;
    if days > MAX_DAYS then MAX_DAYS else days
  }

  /** Only an end beyond the library's range, with a start inside it, spoils the count. */
  predicate EndAloneWraps(start: int, end: int) {
    start + UNIX_TO_INTERNAL < TWO_63 <= end + UNIX_TO_INTERNAL
  }

  lemma LiveDaysIsCappedIff(start: int, end: int)
    requires IsInt64(start) && IsInt64(end) && start < end
    ensures LiveDays(start, end) == CappedDays(start, end) <==> !EndAloneWraps(start, end)
    ensures EndAloneWraps(start, end) ==> LiveDays(start, end) <= 0
  {
    if EndAloneWraps(start, end) {
      assert Unix(end) == end + UNIX_TO_INTERNAL - TWO_64;
      assert Unix(start) == start + UNIX_TO_INTERNAL;
    } else {
      assert Unix(end) - Unix(start) == end - start;
    }
  }

  // ----- the price -----

  function HomestayTotal(homestayPrice: int, days: int): int {
    Wrap(homestayPrice * days)
  }

  function FoodTotal(isFood: bool, foodPrice: int, people: int, days: int): int {
    if isFood then Wrap(Wrap(foodPrice * people) * days) else 0
  }

  function OrderTotal(homestayPrice: int, isFood: bool, foodPrice: int, people: int, days: int): int {
    Wrap(HomestayTotal(homestayPrice, days) + FoodTotal(isFood, foodPrice, people, days))
  }

  function DayRate(homestayPrice: int, isFood: bool, foodPrice: int, people: int): int {
    homestayPrice + if isFood then foodPrice * people else 0
  }

  /** The three wrapping products amount to one daily rate times the days, wrapped once. */
  lemma OrderTotalIsRateTimesDays(homestayPrice: int, isFood: bool, foodPrice: int, people: int, days: int)
    ensures OrderTotal(homestayPrice, isFood, foodPrice, people, days)
         == Wrap(DayRate(homestayPrice, isFood, foodPrice, people) * days)
  {
    if isFood {
      WrapMul(foodPrice * people, days);
      WrapAdd(homestayPrice * days, foodPrice * people * days);
      assert homestayPrice * days + foodPrice * people * days == (homestayPrice + foodPrice * people) * days;
    }
  }

  /** Splitting a stay at any instant adds no day exactly while the parts stay under the cap, and below it loses at most one. */
  lemma SplitLosesAtMostOneDay(start: int, mid: int, end: int)
    requires start < mid < end
    ensures var parts, all := CappedDays(start, mid) + CappedDays(mid, end), CappedDays(start, end);
      && (parts <= all <==> parts <= MAX_DAYS)
      && ((end - start) / 86_400 <= MAX_DAYS ==> parts <= all <= parts + 1)
  {
    assert (mid - start) + (end - mid) == end - start;
    DivisionAdds(mid - start, end - mid);
  }

  lemma DivisionAdds(a: int, b: int)
    requires a >= 0 && b >= 0
    ensures a / 86_400 + b / 86_400 <= (a + b) / 86_400 <= a / 86_400 + b / 86_400 + 1
  {
  }

  /** Splitting any stay that an order can be built from, in the count that orders are built with. */
  lemma SplitLiveDays(start: int, mid: int, end: int)
    requires IsInt64(start) && IsInt64(end) && start < mid < end && !EndAloneWraps(start, end)
    requires (end - start) / 86_400 <= MAX_DAYS
    ensures LiveDays(start, mid) == (mid - start) / 86_400
    ensures LiveDays(mid, end) == (end - mid) / 86_400
    ensures LiveDays(start, end) == (end - start) / 86_400
    ensures LiveDays(start, mid) + LiveDays(mid, end) <= LiveDays(start, end) <= LiveDays(start, mid) + LiveDays(mid, end) + 1
  {
    LiveDaysIsCappedIff(start, mid);
    LiveDaysIsCappedIff(mid, end);
    LiveDaysIsCappedIff(start, end);
    DivisionAdds(mid - start, end - mid);
  }

  /** Below the cap, splitting a stay never raises the total and lowers it by at most one day's rate. */
  lemma SplitPrice(start: int, mid: int, end: int, homestayPrice: int, isFood: bool, foodPrice: int, people: int)
    requires IsInt64(start) && IsInt64(end) && start < mid < end && !EndAloneWraps(start, end)
    requires (end - start) / 86_400 <= MAX_DAYS
    requires var rate := DayRate(homestayPrice, isFood, foodPrice, people);
      rate >= 0 && IsInt64(rate * LiveDays(start, end))
    ensures var rate := DayRate(homestayPrice, isFood, foodPrice, people);
      var whole := OrderTotal(homestayPrice, isFood, foodPrice, people, LiveDays(start, end));
      var parts := OrderTotal(homestayPrice, isFood, foodPrice, people, LiveDays(start, mid))
                   + OrderTotal(homestayPrice, isFood, foodPrice, people, LiveDays(mid, end));
      parts <= whole <= parts + rate
  {
    var rate := DayRate(homestayPrice, isFood, foodPrice, people);
    var a, b, all := LiveDays(start, mid), LiveDays(mid, end), LiveDays(start, end);
    OrderTotalIsRateTimesDays(homestayPrice, isFood, foodPrice, people, a);
    OrderTotalIsRateTimesDays(homestayPrice, isFood, foodPrice, people, b);
    OrderTotalIsRateTimesDays(homestayPrice, isFood, foodPrice, people, all);
    SplitLiveDays(start, mid, end);
    ProductsSplit(rate, a, b, all);
  }

  lemma ProductsSplit(r: int, a: int, b: int, all: int)
    requires r >= 0 && a >= 0 && b >= 0 && a + b <= all <= a + b + 1
    requires IsInt64(r * all)
    ensures Wrap(r * a) + Wrap(r * b) <= Wrap(r * all) <= Wrap(r * a) + Wrap(r * b) + r
  {
    ProductBounds(r, a, b, all);
  }

  lemma ProductBounds(r: int, a: int, b: int, all: int)
    requires r >= 0 && a >= 0 && b >= 0 && a + b <= all <= a + b + 1
    ensures 0 <= r * a && 0 <= r * b && r * a + r * b <= r * all <= r * a + r * b + r
  {
    assert r * (a + b) == r * a + r * b;
    if all == a + b + 1 {
      assert r * all == r * (a + b) + r;
    } else {
      assert r * all == r * (a + b);
    }
  }

  // ----- what the stored dates tell -----

  /** Seconds by which the database connection's time zone, Asia/Shanghai, is ahead. */
  const ZONE := 28_800

  /** A date column keeps the day: the instant at which it begins in that zone. */
  function DayStart(t: int): int {
    (t + ZONE) / 86_400 * 86_400 - ZONE
  }

  function TimeOfDay(t: int): int {
    (t + ZONE) % 86_400
  }

  lemma DayStartAndTime(t: int)
    ensures t == DayStart(t) + TimeOfDay(t) && 0 <= TimeOfDay(t) < 86_400
  {
  }

  /** The day that begins at `day`, at midnight eight hours ahead of UTC, contains the instant. */
  predicate IsDayOf(day: int, t: int) {
    day <= t < day + 86_400 && (day + 28_800) % 86_400 == 0
  }

  lemma DayStartIsDayOf(t: int)
    ensures IsDayOf(DayStart(t), t)
  {
    assert DayStart(t) + 28_800 == 86_400 * ((t + ZONE) / 86_400);
  }

  /** Whole days between two instants, and between their dates. */
  lemma DatesCountWholeDays(start: int, end: int)
    ensures (DayStart(end) - DayStart(start)) / 86_400
         == (end - start) / 86_400 + if TimeOfDay(start) <= TimeOfDay(end) then 0 else 1
  {
    var s, e := (start + ZONE) / 86_400, (end + ZONE) / 86_400;
    DayStartAndTime(start);
    DayStartAndTime(end);
    assert DayStart(end) - DayStart(start) == 86_400 * (e - s);
    assert end - start == 86_400 * (e - s) + (TimeOfDay(end) - TimeOfDay(start));
  }

  /** The instants that a date column can keep, from the year 1000 to the year 9999. */
  predicate IsDatable(t: int) {
    -30_610_252_800 <= t < 253_402_272_000
  }

  /**
   The stored dates give the day count that an order was priced with if and only if the end's time of day is
   not before the start's, or the stay is at the cap; otherwise they give exactly one day more.
   */
  lemma DatesGiveLiveDaysIff(start: int, end: int)
    requires start < end && IsDatable(start) && IsDatable(end)
    ensures LiveDays(DayStart(start), DayStart(end)) == LiveDays(start, end)
            <==> TimeOfDay(start) <= TimeOfDay(end) || MAX_DAYS <= (end - start) / 86_400
    ensures LiveDays(start, end) <= LiveDays(DayStart(start), DayStart(end)) <= LiveDays(start, end) + 1
  {
    DatesCountWholeDays(start, end);
    DayStartAndTime(start);
    DayStartAndTime(end);
    LiveDaysIsCappedIff(start, end);
    if DayStart(start) < DayStart(end) {
      LiveDaysIsCappedIff(DayStart(start), DayStart(end));
    } else {
      assert DayStart(start) == DayStart(end);
      assert LiveDays(DayStart(start), DayStart(end)) == 0;
    }
  }

  /** Less than a day, from an evening to the next evening: priced at nothing, stored as two dates. */
  lemma EveningStayLosesItsDay()
    ensures LiveDays(57_599, 143_998) == 0
    ensures LiveDays(DayStart(57_599), DayStart(143_998)) == 1
  {
  }

  // ----- inputs at which the count fails -----

  /** An end that the time library cannot keep. */
  lemma LastEndWraps()
    ensures IsInt64(TWO_63 - 1) && EndAloneWraps(0, TWO_63 - 1) && LiveDays(0, TWO_63 - 1) == -MAX_DAYS
  {
  }

  /** Two parts at the cap count twice as many days as the whole. */
  lemma CappedPartsExceedTheWhole()
    ensures var d := 86_400 * MAX_DAYS;
      LiveDays(0, d) == LiveDays(d, 2 * d) == LiveDays(0, 2 * d) == MAX_DAYS
  {
  }
}
