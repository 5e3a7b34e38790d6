/**
 * The overview page, `src/Oversikt.jsx`: the greeting, the first name shown
 * in it, the counters for this week, month and year, and the bar chart of
 * the last seven days. Dates are day numbers (consecutive days differ by
 * one, as `setDate` arithmetic makes them) and the weekday is the number
 * `getDay` returns, 0 for Sunday.
 */
module Oversikt {
  import opened Js

  /** `getGreeting` for the hour of the day. */
  function Greeting(hour: int): (r: string)
    ensures r == "God morgen" <==> hour < 12
    ensures r == "God dag" <==> 12 <= hour < 18
    ensures r == "God kveld" <==> hour >= 18
  {
    if hour < 12 then "God morgen"
    else if hour < 18 then "God dag"
    else "God kveld"
  }

  /**
   * `getFirstName`: the text before the first space of the profile's
   * `full_name`, else of the metadata's `full_name`, else "".
   */
  function FirstName(profileFullName: Option<string>, metadataFullName: Option<string>): (r: string)
    ensures ' ' !in r
    ensures Truthy(profileFullName) ==>
      StartsWith(profileFullName.value, r) && (r == profileFullName.value || profileFullName.value[|r|] == ' ')
    ensures !Truthy(profileFullName) && Truthy(metadataFullName) ==>
      StartsWith(metadataFullName.value, r) && (r == metadataFullName.value || metadataFullName.value[|r|] == ' ')
    ensures !Truthy(profileFullName) && !Truthy(metadataFullName) ==> r == ""
  {
    if Truthy(profileFullName) then
      BeforeFirstSpec(profileFullName.value, ' ');
      BeforeFirst(profileFullName.value, ' ')
    else if Truthy(metadataFullName) then
      BeforeFirstSpec(metadataFullName.value, ' ');
      BeforeFirst(metadataFullName.value, ' ')
    else ""
  }

  /**
   * `getStartOfWeek`: the day `today - weekday + (weekday == 0 ? -6 : 1)`.
   * It is the Monday of the current week: at most six days back, and its
   * weekday is 1.
   */
  function StartOfWeek(today: int, weekday: int): (r: int)
    requires 0 <= weekday < 7
    ensures today - 6 <= r <= today
    ensures (weekday + (r - today)) % 7 == 1
  {
    today - weekday + (if weekday == 0 then -6 else 1)
  }

  /** A Monday is the start of its own week, and the start is the only Monday of the six days before today. */
  lemma StartOfWeekIsLastMonday(today: int, weekday: int, d: int)
    requires 0 <= weekday < 7
    requires StartOfWeek(today, weekday) < d <= today
    ensures (weekday + (d - today)) % 7 != 1
  {
    var k := d - today;
    if weekday == 0 {
      assert -5 <= k <= 0;
    } else {
      assert -weekday + 1 < k <= 0;
    }
  }

  /** `count || 0` for the three counters. */
  function StatOrZero(count: Option<int>): (r: int)
    ensures count.None? ==> r == 0
    ensures count.Some? ==> r == count.value
  {
    if TruthyNum(count) then count.value else 0
  }

  // ---------------------------------------------------------------- weekly activity

  const DayNames: seq<string> := ["Son", "Man", "Tir", "Ons", "Tor", "Fre", "Lor"]

  /** One bar of the chart: `{ day, count, date }`. */
  datatype Bucket = Bucket(day: string, count: nat, date: int)

  /** The `k`-th of the seven days ending today (k = 6 is today), with no workouts counted. */
  function EmptyBucket(today: int, weekday: int, k: int): Bucket {
    Bucket(DayNames[(weekday - 6 + k) % 7], 0, today - 6 + k)
  }

  /** The number of workouts completed on day `d`. */
  function CountOn(completed: seq<int>, d: int): nat
    decreases |completed|
  {
    if |completed| == 0 then 0
    else CountOn(completed[..|completed| - 1], d) + (if completed[|completed| - 1] == d then 1 else 0)
  }

  /** The chart the page should show: the seven days in order, each with its number of workouts. */
  function Chart(completed: seq<int>, today: int, weekday: int): (r: seq<Bucket>)
    ensures |r| == 7
    ensures forall k :: 0 <= k < 7 ==> r[k] == EmptyBucket(today, weekday, k).(count := CountOn(completed, today - 6 + k))
  {
    seq(7, k requires 0 <= k < 7 => EmptyBucket(today, weekday, k).(count := CountOn(completed, today - 6 + k)))
  }

  /** `activityByDay[dateStr]`: the position of the bucket of day `d`. */
  function FindDate(buckets: seq<Bucket>, d: int): (r: Option<nat>)
    ensures r.Some? ==> r.value < |buckets| && buckets[r.value].date == d
    ensures r.None? <==> forall j :: 0 <= j < |buckets| ==> buckets[j].date != d
    decreases |buckets|
  {
    if |buckets| == 0 then None
    else if buckets[0].date == d then Some(0)
    else match FindDate(buckets[1..], d)
      case None => None
      case Some(i) => Some(i + 1)
  }

  /**
   * `fetchWeeklyActivity`: seven buckets keyed by the dates ending today,
   * each at zero, then one increment per workout whose date is a key.
   */
  method WeeklyActivity(today: int, weekday: int, completed: seq<int>) returns (buckets: seq<Bucket>)
    ensures buckets == Chart(completed, today, weekday)
  {
    buckets := [];
    var i := 6;
    while i >= 0
      invariant -1 <= i <= 6
      invariant |buckets| == 6 - i
      invariant forall k :: 0 <= k < |buckets| ==> buckets[k] == EmptyBucket(today, weekday, k)
    {
      buckets := buckets + [Bucket(DayNames[(weekday - i) % 7], 0, today - i)];
      i := i - 1;
    }
    var n := 0;
    while n < |completed|
      invariant 0 <= n <= |completed|
      invariant |buckets| == 7
      invariant forall k :: 0 <= k < 7 ==>
        buckets[k] == EmptyBucket(today, weekday, k).(count := CountOn(completed[..n], today - 6 + k))
    {
      assert completed[..n + 1][..n] == completed[..n];
      var j := FindDate(buckets, completed[n]);
      if j.Some? {
        buckets := buckets[j.value := buckets[j.value].(count := buckets[j.value].count + 1)];
      }
      n := n + 1;
    }
    assert completed[..n] == completed;
  }

  /** The number of workouts on one of the `n` days from `first` on. */
  function InWindow(completed: seq<int>, first: int, n: int): nat
    decreases |completed|
  {
    if |completed| == 0 then 0
    else InWindow(completed[..|completed| - 1], first, n)
         + (if first <= completed[|completed| - 1] < first + n then 1 else 0)
  }

  /** The total of the bars. */
  function Total(buckets: seq<Bucket>): nat
    decreases |buckets|
  {
    if |buckets| == 0 then 0 else Total(buckets[..|buckets| - 1]) + buckets[|buckets| - 1].count
  }

  /** The counts on the days `first .. first + n - 1`, added up. */
  function SumOver(completed: seq<int>, first: int, n: nat): nat
    decreases n
  {
    if n == 0 then 0 else SumOver(completed, first, n - 1) + CountOn(completed, first + n - 1)
  }

  lemma {:induction false} InWindowBound(completed: seq<int>, first: int, n: int)
    ensures InWindow(completed, first, n) <= |completed|
    decreases |completed|
  {
    if |completed| > 0 {
      InWindowBound(completed[..|completed| - 1], first, n);
    }
  }

  lemma {:induction false} SumOverIsInWindow(completed: seq<int>, first: int, n: nat)
    ensures SumOver(completed, first, n) == InWindow(completed, first, n)
    decreases |completed|, n
  {
    if |completed| > 0 {
      var m := |completed| - 1;
      SumOverIsInWindow(completed[..m], first, n);
      SumOverStep(completed, first, n);
    } else {
      SumOverEmpty(completed, first, n);
    }
  }

  lemma {:induction false} SumOverEmpty(completed: seq<int>, first: int, n: nat)
    requires |completed| == 0
    ensures SumOver(completed, first, n) == 0
    decreases n
  {
    if n > 0 {
      SumOverEmpty(completed, first, n - 1);
    }
  }

  /** Adding the last workout adds one to the sum exactly when its day is among the `n`. */
  lemma {:induction false} SumOverStep(completed: seq<int>, first: int, n: nat)
    requires |completed| > 0
    ensures var m := |completed| - 1;
      SumOver(completed, first, n)
      == SumOver(completed[..m], first, n) + (if first <= completed[m] < first + n then 1 else 0)
    decreases n
  {
    if n > 0 {
      SumOverStep(completed, first, n - 1);
    }
  }

  lemma {:induction false} TotalIsSumOver(buckets: seq<Bucket>, completed: seq<int>, first: int)
    requires forall k :: 0 <= k < |buckets| ==> buckets[k].count == CountOn(completed, first + k)
    ensures Total(buckets) == SumOver(completed, first, |buckets|)
    decreases |buckets|
  {
    if |buckets| > 0 {
      TotalIsSumOver(buckets[..|buckets| - 1], completed, first);
    }
  }

  /**
   * The bars add up to the number of workouts of the last seven days, so
   * never to more than the workouts fetched; workouts on other days are
   * dropped.
   */
  lemma ChartTotal(completed: seq<int>, today: int, weekday: int)
    ensures Total(Chart(completed, today, weekday)) == InWindow(completed, today - 6, 7)
    ensures Total(Chart(completed, today, weekday)) <= |completed|
  {
    TotalIsSumOver(Chart(completed, today, weekday), completed, today - 6);
    SumOverIsInWindow(completed, today - 6, 7);
    InWindowBound(completed, today - 6, 7);
  }

  /** Each bar is named after its own weekday, and the last bar is today. */
  lemma ChartDays(completed: seq<int>, today: int, weekday: int)
    requires 0 <= weekday < 7
    ensures Chart(completed, today, weekday)[6].date == today
    ensures Chart(completed, today, weekday)[6].day == DayNames[weekday]
    ensures forall k :: 0 <= k < 7 ==> Chart(completed, today, weekday)[k].date == today - 6 + k
  {
  }

  /** The counts of the bars, in order. */
  function Counts(buckets: seq<Bucket>): (r: seq<nat>)
    ensures |r| == |buckets| && forall k :: 0 <= k < |buckets| ==> r[k] == buckets[k].count
  {
    seq(|buckets|, k requires 0 <= k < |buckets| => buckets[k].count)
  }

  /** `Math.max(...counts, 1)`: the scale of the chart. */
  function MaxActivity(buckets: seq<Bucket>): (r: nat)
    ensures r >= 1
    ensures forall k :: 0 <= k < |buckets| ==> buckets[k].count <= r
    ensures r == 1 || r in Counts(buckets)
    decreases |buckets|
  {
    if |buckets| == 0 then 1
    else
      var rest := MaxActivity(buckets[..|buckets| - 1]);
      var last := buckets[|buckets| - 1].count;
      assert Counts(buckets[..|buckets| - 1]) == Counts(buckets)[..|buckets| - 1];
      if last > rest then last else rest
  }

  datatype Stats = Stats(week: int, month: int, year: int)

  class Overview {
    var stats: Stats
    var weeklyActivity: seq<Bucket>
    var loading: bool

    constructor()
      ensures stats == Stats(0, 0, 0) && weeklyActivity == [] && loading
    {
      stats := Stats(0, 0, 0);
      weeklyActivity := [];
      loading := true;
    }

    /**
     * `fetchStats`: the three counts, each 0 when missing. The replies' errors
     * are not read: a query that reports an error has no count, so its
     * counter becomes 0. `reply` is None only for a rejected call, which the
     * `catch` swallows and which changes nothing.
     */
    method LoadStats(reply: Option<(Option<int>, Option<int>, Option<int>)>)
      modifies this`stats
      ensures reply.None? ==> stats == old(stats)
      ensures reply.Some? ==>
        stats == Stats(StatOrZero(reply.value.0), StatOrZero(reply.value.1), StatOrZero(reply.value.2))
    {
      if reply.Some? {
        var (week, month, year) := reply.value;
        stats := Stats(StatOrZero(week), StatOrZero(month), StatOrZero(year));
      }
    }

    /** The activity effect: the chart of the fetched dates, or no change on an error; loading ends either way. */
    method LoadActivity(today: int, weekday: int, reply: Option<seq<int>>)
      modifies this`weeklyActivity, this`loading
      ensures weeklyActivity == (if reply.Some? then Chart(reply.value, today, weekday) else old(weeklyActivity))
      ensures !loading
    {
      if reply.Some? {
        weeklyActivity := WeeklyActivity(today, weekday, reply.value);
      }
      loading := false;
    }
  }
}
