/** The active-users service: the hourly series with its region and device
    filters, the week and month aggregates that replace it, the statistics
    over the series and the simulated real-time tick that appends the next
    hour and keeps a window of 24 points. `Math.random()` draws are
    parameters; timers and the subscriber callback are not modelled. */
module ActiveUsers {
  import opened Common
  import opened Sorting

  /** `ActiveUserPoint`. */
  datatype Point = Point(time: string, value: int, region: string, device: string)

  const WindowSize := 24

  // ----- the clock label of the next hour -----

  /** `t` is a sign character followed by decimal digits. */
  predicate SignedDigits(t: string, sign: char) {
    |t| > 1 && t[0] == sign && AllDigits(t[1..])
  }

  /** `Number(text)` for the forms an hour label takes: surrounding
      whitespace is ignored, an empty text reads as 0, an optional sign may
      precede decimal digits; anything else is `NaN` (`None`). */
  function ParseNumber(text: string): (r: Option<int>)
    ensures Trim(text) == "" ==> r == Some(0)
    ensures AllDigits(Trim(text)) ==> r == Some(DigitsValue(Trim(text)))
    ensures SignedDigits(Trim(text), '-') ==> r == Some(-(DigitsValue(Trim(text)[1..]) as int))
    ensures SignedDigits(Trim(text), '+') ==> r == Some(DigitsValue(Trim(text)[1..]))
    ensures r.None? <==>
      Trim(text) != "" && !AllDigits(Trim(text)) && !SignedDigits(Trim(text), '-') && !SignedDigits(Trim(text), '+')
  {
    ParseTrimmed(Trim(text))
  }

  /** `Number` of text with no surrounding whitespace. */
  function ParseTrimmed(t: string): (r: Option<int>)
    ensures t == "" ==> r == Some(0)
    ensures AllDigits(t) ==> r == Some(DigitsValue(t))
    ensures SignedDigits(t, '-') ==> r == Some(-(DigitsValue(t[1..]) as int))
    ensures SignedDigits(t, '+') ==> r == Some(DigitsValue(t[1..]))
    ensures r.None? <==> t != "" && !AllDigits(t) && !SignedDigits(t, '-') && !SignedDigits(t, '+')
  {
    if t == "" then Some(0)
    else if AllDigits(t) then Some(DigitsValue(t))
    else if SignedDigits(t, '-') then Some(0 - DigitsValue(t[1..]) as int)
    else if SignedDigits(t, '+') then Some(DigitsValue(t[1..]))
    else None
  }

  /** `Number(time.split(':')[0])`. */
  function HourOf(time: string): Option<int> {
    ParseNumber(BeforeFirst(time, ':'))
  }

  /** JavaScript's `%`: the remainder takes the sign of the dividend. */
  function JsRem(a: int, m: int): (r: int)
    requires m > 0
    ensures a >= 0 ==> 0 <= r < m
    ensures a < 0 ==> -m < r <= 0
  {
    if a >= 0 then a % m else -((-a) % m)
  }

  /** `s.padStart(2, '0')`. */
  function PadStart2(s: string): (r: string)
    ensures |s| >= 2 ==> r == s
    ensures |s| < 2 ==> |r| == 2 && r[2 - |s|..] == s && forall i :: 0 <= i < 2 - |s| ==> r[i] == '0'
  {
    if |s| >= 2 then s else if |s| == 1 then "0" + s else "00"
  }

  /** The label of hour `h` on the clock: two digits and ":00". */
  function Clock(h: nat): (r: string)
    ensures |r| == 5
  {
    [DigitChar((h / 10) % 10), DigitChar(h % 10)] + ":00"
  }

  /** The label `getNextTime` builds from the parsed hour: the next hour,
      wrapped at 24 with JavaScript's remainder, padded to two characters;
      "NaN:00" when the hour is not a number. */
  function NextLabel(hour: Option<int>): (r: string)
    ensures hour == None ==> r == "NaN:00"
    ensures hour.Some? && hour.value >= -1 ==> r == Clock((hour.value + 1) % WindowSize)
    ensures hour.Some? && hour.value < -1 ==>
      var back := (-(hour.value + 1)) % WindowSize;
      r == if back == 0 then "00:00" else "-" + NatToString(back) + ":00"
  {
    match hour
    case None => "NaN:00"
    case Some(h) =>
      var next := JsRem(h + 1, WindowSize);
      if next >= 0 then
        TwoDigits(next);
        PadStart2(NatToString(next)) + ":00"
      else
        NegativeLabel(next);
        PadStart2(IntToString(next)) + ":00"
  }

  /** A negative remainder spells with its minus sign, which already
      makes two characters, so the padding adds nothing. */
  lemma NegativeLabel(next: int)
    requires next < 0
    ensures PadStart2(IntToString(next)) == "-" + NatToString(-next)
  {
  }

  /** `getNextTime(currentTime)`. */
  function GetNextTime(current: string): string {
    NextLabel(HourOf(current))
  }

  /** Two-digit numbers spell as their digits, padded with one zero below 10. */
  lemma TwoDigits(h: nat)
    requires h < 100
    ensures PadStart2(NatToString(h)) == [DigitChar((h / 10) % 10), DigitChar(h % 10)]
  {
    if h >= 10 {
      assert NatToString(h / 10) == [DigitChar(h / 10)];
    }
  }

  lemma ClockDigits(h: nat)
    requires h < 100
    ensures var d := [DigitChar((h / 10) % 10), DigitChar(h % 10)];
      AllDigits(d) && DigitsValue(d) == h
  {
    var d := [DigitChar((h / 10) % 10), DigitChar(h % 10)];
    assert DigitValue(d[0]) == (h / 10) % 10 && DigitValue(d[1]) == h % 10;
    assert (h / 10) % 10 * 10 + h % 10 == h;
    assert d[..1] == [d[0]] && d[..1][..0] == [];
    assert DigitsValue(d[..1]) == DigitValue(d[0]);
    assert DigitsValue(d) == DigitsValue(d[..1]) * 10 + DigitValue(d[1]);
  }

  /** A text with no whitespace at either end is its own trim. */
  lemma TrimPlain(s: string)
    requires |s| > 0 && !IsJsWhitespace(s[0]) && !IsJsWhitespace(s[|s| - 1])
    ensures Trim(s) == s
  {
    assert TrimStart(s) == s;
  }

  /** A clock label reads back as its hour. */
  lemma ClockRoundTrip(h: nat)
    requires h < 100
    ensures HourOf(Clock(h)) == Some(h)
  {
    var d := [DigitChar((h / 10) % 10), DigitChar(h % 10)];
    ClockDigits(h);
    BeforeFirstAppend(d, ":00", ':');
    assert BeforeFirst(":00", ':') == "";
    assert d + "" == d;
    assert BeforeFirst(Clock(h), ':') == d;
    TrimPlain(d);
  }

  /** The label after a clock label is the next hour's, 23:00 wrapping to
      00:00. */
  lemma NextClock(h: nat)
    requires h < WindowSize
    ensures GetNextTime(Clock(h)) == Clock((h + 1) % WindowSize)
  {
    ClockRoundTrip(h);
    NextOfHour(Clock(h), h);
  }

  /** Whatever label reads as hour `h` is followed by the clock label of
      the next hour. */
  lemma NextOfHour(t: string, h: int)
    requires HourOf(t) == Some(h) && h >= -1
    ensures GetNextTime(t) == Clock((h + 1) % WindowSize)
  {
    var hour := HourOf(t);
    assert GetNextTime(t) == NextLabel(hour);
    LabelOfHour(h);
  }

  lemma LabelOfHour(h: int)
    requires h >= -1
    ensures NextLabel(Some(h)) == Clock((h + 1) % WindowSize)
  {
  }

  lemma HourStep(h: nat, n: nat)
    requires h < WindowSize && n > 0
    ensures ((h + 1) % WindowSize + (n - 1)) % WindowSize == (h + n) % WindowSize
  {
  }

  /** `f` applied `n` times. */
  function Iterate<T>(f: T -> T, x: T, n: nat): T
    decreases n
  {
    if n == 0 then x else Iterate(f, f(x), n - 1)
  }

  /** A step that moves every label of a 24-hour cycle to the next label
      moves a label `n` hours on after `n` steps. */
  lemma {:induction false} IterateCycle<T>(f: T -> T, mark: nat -> T, h: nat, n: nat)
    requires h < WindowSize
    requires forall j: nat :: j < WindowSize ==> f(mark(j)) == mark((j + 1) % WindowSize)
    ensures Iterate(f, mark(h), n) == mark((h + n) % WindowSize)
    decreases n
  {
    if n > 0 {
      HourStep(h, n);
      IterateCycle(f, mark, (h + 1) % WindowSize, n - 1);
    } else {
      assert (h + n) % WindowSize == h;
    }
  }

  /** From a clock label the hour advances by one per tick, modulo 24. */
  lemma AdvanceClock(h: nat, n: nat)
    requires h < WindowSize
    ensures Iterate(GetNextTime, Clock(h), n) == Clock((h + n) % WindowSize)
  {
    forall j: nat | j < WindowSize
      ensures GetNextTime(Clock(j)) == Clock((j + 1) % WindowSize)
    {
      NextClock(j);
    }
    IterateCycle(GetNextTime, Clock, h, n);
  }

  // ----- the real-time tick -----

  /** One interval of `subscribe`: append the next hour with `3000 + roll`
      users and the last point's region and device, then drop the oldest
      point when there are more than 24. Without a last point the callback
      throws and the series is left as it was (`None`). */
  function Tick(data: seq<Point>, roll: int): (r: Option<seq<Point>>)
    requires 0 <= roll < 1000
    ensures r.Some? <==> |data| > 0
    ensures r.Some? ==>
      var last := data[|data| - 1];
      var out := r.value;
      && |out| == (if |data| >= WindowSize then |data| else |data| + 1)
      && out[|out| - 1] == Point(GetNextTime(last.time), 3000 + roll, last.region, last.device)
      && out[..|out| - 1] == data[|data| + 1 - |out|..]
  {
    if |data| == 0 then None
    else
      var last := data[|data| - 1];
      Some(Slide(data, Point(GetNextTime(last.time), 3000 + roll, last.region, last.device)))
  }

  /** `[...data, p]` with the oldest entry dropped once it exceeds the window. */
  function Slide<T>(data: seq<T>, p: T): (r: seq<T>)
    ensures |r| == (if |data| >= WindowSize then |data| else |data| + 1)
    ensures r[|r| - 1] == p
    ensures r[..|r| - 1] == data[|data| + 1 - |r|..]
  {
    var grown := data + [p];
    if |grown| > WindowSize then
      assert grown[1..][..|grown| - 2] == data[1..];
      grown[1..]
    else
      assert grown[..|grown| - 1] == data;
      grown
  }

  /** The series after one tick per roll (an empty series stays empty). */
  function RunTicks(data: seq<Point>, rolls: seq<int>): seq<Point>
    requires forall i :: 0 <= i < |rolls| ==> 0 <= rolls[i] < 1000
    decreases |rolls|
  {
    if |rolls| == 0 then data
    else
      match Tick(data, rolls[0])
      case None => data
      case Some(next) => RunTicks(next, rolls[1..])
  }

  /** A series of at most 24 points grows by one point per tick until it
      holds 24 and then stays at 24; the newest point carries the label
      reached by one `getNextTime` step per tick, and the region and device
      of the series' last point. */
  lemma {:induction false} TicksKeepWindow(data: seq<Point>, rolls: seq<int>)
    requires forall i :: 0 <= i < |rolls| ==> 0 <= rolls[i] < 1000
    requires 0 < |data| <= WindowSize
    ensures var out := RunTicks(data, rolls);
      && |out| == Min(|data| + |rolls|, WindowSize)
      && out[|out| - 1].time == Iterate(GetNextTime, data[|data| - 1].time, |rolls|)
      && out[|out| - 1].region == data[|data| - 1].region
      && out[|out| - 1].device == data[|data| - 1].device
    decreases |rolls|
  {
    if |rolls| > 0 {
      var next := Tick(data, rolls[0]).value;
      RunTicksStep(data, rolls);
      TicksKeepWindow(next, rolls[1..]);
      IterateStep(GetNextTime, data[|data| - 1].time, |rolls|);
    }
  }

  lemma RunTicksStep(data: seq<Point>, rolls: seq<int>)
    requires forall i :: 0 <= i < |rolls| ==> 0 <= rolls[i] < 1000
    requires |data| > 0 && |rolls| > 0
    ensures RunTicks(data, rolls) == RunTicks(Tick(data, rolls[0]).value, rolls[1..])
  {
  }

  lemma IterateStep<T>(f: T -> T, x: T, n: nat)
    requires n > 0
    ensures Iterate(f, x, n) == Iterate(f, f(x), n - 1)
  {
  }

  // ----- statistics -----

  /** `ActiveUserStats` without the constant growth figure. */
  datatype Stats = Stats(
    totalUsers: int,
    peakHour: string,
    peakValue: int,
    average: int,
    byRegion: map<string, int>,
    byDevice: map<string, int>)

  function ValueOf(p: Point): int { p.value }
  function RegionOf(p: Point): string { p.region }
  function DeviceOf(p: Point): string { p.device }

  /** `data.reduce((sum, item) => sum + item.value, 0)`. */
  function SumValues(data: seq<Point>): int
    decreases |data|
  {
    if |data| == 0 then 0 else SumValues(data[..|data| - 1]) + data[|data| - 1].value
  }

  /** The (key, value) pairs a keyed reduce walks over. */
  function Entries(data: seq<Point>, key: Point -> string): (e: seq<(string, int)>)
    ensures |e| == |data|
    ensures forall i :: 0 <= i < |e| ==> e[i] == (key(data[i]), data[i].value)
  {
    seq(|data|, i requires 0 <= i < |data| => (key(data[i]), data[i].value))
  }

  lemma {:induction false} EntriesWeight(data: seq<Point>, key: Point -> string)
    ensures WeightTotal(Entries(data, key)) == SumValues(data)
    decreases |data|
  {
    if |data| > 0 {
      var front := data[..|data| - 1];
      var e := Entries(data, key);
      assert e[..|e| - 1] == Entries(front, key);
      EntriesWeight(front, key);
    }
  }

  /** The test "the point's `key` is `k`". */
  function WithKey(key: Point -> string, k: string): Point -> bool {
    p => key(p) == k
  }

  /** The weight a keyed reduce gives `k` is the sum of the values of the
      points with that key. */
  lemma {:induction false} EntriesKeyWeight(data: seq<Point>, key: Point -> string, k: string)
    ensures KeyWeight(Entries(data, key), k) == SumValues(Filter(data, WithKey(key, k)))
    decreases |data|
  {
    if |data| > 0 {
      var n := |data| - 1;
      EntriesKeyWeight(data[..n], key, k);
      KeyWeightStep(data, key, k);
      KeyedSumStep(data, key, k);
    }
  }

  lemma KeyWeightStep(data: seq<Point>, key: Point -> string, k: string)
    requires |data| > 0
    ensures KeyWeight(Entries(data, key), k) ==
      KeyWeight(Entries(data[..|data| - 1], key), k) + if key(data[|data| - 1]) == k then data[|data| - 1].value else 0
  {
    var e := Entries(data, key);
    assert e[..|e| - 1] == Entries(data[..|data| - 1], key);
  }

  lemma KeyedSumStep(data: seq<Point>, key: Point -> string, k: string)
    requires |data| > 0
    ensures SumValues(Filter(data, WithKey(key, k))) ==
      SumValues(Filter(data[..|data| - 1], WithKey(key, k))) + if key(data[|data| - 1]) == k then data[|data| - 1].value else 0
  {
    var n := |data| - 1;
    assert data == data[..n] + [data[n]];
    FilterSnoc(data[..n], data[n], WithKey(key, k));
    var front := Filter(data[..n], WithKey(key, k));
    if key(data[n]) == k {
      SumValuesSnoc(front, data[n]);
    } else {
      assert front + [] == front;
    }
  }

  lemma SumValuesSnoc(data: seq<Point>, p: Point)
    ensures SumValues(data + [p]) == SumValues(data) + p.value
  {
    assert (data + [p])[..|data|] == data;
  }

  /** `data.reduce((acc, item) => { acc[key(item)] = (acc[key(item)] || 0)
      + item.value; ... }, {})`: a key per distinct `key` of the points,
      holding the sum of those points' values. */
  function Tallied(data: seq<Point>, key: Point -> string): (m: map<string, int>)
    ensures forall k :: k in m <==> exists i :: 0 <= i < |data| && key(data[i]) == k
    ensures forall k :: k in m ==> m[k] == SumValues(Filter(data, WithKey(key, k)))
  {
    var e := Entries(data, key);
    var m := Accumulate(e);
    assert forall k :: k in m ==> m[k] == SumValues(Filter(data, WithKey(key, k))) by {
      forall k | k in m ensures m[k] == SumValues(Filter(data, WithKey(key, k))) {
        EntriesKeyWeight(data, key, k);
      }
    }
    assert forall k :: k in m <==> exists i :: 0 <= i < |data| && key(data[i]) == k by {
      forall k ensures k in m <==> exists i :: 0 <= i < |data| && key(data[i]) == k {
        if k in m {
          var i :| 0 <= i < |e| && e[i].0 == k;
        }
        if exists i :: 0 <= i < |data| && key(data[i]) == k {
          var i :| 0 <= i < |data| && key(data[i]) == k;
          assert e[i].0 == k;
        }
      }
    }
    m
  }

  /** `usersByRegion`: the points' values summed per region. */
  function RegionTally(data: seq<Point>): (m: map<string, int>)
    ensures forall k :: k in m <==> exists i :: 0 <= i < |data| && data[i].region == k
    ensures forall k :: k in m ==> m[k] == SumValues(Filter(data, WithKey(RegionOf, k)))
  {
    var m := Tallied(data, RegionOf);
    assert forall i :: 0 <= i < |data| ==> RegionOf(data[i]) == data[i].region;
    m
  }

  /** `usersByDevice`: the points' values summed per device. */
  function DeviceTally(data: seq<Point>): (m: map<string, int>)
    ensures forall k :: k in m <==> exists i :: 0 <= i < |data| && data[i].device == k
    ensures forall k :: k in m ==> m[k] == SumValues(Filter(data, WithKey(DeviceOf, k)))
  {
    var m := Tallied(data, DeviceOf);
    assert forall i :: 0 <= i < |data| ==> DeviceOf(data[i]) == data[i].device;
    m
  }

  /** The peak point: the head of the points sorted by value, descending.
      The sort is stable, so it is the first point with the largest value. */
  function Peak(data: seq<Point>): (p: Point)
    requires |data| > 0
    ensures forall i :: 0 <= i < |data| ==> data[i].value <= p.value
    ensures
      exists i :: 0 <= i < |data| && data[i].time == p.time && data[i].value == p.value &&
        forall j :: 0 <= j < i ==> data[j].value < p.value
  {
    var p := TopByKey(data, ValueOf).value;
    assert exists i :: 0 <= i < |data| && data[i] == p && forall j :: 0 <= j < i ==> data[j].value < p.value;
    p
  }

  /** `fetchUserStats`. With no points the peak is undefined and reading
      its time throws, so no statistics are produced (`None`). */
  function FetchUserStats(data: seq<Point>): (r: Option<Stats>)
    ensures r.Some? <==> |data| > 0
    ensures r.Some? ==> r.value.totalUsers == SumValues(data)
    ensures r.Some? ==>
      exists i :: 0 <= i < |data| && data[i].time == r.value.peakHour && data[i].value == r.value.peakValue &&
        forall j :: 0 <= j < i ==> data[j].value < r.value.peakValue
    ensures r.Some? ==> forall i :: 0 <= i < |data| ==> data[i].value <= r.value.peakValue
    ensures r.Some? ==>
      |data| * (2 * r.value.average - 1) <= 2 * r.value.totalUsers < |data| * (2 * r.value.average + 1)
    ensures r.Some? ==> forall k :: k in r.value.byRegion <==> exists i :: 0 <= i < |data| && data[i].region == k
    ensures r.Some? ==> forall k :: k in r.value.byDevice <==> exists i :: 0 <= i < |data| && data[i].device == k
    ensures r.Some? ==> forall k :: k in r.value.byRegion ==>
      r.value.byRegion[k] == SumValues(Filter(data, WithKey(RegionOf, k)))
    ensures r.Some? ==> forall k :: k in r.value.byDevice ==>
      r.value.byDevice[k] == SumValues(Filter(data, WithKey(DeviceOf, k)))
  {
    if |data| == 0 then None
    else
      var peak := Peak(data);
      var total := SumValues(data);
      var average := RoundDiv(total, |data|);
      assert |data| * (2 * average - 1) <= 2 * total < |data| * (2 * average + 1);
      Some(Stats(total, peak.time, peak.value, average, RegionTally(data), DeviceTally(data)))
  }

  /** The per-region and per-device tallies each add up to the total. */
  lemma StatsTalliesAddUp(data: seq<Point>)
    requires |data| > 0
    ensures MapSum(FetchUserStats(data).value.byRegion) == FetchUserStats(data).value.totalUsers
    ensures MapSum(FetchUserStats(data).value.byDevice) == FetchUserStats(data).value.totalUsers
  {
    AccumulateSum(Entries(data, RegionOf));
    EntriesWeight(data, RegionOf);
    AccumulateSum(Entries(data, DeviceOf));
    EntriesWeight(data, DeviceOf);
  }

  // ----- the series query -----

  datatype TimeRange = Today | Week | Month

  /** The options of `fetchActiveUsers`; an empty region or device is falsy
      and does not filter. The `interval` option is never read. */
  datatype Query = Query(timeRange: Option<TimeRange>, region: string, device: string)

  const WeekDays: seq<string> := ["Mon", "Tue", "Wed", "Thu", "Fri", "Sat", "Sun"]
  const MonthWeeks: seq<string> := ["Week 1", "Week 2", "Week 3", "Week 4"]

  predicate MatchesFilters(p: Point, region: string, device: string) {
    (region == "" || p.region == region) && (device == "" || p.device == device)
  }

  /** `generateWeekData`/`generateMonthData`: one global point per label
      with `base + roll` users. */
  function Aggregate(labels: seq<string>, rolls: seq<int>, base: int): (r: seq<Point>)
    requires |rolls| == |labels|
    ensures |r| == |labels|
    ensures forall i :: 0 <= i < |r| ==> r[i] == Point(labels[i], base + rolls[i], "Global", "All")
  {
    seq(|labels|, i requires 0 <= i < |labels| => Point(labels[i], base + rolls[i], "Global", "All"))
  }

  ghost predicate RollsIn(rolls: seq<int>, n: nat, bound: int) {
    |rolls| == n && forall i :: 0 <= i < n ==> 0 <= rolls[i] < bound
  }

  /** `fetchActiveUsers`: the region filter, then the device filter; a week
      or month range then discards the filtered series for seven daily or
      four weekly aggregates. */
  function FetchActiveUsers(data: seq<Point>, q: Query, rolls: seq<int>): (r: seq<Point>)
    requires q.timeRange == Some(Week) ==> RollsIn(rolls, 7, 5000)
    requires q.timeRange == Some(Month) ==> RollsIn(rolls, 4, 15000)
    ensures q.timeRange == Some(Week) ==> |r| == 7 && forall i :: 0 <= i < 7 ==>
      r[i].time == WeekDays[i] && 2000 <= r[i].value < 7000 && r[i].region == "Global" && r[i].device == "All"
    ensures q.timeRange == Some(Month) ==> |r| == 4 && forall i :: 0 <= i < 4 ==>
      r[i].time == MonthWeeks[i] && 10000 <= r[i].value < 25000 && r[i].region == "Global" && r[i].device == "All"
    ensures q.timeRange != Some(Week) && q.timeRange != Some(Month) ==>
      SubseqOf(r, data) && forall p :: p in r <==> p in data && MatchesFilters(p, q.region, q.device)
  {
    var byRegion := if q.region != "" then Filter(data, (p: Point) => p.region == q.region) else data;
    var byDevice := if q.device != "" then Filter(byRegion, (p: Point) => p.device == q.device) else byRegion;
    if q.timeRange == Some(Week) then Aggregate(WeekDays, rolls, 2000)
    else if q.timeRange == Some(Month) then Aggregate(MonthWeeks, rolls, 10000)
    else
      assert SubseqOf(byDevice, data) by {
        SubseqOfSelf(data);
        SubseqOfSelf(byRegion);
        SubseqTrans(byDevice, byRegion, data);
      }
      byDevice
  }

  /** The two filters in a row are the one filter by both tests, in the
      series' order, and applying them the other way round gives the same
      series. */
  lemma FiltersCombine(data: seq<Point>, region: string, device: string)
    requires region != "" && device != ""
    ensures FetchActiveUsers(data, Query(None, region, device), [])
         == Filter(data, (p: Point) => MatchesFilters(p, region, device))
    ensures Filter(Filter(data, (p: Point) => p.device == device), (p: Point) => p.region == region)
         == Filter(Filter(data, (p: Point) => p.region == region), (p: Point) => p.device == device)
  {
    FilterFilter(data, (p: Point) => p.region == region, (p: Point) => p.device == device,
                 (p: Point) => MatchesFilters(p, region, device));
    FilterFilter(data, (p: Point) => p.device == device, (p: Point) => p.region == region,
                 (p: Point) => MatchesFilters(p, region, device));
  }
}
