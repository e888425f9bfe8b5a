/** The signup-sources service: the list query with numeric sorting and a
    limit, the summary statistics, the manual count update and the
    simulated drift of every count. Percentages are kept in tenths of a
    percent; `Math.random()` draws are parameters; timers and subscriber
    notification are not modelled. */
module SignupSources {
  import opened Common
  import opened Sorting

  /** A percentage as the source stores it after `Math.round(x) / 10`: a
      whole number of tenths, or a non-finite value after a division by a
      zero total. */
  datatype Share = Tenths(tenths: int) | NotFinite

  /** `SignupSource`. */
  datatype Source = Source(
    name: string,
    count: int,
    percentage: Share,
    change: string,
    color: string,
    description: string)

  /** The numeric `sortBy` keys. */
  datatype SortKey = ByCount | ByPercentage

  function CountOf(s: Source): int { s.count }

  function PercentOf(s: Source): int {
    if s.percentage.Tenths? then s.percentage.tenths else 0
  }

  function KeyOf(k: SortKey): Source -> int {
    if k == ByCount then CountOf else PercentOf
  }

  ghost predicate FiniteShares(data: seq<Source>) {
    forall i :: 0 <= i < |data| ==> data[i].percentage.Tenths?
  }

  /** `options.order === 'asc' ? aVal - bVal : bVal - aVal`: anything but
      "asc", including no order at all, sorts descending. */
  function SortOrder(order: Option<Order>): (o: Order)
    ensures o == Asc <==> order == Some(Asc)
  {
    if order == Some(Asc) then Asc else Desc
  }

  // ----- fetchSources -----

  /** `fetchSources({ sortBy, order, limit })` for the numeric keys. */
  function FetchSources(data: seq<Source>, sortBy: Option<SortKey>, order: Option<Order>,
                        limit: Option<int>): (r: seq<Source>)
    requires sortBy == Some(ByPercentage) ==> FiniteShares(data)
    ensures sortBy.None? ==> r == ApplyLimit(data, limit)
    ensures sortBy.Some? ==>
      Sorted(r, KeyOf(sortBy.value), SortOrder(order)) && multiset(r) <= multiset(data)
    ensures limit == None || limit == Some(0) ==> multiset(r) == multiset(data)
    ensures limit.Some? && limit.value > 0 ==> |r| == Min(limit.value, |data|)
    ensures sortBy.Some? ==> forall k ::
      Filter(r, HasKey(KeyOf(sortBy.value), k)) <= Filter(data, HasKey(KeyOf(sortBy.value), k))
  {
    if sortBy.None? then ApplyLimit(data, limit)
    else
      var sorted := SortByKey(data, KeyOf(sortBy.value), SortOrder(order));
      var r := ApplyLimit(sorted, limit);
      SortedPrefix(sorted, KeyOf(sortBy.value), SortOrder(order), r);
      PrefixMultiset(sorted, |r|);
      assert sorted[..|r|] == r;
      assert forall k :: Filter(r, HasKey(KeyOf(sortBy.value), k)) <= Filter(data, HasKey(KeyOf(sortBy.value), k)) by {
        forall k ensures Filter(r, HasKey(KeyOf(sortBy.value), k)) <= Filter(data, HasKey(KeyOf(sortBy.value), k)) {
          LimitKeepsTieOrder(sorted, r, KeyOf(sortBy.value), k);
        }
      }
      r
  }

  /** With a sort key, the limited list is a top-n: every source the limit
      cut off comes after every source it kept in the requested order. */
  lemma FetchSourcesIsTopN(data: seq<Source>, k: SortKey, order: Option<Order>, limit: Option<int>,
                           kept: Source, dropped: Source)
    requires k == ByPercentage ==> FiniteShares(data)
    requires kept in FetchSources(data, Some(k), order, limit)
    requires multiset(data)[dropped] > multiset(FetchSources(data, Some(k), order, limit))[dropped]
    ensures InOrder(KeyOf(k), SortOrder(order), kept, dropped)
  {
    assert FetchSources(data, Some(k), order, limit) == ApplyLimit(SortByKey(data, KeyOf(k), SortOrder(order)), limit);
    LimitIsTopN(data, KeyOf(k), SortOrder(order), limit, kept, dropped);
  }

  // ----- fetchSourceStats -----

  /** `data.reduce((sum, item) => sum + item.count, 0)`. */
  function SumCounts(data: seq<Source>): int
    decreases |data|
  {
    if |data| == 0 then 0 else SumCounts(data[..|data| - 1]) + data[|data| - 1].count
  }

  /** The statistics without the constant growth figure; an empty list
      gives a `NaN` average (`None`) and an undefined top source (`None`). */
  datatype SourceStats = SourceStats(total: int, average: Option<int>, topSource: Option<Source>)

  /** `fetchSourceStats`. */
  function FetchSourceStats(data: seq<Source>): (r: SourceStats)
    ensures r.total == SumCounts(data)
    ensures r.average.Some? <==> |data| > 0
    ensures r.average.Some? ==>
      |data| * (2 * r.average.value - 1) <= 2 * r.total < |data| * (2 * r.average.value + 1)
    ensures r.topSource.Some? <==> |data| > 0
    ensures r.topSource.Some? ==>
      && r.topSource.value in data
      && forall i :: 0 <= i < |data| ==> data[i].count <= r.topSource.value.count
    ensures r.topSource.Some? ==>
      exists i :: 0 <= i < |data| && data[i] == r.topSource.value &&
        forall j :: 0 <= j < i ==> data[j].count < r.topSource.value.count
  {
    var total := SumCounts(data);
    SourceStats(total, if |data| == 0 then None else Some(RoundDiv(total, |data|)), TopByKey(data, CountOf))
  }

  // ----- updateSourceCount -----

  /** `data.findIndex(item => item.name === name)`. */
  function FindByName(data: seq<Source>, name: string): (r: Option<nat>)
    ensures r.None? <==> forall i :: 0 <= i < |data| ==> data[i].name != name
    ensures r.Some? ==> r.value < |data| && data[r.value].name == name
    ensures r.Some? ==> forall j :: 0 <= j < r.value ==> data[j].name != name
    decreases |data|
  {
    if |data| == 0 then None
    else if data[0].name == name then Some(0)
    else
      match FindByName(data[1..], name)
      case None => None
      case Some(i) => Some(i + 1)
  }

  /** `Math.round((count / total) * 1000) / 10`, kept in tenths. */
  function ShareOf(count: int, total: int): (s: Share)
    ensures s.NotFinite? <==> total == 0
    ensures total > 0 ==> total * (2 * s.tenths - 1) <= 2000 * count < total * (2 * s.tenths + 1)
  {
    if total == 0 then NotFinite else Tenths(RoundDiv(1000 * count, total))
  }

  /** `updateSourceCount(name, newCount)`: the first source with that name
      takes the new count and a percentage computed against the total of
      the counts before the update; an unknown name is rejected and the
      list left as it was. */
  function UpdateSourceCount(data: seq<Source>, name: string, newCount: int)
    : (r: Result<(seq<Source>, Source), string>)
    ensures r.Err? <==> forall i :: 0 <= i < |data| ==> data[i].name != name
    ensures r.Err? ==> r.error == "Source not found"
    ensures r.Ok? ==> exists i ::
      && 0 <= i < |data| && data[i].name == name
      && (forall j :: 0 <= j < i ==> data[j].name != name)
      && r.value.0 == data[i := r.value.1]
      && r.value.1 == data[i].(count := newCount, percentage := ShareOf(newCount, SumCounts(data)))
  {
    match FindByName(data, name)
    case None => Err("Source not found")
    case Some(i) =>
      var updated := data[i].(count := newCount, percentage := ShareOf(newCount, SumCounts(data)));
      Ok((data[i := updated], updated))
  }

  lemma {:induction false} SumCountsUpdate(data: seq<Source>, i: nat, s: Source)
    requires i < |data|
    ensures SumCounts(data[i := s]) == SumCounts(data) - data[i].count + s.count
    decreases |data|
  {
    var d := data[i := s];
    if i < |data| - 1 {
      assert d[..|d| - 1] == data[..|data| - 1][i := s];
      SumCountsUpdate(data[..|data| - 1], i, s);
    } else {
      assert d[..|d| - 1] == data[..|data| - 1];
    }
  }

  /** After an update the total moves by the difference between the new
      and the old count, and every other source is untouched. */
  lemma UpdateMovesTotal(data: seq<Source>, name: string, newCount: int)
    requires UpdateSourceCount(data, name, newCount).Ok?
    ensures var i := FindByName(data, name).value;
      var after := UpdateSourceCount(data, name, newCount).value.0;
      && SumCounts(after) == SumCounts(data) - data[i].count + newCount
      && |after| == |data|
      && forall j :: 0 <= j < |data| && j != i ==> after[j] == data[j]
  {
    var i := FindByName(data, name).value;
    var updated := data[i].(count := newCount, percentage := ShareOf(newCount, SumCounts(data)));
    SumCountsUpdate(data, i, updated);
  }

  // ----- simulated drift -----

  /** One simulated update: each count moves by `roll - 25` and is floored
      at 100; each percentage is replaced by a rolled value. `countRolls`
      stand for `Math.floor(Math.random() * 50)` and `shareRolls` for
      `Math.round(Math.random() * 5 * 10)`. */
  function SimulatedUpdate(data: seq<Source>, countRolls: seq<int>, shareRolls: seq<int>): (r: seq<Source>)
    requires |countRolls| == |data| && |shareRolls| == |data|
    requires forall i :: 0 <= i < |data| ==> 0 <= countRolls[i] < 50 && 0 <= shareRolls[i] <= 50
    ensures |r| == |data|
    ensures forall i :: 0 <= i < |r| ==>
      r[i].(count := data[i].count, percentage := data[i].percentage) == data[i]
    ensures forall i :: 0 <= i < |r| ==> r[i].count >= 100
    ensures forall i :: 0 <= i < |r| && data[i].count >= 125 ==>
      data[i].count - 25 <= r[i].count < data[i].count + 25
    ensures forall i :: 0 <= i < |r| ==> r[i].percentage.Tenths? && 0 <= r[i].percentage.tenths <= 50
  {
    seq(|data|, i requires 0 <= i < |data| =>
      data[i].(count := Max(100, data[i].count + countRolls[i] - 25), percentage := Tenths(shareRolls[i])))
  }

  lemma {:induction false} SumCountsAtLeast(data: seq<Source>)
    requires forall i :: 0 <= i < |data| ==> data[i].count >= 100
    ensures SumCounts(data) >= 100 * |data|
    decreases |data|
  {
    if |data| > 0 {
      SumCountsAtLeast(data[..|data| - 1]);
    }
  }

  /** Once the simulation has run, a manual update of a known source always
      gets a finite percentage, since every count is at least 100. */
  lemma UpdateAfterDriftIsFinite(data: seq<Source>, countRolls: seq<int>, shareRolls: seq<int>,
                                 name: string, newCount: int)
    requires |countRolls| == |data| && |shareRolls| == |data|
    requires forall i :: 0 <= i < |data| ==> 0 <= countRolls[i] < 50 && 0 <= shareRolls[i] <= 50
    requires UpdateSourceCount(SimulatedUpdate(data, countRolls, shareRolls), name, newCount).Ok?
    ensures UpdateSourceCount(SimulatedUpdate(data, countRolls, shareRolls), name, newCount).value.1.percentage.Tenths?
  {
    var d := SimulatedUpdate(data, countRolls, shareRolls);
    SumCountsAtLeast(d);
  }
}
