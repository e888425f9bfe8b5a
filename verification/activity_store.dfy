/** The in-memory activity log service: filtered, sorted and limited
    queries, aggregate statistics, create, delete, pruning by age, and the
    simulated feed that prepends a random entry and caps the log at 1000.
    Timestamps are epoch milliseconds; clock readings, ids and random
    choices are parameters. */
module ActivityStore {
  import opened Common
  import opened Sorting

  /** The optional per-category extra fields of a simulated entry. */
  datatype Extra = NoExtra | Records(records: nat) | MemoryUsage(usage: string)

  datatype Activity = Activity(
    id: string,
    action: string,
    description: string,
    user: string,
    userId: Option<string>,
    timestamp: int,
    severity: Severity,
    category: string,
    extra: Extra)

  /** Options of `fetchActivities`; an empty string is an absent (falsy) filter. */
  datatype Query = Query(
    limit: Option<int>,
    severity: string,
    category: string,
    userId: string,
    startDate: Option<int>,
    endDate: Option<int>,
    order: Option<Order>)

  function Timestamp(a: Activity): int { a.timestamp }

  /** `options?.order || 'desc'`, then `order === 'asc'`. */
  function EffectiveOrder(q: Query): Order {
    if q.order == Some(Asc) then Asc else Desc
  }

  /** An entry satisfies every filter the query supplies. */
  predicate Matches(q: Query, a: Activity) {
    && (q.severity != "" ==> SeverityName(a.severity) == q.severity)
    && (q.category != "" ==> a.category == q.category)
    && (q.userId != "" ==> a.userId == Some(q.userId))
    && (q.startDate.Some? ==> a.timestamp >= q.startDate.value)
    && (q.endDate.Some? ==> a.timestamp <= q.endDate.value)
  }

  /** Stage `k` (1-5) of the filter chain: whether its option is supplied ... */
  predicate StageOn(q: Query, k: nat) {
    if k == 1 then q.severity != ""
    else if k == 2 then q.category != ""
    else if k == 3 then q.userId != ""
    else if k == 4 then q.startDate.Some?
    else q.endDate.Some?
  }

  /** ... and the test it applies when it is. */
  predicate StageTest(q: Query, k: nat, a: Activity) {
    if k == 1 then SeverityName(a.severity) == q.severity
    else if k == 2 then a.category == q.category
    else if k == 3 then a.userId == Some(q.userId)
    else if k == 4 then q.startDate.Some? && a.timestamp >= q.startDate.value
    else q.endDate.Some? && a.timestamp <= q.endDate.value
  }

  /** Stage `k` lets the entry through: its option is absent or its test holds. */
  predicate StageKeeps(q: Query, k: nat, a: Activity) {
    StageOn(q, k) ==> StageTest(q, k, a)
  }

  /** The entry passes the first `k` stages. */
  predicate PassesStages(q: Query, k: nat, a: Activity)
    decreases k
  {
    k == 0 || (PassesStages(q, k - 1, a) && StageKeeps(q, k, a))
  }

  lemma PassesAllStages(q: Query, a: Activity)
    ensures PassesStages(q, 5, a) == Matches(q, a)
  {
    assert PassesStages(q, 1, a) == StageKeeps(q, 1, a);
    assert PassesStages(q, 2, a) == (PassesStages(q, 1, a) && StageKeeps(q, 2, a));
    assert PassesStages(q, 3, a) == (PassesStages(q, 2, a) && StageKeeps(q, 3, a));
    assert PassesStages(q, 4, a) == (PassesStages(q, 3, a) && StageKeeps(q, 4, a));
    assert PassesStages(q, 5, a) == (PassesStages(q, 4, a) && StageKeeps(q, 5, a));
  }

  /** The first `k` stages of the filter chain of `fetchActivities`:
      `if (options?.severity) result = result.filter(...)` and so on. */
  function NarrowStages(data: seq<Activity>, q: Query, k: nat): (r: seq<Activity>)
    ensures r == Filter(data, a => PassesStages(q, k, a))
    decreases k
  {
    if k == 0 then
      FilterKeepsAll(data, a => PassesStages(q, 0, a));
      data
    else
      var prev := NarrowStages(data, q, k - 1);
      var r := if StageOn(q, k) then Filter(prev, a => StageTest(q, k, a)) else prev;
      StageStep(data, q, k, prev, r);
      r
  }

  lemma StageStep(data: seq<Activity>, q: Query, k: nat, prev: seq<Activity>, r: seq<Activity>)
    requires k > 0
    requires prev == Filter(data, a => PassesStages(q, k - 1, a))
    requires r == if StageOn(q, k) then Filter(prev, a => StageTest(q, k, a)) else prev
    ensures r == Filter(data, a => PassesStages(q, k, a))
  {
    var keeps := (a: Activity) => StageKeeps(q, k, a);
    if StageOn(q, k) {
      FilterExt(prev, a => StageTest(q, k, a), keeps);
    } else {
      FilterKeepsAll(prev, keeps);
    }
    assert r == Filter(prev, keeps);
    FilterFilter(data, a => PassesStages(q, k - 1, a), keeps, a => PassesStages(q, k, a));
  }

  /** The whole filter chain keeps exactly the entries that match the query. */
  function Narrow(data: seq<Activity>, q: Query): (r: seq<Activity>)
    ensures r == Filter(data, a => Matches(q, a))
  {
    var r := NarrowStages(data, q, 5);
    assert forall a :: PassesStages(q, 5, a) == Matches(q, a) by {
      forall a ensures PassesStages(q, 5, a) == Matches(q, a) {
        PassesAllStages(q, a);
      }
    }
    FilterExt(data, a => PassesStages(q, 5, a), a => Matches(q, a));
    r
  }

  /** `fetchActivities(options)`. */
  function FetchActivities(data: seq<Activity>, q: Query): (r: seq<Activity>)
    ensures forall i :: 0 <= i < |r| ==> Matches(q, r[i]) && r[i] in data
    ensures Sorted(r, Timestamp, EffectiveOrder(q))
    ensures q.limit.Some? && q.limit.value > 0 ==>
      |r| == Min(q.limit.value, |Filter(data, a => Matches(q, a))|)
    ensures q.limit.Some? && q.limit.value < 0 ==>
      |r| == Max(|Filter(data, a => Matches(q, a))| + q.limit.value, 0)
    ensures q.limit == None || q.limit == Some(0) ==>
      multiset(r) == multiset(Filter(data, a => Matches(q, a)))
    ensures forall t :: Filter(r, HasKey(Timestamp, t)) <= Filter(Filter(data, a => Matches(q, a)), HasKey(Timestamp, t))
  {
    var narrowed := Narrow(data, q);
    var sorted := SortByKey(narrowed, Timestamp, EffectiveOrder(q));
    var r := ApplyLimit(sorted, q.limit);
    LimitedSortedFacts(data, q, narrowed, sorted, r);
    assert forall t :: Filter(r, HasKey(Timestamp, t)) <= Filter(narrowed, HasKey(Timestamp, t)) by {
      forall t ensures Filter(r, HasKey(Timestamp, t)) <= Filter(narrowed, HasKey(Timestamp, t)) {
        LimitKeepsTieOrder(sorted, r, Timestamp, t);
      }
    }
    r
  }

  /** With a limit, the page is the newest (or oldest) matches: every
      matching entry the limit cut off may follow every entry it kept. */
  lemma FetchActivitiesIsTopN(data: seq<Activity>, q: Query, kept: Activity, dropped: Activity)
    requires kept in FetchActivities(data, q)
    requires multiset(Filter(data, a => Matches(q, a)))[dropped] > multiset(FetchActivities(data, q))[dropped]
    ensures InOrder(Timestamp, EffectiveOrder(q), kept, dropped)
  {
    var narrowed := Narrow(data, q);
    assert FetchActivities(data, q) == ApplyLimit(SortByKey(narrowed, Timestamp, EffectiveOrder(q)), q.limit);
    LimitIsTopN(narrowed, Timestamp, EffectiveOrder(q), q.limit, kept, dropped);
  }

  lemma LimitedSortedFacts(data: seq<Activity>, q: Query, narrowed: seq<Activity>,
                           sorted: seq<Activity>, r: seq<Activity>)
    requires narrowed == Filter(data, a => Matches(q, a))
    requires Sorted(sorted, Timestamp, EffectiveOrder(q)) && multiset(sorted) == multiset(narrowed)
    requires r <= sorted
    ensures forall i :: 0 <= i < |r| ==> Matches(q, r[i]) && r[i] in data
    ensures Sorted(r, Timestamp, EffectiveOrder(q))
  {
    forall i | 0 <= i < |r| ensures Matches(q, r[i]) && r[i] in data {
      assert r[i] == sorted[i];
      assert sorted[i] in multiset(narrowed);
      assert sorted[i] in narrowed;
    }
  }

  /** Without options, the whole log comes back newest first. */
  lemma DefaultQueryIsNewestFirst(data: seq<Activity>)
    ensures var r := FetchActivities(data, Query(None, "", "", "", None, None, None));
      multiset(r) == multiset(data)
      && forall i, j :: 0 <= i < j < |r| ==> r[i].timestamp >= r[j].timestamp
  {
    var q := Query(None, "", "", "", None, None, None);
    FilterKeepsAll(data, a => Matches(q, a));
  }

  // ----- statistics -----

  datatype Stats = Stats(
    totalActivities: nat,
    bySeverity: map<Severity, int>,
    byCategory: map<string, int>,
    todayCount: nat,
    lastHourCount: nat)

  function Severities(data: seq<Activity>): seq<Severity> {
    seq(|data|, i requires 0 <= i < |data| => data[i].severity)
  }

  function Categories(data: seq<Activity>): seq<string> {
    seq(|data|, i requires 0 <= i < |data| => data[i].category)
  }

  /** `data.filter(a => new Date(a.timestamp) >= since).length`. */
  function CountSince(data: seq<Activity>, since: int): (n: nat)
    ensures n == |set i | 0 <= i < |data| && data[i].timestamp >= since|
    ensures n <= |data|
  {
    var kept := Filter(data, (a: Activity) => a.timestamp >= since);
    FilterCountsIndices(data, (a: Activity) => a.timestamp >= since);
    assert PassingIndices(data, (a: Activity) => a.timestamp >= since) == set i | 0 <= i < |data| && data[i].timestamp >= since;
    |kept|
  }

  /** The `bySeverity` reduce: each severity present, with its number of entries. */
  function SeverityBreakdown(data: seq<Activity>): (m: map<Severity, int>)
    ensures forall s :: s in m <==> exists i :: 0 <= i < |data| && data[i].severity == s
    ensures forall s :: s in m ==> m[s] == multiset(Severities(data))[s]
  {
    var m := Tally(Severities(data));
    assert forall s :: s in Severities(data) <==> exists i :: 0 <= i < |data| && data[i].severity == s by {
      forall s ensures s in Severities(data) <==> exists i :: 0 <= i < |data| && data[i].severity == s {
        if s in Severities(data) {
          var i :| 0 <= i < |Severities(data)| && Severities(data)[i] == s;
        }
        if exists i :: 0 <= i < |data| && data[i].severity == s {
          var i :| 0 <= i < |data| && data[i].severity == s;
          assert Severities(data)[i] == s;
        }
      }
    }
    m
  }

  /** The `byCategory` reduce: each category present, with its number of entries. */
  function CategoryBreakdown(data: seq<Activity>): (m: map<string, int>)
    ensures forall c :: c in m <==> exists i :: 0 <= i < |data| && data[i].category == c
    ensures forall c :: c in m ==> m[c] == multiset(Categories(data))[c]
  {
    var m := Tally(Categories(data));
    assert forall c :: c in Categories(data) <==> exists i :: 0 <= i < |data| && data[i].category == c by {
      forall c ensures c in Categories(data) <==> exists i :: 0 <= i < |data| && data[i].category == c {
        if c in Categories(data) {
          var i :| 0 <= i < |Categories(data)| && Categories(data)[i] == c;
        }
        if exists i :: 0 <= i < |data| && data[i].category == c {
          var i :| 0 <= i < |data| && data[i].category == c;
          assert Categories(data)[i] == c;
        }
      }
    }
    m
  }

  /** `fetchActivityStats` at time `now`; `todayStart` is the local midnight. */
  function FetchActivityStats(data: seq<Activity>, now: int, todayStart: int): (r: Stats)
    ensures r.totalActivities == |data|
    ensures r.todayCount <= r.totalActivities && r.lastHourCount <= r.totalActivities
    ensures r.todayCount == |set i | 0 <= i < |data| && data[i].timestamp >= todayStart|
    ensures r.lastHourCount == |set i | 0 <= i < |data| && data[i].timestamp >= now - 60 * 60 * 1000|
    ensures forall s :: s in r.bySeverity <==> exists i :: 0 <= i < |data| && data[i].severity == s
    ensures forall c :: c in r.byCategory <==> exists i :: 0 <= i < |data| && data[i].category == c
    ensures forall s :: s in r.bySeverity ==> r.bySeverity[s] == multiset(Severities(data))[s]
    ensures forall c :: c in r.byCategory ==> r.byCategory[c] == multiset(Categories(data))[c]
  {
    Stats(
      |data|,
      SeverityBreakdown(data),
      CategoryBreakdown(data),
      CountSince(data, todayStart),
      CountSince(data, now - 60 * 60 * 1000))
  }

  /** Both breakdowns add up to the total. */
  lemma StatsBreakdownsSumToTotal(data: seq<Activity>, now: int, todayStart: int)
    ensures MapSum(FetchActivityStats(data, now, todayStart).bySeverity) == |data|
    ensures MapSum(FetchActivityStats(data, now, todayStart).byCategory) == |data|
  {
    TallySum(Severities(data));
    TallySum(Categories(data));
  }

  /** If the day began at least an hour ago, the last hour is part of today. */
  lemma LastHourWithinToday(data: seq<Activity>, now: int, todayStart: int)
    requires todayStart <= now - 60 * 60 * 1000
    ensures FetchActivityStats(data, now, todayStart).lastHourCount
         <= FetchActivityStats(data, now, todayStart).todayCount
  {
    var oneHourAgo := now - 60 * 60 * 1000;
    FilterMonotone(data, (a: Activity) => a.timestamp >= oneHourAgo, (a: Activity) => a.timestamp >= todayStart);
    FilterCountSubseq(Filter(data, (a: Activity) => a.timestamp >= oneHourAgo),
                      Filter(data, (a: Activity) => a.timestamp >= todayStart), _ => true);
    FilterKeepsAll(Filter(data, (a: Activity) => a.timestamp >= oneHourAgo), _ => true);
    FilterKeepsAll(Filter(data, (a: Activity) => a.timestamp >= todayStart), _ => true);
  }

  // ----- mutations -----

  /** `createActivity`: the caller's fields with a fresh id and the current
      time, placed at the front of the log. */
  function CreateActivity(data: seq<Activity>, fields: Activity, id: string, now: int)
    : (r: (seq<Activity>, Activity))
    ensures r.1.id == id && r.1.timestamp == now
    ensures r.1.(id := fields.id, timestamp := fields.timestamp) == fields
    ensures |r.0| == |data| + 1 && r.0[0] == r.1 && r.0[1..] == data
  {
    var created := fields.(id := id, timestamp := now);
    ([created] + data, created)
  }

  /** `deleteActivity`: drops every entry with the id and reports whether any did. */
  function DeleteActivity(data: seq<Activity>, id: string): (r: (seq<Activity>, bool))
    ensures r.1 <==> exists i :: 0 <= i < |data| && data[i].id == id
    ensures forall i :: 0 <= i < |r.0| ==> r.0[i].id != id
    ensures forall i :: 0 <= i < |data| && data[i].id != id ==> data[i] in r.0
    ensures SubseqOf(r.0, data)
    ensures forall x: Activity :: x.id != id ==> multiset(r.0)[x] == multiset(data)[x]
    ensures !r.1 ==> r.0 == data
  {
    var keep := (a: Activity) => a.id != id;
    var kept := Filter(data, keep);
    FilterKeepsCopies(data, keep);
    FilterShrinksIff(data, keep);
    assert |kept| == |data| ==> kept == data by {
      if |kept| == |data| {
        FilterKeepsAll(data, keep);
      }
    }
    (kept, |kept| < |data|)
  }

  /** `clearOldActivities`: keeps the entries at or after `cutoff` and
      reports how many were removed. */
  function ClearOldActivities(data: seq<Activity>, cutoff: int): (r: (seq<Activity>, int))
    ensures forall i :: 0 <= i < |r.0| ==> r.0[i].timestamp >= cutoff
    ensures forall i :: 0 <= i < |data| && data[i].timestamp >= cutoff ==> data[i] in r.0
    ensures SubseqOf(r.0, data)
    ensures forall x: Activity :: x.timestamp >= cutoff ==> multiset(r.0)[x] == multiset(data)[x]
    ensures r.1 == |Filter(data, (a: Activity) => a.timestamp < cutoff)|
    ensures r.1 >= 0 && r.1 == |data| - |r.0|
  {
    var kept := Filter(data, (a: Activity) => a.timestamp >= cutoff);
    FilterKeepsCopies(data, (a: Activity) => a.timestamp >= cutoff);
    FilterPartition(data, (a: Activity) => a.timestamp >= cutoff, (a: Activity) => a.timestamp < cutoff);
    (kept, |data| - |kept|)
  }

  // ----- the simulated feed -----

  const MaxEntries := 1000

  datatype Template = Template(action: string, description: string, severity: Severity, category: string)

  const Actions: seq<Template> := [
    Template("User login successful", "User logged in from new location", Success, "authentication"),
    Template("Data export completed", "User exported their data", Success, "data"),
    Template("Failed login attempt", "Invalid credentials provided", Error, "security"),
    Template("System alert", "High memory usage detected", Warning, "system"),
    Template("New notification", "User received a new notification", Info, "notifications")
  ]

  const Users: seq<(string, string)> := [
    ("Alex Johnson", "user_001"),
    ("Maria Garcia", "user_002"),
    ("Sophie Williams", "user_004"),
    ("Kenji Tanaka", "user_005"),
    ("Lisa Schmidt", "user_008"),
    ("System", "system")
  ]

  /** The entry `generateRandomActivity` builds; `recordsRoll` and
      `memoryRoll` stand for the two `Math.floor(Math.random() * k)` draws. */
  function RandomActivity(actionChoice: nat, userChoice: nat, recordsRoll: nat, memoryRoll: nat,
                          id: string, now: int): (a: Activity)
    requires actionChoice < |Actions| && userChoice < |Users|
    requires recordsRoll < 1000 && memoryRoll < 30
    ensures a.id == id && a.timestamp == now
    ensures a.category == "data" <==> a.extra.Records?
    ensures a.category == "system" <==> a.extra.MemoryUsage?
    ensures a.extra.Records? ==> 100 <= a.extra.records < 1100
    ensures Template(a.action, a.description, a.severity, a.category) == Actions[actionChoice]
    ensures a.user == Users[userChoice].0 && a.userId == Some(Users[userChoice].1)
    ensures a.extra.MemoryUsage? ==> a.extra.usage == NatToString(memoryRoll + 70) + "%"
    ensures a.extra.MemoryUsage? ==> exists v :: 70 <= v < 100 && a.extra.usage == NatToString(v) + "%"
  {
    var t := Actions[actionChoice];
    var u := Users[userChoice];
    var extra :=
      if t.category == "data" then Records(recordsRoll + 100)
      else if t.category == "system" then MemoryUsage(NatToString(memoryRoll + 70) + "%")
      else NoExtra;
    Activity(id, t.action, t.description, u.0, Some(u.1), now, t.severity, t.category, extra)
  }

  /** Of the five templates only the data export carries a record count and
      only the system alert a memory reading. */
  lemma ExtraByTemplate(actionChoice: nat, userChoice: nat, recordsRoll: nat, memoryRoll: nat,
                        id: string, now: int)
    requires actionChoice < |Actions| && userChoice < |Users|
    requires recordsRoll < 1000 && memoryRoll < 30
    ensures RandomActivity(actionChoice, userChoice, recordsRoll, memoryRoll, id, now).extra.Records? <==> actionChoice == 1
    ensures RandomActivity(actionChoice, userChoice, recordsRoll, memoryRoll, id, now).extra.MemoryUsage? <==> actionChoice == 3
  {
    var a := RandomActivity(actionChoice, userChoice, recordsRoll, memoryRoll, id, now);
    assert a.category == Actions[actionChoice].category;
  }

  /** One simulated update: prepend the new entry, keep the newest 1000. */
  function SimulatedUpdate(data: seq<Activity>, a: Activity): (r: seq<Activity>)
    ensures |r| == Min(|data| + 1, MaxEntries)
    ensures |r| <= MaxEntries
    ensures r[0] == a
    ensures r[1..] <= data
  {
    var grown := [a] + data;
    if |grown| > MaxEntries then grown[..MaxEntries] else grown
  }
}
