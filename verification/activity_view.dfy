/** Helpers of the activity log page: merging live updates into the list on
    screen, the CSV export (with a reader that takes it apart again), the
    compact relative time shown per row and the start date each time range
    asks the store for. */
module ActivityView {
  import opened Common
  import opened ActivityStore
  import opened Format
  import opened Sorting

  // ----- merging live updates -----

  ghost predicate DistinctIds(s: seq<Activity>) {
    forall i, j :: 0 <= i < j < |s| ==> s[i].id != s[j].id
  }

  predicate HasActivityId(s: seq<Activity>, id: string) {
    exists i :: 0 <= i < |s| && s[i].id == id
  }

  function IdsOf(s: seq<Activity>): set<string> {
    set i | 0 <= i < |s| :: s[i].id
  }

  /** The first entry of `s` carrying `id`. */
  function FirstWithId(s: seq<Activity>, id: string): (r: Option<Activity>)
    ensures r.Some? <==> HasActivityId(s, id)
    ensures r.Some? ==> r.value in s && r.value.id == id
    ensures r.Some? ==> exists i :: 0 <= i < |s| && s[i] == r.value && forall j :: 0 <= j < i ==> s[j].id != id
    decreases |s|
  {
    if |s| == 0 then None
    else if s[0].id == id then Some(s[0])
    else
      var r := FirstWithId(s[1..], id);
      assert r.Some? ==> exists i :: 0 <= i < |s| && s[i] == r.value && forall j :: 0 <= j < i ==> s[j].id != id by {
        if r.Some? {
          var i :| 0 <= i < |s[1..]| && s[1..][i] == r.value && forall j :: 0 <= j < i ==> s[1..][j].id != id;
          assert s[i + 1] == r.value;
          forall j | 0 <= j < i + 1 ensures s[j].id != id {
            if j > 0 { assert s[j] == s[1..][j - 1]; }
          }
        }
      }
      assert HasActivityId(s[1..], id) ==> HasActivityId(s, id) by {
        if HasActivityId(s[1..], id) {
          var i :| 0 <= i < |s[1..]| && s[1..][i].id == id;
          assert s[i + 1].id == id;
        }
      }
      assert HasActivityId(s, id) ==> HasActivityId(s[1..], id) by {
        if HasActivityId(s, id) {
          var i :| 0 <= i < |s| && s[i].id == id;
          assert i > 0 && s[1..][i - 1].id == id;
        }
      }
      r
  }

  /** The loop over `combined` with a `seen` set: keep an entry when its id
      has not been seen, skip it otherwise. */
  function Dedup(s: seq<Activity>, seen: set<string>): (r: seq<Activity>)
    ensures forall i :: 0 <= i < |r| ==> r[i].id !in seen
    ensures DistinctIds(r)
    ensures forall i :: 0 <= i < |r| ==> FirstWithId(s, r[i].id) == Some(r[i])
    ensures SubseqOf(r, s)
    decreases |s|
  {
    if |s| == 0 then []
    else if s[0].id in seen then
      var rest := Dedup(s[1..], seen);
      SubseqDropHead(rest, s[1..], s[0]);
      assert [s[0]] + s[1..] == s;
      rest
    else
      var rest := Dedup(s[1..], seen + {s[0].id});
      var r := [s[0]] + rest;
      assert r[1..] == rest;
      assert forall i :: 0 < i < |r| ==> r[i] == rest[i - 1];
      r
  }

  /** Every id that occurs and has not been seen survives. */
  lemma {:induction false} DedupKeepsEveryId(s: seq<Activity>, seen: set<string>, id: string)
    requires HasActivityId(s, id) && id !in seen
    ensures HasActivityId(Dedup(s, seen), id)
    decreases |s|
  {
    var r := Dedup(s, seen);
    if s[0].id == id {
      assert r[0] == s[0];
    } else {
      var i :| 0 <= i < |s| && s[i].id == id;
      assert s[1..][i - 1].id == id;
      var seen' := if s[0].id in seen then seen else seen + {s[0].id};
      DedupKeepsEveryId(s[1..], seen', id);
      var rest := Dedup(s[1..], seen');
      var j :| 0 <= j < |rest| && rest[j].id == id;
      if s[0].id in seen {
        assert r[j].id == id;
      } else {
        assert r[j + 1].id == id;
      }
    }
  }

  lemma IdsOfCons(a: seq<Activity>)
    requires |a| > 0
    ensures IdsOf(a) == {a[0].id} + IdsOf(a[1..])
  {
    forall x | x in IdsOf(a) ensures x in {a[0].id} + IdsOf(a[1..]) {
      var i :| 0 <= i < |a| && a[i].id == x;
      if i > 0 {
        assert a[1..][i - 1].id == x;
      }
    }
    forall x | x in IdsOf(a[1..]) ensures x in IdsOf(a) {
      var i :| 0 <= i < |a[1..]| && a[1..][i].id == x;
      assert a[i + 1].id == x;
    }
  }

  /** De-duplicating a concatenation: the first part's survivors, then the
      second part's entries whose ids the first part did not already use. */
  lemma {:induction false} DedupAppend(a: seq<Activity>, b: seq<Activity>, seen: set<string>)
    ensures Dedup(a + b, seen) == Dedup(a, seen) + Dedup(b, seen + IdsOf(a))
    decreases |a|
  {
    if |a| == 0 {
      assert a + b == b;
      assert IdsOf(a) == {};
      assert seen + IdsOf(a) == seen;
    } else {
      assert (a + b)[0] == a[0];
      assert (a + b)[1..] == a[1..] + b;
      IdsOfCons(a);
      if a[0].id in seen {
        DedupAppend(a[1..], b, seen);
        assert seen + IdsOf(a[1..]) == seen + IdsOf(a);
      } else {
        DedupAppend(a[1..], b, seen + {a[0].id});
        assert seen + {a[0].id} + IdsOf(a[1..]) == seen + IdsOf(a);
      }
    }
  }

  /** The merged list before the limit is applied. */
  function MergeAll(incoming: seq<Activity>, prev: seq<Activity>): seq<Activity> {
    Dedup(incoming + prev, {})
  }

  /** On an id clash the incoming entry wins: the first occurrence of an id
      in `incoming ++ prev` is the first one in `incoming` whenever
      `incoming` carries the id at all. */
  lemma {:induction false} IncomingWins(incoming: seq<Activity>, prev: seq<Activity>, id: string)
    requires HasActivityId(incoming, id)
    ensures FirstWithId(incoming + prev, id) == FirstWithId(incoming, id)
    decreases |incoming|
  {
    assert (incoming + prev)[0] == incoming[0];
    if incoming[0].id != id {
      var i :| 0 <= i < |incoming| && incoming[i].id == id;
      assert incoming[1..][i - 1].id == id;
      IncomingWins(incoming[1..], prev, id);
      assert (incoming + prev)[1..] == incoming[1..] + prev;
    }
  }

  /** The subscription callback's state update: prepend the incoming
      entries, keep the first entry per id, then `slice(0, limit)`. */
  method MergeLive(incoming: seq<Activity>, prev: seq<Activity>, limit: int) returns (r: seq<Activity>)
    ensures r == JsSlice(MergeAll(incoming, prev), 0, limit)
    ensures DistinctIds(r)
    ensures forall i :: 0 <= i < |r| ==> FirstWithId(incoming + prev, r[i].id) == Some(r[i])
    ensures forall i :: 0 <= i < |r| && HasActivityId(incoming, r[i].id) ==>
      Some(r[i]) == FirstWithId(incoming, r[i].id)
    ensures SubseqOf(r, incoming + prev)
    ensures limit >= 0 ==> |r| <= limit
  {
    var merged := DedupLoop(incoming + prev);
    r := JsSlice(merged, 0, limit);
    MergedPrefixFacts(incoming, prev, merged, r);
  }

  /** The `for (const a of combined)` loop with its `seen` set. */
  method DedupLoop(combined: seq<Activity>) returns (merged: seq<Activity>)
    ensures merged == Dedup(combined, {})
  {
    var seen: set<string> := {};
    merged := [];
    var i := 0;
    while i < |combined|
      invariant 0 <= i <= |combined|
      invariant merged + Dedup(combined[i..], seen) == Dedup(combined, {})
    {
      var a := combined[i];
      DedupStep(combined, i, seen);
      if a.id !in seen {
        seen := seen + {a.id};
        merged := merged + [a];
      }
      i := i + 1;
    }
    assert combined[i..] == [];
  }

  /** One turn of the loop. */
  lemma DedupStep(s: seq<Activity>, i: nat, seen: set<string>)
    requires i < |s|
    ensures s[i].id in seen ==> Dedup(s[i..], seen) == Dedup(s[i + 1..], seen)
    ensures s[i].id !in seen ==> Dedup(s[i..], seen) == [s[i]] + Dedup(s[i + 1..], seen + {s[i].id})
  {
    assert s[i..][0] == s[i];
    assert s[i..][1..] == s[i + 1..];
  }

  lemma MergedPrefixFacts(incoming: seq<Activity>, prev: seq<Activity>, merged: seq<Activity>,
                          r: seq<Activity>)
    requires merged == MergeAll(incoming, prev) && r <= merged
    ensures DistinctIds(r)
    ensures forall i :: 0 <= i < |r| ==> FirstWithId(incoming + prev, r[i].id) == Some(r[i])
    ensures forall i :: 0 <= i < |r| && HasActivityId(incoming, r[i].id) ==>
      Some(r[i]) == FirstWithId(incoming, r[i].id)
    ensures SubseqOf(r, incoming + prev)
  {
    assert forall i :: 0 <= i < |r| ==> r[i] == merged[i];
    SubseqPrefix(r, merged, incoming + prev);
    forall i | 0 <= i < |r| && HasActivityId(incoming, r[i].id)
      ensures Some(r[i]) == FirstWithId(incoming, r[i].id)
    {
      IncomingWins(incoming, prev, r[i].id);
    }
  }

  /** Without a binding limit nothing is lost: every id of either list is
      on screen after the merge. */
  lemma MergeKeepsEveryId(incoming: seq<Activity>, prev: seq<Activity>, limit: int, id: string)
    requires limit >= |incoming| + |prev|
    requires HasActivityId(incoming + prev, id)
    ensures HasActivityId(JsSlice(MergeAll(incoming, prev), 0, limit), id)
  {
    var merged := MergeAll(incoming, prev);
    DedupKeepsEveryId(incoming + prev, {}, id);
    SubseqLength(merged, incoming + prev);
    assert JsSlice(merged, 0, limit) == merged;
  }

  lemma {:induction false} SubseqLength<T>(a: seq<T>, b: seq<T>)
    requires SubseqOf(a, b)
    ensures |a| <= |b|
    decreases |b|
  {
    if |a| > 0 {
      if a[0] == b[0] {
        SubseqLength(a[1..], b[1..]);
      } else {
        SubseqLength(a, b[1..]);
      }
    }
  }

  /** The merged list is the incoming survivors followed by the previous
      entries whose ids were not among the incoming ones. */
  lemma MergeIsIncomingThenRest(incoming: seq<Activity>, prev: seq<Activity>)
    ensures MergeAll(incoming, prev) == Dedup(incoming, {}) + Dedup(prev, IdsOf(incoming))
  {
    DedupAppend(incoming, prev, {});
    assert {} + IdsOf(incoming) == IdsOf(incoming);
  }

  // ----- CSV export (RFC 4180, section 2) -----

  /** A cell is quoted when it contains a comma, a double quote or a line feed. */
  predicate NeedsQuoting(cell: string) {
    ',' in cell || '"' in cell || '\n' in cell
  }

  /** `replace(/"/g, '""')`. */
  function DoubleQuotes(s: string): (r: string)
    ensures |r| == |s| + CountChar(s, '"')
    decreases |s|
  {
    if |s| == 0 then ""
    else (if s[0] == '"' then "\"\"" else [s[0]]) + DoubleQuotes(s[1..])
  }

  /** The escaping applied to every cell. */
  function EscapeCell(cell: string): (r: string)
    ensures !NeedsQuoting(cell) <==> r == cell
    ensures NeedsQuoting(cell) ==>
      |r| == |cell| + CountChar(cell, '"') + 2 && r[0] == '"' && r[|r| - 1] == '"'
  {
    if NeedsQuoting(cell) then "\"" + DoubleQuotes(cell) + "\"" else cell
  }

  /** `row.map(escape).join(",")`. */
  function CsvRow(cells: seq<string>): string {
    Join(seq(|cells|, i requires 0 <= i < |cells| => EscapeCell(cells[i])), ",")
  }

  /** `rows.map(CsvRow).join("\n")`. */
  function CsvText(rows: seq<seq<string>>): string {
    Join(seq(|rows|, i requires 0 <= i < |rows| => CsvRow(rows[i])), "\n")
  }

  const CsvHeader: seq<string> := ["Time", "Action", "User", "Severity", "Category", "Description"]

  /** One exported row; `localeTime` stands for `toLocaleString` of the
      entry's timestamp. */
  function ActivityCells(a: Activity, localeTime: int -> string): (cells: seq<string>)
    ensures |cells| == |CsvHeader|
    ensures cells[0] == localeTime(a.timestamp) && cells[1] == a.action && cells[2] == a.user
    ensures cells[3] == SeverityName(a.severity) && cells[4] == a.category && cells[5] == a.description
  {
    [localeTime(a.timestamp), a.action, a.user, SeverityName(a.severity), a.category, a.description]
  }

  function ExportRows(activities: seq<Activity>, localeTime: int -> string): seq<seq<string>> {
    [CsvHeader] + seq(|activities|, i requires 0 <= i < |activities| => ActivityCells(activities[i], localeTime))
  }

  /** `handleExport`'s file contents. */
  function ExportCsv(activities: seq<Activity>, localeTime: int -> string): string {
    CsvText(ExportRows(activities, localeTime))
  }

  // ----- a reader for the exported text -----

  /** The body of a quoted field after its opening quote: `""` stands for
      one quote, a lone `"` closes the field. None when unterminated. */
  function QuotedBody(s: string): (r: Option<(string, string)>)
    ensures r.Some? ==> |r.value.1| < |s|
    decreases |s|
  {
    if |s| == 0 then None
    else if s[0] == '"' then
      if |s| > 1 && s[1] == '"' then
        match QuotedBody(s[2..])
        case None => None
        case Some((body, rest)) => Some(("\"" + body, rest))
      else Some(("", s[1..]))
    else
      match QuotedBody(s[1..])
      case None => None
      case Some((body, rest)) => Some(([s[0]] + body, rest))
  }

  /** An unquoted field runs up to the next comma or line feed. */
  function Unquoted(s: string): (r: (string, string))
    ensures r.0 + r.1 == s
    decreases |s|
  {
    if |s| == 0 || s[0] == ',' || s[0] == '\n' then ("", s)
    else
      var (field, rest) := Unquoted(s[1..]);
      ([s[0]] + field, rest)
  }

  function ParseField(s: string): (r: Option<(string, string)>)
    ensures r.Some? ==> |r.value.1| <= |s|
  {
    if |s| > 0 && s[0] == '"' then QuotedBody(s[1..]) else Some(Unquoted(s))
  }

  /** One record: its fields and, when a line feed ended it, the text after. */
  function ParseRecord(s: string): (r: Option<(seq<string>, Option<string>)>)
    ensures r.Some? && r.value.1.Some? ==> |r.value.1.value| < |s|
    decreases |s|
  {
    match ParseField(s)
    case None => None
    case Some((field, rest)) =>
      if |rest| == 0 then Some(([field], None))
      else if rest[0] == '\n' then Some(([field], Some(rest[1..])))
      else if rest[0] == ',' then
        match ParseRecord(rest[1..])
        case None => None
        case Some((fields, next)) => Some(([field] + fields, next))
      else None
  }

  function ParseCsv(s: string): (r: Option<seq<seq<string>>>)
    decreases |s|
  {
    match ParseRecord(s)
    case None => None
    case Some((fields, None)) => Some([fields])
    case Some((fields, Some(rest))) =>
      match ParseCsv(rest)
      case None => None
      case Some(records) => Some([fields] + records)
  }

  /** What may follow a field: the end, a comma or a line feed. */
  predicate FieldEnd(t: string) {
    |t| == 0 || t[0] == ',' || t[0] == '\n'
  }

  lemma {:induction false} UnquotedOf(c: string, t: string)
    requires ',' !in c && '\n' !in c && FieldEnd(t)
    ensures Unquoted(c + t) == (c, t)
    decreases |c|
  {
    if |c| == 0 {
      assert c + t == t;
    } else {
      assert (c + t)[0] == c[0];
      assert (c + t)[1..] == c[1..] + t;
      assert c[1..] + t == (c + t)[1..];
      UnquotedOf(c[1..], t);
      assert [c[0]] + c[1..] == c;
    }
  }

  lemma {:induction false} QuotedBodyOf(c: string, t: string)
    requires |t| == 0 || t[0] != '"'
    ensures QuotedBody(DoubleQuotes(c) + "\"" + t) == Some((c, t))
    decreases |c|
  {
    var s := DoubleQuotes(c) + "\"" + t;
    if |c| == 0 {
      assert s == "\"" + t;
      assert s[1..] == t;
    } else {
      var d := DoubleQuotes(c[1..]);
      assert [c[0]] + c[1..] == c;
      if c[0] == '"' {
        assert s == "\"\"" + (d + "\"" + t);
        assert s[2..] == d + "\"" + t;
        QuotedBodyOf(c[1..], t);
      } else {
        assert s == [c[0]] + (d + "\"" + t);
        assert s[1..] == d + "\"" + t;
        QuotedBodyOf(c[1..], t);
      }
    }
  }

  /** Reading an escaped cell back yields the cell (rule 7 of the RFC's
      section 2: a quote inside a quoted field is written twice). */
  lemma FieldOf(c: string, t: string)
    requires FieldEnd(t)
    ensures ParseField(EscapeCell(c) + t) == Some((c, t))
  {
    if NeedsQuoting(c) {
      var s := "\"" + DoubleQuotes(c) + "\"" + t;
      assert s[1..] == DoubleQuotes(c) + "\"" + t;
      QuotedBodyOf(c, t);
    } else {
      if |c| > 0 {
        assert c[0] in c;
        assert (c + t)[0] == c[0];
      } else {
        assert c + t == t;
      }
      UnquotedOf(c, t);
    }
  }

  lemma EscapeCellRoundTrip(c: string)
    ensures ParseField(EscapeCell(c)) == Some((c, ""))
  {
    FieldOf(c, "");
    assert EscapeCell(c) + "" == EscapeCell(c);
  }

  lemma CsvRowCons(cells: seq<string>)
    requires |cells| > 1
    ensures CsvRow(cells) == EscapeCell(cells[0]) + "," + CsvRow(cells[1..])
  {
    var escaped := seq(|cells|, i requires 0 <= i < |cells| => EscapeCell(cells[i]));
    assert escaped[1..] == seq(|cells[1..]|, i requires 0 <= i < |cells[1..]| => EscapeCell(cells[1..][i]));
  }

  /** A field followed by a comma parses as that field in front of the
      record the rest of the text holds. */
  lemma RecordCons(c: string, rest: string)
    ensures ParseRecord(EscapeCell(c) + "," + rest) ==
      match ParseRecord(rest)
      case None => None
      case Some((fields, next)) => Some(([c] + fields, next))
  {
    var after := "," + rest;
    assert EscapeCell(c) + "," + rest == EscapeCell(c) + after;
    FieldOf(c, after);
    assert after[1..] == rest;
  }

  lemma CsvRowSingle(cells: seq<string>)
    requires |cells| == 1
    ensures CsvRow(cells) == EscapeCell(cells[0])
  {
  }

  lemma {:induction false} RecordOf(cells: seq<string>, t: string)
    requires |cells| > 0
    requires |t| == 0 || t[0] == '\n'
    ensures ParseRecord(CsvRow(cells) + t) == Some((cells, if |t| == 0 then None else Some(t[1..])))
    decreases |cells|
  {
    if |cells| == 1 {
      CsvRowSingle(cells);
      FieldOf(cells[0], t);
      assert [cells[0]] == cells;
    } else {
      CsvRowCons(cells);
      assert CsvRow(cells) + t == EscapeCell(cells[0]) + "," + (CsvRow(cells[1..]) + t);
      RecordCons(cells[0], CsvRow(cells[1..]) + t);
      RecordOf(cells[1..], t);
      assert [cells[0]] + cells[1..] == cells;
    }
  }

  /** The exported text reads back as exactly the rows written. */
  lemma {:induction false} CsvRoundTrip(rows: seq<seq<string>>)
    requires |rows| > 0
    requires forall i :: 0 <= i < |rows| ==> |rows[i]| > 0
    ensures ParseCsv(CsvText(rows)) == Some(rows)
    decreases |rows|
  {
    var lines := seq(|rows|, i requires 0 <= i < |rows| => CsvRow(rows[i]));
    if |rows| == 1 {
      assert CsvText(rows) == CsvRow(rows[0]) + "";
      RecordOf(rows[0], "");
      assert [rows[0]] == rows;
    } else {
      var tail := CsvText(rows[1..]);
      assert lines[1..] == seq(|rows[1..]|, i requires 0 <= i < |rows[1..]| => CsvRow(rows[1..][i]));
      assert CsvText(rows) == CsvRow(rows[0]) + ("\n" + tail);
      RecordOf(rows[0], "\n" + tail);
      assert ("\n" + tail)[1..] == tail;
      CsvRoundTrip(rows[1..]);
      assert [rows[0]] + rows[1..] == rows;
    }
  }

  /** The export parses back to the header followed by one six-field record
      per entry, in list order. */
  lemma ExportParsesBack(activities: seq<Activity>, localeTime: int -> string)
    ensures ParseCsv(ExportCsv(activities, localeTime)) == Some(ExportRows(activities, localeTime))
    ensures |ExportRows(activities, localeTime)| == |activities| + 1
    ensures ExportRows(activities, localeTime)[0] == CsvHeader
    ensures forall i :: 0 <= i < |activities| + 1 ==> |ExportRows(activities, localeTime)[i]| == 6
  {
    var rows := ExportRows(activities, localeTime);
    assert forall i :: 0 < i < |rows| ==> rows[i] == ActivityCells(activities[i - 1], localeTime);
    CsvRoundTrip(rows);
  }

  // ----- the per-row relative time -----

  /** `formatTime` of the activity list, given `now - timestamp` in ms. */
  function FormatTime(diffMs: int): (r: TimeText)
    ensures diffMs < MinuteMs ==> r == Relative("Just now")
    ensures MinuteMs <= diffMs < HourMs ==> r == Relative(NatToString(diffMs / MinuteMs) + "m ago")
    ensures HourMs <= diffMs < DayMs ==> r == Relative(NatToString(diffMs / HourMs) + "h ago")
    ensures diffMs >= DayMs ==> r == Absolute
  {
    var diffMins := diffMs / 60000;
    assert diffMins / 60 == diffMs / HourMs;
    if diffMins < 1 then Relative("Just now")
    else if diffMins < 60 then Relative(NatToString(diffMins) + "m ago")
    else
      var diffHours := diffMins / 60;
      if diffHours < 24 then Relative(NatToString(diffHours) + "h ago")
      else Absolute
  }

  /** From one minute up to a day, the row label agrees with the shared
      `formatTimeAgo`; below a minute it says "Just now" where the shared
      helper would already count seconds. */
  lemma FormatTimeMatchesTimeAgo(diffMs: int)
    ensures MinuteMs <= diffMs < DayMs ==> FormatTime(diffMs) == FormatTimeAgo(diffMs)
    ensures 5 * SecondMs <= diffMs < MinuteMs ==> FormatTime(diffMs) != FormatTimeAgo(diffMs)
  {
    if 5 * SecondMs <= diffMs < MinuteMs {
      var t := NatToString(diffMs / SecondMs) + "s ago";
      assert t[|t| - 1] == 'o' && "Just now"[|"Just now"| - 1] == 'w';
    }
  }

  // ----- the time range of a load -----

  datatype TimeRange = Today | Week | Month | AllTime

  /** The range select's value; anything unknown behaves like "all". */
  function ParseRange(value: string): (r: TimeRange)
    ensures r == Today <==> value == "today"
    ensures r == Week <==> value == "week"
    ensures r == Month <==> value == "month"
  {
    if value == "today" then Today
    else if value == "week" then Week
    else if value == "month" then Month
    else AllTime
  }

  /** The `startDate` passed to the store. `todayStart` (local midnight) and
      `monthAgo` (the same local date one month back) are calendar
      computations supplied by the caller. */
  function StartDate(range: TimeRange, now: int, todayStart: int, monthAgo: int): (r: Option<int>)
    ensures r.None? <==> range == AllTime
    ensures range == Week ==> r == Some(now - 7 * DayMs)
    ensures range == Today ==> r == Some(todayStart)
    ensures range == Month ==> r == Some(monthAgo)
  {
    match range
    case Today => Some(todayStart)
    case Week => Some(now - 7 * 24 * 60 * 60 * 1000)
    case Month => Some(monthAgo)
    case AllTime => None
  }

  /** The query `loadData` sends: selected filters (empty means none), the
      range's start date, newest first. */
  function LoadQuery(limit: int, severity: string, category: string, range: TimeRange,
                     now: int, todayStart: int, monthAgo: int): (q: Query)
    ensures q.order == Some(Desc) && q.endDate.None? && q.userId == ""
    ensures q.startDate == StartDate(range, now, todayStart, monthAgo)
  {
    Query(Some(limit), severity, category, "", StartDate(range, now, todayStart, monthAgo), None, Some(Desc))
  }

  /** A loaded page never shows an entry older than the range's start, and
      is newest first. */
  lemma LoadRespectsRange(data: seq<Activity>, limit: int, severity: string, category: string,
                          range: TimeRange, now: int, todayStart: int, monthAgo: int)
    ensures var q := LoadQuery(limit, severity, category, range, now, todayStart, monthAgo);
      var r := FetchActivities(data, q);
      && (forall i :: 0 <= i < |r| && range != AllTime ==>
            r[i].timestamp >= StartDate(range, now, todayStart, monthAgo).value)
      && (forall i, j :: 0 <= i < j < |r| ==> r[i].timestamp >= r[j].timestamp)
  {
    var q := LoadQuery(limit, severity, category, range, now, todayStart, monthAgo);
    var r := FetchActivities(data, q);
    assert forall i :: 0 <= i < |r| ==> Matches(q, r[i]);
    assert Sorted(r, Timestamp, Desc);
  }
}
