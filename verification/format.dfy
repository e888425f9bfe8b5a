/** Text helpers: relative "time ago" labels over an elapsed time in
    milliseconds, truncation with an ellipsis, capitalisation and thousands
    separators. Locale-dependent date formatting is represented by the
    `Absolute` label and not modelled further. */
module Format {
  import opened Common

  /** A relative label, or a hand-off to locale date/time formatting. */
  datatype TimeText = Relative(text: string) | Absolute

  /** `formatTimeAgo`, given `now - date` in milliseconds. */
  function FormatTimeAgo(elapsedMs: int): (r: TimeText)
    ensures elapsedMs < 5 * SecondMs ==> r == Relative("Just now")
    ensures 5 * SecondMs <= elapsedMs < MinuteMs ==>
      r == Relative(NatToString(elapsedMs / SecondMs) + "s ago")
    ensures MinuteMs <= elapsedMs < HourMs ==>
      r == Relative(NatToString(elapsedMs / MinuteMs) + "m ago")
    ensures HourMs <= elapsedMs < DayMs ==>
      r == Relative(NatToString(elapsedMs / HourMs) + "h ago")
    ensures DayMs <= elapsedMs < 2 * DayMs ==> r == Relative("Yesterday")
    ensures 2 * DayMs <= elapsedMs < 7 * DayMs ==>
      r == Relative(NatToString(elapsedMs / DayMs) + "d ago")
    ensures elapsedMs >= 7 * DayMs ==> r == Absolute
  {
    var seconds := elapsedMs / 1000;
    assert seconds / 60 == elapsedMs / MinuteMs;
    assert (elapsedMs / MinuteMs) / 60 == elapsedMs / HourMs;
    assert (elapsedMs / HourMs) / 24 == elapsedMs / DayMs;
    if seconds < 5 then Relative("Just now")
    else if seconds < 60 then Relative(NatToString(seconds) + "s ago")
    else
      var minutes := seconds / 60;
      if minutes < 60 then Relative(NatToString(minutes) + "m ago")
      else
        var hours := minutes / 60;
        if hours < 24 then Relative(NatToString(hours) + "h ago")
        else
          var days := hours / 24;
          if days == 1 then Relative("Yesterday")
          else if days < 7 then Relative(NatToString(days) + "d ago")
          else Absolute
  }

  /** Reads a "<n><unit> ago" label back as the count and the unit's length
      in milliseconds. */
  function ParseAgo(text: string): Option<(nat, nat)> {
    if |text| < 6 || text[|text| - 4..] != " ago" then None
    else
      var digits := text[..|text| - 5];
      var unit := text[|text| - 5];
      var unitMs :=
        if unit == 's' then SecondMs else if unit == 'm' then MinuteMs
        else if unit == 'h' then HourMs else if unit == 'd' then DayMs else 0;
      if unitMs == 0 || !AllDigits(digits) then None
      else Some((DigitsValue(digits), unitMs))
  }

  lemma ParseAgoOf(n: nat, unit: char, unitMs: nat)
    requires (unit, unitMs) in {('s', SecondMs), ('m', MinuteMs), ('h', HourMs), ('d', DayMs)}
    ensures ParseAgo(NatToString(n) + [unit] + " ago") == Some((n, unitMs))
  {
    var t := NatToString(n) + [unit] + " ago";
    assert t[|t| - 4..] == " ago";
    assert t[..|t| - 5] == NatToString(n);
    assert t[|t| - 5] == unit;
    NatToStringRoundTrip(n);
  }

  /** Every numeric label is truthful: read back, it names the unit and
      the whole number of those units in the elapsed time. */
  lemma TimeAgoLabelIsAccurate(elapsedMs: int)
    requires 5 * SecondMs <= elapsedMs < 7 * DayMs
    requires !(DayMs <= elapsedMs < 2 * DayMs)
    ensures FormatTimeAgo(elapsedMs).Relative?
    ensures var p := ParseAgo(FormatTimeAgo(elapsedMs).text);
      && p.Some? && p.value.1 > 0
      && p.value.0 == elapsedMs / p.value.1
      && p.value.1 == (if elapsedMs < MinuteMs then SecondMs
                       else if elapsedMs < HourMs then MinuteMs
                       else if elapsedMs < DayMs then HourMs
                       else DayMs)
  {
    if elapsedMs < MinuteMs {
      var n := elapsedMs / SecondMs;
      assert NatToString(n) + "s ago" == NatToString(n) + ['s'] + " ago";
      ParseAgoOf(n, 's', SecondMs);
    } else if elapsedMs < HourMs {
      var n := elapsedMs / MinuteMs;
      assert NatToString(n) + "m ago" == NatToString(n) + ['m'] + " ago";
      ParseAgoOf(n, 'm', MinuteMs);
    } else if elapsedMs < DayMs {
      var n := elapsedMs / HourMs;
      assert NatToString(n) + "h ago" == NatToString(n) + ['h'] + " ago";
      ParseAgoOf(n, 'h', HourMs);
    } else {
      var n := elapsedMs / DayMs;
      assert NatToString(n) + "d ago" == NatToString(n) + ['d'] + " ago";
      ParseAgoOf(n, 'd', DayMs);
    }
  }

  /** `truncateText(text, max)`. */
  function TruncateText(text: string, max: int): (r: string)
    ensures |text| <= max ==> r == text
    ensures |text| > max ==> |r| >= 3 && r[|r| - 3..] == "..." && r[..|r| - 3] <= text
    ensures 0 <= max < |text| ==> |r| == max + 3 && r[..max] == text[..max]
    ensures max < 0 ==> r == text[..Max(|text| + max, 0)] + "..."
  {
    if |text| <= max then text else JsSlice(text, 0, max) + "..."
  }

  /** `capitalize(str)` (ASCII letters only). */
  function Capitalize(str: string): (r: string)
    ensures |r| == |str|
    ensures |str| > 0 ==> r[0] == ToUpperChar(str[0]) && r[1..] == str[1..]
  {
    if |str| == 0 then "" else [ToUpperChar(str[0])] + str[1..]
  }

  lemma CapitalizeIdempotent(str: string)
    ensures Capitalize(Capitalize(str)) == Capitalize(str)
  {
    if |str| > 0 {
      var c := str[0];
      assert ToUpperChar(ToUpperChar(c)) == ToUpperChar(c);
    }
  }

  // ----- thousands separators -----

  predicate NotComma(c: char) { c != ',' }

  function RemoveCommas(s: string): string {
    Filter(s, NotComma)
  }

  /** Commas stand exactly at every fourth position counted from the end,
      so the first group has one to three digits and every later group three. */
  ghost predicate WellGrouped(r: string) {
    && |r| % 4 != 0
    && forall i :: 0 <= i < |r| ==> (r[i] == ',' <==> (|r| - i) % 4 == 0)
  }

  /** The effect of `replace(/\B(?=(\d{3})+(?!\d))/g, ",")` on a run of
      digits: a comma before every complete group of three counted from the
      right, except at the very start. */
  function GroupThousands(d: string): string
    decreases |d|
  {
    if |d| <= 3 then d else GroupThousands(d[..|d| - 3]) + "," + d[|d| - 3..]
  }

  lemma {:induction false} GroupThousandsWellGrouped(d: string)
    requires |d| > 0 && AllDigits(d)
    ensures WellGrouped(GroupThousands(d))
    decreases |d|
  {
    var r := GroupThousands(d);
    if |d| <= 3 {
      forall i | 0 <= i < |r|
        ensures r[i] == ',' <==> (|r| - i) % 4 == 0
      {
        assert IsDigit(d[i]);
      }
    } else {
      var head := d[..|d| - 3];
      var tail := d[|d| - 3..];
      var front := GroupThousands(head);
      GroupThousandsWellGrouped(head);
      assert r == front + "," + tail;
      forall i | 0 <= i < |r|
        ensures r[i] == ',' <==> (|r| - i) % 4 == 0
      {
        if i < |front| {
          assert r[i] == front[i];
          assert |r| - i == (|front| - i) + 4;
        } else if i > |front| {
          assert r[i] == tail[i - |front| - 1] == d[|d| - 3 + (i - |front| - 1)];
        }
      }
    }
  }

  lemma CommaFreeKept(d: string)
    requires AllDigits(d)
    ensures RemoveCommas(d) == d
  {
    assert forall i :: 0 <= i < |d| ==> NotComma(d[i]) by {
      forall i | 0 <= i < |d| ensures NotComma(d[i]) {
        assert IsDigit(d[i]);
      }
    }
    FilterKeepsAll(d, NotComma);
  }

  lemma RemoveCommasAround(front: string, tail: string)
    requires AllDigits(tail)
    ensures RemoveCommas(front + "," + tail) == RemoveCommas(front) + tail
  {
    var withComma := front + ",";
    assert RemoveCommas(withComma) == RemoveCommas(front) by {
      FilterAppend(front, ",", NotComma);
      assert Filter(","[1..], NotComma) == [];
    }
    assert RemoveCommas(withComma + tail) == RemoveCommas(withComma) + RemoveCommas(tail) by {
      FilterAppend(withComma, tail, NotComma);
    }
    CommaFreeKept(tail);
  }

  lemma {:induction false} GroupThousandsKeepsDigits(d: string)
    requires AllDigits(d)
    ensures RemoveCommas(GroupThousands(d)) == d
    decreases |d|
  {
    if |d| <= 3 {
      assert forall i :: 0 <= i < |d| ==> NotComma(d[i]) by {
        forall i | 0 <= i < |d| ensures NotComma(d[i]) {
          assert IsDigit(d[i]);
        }
      }
      FilterKeepsAll(d, NotComma);
    } else {
      var head := d[..|d| - 3];
      var tail := d[|d| - 3..];
      var front := GroupThousands(head);
      assert AllDigits(head) by {
        forall i | 0 <= i < |head| ensures IsDigit(head[i]) {
          assert head[i] == d[i];
        }
      }
      assert AllDigits(tail) by {
        forall i | 0 <= i < |tail| ensures IsDigit(tail[i]) {
          assert tail[i] == d[|d| - 3 + i];
        }
      }
      GroupThousandsKeepsDigits(head);
      RemoveCommasAround(front, tail);
      assert d == head + tail;
    }
  }

  /** `numberWithCommas(value)` for an integer value. */
  function NumberWithCommas(value: int): (r: string)
    ensures RemoveCommas(r) == IntToString(value)
    ensures value >= 0 ==> WellGrouped(r)
    ensures value < 0 ==> |r| > 0 && r[0] == '-' && WellGrouped(r[1..])
  {
    var digits := NatToString(if value < 0 then -value else value);
    GroupThousandsWellGrouped(digits);
    GroupThousandsKeepsDigits(digits);
    if value < 0 then
      var r := "-" + GroupThousands(digits);
      FilterAppend("-", GroupThousands(digits), NotComma);
      assert r[1..] == GroupThousands(digits);
      r
    else GroupThousands(digits)
  }

  lemma TwelveThousand()
    ensures NumberWithCommas(12000) == "12,000"
  {
    assert NatToString(12) == "12";
    assert NatToString(120) == "120";
    assert NatToString(1200) == "1200";
    assert NatToString(12000) == "12000";
    assert "12000"[..2] == "12";
    assert GroupThousands("12000") == "12,000";
  }
}
