/** The users page: the CSV writer whose cells are JSON strings, the
    active/inactive totals, the bulk toggle, invitations and the demo seed.
    Ids, the clock and the random "active" draw are parameters. */
module UsersPage {
  import opened Common
  import opened UserTable

  // ----- JSON string encoding (RFC 8259, section 7) -----

  /** No control character (below U+0020) occurs. */
  predicate NoControl(s: string) {
    forall i :: 0 <= i < |s| ==> s[i] >= ' '
  }

  function HexDigit(d: nat): (c: char)
    requires d < 16
    ensures c >= ' '
  {
    if d < 10 then ('0' as int + d) as char else ('a' as int + d - 10) as char
  }

  function HexValue(c: char): (r: Option<nat>)
    ensures r.Some? ==> r.value < 16
  {
    if '0' <= c <= '9' then Some(c as int - '0' as int)
    else if 'a' <= c <= 'f' then Some(c as int - 'a' as int + 10)
    else if 'A' <= c <= 'F' then Some(c as int - 'A' as int + 10)
    else None
  }

  lemma HexRoundTrip(d: nat)
    requires d < 16
    ensures HexValue(HexDigit(d)) == Some(d)
  {
  }

  /** How `JSON.stringify` writes one character of a string. */
  function EscapeJsonChar(c: char): (r: string)
    ensures NoControl(r) && |r| >= 1
    ensures c >= ' ' && c != '"' && c != '\\' ==> r == [c]
  {
    if c == '"' then "\\\""
    else if c == '\\' then "\\\\"
    else if c == '\U{8}' then "\\b"
    else if c == '\t' then "\\t"
    else if c == '\n' then "\\n"
    else if c == '\U{C}' then "\\f"
    else if c == '\r' then "\\r"
    else if c < ' ' then "\\u00" + [HexDigit(c as int / 16), HexDigit(c as int % 16)]
    else [c]
  }

  function EscapeJson(s: string): (r: string)
    ensures NoControl(r)
    decreases |s|
  {
    if |s| == 0 then ""
    else
      var head := EscapeJsonChar(s[0]);
      var tail := EscapeJson(s[1..]);
      assert forall i :: |head| <= i < |head + tail| ==> (head + tail)[i] == tail[i - |head|];
      head + tail
  }

  /** `JSON.stringify(s)` for a string `s`. */
  function JsonString(s: string): (r: string)
    ensures NoControl(r)
    ensures |r| >= 2 && r[0] == '"' && r[|r| - 1] == '"'
  {
    var body := EscapeJson(s);
    var r := "\"" + body + "\"";
    assert forall i :: 1 <= i < |r| - 1 ==> r[i] == body[i - 1];
    r
  }

  // ----- reading a JSON string back -----

  function Prepend(c: char, rest: Option<string>): Option<string> {
    match rest
    case None => None
    case Some(t) => Some([c] + t)
  }

  /** The single-character escapes of the RFC. */
  function ShortEscape(e: char): Option<char> {
    if e == '"' then Some('"')
    else if e == '\\' then Some('\\')
    else if e == '/' then Some('/')
    else if e == 'b' then Some('\U{8}')
    else if e == 'f' then Some('\U{C}')
    else if e == 'n' then Some('\n')
    else if e == 'r' then Some('\r')
    else if e == 't' then Some('\t')
    else None
  }

  function HexQuad(h: string): Option<nat>
    requires |h| == 4
  {
    match (HexValue(h[0]), HexValue(h[1]), HexValue(h[2]), HexValue(h[3]))
    case (Some(a), Some(b), Some(c), Some(d)) => Some(((a * 16 + b) * 16 + c) * 16 + d)
    case _ => None
  }

  /** The body of a JSON string, escapes resolved; None when malformed
      (a raw quote or control character, or a bad escape). */
  function UnescapeJson(s: string): Option<string>
    decreases |s|
  {
    if |s| == 0 then Some("")
    else if s[0] == '"' || s[0] < ' ' then None
    else if s[0] != '\\' then Prepend(s[0], UnescapeJson(s[1..]))
    else if |s| < 2 then None
    else if s[1] == 'u' then
      if |s| < 6 then None
      else
        match HexQuad(s[2..6])
        case None => None
        case Some(v) =>
          if v < 0xD800 || 0xE000 <= v then Prepend(v as char, UnescapeJson(s[6..])) else None
    else
      match ShortEscape(s[1])
      case None => None
      case Some(c) => Prepend(c, UnescapeJson(s[2..]))
  }

  function ParseJsonString(t: string): Option<string> {
    if |t| >= 2 && t[0] == '"' && t[|t| - 1] == '"' then UnescapeJson(t[1..|t| - 1]) else None
  }

  /** The four hex digits of a control character read back as its code. */
  lemma ControlQuad(c: char)
    requires c < ' '
    ensures HexQuad(['0', '0', HexDigit(c as int / 16), HexDigit(c as int % 16)]) == Some(c as int)
  {
    HexRoundTrip(c as int / 16);
    HexRoundTrip(c as int % 16);
  }

  lemma ControlStep(c: char, t: string)
    requires c < ' '
    ensures UnescapeJson("\\u00" + [HexDigit(c as int / 16), HexDigit(c as int % 16)] + t)
         == Prepend(c, UnescapeJson(t))
  {
    var quad := ['0', '0', HexDigit(c as int / 16), HexDigit(c as int % 16)];
    var s := "\\u00" + [HexDigit(c as int / 16), HexDigit(c as int % 16)] + t;
    assert s == "\\u" + quad + t;
    assert s[2..6] == quad;
    assert s[6..] == t;
    ControlQuad(c);
  }

  lemma UnescapeCharStep(c: char, t: string)
    ensures UnescapeJson(EscapeJsonChar(c) + t) == Prepend(c, UnescapeJson(t))
  {
    var s := EscapeJsonChar(c) + t;
    if c == '"' || c == '\\' || c == '\U{8}' || c == '\t' || c == '\n' || c == '\U{C}' || c == '\r' {
      assert s[2..] == t;
    } else if c < ' ' {
      ControlStep(c, t);
    } else {
      assert s[1..] == t;
    }
  }

  lemma {:induction false} UnescapeEscape(s: string)
    ensures UnescapeJson(EscapeJson(s)) == Some(s)
    decreases |s|
  {
    if |s| > 0 {
      UnescapeEscape(s[1..]);
      UnescapeCharStep(s[0], EscapeJson(s[1..]));
      assert [s[0]] + s[1..] == s;
    }
  }

  /** A JSON-encoded cell reads back as the original text. */
  lemma JsonStringRoundTrip(s: string)
    ensures ParseJsonString(JsonString(s)) == Some(s)
  {
    var r := JsonString(s);
    assert r[1..|r| - 1] == EscapeJson(s);
    UnescapeEscape(s);
  }

  // ----- toCSV -----

  /** An object with string values, keys in insertion order. */
  type Row = seq<(string, string)>

  function RowKeys(row: Row): seq<string> {
    seq(|row|, i requires 0 <= i < |row| => row[i].0)
  }

  /** `r[k] ?? ""`. */
  function Get(row: Row, k: string): string
    decreases |row|
  {
    if |row| == 0 then "" else if row[0].0 == k then row[0].1 else Get(row[1..], k)
  }

  /** `Get` reads the first pair with the key. */
  lemma {:induction false} GetFirst(row: Row, i: nat, k: string)
    requires i < |row| && row[i].0 == k
    requires forall j :: 0 <= j < i ==> row[j].0 != k
    ensures Get(row, k) == row[i].1
    decreases i
  {
    if i > 0 {
      GetFirst(row[1..], i - 1, k);
    }
  }

  function CsvLine(row: Row, keys: seq<string>): string {
    Join(seq(|keys|, j requires 0 <= j < |keys| => JsonString(Get(row, keys[j]))), ",")
  }

  /** `toCSV(rows)`: the first row's keys as header, then one line per row. */
  function ToCsv(rows: seq<Row>): (r: string)
    ensures r == "" <==> |rows| == 0
  {
    if |rows| == 0 then ""
    else
      var keys := RowKeys(rows[0]);
      var lines := seq(|rows|, i requires 0 <= i < |rows| => CsvLine(rows[i], keys));
      var all := [Join(keys, ",")] + lines;
      assert Join(all, "\n") == all[0] + "\n" + Join(all[1..], "\n");
      Join(all, "\n")
  }

  /** Split at line feeds, the text is the header followed by one line per
      row: JSON encoding keeps line feeds out of the cells. */
  lemma ToCsvLines(rows: seq<Row>)
    requires |rows| > 0
    requires forall i :: 0 <= i < |rows[0]| ==> '\n' !in rows[0][i].0
    ensures var keys := RowKeys(rows[0]);
      SplitOn(ToCsv(rows), '\n') ==
        [Join(keys, ",")] + seq(|rows|, i requires 0 <= i < |rows| => CsvLine(rows[i], keys))
    ensures |SplitOn(ToCsv(rows), '\n')| == |rows| + 1
  {
    var keys := RowKeys(rows[0]);
    var lines := seq(|rows|, i requires 0 <= i < |rows| => CsvLine(rows[i], keys));
    var all := [Join(keys, ",")] + lines;
    JoinAvoids(keys, ",", '\n');
    forall i | 0 <= i < |rows|
      ensures '\n' !in lines[i]
    {
      var cells := seq(|keys|, j requires 0 <= j < |keys| => JsonString(Get(rows[i], keys[j])));
      forall j | 0 <= j < |cells| ensures '\n' !in cells[j] {
        assert NoControl(cells[j]);
      }
      JoinAvoids(cells, ",", '\n');
    }
    assert forall i :: 0 <= i < |all| ==> '\n' !in all[i] by {
      forall i | 0 <= i < |all| ensures '\n' !in all[i] {
        if i > 0 {
          assert all[i] == lines[i - 1];
        }
      }
    }
    SplitJoin(all, '\n');
  }

  // ----- the export of the users list -----

  const ExportKeys: seq<string> := ["id", "name", "email", "plan", "active", "createdAt"]

  /** The row written for a user; `iso` stands for `toISOString`. */
  function ExportRow(u: User, iso: int -> string): (row: Row)
    ensures RowKeys(row) == ExportKeys
    ensures Get(row, "id") == u.id && Get(row, "name") == u.name && Get(row, "email") == u.email
    ensures Get(row, "plan") == u.plan && Get(row, "createdAt") == iso(u.createdAt)
    ensures Get(row, "active") == if u.active then "yes" else "no"
  {
    var row := [("id", u.id), ("name", u.name), ("email", u.email), ("plan", u.plan),
                ("active", if u.active then "yes" else "no"), ("createdAt", iso(u.createdAt))];
    assert forall i, j :: 0 <= j < i < |row| ==> row[j].0 != row[i].0;
    GetFirst(row, 0, "id");
    GetFirst(row, 1, "name");
    GetFirst(row, 2, "email");
    GetFirst(row, 3, "plan");
    GetFirst(row, 4, "active");
    GetFirst(row, 5, "createdAt");
    row
  }

  /** `handleExportCSV`: an empty list exports nothing (the page alerts
      instead of downloading). */
  function ExportUsers(users: seq<User>, iso: int -> string): (csv: string)
    ensures csv == "" <==> |users| == 0
  {
    ToCsv(seq(|users|, i requires 0 <= i < |users| => ExportRow(users[i], iso)))
  }

  lemma ExportHeader(users: seq<User>, iso: int -> string)
    requires |users| > 0
    ensures SplitOn(ExportUsers(users, iso), '\n')[0] == Join(ExportKeys, ",")
    ensures |SplitOn(ExportUsers(users, iso), '\n')| == |users| + 1
  {
    var rows := seq(|users|, i requires 0 <= i < |users| => ExportRow(users[i], iso));
    assert RowKeys(rows[0]) == ExportKeys;
    ToCsvLines(rows);
  }

  // ----- totals and bulk changes -----

  datatype Totals = Totals(total: int, active: int, inactive: int)

  predicate IsActive(u: User) { u.active }

  /** `totals`. */
  function ComputeTotals(users: seq<User>): (t: Totals)
    ensures t.active + t.inactive == t.total == |users|
    ensures 0 <= t.active <= t.total
    ensures t.active == |users| <==> forall i :: 0 <= i < |users| ==> users[i].active
    ensures t.active == |set i | 0 <= i < |users| && users[i].active|
  {
    var active := |Filter(users, IsActive)|;
    FilterShrinksIff(users, IsActive);
    FilterCountsIndices(users, IsActive);
    assert PassingIndices(users, IsActive) == set i | 0 <= i < |users| && users[i].active;
    Totals(|users|, active, |users| - active)
  }

  /** `bulkToggleActive(active)`. */
  function BulkToggleActive(users: seq<User>, active: bool): (r: seq<User>)
    ensures |r| == |users|
    ensures forall i :: 0 <= i < |r| ==> r[i].active == active && r[i].(active := users[i].active) == users[i]
  {
    seq(|users|, i requires 0 <= i < |users| => users[i].(active := active))
  }

  /** After a bulk activation every user counts as active; after a bulk
      deactivation none does. */
  lemma BulkToggleTotals(users: seq<User>)
    ensures ComputeTotals(BulkToggleActive(users, true)).active == |users|
    ensures ComputeTotals(BulkToggleActive(users, false)).active == 0
  {
    var off := BulkToggleActive(users, false);
    FilterDropsAll(off, IsActive);
  }

  // ----- invitations -----

  const EnterEmail := "Enter an email to invite"

  /** `inviteEmail.split("@")[0] || "Invited User"`: the text before the
      first '@', or a placeholder when that text is empty. */
  function InviteName(email: string): (name: string)
    ensures BeforeFirst(email, '@') == "" ==> name == "Invited User"
    ensures BeforeFirst(email, '@') != "" ==>
      && name == BeforeFirst(email, '@')
      && '@' !in name && name <= email
      && (|name| < |email| ==> email[|name|] == '@')
  {
    var local := SplitOn(email, '@')[0];
    if local == "" then "Invited User" else local
  }

  /** `handleInviteSubmit`: a blank address is refused; otherwise a free,
      active user named after the part before the first '@' is prepended. */
  function Invite(users: seq<User>, email: string, id: string, now: int): (r: Result<seq<User>, string>)
    ensures r.Err? <==> Blank(email)
    ensures r.Err? ==> r.error == EnterEmail
    ensures r.Ok? ==> |r.value| == |users| + 1 && r.value[1..] == users
    ensures r.Ok? ==> r.value[0] == User(id, InviteName(email), email, now, true, "Free")
  {
    TrimEmptyIffBlank(email);
    if Trim(email) == "" then Err(EnterEmail)
    else Ok([User(id, InviteName(email), email, now, true, "Free")] + users)
  }

  // ----- the demo seed -----

  const Plans: seq<string> := ["Free", "Pro", "Business", "Enterprise"]

  function DemoEmail(i: nat): string {
    "demo" + NatToString(i + 1) + "@example.com"
  }

  /** `generateDemoUsers(count)`; `ids` stand for the uuids and `actives`
      for the `Math.random() > 0.15` draws. */
  function GenerateDemoUsers(count: int, ids: seq<string>, actives: seq<bool>, now: int): (r: seq<User>)
    requires |ids| >= count && |actives| >= count
    ensures |r| == Max(count, 0)
    ensures forall i :: 0 <= i < |r| ==>
      && r[i].plan == Plans[i % 4]
      && r[i].email == DemoEmail(i)
      && r[i].name == "Demo User " + NatToString(i + 1)
      && r[i].createdAt == now - i * DayMs
      && r[i].id == ids[i] && r[i].active == actives[i]
  {
    seq(Max(count, 0), i requires 0 <= i < Max(count, 0) =>
      User(ids[i], "Demo User " + NatToString(i + 1), DemoEmail(i), now - i * DayMs, actives[i], Plans[i % |Plans|]))
  }

  /** Equal texts with the same prefix and suffix have equal middles. */
  lemma AffixCancel(p: string, a: string, b: string, q: string)
    requires p + a + q == p + b + q
    ensures a == b
  {
    var x := p + a + q;
    assert |a| == |b|;
    assert x[|p|..|p| + |a|] == a;
    assert (p + b + q)[|p|..|p| + |b|] == b;
  }

  /** Demo addresses never collide. */
  lemma DemoEmailsDistinct(i: nat, j: nat)
    requires i != j
    ensures DemoEmail(i) != DemoEmail(j)
  {
    if DemoEmail(i) == DemoEmail(j) {
      AffixCancel("demo", NatToString(i + 1), NatToString(j + 1), "@example.com");
      NatToStringInjective(i + 1, j + 1);
      assert false;
    }
  }

  /** The seed's plans cycle through the four tiers. */
  lemma DemoPlansCycle(count: int, ids: seq<string>, actives: seq<bool>, now: int, i: nat)
    requires |ids| >= count && |actives| >= count
    requires i + 4 < count
    ensures GenerateDemoUsers(count, ids, actives, now)[i].plan ==
            GenerateDemoUsers(count, ids, actives, now)[i + 4].plan
  {
    assert (i + 4) % 4 == i % 4;
  }
}
