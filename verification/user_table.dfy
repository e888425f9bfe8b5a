/** The user table: case-insensitive search over name and email, pages of
    ten, the activate/deactivate toggle and the Prev/Next page rules. */
module UserTable {
  import opened Common

  /** A user record; `createdAt` is kept as epoch milliseconds. */
  datatype User = User(id: string, name: string, email: string, createdAt: int, active: bool, plan: string)

  const PageSize := 10

  // ----- search -----

  /** `query.toLowerCase().trim()`. */
  function NormalizeQuery(query: string): string {
    Trim(ToLower(query))
  }

  /** The text a user is searched by: `${name} ${email}`, lower-cased. */
  function SearchText(u: User): string {
    ToLower(u.name + " " + u.email)
  }

  predicate SearchHit(u: User, q: string) {
    Contains(SearchText(u), q)
  }

  /** Lower-casing (ASCII) neither creates nor removes whitespace. */
  lemma ToLowerKeepsBlank(s: string)
    ensures Blank(ToLower(s)) <==> Blank(s)
  {
    var t := ToLower(s);
    assert forall i :: 0 <= i < |s| ==> (IsJsWhitespace(t[i]) <==> IsJsWhitespace(s[i]));
  }

  /** `filtered`. */
  function Filtered(users: seq<User>, query: string): (r: seq<User>)
    ensures Blank(query) ==> r == users
    ensures !Blank(query) ==> forall u :: u in r <==> u in users && SearchHit(u, NormalizeQuery(query))
    ensures SubseqOf(r, users)
  {
    var q := NormalizeQuery(query);
    TrimEmptyIffBlank(ToLower(query));
    ToLowerKeepsBlank(query);
    SubseqOfSelf(users);
    if q == "" then users else Filter(users, u => SearchHit(u, q))
  }

  lemma ToLowerIdempotent(s: string)
    ensures ToLower(ToLower(s)) == ToLower(s)
  {
  }

  /** The search ignores the case of the query. */
  lemma SearchIgnoresQueryCase(users: seq<User>, query: string)
    ensures Filtered(users, ToLower(query)) == Filtered(users, query)
  {
    ToLowerIdempotent(query);
  }

  // ----- pagination -----

  /** `paged`: `filtered.slice((page - 1) * 10, (page - 1) * 10 + 10)`. */
  function Paged(filtered: seq<User>, page: int): (r: seq<User>)
    ensures |r| <= PageSize
    ensures page >= 1 ==>
      r == filtered[Min((page - 1) * PageSize, |filtered|)..Min(page * PageSize, |filtered|)]
  {
    var start := (page - 1) * PageSize;
    JsSlice(filtered, start, start + PageSize)
  }

  /** Every user of the filtered list is on exactly one page: the `i`-th on
      page `i / 10 + 1`, at row `i % 10`. */
  lemma UserOnItsPage(filtered: seq<User>, i: int)
    requires 0 <= i < |filtered|
    ensures var page := i / PageSize + 1;
      i % PageSize < |Paged(filtered, page)| && Paged(filtered, page)[i % PageSize] == filtered[i]
  {
    var page := i / PageSize + 1;
    assert (page - 1) * PageSize + i % PageSize == i;
  }

  /** Pages past the last one are empty. */
  lemma PagesPastTheEndAreEmpty(filtered: seq<User>, page: int)
    requires page >= 1 && (page - 1) * PageSize >= |filtered|
    ensures Paged(filtered, page) == []
  {
  }

  // ----- activate / deactivate -----

  /** `toggleActive(id)`. */
  function ToggleActive(users: seq<User>, id: string): (r: seq<User>)
    ensures |r| == |users|
    ensures forall i :: 0 <= i < |r| ==> r[i].active == (if users[i].id == id then !users[i].active else users[i].active)
    ensures forall i :: 0 <= i < |r| ==> r[i].(active := users[i].active) == users[i]
  {
    seq(|users|, i requires 0 <= i < |users| =>
      if users[i].id == id then users[i].(active := !users[i].active) else users[i])
  }

  /** Toggling twice is the identity. */
  lemma ToggleActiveInvolution(users: seq<User>, id: string)
    ensures ToggleActive(ToggleActive(users, id), id) == users
  {
    var r := ToggleActive(ToggleActive(users, id), id);
    assert forall i :: 0 <= i < |users| ==> r[i] == users[i];
  }

  /** Toggles of different ids commute. */
  lemma TogglesCommute(users: seq<User>, a: string, b: string)
    ensures ToggleActive(ToggleActive(users, a), b) == ToggleActive(ToggleActive(users, b), a)
  {
    var x := ToggleActive(ToggleActive(users, a), b);
    var y := ToggleActive(ToggleActive(users, b), a);
    assert forall i :: 0 <= i < |users| ==> x[i] == y[i];
  }

  // ----- page state -----

  datatype TableState = TableState(query: string, page: int)

  const Initial: TableState := TableState("", 1)

  datatype TableEvent = QueryChanged(text: string) | Prev | Next

  /** The search box resets the page; Prev stops at 1; Next has no bound. */
  function Step(s: TableState, e: TableEvent): (r: TableState)
    ensures e.QueryChanged? ==> r == TableState(e.text, 1)
    ensures e.Prev? ==> r.query == s.query && r.page == Max(1, s.page - 1)
    ensures e.Next? ==> r.query == s.query && r.page == s.page + 1
  {
    match e
    case QueryChanged(text) => TableState(text, 1)
    case Prev => s.(page := Max(1, s.page - 1))
    case Next => s.(page := s.page + 1)
  }

  function Run(s: TableState, events: seq<TableEvent>): TableState
    decreases |events|
  {
    if |events| == 0 then s else Run(Step(s, events[0]), events[1..])
  }

  /** The page number never drops below 1, whatever the sequence of
      clicks and keystrokes. */
  lemma {:induction false} PageStaysPositive(s: TableState, events: seq<TableEvent>)
    requires s.page >= 1
    ensures Run(s, events).page >= 1
    decreases |events|
  {
    if |events| > 0 {
      PageStaysPositive(Step(s, events[0]), events[1..]);
    }
  }

  /** Next then Prev returns to the page it started from. */
  lemma NextThenPrev(s: TableState)
    requires s.page >= 1
    ensures Step(Step(s, Next), Prev) == s
  {
  }
}
