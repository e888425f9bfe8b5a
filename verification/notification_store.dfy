/** The notification store: the provider's reducer over the list of
    notifications, its unread badge count, the drawer's read/unread tabs and
    the severity and recency helpers of the notifications hook. */
module NotificationStore {
  import opened Common

  datatype Priority = High | Medium

  /** A notification; the ISO timestamp is kept as epoch milliseconds and
      the free-form `meta` record as the one key the feed fills in. */
  datatype Notification = Notification(
    id: string,
    title: string,
    message: string,
    timestamp: int,
    read: bool,
    severity: Option<Severity>,
    priority: Option<Priority>)

  datatype State = State(items: seq<Notification>)

  datatype Action =
    | Add(payload: Notification)
    | MarkRead(id: string)
    | MarkAllRead
    | Delete(id: string)
    | Set(items: seq<Notification>)

  predicate IsUnread(n: Notification) { !n.read }

  predicate IsRead(n: Notification) { n.read }

  /** `items.some(i => i.id === id)`. */
  predicate HasId(items: seq<Notification>, id: string) {
    exists i :: 0 <= i < |items| && items[i].id == id
  }

  ghost predicate UniqueIds(items: seq<Notification>) {
    forall i, j :: 0 <= i < j < |items| ==> items[i].id != items[j].id
  }

  /** ADD: prepend, unless a notification with that id is already held. */
  function AddItem(items: seq<Notification>, n: Notification): (r: seq<Notification>)
    ensures HasId(items, n.id) ==> r == items
    ensures !HasId(items, n.id) ==> |r| == |items| + 1 && r[0] == n && r[1..] == items
    ensures HasId(r, n.id)
  {
    if HasId(items, n.id) then items else [n] + items
  }

  /** MARK_READ: sets `read` on the notifications with that id; nothing else moves or changes. */
  function MarkReadItems(items: seq<Notification>, id: string): (r: seq<Notification>)
    ensures |r| == |items|
    ensures forall i :: 0 <= i < |r| ==> r[i].read == (items[i].read || items[i].id == id)
    ensures forall i :: 0 <= i < |r| ==> r[i].(read := items[i].read) == items[i]
  {
    seq(|items|, i requires 0 <= i < |items| =>
      if items[i].id == id then items[i].(read := true) else items[i])
  }

  /** MARK_ALL_READ: every notification read, nothing else changed. */
  function MarkAllReadItems(items: seq<Notification>): (r: seq<Notification>)
    ensures |r| == |items|
    ensures forall i :: 0 <= i < |r| ==> r[i].read
    ensures forall i :: 0 <= i < |r| ==> r[i].(read := items[i].read) == items[i]
  {
    seq(|items|, i requires 0 <= i < |items| => items[i].(read := true))
  }

  /** DELETE: drops every notification with that id, keeps the rest in order. */
  function DeleteItems(items: seq<Notification>, id: string): (r: seq<Notification>)
    ensures !HasId(r, id)
    ensures forall i :: 0 <= i < |items| && items[i].id != id ==> items[i] in r
    ensures forall i :: 0 <= i < |r| ==> r[i] in items
    ensures SubseqOf(r, items)
    ensures forall x: Notification :: x.id != id ==> multiset(r)[x] == multiset(items)[x]
  {
    var r := Filter(items, (n: Notification) => n.id != id);
    FilterKeepsCopies(items, (n: Notification) => n.id != id);
    r
  }

  /** The provider's reducer. */
  function Reduce(s: State, a: Action): (r: State)
    ensures a.Add? ==> HasId(r.items, a.payload.id)
    ensures a.MarkAllRead? || a.MarkRead? ==> |r.items| == |s.items|
    ensures a.Delete? ==> !HasId(r.items, a.id)
    ensures a.Set? ==> r.items == a.items
  {
    match a
    case Add(n) => State(AddItem(s.items, n))
    case MarkRead(id) => State(MarkReadItems(s.items, id))
    case MarkAllRead => State(MarkAllReadItems(s.items))
    case Delete(id) => State(DeleteItems(s.items, id))
    case Set(items) => State(items)
  }

  /** `items.reduce((c, i) => c + (i.read ? 0 : 1), 0)`, as a left fold. */
  function UnreadFold(items: seq<Notification>, acc: int): int
    decreases |items|
  {
    if |items| == 0 then acc
    else UnreadFold(items[1..], acc + (if items[0].read then 0 else 1))
  }

  function UnreadCount(items: seq<Notification>): int {
    UnreadFold(items, 0)
  }

  lemma {:induction false} UnreadFoldCounts(items: seq<Notification>, acc: int)
    ensures UnreadFold(items, acc) == acc + |Filter(items, IsUnread)|
    decreases |items|
  {
    if |items| > 0 {
      UnreadFoldCounts(items[1..], acc + (if items[0].read then 0 else 1));
    }
  }

  /** The badge counts exactly the unread notifications, so it never exceeds the list length. */
  lemma UnreadCountIsUnreadItems(items: seq<Notification>)
    ensures UnreadCount(items) == |Filter(items, IsUnread)|
    ensures 0 <= UnreadCount(items) <= |items|
  {
    UnreadFoldCounts(items, 0);
  }

  // ----- properties of the reducer -----

  /** Every action but SET keeps ids unique. */
  lemma ReducePreservesUniqueIds(s: State, a: Action)
    requires UniqueIds(s.items)
    requires !a.Set?
    ensures UniqueIds(Reduce(s, a).items)
  {
    var r := Reduce(s, a).items;
    match a
    case Add(n) =>
      if !HasId(s.items, n.id) {
        forall i, j | 0 <= i < j < |r| ensures r[i].id != r[j].id {
          if i == 0 {
            assert r[j] == s.items[j - 1];
          } else {
            assert r[i] == s.items[i - 1] && r[j] == s.items[j - 1];
          }
        }
      }
    case MarkRead(id) =>
      forall i, j | 0 <= i < j < |r| ensures r[i].id != r[j].id {
        assert r[i].id == s.items[i].id && r[j].id == s.items[j].id;
      }
    case MarkAllRead =>
      forall i, j | 0 <= i < j < |r| ensures r[i].id != r[j].id {
        assert r[i].id == s.items[i].id && r[j].id == s.items[j].id;
      }
    case Delete(id) =>
      DeleteKeepsUniqueIds(s.items, id);
  }

  lemma {:induction false} DeleteKeepsUniqueIds(items: seq<Notification>, id: string)
    requires UniqueIds(items)
    ensures UniqueIds(DeleteItems(items, id))
    decreases |items|
  {
    if |items| > 0 {
      var rest := DeleteItems(items[1..], id);
      assert UniqueIds(items[1..]) by {
        forall i, j | 0 <= i < j < |items[1..]| ensures items[1..][i].id != items[1..][j].id {
          assert items[1..][i] == items[i + 1] && items[1..][j] == items[j + 1];
        }
      }
      DeleteKeepsUniqueIds(items[1..], id);
      if items[0].id != id {
        assert DeleteItems(items, id) == [items[0]] + rest;
        forall k | 0 <= k < |rest| ensures rest[k].id != items[0].id {
          assert rest[k] in items[1..];
        }
      } else {
        assert DeleteItems(items, id) == rest;
      }
    }
  }

  /** The mount path sets the fetched batch followed by the persisted list,
      without de-duplication: whenever the two lists share an id, SET hands
      the store a repeated id, however unique each list is on its own. */
  lemma SetCanRepeatIds(s: State, fetched: seq<Notification>, stored: seq<Notification>, i: nat, j: nat)
    requires i < |fetched| && j < |stored| && fetched[i].id == stored[j].id
    ensures !UniqueIds(Reduce(s, Set(fetched + stored)).items)
  {
    var r := Reduce(s, Set(fetched + stored)).items;
    assert r[i] == fetched[i] && r[|fetched| + j] == stored[j];
  }

  lemma MarkReadIdempotent(items: seq<Notification>, id: string)
    ensures MarkReadItems(MarkReadItems(items, id), id) == MarkReadItems(items, id)
  {
  }

  lemma MarkAllReadClearsBadge(items: seq<Notification>)
    ensures UnreadCount(MarkAllReadItems(items)) == 0
    ensures MarkAllReadItems(MarkAllReadItems(items)) == MarkAllReadItems(items)
  {
    var r := MarkAllReadItems(items);
    UnreadCountIsUnreadItems(r);
    FilterDropsAll(r, IsUnread);
  }

  /** Deleting an id nobody has changes nothing. */
  lemma DeleteAbsentIsNoop(items: seq<Notification>, id: string)
    requires !HasId(items, id)
    ensures DeleteItems(items, id) == items
  {
    FilterKeepsAll(items, (n: Notification) => n.id != id);
  }

  /** Only ADD and SET can raise the unread badge; ADD by at most one. */
  lemma OnlyAddAndSetRaiseUnread(s: State, a: Action)
    ensures !a.Add? && !a.Set? ==> UnreadCount(Reduce(s, a).items) <= UnreadCount(s.items)
    ensures a.Add? ==> UnreadCount(Reduce(s, a).items) <= UnreadCount(s.items) + 1
  {
    var r := Reduce(s, a).items;
    UnreadCountIsUnreadItems(s.items);
    UnreadCountIsUnreadItems(r);
    match a
    case Add(n) =>
      if !HasId(s.items, n.id) {
        assert r == [n] + s.items;
        assert r[1..] == s.items;
      }
    case MarkRead(id) =>
      FilterCountPointwise(s.items, r, IsUnread);
    case MarkAllRead =>
      FilterCountPointwise(s.items, r, IsUnread);
    case Delete(id) =>
      FilterCountSubseq(r, s.items, IsUnread);
    case Set(_) =>
  }

  // ----- the drawer's tabs -----

  datatype DrawerFilter = AllItems | UnreadTab | ReadTab

  predicate PassesTab(f: DrawerFilter, n: Notification) {
    if f == UnreadTab then !n.read
    else if f == ReadTab then n.read
    else true
  }

  /** The items shown under the selected tab. */
  function FilteredItems(items: seq<Notification>, f: DrawerFilter): (r: seq<Notification>)
    ensures f == AllItems ==> r == items
    ensures f == UnreadTab ==> r == Filter(items, IsUnread)
    ensures f == ReadTab ==> r == Filter(items, IsRead)
  {
    var tab := (n: Notification) => PassesTab(f, n);
    var r := Filter(items, tab);
    assert f == AllItems ==> r == items by {
      if f == AllItems { FilterKeepsAll(items, tab); }
    }
    assert f == UnreadTab ==> r == Filter(items, IsUnread) by {
      if f == UnreadTab { FilterExt(items, tab, IsUnread); }
    }
    assert f == ReadTab ==> r == Filter(items, IsRead) by {
      if f == ReadTab { FilterExt(items, tab, IsRead); }
    }
    r
  }

  function UnreadItems(items: seq<Notification>): (r: seq<Notification>)
    ensures forall x :: x in r <==> x in items && !x.read
    ensures SubseqOf(r, items)
  {
    Filter(items, IsUnread)
  }

  function ReadItems(items: seq<Notification>): (r: seq<Notification>)
    ensures forall x :: x in r <==> x in items && x.read
    ensures SubseqOf(r, items)
  {
    Filter(items, IsRead)
  }

  /** The two tabs split the list, and the unread tab agrees with the badge. */
  lemma DrawerTabsPartition(items: seq<Notification>)
    ensures |UnreadItems(items)| + |ReadItems(items)| == |items|
    ensures |UnreadItems(items)| == UnreadCount(items)
  {
    FilterPartition(items, IsUnread, IsRead);
    UnreadCountIsUnreadItems(items);
  }

  // ----- the hook's helpers -----

  /** `getNotificationsBySeverity`. */
  function BySeverity(items: seq<Notification>, s: Severity): (r: seq<Notification>)
    ensures forall x :: x in r <==> x in items && x.severity == Some(s)
    ensures SubseqOf(r, items)
  {
    Filter(items, (n: Notification) => n.severity == Some(s))
  }

  /** `Date.now() - hours * 60 * 60 * 1000`. */
  function Cutoff(now: int, hours: int): int {
    now - hours * HourMs
  }

  lemma CutoffMonotone(now: int, h1: int, h2: int)
    requires h1 <= h2
    ensures Cutoff(now, h2) <= Cutoff(now, h1)
  {
    MulMonotone(HourMs, h1, h2);
  }

  /** The filter callback `n => n.timestamp > cutoff`. */
  function NewerThan(cutoff: int): Notification -> bool {
    (n: Notification) => n.timestamp > cutoff
  }

  /** `getRecentNotifications(hours)` at time `now` (epoch milliseconds). */
  function Recent(items: seq<Notification>, now: int, hours: int): (r: seq<Notification>)
    ensures forall x :: x in r <==> x in items && x.timestamp > Cutoff(now, hours)
    ensures SubseqOf(r, items)
  {
    Filter(items, NewerThan(Cutoff(now, hours)))
  }

  lemma NewerMonotone(items: seq<Notification>, c1: int, c2: int)
    requires c2 <= c1
    ensures SubseqOf(Filter(items, NewerThan(c1)), Filter(items, NewerThan(c2)))
  {
    assert forall n :: NewerThan(c1)(n) ==> NewerThan(c2)(n);
    FilterMonotone(items, NewerThan(c1), NewerThan(c2));
  }

  /** Looking further back returns a superset, in the same order. */
  lemma RecentMonotone(items: seq<Notification>, now: int, h1: int, h2: int)
    requires h1 <= h2
    ensures SubseqOf(Recent(items, now, h1), Recent(items, now, h2))
    ensures forall x :: x in Recent(items, now, h1) ==> x in Recent(items, now, h2)
  {
    CutoffMonotone(now, h1, h2);
    NewerMonotone(items, Cutoff(now, h1), Cutoff(now, h2));
  }
}
