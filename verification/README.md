# Real-time notification dashboard: a Dafny model of its list and record logic

The dashboard is a React/TypeScript SaaS admin console. Beneath its UI is a set of
plain list and record operations. This project models them as pure Dafny
functions over immutable datatypes and sequences, and proves what the
application relies on:

- the notification store's reducer (ADD / MARK_READ / MARK_ALL_READ /
  DELETE / SET) with its unread badge, the drawer's tabs and the hook's
  severity and recency filters;
- the mock notification feed, a listener set with a running/seeded timer
  state, its event generator and its initial batch;
- the in-memory activity log service: filtered, sorted and limited queries,
  statistics, create, delete, pruning by age, and the 1000-entry cap of the
  simulated stream;
- the activity log page's helpers: the de-duplicating merge of live updates,
  the CSV export (quoting as in rule 6 and 7 of section 2 of RFC 4180, with
  a reader that proves the round trip), the row time label and the
  date-range start;
- the text helpers: "time ago" labels, truncation, capitalisation and
  thousands separators;
- the settings record: partial update, reset, theme choice and toggle, and
  volume rounding and clamping;
- the user directory: case-insensitive search, pages of ten, activation
  toggles, totals, invitations, demo users, and the CSV writer whose cells
  are JSON strings (section 7 of RFC 8259);
- the active-users and signup-sources services: the hour label successor,
  the sliding 24-point window, sums, maxima and tallies, numeric sorting
  with limits, and update by name with a not-found error.

Timestamps are integer epoch milliseconds. The clock, `Math.random()` draws
and uuids are parameters. Where the JavaScript semantics differ from Dafny's
defaults, the model writes them out explicitly:

- `Math.round` of a quotient is `Common.RoundDiv`;
- `%` on a negative dividend is `ActiveUsers.JsRem`;
- `slice` index clamping is `Common.JsSlice`;
- `Number()` of a label is `ActiveUsers.ParseNumber`, with `NaN` as `None`.

## Layout

| file | module | source |
|---|---|---|
| common.dfy | `Common` | shared helpers: Option/Result, JS slice, filtering as subsequence, decimal text, keyed tallies, trim and lower case, split and join |
| sorting.dfy | `Sorting` | `Array.prototype.sort` with a numeric comparator (stable insertion sort) |
| notification_store.dfy | `NotificationStore` | src/components/notifications/NotificationsProvider.tsx, NotificationDrawer.tsx, useNotifications.ts |
| notification_feed.dfy | `NotificationFeed` | src/api/mock/notifications.ts |
| activity_store.dfy | `ActivityStore` | src/api/mock/activityLog.ts |
| activity_view.dfy | `ActivityView` | src/components/activity/ActivityLog.tsx |
| format.dfy | `Format` | src/utils/format.ts |
| settings.dfy | `Settings` | src/hooks/useSettings.tsx |
| user_table.dfy | `UserTable` | src/components/users/UserTable.tsx |
| users_page.dfy | `UsersPage` | src/pages/Users.tsx |
| active_users.dfy | `ActiveUsers` | src/api/mock/activeUsers.ts |
| signup_sources.dfy | `SignupSources` | src/api/mock/signupSources.ts |

## Model

| member | source | states |
|---|---|---|
| NotificationStore.AddItem | src/components/notifications/NotificationsProvider.tsx:22-25 | a duplicate id leaves the list unchanged; a fresh one goes to the front with the old list after it in order; either way the id is then present |
| NotificationStore.MarkReadItems | src/components/notifications/NotificationsProvider.tsx:26-27 | only notifications with that id become read; length, order and every other field stay the same |
| NotificationStore.MarkAllReadItems | src/components/notifications/NotificationsProvider.tsx:28-29 | every notification is read afterwards and nothing else changes |
| NotificationStore.DeleteItems | src/components/notifications/NotificationsProvider.tsx:30-31 | no notification with the id remains; every other one survives with all its copies, in order, and nothing new appears |
| NotificationStore.Reduce | src/components/notifications/NotificationsProvider.tsx:20-37 | per action: ADD leaves the id present, the mark actions keep the length, DELETE removes the id, SET installs the payload |
| NotificationStore.UnreadFoldCounts | src/components/notifications/NotificationsProvider.tsx:75 | the left fold adds the number of unread notifications to its seed |
| NotificationStore.UnreadCountIsUnreadItems | src/components/notifications/NotificationsProvider.tsx:75 | the badge equals the number of unread notifications, so it lies between 0 and the list length |
| NotificationStore.ReducePreservesUniqueIds | src/components/notifications/NotificationsProvider.tsx:20-31 | ADD, MARK_READ, MARK_ALL_READ and DELETE keep ids pairwise distinct |
| NotificationStore.DeleteKeepsUniqueIds | src/components/notifications/NotificationsProvider.tsx:31 | removing entries from a list with distinct ids leaves the ids distinct |
| NotificationStore.SetCanRepeatIds | src/components/notifications/NotificationsProvider.tsx:60-61 | for any state and any fetched and persisted lists that share an id, SET with their concatenation leaves the store holding a repeated id |
| NotificationStore.MarkReadIdempotent | src/components/notifications/NotificationsProvider.tsx:27 | marking the same id read twice is marking it once |
| NotificationStore.MarkAllReadClearsBadge | src/components/notifications/NotificationsProvider.tsx:29 | after MARK_ALL_READ the badge is 0, and a second MARK_ALL_READ changes nothing |
| NotificationStore.DeleteAbsentIsNoop | src/components/notifications/NotificationsProvider.tsx:31 | deleting an id that no notification has leaves the list as it was |
| NotificationStore.OnlyAddAndSetRaiseUnread | src/components/notifications/NotificationsProvider.tsx:26-31 | no action but ADD and SET raises the badge, and ADD raises it by at most one |
| NotificationStore.FilteredItems | src/components/notifications/NotificationDrawer.tsx:30-34 | the "all" tab shows the list unchanged; the unread and read tabs show exactly the unread and the read notifications, in list order |
| NotificationStore.UnreadItems | src/components/notifications/NotificationDrawer.tsx:36 | exactly the unread notifications, as an order-preserving subsequence |
| NotificationStore.ReadItems | src/components/notifications/NotificationDrawer.tsx:37 | exactly the read notifications, as an order-preserving subsequence |
| NotificationStore.DrawerTabsPartition | src/components/notifications/NotificationDrawer.tsx:36-37 | the unread and read tabs together hold as many notifications as the list, and the unread tab's size equals the badge |
| NotificationStore.BySeverity | src/components/notifications/useNotifications.ts:13-15 | exactly the notifications of that severity, in list order |
| NotificationStore.Recent | src/components/notifications/useNotifications.ts:17-20 | exactly the notifications strictly newer than `now - hours` hours, in list order |
| NotificationStore.CutoffMonotone | src/components/notifications/useNotifications.ts:18 | a longer look-back gives an earlier cutoff |
| NotificationStore.NewerMonotone | src/components/notifications/useNotifications.ts:19 | lowering the cutoff keeps everything kept before, in the same order |
| NotificationStore.RecentMonotone | src/components/notifications/useNotifications.ts:17-20 | for a fixed `now`, more hours give a superset, and the smaller result is a subsequence of the larger |
| NotificationFeed.Start | src/api/mock/notifications.ts:22-31 | a no-op once seeded; otherwise the feed becomes seeded with the timer running; listeners untouched |
| NotificationFeed.Stop | src/api/mock/notifications.ts:33-37 | clears both the timer and the seeded flag, listeners untouched |
| NotificationFeed.Subscribe | src/api/mock/notifications.ts:12-15 | adds the callback to the set; a running timer is left alone, and from a consistent state the feed ends up running |
| NotificationFeed.Unsubscribe | src/api/mock/notifications.ts:17-20 | removes the callback; generation stops exactly when no listener is left |
| NotificationFeed.Tick | src/api/mock/notifications.ts:27-29 | a running feed delivers the same notification to every current listener and to nobody else; a stopped one delivers nothing |
| NotificationFeed.TransitionsStayConsistent | src/api/mock/notifications.ts:12-37 | every transition keeps "the timer runs" and "the feed is seeded" in step |
| NotificationFeed.SubscribeIdempotent | src/api/mock/notifications.ts:8-14 | subscribing the same callback twice is subscribing it once |
| NotificationFeed.StopThenStartRestarts | src/api/mock/notifications.ts:22-37 | after `stop`, `start` runs the timer again |
| NotificationFeed.SubscribeUnsubscribeRoundTrip | src/api/mock/notifications.ts:12-20 | subscribing and then unsubscribing the only listener returns the feed to idle |
| NotificationFeed.Generate | src/api/mock/notifications.ts:39-87 | an unread notification carrying the chosen event's title, message and severity, with high priority exactly for errors and medium otherwise |
| NotificationFeed.OnlyPaymentFailureIsHighPriority | src/api/mock/notifications.ts:41-84 | of the six events, only the payment failure is generated with high priority |
| NotificationFeed.FetchInitial | src/api/mock/notifications.ts:90-111 | `count` notifications (at most four) with the fixed titles, messages and severities; item `i` is read exactly when `i > 1`; timestamps step back one hour per index; the badge is `min(count, 2)` |
| NotificationFeed.InitialBatchUnread | src/api/mock/notifications.ts:105 | a batch of at most four whose items are read exactly from index 2 on has `min(n, 2)` unread |
| ActivityStore.PassesAllStages | src/api/mock/activityLog.ts:31-51 | passing all five filter stages is matching every filter the query supplies |
| ActivityStore.NarrowStages | src/api/mock/activityLog.ts:31-51 | after `k` stages the list holds exactly the entries that pass the first `k` filters, in order |
| ActivityStore.StageStep | src/api/mock/activityLog.ts:31-51 | one more stage narrows the previous stage's result to the entries passing that stage too |
| ActivityStore.Narrow | src/api/mock/activityLog.ts:28-51 | the filter chain keeps exactly the entries matching the query, in order |
| ActivityStore.FetchActivities | src/api/mock/activityLog.ts:16-84 | every result matches all supplied filters and comes from the data; the result is sorted by timestamp in the effective order (descending unless "asc"); a positive limit keeps exactly `min(limit, matches)` entries; a negative limit, which is truthy, drops the last `-limit` matches (all of them when there are fewer); no limit or 0 returns a permutation of all matches; entries with equal timestamps keep their log order |
| ActivityStore.FetchActivitiesIsTopN | src/api/mock/activityLog.ts:53-79 | every matching entry the limit cut off may follow, in the effective timestamp order, every entry it kept |
| ActivityStore.LimitedSortedFacts | src/api/mock/activityLog.ts:54-79 | a prefix of a sorted permutation of the matches is sorted and holds only matching entries from the data |
| ActivityStore.DefaultQueryIsNewestFirst | src/api/mock/activityLog.ts:54-67 | without options the whole log comes back, newest first |
| ActivityStore.FetchActivityStats | src/api/mock/activityLog.ts:86-120 | the total is the log length; today's count is the number of entries stamped at or after `todayStart`, the last hour's the number stamped at or after `now - 3600000` (both at most the total); the breakdowns have a key for exactly the severities and categories present, each mapped to the number of entries with it |
| ActivityStore.CountSince | src/api/mock/activityLog.ts:103-109 | the number of log entries stamped at or after the given instant, counted over positions, so duplicates count twice |
| ActivityStore.SeverityBreakdown | src/api/mock/activityLog.ts:93-96 | a key for exactly the severities in the log, each mapped to its number of occurrences |
| ActivityStore.CategoryBreakdown | src/api/mock/activityLog.ts:98-101 | a key for exactly the categories in the log, each mapped to its number of occurrences |
| ActivityStore.StatsBreakdownsSumToTotal | src/api/mock/activityLog.ts:93-112 | the per-severity counts and the per-category counts each add up to the total |
| ActivityStore.LastHourWithinToday | src/api/mock/activityLog.ts:103-109 | when the day began at least an hour ago, the last hour's count does not exceed today's |
| ActivityStore.CreateActivity | src/api/mock/activityLog.ts:122-136 | the caller's fields with the new id and time, placed at index 0 in front of the old log |
| ActivityStore.DeleteActivity | src/api/mock/activityLog.ts:138-150 | reports true exactly when some entry had the id; afterwards none has it, the others keep their order and every copy, and a false report leaves the log unchanged |
| ActivityStore.ClearOldActivities | src/api/mock/activityLog.ts:152-171 | every survivor is at or after the cutoff, every such entry survives in order with all its copies, and the count returned is exactly the number removed |
| ActivityStore.RandomActivity | src/api/mock/activityLog.ts:194-248 | the entry takes the chosen template's action, description, severity and category and the chosen user's name and id, with the given id and time; data entries carry a record count in [100, 1100) and system entries a memory reading of 70% to 99%, exactly those categories |
| ActivityStore.ExtraByTemplate | src/api/mock/activityLog.ts:194-248 | of the five templates only the data export carries a record count and only the system alert a memory reading |
| ActivityStore.SimulatedUpdate | src/api/mock/activityLog.ts:250-255 | the new entry is first, followed by a prefix of the old log, and the log never exceeds 1000 entries |
| ActivityView.FirstWithId | src/components/activity/ActivityLog.tsx:118-119 | present exactly when some entry carries the id; then it is an entry with the id and no earlier entry carries it |
| ActivityView.Dedup | src/components/activity/ActivityLog.tsx:116-123 | distinct ids not seen before, each entry the first occurrence of its id, in input order |
| ActivityView.DedupKeepsEveryId | src/components/activity/ActivityLog.tsx:118-122 | every id present and not already seen survives de-duplication |
| ActivityView.DedupAppend | src/components/activity/ActivityLog.tsx:115-123 | de-duplicating a concatenation is the first part's survivors followed by the second's, with the first part's ids counted as seen |
| ActivityView.IncomingWins | src/components/activity/ActivityLog.tsx:115-121 | on an id clash the first occurrence in the combined list is the incoming entry |
| ActivityView.MergeLive | src/components/activity/ActivityLog.tsx:113-125 | the merged list has distinct ids, takes the incoming entry on a clash, is an order-preserving subsequence of incoming-then-previous, and has at most `limit` entries |
| ActivityView.DedupLoop | src/components/activity/ActivityLog.tsx:116-123 | the `for` loop with its `seen` set computes the de-duplication |
| ActivityView.DedupStep | src/components/activity/ActivityLog.tsx:119-122 | one loop turn skips a seen id and keeps and records an unseen one |
| ActivityView.MergedPrefixFacts | src/components/activity/ActivityLog.tsx:124 | any prefix of the merged list keeps the merge's guarantees |
| ActivityView.MergeKeepsEveryId | src/components/activity/ActivityLog.tsx:115-124 | with a limit at least the combined length, no id of either list is lost |
| ActivityView.MergeIsIncomingThenRest | src/components/activity/ActivityLog.tsx:115-123 | the merge is the incoming survivors followed by the previous entries whose ids were not incoming |
| ActivityView.DoubleQuotes | src/components/activity/ActivityLog.tsx:206 | doubling quotes lengthens the text by its number of quotes |
| ActivityView.EscapeCell | src/components/activity/ActivityLog.tsx:203-209 | a cell without a comma, quote or line feed is emitted unchanged; any other cell is wrapped in quotes with its quotes doubled |
| ActivityView.ActivityCells | src/components/activity/ActivityLog.tsx:194-201 | six cells in header order: the locale time of the timestamp, the action, the user, the severity name, the category and the description |
| ActivityView.FieldOf | src/components/activity/ActivityLog.tsx:203-209 | an escaped cell followed by a comma, a line feed or the end reads back as that cell |
| ActivityView.EscapeCellRoundTrip | src/components/activity/ActivityLog.tsx:206-207 | un-escaping an escaped cell gives back the original text |
| ActivityView.RecordOf | src/components/activity/ActivityLog.tsx:210 | a joined row reads back as exactly its cells |
| ActivityView.CsvRoundTrip | src/components/activity/ActivityLog.tsx:210-211 | text written from non-empty rows reads back as exactly those rows |
| ActivityView.ExportParsesBack | src/components/activity/ActivityLog.tsx:191-211 | the export reads back as the header followed by one record per entry, every record with six fields |
| ActivityView.FormatTime | src/components/activity/ActivityLog.tsx:171-184 | under a minute "Just now", then whole minutes, then whole hours, and from a day on the locale time of day (the `Absolute` marker) |
| ActivityView.FormatTimeMatchesTimeAgo | src/components/activity/ActivityLog.tsx:171-184 | from one minute to a day the row label agrees with `formatTimeAgo`; between 5 and 60 seconds they differ |
| ActivityView.ParseRange | src/components/activity/ActivityLog.tsx:59-71 | "today", "week" and "month" select their range; anything else means all time |
| ActivityView.StartDate | src/components/activity/ActivityLog.tsx:59-71 | all time passes no start date; week starts seven days before now; today starts at local midnight; month starts at the month-ago date |
| ActivityView.LoadQuery | src/components/activity/ActivityLog.tsx:73-81 | the query asks for newest first, with no end date or user, and starts at the range's start date |
| ActivityView.LoadRespectsRange | src/components/activity/ActivityLog.tsx:59-81 | a loaded page holds no entry older than the range's start and is newest first |
| Format.FormatTimeAgo | src/utils/format.ts:5-25 | "Just now" under five seconds (including the future), then seconds, minutes and hours by floor division, "Yesterday" for one day, days up to six, and the date after |
| Format.TimeAgoLabelIsAccurate | src/utils/format.ts:9-22 | every numeric label reads back as the right unit and the whole number of those units in the elapsed time |
| Format.TruncateText | src/utils/format.ts:62-65 | text within `max` is unchanged; for `max >= 0` longer text becomes its first `max` characters followed by "...", `max + 3` characters in all; for negative `max` the text loses its last `-max` characters (all of them when it is shorter) and gains "...", as `slice` with a negative end does |
| Format.Capitalize | src/utils/format.ts:70-73 | same length; only the first character can change, to its upper case |
| Format.CapitalizeIdempotent | src/utils/format.ts:70-73 | capitalising twice is capitalising once |
| Format.GroupThousandsWellGrouped | src/utils/format.ts:79-81 | in a run of digits, commas stand exactly at every fourth place from the right, so the first group has one to three digits and every later group three |
| Format.GroupThousandsKeepsDigits | src/utils/format.ts:79-81 | deleting the commas gives back the digits |
| Format.NumberWithCommas | src/utils/format.ts:77-81 | for an integer: deleting the commas gives its decimal text, and the digits are well grouped after any minus sign |
| Format.TwelveThousand | src/utils/format.ts:77 | 12000 is written "12,000" |
| Settings.UpdateSettings | src/hooks/useSettings.tsx:102-104 | each key present in the patch takes the patch's value; every other key keeps the stored value |
| Settings.UpdatesCompose | src/hooks/useSettings.tsx:102-104 | two updates in a row are one update with the later patch winning key by key |
| Settings.UpdateIdentityAndIdempotence | src/hooks/useSettings.tsx:102-104 | an empty patch changes nothing, and applying a patch twice is applying it once |
| Settings.ResetSettings | src/hooks/useSettings.tsx:17-24 | the defaults: system theme, notifications and sound on, volume 70, comfortable density, sidebar expanded |
| Settings.ResetForgetsUpdates | src/hooks/useSettings.tsx:106-108 | resetting gives the same record whatever updates came before |
| Settings.SetTheme | src/hooks/useSettings.tsx:110-112 | the theme becomes the one given and nothing else changes |
| Settings.SetThemeIsThemeOnlyUpdate | src/hooks/useSettings.tsx:110-112 | setting the theme is a partial update with only the theme key |
| Settings.AppliedTheme | src/hooks/useSettings.tsx:56-65 | never "system"; an explicit theme is returned as is; "system" is dark exactly when a window exists and prefers dark |
| Settings.ToggleTheme | src/hooks/useSettings.tsx:114-121 | never yields "system" and changes nothing but the theme |
| Settings.ToggleFlipsAppliedTheme | src/hooks/useSettings.tsx:114-121 | the toggle lands on the opposite of the theme on screen |
| Settings.ToggleTwice | src/hooks/useSettings.tsx:114-121 | toggling an explicit theme twice restores it; from "system" two toggles land on the theme the preference showed |
| Settings.ClampVolume | src/hooks/useSettings.tsx:124 | the result lies in [0, 100], in-range values pass unchanged, and values outside stick to the nearer bound |
| Settings.SetSoundVolume | src/hooks/useSettings.tsx:123-126 | for a volume `num / den`: the stored volume lies in [0, 100]; below 0.5 it is 0, from 99.5 on it is 100, and in between it is the nearest integer with halves rounded up; an in-range integer is stored as given; no other key changes |
| Settings.SetSoundVolumeIdempotent | src/hooks/useSettings.tsx:123-126 | setting the stored volume again changes nothing |
| UserTable.Filtered | src/components/users/UserTable.tsx:37-41 | a blank query shows everyone; otherwise exactly the users whose lower-cased "name email" contains the trimmed lower-cased query, in order |
| UserTable.SearchIgnoresQueryCase | src/components/users/UserTable.tsx:38 | the search ignores the case of the query |
| UserTable.Paged | src/components/users/UserTable.tsx:43-46 | page `p` is the slice `[(p-1)*10, p*10)` of the filtered list, clamped to its length, so at most ten rows |
| UserTable.UserOnItsPage | src/components/users/UserTable.tsx:43-46 | the `i`-th filtered user appears on page `i / 10 + 1` at row `i % 10` |
| UserTable.PagesPastTheEndAreEmpty | src/components/users/UserTable.tsx:43-46 | a page starting past the list is empty |
| UserTable.ToggleActive | src/components/users/UserTable.tsx:48-49 | only users with that id flip `active`; nothing else changes |
| UserTable.ToggleActiveInvolution | src/components/users/UserTable.tsx:48-49 | toggling the same id twice is the identity |
| UserTable.TogglesCommute | src/components/users/UserTable.tsx:48-49 | toggles of two ids commute |
| UserTable.Step | src/components/users/UserTable.tsx:58-107 | a query change resets the page to 1; Prev stops at 1; Next adds one without bound |
| UserTable.PageStaysPositive | src/components/users/UserTable.tsx:58-107 | no sequence of keystrokes and clicks takes the page below 1 |
| UserTable.NextThenPrev | src/components/users/UserTable.tsx:106-107 | Next then Prev returns to the starting page |
| UsersPage.EscapeJsonChar | src/pages/Users.tsx:24 | one character as `JSON.stringify` writes it: never a raw control character; ordinary characters pass unchanged |
| UsersPage.JsonString | src/pages/Users.tsx:24 | a quoted string without raw control characters |
| UsersPage.UnescapeEscape | src/pages/Users.tsx:24 | reading back an escaped body gives the original text |
| UsersPage.JsonStringRoundTrip | src/pages/Users.tsx:24 | every JSON-encoded cell reads back as the original value |
| UsersPage.ToCsv | src/pages/Users.tsx:20-26 | the output is empty exactly when there are no rows |
| UsersPage.ToCsvLines | src/pages/Users.tsx:22-25 | split at line feeds, the text is the header (the first row's keys) followed by one line per row, `rows + 1` lines in all |
| UsersPage.ExportRow | src/pages/Users.tsx:71-78 | the exported row's keys are id, name, email, plan, active, createdAt, in that order, holding the user's id, name, email and plan, "yes" or "no" for the active flag, and the ISO text of the creation time |
| UsersPage.ExportUsers | src/pages/Users.tsx:70-83 | the export is empty exactly when there are no users |
| UsersPage.ExportHeader | src/pages/Users.tsx:70-79 | the export's first line is the six keys and it has one line per user besides |
| UsersPage.ComputeTotals | src/pages/Users.tsx:63-68 | active is the number of active users, inactive the rest, the total the list length; active equals the total exactly when everyone is active |
| UsersPage.BulkToggleActive | src/pages/Users.tsx:98-101 | every user's `active` becomes the given value; length, order and other fields stay |
| UsersPage.BulkToggleTotals | src/pages/Users.tsx:63-101 | after bulk activation everyone counts as active; after bulk deactivation nobody does |
| UsersPage.InviteName | src/pages/Users.tsx:111 | the text before the first '@', or "Invited User" when that is empty |
| UsersPage.Invite | src/pages/Users.tsx:103-117 | a blank address is refused and adds nobody; otherwise an active free user named after the address is prepended to the unchanged list |
| UsersPage.GenerateDemoUsers | src/pages/Users.tsx:38-53 | exactly `count` users; user `i` has plan `plans[i mod 4]`, email `demo{i+1}@example.com`, name "Demo User {i+1}" and is `i` days old |
| UsersPage.DemoEmailsDistinct | src/pages/Users.tsx:43 | no two demo users share an address |
| UsersPage.DemoPlansCycle | src/pages/Users.tsx:50 | the demo plans repeat every four users |
| ActiveUsers.ParseNumber | src/api/mock/activeUsers.ts:125 | blank text is 0; a run of digits (with surrounding whitespace), optionally after a "-" or "+" sign, is its signed value; every other text is `NaN` |
| ActiveUsers.JsRem | src/api/mock/activeUsers.ts:126 | the remainder takes the sign of the dividend |
| ActiveUsers.PadStart2 | src/api/mock/activeUsers.ts:127 | short text is left-padded with zeros to two characters; longer text is unchanged |
| ActiveUsers.NextLabel | src/api/mock/activeUsers.ts:125-127 | a non-number hour gives "NaN:00"; an hour `h >= -1` gives the clock label of `(h + 1) mod 24`; a lower hour keeps the sign of JavaScript's remainder, so `h = -5` gives "-4:00" and `h = -25` gives "00:00" |
| ActiveUsers.ClockRoundTrip | src/api/mock/activeUsers.ts:125 | a clock label reads back as its hour |
| ActiveUsers.NextClock | src/api/mock/activeUsers.ts:124-128 | the label after "HH:00" is the next hour's, "23:00" wrapping to "00:00" |
| ActiveUsers.NextOfHour | src/api/mock/activeUsers.ts:124-128 | any label whose hour reads as `h >= -1` is followed by the clock label of `(h + 1) mod 24` |
| ActiveUsers.AdvanceClock | src/api/mock/activeUsers.ts:124-128 | from a clock label, `n` steps advance the hour by `n` modulo 24 |
| ActiveUsers.Tick | src/api/mock/activeUsers.ts:99-119 | one new point at the end with the next label and the last point's region and device; the oldest point goes once the series exceeds 24; an empty series throws (`None`) |
| ActiveUsers.Slide | src/api/mock/activeUsers.ts:100-115 | the window gains the new point at its end; under 24 points it keeps all the old ones, otherwise it drops exactly its oldest, so a window of at most 24 stays within 24 while a longer series keeps its length |
| ActiveUsers.TicksKeepWindow | src/api/mock/activeUsers.ts:99-119 | a series of at most 24 points grows by one per tick up to 24 and stays there, its newest label one step further per tick |
| ActiveUsers.Tallied | src/api/mock/activeUsers.ts:50-58 | a key for exactly the regions (or devices) present, each mapped to the sum of the values of the points with that key |
| ActiveUsers.RegionTally | src/api/mock/activeUsers.ts:50-53 | a key for exactly the regions present, each mapped to the sum of the values of the points from that region |
| ActiveUsers.DeviceTally | src/api/mock/activeUsers.ts:55-58 | a key for exactly the devices present, each mapped to the sum of the values of the points from that device |
| Common.Accumulate | src/api/mock/activeUsers.ts:50-53 | the keyed reduce has a key for exactly the keys of the entries, each mapped to the total weight of the entries with that key |
| Common.Tally | src/api/mock/activityLog.ts:93-96 | the counting reduce maps exactly the keys present to their multiplicities |
| ActiveUsers.FetchUserStats | src/api/mock/activeUsers.ts:43-71 | on non-empty data: the total is the sum of values, the peak is the first point of the data with the largest value, the average is the rounded mean, and the tallies have exactly the regions and devices present, each mapped to the sum of its points' values; empty data throws (`None`) |
| ActiveUsers.StatsTalliesAddUp | src/api/mock/activeUsers.ts:46-58 | the per-region and per-device tallies each add up to the total |
| ActiveUsers.Aggregate | src/api/mock/activeUsers.ts:73-91 | one global point per label with the rolled value |
| ActiveUsers.FetchActiveUsers | src/api/mock/activeUsers.ts:9-41 | week gives seven global points Mon-Sun valued in [2000, 7000) and month four points Week 1-4 valued in [10000, 25000), discarding the filters; otherwise every result matches the supplied region and device filters |
| ActiveUsers.FiltersCombine | src/api/mock/activeUsers.ts:20-27 | the two filters in a row keep exactly the points matching both, whichever runs first |
| Sorting.SortByKey | src/api/mock/signupSources.ts:35-46 | the result is sorted by the key in the order asked for, is a permutation of the input, and is stable: the elements sharing any one key appear in their input order |
| Sorting.TopByKey | src/api/mock/signupSources.ts:68 | the first of a stable descending sort: the first element of the list whose key bounds every other, absent exactly for an empty list |
| SignupSources.SortOrder | src/api/mock/signupSources.ts:39-41 | ascending exactly when "asc" was asked for; anything else sorts descending |
| SignupSources.FetchSources | src/api/mock/signupSources.ts:25-56 | without a sort key the data order is kept; with one the result is sorted and drawn from the data, and sources with equal keys keep their data order; no limit or 0 keeps a permutation of everything; a positive limit keeps `min(limit, length)` |
| SignupSources.FetchSourcesIsTopN | src/api/mock/signupSources.ts:34-51 | every source the limit cut off comes after every source it kept |
| SignupSources.FetchSourceStats | src/api/mock/signupSources.ts:58-79 | the total is the sum of counts; the average is the rounded mean; the top source is the first source of the data with the largest count; both are absent for an empty list |
| SignupSources.FindByName | src/api/mock/signupSources.ts:84 | the index of the first source with that name, absent exactly when none has it |
| SignupSources.ShareOf | src/api/mock/signupSources.ts:93 | the share in tenths of a percent, rounded, and not finite exactly for a zero total |
| SignupSources.UpdateSourceCount | src/api/mock/signupSources.ts:81-100 | an unknown name is rejected with "Source not found"; otherwise only the first matching source changes, taking the new count and its share of the pre-update total |
| SignupSources.UpdateMovesTotal | src/api/mock/signupSources.ts:90-94 | after an update the total moves by the difference between the new and the old count, and every other source is untouched |
| SignupSources.SimulatedUpdate | src/api/mock/signupSources.ts:117-127 | every count is at least 100, and a count that was at least 125 drops by at most 25 and rises by less than 25; each share is a rolled value in [0, 5] percent; nothing else changes |
| SignupSources.UpdateAfterDriftIsFinite | src/api/mock/signupSources.ts:93-123 | once the drift has run, a manual update of a known source always gets a finite share |

## Left out

- Timers, promises and subscriptions: `setTimeout`/`setInterval` delays, subscriber lists of the mock services and their notification calls are left out; each timer callback is an explicit step (`NotificationFeed.Tick`, `ActiveUsers.Tick`, `ActivityStore.SimulatedUpdate`, `SignupSources.SimulatedUpdate`).
- Clock, randomness and ids: `Date.now()`, `new Date()`, `Math.random()` and `uuid()` are parameters; the random event choice, rolls and ids are passed in with the ranges the source draws them from.
- `Date` parsing and locale formatting (`formatDate`, `formatDateTime`, `toLocaleString`, `toISOString`): timestamps are epoch milliseconds, a locale label is the `Absolute` marker or a caller-supplied function, and local midnight and the month-ago date are parameters.
- Floating point: signup percentages are kept in whole tenths of a percent (what `Math.round(x) / 10` stores), rounded from the exact quotient `1000 * count / total` rather than the floating-point product `(count / total) * 1000`, so at an exact half the two can differ (201 of 400 is stored as 50.2 by the source and 50.3 here); averages are rounded integer quotients; the constant growth figures (8.7 and 12.5) are not modelled.
- Browser APIs: localStorage persistence, `matchMedia` (a parameter), DOM class toggling, Blob downloads, `alert` and `confirm`.
- SignupSources.FetchSources: sorting by name (`localeCompare`) is not modelled, only the numeric keys; sorting by percentage requires every share to be finite, because a comparator over `NaN` gives no defined order.
- ActiveUsers.ParseNumber: `Number()` of decimal fractions, exponents, `Infinity` or hex, octal and binary text is treated as `NaN`; hour labels never take those forms.
- ActiveUsers.FetchActiveUsers: the `interval` option is accepted by the source but unused, so it is not modelled.
- Common.ToLower: lower-casing covers ASCII letters only, not Unicode case mapping; `UserTable.Filtered` and `Format.Capitalize` inherit this.
- UsersPage.UnescapeJson: lone surrogates (`\ud800`-`\udfff`) are rejected by the reader, since a Dafny `char` cannot hold one; the writer never produces them for ordinary text.
- UsersPage.InviteName: states the name for a non-blank address; the address itself is not checked for being well-formed, as in the source.
- UsersPage.ToCsv: every value is a string (the export only writes strings); `null`/missing values read as the empty string.
- Format.NumberWithCommas: modelled on integers; the regular expression on arbitrary text (decimals, letters) is not modelled. Numbers of magnitude 10^21 and above, which `toString` writes in exponent form ("1e+21"), and integers beyond 2^53, which a JavaScript number cannot hold exactly, are written here as their exact decimal digits.
- Format.TruncateText: lengths count Unicode scalar values (Dafny characters), while `length` and `slice` count UTF-16 code units; text outside the Basic Multilingual Plane is cut at a different place. The default `max = 40` is not modelled: the limit is always passed.
- NotificationStore.Recent: the default `hours = 24` is not modelled; the number of hours is always passed.
- ActivityStore.FetchActivityStats: the breakdowns are modelled as maps that start empty, while the source reduces into a plain object literal; severities are a closed set, but a category named "__proto__" would never be stored there and one named "constructor" would start from the inherited function and end as a string, so for those two category names the key-set and count clauses of `categoryBreakdown` do not describe the source.
- ActiveUsers.FetchUserStats: the same plain-object reduce builds `byRegion` and `byDevice`; a region or device named "__proto__" or "constructor" falls outside the key-set and per-key sum clauses for the reason above.
- NotificationFeed.FetchInitial: requires `count <= 4`; beyond four the source reads past its fixed arrays and yields `undefined` titles.
- `removeAll` and `removeRead`, called by the notification drawer, have no definition in the provider, so they are not modelled.
- The "Mark Unread" menu entry calls `markRead`, so no unread toggle exists in the model.
- The user table's Reset button reloads the stored list; it is an assignment with nothing to prove.
- ActivityStore.ClearOldActivities: takes the cutoff time itself; the source derives it as `days` (default 30) calendar days before now with `setDate`, which crosses daylight-saving changes in local time, and that date arithmetic is a parameter here.
- Settings.SetSoundVolume: takes the volume as a finite rational `num / den`; `NaN` (which `Math.round` and `Math.max` pass through, storing `NaN`) and infinities are not modelled.
- UsersPage.GenerateDemoUsers: the default `count = 50` is not modelled: the count is always passed.
- SignupSources.ShareOf: rounds the exact quotient `1000 * count / total`; where the floating-point product falls just below a half (201 of 400 gives 502.49999999999994), the source rounds down and the model up.
- SignupSources.UpdateSourceCount: the new share is computed against the total before the update (as the source does), not the total after it; the contract states exactly that.
