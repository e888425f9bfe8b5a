/** The mock notification feed: a set of listeners, a generation timer that
    runs while anyone listens, the random SaaS event it fabricates on each
    tick, and the fixed batch served on mount. The timer, the clock, the
    random choice and the uuid generator are parameters. */
module NotificationFeed {
  import opened Common
  import opened NotificationStore

  /** Identity of a registered callback (callbacks compare by reference). */
  type Listener = nat

  /** `running` stands for the interval id being set. */
  datatype Feed = Feed(listeners: set<Listener>, running: bool, seeded: bool)

  const Idle: Feed := Feed({}, false, false)

  /** The timer runs exactly when the feed is seeded. */
  predicate Consistent(f: Feed) { f.running == f.seeded }

  /** `start`: a no-op once seeded. */
  function Start(f: Feed): (r: Feed)
    ensures f.seeded ==> r == f
    ensures !f.seeded ==> r.running && r.seeded
    ensures r.listeners == f.listeners
  {
    if f.seeded then f else f.(seeded := true, running := true)
  }

  /** `stop`: clears the timer and the seeded flag. */
  function Stop(f: Feed): (r: Feed)
    ensures !r.running && !r.seeded
    ensures r.listeners == f.listeners
  {
    f.(running := false, seeded := false)
  }

  /** `subscribe`: add the callback, start generating when no timer runs. */
  function Subscribe(f: Feed, cb: Listener): (r: Feed)
    ensures r.listeners == f.listeners + {cb}
    ensures f.running ==> r.running == f.running && r.seeded == f.seeded
    ensures Consistent(f) ==> r.running && r.seeded
  {
    var g := f.(listeners := f.listeners + {cb});
    if !g.running then Start(g) else g
  }

  /** `unsubscribe`: drop the callback, stop once nobody listens. */
  function Unsubscribe(f: Feed, cb: Listener): (r: Feed)
    ensures r.listeners == f.listeners - {cb}
    ensures r.listeners == {} ==> !r.running && !r.seeded
    ensures r.listeners != {} ==> r.running == f.running && r.seeded == f.seeded
  {
    var g := f.(listeners := f.listeners - {cb});
    if |g.listeners| == 0 then Stop(g) else g
  }

  /** One timer tick: every current listener receives the same notification;
      without a running timer nothing is delivered. */
  function Tick(f: Feed, n: Notification): (deliveries: map<Listener, Notification>)
    ensures f.running ==> deliveries.Keys == f.listeners
    ensures !f.running ==> deliveries == map[]
    ensures forall l :: l in deliveries ==> deliveries[l] == n
  {
    if f.running then map l | l in f.listeners :: n else map[]
  }

  /** Every transition keeps the timer and the seeded flag in step. */
  lemma TransitionsStayConsistent(f: Feed, cb: Listener)
    requires Consistent(f)
    ensures Consistent(Idle)
    ensures Consistent(Start(f)) && Consistent(Stop(f))
    ensures Consistent(Subscribe(f, cb)) && Consistent(Unsubscribe(f, cb))
  {
  }

  /** Listeners form a set: subscribing twice is subscribing once. */
  lemma SubscribeIdempotent(f: Feed, cb: Listener)
    requires Consistent(f)
    ensures Subscribe(Subscribe(f, cb), cb) == Subscribe(f, cb)
  {
    assert f.listeners + {cb} + {cb} == f.listeners + {cb};
  }

  /** After `stop`, a later `start` runs again. */
  lemma StopThenStartRestarts(f: Feed)
    ensures Start(Stop(f)).running && Start(Stop(f)).seeded
  {
  }

  /** Subscribing and unsubscribing the only listener returns to idle. */
  lemma SubscribeUnsubscribeRoundTrip(cb: Listener)
    ensures Unsubscribe(Subscribe(Idle, cb), cb) == Idle
  {
    assert {cb} - {cb} == {};
  }

  // ----- the generated events -----

  datatype Event = Event(title: string, message: string, severity: Severity)

  const SaasEvents: seq<Event> := [
    Event("New User Signed Up", "Alex Chen just signed up for the Pro plan", Success),
    Event("Payment Failed", "Payment processing failed for user #12345 - Retry required", Error),
    Event("Server Alert", "High latency detected in US-East region", Warning),
    Event("Subscription Renewed", "Annual subscription renewed for Maria Garcia", Success),
    Event("API Rate Limit", "API rate limit exceeded for client ID: CL_78910", Warning),
    Event("Feature Launch", "New analytics dashboard feature is now live", Info)
  ]

  /** `generate`, with `choice` standing for `Math.floor(Math.random() * 6)`. */
  function Generate(choice: nat, id: string, now: int): (n: Notification)
    requires choice < |SaasEvents|
    ensures !n.read
    ensures n.id == id && n.timestamp == now
    ensures n.title == SaasEvents[choice].title && n.message == SaasEvents[choice].message
    ensures n.severity == Some(SaasEvents[choice].severity)
    ensures n.priority == Some(High) <==> n.severity == Some(Error)
    ensures n.priority == Some(High) || n.priority == Some(Medium)
  {
    var e := SaasEvents[choice];
    Notification(id, e.title, e.message, now, false, Some(e.severity),
      Some(if e.severity == Error then High else Medium))
  }

  /** Only the payment failure is an error, so only it is high priority. */
  lemma OnlyPaymentFailureIsHighPriority(choice: nat, id: string, now: int)
    requires choice < |SaasEvents|
    ensures Generate(choice, id, now).priority == Some(High) <==> choice == 1
  {
  }

  // ----- the batch served on mount -----

  const InitialTitles: seq<string> :=
    ["System Update", "User Feedback", "Maintenance Scheduled", "New Integration"]

  const InitialMessages: seq<string> := [
    "System update completed successfully",
    "New user feedback received for dashboard",
    "Maintenance scheduled for Saturday 2AM UTC",
    "Slack integration is now available"
  ]

  const InitialSeverities: seq<Severity> := [Success, Info, Warning, Success]

  /** The `k`-th notification of the initial batch. */
  function InitialItem(k: nat, id: string, baseTime: int): Notification
    requires k < 4
  {
    Notification(id, InitialTitles[k], InitialMessages[k], baseTime - k * HourMs,
                 k > 1, Some(InitialSeverities[k]), None)
  }

  /** `fetchInitial(count)`: one notification per hour going back from
      `baseTime`; the first two unread. */
  method FetchInitial(count: int, baseTime: int, ids: seq<string>) returns (r: seq<Notification>)
    requires count <= 4
    requires |ids| >= count
    ensures |r| == Max(count, 0)
    ensures forall i :: 0 <= i < |r| ==> r[i].id == ids[i]
    ensures forall i :: 0 <= i < |r| ==> r[i].read == (i > 1)
    ensures forall i :: 0 <= i < |r| ==> r[i].timestamp == baseTime - i * HourMs
    ensures forall i :: 0 < i < |r| ==> r[i - 1].timestamp - r[i].timestamp == HourMs
    ensures forall i :: 0 <= i < |r| ==> r[i].title == InitialTitles[i] && r[i].message == InitialMessages[i]
    ensures forall i :: 0 <= i < |r| ==> r[i].severity == Some(InitialSeverities[i]) && r[i].priority == None
    ensures UnreadCount(r) == Min(|r|, 2)
  {
    r := [];
    var i := 0;
    while i < count
      invariant 0 <= i <= Max(count, 0)
      invariant |r| == i
      invariant forall k :: 0 <= k < i ==> r[k] == InitialItem(k, ids[k], baseTime)
    {
      r := r + [InitialItem(i, ids[i], baseTime)];
      i := i + 1;
    }
    InitialBatchUnread(r);
  }

  lemma InitialBatchUnread(r: seq<Notification>)
    requires |r| <= 4
    requires forall i :: 0 <= i < |r| ==> r[i].read == (i > 1)
    ensures UnreadCount(r) == Min(|r|, 2)
  {
    UnreadCountIsUnreadItems(r);
    if |r| > 2 {
      FilterDropsAll(r[2..], IsUnread);
      assert r == r[..2] + r[2..];
      FilterAppend(r[..2], r[2..], IsUnread);
    }
    if |r| >= 2 {
      assert r[..2] == [r[0], r[1]];
      assert r[..2][1..] == [r[1]];
    }
  }
}
