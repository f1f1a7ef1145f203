/** The interaction tracker: per-user counters and a bounded log of recent
    events, kept as a JSON snapshot in the browser's local storage under a key
    scoped to the signed-in user. */
module Analytics {
  import opened Wrappers
  import opened Seqs

  const StoragePrefix := "zt_analytics_v1"
  const MaxEvents := 80
  /** The local-storage key under which the session (and its user) is kept. */
  const SessionKey := "user"

  /** A value in an event's metadata object. */
  datatype MetaValue = MNum(n: int) | MText(s: string) | MNull
  type Meta = map<string, MetaValue>

  /** A call `trackInteraction(name, meta)` that a page makes. */
  datatype Interaction = Interaction(name: string, meta: Meta)

  /** One entry of the recent-event log; `at` is the time of tracking. */
  datatype Event = Event(event: string, at: int, meta: Meta)

  /** The `user` object inside the stored session. */
  datatype SessionUser = SessionUser(email: Option<string>, username: Option<string>)

  /** What `JSON.parse` yields, as far as this code looks into it: `null`, a
      primitive (number, string, boolean), or an object or array whose fields
      `user`, `counters`, `recent` and `updated_at` may each be absent. */
  datatype Json =
    | JNull
    | JPrimitive
    | JObject(user: Option<SessionUser>, counters: Option<map<string, int>>,
              recent: Option<seq<Event>>, updatedAt: Option<int>)

  /** A string held in local storage: empty, not valid JSON, or valid JSON. */
  datatype Raw = EmptyText | Unparsable | Parses(json: Json)

  /** The browser's local storage; a null reference models the absence of a
      `window` (a non-browser context). */
  class LocalStorage {
    var items: map<string, Raw>

    constructor(items: map<string, Raw>)
      ensures this.items == items
    {
      this.items := items;
    }
  }

  function Lookup(items: map<string, Raw>, key: string): Option<Raw> {
    if key in items then Some(items[key]) else None
  }

  /** `safeParse(value, fallback)`: never fails; the fallback stands in for a
      missing, empty or unparseable string. */
  function SafeParse(value: Option<Raw>, fallback: Json): (r: Json)
    ensures value.None? || value == Some(EmptyText) || value == Some(Unparsable) ==> r == fallback
    ensures value.Some? && value.value.Parses? ==> r == value.value.json
  {
    match value
    case Some(Parses(j)) => j
    case _ => fallback
  }

  /** A JavaScript string is truthy when it is present and non-empty. */
  predicate Truthy(s: Option<string>) { s.Some? && s.value != "" }

  /** `getUserScope()`: the session user's email, else username, else "guest". */
  function UserScope(storage: Option<map<string, Raw>>): (scope: string)
    ensures scope != ""
    ensures storage.None? ==> scope == "guest"
    ensures storage.Some? ==>
      match SafeParse(Lookup(storage.value, SessionKey), JNull)
      case JObject(Some(u), _, _, _) =>
        (Truthy(u.email) ==> scope == u.email.value)
        && (!Truthy(u.email) && Truthy(u.username) ==> scope == u.username.value)
        && (!Truthy(u.email) && !Truthy(u.username) ==> scope == "guest")
      case _ => scope == "guest"
  {
    match storage
    case None => "guest"
    case Some(items) =>
      match SafeParse(Lookup(items, SessionKey), JNull)
      case JObject(Some(u), _, _, _) =>
        if Truthy(u.email) then u.email.value
        else if Truthy(u.username) then u.username.value
        else "guest"
      case _ => "guest"
  }

  /** `storageKey()`: the prefix, a colon, and the user scope. */
  function StorageKey(storage: Option<map<string, Raw>>): (key: string)
    ensures |key| > |StoragePrefix| + 1
    ensures key[..|StoragePrefix| + 1] == StoragePrefix + ":"
    ensures key[|StoragePrefix| + 1..] == UserScope(storage)
  {
    StoragePrefix + ":" + UserScope(storage)
  }

  /** `getDefaultSnapshot()`. */
  function DefaultSnapshot(): (d: Json)
    ensures d.JObject? && d.counters == Some(map[]) && d.recent == Some([]) && d.updatedAt.None?
  {
    JObject(None, Some(map[]), Some([]), None)
  }

  /** `getInteractionSnapshot()`: the stored object for the current scope, or the
      default when there is no window or nothing usable is stored. */
  function GetInteractionSnapshot(storage: Option<map<string, Raw>>): (r: Json)
    ensures r.JObject?
    ensures storage.None? ==> r == DefaultSnapshot()
    ensures storage.Some? ==>
      var stored := Lookup(storage.value, StorageKey(storage));
      if stored.Some? && stored.value.Parses? && stored.value.json.JObject?
      then r == stored.value.json
      else r == DefaultSnapshot()
  {
    match storage
    case None => DefaultSnapshot()
    case Some(items) =>
      var stored := SafeParse(Lookup(items, StorageKey(storage)), JNull);
      if stored.JObject? then stored else DefaultSnapshot()
  }

  /** The counter of `name` in a snapshot, 0 when absent (`counters[name] || 0`). */
  function CounterOf(snapshot: Json, name: string): int
    requires snapshot.JObject?
  {
    var counters := snapshot.counters.GetOr(map[]);
    if name in counters then counters[name] else 0
  }

  /** The snapshot `trackInteraction` writes: the counter of `name` bumped, the
      new event in front of the log, the log cut to 80, the time stamped. */
  function NextSnapshot(snapshot: Json, name: string, meta: Meta, now: int): (next: Json)
    requires snapshot.JObject?
    ensures next.JObject? && next.user.None?
    ensures next.counters.Some? && name in next.counters.value
    ensures CounterOf(next, name) == CounterOf(snapshot, name) + 1
    ensures forall k :: k != name ==>
      (k in next.counters.value <==> k in snapshot.counters.GetOr(map[]))
      && CounterOf(next, k) == CounterOf(snapshot, k)
    ensures next.recent.Some?
    ensures 1 <= |next.recent.value| <= MaxEvents
    ensures next.recent.value[0] == Event(name, now, meta)
    ensures next.recent.value[1..] == Take(snapshot.recent.GetOr([]), MaxEvents - 1)
    ensures next.updatedAt == Some(now)
  {
    var counters := snapshot.counters.GetOr(map[]);
    var bumped := counters[name := CounterOf(snapshot, name) + 1];
    var event := Event(name, now, meta);
    var recent := Take([event] + snapshot.recent.GetOr([]), MaxEvents);
    assert recent[1..] == Take(snapshot.recent.GetOr([]), MaxEvents - 1);
    JObject(None, Some(bumped), Some(recent), Some(event.at))
  }

  /** The storage contents after `trackInteraction(name, meta)` at time `now`:
      a read-modify-write of the current scope's key, and nothing at all for an
      empty event name. */
  function Track(items: map<string, Raw>, name: string, meta: Meta, now: int): (r: map<string, Raw>)
    ensures name == "" ==> r == items
    ensures name != "" ==>
      var key := StorageKey(Some(items));
      && key in r
      && r[key] == Parses(NextSnapshot(GetInteractionSnapshot(Some(items)), name, meta, now))
    ensures forall k :: k != StorageKey(Some(items)) ==> (k in r <==> k in items) && (k in r ==> r[k] == items[k])
  {
    if name == "" then items
    else
      var next := NextSnapshot(GetInteractionSnapshot(Some(items)), name, meta, now);
      items[StorageKey(Some(items)) := Parses(next)]
  }

  /** Reading back what was just tracked: the scope is unchanged (the session
      key is not written unless the scope key is the session key itself), and the
      snapshot read is the one written. */
  lemma TrackThenRead(items: map<string, Raw>, name: string, meta: Meta, now: int)
    requires name != ""
    ensures var after := Track(items, name, meta, now);
      && StorageKey(Some(after)) == StorageKey(Some(items))
      && GetInteractionSnapshot(Some(after)) == NextSnapshot(GetInteractionSnapshot(Some(items)), name, meta, now)
  {
    var key := StorageKey(Some(items));
    assert key != SessionKey by {
      assert key[..|StoragePrefix| + 1] == StoragePrefix + ":";
      assert |SessionKey| < |StoragePrefix| + 1;
    }
  }

  /** `trackInteraction(name, meta)` at time `now`; a null storage models the
      absence of a window, where nothing happens. */
  method TrackInteraction(storage: LocalStorage?, name: string, meta: Meta, now: int)
    modifies storage
    ensures storage != null ==> storage.items == Track(old(storage.items), name, meta, now)
  {
    if storage == null || name == "" {
      return;
    }
    var snapshot := GetInteractionSnapshot(Some(storage.items));
    var next := NextSnapshot(snapshot, name, meta, now);
    storage.items := storage.items[StorageKey(Some(storage.items)) := Parses(next)];
  }

  /** The snapshot after tracking `events` in order, starting from `snapshot`
      (events with an empty name are ignored, as `trackInteraction` ignores them). */
  function Replay(snapshot: Json, events: seq<Event>): (r: Json)
    requires snapshot.JObject?
    ensures r.JObject?
    decreases |events|
  {
    if events == [] then snapshot
    else
      var prev := Replay(snapshot, events[..|events| - 1]);
      var e := events[|events| - 1];
      if e.event == "" then prev else NextSnapshot(prev, e.event, e.meta, e.at)
  }

  lemma TakeTake<T>(s: seq<T>, n: nat)
    requires n >= 1
    ensures Take(Take(s, n), n - 1) == Take(s, n - 1)
  {
  }

  lemma TakeCons<T>(x: T, s: seq<T>, n: nat)
    requires n >= 1
    ensures Take([x] + Take(s, n - 1), n) == Take([x] + s, n)
  {
  }

  /** Tracking one event bumps its own counter by one and no other. */
  lemma CounterStep(prev: Json, e: Event, name: string)
    requires prev.JObject?
    ensures CounterOf(NextSnapshot(prev, e.event, e.meta, e.at), name)
      == CounterOf(prev, name) + if e.event == name then 1 else 0
  {
  }

  /** From the default snapshot, every counter equals the number of tracked
      events of that name. */
  lemma {:induction false} ReplayCounters(events: seq<Event>, name: string)
    requires forall i :: 0 <= i < |events| ==> events[i].event != ""
    ensures CounterOf(Replay(DefaultSnapshot(), events), name)
      == Count(events, (e: Event) => e.event == name)
    decreases |events|
  {
    if events != [] {
      var n := |events| - 1;
      var init, e := events[..n], events[n];
      ReplayCounters(init, name);
      var prev := Replay(DefaultSnapshot(), init);
      assert Replay(DefaultSnapshot(), events) == NextSnapshot(prev, e.event, e.meta, e.at);
      CounterStep(prev, e, name);
      assert events == init + [e];
      FilterAppend(init, [e], (e: Event) => e.event == name);
    }
  }

  /** Tracking one event puts it in front of a log that holds the latest
      events of `before`. */
  lemma RecentStep(prev: Json, e: Event, before: seq<Event>)
    requires prev.JObject? && prev.recent == Some(Take(before, MaxEvents))
    ensures NextSnapshot(prev, e.event, e.meta, e.at).recent == Some(Take([e] + before, MaxEvents))
  {
    var r := NextSnapshot(prev, e.event, e.meta, e.at).recent.value;
    assert r == [e] + r[1..];
    assert r[1..] == Take(Take(before, MaxEvents), MaxEvents - 1);
    TakeCons(e, before, MaxEvents);
    TakeTake(before, MaxEvents);
  }

  /** From the default snapshot, the log holds the latest 80 events, newest first. */
  lemma {:induction false} ReplayRecent(events: seq<Event>)
    requires forall i :: 0 <= i < |events| ==> events[i].event != ""
    ensures Replay(DefaultSnapshot(), events).recent == Some(Take(Reverse(events), MaxEvents))
    decreases |events|
  {
    if events != [] {
      var n := |events| - 1;
      var init, e := events[..n], events[n];
      ReplayRecent(init);
      var prev := Replay(DefaultSnapshot(), init);
      assert Replay(DefaultSnapshot(), events) == NextSnapshot(prev, e.event, e.meta, e.at);
      assert Reverse(events) == [e] + Reverse(init);
      RecentStep(prev, e, Reverse(init));
    }
  }
}
