/** The dashboard's ticket poller. Each run of the mount effect tracks a view,
    takes a fresh liveness flag and starts fetching (at once, on a timer, on
    focus and when the page becomes visible); a completion writes its result
    only while the flag of the run that issued it is still set, and that run's
    cleanup clears it. The timer and the listeners are not modelled: each fetch
    completion is an event that names the run it was issued in. */
module DashboardPoller {
  import opened Wrappers
  import opened Seqs
  import opened Tickets
  import opened Analytics

  const PollIntervalMs := 3000
  const ViewEvent := "dashboard_views"

  /** `run` numbers the runs of the mount effect so far; `mounted` is the
      liveness flag of the latest run (every earlier run's flag has been
      cleared by its cleanup, which React performs before running the effect
      again). */
  datatype PollState = PollState(run: nat, mounted: bool, tickets: seq<Ticket>, loading: bool, lastSyncAt: Option<int>)

  /** A completion names the run of the effect whose `fetchTickets` issued it. */
  datatype PollEvent =
    | Activate
    | FetchOk(run: nat, payload: Payload, now: int)
    | FetchFail(run: nat, now: int)
    | Deactivate

  /** The state before the effect runs: no tickets, loading, never synced. */
  function Initial(): (s: PollState)
    ensures s.run == 0 && !s.mounted && s.tickets == [] && s.loading && s.lastSyncAt.None?
  {
    PollState(0, false, [], true, None)
  }

  /** The `isMounted` flag of run `run`: set only for the latest run, until its cleanup. */
  predicate Live(s: PollState, run: nat) {
    s.mounted && run == s.run
  }

  /** One event. Activation starts a new run with its flag set; cleanup clears
      it. A completion whose run's flag is cleared changes nothing; one whose
      run is live replaces the tickets (an array as received, anything else
      and any failure as the empty list), ends loading and records the time of
      the sync. */
  function Step(s: PollState, e: PollEvent): (t: PollState)
    ensures (e.FetchOk? || e.FetchFail?) && !Live(s, e.run) ==> t == s
    ensures e.FetchOk? && Live(s, e.run) ==> t == s.(tickets := Received(e.payload), loading := false, lastSyncAt := Some(e.now))
    ensures e.FetchFail? && Live(s, e.run) ==> t == s.(tickets := [], loading := false, lastSyncAt := Some(e.now))
    ensures e.Activate? ==> t == s.(run := s.run + 1, mounted := true)
    ensures e.Deactivate? ==> t == s.(mounted := false)
  {
    match e
    case Activate => s.(run := s.run + 1, mounted := true)
    case Deactivate => s.(mounted := false)
    case FetchOk(run, payload, now) =>
      if !Live(s, run) then s else s.(tickets := Received(payload), loading := false, lastSyncAt := Some(now))
    case FetchFail(run, now) =>
      if !Live(s, run) then s else s.(tickets := [], loading := false, lastSyncAt := Some(now))
  }

  function Run(s: PollState, events: seq<PollEvent>): PollState
    decreases |events|
  {
    if events == [] then s else Run(Step(s, events[0]), events[1..])
  }

  /** The data the page shows: everything but the liveness flag. */
  predicate SameData(s: PollState, t: PollState) {
    s.tickets == t.tickets && s.loading == t.loading && s.lastSyncAt == t.lastSyncAt
  }

  /** A completion issued in run `run`. */
  predicate IssuedIn(e: PollEvent, run: nat) {
    (e.FetchOk? || e.FetchFail?) && e.run == run
  }

  /** Run `run` has been cleaned up in `s`: its flag can never be set again. */
  predicate CleanedUp(s: PollState, run: nat) {
    run < s.run || (run == s.run && !s.mounted)
  }

  /** Once run `run` is cleaned up, its completions are no-ops wherever they
      fall in any later trace, re-activations included. */
  lemma {:induction false} CleanedUpRunIgnored(s: PollState, run: nat, events: seq<PollEvent>)
    requires CleanedUp(s, run)
    ensures Run(s, events) == Run(s, Filter(events, e => !IssuedIn(e, run)))
    decreases |events|
  {
    if events != [] {
      var e, rest := events[0], events[1..];
      var kept := Filter(rest, e => !IssuedIn(e, run));
      if IssuedIn(e, run) {
        assert Filter(events, e => !IssuedIn(e, run)) == kept;
        assert Step(s, e) == s;
        CleanedUpRunIgnored(s, run, rest);
      } else {
        assert Filter(events, e => !IssuedIn(e, run)) == [e] + kept;
        assert ([e] + kept)[1..] == kept;
        CleanedUpRunIgnored(Step(s, e), run, rest);
      }
    }
  }

  /** After cleanup, the completions of the fetches that run issued make no
      difference to anything that follows, a later activation included (as when
      React runs the effect twice); on their own they never touch the tickets,
      the loading flag or the sync time. */
  lemma LateCompletionsIgnored(s: PollState, events: seq<PollEvent>)
    ensures var t := Step(s, Deactivate);
      Run(t, events) == Run(t, Filter(events, e => !IssuedIn(e, s.run)))
    ensures (forall i :: 0 <= i < |events| ==> IssuedIn(events[i], s.run)) ==>
      SameData(Run(Step(s, Deactivate), events), s)
  {
    var t := Step(s, Deactivate);
    CleanedUpRunIgnored(t, s.run, events);
    if forall i :: 0 <= i < |events| ==> IssuedIn(events[i], s.run) {
      FilterNone(events, e => !IssuedIn(e, s.run));
      assert Run(t, []) == t;
    }
  }

  /** React's double run of the effect: a completion of the first run's fetch
      that arrives after the second run started is dropped. */
  lemma DoubleRunDropsFirstFetch(s: PollState, payload: Payload, now: int)
    ensures var t := Run(s, [Activate, Deactivate, Activate]);
      Step(t, FetchOk(s.run + 1, payload, now)) == t
  {
    assert Run(s, [Activate, Deactivate, Activate])
      == Step(Step(Step(s, Activate), Deactivate), Activate);
  }

  /** The page is loading exactly until the first completion it accepts, which
      is also the first time a sync time is recorded. */
  predicate LoadingInv(s: PollState) {
    s.loading <==> s.lastSyncAt.None?
  }

  lemma {:induction false} LoadingInvRun(s: PollState, events: seq<PollEvent>)
    requires LoadingInv(s)
    ensures LoadingInv(Run(s, events))
    decreases |events|
  {
    if events != [] {
      LoadingInvRun(Step(s, events[0]), events[1..]);
    }
  }

  /** Once mounted, a completion that carries an array shows that array, and
      one that fails or carries anything else empties the list. */
  lemma MountedCompletion(s: PollState, e: PollEvent)
    requires (e.FetchOk? || e.FetchFail?) && Live(s, e.run)
    ensures var t := Step(s, e);
      && !t.loading && t.lastSyncAt == Some(e.now)
      && (e.FetchOk? && e.payload.TicketArray? ==> t.tickets == e.payload.items)
      && (e.FetchFail? || e.payload.NotAnArray? ==> t.tickets == [])
  {
  }

  /** The dashboard component's poller, with its state variables, the number
      of the latest effect run and that run's liveness flag. */
  class Poller {
    var run: nat
    var isMounted: bool
    var tickets: seq<Ticket>
    var loading: bool
    var lastSyncAt: Option<int>

    function State(): PollState
      reads this
    {
      PollState(run, isMounted, tickets, loading, lastSyncAt)
    }

    constructor()
      ensures State() == Initial()
    {
      run := 0;
      isMounted := false;
      tickets := [];
      loading := true;
      lastSyncAt := None;
    }

    /** A run of the mount effect: tracks a dashboard view, then takes a
        fresh flag, set. */
    method Activate(storage: LocalStorage?, now: int)
      modifies this, storage
      ensures State() == Step(old(State()), PollEvent.Activate)
      ensures storage != null ==> storage.items == Track(old(storage.items), ViewEvent, map[], now)
    {
      TrackInteraction(storage, ViewEvent, map[], now);
      run := run + 1;
      isMounted := true;
    }

    /** A fetch issued in run `issuedIn` that resolved with `payload` at time `now`. */
    method FetchSucceeded(issuedIn: nat, payload: Payload, now: int)
      modifies this
      ensures State() == Step(old(State()), FetchOk(issuedIn, payload, now))
    {
      if !isMounted || issuedIn != run {
        return;
      }
      tickets := Received(payload);
      loading := false;
      lastSyncAt := Some(now);
    }

    /** A fetch issued in run `issuedIn` that was rejected, observed at time `now`. */
    method FetchFailed(issuedIn: nat, now: int)
      modifies this
      ensures State() == Step(old(State()), FetchFail(issuedIn, now))
    {
      if !isMounted || issuedIn != run {
        return;
      }
      tickets := [];
      loading := false;
      lastSyncAt := Some(now);
    }

    /** The effect's cleanup. */
    method Deactivate()
      modifies this
      ensures State() == Step(old(State()), PollEvent.Deactivate)
    {
      isMounted := false;
    }
  }
}
