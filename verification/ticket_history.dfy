/** The ticket history page: a search box that filters the user's tickets,
    a trailing-debounced tracker of searches, a spreadsheet export of the
    filtered list, and a poller that keeps the last good list on failure. */
module TicketHistory {
  import opened Wrappers
  import opened Text
  import opened Seqs
  import opened Tickets
  import opened Analytics

  const PollIntervalMs := 3000
  const SearchDelayMs := 350
  const ViewEvent := "history_views"
  const SearchEvent := "history_searches"
  const ExportEvent := "history_exports"

  /** `field?.toLowerCase().includes(term)`: an absent field never matches. */
  predicate FieldMatches(field: Option<string>, term: string) {
    field.Some? && Contains(Lower(field.value), term)
  }

  /** The filter test for one ticket against the lower-cased search. */
  predicate Matches(term: string, t: Ticket) {
    FieldMatches(t.title, term) || FieldMatches(t.description, term)
    || FieldMatches(t.category, term) || FieldMatches(t.adminComment, term)
  }

  /** The `filteredTickets` memo: the search is lower-cased but not trimmed. */
  function FilteredTickets(tickets: seq<Ticket>, search: string): (r: seq<Ticket>)
    ensures |r| <= |tickets|
    ensures forall t :: t in r <==> t in tickets && Matches(Lower(search), t)
  {
    Filter(tickets, t => Matches(Lower(search), t))
  }

  /** The filtered list keeps the tickets' order. */
  lemma FilteredIsSubsequence(tickets: seq<Ticket>, search: string)
    ensures IsSubseq(FilteredTickets(tickets, search), tickets)
  {
    FilterIsSubseq(tickets, t => Matches(Lower(search), t));
  }

  predicate HasSearchableField(t: Ticket) {
    t.title.Some? || t.description.Some? || t.category.Some? || t.adminComment.Some?
  }

  /** An empty search keeps exactly the tickets with at least one searchable field. */
  lemma EmptySearch(tickets: seq<Ticket>)
    ensures FilteredTickets(tickets, "") == Filter(tickets, HasSearchableField)
  {
    forall t: Ticket
      ensures Matches(Lower(""), t) == HasSearchableField(t)
    {
      ContainsEmpty(Lower(t.title.GetOr("")));
      ContainsEmpty(Lower(t.description.GetOr("")));
      ContainsEmpty(Lower(t.category.GetOr("")));
      ContainsEmpty(Lower(t.adminComment.GetOr("")));
    }
    FilterExt(tickets, t => Matches(Lower(""), t), HasSearchableField);
  }

  /** A field that contains a longer search contains any piece of it. */
  lemma FieldNarrowing(field: Option<string>, shorter: string, longer: string)
    requires Contains(longer, shorter) && FieldMatches(field, Lower(longer))
    ensures FieldMatches(field, Lower(shorter))
  {
    ContainsLower(longer, shorter);
    ContainsTransitive(Lower(field.value), Lower(longer), Lower(shorter));
  }

  /** Narrowing: extending the search can only drop tickets, never add or reorder them. */
  lemma Narrowing(tickets: seq<Ticket>, shorter: string, longer: string)
    requires Contains(longer, shorter)
    ensures IsSubseq(FilteredTickets(tickets, longer), FilteredTickets(tickets, shorter))
  {
    forall t: Ticket | Matches(Lower(longer), t)
      ensures Matches(Lower(shorter), t)
    {
      if FieldMatches(t.title, Lower(longer)) {
        FieldNarrowing(t.title, shorter, longer);
      } else if FieldMatches(t.description, Lower(longer)) {
        FieldNarrowing(t.description, shorter, longer);
      } else if FieldMatches(t.category, Lower(longer)) {
        FieldNarrowing(t.category, shorter, longer);
      } else {
        FieldNarrowing(t.adminComment, shorter, longer);
      }
    }
    FilterStronger(tickets, t => Matches(Lower(longer), t), t => Matches(Lower(shorter), t));
  }

  /** The term the search tracker considers: trimmed, then lower-cased. */
  function SearchTerm(search: string): string {
    Lower(TrimJs(search))
  }

  /** The term for which the search effect leaves a timer pending, if any. */
  function Schedule(search: string, lastTracked: string): (pending: Option<string>)
    ensures pending.Some? <==> Utf16Length(SearchTerm(search)) >= 2 && SearchTerm(search) != lastTracked
    ensures pending.Some? ==> pending.value == SearchTerm(search)
  {
    var term := SearchTerm(search);
    if Utf16Length(term) < 2 || term == lastTracked then None else Some(term)
  }

  /** The page state: the number of runs of the polling effect so far and the
      liveness flag of the latest run (React cleans up a run before running the
      effect again), the tickets, the search box, the `lastTrackedSearch`
      reference and the term of the pending debounce timer. */
  datatype HistoryState = HistoryState(
    run: nat,
    mounted: bool,
    tickets: seq<Ticket>,
    search: string,
    lastTracked: string,
    pending: Option<string>)

  datatype HistoryEvent =
    | Mount
    | FetchOk(run: nat, payload: Payload)
    | FetchFail
    | SetSearch(value: string)
    | Fire
    | Unmount

  /** The new state and the interactions tracked on the way. */
  datatype Outcome = Outcome(state: HistoryState, emitted: seq<Interaction>)

  function InitialHistory(): HistoryState {
    HistoryState(0, false, [], "", "", None)
  }

  function SearchInteraction(term: string): Interaction {
    Interaction(SearchEvent, map["term_length" := MNum(Utf16Length(term))])
  }

  /** The `isMounted` flag of run `run`: set only for the latest run, until its cleanup. */
  predicate Live(s: HistoryState, run: nat) {
    s.mounted && run == s.run
  }

  /** One event of the page. A fetch completion names the run of the polling
      effect that issued it and writes only while that run is live. */
  function Step(s: HistoryState, e: HistoryEvent): (o: Outcome)
    ensures e.Mount? ==> o.emitted == [Interaction(ViewEvent, map[])]
    ensures e.Mount? ==> o.state.run == s.run + 1 && o.state.mounted
    ensures e.FetchOk? ==> o == Outcome(if Live(s, e.run) then s.(tickets := Received(e.payload)) else s, [])
    ensures e.FetchFail? ==> o == Outcome(s, [])
    ensures e.SetSearch? ==> o.emitted == [] && o.state.lastTracked == s.lastTracked
    ensures e.Fire? ==> o.emitted == (if s.pending.Some? then [SearchInteraction(s.pending.value)] else [])
    ensures e.Fire? && s.pending.Some? ==> o.state.lastTracked == s.pending.value && o.state.pending.None?
    ensures e.Unmount? ==> o == Outcome(s.(mounted := false, pending := None), [])
    ensures !e.Fire? ==> o.state.lastTracked == s.lastTracked
  {
    match e
    case Mount =>
      Outcome(s.(run := s.run + 1, mounted := true, pending := Schedule(s.search, s.lastTracked)),
              [Interaction(ViewEvent, map[])])
    case FetchOk(run, payload) =>
      Outcome(if Live(s, run) then s.(tickets := Received(payload)) else s, [])
    case FetchFail =>
      Outcome(s, [])
    case SetSearch(value) =>
      if !s.mounted || value == s.search then Outcome(s, [])
      else Outcome(s.(search := value, pending := Schedule(value, s.lastTracked)), [])
    case Fire =>
      if s.pending.None? then Outcome(s, [])
      else Outcome(s.(lastTracked := s.pending.value, pending := None), [SearchInteraction(s.pending.value)])
    case Unmount =>
      Outcome(s.(mounted := false, pending := None), [])
  }

  /** The pending timer always holds the term of the current search, exactly
      when that term is worth tracking, and nothing once unmounted. */
  predicate Inv(s: HistoryState) {
    s.pending == if s.mounted then Schedule(s.search, s.lastTracked) else None
  }

  lemma InitialInv()
    ensures Inv(InitialHistory())
  {
  }

  lemma StepInv(s: HistoryState, e: HistoryEvent)
    requires Inv(s)
    ensures Inv(Step(s, e).state)
  {
  }

  /** A firing timer tracks the current search term, which is at least two
      code units long and differs from the last tracked one. */
  lemma FireTracksCurrentTerm(s: HistoryState)
    requires Inv(s) && Step(s, Fire).emitted != []
    ensures var term := SearchTerm(s.search);
      && Step(s, Fire).emitted == [SearchInteraction(term)]
      && Utf16Length(term) >= 2 && term != s.lastTracked
      && Step(s, Fire).state.lastTracked == term
  {
  }

  /** The state after the user types `values` in turn, with no timer firing. */
  function Typing(s: HistoryState, values: seq<string>): HistoryState
    decreases |values|
  {
    if values == [] then s else Typing(Step(s, SetSearch(values[0])).state, values[1..])
  }

  /** Typing cancels every earlier timer: after a burst of edits only the last
      value can be tracked, and the last tracked term is untouched. */
  lemma {:induction false} BurstKeepsLast(s: HistoryState, values: seq<string>)
    requires Inv(s) && s.mounted && values != []
    ensures var t := Typing(s, values);
      && Inv(t) && t.mounted
      && t.search == values[|values| - 1]
      && t.lastTracked == s.lastTracked
      && t.pending == Schedule(values[|values| - 1], s.lastTracked)
    decreases |values|
  {
    var next := Step(s, SetSearch(values[0])).state;
    TypingStep(s, values[0]);
    assert Typing(s, values) == Typing(next, values[1..]);
    if |values| > 1 {
      BurstKeepsLast(next, values[1..]);
    }
  }

  /** While mounted, one edit leaves the search at the new value and its
      schedule pending, whether or not the value changed. */
  lemma TypingStep(s: HistoryState, value: string)
    requires Inv(s) && s.mounted
    ensures Step(s, SetSearch(value)).state
      == s.(search := value, pending := Schedule(value, s.lastTracked))
  {
  }

  /** Entering the just-tracked term again, in any spacing or case, schedules nothing. */
  lemma RepeatTracksNothing(s: HistoryState, value: string)
    requires Inv(s) && s.mounted && s.pending.Some?
    requires SearchTerm(value) == SearchTerm(s.search)
    ensures var fired := Step(s, Fire).state;
      && Step(fired, SetSearch(value)).state.pending.None?
      && Step(Step(fired, SetSearch(value)).state, Fire).emitted == []
  {
  }

  /** A failed fetch keeps the last good list; a late success of a run that
      has been cleaned up changes nothing. */
  lemma PollerKeepsSnapshot(s: HistoryState, run: nat, payload: Payload)
    ensures Step(s, FetchFail).state == s
    ensures !Live(s, run) ==> Step(s, FetchOk(run, payload)).state == s
  {
  }

  /** Unmounting and mounting again (React's double run of the effect) leaves
      the first run's fetch without effect when it completes afterwards. */
  lemma RemountDropsEarlierFetch(s: HistoryState, payload: Payload)
    requires s.mounted
    ensures var t := Step(Step(s, Unmount).state, Mount).state;
      t.mounted && Step(t, FetchOk(s.run, payload)).state == t
  {
  }

  /** A value in the spreadsheet. */
  datatype Cell = CNum(n: int) | CText(text: string) | CTime(ms: int) | CEmpty

  datatype Column = Column(header: string, key: string, width: nat)

  /** The export's columns, in order. */
  const Columns: seq<Column> := [
    Column("Ticket ID", "id", 12),
    Column("Title", "title", 32),
    Column("Category", "category", 18),
    Column("Priority", "priority", 16),
    Column("Status", "status", 14),
    Column("Admin Comment", "admin_comment", 34),
    Column("Created", "created_at", 22)]

  datatype Sheet = Sheet(name: string, columns: seq<Column>, rows: seq<seq<Cell>>)

  function TextCell(v: Option<string>): Cell {
    if v.Some? then CText(v.value) else CEmpty
  }

  function TimeCell(v: Option<int>): Cell {
    if v.Some? then CTime(v.value) else CEmpty
  }

  /** `worksheet.addRow(ticket)`: the ticket's value under each column key. */
  function RowOf(t: Ticket): (cells: seq<Cell>)
    ensures |cells| == |Columns|
  {
    [CNum(t.id), TextCell(t.title), TextCell(t.category), TextCell(t.priority),
     TextCell(t.status), TextCell(t.adminComment), TimeCell(t.createdAt)]
  }

  /** What a spreadsheet row says about a ticket. */
  datatype Exported = Exported(
    id: int, title: Option<string>, category: Option<string>, priority: Option<string>,
    status: Option<string>, adminComment: Option<string>, createdAt: Option<int>)

  function Project(t: Ticket): Exported {
    Exported(t.id, t.title, t.category, t.priority, t.status, t.adminComment, t.createdAt)
  }

  function ReadText(c: Cell): Option<Option<string>> {
    match c
    case CText(s) => Some(Some(s))
    case CEmpty => Some(None)
    case _ => None
  }

  function ReadTime(c: Cell): Option<Option<int>> {
    match c
    case CTime(ms) => Some(Some(ms))
    case CEmpty => Some(None)
    case _ => None
  }

  /** Reads a row back by column position; `None` for a malformed row. */
  function ReadRow(cells: seq<Cell>): Option<Exported> {
    if |cells| != |Columns| || !cells[0].CNum? then None
    else
      var title, category, priority := ReadText(cells[1]), ReadText(cells[2]), ReadText(cells[3]);
      var status, comment, created := ReadText(cells[4]), ReadText(cells[5]), ReadTime(cells[6]);
      if title.None? || category.None? || priority.None? || status.None? || comment.None? || created.None? then None
      else Some(Exported(cells[0].n, title.value, category.value, priority.value, status.value,
                         comment.value, created.value))
  }

  /** Each exported row holds the ticket's seven exported fields, in column
      order, without loss. */
  lemma RowRoundTrip(t: Ticket)
    ensures ReadRow(RowOf(t)) == Some(Project(t))
  {
  }

  /** The ticket history page, with its state variables, the reference holding
      the last tracked search, and the pending debounce timer. */
  class HistoryPage {
    var run: nat
    var isMounted: bool
    var tickets: seq<Ticket>
    var search: string
    var lastTrackedSearch: string
    var pendingTerm: Option<string>

    function State(): HistoryState
      reads this
    {
      HistoryState(run, isMounted, tickets, search, lastTrackedSearch, pendingTerm)
    }

    constructor()
      ensures State() == InitialHistory()
    {
      run := 0;
      isMounted := false;
      tickets := [];
      search := "";
      lastTrackedSearch := "";
      pendingTerm := None;
    }

    /** The mount effects: track a view, start a run with its flag set, run
        the search effect. */
    method Mount(storage: LocalStorage?, now: int)
      modifies this, storage
      ensures State() == Step(old(State()), HistoryEvent.Mount).state
      ensures storage != null ==> storage.items == Track(old(storage.items), ViewEvent, map[], now)
    {
      var next := Step(State(), HistoryEvent.Mount).state;
      TrackInteraction(storage, ViewEvent, map[], now);
      run, isMounted, pendingTerm := next.run, next.mounted, next.pending;
    }

    /** A fetch issued in run `issuedIn` that resolved with `payload`. */
    method FetchSucceeded(issuedIn: nat, payload: Payload)
      modifies this
      ensures State() == Step(old(State()), FetchOk(issuedIn, payload)).state
    {
      if isMounted && issuedIn == run {
        tickets := Received(payload);
      }
    }

    /** A failed fetch is only logged. */
    method FetchFailed()
      ensures State() == Step(State(), FetchFail).state
    {
    }

    /** An edit of the search box; the search effect reruns only on a change,
        cancelling the pending timer and perhaps scheduling a new one. */
    method SetSearch(value: string)
      modifies this
      ensures State() == Step(old(State()), HistoryEvent.SetSearch(value)).state
    {
      if !isMounted || value == search {
        return;
      }
      search := value;
      pendingTerm := Schedule(value, lastTrackedSearch);
    }

    /** The debounce timer fires. */
    method Fire(storage: LocalStorage?, now: int)
      modifies this, storage
      ensures State() == Step(old(State()), HistoryEvent.Fire).state
      ensures storage != null ==> (storage.items ==
        if old(pendingTerm).Some?
        then Track(old(storage.items), SearchEvent, SearchInteraction(old(pendingTerm).value).meta, now)
        else old(storage.items))
    {
      if pendingTerm.None? {
        return;
      }
      var term := pendingTerm.value;
      TrackInteraction(storage, SearchEvent, map["term_length" := MNum(Utf16Length(term))], now);
      lastTrackedSearch := term;
      pendingTerm := None;
    }

    /** Cleanup: the flag is cleared and the pending timer cancelled. */
    method Unmount()
      modifies this
      ensures State() == Step(old(State()), HistoryEvent.Unmount).state
    {
      isMounted := false;
      pendingTerm := None;
    }

    /** `exportToExcel`: tracks the export with its row count, then lays out a
        "Tickets" sheet with the fixed columns and one row per filtered ticket. */
    method ExportToExcel(storage: LocalStorage?, now: int) returns (sheet: Sheet)
      modifies storage
      ensures var filtered := FilteredTickets(tickets, search);
        && sheet.name == "Tickets" && sheet.columns == Columns
        && |sheet.rows| == |filtered|
        && (forall i :: 0 <= i < |filtered| ==> sheet.rows[i] == RowOf(filtered[i]))
      ensures storage != null ==> (storage.items ==
        Track(old(storage.items), ExportEvent, map["row_count" := MNum(|FilteredTickets(tickets, search)|)], now))
    {
      var filtered := FilteredTickets(tickets, search);
      TrackInteraction(storage, ExportEvent, map["row_count" := MNum(|filtered|)], now);
      var rows: seq<seq<Cell>> := [];
      var i := 0;
      while i < |filtered|
        invariant 0 <= i <= |filtered| && |rows| == i
        invariant forall k :: 0 <= k < i ==> rows[k] == RowOf(filtered[k])
      {
        rows := rows + [RowOf(filtered[i])];
        i := i + 1;
      }
      sheet := Sheet("Tickets", Columns, rows);
    }
  }
}
