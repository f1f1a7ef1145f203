/** The administrator's dashboard: canonical statuses, the metrics and
    priority bars, the per-ticket status and comment drafts, and the update and
    delete handlers that edit the ticket list in place. */
module AdminDashboard {
  import opened Wrappers
  import opened Text
  import opened Seqs
  import opened Tickets

  /** The three statuses an administrator can pick. */
  datatype StatusOption = Open | InProgress | Resolved

  /** The text of an option, as shown in the select and sent to the server. */
  function OptionText(option: StatusOption): string {
    match option
    case Open => "Open"
    case InProgress => "In Progress"
    case Resolved => "Resolved"
  }

  const StatusOptions: seq<string> := ["Open", "In Progress", "Resolved"]

  /** The option a trimmed, lower-cased status maps to. */
  function Classify(text: string): StatusOption {
    if text == "in progress" || text == "progress" then InProgress
    else if text == "resolved" || text == "closed" then Resolved
    else Open
  }

  /** The administrator's `normalizeStatus`: trims and lower-cases, then maps
      onto one of the three options, with "Open" for everything unrecognised. */
  function NormalizeStatus(value: Option<string>): (r: string)
    ensures r in StatusOptions
  {
    OptionText(Classify(Lower(TrimJs(value.GetOr("")))))
  }

  /** "in progress" and "progress" give "In Progress", "resolved" and "closed"
      give "Resolved", and everything else, the empty text included, "Open". */
  lemma NormalizeStatusSpec(value: Option<string>)
    ensures var text := Lower(TrimJs(value.GetOr("")));
      var r := NormalizeStatus(value);
      && (r == "In Progress" <==> text == "in progress" || text == "progress")
      && (r == "Resolved" <==> text == "resolved" || text == "closed")
      && (r == "Open" <==>
            text != "in progress" && text != "progress" && text != "resolved" && text != "closed")
  {
  }

  lemma OpenTrim()
    ensures TrimJs("Open") == "Open"
  {
    TrimOfTrimmed("Open", JsSpaces);
  }

  lemma OpenLower()
    ensures Lower("Open") == "open"
  {
    assert LowerChar('O') == 'o';
  }

  lemma OpenClassified()
    ensures Classify("open") == Open
  {
  }

  lemma InProgressTrim()
    ensures TrimJs("In Progress") == "In Progress"
  {
    TrimOfTrimmed("In Progress", JsSpaces);
  }

  lemma InProgressLower()
    ensures Lower("In Progress") == "in progress"
  {
    assert LowerChar('I') == 'i' && LowerChar('P') == 'p';
  }

  lemma InProgressClassified()
    ensures Classify("in progress") == InProgress
  {
  }

  lemma ResolvedTrim()
    ensures TrimJs("Resolved") == "Resolved"
  {
    TrimOfTrimmed("Resolved", JsSpaces);
  }

  lemma ResolvedLower()
    ensures Lower("Resolved") == "resolved"
  {
    assert LowerChar('R') == 'r';
  }

  lemma ResolvedClassified()
    ensures Classify("resolved") == Resolved
  {
  }

  /** Each option's text normalises back to that option. */
  lemma OptionCanonical(option: StatusOption)
    ensures Classify(Lower(TrimJs(OptionText(option)))) == option
  {
    match option
    case Open =>
      OpenTrim();
      OpenLower();
      OpenClassified();
    case InProgress =>
      InProgressTrim();
      InProgressLower();
      InProgressClassified();
    case Resolved =>
      ResolvedTrim();
      ResolvedLower();
      ResolvedClassified();
  }

  /** Normalising twice is normalising once: each option normalises to itself. */
  lemma NormalizeStatusIdempotent(value: Option<string>)
    ensures NormalizeStatus(Some(NormalizeStatus(value))) == NormalizeStatus(value)
  {
    OptionCanonical(Classify(Lower(TrimJs(value.GetOr("")))));
  }

  datatype Metrics = Metrics(total: nat, open: nat, resolved: nat, high: nat, medium: nat, low: nat)

  predicate IsOpen(t: Ticket) { t.status == Some("Open") }
  predicate IsResolved(t: Ticket) { t.status == Some("Resolved") }
  predicate IsHigh(t: Ticket) { LowerText(t.priority) == "high" }
  predicate IsMedium(t: Ticket) { LowerText(t.priority) == "medium" }
  predicate IsLow(t: Ticket) { LowerText(t.priority) == "low" }

  /** The `metrics` memo: status counts by exact equality with the stored
      status, priority counts case-insensitively. */
  function ComputeMetrics(tickets: seq<Ticket>): (m: Metrics)
    ensures m.total == |tickets|
    ensures m.open == Count(tickets, IsOpen) && m.resolved == Count(tickets, IsResolved)
    ensures m.high == Count(tickets, IsHigh) && m.medium == Count(tickets, IsMedium)
    ensures m.low == Count(tickets, IsLow)
    ensures m.open + m.resolved <= m.total
    ensures m.high + m.medium + m.low <= m.total
  {
    CountDisjoint(tickets, IsOpen, IsResolved);
    CountDisjoint3(tickets, IsHigh, IsMedium, IsLow);
    Metrics(|tickets|, Count(tickets, IsOpen), Count(tickets, IsResolved),
            Count(tickets, IsHigh), Count(tickets, IsMedium), Count(tickets, IsLow))
  }

  /** `Math.max(high, medium, low, 1)`. */
  function MaxPriority(m: Metrics): (max: nat)
    ensures max >= 1 && max >= m.high && max >= m.medium && max >= m.low
    ensures max == 1 || max == m.high || max == m.medium || max == m.low
  {
    var a := if m.high > m.medium then m.high else m.medium;
    var b := if a > m.low then a else m.low;
    if b > 1 then b else 1
  }

  /** The width of a priority bar, in percent. */
  function PriorityWidth(count: nat, max: nat): real
    requires max > 0
  {
    count as real / max as real * 100.0
  }

  lemma WidthBounds(count: nat, max: nat)
    requires 0 < max && count <= max
    ensures 0.0 <= PriorityWidth(count, max) <= 100.0
  {
    assert count as real / max as real <= 1.0;
  }

  /** The three priority bars fit their track. */
  lemma PriorityBars(tickets: seq<Ticket>)
    ensures var m := ComputeMetrics(tickets);
      var max := MaxPriority(m);
      && 0.0 <= PriorityWidth(m.high, max) <= 100.0
      && 0.0 <= PriorityWidth(m.medium, max) <= 100.0
      && 0.0 <= PriorityWidth(m.low, max) <= 100.0
  {
    var m := ComputeMetrics(tickets);
    var max := MaxPriority(m);
    WidthBounds(m.high, max);
    WidthBounds(m.medium, max);
    WidthBounds(m.low, max);
  }

  /** The largest priority bar fills its track whenever some ticket has one of
      the three priorities. */
  lemma FullestBar(m: Metrics)
    requires m.high + m.medium + m.low > 0
    ensures var max := MaxPriority(m);
      PriorityWidth(m.high, max) == 100.0 || PriorityWidth(m.medium, max) == 100.0
      || PriorityWidth(m.low, max) == 100.0
  {
    var max := MaxPriority(m);
    if max == m.high {
      FullWidth(max);
    } else if max == m.medium {
      FullWidth(max);
    } else {
      FullWidth(max);
    }
  }

  lemma FullWidth(max: nat)
    requires max > 0
    ensures PriorityWidth(max, max) == 100.0
  {
    assert max as real / max as real == 1.0;
  }

  /** The object built by `rows.reduce((acc, t) => ({...acc, [t.id]: f(t)}), {})`. */
  function IndexById<V>(tickets: seq<Ticket>, f: Ticket -> V): map<int, V> {
    if tickets == [] then map[]
    else IndexById(tickets[..|tickets| - 1], f)[tickets[|tickets| - 1].id := f(tickets[|tickets| - 1])]
  }

  /** No later ticket carries the id of ticket `i`. */
  predicate LastWithId(tickets: seq<Ticket>, i: nat) {
    i < |tickets| && forall j :: i < j < |tickets| ==> tickets[j].id != tickets[i].id
  }

  /** The index has one entry per id, and the last ticket with that id wins. */
  lemma IndexByIdSpec<V>(tickets: seq<Ticket>, f: Ticket -> V)
    ensures forall id :: id in IndexById(tickets, f) <==> exists i :: 0 <= i < |tickets| && tickets[i].id == id
    ensures forall i :: 0 <= i < |tickets| && LastWithId(tickets, i) ==>
      IndexById(tickets, f)[tickets[i].id] == f(tickets[i])
  {
    IndexByIdDomain(tickets, f);
    IndexByIdValues(tickets, f);
  }

  lemma {:induction false} IndexByIdDomain<V>(tickets: seq<Ticket>, f: Ticket -> V)
    ensures forall id :: id in IndexById(tickets, f) <==> exists i :: 0 <= i < |tickets| && tickets[i].id == id
    decreases |tickets|
  {
    if tickets != [] {
      var n := |tickets| - 1;
      var init := tickets[..n];
      IndexByIdDomain(init, f);
      var m := IndexById(tickets, f);
      assert m == IndexById(init, f)[tickets[n].id := f(tickets[n])];
      forall id
        ensures id in m <==> exists i :: 0 <= i < |tickets| && tickets[i].id == id
      {
        if id in m && id != tickets[n].id {
          var i :| 0 <= i < n && init[i].id == id;
          assert tickets[i].id == id;
        }
        if exists i :: 0 <= i < |tickets| && tickets[i].id == id {
          var i :| 0 <= i < |tickets| && tickets[i].id == id;
          if i < n {
            assert init[i].id == id;
          }
        }
      }
    }
  }

  lemma {:induction false} IndexByIdValues<V>(tickets: seq<Ticket>, f: Ticket -> V)
    ensures forall i :: 0 <= i < |tickets| && LastWithId(tickets, i) ==>
      tickets[i].id in IndexById(tickets, f) && IndexById(tickets, f)[tickets[i].id] == f(tickets[i])
    decreases |tickets|
  {
    if tickets != [] {
      var n := |tickets| - 1;
      var init := tickets[..n];
      IndexByIdValues(init, f);
      var m := IndexById(tickets, f);
      assert m == IndexById(init, f)[tickets[n].id := f(tickets[n])];
      forall i | 0 <= i < |tickets| && LastWithId(tickets, i)
        ensures tickets[i].id in m && m[tickets[i].id] == f(tickets[i])
      {
        if i < n {
          assert tickets[n].id != tickets[i].id;
          assert init[i] == tickets[i];
          assert LastWithId(init, i);
        }
      }
    }
  }

  function StatusOf(t: Ticket): string { NormalizeStatus(t.status) }
  function CommentOf(t: Ticket): string { t.adminComment.GetOr("") }

  /** When ids are unique, the initial maps hold each ticket's normalised status
      and its comment (or ""), and every status is one of the options. */
  lemma InitialMaps(tickets: seq<Ticket>)
    requires forall i, j :: 0 <= i < j < |tickets| ==> tickets[i].id != tickets[j].id
    ensures forall i :: 0 <= i < |tickets| ==>
      && tickets[i].id in IndexById(tickets, StatusOf) && tickets[i].id in IndexById(tickets, CommentOf)
      && IndexById(tickets, StatusOf)[tickets[i].id] == NormalizeStatus(tickets[i].status)
      && IndexById(tickets, CommentOf)[tickets[i].id] == tickets[i].adminComment.GetOr("")
    ensures forall id :: id in IndexById(tickets, StatusOf) ==> IndexById(tickets, StatusOf)[id] in StatusOptions
  {
    IndexByIdSpec(tickets, StatusOf);
    IndexByIdSpec(tickets, CommentOf);
    var m := IndexById(tickets, StatusOf);
    forall i | 0 <= i < |tickets|
      ensures tickets[i].id in m && tickets[i].id in IndexById(tickets, CommentOf)
      ensures LastWithId(tickets, i)
    {
    }
    forall id | id in m
      ensures m[id] in StatusOptions
    {
      var i :| 0 <= i < |tickets| && tickets[i].id == id;
      assert LastWithId(tickets, i);
    }
  }

  /** The body of `PATCH /tickets/{id}`: the drafted status or "Open", the
      drafted comment or "". */
  datatype UpdatePayload = UpdatePayload(status: string, comment: string)

  function PayloadFor(statusById: map<int, string>, commentById: map<int, string>, id: int): (p: UpdatePayload)
    ensures p.status != ""
    ensures p.status == (if id in statusById && statusById[id] != "" then statusById[id] else "Open")
    ensures p.comment == (if id in commentById then commentById[id] else "")
  {
    UpdatePayload(
      if id in statusById && statusById[id] != "" then statusById[id] else "Open",
      if id in commentById && commentById[id] != "" then commentById[id] else "")
  }

  /** `prev.map((ticket) => (ticket.id === id ? data : ticket))`. */
  function ReplaceById(tickets: seq<Ticket>, id: int, data: Ticket): (r: seq<Ticket>)
    ensures |r| == |tickets|
    ensures forall i :: 0 <= i < |r| ==> r[i] == if tickets[i].id == id then data else tickets[i]
  {
    seq(|tickets|, i requires 0 <= i < |tickets| => if tickets[i].id == id then data else tickets[i])
  }

  /** Replacing with a ticket that keeps the id keeps the list of ids, and
      replacing twice is replacing once. */
  lemma ReplaceKeepsIds(tickets: seq<Ticket>, id: int, data: Ticket)
    requires data.id == id
    ensures forall i :: 0 <= i < |tickets| ==> ReplaceById(tickets, id, data)[i].id == tickets[i].id
    ensures ReplaceById(ReplaceById(tickets, id, data), id, data) == ReplaceById(tickets, id, data)
  {
  }

  /** `prev.filter((ticket) => ticket.id !== id)`. */
  function RemoveById(tickets: seq<Ticket>, id: int): (r: seq<Ticket>)
    ensures forall t :: t in r <==> t in tickets && t.id != id
  {
    Filter(tickets, (t: Ticket) => t.id != id)
  }

  /** Removal keeps the remaining tickets in order and drops exactly the
      tickets carrying that id. */
  lemma RemoveSpec(tickets: seq<Ticket>, id: int)
    ensures IsSubseq(RemoveById(tickets, id), tickets)
    ensures |RemoveById(tickets, id)| == |tickets| - Count(tickets, (t: Ticket) => t.id == id)
  {
    FilterIsSubseq(tickets, (t: Ticket) => t.id != id);
    CountComplement(tickets, id);
  }

  lemma {:induction false} CountComplement(tickets: seq<Ticket>, id: int)
    ensures Count(tickets, (t: Ticket) => t.id != id) + Count(tickets, (t: Ticket) => t.id == id) == |tickets|
  {
    if tickets != [] {
      CountComplement(tickets[1..], id);
    }
  }

  /** What a failed request carries: the server's `detail` and the client's
      error message, either of which may be missing. */
  datatype RequestError = RequestError(detail: Option<string>, message: Option<string>)

  /** `a || b`. */
  function OrElse(a: Option<string>, b: string): (r: string)
    ensures a.Some? && a.value != "" ==> r == a.value
    ensures a.None? || a.value == "" ==> r == b
  {
    if a.Some? && a.value != "" then a.value else b
  }

  const LoadError := "Unable to fetch ticket data"
  const UpdateError := "Failed to update ticket status"
  const DeleteError := "Failed to delete ticket"

  /** A fallback message is never empty, so a recorded error always shows. */
  lemma FallbackShows(a: Option<string>, fallback: string)
    requires fallback == LoadError || fallback == UpdateError || fallback == DeleteError
    ensures OrElse(a, fallback) != ""
  {
    assert |fallback| > 0;
  }

  /** The dashboard's state variables. */
  class AdminPage {
    var tickets: seq<Ticket>
    var loading: bool
    var error: string
    var statusById: map<int, string>
    var commentById: map<int, string>
    var busyTicketId: Option<int>

    constructor()
      ensures tickets == [] && loading && error == "" && statusById == map[] && commentById == map[]
      ensures busyTicketId.None?
    {
      tickets := [];
      loading := true;
      error := "";
      statusById := map[];
      commentById := map[];
      busyTicketId := None;
    }

    /** The initial `GET /tickets` resolved with `payload`. */
    method LoadSucceeded(payload: Payload)
      modifies this
      ensures tickets == Received(payload)
      ensures statusById == IndexById(Received(payload), StatusOf)
      ensures commentById == IndexById(Received(payload), CommentOf)
      ensures !loading && error == old(error) && busyTicketId == old(busyTicketId)
    {
      var rows := Received(payload);
      tickets := rows;
      statusById := IndexById(rows, StatusOf);
      commentById := IndexById(rows, CommentOf);
      loading := false;
    }

    /** The initial `GET /tickets` was rejected. */
    method LoadFailed(err: RequestError)
      modifies this
      ensures error == OrElse(err.detail, OrElse(err.message, LoadError)) && error != ""
      ensures !loading && tickets == old(tickets) && statusById == old(statusById)
      ensures commentById == old(commentById) && busyTicketId == old(busyTicketId)
    {
      error := OrElse(err.detail, OrElse(err.message, LoadError));
      loading := false;
    }

    /** The status select of ticket `id` changed. */
    method EditStatus(id: int, value: string)
      modifies this
      ensures statusById == old(statusById)[id := value]
      ensures tickets == old(tickets) && commentById == old(commentById) && error == old(error)
      ensures loading == old(loading) && busyTicketId == old(busyTicketId)
    {
      statusById := statusById[id := value];
    }

    /** The comment input of ticket `id` changed. */
    method EditComment(id: int, value: string)
      modifies this
      ensures commentById == old(commentById)[id := value]
      ensures tickets == old(tickets) && statusById == old(statusById) && error == old(error)
      ensures loading == old(loading) && busyTicketId == old(busyTicketId)
    {
      commentById := commentById[id := value];
    }

    /** `handleUpdateTicket(id)`: sends the drafted payload and, given the
        server's `response`, replaces the ticket and its drafts or records the
        error; the busy marker is cleared either way. */
    method HandleUpdateTicket(id: int, response: Result<Ticket, RequestError>) returns (sent: UpdatePayload)
      modifies this
      ensures sent == PayloadFor(old(statusById), old(commentById), id)
      ensures busyTicketId.None? && loading == old(loading)
      ensures response.Success? ==>
        && tickets == ReplaceById(old(tickets), id, response.value)
        && statusById == old(statusById)[id := StatusOf(response.value)]
        && commentById == old(commentById)[id := CommentOf(response.value)]
        && error == ""
      ensures response.Failure? ==>
        && tickets == old(tickets) && statusById == old(statusById) && commentById == old(commentById)
        && error == OrElse(response.error.detail, UpdateError) && error != ""
    {
      busyTicketId := Some(id);
      error := "";
      sent := PayloadFor(statusById, commentById, id);
      if response.Success? {
        tickets := ReplaceById(tickets, id, response.value);
        ResetDrafts(id, response.value);
      } else {
        error := OrElse(response.error.detail, UpdateError);
        FallbackShows(response.error.detail, UpdateError);
      }
      busyTicketId := None;
    }

    /** The drafts of ticket `id` start over from the ticket the server
        returned. */
    method ResetDrafts(id: int, data: Ticket)
      modifies this
      ensures statusById == old(statusById)[id := StatusOf(data)]
      ensures commentById == old(commentById)[id := CommentOf(data)]
      ensures tickets == old(tickets) && error == old(error)
      ensures loading == old(loading) && busyTicketId == old(busyTicketId)
    {
      statusById := statusById[id := StatusOf(data)];
      commentById := commentById[id := CommentOf(data)];
    }

    /** `handleDeleteTicket(id)`, given the server's response. */
    method HandleDeleteTicket(id: int, response: Result<(), RequestError>)
      modifies this
      ensures busyTicketId.None? && loading == old(loading)
      ensures statusById == old(statusById) && commentById == old(commentById)
      ensures response.Success? ==> tickets == RemoveById(old(tickets), id) && error == ""
      ensures response.Failure? ==>
        tickets == old(tickets) && error == OrElse(response.error.detail, DeleteError) && error != ""
    {
      busyTicketId := Some(id);
      error := "";
      match response {
        case Success(_) =>
          tickets := RemoveById(tickets, id);
        case Failure(err) =>
          error := OrElse(err.detail, DeleteError);
          FallbackShows(err.detail, DeleteError);
      }
      busyTicketId := None;
    }
  }
}
