/** The ticket record as the client receives it from `GET /tickets`, and the
    shape of that response. */
module Tickets {
  import opened Wrappers
  import opened Text

  /** A ticket as returned by the back end's ticket response schema (id, title,
      description, category, priority, status, admin_comment, created_at,
      user_id). The client reads untyped JSON, and its code guards every text
      field against being absent, so those fields are optional here; `createdAt`
      is the creation time in milliseconds, absent when missing or unparseable. */
  datatype Ticket = Ticket(
    id: int,
    title: Option<string>,
    description: Option<string>,
    category: Option<string>,
    priority: Option<string>,
    status: Option<string>,
    adminComment: Option<string>,
    createdAt: Option<int>,
    userId: Option<int>)

  /** The fields the response schema makes mandatory are present. */
  predicate Conforms(t: Ticket) {
    t.title.Some? && t.description.Some? && t.category.Some? && t.priority.Some?
    && t.status.Some? && t.createdAt.Some?
  }

  /** The body of a `GET /tickets` response: an array of tickets or anything else. */
  datatype Payload = TicketArray(items: seq<Ticket>) | NotAnArray

  /** `Array.isArray(res.data) ? res.data : []`. */
  function Received(p: Payload): seq<Ticket> {
    match p
    case TicketArray(items) => items
    case NotAnArray => []
  }

  /** `String(x).toLowerCase()` of an optional field (JavaScript renders an
      absent value as "undefined"). */
  function LowerText(v: Option<string>): string {
    Lower(v.GetOr("undefined"))
  }
}
