/** The ticket side of the back end: the text cleaning applied before
    classification, the admin guard, which tickets a user may list and in what
    order, the status update an administrator makes in place on a ticket row,
    and the password reset that redeems a reset token on a user row. */
module BackendTickets {
  import opened Wrappers
  import opened Text
  import opened Seqs
  import opened Tickets
  import opened PasswordStrength
  import opened BackendAuth
  import AdminDashboard

  predicate KeptByCleanText(c: char) { IsAsciiLower(c) || IsPySpace(c) }

  /** `clean_text(text)`: lower case, then only lower-case letters and
      whitespace are kept, in order. */
  function CleanText(text: string): (r: string)
    ensures forall i :: 0 <= i < |r| ==> IsAsciiLower(r[i]) || IsPySpace(r[i])
    ensures forall c :: c in text && (IsAsciiLower(c) || IsAsciiUpper(c)) ==> LowerChar(c) in r
  {
    var lowered := Lower(text);
    var r := Filter(lowered, KeptByCleanText);
    assert forall i :: 0 <= i < |r| ==> r[i] in r;
    assert forall i :: 0 <= i < |text| ==> lowered[i] == LowerChar(text[i]);
    r
  }

  /** Cleaning keeps every lower-case letter and whitespace character of the
      lower-cased text, as often as it occurs and in its order, drops every
      other character, and changes nothing in a cleaned text. */
  lemma CleanTextSpec(text: string)
    ensures IsSubseq(CleanText(text), Lower(text))
    ensures forall c ::
      multiset(CleanText(text))[c] == if KeptByCleanText(c) then multiset(Lower(text))[c] else 0
    ensures CleanText(CleanText(text)) == CleanText(text)
  {
    FilterIsSubseq(Lower(text), KeptByCleanText);
    forall c
      ensures multiset(CleanText(text))[c]
        == if KeptByCleanText(c) then multiset(Lower(text))[c] else 0
    {
      FilterCount(Lower(text), KeptByCleanText, c);
    }
    var r := CleanText(text);
    LowerOfLowerCase(r);
    FilterAll(r, KeptByCleanText);
  }

  const AdminRequired := HttpError(403, "Admin access required")

  /** `require_admin(user)`: 403 for every role but "admin". */
  function RequireAdmin(role: string): (r: Result<(), HttpError>)
    ensures r.Success? <==> role == "admin"
    ensures r.Failure? ==> r.error == AdminRequired
  {
    if role != "admin" then Failure(AdminRequired) else Success(())
  }

  /** The database's descending order on `created_at`, a missing time last. */
  predicate NotOlder(a: Option<int>, b: Option<int>) {
    b.None? || (a.Some? && a.value >= b.value)
  }

  predicate NewestFirst(tickets: seq<Ticket>) {
    forall i, j :: 0 <= i < j < |tickets| ==> NotOlder(tickets[i].createdAt, tickets[j].createdAt)
  }

  function InsertByTime(t: Ticket, sorted: seq<Ticket>): (r: seq<Ticket>)
    ensures multiset(r) == multiset(sorted) + multiset{t}
    decreases |sorted|
  {
    if sorted == [] || NotOlder(t.createdAt, sorted[0].createdAt) then [t] + sorted
    else
      assert sorted == [sorted[0]] + sorted[1..];
      [sorted[0]] + InsertByTime(t, sorted[1..])
  }

  lemma {:induction false} InsertByTimeSorted(t: Ticket, sorted: seq<Ticket>)
    requires NewestFirst(sorted)
    ensures NewestFirst(InsertByTime(t, sorted))
    ensures InsertByTime(t, sorted) != [] &&
      (InsertByTime(t, sorted)[0] == t || (sorted != [] && InsertByTime(t, sorted)[0] == sorted[0]))
    decreases |sorted|
  {
    if sorted != [] && !NotOlder(t.createdAt, sorted[0].createdAt) {
      InsertByTimeSorted(t, sorted[1..]);
      var rest := InsertByTime(t, sorted[1..]);
      assert NewestFirst(sorted[1..]);
      forall j | 0 <= j < |rest|
        ensures NotOlder(sorted[0].createdAt, rest[j].createdAt)
      {
        assert rest[j] in multiset(rest);
        assert rest[j] == t || rest[j] in multiset(sorted[1..]);
        if rest[j] != t {
          var k :| 0 <= k < |sorted[1..]| && sorted[1..][k] == rest[j];
          assert sorted[k + 1] == rest[j];
        }
      }
    }
  }

  /** `ORDER BY created_at DESC`. */
  function SortByTime(tickets: seq<Ticket>): (r: seq<Ticket>)
    ensures multiset(r) == multiset(tickets)
    decreases |tickets|
  {
    if tickets == [] then []
    else
      assert tickets == [tickets[0]] + tickets[1..];
      InsertByTime(tickets[0], SortByTime(tickets[1..]))
  }

  lemma {:induction false} SortByTimeSorted(tickets: seq<Ticket>)
    ensures NewestFirst(SortByTime(tickets))
    decreases |tickets|
  {
    if tickets != [] {
      SortByTimeSorted(tickets[1..]);
      InsertByTimeSorted(tickets[0], SortByTime(tickets[1..]));
    }
  }

  /** The `get_tickets` rule: an administrator sees every ticket, anyone else
      only the tickets they own, newest first. */
  function VisibleTickets(tickets: seq<Ticket>, role: string, userId: int): seq<Ticket> {
    var scope := if role == "admin" then tickets else Filter(tickets, (t: Ticket) => t.userId == Some(userId));
    SortByTime(scope)
  }

  /** The listing is newest first; an administrator gets every ticket exactly
      as often as it is stored, anyone else exactly the tickets they own. */
  lemma VisibleTicketsSpec(tickets: seq<Ticket>, role: string, userId: int)
    ensures NewestFirst(VisibleTickets(tickets, role, userId))
    ensures role == "admin" ==> multiset(VisibleTickets(tickets, role, userId)) == multiset(tickets)
    ensures role != "admin" ==> forall t ::
      t in VisibleTickets(tickets, role, userId) <==> t in tickets && t.userId == Some(userId)
  {
    var scope := if role == "admin" then tickets else Filter(tickets, (t: Ticket) => t.userId == Some(userId));
    SortByTimeSorted(scope);
    var r := VisibleTickets(tickets, role, userId);
    assert multiset(r) == multiset(scope);
    forall t
      ensures t in r <==> t in scope
    {
      assert t in r <==> t in multiset(r);
      assert t in scope <==> t in multiset(scope);
    }
  }

  /** A row of the `tickets` table, of which the status update assigns two
      columns. */
  class TicketRow {
    const id: int
    var status: string
    var adminComment: Option<string>

    constructor(id: int, status: string, adminComment: Option<string>)
      ensures this.id == id && this.status == status && this.adminComment == adminComment
    {
      this.id := id;
      this.status := status;
      this.adminComment := adminComment;
    }
  }

  /** The first row with the given id (`.filter(Ticket.id == id).first()`). */
  function FindTicket(rows: seq<TicketRow>, id: int): (k: Option<nat>)
    ensures k.Some? ==>
      && k.value < |rows| && rows[k.value].id == id
      && forall i :: 0 <= i < k.value ==> rows[i].id != id
    ensures k.None? ==> forall i :: 0 <= i < |rows| ==> rows[i].id != id
  {
    if rows == [] then None
    else if rows[0].id == id then Some(0)
    else match FindTicket(rows[1..], id)
      case None => None
      case Some(k) => Some(k + 1)
  }

  /** `allowed_statuses.get(next_status)`. */
  function StatusChoice(next: string): Option<AdminDashboard.StatusOption> {
    if next == "open" then Some(AdminDashboard.Open)
    else if next == "in progress" then Some(AdminDashboard.InProgress)
    else if next == "resolved" then Some(AdminDashboard.Resolved)
    else None
  }

  /** The canonical form of a requested status: stripped and lower-cased, it
      must be one of "open", "in progress" and "resolved". */
  function AllowedStatus(status: string): (r: Option<string>)
    ensures r.Some? ==> r.value in AdminDashboard.StatusOptions
  {
    match StatusChoice(Lower(StripPy(status)))
    case Some(option) => Some(AdminDashboard.OptionText(option))
    case None => None
  }

  /** Exactly "open", "in progress" and "resolved", after stripping and
      lower-casing, are accepted, as "Open", "In Progress" and "Resolved". */
  lemma AllowedStatusSpec(status: string)
    ensures var next := Lower(StripPy(status));
      var r := AllowedStatus(status);
      && (r == Some("Open") <==> next == "open")
      && (r == Some("In Progress") <==> next == "in progress")
      && (r == Some("Resolved") <==> next == "resolved")
      && (r.None? <==> next != "open" && next != "in progress" && next != "resolved")
  {
  }

  /** `(comment or "").strip() or None`. */
  function CommentValue(comment: Option<string>): (r: Option<string>)
    ensures r.None? <==> StripPy(comment.GetOr("")) == []
    ensures r.Some? ==> r.value == StripPy(comment.GetOr(""))
  {
    var c := StripPy(comment.GetOr(""));
    if c == [] then None else Some(c)
  }

  /** A stored comment is non-empty and already stripped, so saving it again
      stores the same value. */
  lemma CommentValueIdempotent(comment: Option<string>)
    ensures CommentValue(CommentValue(comment)) == CommentValue(comment)
  {
    var r := CommentValue(comment);
    if r.Some? {
      TrimOfTrimmed(r.value, PySpaces);
    }
  }

  /** Every status the administrator's dashboard can send is accepted and
      stored unchanged. */
  lemma DashboardStatusesAccepted(value: Option<string>)
    ensures AllowedStatus(AdminDashboard.NormalizeStatus(value)) == Some(AdminDashboard.NormalizeStatus(value))
  {
    OptionAccepted(AdminDashboard.Classify(Lower(TrimJs(value.GetOr("")))));
  }

  /** The server reads each option's text back as that option. */
  lemma OptionAccepted(option: AdminDashboard.StatusOption)
    ensures StatusChoice(Lower(StripPy(AdminDashboard.OptionText(option)))) == Some(option)
  {
    match option
    case Open =>
      TrimOfTrimmed("Open", PySpaces);
      AdminDashboard.OpenLower();
      OpenChoice();
    case InProgress =>
      TrimOfTrimmed("In Progress", PySpaces);
      AdminDashboard.InProgressLower();
      InProgressChoice();
    case Resolved =>
      TrimOfTrimmed("Resolved", PySpaces);
      AdminDashboard.ResolvedLower();
      ResolvedChoice();
  }

  lemma OpenChoice()
    ensures StatusChoice("open") == Some(AdminDashboard.Open)
  {
  }

  lemma InProgressChoice()
    ensures StatusChoice("in progress") == Some(AdminDashboard.InProgress)
  {
  }

  lemma ResolvedChoice()
    ensures StatusChoice("resolved") == Some(AdminDashboard.Resolved)
  {
  }

  const TicketNotFound := HttpError(404, "Ticket not found")
  const InvalidStatus := HttpError(400, "Invalid status value")

  /** `update_ticket_status`: the admin check, then the lookup, then the
      status validation; exactly when all three pass are the status and comment
      of the ticket assigned, and no other row changes. */
  method UpdateTicketStatus(role: string, rows: seq<TicketRow>, ticketId: int, status: string, comment: Option<string>)
    returns (r: Result<TicketRow, HttpError>)
    modifies rows
    ensures role != "admin" ==> r == Failure(AdminRequired)
    ensures role == "admin" && FindTicket(rows, ticketId).None? ==> r == Failure(TicketNotFound)
    ensures role == "admin" && FindTicket(rows, ticketId).Some? && AllowedStatus(status).None? ==>
      r == Failure(InvalidStatus)
    ensures r.Success? <==>
      role == "admin" && FindTicket(rows, ticketId).Some? && AllowedStatus(status).Some?
    ensures r.Success? ==>
      && r.value == rows[FindTicket(rows, ticketId).value]
      && r.value.status == AllowedStatus(status).value
      && r.value.adminComment == CommentValue(comment)
    ensures forall i :: 0 <= i < |rows| && !(r.Success? && rows[i] == r.value) ==>
      rows[i].status == old(rows[i].status) && rows[i].adminComment == old(rows[i].adminComment)
  {
    var guard := RequireAdmin(role);
    if guard.Failure? {
      return Failure(guard.error);
    }
    var k := FindTicket(rows, ticketId);
    if k.None? {
      return Failure(TicketNotFound);
    }
    var next := AllowedStatus(status);
    if next.None? {
      return Failure(InvalidStatus);
    }
    var ticket := rows[k.value];
    ticket.status := next.value;
    ticket.adminComment := CommentValue(comment);
    r := Success(ticket);
  }

  /** A row of the `users` table, of which a password reset assigns three
      columns. Hashing is outside the model: the stored password is whatever
      hash the caller supplies. */
  class UserRow {
    const id: int
    var password: string
    var resetTokenHash: Option<string>
    var resetTokenExpiresAt: Option<int>

    constructor(id: int, password: string, resetTokenHash: Option<string>, resetTokenExpiresAt: Option<int>)
      ensures this.id == id && this.password == password
      ensures this.resetTokenHash == resetTokenHash && this.resetTokenExpiresAt == resetTokenExpiresAt
    {
      this.id := id;
      this.password := password;
      this.resetTokenHash := resetTokenHash;
      this.resetTokenExpiresAt := resetTokenExpiresAt;
    }
  }

  /** The first user holding the reset token with this hash. */
  function FindByToken(users: seq<UserRow>, tokenHash: string): (k: Option<nat>)
    reads users
    ensures k.Some? ==> k.value < |users| && users[k.value].resetTokenHash == Some(tokenHash)
    ensures k.None? ==> forall i :: 0 <= i < |users| ==> users[i].resetTokenHash != Some(tokenHash)
  {
    if users == [] then None
    else if users[0].resetTokenHash == Some(tokenHash) then Some(0)
    else match FindByToken(users[1..], tokenHash)
      case None => None
      case Some(k) => Some(k + 1)
  }

  /** A reset token may be redeemed while its expiry is present and not
      before `now`. */
  predicate TokenUsable(expiresAt: Option<int>, now: int) {
    expiresAt.Some? && expiresAt.value >= now
  }

  const InvalidResetToken := HttpError(400, "Invalid or expired reset token.")

  /** `reset_password`: the new password is validated first; then the token
      must belong to a user and must not have expired; on success the new
      password hash is stored and the token and its expiry are cleared, so the
      same token cannot be redeemed again. */
  method ResetPassword(users: seq<UserRow>, tokenHash: string, newPassword: string, newHash: string, now: int)
    returns (r: Result<(), HttpError>)
    modifies users
    ensures !AllPass(PasswordChecks(newPassword)) ==>
      r == Failure(HttpError(400, WeakDetail(Missing(PasswordChecks(newPassword)))))
    ensures AllPass(PasswordChecks(newPassword)) && old(FindByToken(users, tokenHash)).None? ==>
      r == Failure(InvalidResetToken)
    ensures AllPass(PasswordChecks(newPassword)) && old(FindByToken(users, tokenHash)).Some? ==>
      var k := old(FindByToken(users, tokenHash)).value;
      (r.Success? <==> TokenUsable(old(users[k].resetTokenExpiresAt), now))
      && (r.Failure? ==> r == Failure(InvalidResetToken))
    ensures r.Success? ==> old(FindByToken(users, tokenHash)).Some?
    ensures r.Success? ==>
      var u := users[old(FindByToken(users, tokenHash)).value];
      u.password == newHash && u.resetTokenHash.None? && u.resetTokenExpiresAt.None?
    ensures forall i :: 0 <= i < |users| && !(r.Success? && users[i] == users[old(FindByToken(users, tokenHash)).value]) ==>
      && users[i].password == old(users[i].password)
      && users[i].resetTokenHash == old(users[i].resetTokenHash)
      && users[i].resetTokenExpiresAt == old(users[i].resetTokenExpiresAt)
  {
    var valid := ValidatePasswordStrength(newPassword);
    if valid.Failure? {
      return Failure(valid.error);
    }
    var k := FindByToken(users, tokenHash);
    if k.None? {
      return Failure(InvalidResetToken);
    }
    var user := users[k.value];
    if user.resetTokenExpiresAt.None? || user.resetTokenExpiresAt.value < now {
      return Failure(InvalidResetToken);
    }
    user.password := newHash;
    user.resetTokenHash := None;
    user.resetTokenExpiresAt := None;
    r := Success(());
  }
}
