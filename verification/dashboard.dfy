/** The user dashboard's derived figures: status and label normalisation, the
    time-since labels of ticket creation times, the scalar metrics, the status
    segments of the pie chart and the pie's colour stops. */
module Dashboard {
  import opened Wrappers
  import opened Text
  import opened Seqs
  import opened Tickets

  const MinuteMs := 60 * 1000
  const HourMs := 60 * MinuteMs
  const DayMs := 24 * HourMs

  /** The dashboard's `normalizeStatus`: lower-cases without trimming, folds
      "resolved" into "closed" and "pending" into "open", maps a missing or empty
      status to "open", and passes every other value through lower-cased. */
  function NormalizeStatus(status: Option<string>): (r: string)
    ensures r != ""
    ensures forall i :: 0 <= i < |r| ==> !IsAsciiUpper(r[i])
    ensures var v := Lower(status.GetOr(""));
      && (v == "closed" || v == "resolved" <==> r == "closed" && v != "")
      && (v == "pending" || v == "open" || v == "" ==> r == "open")
      && (v !in {"closed", "resolved", "pending", "open", ""} ==> r == v)
  {
    var value := Lower(status.GetOr(""));
    if value == "closed" || value == "resolved" then "closed"
    else if value == "pending" || value == "open" then "open"
    else if value == "" then "open"
    else value
  }

  /** Normalising a normalised status changes nothing. */
  lemma NormalizeStatusIdempotent(status: Option<string>)
    ensures NormalizeStatus(Some(NormalizeStatus(status))) == NormalizeStatus(status)
  {
    LowerIdempotent(status.GetOr(""));
  }

  /** `normalizeLabel`: the trimmed text with its first character upper-cased,
      or "Unknown" when nothing but white space is left. */
  function NormalizeLabel(value: Option<string>): (r: string)
    ensures r != ""
    ensures var text := TrimJs(value.GetOr(""));
      && (text == "" ==> r == "Unknown")
      && (text != "" ==> |r| == |text| && r[0] == UpperChar(text[0]) && r[1..] == text[1..])
  {
    var text := TrimJs(value.GetOr(""));
    if text == "" then "Unknown" else [UpperChar(text[0])] + text[1..]
  }

  /** Upper-casing never turns a non-space into a space. */
  lemma UpperCharKeepsNonSpace(c: char)
    requires !IsJsSpace(c)
    ensures !IsJsSpace(UpperChar(c))
  {
  }

  /** Normalising a normalised label changes nothing: the result is already
      trimmed and already starts with an upper-case character. */
  lemma NormalizeLabelIdempotent(value: Option<string>)
    ensures NormalizeLabel(Some(NormalizeLabel(value))) == NormalizeLabel(value)
  {
    LabelIsTrimmed(value);
    LabelStartsUpper(value);
    LabelFixedPoint(NormalizeLabel(value));
  }

  /** A trimmed, non-empty label that already starts upper-cased is its own
      normal form. */
  lemma LabelFixedPoint(r: string)
    requires r != "" && TrimJs(r) == r && UpperChar(r[0]) == r[0]
    ensures NormalizeLabel(Some(r)) == r
  {
    assert [UpperChar(r[0])] + r[1..] == r;
  }

  lemma LabelIsTrimmed(value: Option<string>)
    ensures TrimJs(NormalizeLabel(value)) == NormalizeLabel(value)
  {
    var text := TrimJs(value.GetOr(""));
    if text == "" {
      TrimOfTrimmed("Unknown", JsSpaces);
    } else {
      CapitalisedIsTrimmed(text);
    }
  }

  lemma LabelStartsUpper(value: Option<string>)
    ensures UpperChar(NormalizeLabel(value)[0]) == NormalizeLabel(value)[0]
  {
  }

  /** A trimmed text with its first character upper-cased is still trimmed. */
  lemma CapitalisedIsTrimmed(text: string)
    requires text != [] && !IsJsSpace(text[0]) && !IsJsSpace(text[|text| - 1])
    ensures TrimJs([UpperChar(text[0])] + text[1..]) == [UpperChar(text[0])] + text[1..]
  {
    var r := [UpperChar(text[0])] + text[1..];
    UpperCharKeepsNonSpace(text[0]);
    assert r[|r| - 1] == text[|text| - 1] || |r| == 1;
    TrimOfTrimmed(r, JsSpaces);
  }

  /** The "time since" label; the text it renders is `SinceText`. */
  datatype Since = JustNow | MinutesAgo(minutes: nat) | HoursAgo(hours: nat) | DaysAgo(days: nat)

  function SinceText(s: Since): string {
    match s
    case JustNow => "just now"
    case MinutesAgo(m) => NatToString(m) + "m ago"
    case HoursAgo(h) => NatToString(h) + "h ago"
    case DaysAgo(d) => NatToString(d) + "d ago"
  }

  /** Flooring minutes into hours is flooring milliseconds into hours. */
  lemma HoursFloor(diff: nat)
    ensures (diff / MinuteMs) / 60 == diff / HourMs
  {
  }

  /** Flooring hours into days is flooring milliseconds into days. */
  lemma DaysFloor(diff: nat)
    ensures (diff / HourMs) / 24 == diff / DayMs
  {
  }

  /** `getSinceLabel(timestamp)` at time `now` (milliseconds); a missing or
      unparseable timestamp is `None`. Each unit is the floor of the elapsed time. */
  function SinceLabel(timestamp: Option<int>, now: int): (s: Since)
    ensures timestamp.None? ==> s == JustNow
    ensures timestamp.Some? ==>
      var diff := now - timestamp.value;
      && (s.JustNow? <==> diff < MinuteMs)
      && (s.MinutesAgo? <==> MinuteMs <= diff < HourMs)
      && (s.HoursAgo? <==> HourMs <= diff < DayMs)
      && (s.DaysAgo? <==> DayMs <= diff)
      && (s.MinutesAgo? ==> s.minutes * MinuteMs <= diff < (s.minutes + 1) * MinuteMs)
      && (s.HoursAgo? ==> s.hours * HourMs <= diff < (s.hours + 1) * HourMs)
      && (s.DaysAgo? ==> s.days * DayMs <= diff < (s.days + 1) * DayMs)
  {
    if timestamp.None? then JustNow
    else
      var diff := now - timestamp.value;
      if diff < MinuteMs then JustNow
      else
        var minutes := diff / MinuteMs;
        if minutes < 60 then MinutesAgo(minutes)
        else
          var hours := minutes / 60;
          HoursFloor(diff);
          if hours < 24 then HoursAgo(hours)
          else
            DaysFloor(diff);
            DaysAgo(hours / 24)
  }

  predicate IsOpen(t: Ticket) { NormalizeStatus(t.status) == "open" }
  predicate IsClosed(t: Ticket) { NormalizeStatus(t.status) == "closed" }
  /** Neither open nor closed after normalisation: what the chart calls "In Progress". */
  predicate IsOther(t: Ticket) { !IsOpen(t) && !IsClosed(t) }
  predicate IsHigh(t: Ticket) { LowerText(t.priority) == "high" }
  /** Created within the last day; a ticket dated in the future also counts. */
  predicate IsRecent(now: int, t: Ticket) { t.createdAt.Some? && now - t.createdAt.value <= DayMs }

  datatype Stats = Stats(total: nat, open: nat, resolved: nat, high: nat, last24h: nat)

  /** The `stats` memo. */
  function ComputeStats(tickets: seq<Ticket>, now: int): (s: Stats)
    ensures s.total == |tickets|
    ensures s.open + s.resolved <= s.total && s.high <= s.total && s.last24h <= s.total
    ensures s.open == Count(tickets, IsOpen) && s.resolved == Count(tickets, IsClosed)
    ensures s.high == Count(tickets, IsHigh)
    ensures s.last24h == Count(tickets, t => IsRecent(now, t))
  {
    CountDisjoint(tickets, IsOpen, IsClosed);
    Stats(|tickets|, Count(tickets, IsOpen), Count(tickets, IsClosed), Count(tickets, IsHigh),
          Count(tickets, t => IsRecent(now, t)))
  }

  /** Tickets without a usable creation time never enter the last-day count. */
  lemma {:induction false} UndatedNotRecent(tickets: seq<Ticket>, undated: seq<Ticket>, now: int)
    requires forall i :: 0 <= i < |undated| ==> undated[i].createdAt.None?
    ensures ComputeStats(tickets + undated, now).last24h == ComputeStats(tickets, now).last24h
  {
    FilterAppend(tickets, undated, t => IsRecent(now, t));
    FilterNone(undated, t => IsRecent(now, t));
  }

  /** Every ticket is exactly one of open, closed or other. */
  lemma {:induction false} StatusPartition(tickets: seq<Ticket>)
    ensures Count(tickets, IsOpen) + Count(tickets, IsClosed) + Count(tickets, IsOther) == |tickets|
  {
    if tickets != [] {
      StatusPartition(tickets[1..]);
    }
  }

  datatype Segment = Segment(name: string, count: nat, value: real, color: string)

  const ResolvedColor := "#16a34a"
  const OpenColor := "#2563eb"
  const InProgressColor := "#f59e0b"

  function Percent(count: nat, denom: nat): real
    requires denom > 0
  {
    (count as real / denom as real) * 100.0
  }

  /** The sum of the segment values (`segments.reduce(...)`). */
  function SumValues(segments: seq<Segment>): real {
    if segments == [] then 0.0 else SumValues(segments[..|segments| - 1]) + segments[|segments| - 1].value
  }

  /** The `statusSegments` memo: Resolved, Pending/Open and In Progress, the
      last derived by subtraction, each as a percentage of `total || 1`. */
  function StatusSegments(s: Stats): (segs: seq<Segment>)
    ensures |segs| == 3
    ensures segs[0].name == "Resolved" && segs[0].color == ResolvedColor && segs[0].count == s.resolved
    ensures segs[1].name == "Pending/Open" && segs[1].color == OpenColor && segs[1].count == s.open
    ensures segs[2].name == "In Progress" && segs[2].color == InProgressColor
    ensures segs[2].count == if s.open + s.resolved <= s.total then s.total - s.open - s.resolved else 0
    ensures Scaled(segs[0], Denom(s.total)) && Scaled(segs[1], Denom(s.total)) && Scaled(segs[2], Denom(s.total))
    ensures s.open + s.resolved <= s.total ==>
      && (forall i :: 0 <= i < 3 ==> 0.0 <= segs[i].value <= 100.0)
      && (s.total == 0 ==> forall i :: 0 <= i < 3 ==> segs[i].value == 0.0)
      && (s.total > 0 ==> SumValues(segs) == 100.0)
  {
    var denom := Denom(s.total);
    var inProgress := if s.total - s.open - s.resolved > 0 then s.total - s.open - s.resolved else 0;
    var segs := [
      MakeSegment("Resolved", s.resolved, denom, ResolvedColor),
      MakeSegment("Pending/Open", s.open, denom, OpenColor),
      MakeSegment("In Progress", inProgress, denom, InProgressColor)];
    assert segs[..2][..1] == segs[..1] && segs[..1][..0] == [];
    assert SumValues(segs[..1]) == segs[0].value;
    assert SumValues(segs[..2]) == segs[0].value + segs[1].value;
    assert SumValues(segs) == segs[0].value + segs[1].value + segs[2].value;
    SegmentValues(s.resolved, s.open, inProgress, denom, s.open + s.resolved <= s.total);
    segs
  }

  /** `total || 1`. */
  function Denom(total: nat): (d: nat)
    ensures d > 0 && (total > 0 ==> d == total)
  {
    if total == 0 then 1 else total
  }

  /** The segment's value is its count as a percentage of `denom`:
      value * denom == count * 100. */
  predicate Scaled(seg: Segment, denom: nat) {
    seg.value * denom as real == seg.count as real * 100.0
  }

  /** One segment: `count` as a percentage of `denom`. */
  function MakeSegment(name: string, count: nat, denom: nat, color: string): (seg: Segment)
    requires denom > 0
    ensures seg.name == name && seg.count == count && seg.color == color
    ensures seg.value == Percent(count, denom)
    ensures Scaled(seg, denom)
  {
    PercentScaled(count, denom);
    Segment(name, count, Percent(count, denom), color)
  }

  lemma SegmentValues(resolved: nat, open: nat, inProgress: nat, denom: nat, consistent: bool)
    requires denom > 0
    requires consistent ==> resolved + open + inProgress == denom || (resolved + open + inProgress == 0 && denom == 1)
    ensures consistent ==>
      && 0.0 <= Percent(resolved, denom) <= 100.0
      && 0.0 <= Percent(open, denom) <= 100.0
      && 0.0 <= Percent(inProgress, denom) <= 100.0
      && (resolved + open + inProgress == denom ==>
            Percent(resolved, denom) + Percent(open, denom) + Percent(inProgress, denom) == 100.0)
  {
    if consistent {
      PercentBounds(resolved, denom);
      PercentBounds(open, denom);
      PercentBounds(inProgress, denom);
      if resolved + open + inProgress == denom {
        PercentSum(resolved, open, inProgress, denom);
      }
    }
  }

  /** A percentage times its denominator is a hundred times the count. */
  lemma PercentScaled(count: nat, denom: nat)
    requires denom > 0
    ensures Percent(count, denom) * denom as real == count as real * 100.0
  {
    var d := denom as real;
    assert (count as real / d) * d == count as real;
    assert (count as real / d) * 100.0 * d == (count as real / d) * d * 100.0;
  }

  lemma PercentBounds(count: nat, denom: nat)
    requires 0 < denom && count <= denom
    ensures 0.0 <= Percent(count, denom) <= 100.0
  {
    DivBounds(count as real, denom as real);
  }

  lemma DivBounds(a: real, d: real)
    requires 0.0 < d && 0.0 <= a <= d
    ensures 0.0 <= a / d <= 1.0
  {
  }

  lemma DivAdd(a: real, b: real, d: real)
    requires d != 0.0
    ensures a / d + b / d == (a + b) / d
  {
  }

  lemma PercentSum(a: nat, b: nat, c: nat, denom: nat)
    requires denom > 0 && a + b + c == denom
    ensures Percent(a, denom) + Percent(b, denom) + Percent(c, denom) == 100.0
  {
    var d := denom as real;
    var x, y, z := a as real / d, b as real / d, c as real / d;
    DivAdd(a as real, b as real, d);
    DivAdd((a + b) as real, c as real, d);
    assert x + y + z == d / d == 1.0;
    assert x * 100.0 + y * 100.0 + z * 100.0 == (x + y + z) * 100.0;
  }

  /** The status chart of a ticket list: "In Progress" counts exactly the tickets
      that are neither open nor closed, and the three segments cover the whole
      pie when there is any ticket. */
  lemma {:induction false} StatusSegmentsOfTickets(tickets: seq<Ticket>, now: int)
    ensures var segs := StatusSegments(ComputeStats(tickets, now));
      && segs[2].count == Count(tickets, IsOther)
      && (tickets == [] ==> forall i :: 0 <= i < 3 ==> segs[i].value == 0.0)
      && (tickets != [] ==> SumValues(segs) == 100.0)
  {
    StatusPartition(tickets);
  }

  /** One colour stop of the conic gradient: `color from% to%`. */
  datatype Stop = Stop(color: string, from: real, to: real)

  const NeutralColor := "#e2e8f0"

  /** `getPieStyle(segments)`: a single neutral stop when the values sum to at
      most zero, otherwise one stop per segment, each starting where the
      previous one ended, from 0 up to the total. */
  method GetPieStyle(segments: seq<Segment>) returns (stops: seq<Stop>)
    ensures SumValues(segments) <= 0.0 ==> stops == [Stop(NeutralColor, 0.0, 100.0)]
    ensures SumValues(segments) > 0.0 ==>
      && |stops| == |segments|
      && stops[0].from == 0.0
      && stops[|stops| - 1].to == SumValues(segments)
      && (forall i :: 0 <= i < |stops| ==>
            stops[i].color == segments[i].color && stops[i].to == stops[i].from + segments[i].value)
      && (forall i :: 0 <= i < |stops| - 1 ==> stops[i + 1].from == stops[i].to)
  {
    var totalValue := SumValues(segments);
    if totalValue <= 0.0 {
      return [Stop(NeutralColor, 0.0, 100.0)];
    }
    var cursor := 0.0;
    stops := [];
    var i := 0;
    while i < |segments|
      invariant 0 <= i <= |segments| && |stops| == i
      invariant cursor == SumValues(segments[..i])
      invariant i > 0 ==> stops[0].from == 0.0 && stops[i - 1].to == cursor
      invariant forall k :: 0 <= k < i ==>
        stops[k].color == segments[k].color && stops[k].to == stops[k].from + segments[k].value
      invariant forall k :: 0 <= k < i - 1 ==> stops[k + 1].from == stops[k].to
    {
      var from := cursor;
      assert segments[..i + 1][..i] == segments[..i];
      cursor := cursor + segments[i].value;
      stops := stops + [Stop(segments[i].color, from, cursor)];
      i := i + 1;
    }
    assert segments[..i] == segments;
  }
}
