/** The helpers of the ticket-creation page: the keyword chips shown under an
    analysed ticket, the support queue derived from its category, and the
    displayed ticket number. */
module CreateTicket {
  import opened Wrappers
  import opened Text
  import opened Seqs

  /** The words never offered as entities. */
  const StopWords: set<string> := {
    "the", "and", "for", "with", "that", "this", "from", "into", "your",
    "have", "has", "are", "was", "were", "will", "would", "should", "could",
    "about", "issue", "ticket", "support", "user", "please"
  }

  const MaxEntities := 6

  /** `.replace(/[^a-z0-9\s]/g, " ")` on one character. */
  function Blank(c: char): (d: char)
    ensures IsAsciiLower(d) || IsAsciiDigit(d) || IsJsSpace(d)
    ensures (IsAsciiLower(c) || IsAsciiDigit(c) || IsJsSpace(c)) ==> d == c
  {
    if IsAsciiLower(c) || IsAsciiDigit(c) || IsJsSpace(c) then c else ' '
  }

  function BlankAll(s: string): (r: string)
    ensures |r| == |s|
    ensures forall i :: 0 <= i < |s| ==> r[i] == Blank(s[i])
  {
    seq(|s|, i requires 0 <= i < |s| => Blank(s[i]))
  }

  /** The pieces of `s` between whitespace characters, in order. Splitting at
      each whitespace character rather than at each run of them yields extra
      empty pieces only, and the length filter below drops those. */
  function SplitAtSpaces(s: string): (r: seq<string>)
    ensures |r| >= 1
    decreases |s|
  {
    if s == [] then [""]
    else
      var rest := SplitAtSpaces(s[1..]);
      if IsJsSpace(s[0]) then [""] + rest
      else [[s[0]] + rest[0]] + rest[1..]
  }

  /** The filter of the word list: longer than three and not a stop word. */
  predicate IsCandidate(w: string) {
    |w| > 3 && w !in StopWords
  }

  /** The words of the text that pass the filter, with repetitions, in text order. */
  function Candidates(text: string): seq<string> {
    Filter(SplitAtSpaces(BlankAll(Lower(text))), IsCandidate)
  }

  /** `extractEntities(text)`: no entities for a missing or empty text,
      otherwise the first six distinct candidate words. */
  function ExtractEntities(text: Option<string>): (r: seq<string>)
    ensures text.None? || text == Some("") ==> r == []
    ensures |r| <= MaxEntities
  {
    if text.None? || text.value == "" then []
    else Take(Dedup(Candidates(text.value)), MaxEntities)
  }

  /** A non-empty text yields the first six distinct candidates. */
  lemma ExtractOfText(text: string)
    requires text != ""
    ensures ExtractEntities(Some(text)) == Take(Dedup(Candidates(text)), MaxEntities)
  {
  }

  /** Every word of the lowered, blanked text is made of lower-case letters
      and digits. */
  lemma WordsAreAlnum(text: string)
    ensures forall w :: w in SplitAtSpaces(BlankAll(Lower(text))) ==>
      forall i :: 0 <= i < |w| ==> IsAsciiLower(w[i]) || IsAsciiDigit(w[i])
  {
    var b := BlankAll(Lower(text));
    assert forall i :: 0 <= i < |b| ==> IsAsciiLower(b[i]) || IsAsciiDigit(b[i]) || IsJsSpace(b[i]);
    CharsOfPieces(b);
    PiecesHaveNoSpaces(b);
  }

  /** No piece holds a whitespace character. */
  lemma {:induction false} PiecesHaveNoSpaces(s: string)
    ensures forall w :: w in SplitAtSpaces(s) ==> forall i :: 0 <= i < |w| ==> !IsJsSpace(w[i])
    decreases |s|
  {
    if s != [] {
      PiecesHaveNoSpaces(s[1..]);
      var rest := SplitAtSpaces(s[1..]);
      assert rest[0] in rest;
      forall w | w in SplitAtSpaces(s)
        ensures forall i :: 0 <= i < |w| ==> !IsJsSpace(w[i])
      {
        if !IsJsSpace(s[0]) && w == [s[0]] + rest[0] {
          assert forall i :: 0 < i < |w| ==> w[i] == rest[0][i - 1];
        } else {
          assert w == "" || w in rest;
        }
      }
    }
  }

  /** Each candidate is longer than three characters, not a stop word and
      made of lower-case ASCII letters and digits only. */
  lemma CandidatesWellFormed(text: string)
    ensures forall w :: w in Candidates(text) ==>
      && |w| > 3 && w !in StopWords
      && forall i :: 0 <= i < |w| ==> IsAsciiLower(w[i]) || IsAsciiDigit(w[i])
  {
    WordsAreAlnum(text);
  }

  /** Every character of a piece is a character of the split text. */
  lemma {:induction false} CharsOfPieces(s: string)
    ensures forall w :: w in SplitAtSpaces(s) ==> forall i :: 0 <= i < |w| ==> w[i] in s
    decreases |s|
  {
    if s != [] {
      CharsOfPieces(s[1..]);
      var rest := SplitAtSpaces(s[1..]);
      forall w | w in SplitAtSpaces(s)
        ensures forall i :: 0 <= i < |w| ==> w[i] in s
      {
        if !IsJsSpace(s[0]) && w == [s[0]] + rest[0] {
          assert rest[0] in rest;
          forall i | 0 <= i < |w|
            ensures w[i] in s
          {
            if i > 0 {
              assert w[i] == rest[0][i - 1];
              assert w[i] in s[1..];
            }
          }
        } else {
          assert w == "" || w in rest;
          forall i | 0 <= i < |w|
            ensures w[i] in s
          {
            assert w[i] in s[1..];
          }
        }
      }
    }
  }

  /** The first `n` distinct elements of `c` are distinct, come from `c` in
      the order of their first occurrence, and are all of them when fewer than
      `n` were taken; an element left out comes after the last one taken. */
  lemma TakeOfDedup<T>(c: seq<T>, n: nat)
    ensures var r := Take(Dedup(c), n);
      && Distinct(r)
      && (forall w :: w in r ==> w in c)
      && (forall i, j :: 0 <= i < j < |r| ==> FirstIndex(c, r[i]) < FirstIndex(c, r[j]))
      && (|r| < n ==> forall w :: w in c ==> w in r)
      && (forall w :: w in c && w !in r ==>
            |r| == n && (n > 0 ==> FirstIndex(c, r[n - 1]) < FirstIndex(c, w)))
  {
    var d := Dedup(c);
    var r := Take(d, n);
    DedupSpec(c);
    forall w | w in r
      ensures w in d
    {
      var k :| 0 <= k < |r| && r[k] == w;
      assert d[k] == w;
    }
    forall w | w in c && w !in r
      ensures |r| == n && (n > 0 ==> FirstIndex(c, r[n - 1]) < FirstIndex(c, w))
    {
      var k :| 0 <= k < |d| && d[k] == w;
      assert k >= |r|;
      if n > 0 {
        assert r[n - 1] == d[n - 1];
      }
    }
  }

  /** Each entity is distinct from the others, longer than three characters,
      not a stop word and made of lower-case ASCII letters and digits only. */
  lemma EntitiesWellFormed(text: Option<string>)
    ensures var r := ExtractEntities(text);
      && Distinct(r)
      && (forall w :: w in r ==> |w| > 3 && w !in StopWords)
      && (forall w :: w in r ==> forall i :: 0 <= i < |w| ==> IsAsciiLower(w[i]) || IsAsciiDigit(w[i]))
  {
    if text.Some? && text.value != "" {
      var c := Candidates(text.value);
      ExtractOfText(text.value);
      TakeOfDedup(c, MaxEntities);
      CandidatesWellFormed(text.value);
    }
  }

  /** The entities are the first six distinct candidate words of the text, in
      the order of their first occurrence: fewer than six means that no
      candidate word was left out, and a word left out first occurs after the
      last entity. */
  lemma EntitiesInTextOrder(text: string)
    requires text != ""
    ensures var r := ExtractEntities(Some(text));
      && (forall w :: w in r ==> w in Candidates(text))
      && (forall i, j :: 0 <= i < j < |r| ==>
            FirstIndex(Candidates(text), r[i]) < FirstIndex(Candidates(text), r[j]))
      && (|r| < MaxEntities ==> forall w :: w in Candidates(text) ==> w in r)
      && (forall w :: w in Candidates(text) && w !in r ==>
            |r| == MaxEntities
            && FirstIndex(Candidates(text), r[|r| - 1]) < FirstIndex(Candidates(text), w))
  {
    ExtractOfText(text);
    TakeOfDedup(Candidates(text), MaxEntities);
  }

  /** `getQueueLabel(category)`: the support queue for a category, matched
      case-insensitively, network and server first. */
  function QueueLabel(category: Option<string>): (r: string)
    ensures var c := Lower(category.GetOr(""));
      && (r == "Infrastructure" <==> Contains(c, "network") || Contains(c, "server"))
      && (r == "Identity" <==>
            !Contains(c, "network") && !Contains(c, "server")
            && (Contains(c, "access") || Contains(c, "account")))
      && (r == "IT Support" <==>
            !Contains(c, "network") && !Contains(c, "server")
            && !Contains(c, "access") && !Contains(c, "account"))
  {
    var c := Lower(category.GetOr(""));
    if Contains(c, "network") || Contains(c, "server") then "Infrastructure"
    else if Contains(c, "access") || Contains(c, "account") then "Identity"
    else "IT Support"
  }

  /** The queue does not depend on letter case. */
  lemma QueueIgnoresCase(category: string)
    ensures QueueLabel(Some(Lower(category))) == QueueLabel(Some(category))
  {
    LowerIdempotent(category);
  }

  /** A category mentioning the network, in any letter case, goes to the
      infrastructure queue. */
  lemma NetworkIsInfrastructure(category: string, sub: string)
    requires Contains(category, sub) && Lower(sub) == "network"
    ensures QueueLabel(Some(category)) == "Infrastructure"
  {
    ContainsLower(category, sub);
  }

  /** A category mentioning an account, in any letter case, and neither the
      network nor a server, goes to the identity queue. */
  lemma AccountIsIdentity(category: string, sub: string)
    requires Contains(category, sub) && Lower(sub) == "account"
    requires !Contains(Lower(category), "network") && !Contains(Lower(category), "server")
    ensures QueueLabel(Some(category)) == "Identity"
  {
    ContainsLower(category, sub);
  }

  /** `s.padStart(n, "0")` for a string of ASCII characters. */
  function PadZeros(s: string, n: nat): (r: string)
    ensures |r| == if |s| >= n then |s| else n
    ensures r[|r| - |s|..] == s
    ensures forall i :: 0 <= i < |r| - |s| ==> r[i] == '0'
  {
    if |s| >= n then s else seq(n - |s|, _ => '0') + s
  }

  const TicketPrefix := "#TKT-"

  /** The ticket number shown after submission: "#TKT-" and the id padded
      to five digits with zeros, a missing id shown as 0. */
  function TicketIdLabel(id: Option<int>): (r: string)
    ensures |r| >= |TicketPrefix| + 5
    ensures r[..|TicketPrefix|] == TicketPrefix
  {
    TicketPrefix + PadZeros(IntToString(id.GetOr(0)), 5)
  }

  /** For a non-negative id the label's digits read back as the id, so
      distinct ids get distinct labels, and ids below 100000 take exactly five
      digits. */
  lemma TicketIdRoundTrip(id: nat)
    ensures var digits := TicketIdLabel(Some(id))[|TicketPrefix|..];
      && AllDigits(digits) && DigitsValue(digits) == id
      && (id < 100000 ==> |digits| == 5)
  {
    var s := NatToString(id);
    var p := PadZeros(s, 5);
    assert TicketIdLabel(Some(id))[|TicketPrefix|..] == p;
    var zeros := p[..|p| - |s|];
    assert p == zeros + s;
    LeadingZeros(zeros, s);
    NatToStringRoundTrip(id);
    if id < 100000 {
      NatToStringBound(id);
    }
  }

  /** The decimal form of a number below 100000 has at most five digits. */
  lemma NatToStringBound(n: nat)
    requires n < 100000
    ensures |NatToString(n)| <= 5
  {
    assert |NatToString(n / 10000)| == 1;
    assert |NatToString(n / 1000)| <= 2;
    assert |NatToString(n / 100)| <= 3;
    assert |NatToString(n / 10)| <= 4;
  }

  lemma TicketIdInjective(a: nat, b: nat)
    requires TicketIdLabel(Some(a)) == TicketIdLabel(Some(b))
    ensures a == b
  {
    TicketIdRoundTrip(a);
    TicketIdRoundTrip(b);
  }

  /** A missing id is shown as ticket 0. */
  lemma MissingId()
    ensures TicketIdLabel(None) == "#TKT-00000"
  {
  }
}
