/** The dashboard's category and priority tables: one pass counts the
    normalised label of every ticket into an object keyed by label, whose
    entries (in insertion order) are then sorted stably by count, descending;
    and the bar that each row draws, scaled to the largest count. */
module Distribution {
  import opened Wrappers
  import opened Seqs
  import opened Tickets
  import opened Dashboard

  /** One table row: a label and the number of tickets carrying it. */
  datatype Row = Row(key: string, count: nat)

  function Keys(rows: seq<Row>): (ks: seq<string>)
    ensures |ks| == |rows| && forall i :: 0 <= i < |rows| ==> ks[i] == rows[i].key
  {
    seq(|rows|, i requires 0 <= i < |rows| => rows[i].key)
  }

  /** The normalised labels of the tickets, in ticket order. */
  function Labels(tickets: seq<Ticket>, field: Ticket -> Option<string>): (labels: seq<string>)
    ensures |labels| == |tickets|
    ensures forall i :: 0 <= i < |tickets| ==> labels[i] == NormalizeLabel(field(tickets[i]))
  {
    seq(|tickets|, i requires 0 <= i < |tickets| => NormalizeLabel(field(tickets[i])))
  }

  function Category(t: Ticket): Option<string> { t.category }
  function Priority(t: Ticket): Option<string> { t.priority }

  /** `Object.entries` of the counting object: every distinct label once, in the
      order it was first met, with the number of its occurrences. */
  function Tally(labels: seq<string>): (rows: seq<Row>)
    ensures Keys(rows) == Dedup(labels)
    ensures forall i :: 0 <= i < |rows| ==> rows[i].count == multiset(labels)[rows[i].key]
  {
    var keys := Dedup(labels);
    seq(|keys|, i requires 0 <= i < |keys| => Row(keys[i], multiset(labels)[keys[i]]))
  }

  /** Inserts `r` after every row whose count is at least its own. */
  function InsertDesc(sorted: seq<Row>, r: Row): (result: seq<Row>)
    ensures multiset(result) == multiset(sorted) + multiset{r}
  {
    if sorted == [] || sorted[|sorted| - 1].count >= r.count then sorted + [r]
    else
      var n := |sorted| - 1;
      assert sorted == sorted[..n] + [sorted[n]];
      InsertDesc(sorted[..n], r) + [sorted[n]]
  }

  /** `rows.sort((a, b) => b[1] - a[1])`: a stable sort by count, descending. */
  function SortDesc(rows: seq<Row>): (sorted: seq<Row>)
    ensures multiset(sorted) == multiset(rows)
  {
    if rows == [] then []
    else
      var n := |rows| - 1;
      assert rows == rows[..n] + [rows[n]];
      InsertDesc(SortDesc(rows[..n]), rows[n])
  }

  /** A table as the page shows it. */
  function Table(labels: seq<string>): seq<Row> {
    SortDesc(Tally(labels))
  }

  /** The position at which a label first occurs (past the end when it does not). */
  function Rank(labels: seq<string>, key: string): nat {
    if key in labels then FirstIndex(labels, key) else |labels|
  }

  /** Row `a` precedes row `b`: a larger count, or an equal count and a label
      met earlier. */
  predicate Before(labels: seq<string>, a: Row, b: Row) {
    a.count > b.count || (a.count == b.count && Rank(labels, a.key) < Rank(labels, b.key))
  }

  predicate SortedBy(labels: seq<string>, rows: seq<Row>) {
    forall i, j :: 0 <= i < j < |rows| ==> Before(labels, rows[i], rows[j])
  }

  lemma {:induction false} InsertSorted(labels: seq<string>, sorted: seq<Row>, r: Row)
    requires SortedBy(labels, sorted)
    requires forall x :: x in sorted ==> Rank(labels, x.key) < Rank(labels, r.key)
    ensures SortedBy(labels, InsertDesc(sorted, r))
    decreases |sorted|
  {
    if sorted == [] || sorted[|sorted| - 1].count >= r.count {
      AppendSorted(labels, sorted, r);
    } else {
      var n := |sorted| - 1;
      var prefix := sorted[..n];
      assert forall x :: x in prefix ==> x in sorted;
      InsertSorted(labels, prefix, r);
      InsertBeforeLast(labels, sorted, r);
    }
  }

  /** A row whose count does not exceed the last one and whose label comes
      later may go at the end. */
  lemma AppendSorted(labels: seq<string>, sorted: seq<Row>, r: Row)
    requires SortedBy(labels, sorted)
    requires forall x :: x in sorted ==> Rank(labels, x.key) < Rank(labels, r.key)
    requires sorted == [] || sorted[|sorted| - 1].count >= r.count
    ensures SortedBy(labels, sorted + [r])
  {
    var res := sorted + [r];
    forall i, j | 0 <= i < j < |res|
      ensures Before(labels, res[i], res[j])
    {
      if j == |sorted| {
        assert res[i] == sorted[i] && sorted[i] in sorted;
        if i < |sorted| - 1 {
          assert Before(labels, sorted[i], sorted[|sorted| - 1]);
        }
      }
    }
  }

  /** A row with a larger count than the last one goes before it. */
  lemma InsertBeforeLast(labels: seq<string>, sorted: seq<Row>, r: Row)
    requires SortedBy(labels, sorted)
    requires sorted != [] && sorted[|sorted| - 1].count < r.count
    requires SortedBy(labels, InsertDesc(sorted[..|sorted| - 1], r))
    ensures SortedBy(labels, InsertDesc(sorted, r))
  {
    var n := |sorted| - 1;
    var last := sorted[n];
    var prefix := sorted[..n];
    var ins := InsertDesc(prefix, r);
    var res := ins + [last];
    assert InsertDesc(sorted, r) == res;
    forall i, j | 0 <= i < j < |res|
      ensures Before(labels, res[i], res[j])
    {
      if j == |ins| {
        var x := res[i];
        assert x in multiset(ins);
        assert x in multiset(prefix) || x == r;
        if x != r {
          var k :| 0 <= k < n && prefix[k] == x;
          assert Before(labels, sorted[k], sorted[n]);
        }
      } else {
        assert res[i] == ins[i] && res[j] == ins[j];
      }
    }
  }

  /** Sorting rows whose labels appear in order of first occurrence yields the
      order `Before`: count descending, ties in order of first occurrence. */
  lemma {:induction false} SortSorted(labels: seq<string>, rows: seq<Row>)
    requires forall i, j :: 0 <= i < j < |rows| ==> Rank(labels, rows[i].key) < Rank(labels, rows[j].key)
    ensures SortedBy(labels, SortDesc(rows))
    decreases |rows|
  {
    if rows != [] {
      var n := |rows| - 1;
      var prefix := rows[..n];
      SortSorted(labels, prefix);
      var sorted := SortDesc(prefix);
      PrefixRanksBelow(labels, rows, sorted);
      InsertSorted(labels, sorted, rows[n]);
    }
  }

  /** The rows of a sorted prefix all rank before the last row. */
  lemma PrefixRanksBelow(labels: seq<string>, rows: seq<Row>, sorted: seq<Row>)
    requires rows != []
    requires forall i, j :: 0 <= i < j < |rows| ==> Rank(labels, rows[i].key) < Rank(labels, rows[j].key)
    requires multiset(sorted) == multiset(rows[..|rows| - 1])
    ensures forall x :: x in sorted ==> Rank(labels, x.key) < Rank(labels, rows[|rows| - 1].key)
  {
    var n := |rows| - 1;
    forall x | x in sorted
      ensures Rank(labels, x.key) < Rank(labels, rows[n].key)
    {
      assert x in multiset(rows[..n]);
      var k :| 0 <= k < n && rows[..n][k] == x;
      assert rows[k] == x;
    }
  }

  function SumCounts(rows: seq<Row>): nat {
    if rows == [] then 0 else SumCounts(rows[..|rows| - 1]) + rows[|rows| - 1].count
  }

  lemma {:induction false} SumCountsAppend(a: seq<Row>, b: seq<Row>)
    ensures SumCounts(a + b) == SumCounts(a) + SumCounts(b)
    decreases |b|
  {
    if b != [] {
      var n := |b| - 1;
      SumCountsAppend(a, b[..n]);
      assert (a + b)[..|a + b| - 1] == a + b[..n];
    } else {
      assert a + b == a;
    }
  }

  lemma {:induction false} InsertSum(sorted: seq<Row>, r: Row)
    ensures SumCounts(InsertDesc(sorted, r)) == SumCounts(sorted) + r.count
    decreases |sorted|
  {
    if !(sorted == [] || sorted[|sorted| - 1].count >= r.count) {
      var n := |sorted| - 1;
      InsertSum(sorted[..n], r);
      var ins := InsertDesc(sorted[..n], r);
      assert (ins + [sorted[n]])[..|ins|] == ins;
    } else {
      assert (sorted + [r])[..|sorted|] == sorted;
    }
  }

  lemma {:induction false} SortSum(rows: seq<Row>)
    ensures SumCounts(SortDesc(rows)) == SumCounts(rows)
    decreases |rows|
  {
    if rows != [] {
      var n := |rows| - 1;
      SortSum(rows[..n]);
      InsertSum(SortDesc(rows[..n]), rows[n]);
    }
  }

  /** The occurrences, in `m`, of the distinct keys `keys`. */
  function SumOver(keys: seq<string>, m: multiset<string>): nat {
    if keys == [] then 0 else SumOver(keys[..|keys| - 1], m) + m[keys[|keys| - 1]]
  }

  lemma {:induction false} SumOverAdd(keys: seq<string>, m: multiset<string>, x: string)
    requires Distinct(keys)
    ensures SumOver(keys, m + multiset{x}) == SumOver(keys, m) + (if x in keys then 1 else 0)
    decreases |keys|
  {
    if keys != [] {
      var n := |keys| - 1;
      assert Distinct(keys[..n]);
      SumOverAdd(keys[..n], m, x);
      assert x in keys <==> x in keys[..n] || x == keys[n];
      if x == keys[n] {
        assert x !in keys[..n];
      }
    }
  }

  lemma {:induction false} SumOverAppend(keys: seq<string>, m: multiset<string>, x: string)
    ensures SumOver(keys + [x], m) == SumOver(keys, m) + m[x]
  {
    assert (keys + [x])[..|keys|] == keys;
  }

  /** The occurrence counts of the distinct labels add up to the number of labels. */
  lemma {:induction false} DedupCounts(labels: seq<string>)
    ensures SumOver(Dedup(labels), multiset(labels)) == |labels|
    decreases |labels|
  {
    if labels != [] {
      var n := |labels| - 1;
      var x := labels[n];
      var init := labels[..n];
      DedupCounts(init);
      DedupSpec(init);
      assert labels == init + [x];
      assert multiset(labels) == multiset(init) + multiset{x};
      var d := Dedup(init);
      SumOverAdd(d, multiset(init), x);
      if x !in d {
        SumOverAppend(d, multiset(labels), x);
        assert multiset(init)[x] == 0;
      }
    }
  }

  lemma {:induction false} TallySum(labels: seq<string>)
    ensures SumCounts(Tally(labels)) == |labels|
  {
    DedupCounts(labels);
    TallySumOver(Tally(labels), Dedup(labels), multiset(labels));
  }

  lemma {:induction false} TallySumOver(rows: seq<Row>, keys: seq<string>, m: multiset<string>)
    requires |rows| == |keys|
    requires forall i :: 0 <= i < |rows| ==> rows[i].key == keys[i] && rows[i].count == m[keys[i]]
    ensures SumCounts(rows) == SumOver(keys, m)
    decreases |rows|
  {
    if rows != [] {
      TallySumOver(rows[..|rows| - 1], keys[..|keys| - 1], m);
    }
  }

  /** The rows of a table are the rows of its tally, rearranged. */
  lemma TableRowsFromTally(labels: seq<string>)
    ensures forall r :: r in Table(labels) <==> r in Tally(labels)
  {
    var tally := Tally(labels);
    assert multiset(Table(labels)) == multiset(tally);
    forall r
      ensures r in Table(labels) <==> r in tally
    {
      assert r in Table(labels) <==> r in multiset(Table(labels));
      assert r in tally <==> r in multiset(tally);
    }
  }

  /** Each row counts the occurrences of its label, so every count is at least 1. */
  lemma {:induction false} TableCounts(labels: seq<string>)
    ensures var rows := Table(labels);
      forall i :: 0 <= i < |rows| ==> rows[i].count == multiset(labels)[rows[i].key] >= 1
  {
    var tally := Tally(labels);
    var rows := Table(labels);
    TableRowsFromTally(labels);
    DedupSpec(labels);
    forall i | 0 <= i < |rows|
      ensures rows[i].count == multiset(labels)[rows[i].key] >= 1
    {
      assert rows[i] in tally;
      var k :| 0 <= k < |tally| && tally[k] == rows[i];
      assert tally[k].key == Dedup(labels)[k];
    }
  }

  /** The labels of the rows are exactly the labels of the tickets. */
  lemma TableKeys(labels: seq<string>)
    ensures forall x :: x in labels <==> x in Keys(Table(labels))
  {
    TableRowsFromTally(labels);
    KeysSubset(Table(labels), Tally(labels));
    KeysSubset(Tally(labels), Table(labels));
    DedupSpec(labels);
  }

  /** Rows drawn from `b` carry labels of `b`. */
  lemma KeysSubset(a: seq<Row>, b: seq<Row>)
    requires forall r :: r in a ==> r in b
    ensures forall x :: x in Keys(a) ==> x in Keys(b)
  {
    forall x | x in Keys(a)
      ensures x in Keys(b)
    {
      var m :| 0 <= m < |a| && Keys(a)[m] == x;
      assert a[m] in b;
      var k :| 0 <= k < |b| && b[k] == a[m];
      assert Keys(b)[k] == x;
    }
  }

  /** The rows are ordered by count, descending, ties by first occurrence. */
  lemma {:induction false} TableSorted(labels: seq<string>)
    ensures SortedBy(labels, Table(labels))
  {
    var tally := Tally(labels);
    DedupSpec(labels);
    forall i, j | 0 <= i < j < |tally|
      ensures Rank(labels, tally[i].key) < Rank(labels, tally[j].key)
    {
      assert tally[i].key == Dedup(labels)[i] && tally[j].key == Dedup(labels)[j];
    }
    SortSorted(labels, tally);
  }

  /** No label has two rows. */
  lemma {:induction false} TableDistinct(labels: seq<string>)
    ensures Distinct(Keys(Table(labels)))
  {
    var rows := Table(labels);
    TableCounts(labels);
    TableSorted(labels);
    forall i, j | 0 <= i < j < |rows|
      ensures Keys(rows)[i] != Keys(rows)[j]
    {
      assert Before(labels, rows[i], rows[j]);
    }
  }

  /** The counts add up to the number of tickets. */
  lemma {:induction false} TableSum(labels: seq<string>)
    ensures SumCounts(Table(labels)) == |labels|
  {
    TallySum(labels);
    SortSum(Tally(labels));
  }

  /** What one more label adds to the occurrence counts and to the key order. */
  lemma CountStep(labels: seq<string>, i: nat)
    requires i < |labels|
    ensures multiset(labels[..i + 1]) == multiset(labels[..i]) + multiset{labels[i]}
    ensures Dedup(labels[..i + 1])
      == if labels[i] in Dedup(labels[..i]) then Dedup(labels[..i]) else Dedup(labels[..i]) + [labels[i]]
    ensures labels[i] in Dedup(labels[..i]) <==> labels[i] in labels[..i]
  {
    assert labels[..i + 1] == labels[..i] + [labels[i]];
    DedupStep(labels[..i], labels[i]);
  }

  /** The counting pass (`tickets.reduce`) over the normalised labels: the
      object's keys in insertion order, and the count under each key. */
  method CountLabels(labels: seq<string>) returns (order: seq<string>, counts: map<string, nat>)
    ensures order == Dedup(labels)
    ensures forall k :: k in counts <==> k in order
    ensures forall k :: k in counts ==> counts[k] == multiset(labels)[k]
  {
    counts := map[];
    order := [];
    var i := 0;
    while i < |labels|
      invariant 0 <= i <= |labels|
      invariant order == Dedup(labels[..i])
      invariant forall k :: k in counts <==> k in order
      invariant forall k :: k in counts ==> counts[k] == multiset(labels[..i])[k]
    {
      var key := labels[i];
      CountStep(labels, i);
      if key in counts {
        counts := counts[key := counts[key] + 1];
      } else {
        counts := counts[key := 1];
        order := order + [key];
      }
      i := i + 1;
    }
    assert labels[..i] == labels;
  }

  /** `Object.entries(counts)`: one row per key, in insertion order. */
  method Entries(order: seq<string>, counts: map<string, nat>) returns (entries: seq<Row>)
    requires forall k :: k in order ==> k in counts
    ensures |entries| == |order|
    ensures forall j :: 0 <= j < |order| ==> entries[j] == Row(order[j], counts[order[j]])
  {
    entries := [];
    var j := 0;
    while j < |order|
      invariant 0 <= j <= |order| && |entries| == j
      invariant forall k :: 0 <= k < j ==> entries[k] == Row(order[k], counts[order[k]])
    {
      entries := entries + [Row(order[j], counts[order[j]])];
      j := j + 1;
    }
  }

  /** The category or priority table, built as the page builds it: the
      counting pass, then the entries, then the sort. */
  method BuildRows(tickets: seq<Ticket>, field: Ticket -> Option<string>) returns (rows: seq<Row>)
    ensures rows == Table(Labels(tickets, field))
  {
    var labels := Labels(tickets, field);
    var order, counts := CountLabels(labels);
    var entries := Entries(order, counts);
    ghost var tally := Tally(labels);
    assert |tally| == |order|;
    forall j | 0 <= j < |order|
      ensures entries[j] == tally[j]
    {
      assert Keys(tally)[j] == order[j];
    }
    assert entries == tally;
    rows := SortDesc(entries);
  }

  /** `Math.max(...rows.map(([, count]) => count), 1)`. */
  function MaxCount(rows: seq<Row>): (m: nat)
    ensures m >= 1
    ensures forall i :: 0 <= i < |rows| ==> rows[i].count <= m
    ensures m == 1 || exists i :: 0 <= i < |rows| && rows[i].count == m
  {
    if rows == [] then 1
    else
      var rest := MaxCount(rows[1..]);
      assert forall i :: 1 <= i < |rows| ==> rows[i] == rows[1..][i - 1];
      if rows[0].count > rest then rows[0].count else rest
  }

  /** The width of a bar, in percent of the track: `count / max * 100`. */
  function BarWidth(count: nat, max: nat): real
    requires max > 0
  {
    count as real / max as real * 100.0
  }

  /** A bar for a count between 1 and the maximum is visible and fits the
      track, and it fills the track exactly when the count is the maximum. */
  lemma BarWidthBounds(count: nat, max: nat)
    requires 0 < count <= max
    ensures 0.0 < BarWidth(count, max) <= 100.0
    ensures BarWidth(count, max) == 100.0 <==> count == max
  {
    assert count as real / max as real <= 1.0;
    if count < max {
      assert count as real / max as real < 1.0;
    }
  }

  /** In a table, every bar lies in (0, 100] and the first row's bar is full. */
  lemma {:induction false} TableBars(labels: seq<string>)
    ensures var rows := Table(labels);
      && (forall i :: 0 <= i < |rows| ==> 0.0 < BarWidth(rows[i].count, MaxCount(rows)) <= 100.0)
      && (rows != [] ==> MaxCount(rows) == rows[0].count && BarWidth(rows[0].count, MaxCount(rows)) == 100.0)
  {
    var rows := Table(labels);
    TableCounts(labels);
    TableSorted(labels);
    forall i | 0 <= i < |rows|
      ensures 0.0 < BarWidth(rows[i].count, MaxCount(rows)) <= 100.0
    {
      BarWidthBounds(rows[i].count, MaxCount(rows));
    }
    if rows != [] {
      forall i | 0 < i < |rows|
        ensures rows[i].count <= rows[0].count
      {
        assert Before(labels, rows[0], rows[i]);
      }
      BarWidthBounds(rows[0].count, MaxCount(rows));
    }
  }
}
