/** The result table every screen shows: the alternatives sorted by score,
    highest first, with ranks 1..n assigned by position. */
module Ranking {
  /** An alternative and its score, before ranking. */
  datatype Entry = Entry(alternative: nat, score: real)

  /** One row of the result table. */
  datatype Row = Row(alternative: nat, score: real, rank: nat)

  /** The unsorted table: alternative a with its score. */
  function Entries(scores: seq<real>): (entries: seq<Entry>)
    ensures |entries| == |scores| && forall a :: 0 <= a < |scores| ==> entries[a] == Entry(a, scores[a])
  {
    seq(|scores|, a requires 0 <= a < |scores| => Entry(a, scores[a]))
  }

  /** The rows without their ranks. */
  function Unranked(table: seq<Row>): (entries: seq<Entry>)
    ensures |entries| == |table|
    ensures forall p :: 0 <= p < |table| ==> entries[p] == Entry(table[p].alternative, table[p].score)
  {
    seq(|table|, p requires 0 <= p < |table| => Entry(table[p].alternative, table[p].score))
  }

  /** The entries are ordered by non-increasing score. */
  predicate Descending(entries: seq<Entry>)
  {
    forall p, q :: 0 <= p < q < |entries| ==> entries[p].score >= entries[q].score
  }

  /** A result table for the given scores: the rows, ranks aside, are a
      permutation of the alternatives paired with their scores; the row at
      position p has rank p + 1; and the rows are sorted highest score first. */
  predicate RankingOf(scores: seq<real>, table: seq<Row>)
  {
    multiset(Unranked(table)) == multiset(Entries(scores)) &&
    (forall p :: 0 <= p < |table| ==> table[p].rank == p + 1) &&
    Descending(Unranked(table))
  }

  /** Sorts the alternatives by score, highest first, then numbers the rows. */
  method Rank(scores: seq<real>) returns (table: seq<Row>)
    ensures |table| == |scores|
    ensures RankingOf(scores, table)
  {
    var sorted := Sort(Entries(scores));
    assert |sorted| == |multiset(sorted)|;
    table := Number(sorted);
    assert Unranked(table) == sorted;
  }

  /** Sorts entries by non-increasing score, one insertion at a time. */
  method Sort(entries: seq<Entry>) returns (sorted: seq<Entry>)
    ensures multiset(sorted) == multiset(entries)
    ensures Descending(sorted)
  {
    sorted := [];
    for i := 0 to |entries|
      invariant multiset(sorted) == multiset(entries[..i])
      invariant Descending(sorted)
    {
      sorted := Insert(sorted, entries[i]);
      assert entries[..i + 1] == entries[..i] + [entries[i]];
    }
    assert entries[..|entries|] == entries;
  }

  /** Gives the entry at position p the rank p + 1. */
  method Number(sorted: seq<Entry>) returns (table: seq<Row>)
    ensures |table| == |sorted|
    ensures forall p :: 0 <= p < |sorted| ==> table[p] == Row(sorted[p].alternative, sorted[p].score, p + 1)
  {
    table := [];
    for p := 0 to |sorted|
      invariant |table| == p
      invariant forall q :: 0 <= q < p ==> table[q] == Row(sorted[q].alternative, sorted[q].score, q + 1)
    {
      table := table + [Row(sorted[p].alternative, sorted[p].score, p + 1)];
    }
  }

  /** Inserts an entry after every entry whose score is at least its own. */
  method Insert(sorted: seq<Entry>, entry: Entry) returns (r: seq<Entry>)
    requires Descending(sorted)
    ensures exists k :: 0 <= k <= |sorted| && r == sorted[..k] + [entry] + sorted[k..]
    ensures multiset(r) == multiset(sorted) + multiset{entry}
    ensures Descending(r)
  {
    var k := 0;
    while k < |sorted| && sorted[k].score >= entry.score
      invariant 0 <= k <= |sorted|
      invariant forall p :: 0 <= p < k ==> sorted[p].score >= entry.score
    {
      k := k + 1;
    }
    r := sorted[..k] + [entry] + sorted[k..];
    assert sorted == sorted[..k] + sorted[k..];
    InsertedDescending(sorted, entry, k, r);
  }

  /** Inserting an entry at position k keeps the order when every entry before
      k scores at least as high and the entry at k, if any, scores lower. */
  lemma InsertedDescending(sorted: seq<Entry>, entry: Entry, k: nat, r: seq<Entry>)
    requires Descending(sorted) && k <= |sorted|
    requires forall p :: 0 <= p < k ==> sorted[p].score >= entry.score
    requires k < |sorted| ==> sorted[k].score < entry.score
    requires r == sorted[..k] + [entry] + sorted[k..]
    ensures Descending(r)
  {
    assert |r| == |sorted| + 1;
    assert forall p :: 0 <= p < |r| ==> r[p] == if p < k then sorted[p] else if p == k then entry else sorted[p - 1];
    forall p, q | 0 <= p < q < |r|
      ensures r[p].score >= r[q].score
    {
      if q == k {
      } else if p == k {
        assert sorted[k].score >= sorted[q - 1].score;
      }
    }
  }

  /** The first row of a result table holds a highest score, which is what
      each screen announces as the best alternative. */
  lemma FirstRowIsBest(scores: seq<real>, table: seq<Row>, i: nat)
    requires RankingOf(scores, table) && i < |scores|
    ensures |table| == |scores|
    ensures table[0].rank == 1 && scores[i] <= table[0].score
  {
    var rows := Entries(scores);
    assert |table| == |scores| by {
      assert |multiset(Unranked(table))| == |multiset(rows)|;
    }
    assert rows[i] in multiset(rows);
    assert rows[i] in Unranked(table);
    var p :| 0 <= p < |table| && Unranked(table)[p] == rows[i];
    assert table[p].score == scores[i];
    assert Unranked(table)[0].score >= Unranked(table)[p].score;
  }
}
