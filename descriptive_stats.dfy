/** The descriptive statistics of a dataset: counts that add up and length
    bounds that take the minimum and maximum. Adding two overviews is a
    commutative, associative operation, so the repository-wide total does not
    depend on the order the statistics files are found in, and the statistics
    of a dataset do not depend on how its rows are batched. */
module DescriptiveStats {
  import opened Wrappers

  /** `DescriptiveStatsOverview`. */
  datatype Stats = Stats(
    samples: int,
    tokens: int,
    minTokens: int,
    maxTokens: int,
    characters: int,
    minCharacters: int,
    maxCharacters: int)

  /** One row of a dataset: the length of its text and its token count. */
  datatype Row = Row(textLength: nat, tokenCount: int)

  function Min2(a: int, b: int): int { if a <= b then a else b }
  function Max2(a: int, b: int): int { if a >= b then a else b }

  /** `__add__`: counts are summed, minima and maxima combined. */
  function Add(a: Stats, b: Stats): Stats
  {
    Stats(
      a.samples + b.samples,
      a.tokens + b.tokens,
      Min2(a.minTokens, b.minTokens),
      Max2(a.maxTokens, b.maxTokens),
      a.characters + b.characters,
      Min2(a.minCharacters, b.minCharacters),
      Max2(a.maxCharacters, b.maxCharacters))
  }

  /** The sum's counts are the sums of the counts, and each bound of the sum
      is one of the two bounds, beyond neither. */
  lemma AddFields(a: Stats, b: Stats)
    ensures var s := Add(a, b);
      && s.samples == a.samples + b.samples && s.tokens == a.tokens + b.tokens
      && s.characters == a.characters + b.characters
      && s.minTokens <= a.minTokens && s.minTokens <= b.minTokens
      && (s.minTokens == a.minTokens || s.minTokens == b.minTokens)
      && s.maxTokens >= a.maxTokens && s.maxTokens >= b.maxTokens
      && (s.maxTokens == a.maxTokens || s.maxTokens == b.maxTokens)
      && s.minCharacters <= a.minCharacters && s.minCharacters <= b.minCharacters
      && (s.minCharacters == a.minCharacters || s.minCharacters == b.minCharacters)
      && s.maxCharacters >= a.maxCharacters && s.maxCharacters >= b.maxCharacters
      && (s.maxCharacters == a.maxCharacters || s.maxCharacters == b.maxCharacters)
  {
  }

  lemma AddCommutative(a: Stats, b: Stats)
    ensures Add(a, b) == Add(b, a)
  {
  }

  lemma AddAssociative(a: Stats, b: Stats, c: Stats)
    ensures Add(Add(a, b), c) == Add(a, Add(b, c))
  {
  }

  /** The bounds of an overview are in order. */
  predicate Ordered(s: Stats)
  {
    s.minTokens <= s.maxTokens && s.minCharacters <= s.maxCharacters
  }

  /** Adding keeps the bounds in order. */
  lemma AddOrdered(a: Stats, b: Stats)
    requires Ordered(a) && Ordered(b)
    ensures Ordered(Add(a, b))
  {
  }

  /** `average_document_length_tokens`: the mean token count, or 0 for no samples. */
  function AverageTokens(s: Stats): (r: real)
    ensures s.samples <= 0 ==> r == 0.0
    ensures s.samples > 0 ==> r * s.samples as real == s.tokens as real
  {
    if s.samples > 0 then s.tokens as real / s.samples as real else 0.0
  }

  /** `average_document_length_characters`: the mean text length, or 0 for no samples. */
  function AverageCharacters(s: Stats): (r: real)
    ensures s.samples <= 0 ==> r == 0.0
    ensures s.samples > 0 ==> r * s.samples as real == s.characters as real
  {
    if s.samples > 0 then s.characters as real / s.samples as real else 0.0
  }

  // ---------------------------------------------------------------------------
  // Sums, minima and maxima of integer columns

  function Sum(xs: seq<int>): int
    decreases |xs|
  {
    if xs == [] then 0 else Sum(xs[..|xs| - 1]) + xs[|xs| - 1]
  }

  function Min(xs: seq<int>): int
    requires xs != []
    decreases |xs|
  {
    if |xs| == 1 then xs[0] else Min2(Min(xs[..|xs| - 1]), xs[|xs| - 1])
  }

  function Max(xs: seq<int>): int
    requires xs != []
    decreases |xs|
  {
    if |xs| == 1 then xs[0] else Max2(Max(xs[..|xs| - 1]), xs[|xs| - 1])
  }

  /** `Min` is the least element and `Max` the greatest. */
  lemma {:induction false} MinMaxBound(xs: seq<int>)
    requires xs != []
    ensures forall i :: 0 <= i < |xs| ==> Min(xs) <= xs[i] <= Max(xs)
    ensures (exists i :: 0 <= i < |xs| && Min(xs) == xs[i]) && (exists i :: 0 <= i < |xs| && Max(xs) == xs[i])
    decreases |xs|
  {
    var n := |xs| - 1;
    if n == 0 {
      assert Min(xs) == xs[0] && Max(xs) == xs[0];
    } else {
      MinMaxBound(xs[..n]);
      assert forall i :: 0 <= i < n ==> xs[..n][i] == xs[i];
      var a :| 0 <= a < n && Min(xs[..n]) == xs[..n][a];
      var b :| 0 <= b < n && Max(xs[..n]) == xs[..n][b];
      if Min(xs) == xs[n] {
        assert 0 <= n < |xs| && Min(xs) == xs[n];
      } else {
        assert 0 <= a < |xs| && Min(xs) == xs[a];
      }
      if Max(xs) == xs[n] {
        assert 0 <= n < |xs| && Max(xs) == xs[n];
      } else {
        assert 0 <= b < |xs| && Max(xs) == xs[b];
      }
    }
  }

  lemma {:induction false} SumAppend(xs: seq<int>, ys: seq<int>)
    ensures Sum(xs + ys) == Sum(xs) + Sum(ys)
    decreases |ys|
  {
    if ys != [] {
      var n := |ys| - 1;
      assert (xs + ys)[..|xs + ys| - 1] == xs + ys[..n];
      SumAppend(xs, ys[..n]);
    } else {
      assert xs + ys == xs;
    }
  }

  lemma {:induction false} MinMaxAppend(xs: seq<int>, ys: seq<int>)
    requires xs != [] && ys != []
    ensures Min(xs + ys) == Min2(Min(xs), Min(ys))
    ensures Max(xs + ys) == Max2(Max(xs), Max(ys))
    decreases |ys|
  {
    var n := |ys| - 1;
    assert (xs + ys)[..|xs + ys| - 1] == xs + ys[..n];
    if n == 0 {
      assert xs + ys[..n] == xs;
    } else {
      MinMaxAppend(xs, ys[..n]);
    }
  }

  // ---------------------------------------------------------------------------
  // Statistics of rows

  function Tokens(rows: seq<Row>): seq<int>
  {
    seq(|rows|, i requires 0 <= i < |rows| => rows[i].tokenCount)
  }

  function Lengths(rows: seq<Row>): seq<int>
  {
    seq(|rows|, i requires 0 <= i < |rows| => rows[i].textLength)
  }

  /** The statistics of a non-empty run of rows: what the mapping step of
      `from_dataset` computes for one batch. */
  function RowStats(rows: seq<Row>): Stats
    requires rows != []
  {
    Stats(|rows|, Sum(Tokens(rows)), Min(Tokens(rows)), Max(Tokens(rows)),
          Sum(Lengths(rows)), Min(Lengths(rows)), Max(Lengths(rows)))
  }

  /** The statistics of rows count the rows, and their bounds are in order,
      hold every row and are reached by some row. */
  lemma RowStatsBounds(rows: seq<Row>)
    requires rows != []
    ensures var s := RowStats(rows);
      && s.samples == |rows| && Ordered(s)
      && (forall i :: 0 <= i < |rows| ==>
            && s.minTokens <= rows[i].tokenCount <= s.maxTokens
            && s.minCharacters <= rows[i].textLength <= s.maxCharacters)
      && (exists i :: 0 <= i < |rows| && s.minTokens == rows[i].tokenCount)
      && (exists i :: 0 <= i < |rows| && s.maxTokens == rows[i].tokenCount)
      && (exists i :: 0 <= i < |rows| && s.minCharacters == rows[i].textLength)
      && (exists i :: 0 <= i < |rows| && s.maxCharacters == rows[i].textLength)
  {
    var tokens, lengths := Tokens(rows), Lengths(rows);
    assert |tokens| == |rows| && forall i :: 0 <= i < |rows| ==> tokens[i] == rows[i].tokenCount;
    assert |lengths| == |rows| && forall i :: 0 <= i < |rows| ==> lengths[i] == rows[i].textLength;
    MinMaxBound(tokens);
    MinMaxBound(lengths);
  }

  /** The statistics of two runs of rows together are the sum of their
      statistics. */
  lemma RowStatsAppend(a: seq<Row>, b: seq<Row>)
    requires a != [] && b != []
    ensures RowStats(a + b) == Add(RowStats(a), RowStats(b))
  {
    assert Tokens(a + b) == Tokens(a) + Tokens(b);
    assert Lengths(a + b) == Lengths(a) + Lengths(b);
    SumAppend(Tokens(a), Tokens(b));
    SumAppend(Lengths(a), Lengths(b));
    MinMaxAppend(Tokens(a), Tokens(b));
    MinMaxAppend(Lengths(a), Lengths(b));
  }

  // ---------------------------------------------------------------------------
  // Totals

  /** Adding where nothing is the empty total. */
  function AddTo(total: Option<Stats>, s: Stats): Stats
  {
    match total
    case None => s
    case Some(t) => Add(t, s)
  }

  /** Two optional overviews added, where a missing one adds nothing. */
  function AddOpt(a: Option<Stats>, b: Option<Stats>): Option<Stats>
  {
    match b
    case None => a
    case Some(s) => Some(AddTo(a, s))
  }

  /** `sum(stats[1:], start=stats[0])`: the overviews added from the left;
      nothing for an empty list, where the source fails on `stats[0]`. */
  function Total(stats: seq<Stats>): Option<Stats>
    decreases |stats|
  {
    if stats == [] then None else Some(AddTo(Total(stats[..|stats| - 1]), stats[|stats| - 1]))
  }

  lemma TotalOfOne(s: Stats)
    ensures Total([s]) == Some(s)
  {
    assert [s][..0] == [];
  }

  lemma AddOptCommutative(a: Option<Stats>, b: Option<Stats>)
    ensures AddOpt(a, b) == AddOpt(b, a)
  {
    if a.Some? && b.Some? {
      AddCommutative(a.value, b.value);
    }
  }

  lemma AddOptAssociative(a: Option<Stats>, b: Option<Stats>, c: Option<Stats>)
    ensures AddOpt(AddOpt(a, b), c) == AddOpt(a, AddOpt(b, c))
  {
    if a.Some? && b.Some? && c.Some? {
      AddAssociative(a.value, b.value, c.value);
    }
  }

  /** The total of two lists is the sum of their totals. */
  lemma {:induction false} TotalAppend(xs: seq<Stats>, ys: seq<Stats>)
    ensures Total(xs + ys) == AddOpt(Total(xs), Total(ys))
    decreases |ys|
  {
    if ys == [] {
      assert xs + ys == xs;
    } else {
      var n := |ys| - 1;
      assert (xs + ys)[..|xs + ys| - 1] == xs + ys[..n];
      assert (xs + ys)[|xs + ys| - 1] == ys[n];
      TotalAppend(xs, ys[..n]);
      AddOptAssociative(Total(xs), Total(ys[..n]), Some(ys[n]));
    }
  }

  /** The repository total does not depend on the order in which the
      statistics files are listed. */
  lemma {:induction false} TotalPermutation(xs: seq<Stats>, ys: seq<Stats>)
    requires multiset(xs) == multiset(ys)
    ensures Total(xs) == Total(ys)
    decreases |xs|
  {
    if xs == [] {
      assert |ys| == |multiset(ys)| == 0;
    } else {
      var n := |xs| - 1;
      var x := xs[n];
      assert xs == xs[..n] + [x];
      assert x in multiset(ys);
      var k :| 0 <= k < |ys| && ys[k] == x;
      var front, back := ys[..k], ys[k + 1..];
      assert ys == front + [x] + back;
      assert multiset(xs) == multiset(xs[..n]) + multiset{x};
      assert multiset(ys) == multiset(front) + multiset{x} + multiset(back);
      assert multiset(front + back) == multiset(front) + multiset(back);
      var rest, others := multiset(xs[..n]), multiset(front + back);
      assert rest + multiset{x} == others + multiset{x};
      forall y
        ensures rest[y] == others[y]
      {
        assert (rest + multiset{x})[y] == (others + multiset{x})[y];
      }
      assert rest == others;
      TotalPermutation(xs[..n], front + back);
      TotalAppend(front + [x], back);
      TotalAppend(front, [x]);
      TotalAppend(front, back);
      TotalOfOne(x);
      AddOptAssociative(Total(front), Some(x), Total(back));
      AddOptCommutative(Some(x), Total(back));
      AddOptAssociative(Total(front), Total(back), Some(x));
      assert Total(xs) == AddOpt(Total(xs[..n]), Some(x));
    }
  }

  // ---------------------------------------------------------------------------
  // from_dataset

  /** The fields of an overview, as functions to select a column with. */
  function SamplesOf(s: Stats): int { s.samples }
  function TokensOf(s: Stats): int { s.tokens }
  function MinTokensOf(s: Stats): int { s.minTokens }
  function MaxTokensOf(s: Stats): int { s.maxTokens }
  function CharactersOf(s: Stats): int { s.characters }
  function MinCharactersOf(s: Stats): int { s.minCharacters }
  function MaxCharactersOf(s: Stats): int { s.maxCharacters }

  /** The values of one field across a list of overviews. */
  function Column(ss: seq<Stats>, field: Stats -> int): (c: seq<int>)
    ensures |c| == |ss| && forall i :: 0 <= i < |ss| ==> c[i] == field(ss[i])
  {
    seq(|ss|, i requires 0 <= i < |ss| => field(ss[i]))
  }

  /** The per-batch statistics the mapping step of `from_dataset` produces. */
  function BatchStats(batches: seq<seq<Row>>): (ss: seq<Stats>)
    requires forall k :: 0 <= k < |batches| ==> batches[k] != []
    ensures |ss| == |batches| && forall k :: 0 <= k < |batches| ==> ss[k] == RowStats(batches[k])
  {
    seq(|batches|, k requires 0 <= k < |batches| && batches[k] != [] => RowStats(batches[k]))
  }

  /** `from_dataset`: the counts are the sums of the batch counts and the
      bounds the minimum and maximum of the batch bounds; a dataset without
      rows fails, as `min` of an empty column does. */
  function FromDataset(batches: seq<seq<Row>>): (r: Option<Stats>)
    requires forall k :: 0 <= k < |batches| ==> batches[k] != []
    ensures r.None? <==> batches == []
  {
    var ss := BatchStats(batches);
    if ss == [] then None
    else Some(Stats(
      Sum(Column(ss, SamplesOf)),
      Sum(Column(ss, TokensOf)),
      Min(Column(ss, MinTokensOf)),
      Max(Column(ss, MaxTokensOf)),
      Sum(Column(ss, CharactersOf)),
      Min(Column(ss, MinCharactersOf)),
      Max(Column(ss, MaxCharactersOf))))
  }

  /** Summing and bounding each column of a list of overviews is the same as
      adding the overviews up. */
  lemma {:induction false} ColumnsAreTotal(ss: seq<Stats>)
    requires ss != []
    ensures Total(ss) == Some(Stats(
      Sum(Column(ss, SamplesOf)),
      Sum(Column(ss, TokensOf)),
      Min(Column(ss, MinTokensOf)),
      Max(Column(ss, MaxTokensOf)),
      Sum(Column(ss, CharactersOf)),
      Min(Column(ss, MinCharactersOf)),
      Max(Column(ss, MaxCharactersOf))))
    decreases |ss|
  {
    var n := |ss| - 1;
    if n == 0 {
      assert ss[..0] == [];
      assert Column(ss, SamplesOf)[..0] == [];
      assert Column(ss, TokensOf)[..0] == [];
      assert Column(ss, CharactersOf)[..0] == [];
    } else {
      var init := ss[..n];
      ColumnsAreTotal(init);
      ColumnStep(ss, SamplesOf);
      ColumnStep(ss, TokensOf);
      ColumnStep(ss, MinTokensOf);
      ColumnStep(ss, MaxTokensOf);
      ColumnStep(ss, CharactersOf);
      ColumnStep(ss, MinCharactersOf);
      ColumnStep(ss, MaxCharactersOf);
    }
  }

  /** A column of a longer list is the column of the shorter one extended. */
  lemma ColumnStep(ss: seq<Stats>, field: Stats -> int)
    requires |ss| > 1
    ensures Column(ss, field)[..|ss| - 1] == Column(ss[..|ss| - 1], field)
  {
  }

  lemma {:induction false} FlattenNonEmpty(batches: seq<seq<Row>>)
    requires forall k :: 0 <= k < |batches| ==> batches[k] != []
    ensures Flatten(batches) == [] <==> batches == []
    decreases |batches|
  {
    if batches != [] {
      assert Flatten(batches) == Flatten(batches[..|batches| - 1]) + batches[|batches| - 1];
    }
  }

  /** The rows of all batches, in order. */
  function Flatten(batches: seq<seq<Row>>): seq<Row>
    decreases |batches|
  {
    if batches == [] then [] else Flatten(batches[..|batches| - 1]) + batches[|batches| - 1]
  }

  /** The total of the batch statistics is the statistics of all rows. */
  lemma {:induction false} TotalOfBatches(batches: seq<seq<Row>>)
    requires batches != [] && forall k :: 0 <= k < |batches| ==> batches[k] != []
    ensures Flatten(batches) != []
    ensures Total(BatchStats(batches)) == Some(RowStats(Flatten(batches)))
    decreases |batches|
  {
    var n := |batches| - 1;
    var init := batches[..n];
    var ss := BatchStats(batches);
    assert ss[..n] == BatchStats(init);
    if n == 0 {
      assert Flatten(batches) == Flatten(init) + batches[0] == batches[0];
      assert ss == [RowStats(batches[0])];
      TotalOfOne(RowStats(batches[0]));
    } else {
      TotalOfBatches(init);
      RowStatsAppend(Flatten(init), batches[n]);
    }
  }

  /** What `from_dataset` computes is the statistics of the dataset's rows,
      whatever the batching: the row count, the token and character sums, and
      the least and greatest token count and text length. */
  lemma FromDatasetIsRowStats(batches: seq<seq<Row>>)
    requires batches != [] && forall k :: 0 <= k < |batches| ==> batches[k] != []
    ensures Flatten(batches) != []
    ensures FromDataset(batches) == Some(RowStats(Flatten(batches)))
  {
    TotalOfBatches(batches);
    ColumnsAreTotal(BatchStats(batches));
  }

  /** Two batchings of the same rows give the same statistics. */
  lemma FromDatasetBatchingFree(a: seq<seq<Row>>, b: seq<seq<Row>>)
    requires a != [] && forall k :: 0 <= k < |a| ==> a[k] != []
    requires b != [] && forall k :: 0 <= k < |b| ==> b[k] != []
    requires Flatten(a) == Flatten(b)
    ensures FromDataset(a) == FromDataset(b)
  {
    FromDatasetIsRowStats(a);
    FromDatasetIsRowStats(b);
  }

  /** The statistics of two datasets' rows together are the sum of the two
      datasets' statistics. */
  lemma FromDatasetAppend(a: seq<Row>, b: seq<Row>)
    requires a != [] && b != []
    ensures FromDataset([a + b]) == Some(Add(FromDataset([a]).value, FromDataset([b]).value))
  {
    FromDatasetIsRowStats([a + b]);
    FromDatasetIsRowStats([a]);
    FromDatasetIsRowStats([b]);
    assert Flatten([a]) == a by { assert [a][..0] == []; }
    assert Flatten([b]) == b by { assert [b][..0] == []; }
    assert Flatten([a + b]) == a + b by { assert [a + b][..0] == []; }
    RowStatsAppend(a, b);
  }
}
