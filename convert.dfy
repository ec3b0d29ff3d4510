/** The chunked conversion of a JSON-lines file: the lines are cut into
    batches of `batch_size`, every row gets a token count, rows without tokens
    are dropped and each batch that keeps a row is written to a numbered
    chunk file. Reading the file, the tokenizer and the parquet writer are
    outside the model: the decoded rows are a sequence, the tokenizer is the
    function `count`, and a written file is a `Chunk` value. */
module Convert {
  import opened Wrappers
  import opened TextOps

  /** The field values a decoded JSON row can hold, as far as the conversion
      looks at them: a string, an integer, or any other value by the text
      Python's `str` gives for it. */
  datatype Value = Text(s: string) | Number(n: int) | Other(shown: string)

  /** One decoded line: field name to value. */
  type Row = map<string, Value>

  /** A parquet file the conversion writes: where, and the rows it holds. */
  datatype Chunk = Chunk(path: string, rows: seq<Row>)

  const TextField: string := "text"
  const TokenField: string := "token_count"

  /** Every row of the batch has a "text" field. */
  predicate HasText(batch: seq<Row>)
  {
    forall i :: 0 <= i < |batch| ==> TextField in batch[i]
  }

  /** The decimal text of an integer, with a minus sign when negative. */
  function IntText(n: int): (t: string)
    ensures t != [] && (t[0] == '-' <==> n < 0)
  {
    if n < 0 then "-" + NatToString(-n) else NatToString(n)
  }

  /** `str(value)`: the text the tokenizer is given for a field. */
  function Str(v: Value): string
  {
    match v
    case Text(s) => s
    case Number(n) => IntText(n)
    case Other(shown) => shown
  }

  /** The tokens of `str` of the row's "text" field; a row without one
      (which the conversion never hands to the tokenizer, see
      `ProcessAndSaveChunk`) reads as none. */
  function TokensOf(row: Row, count: string -> nat): nat
  {
    if TextField in row then count(Str(row[TextField])) else 0
  }

  /** The row with its token count added. */
  function Annotate(row: Row, tokens: nat): Row
  {
    row[TokenField := Number(tokens)]
  }

  /** An annotated row has every field of the original, the token count under
      "token_count", and every other field's value unchanged. */
  lemma AnnotateFields(row: Row, tokens: nat)
    ensures Annotate(row, tokens).Keys == row.Keys + {TokenField}
    ensures Annotate(row, tokens)[TokenField] == Number(tokens)
    ensures forall k :: k in row && k != TokenField ==> Annotate(row, tokens)[k] == row[k]
  {
  }

  // ---------------------------------------------------------------------------
  // Filtering one batch

  /** The rows of the batch that have tokens, annotated, in batch order. */
  function Keep(batch: seq<Row>, count: string -> nat): seq<Row>
  {
    if batch == [] then []
    else
      var last := batch[|batch| - 1];
      var tokens := TokensOf(last, count);
      Keep(batch[..|batch| - 1], count) + (if tokens > 0 then [Annotate(last, tokens)] else [])
  }

  /** Some row of the batch has tokens. */
  predicate Keeps(batch: seq<Row>, count: string -> nat)
  {
    exists i :: 0 <= i < |batch| && TokensOf(batch[i], count) > 0
  }

  /** A batch keeps a row exactly when some row has tokens. */
  lemma {:induction false} KeepsSpec(batch: seq<Row>, count: string -> nat)
    ensures Keep(batch, count) != [] <==> Keeps(batch, count)
  {
    KeepByPositions(batch, count);
    PositionsSpec(batch, count);
    if Keeps(batch, count) {
      var i :| 0 <= i < |batch| && TokensOf(batch[i], count) > 0;
      assert i in Positions(batch, count);
    }
    if Keep(batch, count) != [] {
      assert TokensOf(batch[Positions(batch, count)[0]], count) > 0;
    }
  }

  /** The positions of the rows that have tokens, in increasing order. */
  function Positions(batch: seq<Row>, count: string -> nat): seq<nat>
  {
    if batch == [] then []
    else
      Positions(batch[..|batch| - 1], count)
        + (if TokensOf(batch[|batch| - 1], count) > 0 then [|batch| - 1] else [])
  }

  /** The positions are exactly the rows with tokens, each once and in order. */
  lemma PositionsSpec(batch: seq<Row>, count: string -> nat)
    ensures forall k :: 0 <= k < |Positions(batch, count)| ==>
      Positions(batch, count)[k] < |batch| && TokensOf(batch[Positions(batch, count)[k]], count) > 0
    ensures forall k, l :: 0 <= k < l < |Positions(batch, count)| ==>
      Positions(batch, count)[k] < Positions(batch, count)[l]
    ensures forall i :: 0 <= i < |batch| && TokensOf(batch[i], count) > 0 ==> i in Positions(batch, count)
  {
    PositionsValid(batch, count);
    PositionsIncreasing(batch, count);
    PositionsComplete(batch, count);
  }

  /** Every position is a row with tokens. */
  lemma {:induction false} PositionsValid(batch: seq<Row>, count: string -> nat)
    ensures forall k :: 0 <= k < |Positions(batch, count)| ==>
      Positions(batch, count)[k] < |batch| && TokensOf(batch[Positions(batch, count)[k]], count) > 0
  {
    if batch != [] {
      var front := batch[..|batch| - 1];
      var ps := Positions(front, count);
      var all := Positions(batch, count);
      PositionsValid(front, count);
      forall k | 0 <= k < |all|
        ensures all[k] < |batch| && TokensOf(batch[all[k]], count) > 0
      {
        if k < |ps| {
          assert all[k] == ps[k];
          assert batch[ps[k]] == front[ps[k]];
        }
      }
    }
  }

  /** The positions increase strictly. */
  lemma {:induction false} PositionsIncreasing(batch: seq<Row>, count: string -> nat)
    ensures forall k, l :: 0 <= k < l < |Positions(batch, count)| ==>
      Positions(batch, count)[k] < Positions(batch, count)[l]
  {
    if batch != [] {
      var front := batch[..|batch| - 1];
      var ps := Positions(front, count);
      var all := Positions(batch, count);
      PositionsIncreasing(front, count);
      PositionsValid(front, count);
      forall k, l | 0 <= k < l < |all|
        ensures all[k] < all[l]
      {
        assert all[k] == ps[k];
        if l < |ps| {
          assert all[l] == ps[l];
        }
      }
    }
  }

  /** Every row with tokens has its position listed. */
  lemma {:induction false} PositionsComplete(batch: seq<Row>, count: string -> nat)
    ensures forall i :: 0 <= i < |batch| && TokensOf(batch[i], count) > 0 ==> i in Positions(batch, count)
  {
    if batch != [] {
      var front := batch[..|batch| - 1];
      var ps := Positions(front, count);
      var all := Positions(batch, count);
      PositionsComplete(front, count);
      forall i | 0 <= i < |batch| && TokensOf(batch[i], count) > 0
        ensures i in all
      {
        if i < |front| {
          assert batch[i] == front[i];
          assert i in ps;
        }
      }
    }
  }

  /** The kept rows are the rows at those positions, annotated: nothing is
      reordered, nothing with tokens is lost and nothing without is kept. */
  lemma {:induction false} KeepByPositions(batch: seq<Row>, count: string -> nat)
    ensures |Keep(batch, count)| == |Positions(batch, count)|
    ensures forall k :: 0 <= k < |Keep(batch, count)| ==>
      Positions(batch, count)[k] < |batch| &&
      Keep(batch, count)[k] == Annotate(batch[Positions(batch, count)[k]], TokensOf(batch[Positions(batch, count)[k]], count))
  {
    PositionsSpec(batch, count);
    if batch != [] {
      var front := batch[..|batch| - 1];
      KeepByPositions(front, count);
      PositionsSpec(front, count);
      forall i | 0 <= i < |batch| - 1
        ensures batch[i] == front[i]
      {
      }
    }
  }

  /** Filtering a concatenation filters each part. */
  lemma {:induction false} KeepAppend(a: seq<Row>, b: seq<Row>, count: string -> nat)
    ensures Keep(a + b, count) == Keep(a, count) + Keep(b, count)
    decreases |b|
  {
    if b == [] {
      assert a + b == a;
    } else {
      var front := b[..|b| - 1];
      assert (a + b)[..|a + b| - 1] == a + front;
      KeepAppend(a, front, count);
    }
  }

  // ---------------------------------------------------------------------------
  // Chunk names

  /** The index written with `{:04d}`: zero-padded to four digits, longer
      numbers in full. */
  function Pad4(i: nat): (p: string)
    ensures |p| >= 4
    ensures forall j :: 0 <= j < |p| ==> '0' <= p[j] <= '9'
  {
    var s := NatToString(i);
    if |s| < 4 then Repeat('0', 4 - |s|) + s else s
  }

  /** `10` to the power `k`. */
  function Power10(k: nat): (p: nat)
    ensures p >= 1 && (k >= 1 ==> p >= 10)
  {
    if k == 0 then 1 else 10 * Power10(k - 1)
  }

  /** The decimal text of `n` has at most `k` digits exactly when `n` is
      below `10` to the power `k`. */
  lemma {:induction false} NatToStringWidth(n: nat, k: nat)
    requires k >= 1
    ensures |NatToString(n)| <= k <==> n < Power10(k)
    decreases n
  {
    if n >= 10 && k > 1 {
      NatToStringWidth(n / 10, k - 1);
      assert n == 10 * (n / 10) + n % 10;
    }
  }

  /** `{:04d}` on every index: below 10000 the digits are zero-padded on
      the left to exactly four characters; from 10000 on they are written
      in full, unpadded and uncut. */
  lemma Pad4Spec(i: nat)
    ensures i < 10000 ==> |Pad4(i)| == 4 && Pad4(i) == Repeat('0', 4 - |NatToString(i)|) + NatToString(i)
    ensures i >= 10000 ==> Pad4(i) == NatToString(i) && |Pad4(i)| > 4
  {
    NatToStringWidth(i, 4);
    assert Power10(4) == 10000;
  }

  const ChunkPrefix: string := "chunk_"
  const ChunkSuffix: string := ".parquet"

  function ChunkName(i: nat): (name: string)
    ensures StartsWith(name, ChunkPrefix) && EndsWith(name, ChunkSuffix)
    ensures |name| >= |ChunkPrefix| + 4 + |ChunkSuffix|
  {
    ChunkPrefix + Pad4(i) + ChunkSuffix
  }

  /** An illustration of `Pad4Spec`: a small index is padded to four
      digits. */
  lemma ChunkNameSmall()
    ensures ChunkName(7) == "chunk_0007.parquet"
  {
    assert Digit(7) == '7';
    assert NatToString(7) == "7";
    assert Repeat('0', 3) == "000";
    assert Pad4(7) == "0007";
  }

  /** The decimal digits of `10 * q + r` for a positive `q`: those of `q`,
      then the digit `r`. */
  lemma NatToStringStep(q: nat, r: nat)
    requires q > 0 && r < 10
    ensures NatToString(10 * q + r) == NatToString(q) + [Digit(r)]
  {
    var n := 10 * q + r;
    assert n / 10 == q && n % 10 == r;
  }

  /** An illustration of `Pad4Spec`: an index of five digits is written in
      full. */
  lemma ChunkNameLarge()
    ensures ChunkName(12345) == "chunk_12345.parquet"
  {
    var d1, d2, d3, d4, d5 := Digit(1), Digit(2), Digit(3), Digit(4), Digit(5);
    assert NatToString(1) == [d1];
    NatToStringStep(1, 2);
    NatToStringStep(12, 3);
    NatToStringStep(123, 4);
    NatToStringStep(1234, 5);
    var digits := [d1] + [d2] + [d3] + [d4] + [d5];
    assert NatToString(12345) == digits;
    assert Pad4(12345) == digits;
    assert d1 == '1' && d2 == '2' && d3 == '3' && d4 == '4' && d5 == '5';
    assert ChunkPrefix + digits + ChunkSuffix == "chunk_12345.parquet";
  }

  /** POSIX `os.path.join` of two parts: an absolute second part replaces the
      first; otherwise a slash is put between them unless the first is empty
      or already ends with one. */
  function JoinPath(dir: string, name: string): (path: string)
    ensures !StartsWith(name, "/") ==> EndsWith(path, name)
  {
    if StartsWith(name, "/") then name
    else if dir == [] || dir[|dir| - 1] == '/' then dir + name
    else dir + "/" + name
  }

  function ChunkPath(dir: string, i: nat): string
  {
    JoinPath(dir, ChunkName(i))
  }

  /** The value of a string of decimal digits. */
  function DecimalValue(s: string): nat
    requires forall j :: 0 <= j < |s| ==> '0' <= s[j] <= '9'
  {
    if s == [] then 0
    else DecimalValue(s[..|s| - 1]) * 10 + (s[|s| - 1] as int - '0' as int)
  }

  lemma DigitValue(d: nat)
    requires d < 10
    ensures Digit(d) as int - '0' as int == d
  {
  }

  /** Reading the decimal text of `n` gives `n` back. */
  lemma {:induction false} NatToStringValue(n: nat)
    ensures DecimalValue(NatToString(n)) == n
    decreases n
  {
    var s := NatToString(n);
    if n < 10 {
      DigitValue(n);
      assert s[..0] == [];
    } else {
      NatToStringValue(n / 10);
      DigitValue(n % 10);
      assert s[..|s| - 1] == NatToString(n / 10);
    }
  }

  /** Leading zeros do not change a decimal value. */
  lemma {:induction false} LeadingZeros(z: string, s: string)
    requires forall j :: 0 <= j < |z| ==> z[j] == '0'
    requires forall j :: 0 <= j < |s| ==> '0' <= s[j] <= '9'
    ensures DecimalValue(z + s) == DecimalValue(s)
    decreases |s|
  {
    if s == [] {
      assert z + s == z;
      ZerosValue(z);
    } else {
      var front := s[..|s| - 1];
      assert (z + s)[..|z + s| - 1] == z + front;
      LeadingZeros(z, front);
    }
  }

  lemma {:induction false} ZerosValue(z: string)
    requires forall j :: 0 <= j < |z| ==> z[j] == '0'
    ensures DecimalValue(z) == 0
    decreases |z|
  {
    if z != [] {
      ZerosValue(z[..|z| - 1]);
    }
  }

  /** The padded text still reads as the index. */
  lemma Pad4Value(i: nat)
    ensures DecimalValue(Pad4(i)) == i
  {
    var s := NatToString(i);
    NatToStringValue(i);
    if |s| < 4 {
      LeadingZeros(Repeat('0', 4 - |s|), s);
    }
  }

  /** Different indices give different chunk names. */
  lemma ChunkNameInjective(i: nat, j: nat)
    requires ChunkName(i) == ChunkName(j)
    ensures i == j
  {
    var a, b := ChunkName(i), ChunkName(j);
    assert Pad4(i) == a[|ChunkPrefix|..|a| - |ChunkSuffix|];
    assert Pad4(j) == b[|ChunkPrefix|..|b| - |ChunkSuffix|];
    Pad4Value(i);
    Pad4Value(j);
  }

  /** What `JoinPath` puts before a relative name. */
  function DirPrefix(dir: string): string
  {
    if dir == [] || dir[|dir| - 1] == '/' then dir else dir + "/"
  }

  lemma JoinRelative(dir: string, name: string)
    requires name != [] && name[0] != '/'
    ensures JoinPath(dir, name) == DirPrefix(dir) + name
  {
    assert !StartsWith(name, "/") by {
      assert name[..1] != "/";
    }
  }

  lemma ChunkNameHead(i: nat)
    ensures ChunkName(i) != [] && ChunkName(i)[0] == 'c'
  {
    assert ChunkName(i)[0] == ChunkPrefix[0];
  }

  /** Within one output directory, different indices give different paths. */
  lemma ChunkPathInjective(dir: string, i: nat, j: nat)
    requires ChunkPath(dir, i) == ChunkPath(dir, j)
    ensures i == j
  {
    var a, b := ChunkName(i), ChunkName(j);
    ChunkNameHead(i);
    ChunkNameHead(j);
    JoinRelative(dir, a);
    JoinRelative(dir, b);
    var p := DirPrefix(dir);
    assert a == (p + a)[|p|..] && b == (p + b)[|p|..];
    ChunkNameInjective(i, j);
  }

  // ---------------------------------------------------------------------------
  // `process_and_save_chunk`

  /** The chunk of a batch whose rows all have a "text" field: nothing for an
      empty batch or when no row has tokens; otherwise the chunk file named
      after `fileIndex` with the kept rows. */
  function KeptChunk(batch: seq<Row>, outputDir: string, fileIndex: nat, count: string -> nat): Option<Chunk>
    requires HasText(batch)
  {
    if batch == [] then None
    else
      var rows := Keep(batch, count);
      if rows == [] then None
      else Some(Chunk(ChunkPath(outputDir, fileIndex), rows))
  }

  /** `process_and_save_chunk`: nothing for an empty batch; collecting the
      texts raises `KeyError` ("text") when a row has no "text" field;
      otherwise the batch's chunk, if it keeps a row. */
  function ProcessAndSaveChunk(batch: seq<Row>, outputDir: string, fileIndex: nat, count: string -> nat): Result<Option<Chunk>>
  {
    if batch == [] then Success(None)
    else if !HasText(batch) then Failure(TextField)
    else Success(KeptChunk(batch, outputDir, fileIndex, count))
  }

  /** A batch fails exactly when one of its rows has no "text" field. A batch
      that does not fail writes a file exactly when one of its rows has tokens
      (so never when it is empty); the file is named after the index and
      holds the kept rows. */
  lemma ProcessAndSaveChunkSpec(batch: seq<Row>, outputDir: string, fileIndex: nat, count: string -> nat)
    ensures ProcessAndSaveChunk(batch, outputDir, fileIndex, count).Failure? <==> !HasText(batch)
    ensures ProcessAndSaveChunk(batch, outputDir, fileIndex, count).Failure? ==>
      ProcessAndSaveChunk(batch, outputDir, fileIndex, count).error == TextField
    ensures batch == [] ==> ProcessAndSaveChunk(batch, outputDir, fileIndex, count) == Success(None)
    ensures HasText(batch) ==>
      && ProcessAndSaveChunk(batch, outputDir, fileIndex, count) == Success(KeptChunk(batch, outputDir, fileIndex, count))
      && (KeptChunk(batch, outputDir, fileIndex, count).Some? <==> Keeps(batch, count))
      && (KeptChunk(batch, outputDir, fileIndex, count).Some? ==>
            KeptChunk(batch, outputDir, fileIndex, count).value == Chunk(ChunkPath(outputDir, fileIndex), Keep(batch, count)))
  {
    KeepsSpec(batch, count);
  }


  // ---------------------------------------------------------------------------
  // `process_file_in_chunks`

  /** The batches the loop cuts, with `width` lines each: full batches in
      order, then the rest if any. */
  function Batches(lines: seq<Row>, width: nat): seq<seq<Row>>
    requires width >= 1
    decreases |lines|
  {
    if lines == [] then []
    else if |lines| <= width then [lines]
    else [lines[..width]] + Batches(lines[width..], width)
  }

  /** The number of lines that close a batch: `len(batch) >= batch_size`
      holds after the first append when `batch_size` is below one. */
  function Width(batchSize: int): (w: nat)
    ensures w >= 1 && (batchSize >= 1 ==> w == batchSize)
  {
    if batchSize < 1 then 1 else batchSize
  }

  function Concat(batches: seq<seq<Row>>): seq<Row>
  {
    if batches == [] then [] else batches[0] + Concat(batches[1..])
  }

  /** The batches put back together are the input, in order. */
  lemma {:induction false} BatchesConcat(lines: seq<Row>, width: nat)
    requires width >= 1
    ensures Concat(Batches(lines, width)) == lines
    decreases |lines|
  {
    if |lines| > width {
      BatchesConcat(lines[width..], width);
      assert lines == lines[..width] + lines[width..];
    } else if lines != [] {
      assert Batches(lines, width)[1..] == [];
    }
  }

  /** Every batch but the last has exactly `width` lines; the last has between
      one and `width`. */
  lemma {:induction false} BatchesSizes(lines: seq<Row>, width: nat)
    requires width >= 1
    ensures lines == [] <==> Batches(lines, width) == []
    ensures forall k :: 0 <= k < |Batches(lines, width)| - 1 ==> |Batches(lines, width)[k]| == width
    ensures Batches(lines, width) != [] ==> 1 <= |Batches(lines, width)[|Batches(lines, width)| - 1]| <= width
    decreases |lines|
  {
    if |lines| > width {
      BatchesSizes(lines[width..], width);
      var rest := Batches(lines[width..], width);
      assert Batches(lines, width) == [lines[..width]] + rest;
      forall k | 0 <= k < |Batches(lines, width)| - 1
    ensures |Batches(lines, width)[k]| == width
      {
        if k > 0 {
          assert Batches(lines, width)[k] == rest[k - 1];
        }
      }
    }
  }

  /** Every batch of the list has a string under "text" in every row. */
  predicate AllText(batches: seq<seq<Row>>)
  {
    forall k :: 0 <= k < |batches| ==> HasText(batches[k])
  }

  lemma {:induction false} BatchesHaveText(lines: seq<Row>, width: nat)
    requires width >= 1 && HasText(lines)
    ensures AllText(Batches(lines, width))
    decreases |lines|
  {
    if |lines| > width {
      assert HasText(lines[width..]);
      BatchesHaveText(lines[width..], width);
      var rest := Batches(lines[width..], width);
      forall k | 0 <= k < |Batches(lines, width)|
    ensures HasText(Batches(lines, width)[k])
      {
        if k > 0 {
          assert Batches(lines, width)[k] == rest[k - 1];
        }
      }
    }
  }

  /** The chunk a batch gives, as a list of zero or one files. */
  function Written(chunk: Option<Chunk>): seq<Chunk>
  {
    match chunk
    case Some(c) => [c]
    case None => []
  }

  /** With `batch_size` below one, every line is a batch of its own. */
  lemma NonPositiveBatchSize(lines: seq<Row>, batchSize: int)
    requires batchSize < 1
    ensures forall k :: 0 <= k < |Batches(lines, Width(batchSize))| ==> |Batches(lines, Width(batchSize))[k]| == 1
  {
    BatchesSizes(lines, 1);
  }

  /** The chunks written for `batches`, the first one numbered `index`. */
  function Saved(batches: seq<seq<Row>>, outputDir: string, index: nat, count: string -> nat): seq<Chunk>
    requires AllText(batches)
    decreases |batches|
  {
    if batches == [] then []
    else
      assert AllText(batches[1..]);
      Written(KeptChunk(batches[0], outputDir, index, count))
        + Saved(batches[1..], outputDir, index + 1, count)
  }

  /** The paths of the chunks, in order. */
  function Paths(chunks: seq<Chunk>): seq<string>
  {
    if chunks == [] then [] else [chunks[0].path] + Paths(chunks[1..])
  }

  lemma {:induction false} PathsSpec(chunks: seq<Chunk>)
    ensures |Paths(chunks)| == |chunks|
    ensures forall k :: 0 <= k < |chunks| ==> Paths(chunks)[k] == chunks[k].path
    decreases |chunks|
  {
    if chunks != [] {
      PathsSpec(chunks[1..]);
    }
  }

  function ChunkRows(chunks: seq<Chunk>): seq<Row>
  {
    if chunks == [] then [] else chunks[0].rows + ChunkRows(chunks[1..])
  }

  /** The lines are cut into these batches: none is empty, none is longer
      than `width`, and all but the last are exactly `width` long. */
  predicate Cut(batches: seq<seq<Row>>, width: nat)
  {
    && (forall k :: 0 <= k < |batches| ==> 1 <= |batches[k]| <= width)
    && (forall k :: 0 <= k < |batches| - 1 ==> |batches[k]| == width)
  }

  /** A cut of the lines is the one `Batches` makes: the batching is
      determined by the line order and the width alone. */
  lemma {:induction false} CutIsBatches(batches: seq<seq<Row>>, width: nat)
    requires width >= 1 && Cut(batches, width)
    ensures Batches(Concat(batches), width) == batches
    decreases |batches|
  {
    if batches != [] {
      var rest := batches[1..];
      assert Cut(rest, width);
      CutIsBatches(rest, width);
      var lines := Concat(batches);
      assert lines == batches[0] + Concat(rest);
      if rest == [] {
        assert lines == batches[0];
      } else {
        assert |batches[0]| == width && |rest[0]| >= 1;
        assert Concat(rest) == rest[0] + Concat(rest[1..]);
        assert lines[..width] == batches[0] && lines[width..] == Concat(rest);
      }
    }
  }

  lemma {:induction false} ConcatSnoc(batches: seq<seq<Row>>, batch: seq<Row>)
    ensures Concat(batches + [batch]) == Concat(batches) + batch
    decreases |batches|
  {
    if batches == [] {
      assert [] + [batch] == [batch];
      assert [batch][1..] == [];
    } else {
      assert (batches + [batch])[1..] == batches[1..] + [batch];
      ConcatSnoc(batches[1..], batch);
    }
  }

  /** Processing one more batch appends its chunk, numbered `n`, after the
      batches before it, numbered from `index`. */
  lemma {:induction false} SavedSnoc(batches: seq<seq<Row>>, batch: seq<Row>, outputDir: string, index: nat, n: nat, count: string -> nat)
    requires AllText(batches) && HasText(batch) && n == index + |batches|
    ensures AllText(batches + [batch])
    ensures Saved(batches + [batch], outputDir, index, count)
      == Saved(batches, outputDir, index, count) + Written(KeptChunk(batch, outputDir, n, count))
    decreases |batches|
  {
    var all := batches + [batch];
    AllTextSnoc(batches, batch);
    var last := Written(KeptChunk(batch, outputDir, n, count));
    if batches == [] {
      assert all == [batch];
      SavedSingle(batch, outputDir, index, count);
    } else {
      var rest, j := batches[1..], index + 1;
      assert AllText(rest);
      var first := Written(KeptChunk(batches[0], outputDir, index, count));
      var mid := Saved(rest, outputDir, j, count);
      SavedCons(all, outputDir, index, count);
      SnocParts(batches, batch);
      SavedSnoc(rest, batch, outputDir, j, n, count);
      SavedCons(batches, outputDir, index, count);
      ConcatAssoc(first, mid, last);
    }
  }

  /** The front and the tail of a non-empty run with one more batch. */
  lemma SnocParts(batches: seq<seq<Row>>, batch: seq<Row>)
    requires batches != []
    ensures (batches + [batch])[0] == batches[0]
    ensures (batches + [batch])[1..] == batches[1..] + [batch]
  {
  }

  /** The chunks of a single batch. */
  lemma SavedSingle(batch: seq<Row>, outputDir: string, index: nat, count: string -> nat)
    requires HasText(batch)
    ensures AllText([batch])
    ensures Saved([batch], outputDir, index, count) == Written(KeptChunk(batch, outputDir, index, count))
  {
    assert [batch][1..] == [];
  }

  /** The chunks of a run of batches: the first batch's, then the rest's. */
  lemma SavedCons(batches: seq<seq<Row>>, outputDir: string, index: nat, count: string -> nat)
    requires batches != [] && AllText(batches)
    ensures AllText(batches[1..])
    ensures Saved(batches, outputDir, index, count)
      == Written(KeptChunk(batches[0], outputDir, index, count)) + Saved(batches[1..], outputDir, index + 1, count)
  {
  }

  /** One more batch with text keeps every batch with text. */
  lemma AllTextSnoc(batches: seq<seq<Row>>, batch: seq<Row>)
    requires AllText(batches) && HasText(batch)
    ensures AllText(batches + [batch])
  {
    var all := batches + [batch];
    forall k | 0 <= k < |all|
      ensures HasText(all[k])
    {
      if k < |batches| {
        assert all[k] == batches[k];
      }
    }
  }

  /** One call of `process_and_save_chunk` in the loop, with its path
      appended to the result when it wrote a file: what has been written
      grows from the chunks of the batches `done` to those of one more. A
      batch with a row that has no "text" field raises instead (`ok` is
      false), and nothing more is written. */
  method SaveBatch(batch: seq<Row>, outputDir: string, fileIndex: nat, count: string -> nat,
                   chunkFiles: seq<string>, written: seq<Chunk>, ghost done: seq<seq<Row>>)
    returns (ok: bool, chunkFiles': seq<string>, written': seq<Chunk>)
    requires AllText(done) && fileIndex == |done|
    requires written == Saved(done, outputDir, 0, count) && chunkFiles == Paths(written)
    ensures ok <==> HasText(batch)
    ensures ok ==> AllText(done + [batch]) && written' == Saved(done + [batch], outputDir, 0, count)
    ensures ok ==> chunkFiles' == Paths(written')
    ensures !ok ==> written' == written && chunkFiles' == chunkFiles
  {
    var outcome := ProcessAndSaveChunk(batch, outputDir, fileIndex, count);
    ProcessAndSaveChunkSpec(batch, outputDir, fileIndex, count);
    if outcome.Failure? {
      return false, chunkFiles, written;
    }
    ok := true;
    var chunk := outcome.value;
    SavedSnoc(done, batch, outputDir, 0, fileIndex, count);
    written' := written + Written(chunk);
    PathsAppend(written, Written(chunk));
    chunkFiles' := chunkFiles;
    if chunk.Some? {
      chunkFiles' := chunkFiles + [chunk.value.path];
      assert Paths(Written(chunk)) == [chunk.value.path];
    } else {
      assert Paths(Written(chunk)) == [];
    }
  }

  /** `process_file_in_chunks` on the decoded lines: it returns the paths of
      the chunks it wrote, and `written` is what it wrote, in order. A batch
      with a row that has no "text" field raises `KeyError` when it is
      processed, and the chunks of the batches before it stay written. */
  method ProcessFileInChunks(lines: seq<Row>, outputDir: string, batchSize: int, count: string -> nat)
    returns (r: Result<seq<string>>, written: seq<Chunk>)
    ensures Converted(lines, outputDir, batchSize, count, r, written)
  {
    var ok, batch, fileIndex, chunkFiles;
    ghost var done;
    ok, batch, fileIndex, chunkFiles, written, done := ReadLines(lines, outputDir, batchSize, count);
    if !ok {
      return Failure(TextField), written;
    }
    r, written := FlushBatch(lines, batch, outputDir, batchSize, fileIndex, count, chunkFiles, written, done);
  }

  /** The loop of `process_file_in_chunks` over the lines: it stops at a full
      batch that raises, or ends with the open batch still to process. */
  method ReadLines(lines: seq<Row>, outputDir: string, batchSize: int, count: string -> nat)
    returns (ok: bool, batch: seq<Row>, fileIndex: nat, chunkFiles: seq<string>, written: seq<Chunk>, ghost done: seq<seq<Row>>)
    ensures ok ==> Progress(lines, done, batch, fileIndex, written, chunkFiles, outputDir, batchSize, count)
    ensures !ok ==> Converted(lines, outputDir, batchSize, count, Failure(TextField), written)
  {
    chunkFiles := [];
    written := [];
    batch := [];
    fileIndex := 0;
    done := [];
    ok := true;
    var i := 0;
    while i < |lines|
      invariant 0 <= i <= |lines|
      invariant Progress(lines[..i], done, batch, fileIndex, written, chunkFiles, outputDir, batchSize, count)
    {
      assert lines[..i + 1] == lines[..i] + [lines[i]];
      ok, batch, fileIndex, chunkFiles, written, done :=
        AppendLine(lines[..i], lines[i], batch, fileIndex, chunkFiles, written, outputDir, batchSize, count, done);
      if !ok {
        RaisesAt(lines, i + 1, done, batch, outputDir, batchSize, count, written);
        return;
      }
      i := i + 1;
    }
    assert lines[..i] == lines;
  }

  /** What `process_file_in_chunks` does with the lines: the chunks written
      are those of the batches before the first one that raises, in order;
      the result is `KeyError` if some batch raises, and otherwise the paths
      of the chunks. */
  ghost predicate Converted(lines: seq<Row>, outputDir: string, batchSize: int, count: string -> nat,
                            r: Result<seq<string>>, written: seq<Chunk>)
  {
    var batches := Batches(lines, Width(batchSize));
    && AllText(batches[..Leading(batches)])
    && written == Saved(batches[..Leading(batches)], outputDir, 0, count)
    && r == if Leading(batches) < |batches| then Failure(TextField) else Success(Paths(written))
  }

  /** The state of `process_file_in_chunks` after reading `prefix`: `done`
      is the full batches closed so far, `batch` the open one holding the rest
      of `prefix`, `fileIndex` the number of batches closed, and `written`
      and `chunkFiles` what processing the closed batches produced. */
  ghost predicate Progress(prefix: seq<Row>, done: seq<seq<Row>>, batch: seq<Row>, fileIndex: nat, written: seq<Chunk>,
                           chunkFiles: seq<string>, outputDir: string, batchSize: int, count: string -> nat)
  {
    && Concat(done) + batch == prefix
    && Full(done, Width(batchSize)) && |batch| < Width(batchSize) && fileIndex == |done|
    && AllText(done)
    && written == Saved(done, outputDir, 0, count) && chunkFiles == Paths(written)
  }

  /** After the loop of `process_file_in_chunks`: a last, partly filled batch
      is processed as well. What was written is the processing of every batch
      of the input, or of those before the last one when that one raises. */
  method FlushBatch(lines: seq<Row>, batch: seq<Row>, outputDir: string, batchSize: int, fileIndex: nat, count: string -> nat,
                    chunkFiles: seq<string>, written: seq<Chunk>, ghost done: seq<seq<Row>>)
    returns (r: Result<seq<string>>, written': seq<Chunk>)
    requires Progress(lines, done, batch, fileIndex, written, chunkFiles, outputDir, batchSize, count)
    ensures Converted(lines, outputDir, batchSize, count, r, written')
  {
    ghost var batches := Batches(lines, Width(batchSize));
    LoopResult(lines, done, batch, Width(batchSize));
    var chunkFiles' := chunkFiles;
    written' := written;
    if batch != [] {
      var ok;
      ok, chunkFiles', written' := SaveBatch(batch, outputDir, fileIndex, count, chunkFiles, written, done);
      if !ok {
        assert batches[..|done|] == done;
        LeadingAt(batches, |done|);
        return Failure(TextField), written';
      }
    }
    assert batches == if batch != [] then done + [batch] else done;
    LeadingAll(batches);
    assert batches[..Leading(batches)] == batches;
    r := Success(chunkFiles');
  }

  /** One pass of the loop of `process_file_in_chunks`: the line joins the
      open batch, and a batch that reaches `batch_size` is processed, its path
      kept if it wrote a file, and a new batch is opened under the next
      index. A batch that raises comes back full with `ok` false and nothing
      more written. These ensures are about the ghost `Progress`, the loop's
      invariant; `ProcessFileInChunks` states what the loop computes. */
  method AppendLine(ghost prefix: seq<Row>, line: Row, batch: seq<Row>, fileIndex: nat, chunkFiles: seq<string>, written: seq<Chunk>,
                    outputDir: string, batchSize: int, count: string -> nat, ghost done: seq<seq<Row>>)
    returns (ok: bool, batch': seq<Row>, fileIndex': nat, chunkFiles': seq<string>, written': seq<Chunk>, ghost done': seq<seq<Row>>)
    requires Progress(prefix, done, batch, fileIndex, written, chunkFiles, outputDir, batchSize, count)
    ensures ok ==> Progress(prefix + [line], done', batch', fileIndex', written', chunkFiles', outputDir, batchSize, count)
    ensures !ok ==> && done' == done && batch' == batch + [line] && |batch'| == Width(batchSize)
                    && !HasText(batch') && written' == written
  {
    batch' := batch + [line];
    fileIndex', chunkFiles', written', done' := fileIndex, chunkFiles, written, done;
    ok := true;
    if |batch'| >= batchSize {
      ok, chunkFiles', written' := SaveBatch(batch', outputDir, fileIndex, count, chunkFiles, written, done);
      if !ok {
        return;
      }
      CloseBatch(done, batch', Width(batchSize));
      done' := done + [batch'];
      batch' := [];
      fileIndex' := fileIndex + 1;
    }
  }

  /** A full batch that raises, after the full batches `done`, within the
      first `n` lines: the batches before the first that raises are `done`,
      so what they wrote is the conversion's result. */
  lemma RaisesAt(lines: seq<Row>, n: nat, done: seq<seq<Row>>, batch: seq<Row>,
                 outputDir: string, batchSize: int, count: string -> nat, written: seq<Chunk>)
    requires n <= |lines|
    requires Concat(done) + batch == lines[..n]
    requires Full(done, Width(batchSize)) && |batch| == Width(batchSize)
    requires AllText(done) && !HasText(batch)
    requires written == Saved(done, outputDir, 0, count)
    ensures Converted(lines, outputDir, batchSize, count, Failure(TextField), written)
  {
    var width := Width(batchSize);
    var batches := Batches(lines, width);
    CloseBatch(done, batch, width);
    BatchesAfterFull(lines, n, done + [batch], width);
    assert batches[..|done| + 1][..|done|] == done && batches[..|done| + 1][|done|] == batch;
    LeadingAt(batches, |done|);
    assert batches[..Leading(batches)] == done;
  }

  /** Full batches that make up the first `n` lines are the first batches
      of all the lines. */
  lemma BatchesAfterFull(lines: seq<Row>, n: nat, full: seq<seq<Row>>, width: nat)
    requires n <= |lines| && width >= 1
    requires Full(full, width) && Concat(full) == lines[..n]
    ensures |full| <= |Batches(lines, width)| && Batches(lines, width)[..|full|] == full
  {
    var rest := Batches(lines[n..], width);
    var all := full + rest;
    BatchesCut(lines[n..], width);
    CutAfterFull(full, rest, width);
    assert Concat(all) == lines by {
      ConcatAppend(full, rest);
      BatchesConcat(lines[n..], width);
      assert lines[..n] + lines[n..] == lines;
    }
    CutIsBatches(all, width);
    assert all[..|full|] == full;
  }

  /** The batches of any lines are a cut of them. */
  lemma BatchesCut(lines: seq<Row>, width: nat)
    requires width >= 1
    ensures Cut(Batches(lines, width), width)
  {
    var bs := Batches(lines, width);
    BatchesSizes(lines, width);
    forall k | 0 <= k < |bs|
      ensures 1 <= |bs[k]| <= width
    {
      if k < |bs| - 1 {
        assert |bs[k]| == width;
      }
    }
  }

  /** Full batches followed by a cut are a cut. */
  lemma CutAfterFull(full: seq<seq<Row>>, rest: seq<seq<Row>>, width: nat)
    requires width >= 1 && Full(full, width) && Cut(rest, width)
    ensures Cut(full + rest, width)
  {
    var all := full + rest;
    forall k | 0 <= k < |all|
      ensures 1 <= |all[k]| <= width
    {
      if k >= |full| {
        assert all[k] == rest[k - |full|];
      } else {
        assert all[k] == full[k];
      }
    }
    forall k | 0 <= k < |all| - 1
      ensures |all[k]| == width
    {
      if k >= |full| {
        assert all[k] == rest[k - |full|];
      } else {
        assert all[k] == full[k];
      }
    }
  }

  lemma {:induction false} ConcatAppend(a: seq<seq<Row>>, b: seq<seq<Row>>)
    ensures Concat(a + b) == Concat(a) + Concat(b)
    decreases |a|
  {
    if a == [] {
      assert a + b == b;
    } else {
      assert (a + b)[0] == a[0] && (a + b)[1..] == a[1..] + b;
      ConcatAppend(a[1..], b);
      ConcatAssoc(a[0], Concat(a[1..]), Concat(b));
    }
  }

  /** The number of leading batches whose rows all have a "text" field: the
      batches processed before the first one that raises. */
  function Leading(batches: seq<seq<Row>>): (k: nat)
    ensures k <= |batches|
    decreases |batches|
  {
    if batches == [] || !HasText(batches[0]) then 0 else 1 + Leading(batches[1..])
  }

  /** The leading batches all have text, and the batch after them, if any,
      does not: `Leading` finds the first batch that raises. */
  lemma {:induction false} LeadingSpec(batches: seq<seq<Row>>)
    ensures AllText(batches[..Leading(batches)])
    ensures Leading(batches) < |batches| ==> !HasText(batches[Leading(batches)])
    decreases |batches|
  {
    if batches != [] && HasText(batches[0]) {
      var rest := batches[1..];
      LeadingSpec(rest);
      var k := Leading(batches);
      forall j | 0 <= j < k
        ensures HasText(batches[..k][j])
      {
        if j > 0 {
          assert batches[..k][j] == rest[..k - 1][j - 1];
        }
      }
      if k < |batches| {
        assert batches[k] == rest[k - 1];
      }
    }
  }

  /** The first batch that raises is at `k` when the batches before it have
      text and it does not. */
  lemma {:induction false} LeadingAt(batches: seq<seq<Row>>, k: nat)
    requires k < |batches| && AllText(batches[..k]) && !HasText(batches[k])
    ensures Leading(batches) == k
    decreases k
  {
    if k > 0 {
      assert batches[..k][0] == batches[0];
      var rest := batches[1..];
      assert rest[..k - 1] == batches[..k][1..];
      assert rest[k - 1] == batches[k];
      LeadingAt(rest, k - 1);
    }
  }

  /** When every batch has text, none raises. */
  lemma {:induction false} LeadingAll(batches: seq<seq<Row>>)
    requires AllText(batches)
    ensures Leading(batches) == |batches|
    decreases |batches|
  {
    if batches != [] {
      assert AllText(batches[1..]);
      LeadingAll(batches[1..]);
    }
  }

  /** The batches put back together have text in every row when each batch
      does. */
  lemma {:induction false} ConcatHasText(batches: seq<seq<Row>>)
    requires AllText(batches)
    ensures HasText(Concat(batches))
    decreases |batches|
  {
    if batches != [] {
      assert AllText(batches[1..]);
      ConcatHasText(batches[1..]);
      var c := Concat(batches);
      assert c == batches[0] + Concat(batches[1..]);
      forall i | 0 <= i < |c|
        ensures TextField in c[i]
      {
        if i < |batches[0]| {
          assert c[i] == batches[0][i];
        } else {
          assert c[i] == Concat(batches[1..])[i - |batches[0]|];
        }
      }
    }
  }

  /** The conversion raises exactly when some line has no "text" field, and
      otherwise processes every batch. */
  lemma RaisesSpec(lines: seq<Row>, batchSize: int)
    ensures Leading(Batches(lines, Width(batchSize))) < |Batches(lines, Width(batchSize))| <==> !HasText(lines)
  {
    var bs := Batches(lines, Width(batchSize));
    if HasText(lines) {
      BatchesHaveText(lines, Width(batchSize));
      LeadingAll(bs);
    } else if Leading(bs) == |bs| {
      LeadingSpec(bs);
      assert bs[..|bs|] == bs;
      ConcatHasText(bs);
      BatchesConcat(lines, Width(batchSize));
    }
  }

  /** Closing a full batch. */
  lemma CloseBatch(done: seq<seq<Row>>, batch: seq<Row>, width: nat)
    requires Full(done, width) && |batch| == width
    ensures Concat(done + [batch]) == Concat(done) + batch
    ensures Full(done + [batch], width)
  {
    ConcatSnoc(done, batch);
    FullSnoc(done, batch, width);
  }

  /** What the loop and the final partial batch wrote is what the batches of
      the lines give. */
  lemma LoopResult(lines: seq<Row>, done: seq<seq<Row>>, batch: seq<Row>, width: nat)
    requires width >= 1 && Concat(done) + batch == lines
    requires Full(done, width) && |batch| < width
    ensures Batches(lines, width) == if batch != [] then done + [batch] else done
  {
    CutOfLoop(done, batch, width);
    if batch != [] {
      ConcatSnoc(done, batch);
      CutIsBatches(done + [batch], width);
    } else {
      assert Concat(done) == lines;
      CutIsBatches(done, width);
    }
  }


  /** Every batch has exactly `width` lines. */
  predicate Full(batches: seq<seq<Row>>, width: nat)
  {
    forall k :: 0 <= k < |batches| ==> |batches[k]| == width
  }

  lemma FullSnoc(batches: seq<seq<Row>>, batch: seq<Row>, width: nat)
    requires Full(batches, width) && |batch| == width
    ensures Full(batches + [batch], width)
  {
    var all := batches + [batch];
    forall k | 0 <= k < |all|
      ensures |all[k]| == width
    {
      if k < |batches| {
        assert all[k] == batches[k];
      }
    }
  }

  /** The batches the loop closed, with the rest if any, are a cut. */
  lemma CutOfLoop(done: seq<seq<Row>>, batch: seq<Row>, width: nat)
    requires Full(done, width)
    requires width >= 1 && |batch| < width
    ensures Cut(done, width)
    ensures batch != [] ==> Cut(done + [batch], width)
  {
    if batch != [] {
      var all := done + [batch];
      forall k | 0 <= k < |all|
        ensures 1 <= |all[k]| <= width
      {
        if k < |done| {
          assert all[k] == done[k];
        }
      }
      forall k | 0 <= k < |all| - 1
        ensures |all[k]| == width
      {
        assert all[k] == done[k];
      }
    }
  }

  lemma {:induction false} PathsAppend(a: seq<Chunk>, b: seq<Chunk>)
    ensures Paths(a + b) == Paths(a) + Paths(b)
    decreases |a|
  {
    if a == [] {
      assert a + b == b;
    } else {
      assert (a + b)[0] == a[0] && (a + b)[1..] == a[1..] + b;
      PathsAppend(a[1..], b);
    }
  }

  // ---------------------------------------------------------------------------
  // What the written chunks hold

  lemma {:induction false} ChunkRowsAppend(a: seq<Chunk>, b: seq<Chunk>)
    ensures ChunkRows(a + b) == ChunkRows(a) + ChunkRows(b)
    decreases |a|
  {
    if a == [] {
      assert a + b == b;
    } else {
      assert (a + b)[0] == a[0] && (a + b)[1..] == a[1..] + b;
      ChunkRowsAppend(a[1..], b);
      calc {
        ChunkRows(a + b);
        a[0].rows + ChunkRows(a[1..] + b);
        a[0].rows + (ChunkRows(a[1..]) + ChunkRows(b));
        (a[0].rows + ChunkRows(a[1..])) + ChunkRows(b);
      }
    }
  }

  /** The chunks written for a list of batches hold, together and in order,
      the kept rows of all of them. */
  lemma {:induction false} SavedRows(batches: seq<seq<Row>>, outputDir: string, index: nat, count: string -> nat)
    requires AllText(batches)
    ensures ChunkRows(Saved(batches, outputDir, index, count)) == Keep(Concat(batches), count)
    decreases |batches|
  {
    if batches != [] {
      assert AllText(batches[1..]);
      SavedRows(batches[1..], outputDir, index + 1, count);
      KeepAppend(batches[0], Concat(batches[1..]), count);
      var first := Written(KeptChunk(batches[0], outputDir, index, count));
      ChunkRowsAppend(first, Saved(batches[1..], outputDir, index + 1, count));
      assert ChunkRows(first) == Keep(batches[0], count) by {
        if first != [] {
          assert first[1..] == [];
        }
      }
    }
  }

  /** Every row with tokens ends up in exactly one chunk, annotated, in input
      order; no row without tokens is written. */
  lemma WrittenRows(lines: seq<Row>, outputDir: string, batchSize: int, count: string -> nat)
    requires HasText(lines)
    ensures AllText(Batches(lines, Width(batchSize)))
    ensures ChunkRows(Saved(Batches(lines, Width(batchSize)), outputDir, 0, count)) == Keep(lines, count)
  {
    BatchesHaveText(lines, Width(batchSize));
    SavedRows(Batches(lines, Width(batchSize)), outputDir, 0, count);
    BatchesConcat(lines, Width(batchSize));
  }

  // ---------------------------------------------------------------------------
  // Chunk numbering

  /** The numbers of the batches that keep a row, counted from `index`. */
  function Numbers(batches: seq<seq<Row>>, index: nat, count: string -> nat): seq<nat>
    decreases |batches|
  {
    if batches == [] then []
    else
      (if Keeps(batches[0], count) then [index] else []) + Numbers(batches[1..], index + 1, count)
  }

  predicate Increasing(xs: seq<nat>)
  {
    forall k, l :: 0 <= k < l < |xs| ==> xs[k] < xs[l]
  }

  /** The numbers rise strictly and stay within the batches. */
  lemma {:induction false} NumbersRise(batches: seq<seq<Row>>, index: nat, count: string -> nat)
    ensures Increasing(Numbers(batches, index, count))
    ensures forall k :: 0 <= k < |Numbers(batches, index, count)| ==>
      index <= Numbers(batches, index, count)[k] < index + |batches|
    decreases |batches|
  {
    if batches != [] {
      NumbersRise(batches[1..], index + 1, count);
    }
  }

  /** Every number is that of a batch that keeps a row. */
  lemma {:induction false} NumbersKept(batches: seq<seq<Row>>, index: nat, count: string -> nat)
    ensures forall k :: 0 <= k < |Numbers(batches, index, count)| ==>
      index <= Numbers(batches, index, count)[k] < index + |batches|
      && Keeps(batches[Numbers(batches, index, count)[k] - index], count)
    decreases |batches|
  {
    if batches != [] {
      var rest := batches[1..];
      NumbersKept(rest, index + 1, count);
      var tail := Numbers(rest, index + 1, count);
      var head: seq<nat> := if Keeps(batches[0], count) then [index] else [];
      var ns := Numbers(batches, index, count);
      assert ns == head + tail;
      forall k | 0 <= k < |ns|
        ensures index <= ns[k] < index + |batches| && Keeps(batches[ns[k] - index], count)
      {
        if k >= |head| {
          var n := tail[k - |head|];
          assert ns[k] == n;
          assert batches[n - index] == rest[n - (index + 1)];
        } else {
          assert ns[k] == index;
        }
      }
    }
  }

  /** Every batch that keeps a row has its number: `file_index` moves on
      after every full batch, whether or not it wrote a file. */
  lemma {:induction false} NumbersComplete(batches: seq<seq<Row>>, index: nat, count: string -> nat)
    ensures forall j :: 0 <= j < |batches| && Keeps(batches[j], count) ==>
      index + j in Numbers(batches, index, count)
    decreases |batches|
  {
    if batches != [] {
      var rest := batches[1..];
      NumbersComplete(rest, index + 1, count);
      var tail := Numbers(rest, index + 1, count);
      var head: seq<nat> := if Keeps(batches[0], count) then [index] else [];
      var ns := Numbers(batches, index, count);
      assert ns == head + tail;
      forall j | 0 <= j < |batches| && Keeps(batches[j], count)
        ensures index + j in ns
      {
        if j > 0 {
          assert rest[j - 1] == batches[j];
          assert index + j in tail;
        } else {
          assert ns[0] == index;
        }
      }
    }
  }

  /** One batch writes one file, at its own index, exactly when it keeps a row. */
  lemma WrittenHead(batch: seq<Row>, outputDir: string, index: nat, count: string -> nat)
    requires HasText(batch)
    ensures var w := Written(KeptChunk(batch, outputDir, index, count));
      |w| == (if Keeps(batch, count) then 1 else 0)
      && (w != [] ==> w[0].path == ChunkPath(outputDir, index))
  {
    ProcessAndSaveChunkSpec(batch, outputDir, index, count);
  }

  /** The chunks are named, one for one, after the numbers. */
  predicate NamedBy(chunks: seq<Chunk>, numbers: seq<nat>, outputDir: string)
  {
    |chunks| == |numbers| && forall k :: 0 <= k < |chunks| ==> chunks[k].path == ChunkPath(outputDir, numbers[k])
  }

  lemma NamedByAppend(a: seq<Chunk>, na: seq<nat>, b: seq<Chunk>, nb: seq<nat>, outputDir: string)
    requires NamedBy(a, na, outputDir) && NamedBy(b, nb, outputDir)
    ensures NamedBy(a + b, na + nb, outputDir)
  {
    forall k | 0 <= k < |a + b|
      ensures (a + b)[k].path == ChunkPath(outputDir, (na + nb)[k])
    {
      if k < |a| {
        assert (a + b)[k] == a[k] && (na + nb)[k] == na[k];
      } else {
        assert (a + b)[k] == b[k - |a|] && (na + nb)[k] == nb[k - |na|];
      }
    }
  }

  /** The k-th written chunk is the chunk of the k-th number's batch. */
  lemma {:induction false} SavedNumbers(batches: seq<seq<Row>>, outputDir: string, index: nat, count: string -> nat)
    requires AllText(batches)
    ensures |Saved(batches, outputDir, index, count)| == |Numbers(batches, index, count)|
    ensures forall k :: 0 <= k < |Numbers(batches, index, count)| ==>
      Saved(batches, outputDir, index, count)[k].path == ChunkPath(outputDir, Numbers(batches, index, count)[k])
    decreases |batches|
  {
    if batches != [] {
      var rest := batches[1..];
      assert AllText(rest);
      SavedNumbers(rest, outputDir, index + 1, count);
      WrittenHead(batches[0], outputDir, index, count);
      var w := Written(KeptChunk(batches[0], outputDir, index, count));
      var head: seq<nat> := if Keeps(batches[0], count) then [index] else [];
      var saved, numbers := Saved(rest, outputDir, index + 1, count), Numbers(rest, index + 1, count);
      assert NamedBy(w, head, outputDir);
      assert NamedBy(saved, numbers, outputDir);
      NamedByAppend(w, head, saved, numbers, outputDir);
      assert Saved(batches, outputDir, index, count) == w + saved;
      assert Numbers(batches, index, count) == head + numbers;
    }
  }

  /** The returned paths are pairwise different: no chunk overwrites another. */
  lemma PathsDistinct(batches: seq<seq<Row>>, outputDir: string, count: string -> nat)
    requires AllText(batches)
    ensures var paths := Paths(Saved(batches, outputDir, 0, count));
      forall k, l :: 0 <= k < l < |paths| ==> paths[k] != paths[l]
  {
    var saved := Saved(batches, outputDir, 0, count);
    var numbers := Numbers(batches, 0, count);
    SavedNumbers(batches, outputDir, 0, count);
    PathsSpec(saved);
    NumbersRise(batches, 0, count);
    forall k, l | 0 <= k < l < |saved|
      ensures saved[k].path != saved[l].path
    {
      assert numbers[k] < numbers[l];
      if saved[k].path == saved[l].path {
        ChunkPathInjective(outputDir, numbers[k], numbers[l]);
      }
    }
  }
}
