/** A datasheet: a markdown document with a `---`-fenced YAML frontmatter and a
    body holding regions delimited by `<!-- START-<tag> -->` and
    `<!-- END-<tag> -->` markers. The operations here are the string work of
    `DataSheet` in src/datasheets/datasheet.py; the YAML text of the
    frontmatter is kept as an opaque string. */
module Datasheet {
  import opened Wrappers
  import opened TextOps

  /** The tags of the regions the tooling rewrites (`DEFAULT_SECTION_TAGS`). */
  const DescStatsTag := "DESC-STATS"
  const DatasetPlotsTag := "DATASET PLOTS"
  const ShortDescriptionTag := "SHORT DESCRIPTION"

  const LicenseHeader := "## License Information"

  /** The pieces of the HTML comments that delimit a tag's region. */
  const StartOpen: string := "<!-- START-"
  const EndOpen: string := "<!-- END-"
  const MarkerClose: string := " -->"

  function StartMarker(tag: string): string
  {
    StartOpen + tag + MarkerClose
  }

  function EndMarker(tag: string): string
  {
    EndOpen + tag + MarkerClose
  }

  /** The fields of a loaded datasheet; the file path is not modelled.
      `licenseName` is the `license_name` field, None when the frontmatter
      has no such key or holds null there; `hasLicenseNameKey` says whether
      the frontmatter has the key at all. */
  datatype DataSheet = DataSheet(
    prettyName: string,
    license: string,
    licenseName: Option<string>,
    hasLicenseNameKey: bool,
    language: seq<string>,
    domains: Option<seq<string>>,
    frontmatterYaml: string,
    body: string)

  // ---------------------------------------------------------------------------
  // human_readable_large_int

  /** What `human_readable_large_int` prints: the value itself, or the value
      divided by `threshold` followed by `suffix` (the two decimals of that
      division are not modelled). */
  datatype HumanInt = Plain(value: int) | Scaled(value: int, threshold: nat, suffix: string)

  /** The thresholds in the order the source tries them. */
  const Thresholds: seq<(nat, string)> := [(1_000_000_000, "B"), (1_000_000, "M"), (1_000, "K")]

  /** The first entry of `table` that `value` exceeds decides the form. */
  function ScaleBy(value: int, table: seq<(nat, string)>): HumanInt
  {
    if table == [] then Plain(value)
    else if value > table[0].0 then Scaled(value, table[0].0, table[0].1)
    else ScaleBy(value, table[1..])
  }

  function HumanReadable(value: int): HumanInt
  {
    ScaleBy(value, Thresholds)
  }

  /** The suffix rule, stated outright: no suffix up to 1000, then K, M or B by
      the largest power of a thousand that the value strictly exceeds. */
  lemma HumanReadableSuffix(value: int)
    ensures HumanReadable(value).Plain? <==> value <= 1000
    ensures HumanReadable(value).value == value
    ensures HumanReadable(value).Scaled? ==>
      && HumanReadable(value).suffix == (if value > 1_000_000_000 then "B" else if value > 1_000_000 then "M" else "K")
      && HumanReadable(value).threshold == (if value > 1_000_000_000 then 1_000_000_000 else if value > 1_000_000 then 1_000_000 else 1_000)
  {
    var t1, t2, t3 := Thresholds[1..], Thresholds[2..], Thresholds[3..];
    assert t1 == [(1_000_000, "M"), (1_000, "K")] && t1[1..] == t2;
    assert t2 == [(1_000, "K")] && t2[1..] == t3;
    assert t3 == [];
    assert ScaleBy(value, t3) == Plain(value);
    assert ScaleBy(value, t2) == if value > 1_000 then Scaled(value, 1_000, "K") else Plain(value);
    assert ScaleBy(value, t1) == if value > 1_000_000 then Scaled(value, 1_000_000, "M") else ScaleBy(value, t2);
  }

  /** The source's loop over the thresholds with an early return. */
  method HumanReadableLargeInt(value: int) returns (r: HumanInt)
    ensures r == HumanReadable(value)
    ensures r.Plain? <==> value <= 1000
    ensures r.Scaled? ==> r.value == value && r.threshold < value
  {
    var i := 0;
    while i < |Thresholds|
      invariant 0 <= i <= |Thresholds|
      invariant ScaleBy(value, Thresholds[i..]) == HumanReadable(value)
    {
      var (threshold, suffix) := Thresholds[i];
      if value > threshold {
        return Scaled(value, threshold, suffix);
      }
      assert Thresholds[i..][1..] == Thresholds[i + 1..];
      i := i + 1;
    }
    HumanReadableSuffix(value);
    return Plain(value);
  }

  // ---------------------------------------------------------------------------
  // Tagged regions
  //
  // The region operations are stated for any pair of markers `tagStart` and
  // `tagEnd`; the tag operations apply them to `StartMarker(tag)` and
  // `EndMarker(tag)`, which `MarkersShape` shows meet the lemmas' conditions.

  /** The markers a tag's region is delimited by are non-empty, the start marker
      is the longer, and both are free of line feeds when the tag is. */
  lemma MarkersShape(tag: string)
    ensures StartMarker(tag) != [] && EndMarker(tag) != []
    ensures |StartMarker(tag)| > |EndMarker(tag)|
    ensures '\n' !in tag ==> '\n' !in StartMarker(tag) && '\n' !in EndMarker(tag)
  {
  }

  /** The first start marker ends before the first end marker begins. */
  predicate InOrder(body: string, tagStart: string, tagEnd: string)
  {
    && Find(body, tagStart).Some? && Find(body, tagEnd).Some?
    && Find(body, tagStart).value + |tagStart| <= Find(body, tagEnd).value
  }

  /** `get_tag_idx` on a pair of markers: the first occurrences of both, provided
      both occur and the first start marker comes before the first end marker. */
  function TagIdx(body: string, tagStart: string, tagEnd: string): (r: Option<(nat, nat)>)
    ensures r.Some? ==>
      && IsFirst(body, tagStart, r.value.0) && IsFirst(body, tagEnd, r.value.1)
      && r.value.0 < r.value.1
    ensures r.None? <==>
      (!Contains(body, tagStart) || !Contains(body, tagEnd)
       || Find(body, tagEnd).value <= Find(body, tagStart).value)
  {
    match (Find(body, tagStart), Find(body, tagEnd))
    case (Some(s), Some(e)) => if s < e then Some((s, e)) else None
    case _ => None
  }

  /** `get_tag_content` on a pair of markers: the stripped text between the end
      of the first start marker and the first end marker. */
  function TagContent(body: string, tagStart: string, tagEnd: string): (r: Option<string>)
    ensures r.None? <==> TagIdx(body, tagStart, tagEnd).None?
    ensures r.Some? ==> Stripped(r.value)
  {
    match TagIdx(body, tagStart, tagEnd)
    case None => None
    case Some((s, e)) =>
      StripIsStripped(PySlice(body, s + |tagStart|, e));
      Some(Strip(PySlice(body, s + |tagStart|, e)))
  }

  const TagErrorOpen: string := "tag ("
  const TagErrorClose: string := ") not found in readme"

  /** `get_tag_idx`: the first start and end markers of the tag, or the error
      naming the tag. */
  function GetTagIdx(body: string, tag: string): (r: Result<(nat, nat)>)
    ensures r.Success? ==>
      && IsFirst(body, StartMarker(tag), r.value.0) && IsFirst(body, EndMarker(tag), r.value.1)
      && r.value.0 < r.value.1
    ensures r.Failure? ==> r.error == TagErrorOpen + tag + TagErrorClose
    ensures r.Failure? <==>
      (!Contains(body, StartMarker(tag)) || !Contains(body, EndMarker(tag))
       || Find(body, EndMarker(tag)).value <= Find(body, StartMarker(tag)).value)
  {
    match TagIdx(body, StartMarker(tag), EndMarker(tag))
    case Some(idx) => Success(idx)
    case None => Failure(TagErrorOpen + tag + TagErrorClose)
  }

  /** `get_tag_content`: the tag's region, stripped, or the error of
      `get_tag_idx`. It is what `TagContent` reads between the tag's markers. */
  function GetTagContent(body: string, tag: string): (r: Result<string>)
    ensures r.Failure? <==> GetTagIdx(body, tag).Failure?
    ensures r.Success? ==> Stripped(r.value)
  {
    match GetTagIdx(body, tag)
    case Failure(err) => Failure(err)
    case Success((s, e)) =>
      StripIsStripped(PySlice(body, s + |StartMarker(tag)|, e));
      Success(Strip(PySlice(body, s + |StartMarker(tag)|, e)))
  }

  /** The content is the region `TagContent` reads between the tag's markers,
      and it is missing exactly when that region is. */
  lemma GetTagContentRegion(body: string, tag: string)
    ensures GetTagContent(body, tag).Success? ==>
      TagContent(body, StartMarker(tag), EndMarker(tag)) == Some(GetTagContent(body, tag).value)
    ensures GetTagContent(body, tag).Failure? ==>
      TagContent(body, StartMarker(tag), EndMarker(tag)) == None
  {
    var ts, te := StartMarker(tag), EndMarker(tag);
    var idx := TagIdx(body, ts, te);
    if idx.Some? {
      var s, e := idx.value.0, idx.value.1;
      var c := Strip(PySlice(body, s + |ts|, e));
      assert GetTagIdx(body, tag) == Success((s, e));
      assert TagContent(body, ts, te) == Some(c);
      assert GetTagContent(body, tag) == Success(c);
    }
  }

  /** `q` on a line of its own between `x` and `y`. */
  function Framed(x: string, q: string, y: string): string
  {
    x + "\n" + q + "\n" + y
  }

  /** The three parts of a framed text, recovered by slicing. */
  lemma FramedParts(x: string, q: string, y: string)
    ensures var r := Framed(x, q, y);
      && |r| == |x| + |q| + 2 + |y|
      && r[..|x|] == x && r[|x|..|x| + |q| + 2] == "\n" + q + "\n" && r[|x| + |q| + 2..] == y
  {
  }

  lemma FramedSlice(x: string, q: string, y: string)
    ensures PySlice(Framed(x, q, y), |x|, |x| + |q| + 2) == "\n" + q + "\n"
  {
    FramedParts(x, q, y);
  }

  /** The two partitions `replace_tag` performs once both markers are known to
      occur once: the text before the first start marker and the marker, `q`
      on a line of its own, then the end marker and what follows the first end
      marker after the start marker. */
  function Splice(body: string, q: string, tagStart: string, tagEnd: string): string
    requires tagStart != [] && tagEnd != []
  {
    var first := Partition(body, tagStart);
    var second := Partition(first.2, tagEnd);
    Framed(first.0 + tagStart, q, tagEnd + second.2)
  }

  const MarkersErrorOpen: string := "The markers ("
  const MarkersErrorMiddle: string := " ... "
  const MarkersErrorClose: string := ") does not appear in the markdown. Markers should appear exactly once in the markdown."

  /** The message `replace_tag` raises with. */
  function MarkersError(tagStart: string, tagEnd: string): string
  {
    MarkersErrorOpen + tagStart + MarkersErrorMiddle + tagEnd + MarkersErrorClose
  }

  /** `replace_tag` on a pair of markers: both must occur exactly once
      (non-overlapping count); their order is not checked. */
  function ReplaceBetween(body: string, package: string, tagStart: string, tagEnd: string): (r: Result<string>)
    requires tagStart != [] && tagEnd != []
    ensures r.Failure? <==> Count(body, tagStart) != 1 || Count(body, tagEnd) != 1
  {
    if Count(body, tagStart) != 1 || Count(body, tagEnd) != 1 then
      Failure(MarkersError(tagStart, tagEnd))
    else
      Success(Splice(body, Strip(package), tagStart, tagEnd))
  }

  /** `replace_tag`: splice the stripped `package` between the tag's markers. */
  function ReplaceTag(body: string, package: string, tag: string): (r: Result<string>)
    ensures r.Failure? <==> Count(body, StartMarker(tag)) != 1 || Count(body, EndMarker(tag)) != 1
  {
    MarkersShape(tag);
    ReplaceBetween(body, package, StartMarker(tag), EndMarker(tag))
  }

  /** With the markers in order (the first start marker at `s` ends before
      the first end marker at `e`), the splice keeps everything before the
      start marker and everything after the end marker verbatim. */
  lemma SpliceAt(body: string, q: string, tagStart: string, tagEnd: string, s: nat, e: nat)
    requires tagStart != [] && tagEnd != []
    requires Find(body, tagStart) == Some(s) && Find(body, tagEnd) == Some(e) && s + |tagStart| <= e
    ensures Splice(body, q, tagStart, tagEnd) == Framed(body[..s] + tagStart, q, tagEnd + body[e + |tagEnd|..])
  {
    var m := s + |tagStart|;
    var remainder, k := body[m..], e - m;
    FindSuffix(body, tagEnd, m, e);
    assert Find(remainder, tagEnd) == Some(k);
    PartitionAt(body, tagStart, s);
    PartitionAt(remainder, tagEnd, k);
    assert remainder[k + |tagEnd|..] == body[e + |tagEnd|..];
  }

  /** When both markers occur once, `replace_tag` succeeds with the splice. */
  lemma ReplaceBetweenSplices(body: string, package: string, tagStart: string, tagEnd: string, x: string)
    requires tagStart != [] && tagEnd != []
    requires Count(body, tagStart) == 1 && Count(body, tagEnd) == 1
    requires Splice(body, Strip(package), tagStart, tagEnd) == x
    ensures ReplaceBetween(body, package, tagStart, tagEnd) == Success(x)
  {
  }

  /** On success with the markers in order, everything before the start marker
      and everything after the end marker is kept verbatim. */
  lemma ReplacePreserves(body: string, package: string, tagStart: string, tagEnd: string)
    requires tagStart != [] && tagEnd != []
    requires Count(body, tagStart) == 1 && Count(body, tagEnd) == 1
    requires InOrder(body, tagStart, tagEnd)
    ensures var s, e := Find(body, tagStart).value, Find(body, tagEnd).value;
      ReplaceBetween(body, package, tagStart, tagEnd)
        == Success(Framed(body[..s] + tagStart, Strip(package), tagEnd + body[e + |tagEnd|..]))
  {
    var s, e := Find(body, tagStart).value, Find(body, tagEnd).value;
    var x := Framed(body[..s] + tagStart, Strip(package), tagEnd + body[e + |tagEnd|..]);
    SpliceAt(body, Strip(package), tagStart, tagEnd, s, e);
    ReplaceBetweenSplices(body, package, tagStart, tagEnd, x);
  }

  /** With an end marker that occurs once and comes before a start marker at
      least as long, the splice keeps the text before the start marker and
      drops all that follows it. */
  lemma SpliceEndFirst(body: string, q: string, tagStart: string, tagEnd: string)
    requires tagStart != [] && tagEnd != [] && |tagEnd| <= |tagStart|
    requires Count(body, tagEnd) == 1
    requires Find(body, tagStart).Some? && Find(body, tagEnd).Some?
    requires Find(body, tagEnd).value < Find(body, tagStart).value
    ensures Splice(body, q, tagStart, tagEnd)
      == Framed(body[..Find(body, tagStart).value] + tagStart, q, tagEnd)
  {
    var s, e := Find(body, tagStart).value, Find(body, tagEnd).value;
    var remainder := body[s + |tagStart|..];
    CountOnce(body, tagEnd);
    forall j | 0 <= j
      ensures !OccursAt(remainder, tagEnd, j)
    {
      OccursShift(body, s + |tagStart|, tagEnd, j);
    }
    PartitionAt(body, tagStart, s);
    assert Find(remainder, tagEnd).None?;
    assert tagEnd + Partition(remainder, tagEnd).2 == tagEnd;
  }

  /** The order of the markers is not checked: when the end marker comes first,
      the text up to the start marker is kept and everything after it is lost. */
  lemma ReplaceEndFirstDropsTail(body: string, package: string, tagStart: string, tagEnd: string)
    requires tagStart != [] && tagEnd != [] && |tagEnd| <= |tagStart|
    requires Count(body, tagStart) == 1 && Count(body, tagEnd) == 1
    requires Find(body, tagEnd).value < Find(body, tagStart).value
    ensures ReplaceBetween(body, package, tagStart, tagEnd)
      == Success(Framed(body[..Find(body, tagStart).value] + tagStart, Strip(package), tagEnd))
  {
    SpliceEndFirst(body, Strip(package), tagStart, tagEnd);
  }

  /** A body whose markers each occur once, in order, and hold no line feed. */
  predicate WellMarked(body: string, tagStart: string, tagEnd: string)
  {
    && tagStart != [] && tagEnd != [] && '\n' !in tagStart && '\n' !in tagEnd
    && Count(body, tagStart) == 1 && Count(body, tagEnd) == 1
    && InOrder(body, tagStart, tagEnd)
  }

  /** The text around the region: the body up to the end of the start marker,
      and the body from the end marker on. */
  function Before(body: string, tagStart: string): string
    requires Find(body, tagStart).Some?
  {
    body[..Find(body, tagStart).value + |tagStart|]
  }

  function After(body: string, tagEnd: string): string
    requires Find(body, tagEnd).Some?
  {
    body[Find(body, tagEnd).value..]
  }

  /** A splice of a well-marked body is the text around the region with `q`
      on a line of its own. */
  lemma SpliceLayout(body: string, q: string, tagStart: string, tagEnd: string)
    requires WellMarked(body, tagStart, tagEnd)
    ensures Splice(body, q, tagStart, tagEnd) == Framed(Before(body, tagStart), q, After(body, tagEnd))
  {
    var s, e := Find(body, tagStart).value, Find(body, tagEnd).value;
    SpliceAt(body, q, tagStart, tagEnd, s, e);
    SliceAtOccurrence(body, tagStart, s);
    SliceAtOccurrence(body, tagEnd, e);
  }

  /** Where a marker can occur in the spliced text: only in the kept text. */
  lemma SpliceOccurrences(body: string, q: string, tagStart: string, tagEnd: string, p: string, i: int)
    requires WellMarked(body, tagStart, tagEnd)
    requires p == tagStart || p == tagEnd
    requires !Contains(q, p)
    requires OccursAt(Framed(Before(body, tagStart), q, After(body, tagEnd)), p, i)
    ensures var a, m := |Before(body, tagStart)|, |Before(body, tagStart)| + |q| + 2;
      || (OccursAt(body, p, i) && i + |p| <= a)
      || (i >= m && OccursAt(body, p, i - m + Find(body, tagEnd).value))
  {
    var a, b := Before(body, tagStart), After(body, tagEnd);
    OccursAroundLine(a, q, b, p, i);
    OccursPrefix(body, |a|, p, i);
    OccursShift(body, Find(body, tagEnd).value, p, i - |a| - |q| - 2);
  }

  /** In the spliced text the start marker is found where it was, once. */
  lemma SpliceStartOnce(body: string, q: string, tagStart: string, tagEnd: string)
    requires WellMarked(body, tagStart, tagEnd)
    requires !Contains(q, tagStart)
    ensures var r := Framed(Before(body, tagStart), q, After(body, tagEnd));
      Find(r, tagStart) == Find(body, tagStart) && Count(r, tagStart) == 1
  {
    var s, e := Find(body, tagStart).value, Find(body, tagEnd).value;
    var a, b := Before(body, tagStart), After(body, tagEnd);
    var r := Framed(a, q, b);
    CountOnce(body, tagStart);
    OccursPrefix(body, |a|, tagStart, s);
    FramedParts(a, q, b);
    OccursPrefix(r, |a|, tagStart, s);
    forall j | 0 <= j < s || s + |tagStart| <= j
      ensures !OccursAt(r, tagStart, j)
    {
      if OccursAt(r, tagStart, j) {
        SpliceOccurrences(body, q, tagStart, tagEnd, tagStart, j);
      }
    }
    FindIsFirst(r, tagStart, s);
    CountOnce(r, tagStart);
  }

  /** In the spliced text the end marker is found right after `q`, once. */
  lemma SpliceEndOnce(body: string, q: string, tagStart: string, tagEnd: string)
    requires WellMarked(body, tagStart, tagEnd)
    requires !Contains(q, tagEnd)
    ensures var r := Framed(Before(body, tagStart), q, After(body, tagEnd));
      Find(r, tagEnd).Some? && Find(r, tagEnd).value == |Before(body, tagStart)| + |q| + 2 && Count(r, tagEnd) == 1
  {
    var s, e := Find(body, tagStart).value, Find(body, tagEnd).value;
    var a, b := Before(body, tagStart), After(body, tagEnd);
    var r := Framed(a, q, b);
    var m := |a| + |q| + 2;
    CountOnce(body, tagEnd);
    FramedParts(a, q, b);
    OccursShift(body, e, tagEnd, 0);
    OccursShift(r, m, tagEnd, 0);
    forall j | 0 <= j < m || m + |tagEnd| <= j
      ensures !OccursAt(r, tagEnd, j)
    {
      if OccursAt(r, tagEnd, j) {
        SpliceOccurrences(body, q, tagStart, tagEnd, tagEnd, j);
      }
    }
    FindIsFirst(r, tagEnd, m);
    CountOnce(r, tagEnd);
  }

  /** Where the markers are found in the spliced text. */
  lemma SpliceFinds(body: string, q: string, tagStart: string, tagEnd: string)
    requires WellMarked(body, tagStart, tagEnd)
    requires !Contains(q, tagStart) && !Contains(q, tagEnd)
    ensures Find(Splice(body, q, tagStart, tagEnd), tagStart) == Some(|Before(body, tagStart)| - |tagStart|)
    ensures Find(Splice(body, q, tagStart, tagEnd), tagEnd).Some?
    ensures Find(Splice(body, q, tagStart, tagEnd), tagEnd).value == |Before(body, tagStart)| + |q| + 2
  {
    SpliceLayout(body, q, tagStart, tagEnd);
    SpliceStartOnce(body, q, tagStart, tagEnd);
    SpliceEndOnce(body, q, tagStart, tagEnd);
  }

  /** Splicing the same text twice is the same as splicing it once. */
  lemma SpliceIdempotent(body: string, q: string, tagStart: string, tagEnd: string)
    requires WellMarked(body, tagStart, tagEnd)
    requires !Contains(q, tagStart) && !Contains(q, tagEnd)
    ensures WellMarked(Splice(body, q, tagStart, tagEnd), tagStart, tagEnd)
    ensures Splice(Splice(body, q, tagStart, tagEnd), q, tagStart, tagEnd) == Splice(body, q, tagStart, tagEnd)
  {
    var s := Find(body, tagStart).value;
    var a, b := Before(body, tagStart), After(body, tagEnd);
    var r := Framed(a, q, b);
    SpliceLayout(body, q, tagStart, tagEnd);
    SpliceStartOnce(body, q, tagStart, tagEnd);
    SpliceEndOnce(body, q, tagStart, tagEnd);
    assert WellMarked(r, tagStart, tagEnd);
    SpliceLayout(r, q, tagStart, tagEnd);
    FramedParts(a, q, b);
    assert Before(r, tagStart) == r[..|a|] == a;
    assert After(r, tagEnd) == r[|a| + |q| + 2..] == b;
  }

  /** Replacing a region with the same package twice is the same as once. */
  lemma ReplaceIdempotent(body: string, package: string, tagStart: string, tagEnd: string)
    requires WellMarked(body, tagStart, tagEnd)
    requires !Contains(Strip(package), tagStart) && !Contains(Strip(package), tagEnd)
    ensures ReplaceBetween(body, package, tagStart, tagEnd).Success?
    ensures ReplaceBetween(ReplaceBetween(body, package, tagStart, tagEnd).value, package, tagStart, tagEnd)
      == ReplaceBetween(body, package, tagStart, tagEnd)
  {
    SpliceIdempotent(body, Strip(package), tagStart, tagEnd);
  }

  /** Reading a region back after replacing it gives the stripped package. */
  lemma ReplaceRoundTrip(body: string, package: string, tagStart: string, tagEnd: string)
    requires WellMarked(body, tagStart, tagEnd)
    requires !Contains(Strip(package), tagStart) && !Contains(Strip(package), tagEnd)
    ensures ReplaceBetween(body, package, tagStart, tagEnd).Success?
    ensures TagContent(ReplaceBetween(body, package, tagStart, tagEnd).value, tagStart, tagEnd) == Some(Strip(package))
  {
    StripIsStripped(package);
    SpliceContent(body, Strip(package), tagStart, tagEnd);
  }

  /** The region of a splice holds the spliced text, when that is stripped. */
  lemma SpliceContent(body: string, q: string, tagStart: string, tagEnd: string)
    requires WellMarked(body, tagStart, tagEnd)
    requires !Contains(q, tagStart) && !Contains(q, tagEnd) && Stripped(q)
    ensures TagContent(Splice(body, q, tagStart, tagEnd), tagStart, tagEnd) == Some(q)
  {
    SpliceFinds(body, q, tagStart, tagEnd);
    SpliceRegion(body, q, tagStart, tagEnd);
    RegionAt(Splice(body, q, tagStart, tagEnd), q, tagStart, tagEnd,
      |Before(body, tagStart)|, |Before(body, tagStart)| + |q| + 2);
  }

  /** The spliced region is `q` on a line of its own, right after the start
      marker. */
  lemma SpliceRegion(body: string, q: string, tagStart: string, tagEnd: string)
    requires WellMarked(body, tagStart, tagEnd)
    ensures PySlice(Splice(body, q, tagStart, tagEnd), |Before(body, tagStart)|, |Before(body, tagStart)| + |q| + 2) == "\n" + q + "\n"
  {
    SpliceLayout(body, q, tagStart, tagEnd);
    FramedSlice(Before(body, tagStart), q, After(body, tagEnd));
  }

  /** A region holding a stripped text on a line of its own reads back as
      that text. */
  lemma RegionAt(r: string, q: string, tagStart: string, tagEnd: string, m: nat, e: nat)
    requires Find(r, tagStart).Some? && Find(r, tagStart).value + |tagStart| == m
    requires Find(r, tagEnd).Some? && Find(r, tagEnd).value == e && m <= e
    requires PySlice(r, m, e) == "\n" + q + "\n"
    requires Stripped(q)
    ensures TagContent(r, tagStart, tagEnd) == Some(q)
  {
    StripLine(q);
  }

  /** The tag's markers meet the conditions of the region lemmas when the tag
      holds no line feed: replacing a tag's region twice is replacing it once. */
  lemma ReplaceTagIdempotent(body: string, package: string, tag: string)
    requires '\n' !in tag
    requires Count(body, StartMarker(tag)) == 1 && Count(body, EndMarker(tag)) == 1
    requires InOrder(body, StartMarker(tag), EndMarker(tag))
    requires !Contains(Strip(package), StartMarker(tag)) && !Contains(Strip(package), EndMarker(tag))
    ensures ReplaceTag(body, package, tag).Success?
    ensures ReplaceTag(ReplaceTag(body, package, tag).value, package, tag) == ReplaceTag(body, package, tag)
  {
    MarkersShape(tag);
    ReplaceIdempotent(body, package, StartMarker(tag), EndMarker(tag));
  }

  /** Reading a tag's region back after replacing it gives the stripped package. */
  lemma ReplaceTagRoundTrip(body: string, package: string, tag: string)
    requires '\n' !in tag
    requires Count(body, StartMarker(tag)) == 1 && Count(body, EndMarker(tag)) == 1
    requires InOrder(body, StartMarker(tag), EndMarker(tag))
    requires !Contains(Strip(package), StartMarker(tag)) && !Contains(Strip(package), EndMarker(tag))
    ensures ReplaceTag(body, package, tag).Success?
    ensures GetTagContent(ReplaceTag(body, package, tag).value, tag) == Success(Strip(package))
  {
    MarkersShape(tag);
    ReplaceRoundTrip(body, package, StartMarker(tag), EndMarker(tag));
    GetTagContentRegion(ReplaceTag(body, package, tag).value, tag);
  }

  /** `short_description`: the SHORT DESCRIPTION region with one trailing
      period removed, if it has one. */
  function ShortDescription(body: string): (r: Result<string>)
    ensures r.Failure? <==> GetTagContent(body, ShortDescriptionTag).Failure?
    ensures r.Success? ==>
      var c := GetTagContent(body, ShortDescriptionTag).value;
      (EndsWith(c, ".") ==> r.value + "." == c) && (!EndsWith(c, ".") ==> r.value == c)
  {
    match GetTagContent(body, ShortDescriptionTag)
    case Failure(msg) => Failure(msg)
    case Success(c) =>
      if EndsWith(c, ".") then
        assert c == c[..|c| - 1] + ".";
        Success(c[..|c| - 1])
      else Success(c)
  }

  // ---------------------------------------------------------------------------
  // Frontmatter

  /** The line that opens and closes the frontmatter. */
  const Fence := "---"

  /** `to_str`: the frontmatter YAML and the body, each stripped, in fences. */
  function ToStr(frontmatterYaml: string, body: string): string
  {
    "---\n" + Strip(frontmatterYaml) + "\n---\n\n" + Strip(body) + "\n"
  }

  /** The string part of `get_frontmatter_and_body`: the content must start with
      `---` and hold another `---` at index 3 or later; the frontmatter text is
      the stripped slice between the fences, the body what follows the second. */
  function GetFrontmatterAndBody(content: string): (r: Result<(string, string)>)
    ensures r.Success? <==> StartsWith(content, Fence) && exists j :: 3 <= j <= |content| && OccursAt(content, Fence, j)
    ensures r.Success? ==> exists e ::
      && 3 <= e && OccursAt(content, Fence, e)
      && (forall j :: 3 <= j < e ==> !OccursAt(content, Fence, j))
      && r.value == (Strip(content[3..e]), content[e + 3..])
  {
    FindFromSome(content, Fence, 3);
    if StartsWith(content, Fence) then
      match FindFrom(content, Fence, 3)
      case Some(e) => Success((Strip(content[3..e]), content[e + 3..]))
      case None => Failure("No frontmatter found in file")
    else Failure("No frontmatter found in file")
  }

  /** Writing a datasheet and reading it back gives the stripped frontmatter and
      the body as written, provided the frontmatter holds no `---`. */
  lemma ToStrRoundTrip(frontmatterYaml: string, body: string)
    requires !Contains(Strip(frontmatterYaml), Fence)
    ensures GetFrontmatterAndBody(ToStr(frontmatterYaml, body))
      == Success((Strip(frontmatterYaml), "\n\n" + Strip(body) + "\n"))
  {
    var q := Strip(frontmatterYaml);
    var tail := "\n\n" + Strip(body) + "\n";
    var content := ToStr(frontmatterYaml, body);
    var e := |q| + 5;
    ToStrLayout(q, Strip(body));
    assert content == Framed(Fence, q, Fence + tail);
    FramedParts(Fence, q, Fence + tail);
    forall j | 3 <= j < e
      ensures !OccursAt(content, Fence, j)
    {
      OccursContains(content, Fence, j);
      if OccursAt(content, Fence, j) {
        OccursAroundLine(Fence, q, Fence + tail, Fence, j);
      }
    }
    OccursShift(content, e, Fence, 0);
    FindFromIsFirst(content, Fence, 3, e);
    StripIsStripped(frontmatterYaml);
    StripPadded("\n", q, "\n");
  }

  /** `to_str` written as a frame: the opening fence, the frontmatter on lines of
      its own, then the closing fence and the body. */
  lemma ToStrLayout(q: string, b: string)
    ensures "---\n" + q + "\n---\n\n" + b + "\n" == Framed(Fence, q, Fence + "\n\n" + b + "\n")
  {
  }

  /** Writing what was read back gives the same file again. */
  lemma ToStrStable(frontmatterYaml: string, body: string)
    requires !Contains(Strip(frontmatterYaml), Fence)
    ensures GetFrontmatterAndBody(ToStr(frontmatterYaml, body)).Success?
    ensures var (fm, b) := GetFrontmatterAndBody(ToStr(frontmatterYaml, body)).value;
      ToStr(fm, b) == ToStr(frontmatterYaml, body)
  {
    ToStrRoundTrip(frontmatterYaml, body);
    StripIdempotent(frontmatterYaml);
    StripIsStripped(body);
    StripPadded("\n\n", Strip(body), "\n");
  }

  // ---------------------------------------------------------------------------
  // Headers and sections

  /** `list(range(1, n + 1))`. */
  function LevelsUpTo(n: int): (levels: seq<int>)
    ensures forall k :: 0 <= k < |levels| ==> 1 <= levels[k] <= n
    ensures n >= 1 ==> |levels| == n && levels[0] == 1
    decreases n
  {
    if n < 1 then [] else LevelsUpTo(n - 1) + [n]
  }

  /** The `__contains_level` test of `get_headers`. */
  predicate ContainsLevel(line: string, levels: seq<int>)
  {
    StartsWith(line, "#") && exists k :: 0 <= k < |levels| && StartsWith(line, Repeat('#', levels[k]))
  }

  /** The lines that pass the level test: only those, and every one of them. */
  function FilterHeaders(lines: seq<string>, levels: seq<int>): (r: seq<string>)
    ensures forall k :: 0 <= k < |r| ==> r[k] in lines && ContainsLevel(r[k], levels)
    ensures forall x :: x in lines && ContainsLevel(x, levels) ==> x in r
    ensures |r| <= |lines|
  {
    if lines == [] then []
    else (if ContainsLevel(lines[0], levels) then [lines[0]] else []) + FilterHeaders(lines[1..], levels)
  }

  /** A single line is kept exactly when it passes the level test. */
  lemma FilterHeadersOne(x: string, levels: seq<int>)
    ensures FilterHeaders([x], levels) == if ContainsLevel(x, levels) then [x] else []
  {
    assert [x][1..] == [];
  }

  /** Filtering works line by line: the kept lines of two pieces, in order,
      are the kept lines of the whole. */
  lemma {:induction false} FilterHeadersAppend(a: seq<string>, b: seq<string>, levels: seq<int>)
    ensures FilterHeaders(a + b, levels) == FilterHeaders(a, levels) + FilterHeaders(b, levels)
    decreases |a|
  {
    if a == [] {
      assert a + b == b;
    } else {
      assert (a + b)[0] == a[0] && (a + b)[1..] == a[1..] + b;
      FilterHeadersAppend(a[1..], b, levels);
    }
  }

  /** `get_headers`: the body's lines that pass the level test, in order. */
  function GetHeaders(body: string, levels: seq<int>): seq<string>
  {
    FilterHeaders(SplitLines(body), levels)
  }

  /** `header.split(" ")[0].count("#")`. */
  function HeaderLevel(header: string): nat
  {
    CountChar(Split(header, " ")[0], '#')
  }

  /** With the levels 1..n that the section lookup passes, the level test
      accepts every line that starts with `#`, whatever its depth; with no
      levels it accepts none. */
  lemma ContainsLevelAnyDepth(line: string, n: int)
    ensures ContainsLevel(line, LevelsUpTo(n)) <==> (n >= 1 && StartsWith(line, "#"))
  {
    if n >= 1 && StartsWith(line, "#") {
      assert Repeat('#', 1) == "#";
      assert StartsWith(line, Repeat('#', LevelsUpTo(n)[0]));
    }
  }

  /** Header line `k` names `header`, up to surrounding whitespace. */
  predicate SameHeader(headers: seq<string>, header: string, k: int)
  {
    0 <= k < |headers| && Strip(headers[k]) == Strip(header)
  }

  /** The first header line at or after `i` that names `header`, or `|headers|`. */
  function FirstSame(headers: seq<string>, header: string, i: nat): (m: nat)
    requires i <= |headers|
    ensures i <= m <= |headers|
    ensures m < |headers| ==> SameHeader(headers, header, m)
    ensures forall k :: i <= k < m ==> !SameHeader(headers, header, k)
    decreases |headers| - i
  {
    if i == |headers| || SameHeader(headers, header, i) then i else FirstSame(headers, header, i + 1)
  }

  /** The scan of `get_section_indices_by_header` from position `i` of the header
      list, with the flag `matched` set once the header has been seen: the first
      header after a match that does not itself match ends the section. */
  function SectionEnd(headers: seq<string>, header: string, i: nat, matched: bool): Option<string>
    requires i <= |headers|
    decreases |headers| - i
  {
    if i == |headers| then None
    else if SameHeader(headers, header, i) then SectionEnd(headers, header, i + 1, true)
    else if matched then Some(headers[i])
    else SectionEnd(headers, header, i + 1, false)
  }

  /** Once the header has been seen, the scan stops at the first line that does
      not name it. */
  lemma {:induction false} SectionEndAfterMatch(headers: seq<string>, header: string, i: nat)
    requires i <= |headers|
    ensures SectionEnd(headers, header, i, true).None? <==>
      forall k :: i <= k < |headers| ==> SameHeader(headers, header, k)
    ensures SectionEnd(headers, header, i, true).Some? ==> exists j ::
      && i <= j < |headers| && !SameHeader(headers, header, j)
      && SectionEnd(headers, header, i, true).value == headers[j]
      && forall k :: i <= k < j ==> SameHeader(headers, header, k)
    decreases |headers| - i
  {
    if i < |headers| {
      SectionEndAfterMatch(headers, header, i + 1);
      if !SameHeader(headers, header, i) {
        assert SectionEnd(headers, header, i, true) == Some(headers[i]);
      } else if SectionEnd(headers, header, i, true).Some? {
        var j :| && i + 1 <= j < |headers| && !SameHeader(headers, header, j)
          && SectionEnd(headers, header, i + 1, true).value == headers[j]
          && forall k :: i + 1 <= k < j ==> SameHeader(headers, header, k);
        assert forall k :: i <= k < j ==> SameHeader(headers, header, k);
      }
    }
  }

  /** Before the header has been seen, the scan skips to the first line that
      names it. */
  lemma {:induction false} SectionEndBeforeMatch(headers: seq<string>, header: string, i: nat)
    requires i <= |headers|
    ensures var m := FirstSame(headers, header, i);
      SectionEnd(headers, header, i, false)
        == if m == |headers| then None else SectionEnd(headers, header, m + 1, true)
    decreases |headers| - i
  {
    if i < |headers| && !SameHeader(headers, header, i) {
      SectionEndBeforeMatch(headers, header, i + 1);
    }
  }

  /** The section's end header stated outright: there is one exactly when a
      line naming the header is followed, somewhere later, by one that does not;
      it is then the first line after the first match that does not match. */
  lemma SectionEndSpec(headers: seq<string>, header: string)
    ensures SectionEnd(headers, header, 0, false).Some? <==>
      exists m, j :: 0 <= m < j < |headers| && SameHeader(headers, header, m) && !SameHeader(headers, header, j)
    ensures SectionEnd(headers, header, 0, false).Some? ==> exists m, j ::
      && 0 <= m < j < |headers| && SameHeader(headers, header, m) && !SameHeader(headers, header, j)
      && (forall k :: 0 <= k < m ==> !SameHeader(headers, header, k))
      && (forall k :: m < k < j ==> SameHeader(headers, header, k))
      && SectionEnd(headers, header, 0, false).value == headers[j]
  {
    SectionEndExists(headers, header);
    if SectionEnd(headers, header, 0, false).Some? {
      SectionEndFound(headers, header);
    }
  }

  /** There is an end header exactly when a match is followed by a line that
      does not match. */
  lemma SectionEndExists(headers: seq<string>, header: string)
    ensures SectionEnd(headers, header, 0, false).Some? <==>
      exists m, j :: 0 <= m < j < |headers| && SameHeader(headers, header, m) && !SameHeader(headers, header, j)
  {
    var m := FirstSame(headers, header, 0);
    SectionEndBeforeMatch(headers, header, 0);
    if m < |headers| {
      SectionEndAfterMatch(headers, header, m + 1);
      if exists m', j :: 0 <= m' < j < |headers| && SameHeader(headers, header, m') && !SameHeader(headers, header, j) {
        var m', j :| 0 <= m' < j < |headers| && SameHeader(headers, header, m') && !SameHeader(headers, header, j);
        assert m <= m' && j != m;
      }
    }
  }

  /** A found end header is the first line after the first match that does
      not match. */
  lemma SectionEndFound(headers: seq<string>, header: string)
    requires SectionEnd(headers, header, 0, false).Some?
    ensures exists m, j ::
      && 0 <= m < j < |headers| && SameHeader(headers, header, m) && !SameHeader(headers, header, j)
      && (forall k :: 0 <= k < m ==> !SameHeader(headers, header, k))
      && (forall k :: m < k < j ==> SameHeader(headers, header, k))
      && SectionEnd(headers, header, 0, false).value == headers[j]
  {
    var m := FirstSame(headers, header, 0);
    SectionEndBeforeMatch(headers, header, 0);
    SectionEndAfterMatch(headers, header, m + 1);
    var j :| && m + 1 <= j < |headers| && !SameHeader(headers, header, j)
      && SectionEnd(headers, header, m + 1, true).value == headers[j]
      && forall k :: m + 1 <= k < j ==> SameHeader(headers, header, k);
  }

  /** The loop of the source with its `next_is_end_section` flag. */
  method FindSectionEnd(headers: seq<string>, header: string) returns (endHeader: Option<string>)
    ensures endHeader == SectionEnd(headers, header, 0, false)
  {
    var nextIsEndSection := false;
    endHeader := None;
    var i := 0;
    while i < |headers|
      invariant 0 <= i <= |headers|
      invariant endHeader == None
      invariant SectionEnd(headers, header, i, nextIsEndSection) == SectionEnd(headers, header, 0, false)
    {
      if Strip(header) == Strip(headers[i]) {
        nextIsEndSection := true;
        i := i + 1;
        continue;
      }
      if nextIsEndSection {
        endHeader := Some(headers[i]);
        break;
      }
      i := i + 1;
    }
  }

  /** `get_section_indices_by_header`. The guard meant to reject a missing
      header compares a boolean with `None` and never fires: a missing header
      gives `body.find(header)`, which is -1, as the start. A found end header
      that is the empty string counts as no end header. */
  method GetSectionIndicesByHeader(body: string, header: string) returns (startIdx: int, endIdx: int)
    ensures startIdx == PyFind(body, header)
    ensures var h := GetHeaders(body, LevelsUpTo(HeaderLevel(header)));
      match SectionEnd(h, header, 0, false)
      case Some(endHeader) =>
        endIdx == if endHeader != [] then PyFind(PySlice(body, startIdx, |body|), endHeader) + startIdx else |body|
      case None => endIdx == |body|
  {
    var level := HeaderLevel(header);
    var headers := GetHeaders(body, LevelsUpTo(level));
    var endHeader := FindSectionEnd(headers, header);
    startIdx := PyFind(body, header);
    if endHeader.Some? && endHeader.value != [] {
      endIdx := PyFind(PySlice(body, startIdx, |body|), endHeader.value) + startIdx;
    } else {
      endIdx := |body|;
    }
  }

  /** A header missing from the body starts its section at index -1, so the
      section is read from the last character of the body. */
  lemma MissingHeaderStart(body: string, header: string)
    requires !Contains(body, header)
    ensures PyFind(body, header) == -1
    ensures |body| > 0 ==> PySlice(body, PyFind(body, header), |body|) == body[|body| - 1..]
  {
  }

  /** `get_section_by_header`: the body between the two indices, as a Python slice. */
  method GetSectionByHeader(body: string, header: string) returns (section: string)
    ensures exists e :: section == PySlice(body, PyFind(body, header), e)
  {
    var s, e := GetSectionIndicesByHeader(body, header);
    section := PySlice(body, s, e);
  }

  // ---------------------------------------------------------------------------
  // The language and domain lines of the DESC-STATS package

  /** The language codes the script handles, with their names. The name for
      "nb" is spelt as src/datasheets/typings.py:35 spells it: its "å" is the
      two characters U+221A U+2022 there. */
  const LanguageNames: map<string, string> := map[
    "da" := "Danish", "en" := "English", "se" := "Swedish",
    "nb" := "Norwegian Bokm\U{221A}\U{2022}l", "nn" := "Norwegian Nynorsk", "de" := "German",
    "fr" := "French", "nl" := "Dutch", "it" := "Italian"]

  function Names(language: seq<string>): (names: seq<string>)
    requires forall i :: 0 <= i < |language| ==> language[i] in LanguageNames
    ensures |names| == |language|
    ensures forall i :: 0 <= i < |language| ==> names[i] == LanguageNames[language[i]]
  {
    if language == [] then [] else [LanguageNames[language[0]]] + Names(language[1..])
  }

  /** Every language code is in the table. */
  predicate AllKnown(language: seq<string>)
  {
    forall i :: 0 <= i < |language| ==> language[i] in LanguageNames
  }

  /** The domains line, when there are domains. */
  function DomainsLine(domains: Option<seq<string>>): string
  {
    if domains.Some? && domains.value != [] then "- **Domains**: " + Join(domains.value, ", ") + "\n" else ""
  }

  /** The language line naming every language, then a domains line when
      there are domains. */
  function LanguagePackage(language: seq<string>, domains: Option<seq<string>>): (p: string)
    requires AllKnown(language)
    ensures p == LanguageLead + Join(Names(language), ", ") + "\n" + DomainsLine(domains)
    ensures StartsWith(p, LanguageLead)
    ensures domains.Some? && domains.value != [] ==>
      EndsWith(p, "- **Domains**: " + Join(domains.value, ", ") + "\n")
    ensures (domains.None? || domains.value == []) ==> EndsWith(p, "\n")
  {
    var named := LanguageLead + Join(Names(language), ", ");
    var package := named + "\n";
    StartsWithMore(LanguageLead, LanguageLead, Join(Names(language), ", "));
    StartsWithMore(named, LanguageLead, "\n");
    EndsWithLast(named, "\n");
    if domains.Some? && domains.value != [] then
      var tail := "- **Domains**: " + Join(domains.value, ", ") + "\n";
      StartsWithMore(package, LanguageLead, tail);
      EndsWithLast(package, tail);
      package + tail
    else
      assert package + "" == package;
      package
  }

  const LanguageLead: string := "\n- **Language**: "

  /** The start of the package `add_descriptive_stats` splices in: a language
      line naming every language, then a domains line when there are domains.
      An unknown language code raises. */
  function LanguageAndDomainLines(language: seq<string>, domains: Option<seq<string>>): (r: Result<string>)
    ensures r.Failure? <==> !AllKnown(language)
    ensures r.Success? ==>
      r.value == LanguageLead + Join(Names(language), ", ") + "\n" + DomainsLine(domains)
    ensures r.Success? ==> StartsWith(r.value, LanguageLead)
    ensures r.Success? && domains.Some? && domains.value != [] ==>
      EndsWith(r.value, "- **Domains**: " + Join(domains.value, ", ") + "\n")
    ensures r.Success? && (domains.None? || domains.value == []) ==> EndsWith(r.value, "\n")
  {
    if !AllKnown(language) then
      Failure("This script only handles the language codes da, en, se, nb, nn, de, fr, nl, it")
    else
      Success(LanguagePackage(language, domains))
  }
}
