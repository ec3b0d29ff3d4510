/** The tables and reference lists of the main README: the license and
    README references, the overview table of all datasets and the table
    grouped by domain, language or license. The datasets arrive as a list
    of entries (the name under `data/`, the loaded datasheet and the token
    count of its descriptive statistics) instead of being read from disk;
    a table is a list of rows, one record per row. The overview and the
    reference lists of the dynaword package are the same code with another
    column name and `human_readable_large_int` as the token renderer, so the
    members here are generic in the renderer's result. */
module Tables {
  import opened Wrappers
  import opened TextOps
  import Datasheet
  import Ranking

  /** A dataset listed in the main README. */
  datatype Entry = Entry(name: string, sheet: Datasheet.DataSheet, tokens: int)

  // ---------------------------------------------------------------------------
  // License references

  const OtherLicense: string := "other"
  const LicenseNameKey: string := "license_name"

  const DefaultLicenseReferences: string :=
    "[CC-0]: https://creativecommons.org/publicdomain/zero/1.0/legalcode.en\n"
    + "[CC-BY-SA 4.0]: https://creativecommons.org/licenses/by-sa/4.0/deed.en\n"
    + "[Apache 2.0]: https://www.apache.org/licenses/LICENSE-2.0\n"

  /** The reference to the license section of a dataset's own datasheet. */
  function LicenseLine(licenseName: string, name: string): string
  {
    "[" + licenseName + "]: ./data/" + name + "/" + name + ".md#license-information\n"
  }

  /** A license name as an f-string prints it: a null value prints `None`. */
  function NameText(licenseName: Option<string>): string
  {
    match licenseName
    case Some(n) => n
    case None => "None"
  }

  /** The references after the given datasets: one line for each dataset
      under the "other" license; such a dataset without a `license_name` key
      in its frontmatter raises `KeyError`, while a null value is printed. */
  function LicenseReferences(entries: seq<Entry>): (r: Result<string>)
    ensures r.Failure? ==> r.error == LicenseNameKey
    decreases |entries|
  {
    if entries == [] then Success(DefaultLicenseReferences)
    else
      var e := entries[|entries| - 1];
      match LicenseReferences(entries[..|entries| - 1])
      case Failure(err) => Failure(err)
      case Success(refs) =>
        if e.sheet.license != OtherLicense then Success(refs)
        else if !e.sheet.hasLicenseNameKey then Failure(LicenseNameKey)
        else Success(refs + LicenseLine(NameText(e.sheet.licenseName), e.name))
  }

  /** A dataset whose license line can be written. */
  predicate Named(e: Entry)
  {
    e.sheet.license == OtherLicense ==> e.sheet.hasLicenseNameKey
  }

  predicate AllNamed(entries: seq<Entry>)
  {
    forall k :: 0 <= k < |entries| ==> Named(entries[k])
  }

  /** The line a dataset contributes: its license line when it is under the
      "other" license and has the key, nothing otherwise. */
  function OwnLine(e: Entry): string
  {
    if e.sheet.license == OtherLicense && e.sheet.hasLicenseNameKey then
      LicenseLine(NameText(e.sheet.licenseName), e.name)
    else []
  }

  /** The license lines of the "other"-licensed datasets, in list order. */
  function OtherLines(entries: seq<Entry>): string
  {
    if entries == [] then [] else OwnLine(entries[0]) + OtherLines(entries[1..])
  }

  lemma {:induction false} OtherLinesSnoc(entries: seq<Entry>, e: Entry)
    ensures OtherLines(entries + [e]) == OtherLines(entries) + OwnLine(e)
    decreases |entries|
  {
    if entries == [] {
      assert entries + [e] == [e];
      assert [e][1..] == [];
    } else {
      var x := entries + [e];
      assert x[0] == entries[0] && x[1..] == entries[1..] + [e];
      OtherLinesSnoc(entries[1..], e);
      calc {
        OtherLines(x);
        OwnLine(entries[0]) + OtherLines(entries[1..] + [e]);
        OwnLine(entries[0]) + (OtherLines(entries[1..]) + OwnLine(e));
        (OwnLine(entries[0]) + OtherLines(entries[1..])) + OwnLine(e);
      }
    }
  }

  /** The lines of a list are those of all but its last dataset, then the
      last one's. */
  lemma OtherLinesLast(entries: seq<Entry>)
    requires entries != []
    ensures OtherLines(entries) == OtherLines(entries[..|entries| - 1]) + OwnLine(entries[|entries| - 1])
  {
    var init, e := entries[..|entries| - 1], entries[|entries| - 1];
    OtherLinesSnoc(init, e);
    assert init + [e] == entries;
  }

  lemma AllNamedLast(entries: seq<Entry>)
    requires entries != []
    ensures AllNamed(entries) <==> AllNamed(entries[..|entries| - 1]) && Named(entries[|entries| - 1])
  {
    var init := entries[..|entries| - 1];
    if AllNamed(entries) {
      assert forall k :: 0 <= k < |init| ==> init[k] == entries[k];
    }
    if AllNamed(init) && Named(entries[|entries| - 1]) {
      forall k | 0 <= k < |entries|
        ensures Named(entries[k])
      {
        if k < |init| {
          assert entries[k] == init[k];
        }
      }
    }
  }

  /** The references succeed exactly when every "other"-licensed dataset has
      a license name, and are then the default references followed by one
      line per such dataset, in list order. */
  lemma {:induction false} LicenseReferencesSpec(entries: seq<Entry>)
    ensures LicenseReferences(entries).Success? <==> AllNamed(entries)
    ensures LicenseReferences(entries).Success? ==>
      LicenseReferences(entries).value == DefaultLicenseReferences + OtherLines(entries)
    decreases |entries|
  {
    if entries != [] {
      var init, e := entries[..|entries| - 1], entries[|entries| - 1];
      LicenseReferencesSpec(init);
      AllNamedLast(entries);
      OtherLinesLast(entries);
      if LicenseReferences(init).Success? && Named(e) {
        var refs := LicenseReferences(init).value;
        if e.sheet.license == OtherLicense {
          assert LicenseReferences(entries) == Success(refs + OwnLine(e));
        } else {
          assert OwnLine(e) == [] && refs + [] == refs;
        }
      }
    } else {
      assert AllNamed(entries);
    }
  }

  /** A failure among the first datasets is the failure of the whole list. */
  lemma {:induction false} LicenseReferencesFails(entries: seq<Entry>, m: nat)
    requires m <= |entries| && LicenseReferences(entries[..m]).Failure?
    ensures LicenseReferences(entries) == Failure(LicenseNameKey)
    decreases |entries|
  {
    if m < |entries| {
      var init := entries[..|entries| - 1];
      assert init[..m] == entries[..m];
      LicenseReferencesFails(init, m);
    } else {
      assert entries[..m] == entries;
    }
  }

  /** `create_license_references`. */
  method CreateLicenseReferences(entries: seq<Entry>) returns (r: Result<string>)
    ensures r == LicenseReferences(entries)
  {
    var refs := DefaultLicenseReferences;
    var i := 0;
    while i < |entries|
      invariant 0 <= i <= |entries|
      invariant LicenseReferences(entries[..i]) == Success(refs)
    {
      var e := entries[i];
      assert entries[..i + 1][..i] == entries[..i] && entries[..i + 1][i] == e;
      if e.sheet.license == OtherLicense {
        if !e.sheet.hasLicenseNameKey {
          LicenseReferencesFails(entries, i + 1);
          return Failure(LicenseNameKey);
        }
        refs := refs + LicenseLine(NameText(e.sheet.licenseName), e.name);
      }
      i := i + 1;
    }
    assert entries[..i] == entries;
    r := Success(refs);
  }

  // ---------------------------------------------------------------------------
  // README references

  /** The reference to a dataset's datasheet, without its line feed. */
  function ReadmeEntry(name: string): string
  {
    "[" + name + "]: data/" + name + "/" + name + ".md"
  }

  /** The references of the given datasets, one line each. */
  function ReadmeReferences(names: seq<string>): string
  {
    if names == [] then [] else ReadmeReferences(names[..|names| - 1]) + ReadmeEntry(names[|names| - 1]) + "\n"
  }

  /** `create_dataset_readme_references`. */
  method CreateDatasetReadmeReferences(names: seq<string>) returns (refs: string)
    ensures refs == ReadmeReferences(names)
  {
    refs := [];
    var i := 0;
    while i < |names|
      invariant 0 <= i <= |names|
      invariant refs == ReadmeReferences(names[..i])
    {
      assert names[..i + 1][..i] == names[..i];
      refs := refs + ReadmeEntry(names[i]) + "\n";
      i := i + 1;
    }
    assert names[..i] == names;
  }

  /** The references read from the front: the first dataset's line, then the
      rest. */
  lemma {:induction false} ReadmeReferencesCons(names: seq<string>)
    requires names != []
    ensures ReadmeReferences(names) == ReadmeEntry(names[0]) + "\n" + ReadmeReferences(names[1..])
    decreases |names|
  {
    var init, last := names[..|names| - 1], names[|names| - 1];
    var tail := names[1..];
    var c := ReadmeEntry(last) + "\n";
    ReadmeReferencesSnoc(names);
    if |names| == 1 {
      assert init == [] && tail == [];
    } else {
      ReadmeReferencesCons(init);
      ReadmeReferencesSnoc(tail);
      assert init[0] == names[0];
      assert tail[..|tail| - 1] == init[1..] && tail[|tail| - 1] == last;
      ConcatAssoc(ReadmeEntry(names[0]) + "\n", ReadmeReferences(init[1..]), c);
    }
  }

  /** The references of all but the last dataset, then the last one's line. */
  lemma ReadmeReferencesSnoc(names: seq<string>)
    requires names != []
    ensures ReadmeReferences(names)
      == ReadmeReferences(names[..|names| - 1]) + (ReadmeEntry(names[|names| - 1]) + "\n")
  {
  }

  /** Splitting after a line free of line feeds. */
  lemma SplitAfterLine(line: string, rest: string)
    requires '\n' !in line
    ensures Split(line + "\n" + rest, "\n") == [line] + Split(rest, "\n")
  {
    var s := line + "\n" + rest;
    assert OccursAt(s, "\n", |line|);
    forall j | 0 <= j < |line|
      ensures !OccursAt(s, "\n", j)
    {
      assert s[j] == line[j];
    }
    FindIsFirst(s, "\n", |line|);
    assert s[..|line|] == line && s[|line| + 1..] == rest;
  }

  /** The references hold one line per dataset, in list order, and nothing
      else: split at line feeds they give each dataset's reference and a last,
      empty piece. */
  lemma {:induction false} ReadmeReferencesLines(names: seq<string>)
    requires forall k :: 0 <= k < |names| ==> '\n' !in names[k]
    ensures Split(ReadmeReferences(names), "\n") == EntryLines(names) + [""]
    decreases |names|
  {
    if names == [] {
      assert Find("", "\n") == None;
    } else {
      var head, tail := ReadmeEntry(names[0]), names[1..];
      ReadmeReferencesCons(names);
      ReadmeReferencesLines(tail);
      assert '\n' !in head;
      SplitAfterLine(head, ReadmeReferences(tail));
      assert EntryLines(names) + [""] == [head] + (EntryLines(tail) + [""]);
    }
  }

  /** Each dataset's reference, in list order. */
  function EntryLines(names: seq<string>): (lines: seq<string>)
    ensures |lines| == |names|
    ensures forall k :: 0 <= k < |names| ==> lines[k] == ReadmeEntry(names[k])
  {
    if names == [] then [] else [ReadmeEntry(names[0])] + EntryLines(names[1..])
  }

  // ---------------------------------------------------------------------------
  // Overview table

  /** A row of the overview while it is collected: `sources` is the bracketed
      name that links to the reference. */
  datatype OverviewRow = OverviewRow(
    source: string,
    sources: string,
    description: string,
    domain: string,
    tokens: int,
    license: string)

  /** The first domain of a datasheet, or nothing. */
  function MainDomain(sheet: Datasheet.DataSheet): string
  {
    match sheet.domains
    case Some(domains) => if domains != [] then domains[0] else []
    case None => []
  }

  /** The license cell: the license name in brackets, `None` printed as such. */
  function LicenseCell(sheet: Datasheet.DataSheet): string
  {
    "[" + NameText(sheet.licenseName) + "]"
  }

  /** The row of one dataset; reading its short description may raise. */
  function RowOf(e: Entry): Result<OverviewRow>
  {
    match Datasheet.ShortDescription(e.sheet.body)
    case Failure(err) => Failure(err)
    case Success(d) => Success(OverviewRow(e.name, "[" + e.name + "]", d, MainDomain(e.sheet), e.tokens, LicenseCell(e.sheet)))
  }

  /** The outcome of each dataset's row. */
  function RowResults(entries: seq<Entry>): (rs: seq<Result<OverviewRow>>)
    ensures |rs| == |entries|
  {
    seq(|entries|, k requires 0 <= k < |entries| => RowOf(entries[k]))
  }

  /** The rows the loop of `create_overview_table` collects. */
  function OverviewRows(entries: seq<Entry>): Result<seq<OverviewRow>>
  {
    Collect(RowResults(entries))
  }

  /** Every dataset's description can be read. */
  predicate AllReadable(entries: seq<Entry>)
  {
    forall k :: 0 <= k < |entries| ==> RowOf(entries[k]).Success?
  }

  /** The rows are collected exactly when every description can be read, and
      then there is one per dataset, in list order. */
  lemma OverviewRowsSpec(entries: seq<Entry>)
    ensures OverviewRows(entries).Success? <==> AllReadable(entries)
    ensures OverviewRows(entries).Success? ==>
      var rows := OverviewRows(entries).value;
      |rows| == |entries| && forall k :: 0 <= k < |entries| ==> RowOf(entries[k]) == Success(rows[k])
  {
    var rs := RowResults(entries);
    CollectSpec(rs);
    assert AllReadable(entries) == AllSucceed(rs) by {
      forall k | 0 <= k < |entries|
        ensures rs[k] == RowOf(entries[k])
      {
      }
    }
  }

  function RowTokens(row: OverviewRow): int
  {
    row.tokens
  }

  /** `sum(table["N. Tokens"])`. */
  function SumTokens(rows: seq<OverviewRow>): int
  {
    if rows == [] then 0 else SumTokens(rows[..|rows| - 1]) + rows[|rows| - 1].tokens
  }

  /** The sum of the datasets' token counts. */
  function TotalTokens(entries: seq<Entry>): int
  {
    if entries == [] then 0 else TotalTokens(entries[..|entries| - 1]) + entries[|entries| - 1].tokens
  }

  lemma {:induction false} SumTokensMatch(rows: seq<OverviewRow>, entries: seq<Entry>)
    requires |rows| == |entries| && forall k :: 0 <= k < |rows| ==> rows[k].tokens == entries[k].tokens
    ensures SumTokens(rows) == TotalTokens(entries)
    decreases |rows|
  {
    if rows != [] {
      SumTokensMatch(rows[..|rows| - 1], entries[..|entries| - 1]);
    }
  }

  /** The total of the collected rows is the total of the datasets. */
  lemma SumTokensOfRows(entries: seq<Entry>)
    requires OverviewRows(entries).Success?
    ensures SumTokens(OverviewRows(entries).value) == TotalTokens(entries)
  {
    OverviewRowsSpec(entries);
    var rows := OverviewRows(entries).value;
    forall k | 0 <= k < |rows|
      ensures rows[k].tokens == entries[k].tokens
    {
      assert RowOf(entries[k]) == Success(rows[k]);
    }
    SumTokensMatch(rows, entries);
  }

  const TotalLabel: string := "**Total**"

  /** A token count as written, or as rendered for reading. */
  datatype TokenCell<H> = Count(n: int) | Readable(text: H)

  /** The N. Tokens cell: rendered only when readable tokens are asked for. */
  function TokenCellOf<H>(n: int, addReadableTokens: bool, readable: int -> H): (c: TokenCell<H>)
    ensures addReadableTokens <==> c.Readable?
    ensures c.Count? ==> c.n == n
    ensures c.Readable? ==> c.text == readable(n)
  {
    if addReadableTokens then Readable(readable(n)) else Count(n)
  }

  /** A row of the finished overview; the linked-name column is gone. */
  datatype OverviewLine<H> = OverviewLine(
    source: string,
    description: string,
    domain: string,
    tokens: TokenCell<H>,
    license: string)

  /** The columns of a finished row: the Source column takes the linked
      names when references are added. */
  function Settle<H>(row: OverviewRow, addReadableTokens: bool, addReadmeReferences: bool, readable: int -> H): (line: OverviewLine<H>)
    ensures addReadmeReferences ==> line.source == row.sources
    ensures !addReadmeReferences ==> line.source == row.source
    ensures line.tokens == TokenCellOf(row.tokens, addReadableTokens, readable)
    ensures line.description == row.description && line.domain == row.domain && line.license == row.license
  {
    OverviewLine(
      if addReadmeReferences then row.sources else row.source,
      row.description, row.domain,
      TokenCellOf(row.tokens, addReadableTokens, readable),
      row.license)
  }

  /** The Total row. */
  function TotalRow(total: int): OverviewRow
  {
    OverviewRow(TotalLabel, TotalLabel, [], [], total, [])
  }

  /** The collected rows sorted by token count, the Total row added, and the
      columns settled. */
  function Overview<H>(rows: seq<OverviewRow>, addReadableTokens: bool, addTotalRow: bool, addReadmeReferences: bool, readable: int -> H): seq<OverviewLine<H>>
  {
    var all := Ranking.SortDesc(rows, RowTokens) + (if addTotalRow then [TotalRow(SumTokens(rows))] else []);
    seq(|all|, k requires 0 <= k < |all| => Settle(all[k], addReadableTokens, addReadmeReferences, readable))
  }

  /** `create_overview_table`. */
  function OverviewTable<H>(entries: seq<Entry>, addReadableTokens: bool, addTotalRow: bool, addReadmeReferences: bool, readable: int -> H): Result<seq<OverviewLine<H>>>
  {
    match OverviewRows(entries)
    case Failure(err) => Failure(err)
    case Success(rows) => Success(Overview(rows, addReadableTokens, addTotalRow, addReadmeReferences, readable))
  }

  /** The loop of `create_overview_table`, then sorting, the Total row and
      the columns. */
  method CreateOverviewTable<H>(entries: seq<Entry>, addReadableTokens: bool, addTotalRow: bool, addReadmeReferences: bool, readable: int -> H)
    returns (r: Result<seq<OverviewLine<H>>>)
    ensures r == OverviewTable(entries, addReadableTokens, addTotalRow, addReadmeReferences, readable)
  {
    var rs := RowResults(entries);
    var rows: seq<OverviewRow> := [];
    var i := 0;
    while i < |entries|
      invariant 0 <= i <= |entries|
      invariant Collect(rs[..i]) == Success(rows)
    {
      var outcome := RowOf(entries[i]);
      assert outcome == rs[i];
      CollectStep(rs, i);
      match outcome
      case Failure(err) =>
        CollectFails(rs, i + 1);
        return Failure(err);
      case Success(row) =>
        rows := rows + [row];
      i := i + 1;
    }
    assert rs[..i] == rs;
    r := Success(Overview(rows, addReadableTokens, addTotalRow, addReadmeReferences, readable));
  }

  /** The lines of the overview, before their columns are settled. */
  lemma OverviewLines<H>(rows: seq<OverviewRow>, addReadableTokens: bool, addTotalRow: bool, addReadmeReferences: bool, readable: int -> H)
    ensures var t := Overview(rows, addReadableTokens, addTotalRow, addReadmeReferences, readable);
      var ranked := Ranking.SortDesc(rows, RowTokens);
      && |t| == |rows| + (if addTotalRow then 1 else 0)
      && (forall k :: 0 <= k < |rows| ==> t[k] == Settle(ranked[k], addReadableTokens, addReadmeReferences, readable))
      && (addTotalRow ==> t[|rows|] == Settle(TotalRow(SumTokens(rows)), addReadableTokens, addReadmeReferences, readable))
  {
    var ranked := Ranking.SortDesc(rows, RowTokens);
    var all := ranked + (if addTotalRow then [TotalRow(SumTokens(rows))] else []);
    assert forall k :: 0 <= k < |rows| ==> all[k] == ranked[k];
  }

  /** The overview holds the collected rows ordered by token count, largest
      first (rows are neither lost nor added), followed by the Total row with
      the sum of the rows' token counts when it is asked for. */
  lemma OverviewRanked<H>(rows: seq<OverviewRow>, addReadableTokens: bool, addTotalRow: bool, addReadmeReferences: bool, readable: int -> H)
    ensures var t := Overview(rows, addReadableTokens, addTotalRow, addReadmeReferences, readable);
      && |t| == |rows| + (if addTotalRow then 1 else 0)
      && (exists ranked: seq<OverviewRow> ::
            && |ranked| == |rows|
            && Ranking.Descending(ranked, RowTokens)
            && multiset(ranked) == multiset(rows)
            && forall k :: 0 <= k < |rows| ==> t[k] == Settle(ranked[k], addReadableTokens, addReadmeReferences, readable))
      && (addTotalRow ==> t[|rows|] == Settle(TotalRow(SumTokens(rows)), addReadableTokens, addReadmeReferences, readable))
  {
    var ranked := Ranking.SortDesc(rows, RowTokens);
    Ranking.SortDescSpec(rows, RowTokens);
    OverviewLines(rows, addReadableTokens, addTotalRow, addReadmeReferences, readable);
  }

  /** For the datasets: their rows by token count, then the Total row with
      the sum of all their token counts. */
  lemma OverviewSpec<H>(entries: seq<Entry>, addReadableTokens: bool, addTotalRow: bool, addReadmeReferences: bool, readable: int -> H)
    requires AllReadable(entries)
    ensures OverviewTable(entries, addReadableTokens, addTotalRow, addReadmeReferences, readable).Success?
    ensures var rows := OverviewRows(entries).value;
      && |rows| == |entries|
      && OverviewTable(entries, addReadableTokens, addTotalRow, addReadmeReferences, readable).value
        == Overview(rows, addReadableTokens, addTotalRow, addReadmeReferences, readable)
      && SumTokens(rows) == TotalTokens(entries)
  {
    OverviewRowsSpec(entries);
    SumTokensOfRows(entries);
  }

  /** The Total row: its label in the Source column, the other text cells
      empty, and the sum of the token counts. */
  lemma TotalRowCells<H>(total: int, addReadableTokens: bool, addReadmeReferences: bool, readable: int -> H)
    ensures Settle(TotalRow(total), addReadableTokens, addReadmeReferences, readable)
      == OverviewLine(TotalLabel, [], [], TokenCellOf(total, addReadableTokens, readable), [])
  {
  }

  // ---------------------------------------------------------------------------
  // Grouped table

  const AttributionRequired: string := "Other (Attribution required)"
  const NoAttributionRequired: string := "Other (No attribution required)"

  /** The license names that are shown under a common heading. */
  const NonStandardLicenseNames: map<string, string> := map[
    "Apache 2.0" := AttributionRequired,
    "NLOD 2.0" := AttributionRequired,
    "DanNet 1.0" := AttributionRequired,
    "Gutenberg" := AttributionRequired,
    "Danish Copyright Law" := NoAttributionRequired]

  function NoLicenseNameError(prettyName: string): string
  {
    "Datasheet " + prettyName + " has no license name specified in the frontmatter."
  }

  /** `_get_normalized_license`: a missing license name raises; the five
      non-standard names are replaced by their heading; any other name is
      kept. */
  function GetNormalizedLicense(sheet: Datasheet.DataSheet): (r: Result<string>)
    ensures sheet.licenseName.None? <==> r.Failure?
    ensures r.Failure? ==> r.error == NoLicenseNameError(sheet.prettyName)
    ensures r.Success? && sheet.licenseName.value !in NonStandardLicenseNames ==> r.value == sheet.licenseName.value
    ensures r.Success? && sheet.licenseName.value in NonStandardLicenseNames ==>
      r.value in {AttributionRequired, NoAttributionRequired}
      && (r.value == NoAttributionRequired <==> sheet.licenseName.value == "Danish Copyright Law")
  {
    match sheet.licenseName
    case None => Failure(NoLicenseNameError(sheet.prettyName))
    case Some(n) => if n in NonStandardLicenseNames then Success(NonStandardLicenseNames[n]) else Success(n)
  }

  /** Normalising twice is normalising once: a heading is not itself one of
      the names that are replaced. */
  lemma NormalizedLicenseStable(sheet: Datasheet.DataSheet)
    requires GetNormalizedLicense(sheet).Success?
    ensures var n := GetNormalizedLicense(sheet).value;
      GetNormalizedLicense(sheet.(licenseName := Some(n))) == Success(n)
  {
  }

  const DomainFeature: string := "Domain"
  const LanguageFeature: string := "Language"
  const LicenseFeature: string := "License"
  const NoDomain: string := "N/A"
  const LanguageSeparator: string := ", "

  /** `_get_feature_by_string`: the value a datasheet is grouped under. */
  function GetFeatureByString(sheet: Datasheet.DataSheet, feature: string): (r: Result<string>)
    ensures feature == DomainFeature ==>
      r == Success(if sheet.domains.Some? && sheet.domains.value != [] then sheet.domains.value[0] else NoDomain)
    ensures feature == LanguageFeature ==> r == Success(Join(sheet.language, LanguageSeparator))
    ensures feature == LicenseFeature ==> r == GetNormalizedLicense(sheet)
    ensures feature !in {DomainFeature, LanguageFeature, LicenseFeature} ==> r == Failure("Unknown feature: " + feature)
  {
    if feature == DomainFeature then
      Success(if sheet.domains.Some? && sheet.domains.value != [] then sheet.domains.value[0] else NoDomain)
    else if feature == LanguageFeature then Success(Join(sheet.language, LanguageSeparator))
    else if feature == LicenseFeature then GetNormalizedLicense(sheet)
    else Failure("Unknown feature: " + feature)
  }

  /** One dataset in the grouped table's lists: its linked name, the value it
      is grouped under and its token count. */
  datatype Record = Record(source: string, key: string, tokens: int)

  function RecordOf(e: Entry, group: string): Result<Record>
  {
    match GetFeatureByString(e.sheet, group)
    case Failure(err) => Failure(err)
    case Success(f) => Success(Record("[" + e.name + "]", f, e.tokens))
  }

  function RecordResults(entries: seq<Entry>, group: string): (rs: seq<Result<Record>>)
    ensures |rs| == |entries|
  {
    seq(|entries|, k requires 0 <= k < |entries| => RecordOf(entries[k], group))
  }

  /** The records the loop of `create_grouped_table` collects. */
  function Records(entries: seq<Entry>, group: string): Result<seq<Record>>
  {
    Collect(RecordResults(entries, group))
  }

  function RecordTokens(records: seq<Record>): int
  {
    if records == [] then 0 else RecordTokens(records[..|records| - 1]) + records[|records| - 1].tokens
  }

  /** One row of the grouped table while it is aggregated: the grouped value,
      the linked names of its datasets and their summed token count. */
  datatype Group = Group(key: string, sources: seq<string>, tokens: int)

  /** The group holding `key`, if any. */
  function GroupFor(groups: seq<Group>, key: string): Option<Group>
  {
    if groups == [] then None
    else if groups[0].key == key then Some(groups[0])
    else GroupFor(groups[1..], key)
  }

  /** One record added to the groups: to its key's group, or as a new group
      at the end. */
  function AddRecord(groups: seq<Group>, r: Record): seq<Group>
  {
    if groups == [] then [Group(r.key, [r.source], r.tokens)]
    else if groups[0].key == r.key then [Group(r.key, groups[0].sources + [r.source], groups[0].tokens + r.tokens)] + groups[1..]
    else [groups[0]] + AddRecord(groups[1..], r)
  }

  /** `groupby(group).agg(...)`: one group per grouped value. */
  function GroupBy(records: seq<Record>): seq<Group>
  {
    if records == [] then [] else AddRecord(GroupBy(records[..|records| - 1]), records[|records| - 1])
  }

  /** The records with a given key, in order. */
  function With(records: seq<Record>, key: string): seq<Record>
  {
    if records == [] then []
    else With(records[..|records| - 1], key) + (if records[|records| - 1].key == key then [records[|records| - 1]] else [])
  }

  function SourcesOf(records: seq<Record>): seq<string>
  {
    if records == [] then [] else SourcesOf(records[..|records| - 1]) + [records[|records| - 1].source]
  }

  /** Adding a record changes its own key's group and no other. */
  lemma {:induction false} AddRecordFor(groups: seq<Group>, r: Record, key: string)
    ensures GroupFor(AddRecord(groups, r), key) ==
      if key != r.key then GroupFor(groups, key)
      else match GroupFor(groups, key)
        case None => Some(Group(key, [r.source], r.tokens))
        case Some(g) => Some(Group(key, g.sources + [r.source], g.tokens + r.tokens))
    decreases |groups|
  {
    if groups != [] && groups[0].key != r.key {
      AddRecordFor(groups[1..], r, key);
    }
  }

  /** Each grouped value's group gathers exactly the records with that value:
      their linked names in order and the sum of their token counts. A value
      no record has gets no group. */
  lemma {:induction false} GroupBySpec(records: seq<Record>, key: string)
    ensures GroupFor(GroupBy(records), key) ==
      if With(records, key) == [] then None
      else Some(Group(key, SourcesOf(With(records, key)), RecordTokens(With(records, key))))
    decreases |records|
  {
    if records != [] {
      var init, r := records[..|records| - 1], records[|records| - 1];
      var groups, w := GroupBy(init), With(init, key);
      assert GroupBy(records) == AddRecord(groups, r);
      GroupBySpec(init, key);
      AddRecordFor(groups, r, key);
      if r.key == key {
        var wr := w + [r];
        assert With(records, key) == wr;
        assert wr[..|w|] == w && wr[|w|] == r;
        assert SourcesOf(wr) == SourcesOf(w) + [r.source];
        assert RecordTokens(wr) == RecordTokens(w) + r.tokens;
        if w == [] {
          assert SourcesOf(wr) == [r.source] && RecordTokens(wr) == r.tokens;
        }
      } else {
        assert With(records, key) == w;
      }
    }
  }

  /** The grouped values in the order of the groups. */
  function Keys(groups: seq<Group>): seq<string>
  {
    if groups == [] then [] else [groups[0].key] + Keys(groups[1..])
  }

  lemma {:induction false} AddRecordKeys(groups: seq<Group>, r: Record)
    ensures Keys(AddRecord(groups, r)) == if r.key in Keys(groups) then Keys(groups) else Keys(groups) + [r.key]
    decreases |groups|
  {
    if groups != [] && groups[0].key != r.key {
      AddRecordKeys(groups[1..], r);
    }
  }

  /** No two rows of the grouped table share a grouped value. */
  lemma {:induction false} GroupByDistinct(records: seq<Record>)
    ensures forall i, j :: 0 <= i < j < |Keys(GroupBy(records))| ==> Keys(GroupBy(records))[i] != Keys(GroupBy(records))[j]
    decreases |records|
  {
    if records != [] {
      var init, r := records[..|records| - 1], records[|records| - 1];
      GroupByDistinct(init);
      AddRecordKeys(GroupBy(init), r);
    }
  }

  /** The group found for a key is one of the groups and has that key. */
  lemma {:induction false} GroupForIn(groups: seq<Group>, key: string)
    requires GroupFor(groups, key).Some?
    ensures GroupFor(groups, key).value.key == key
    ensures exists k :: 0 <= k < |groups| && groups[k] == GroupFor(groups, key).value
    decreases |groups|
  {
    if groups[0].key != key {
      GroupForIn(groups[1..], key);
      var k :| 0 <= k < |groups[1..]| && groups[1..][k] == GroupFor(groups, key).value;
      assert groups[k + 1] == groups[1..][k];
    }
  }

  /** With distinct keys, each group is the one found for its key. */
  lemma {:induction false} GroupForDistinct(groups: seq<Group>, k: nat)
    requires k < |groups|
    requires forall i, j :: 0 <= i < j < |Keys(groups)| ==> Keys(groups)[i] != Keys(groups)[j]
    ensures GroupFor(groups, groups[k].key) == Some(groups[k])
    decreases |groups|
  {
    KeysLength(groups);
    if k > 0 {
      KeysAt(groups, 0);
      KeysAt(groups, k);
      assert groups[0].key != groups[k].key;
      KeysTail(groups);
      GroupForDistinct(groups[1..], k - 1);
    }
  }

  lemma {:induction false} KeysLength(groups: seq<Group>)
    ensures |Keys(groups)| == |groups|
    decreases |groups|
  {
    if groups != [] {
      KeysLength(groups[1..]);
    }
  }

  lemma {:induction false} KeysAt(groups: seq<Group>, k: nat)
    requires k < |groups|
    ensures |Keys(groups)| == |groups| && Keys(groups)[k] == groups[k].key
    decreases |groups|
  {
    KeysLength(groups);
    if k > 0 {
      KeysAt(groups[1..], k - 1);
    }
  }

  lemma KeysTail(groups: seq<Group>)
    requires groups != []
    ensures Keys(groups[1..]) == Keys(groups)[1..]
  {
  }

  function GroupTokens(g: Group): int
  {
    g.tokens
  }

  /** What dropping row 0 from an empty index raises. */
  const ReindexError: string := "[0] not found in axis"

  /** The first row moved to the bottom: the reindexing that puts the Total
      row, the largest one, last. An empty table has no row 0 to drop, and
      the reindexing fails. */
  function MoveFirstLast<T>(s: seq<T>): (r: Option<seq<T>>)
    ensures r.None? <==> s == []
    ensures r.Some? ==> |r.value| == |s| && r.value[|s| - 1] == s[0] && r.value[..|s| - 1] == s[1..]
  {
    if s == [] then None else Some(s[1..] + [s[0]])
  }

  /** A row of the finished grouped table. */
  datatype GroupLine<H> = GroupLine(key: string, sources: string, tokens: TokenCell<H>)

  function LineOf<H>(g: Group, addReadableTokens: bool, readable: int -> H): GroupLine<H>
  {
    GroupLine(g.key, Join(g.sources, LanguageSeparator), TokenCellOf(g.tokens, addReadableTokens, readable))
  }

  /** The records grouped, sorted by token count and the first row moved to
      the bottom; nothing when there is no group to move. */
  function GroupTable<H>(records: seq<Record>, addReadableTokens: bool, readable: int -> H): Option<seq<GroupLine<H>>>
  {
    var moved := MoveFirstLast(Ranking.SortDesc(GroupBy(records), GroupTokens));
    if moved.None? then None
    else Some(seq(|moved.value|, k requires 0 <= k < |moved.value| => LineOf(moved.value[k], addReadableTokens, readable)))
  }

  /** Grouping yields no group exactly when there is no record. */
  lemma GroupByEmpty(records: seq<Record>)
    ensures GroupBy(records) == [] <==> records == []
  {
    if records != [] {
      var g, r := GroupBy(records[..|records| - 1]), records[|records| - 1];
      assert AddRecord(g, r)[0] == (if g == [] then Group(r.key, [r.source], r.tokens) else AddRecord(g, r)[0]);
    }
  }

  /** The Total record: no linked name, the label as grouped value and the
      sum of the collected token counts. */
  function TotalRecord(records: seq<Record>): Record
  {
    Record([], TotalLabel, RecordTokens(records))
  }

  function WithTotal(records: seq<Record>, addTotalRow: bool): seq<Record>
  {
    if addTotalRow then records + [TotalRecord(records)] else records
  }

  /** `create_grouped_table`. */
  function GroupedTable<H>(entries: seq<Entry>, group: string, addReadableTokens: bool, addTotalRow: bool, readable: int -> H): Result<seq<GroupLine<H>>>
  {
    match Records(entries, group)
    case Failure(err) => Failure(err)
    case Success(records) =>
      var t := GroupTable(WithTotal(records, addTotalRow), addReadableTokens, readable);
      if t.None? then Failure(ReindexError) else Success(t.value)
  }

  /** With every feature found, the grouped table fails exactly when there
      is no dataset and no Total row: the reindexing finds no row 0. */
  lemma GroupedTableEmpty<H>(entries: seq<Entry>, group: string, addReadableTokens: bool, addTotalRow: bool, readable: int -> H)
    requires Records(entries, group).Success?
    ensures GroupedTable(entries, group, addReadableTokens, addTotalRow, readable).Failure? <==> entries == [] && !addTotalRow
    ensures GroupedTable(entries, group, addReadableTokens, addTotalRow, readable).Failure? ==>
      GroupedTable(entries, group, addReadableTokens, addTotalRow, readable).error == ReindexError
  {
    var records := Records(entries, group).value;
    var all := WithTotal(records, addTotalRow);
    RecordsSpec(entries, group);
    GroupByEmpty(all);
    Ranking.SortDescSpec(GroupBy(all), GroupTokens);
  }

  /** The loop of `create_grouped_table`, the Total record, then grouping,
      sorting and the reindexing. */
  method CreateGroupedTable<H>(entries: seq<Entry>, group: string, addReadableTokens: bool, addTotalRow: bool, readable: int -> H)
    returns (r: Result<seq<GroupLine<H>>>)
    ensures r == GroupedTable(entries, group, addReadableTokens, addTotalRow, readable)
  {
    var rs := RecordResults(entries, group);
    var records: seq<Record> := [];
    var i := 0;
    while i < |entries|
      invariant 0 <= i <= |entries|
      invariant Collect(rs[..i]) == Success(records)
    {
      var outcome := RecordOf(entries[i], group);
      assert outcome == rs[i];
      CollectStep(rs, i);
      match outcome
      case Failure(err) =>
        CollectFails(rs, i + 1);
        return Failure(err);
      case Success(record) =>
        records := records + [record];
      i := i + 1;
    }
    assert rs[..i] == rs;
    if addTotalRow {
      records := records + [TotalRecord(records)];
    }
    var t := GroupTable(records, addReadableTokens, readable);
    if t.None? {
      return Failure(ReindexError);
    }
    r := Success(t.value);
  }

  /** The grouped table holds every group once, ordered by token count,
      largest first, except that the largest is moved to the bottom. */
  lemma GroupTableRanked<H>(records: seq<Record>, addReadableTokens: bool, readable: int -> H)
    ensures GroupTable(records, addReadableTokens, readable).None? <==> records == []
    ensures var t := GroupTable(records, addReadableTokens, readable);
      t.Some? ==> exists ranked: seq<Group> ::
        && Ranking.Descending(ranked, GroupTokens)
        && multiset(ranked) == multiset(GroupBy(records))
        && |t.value| == |ranked|
        && forall k :: 0 <= k < |t.value| ==> t.value[k] == LineOf(MoveFirstLast(ranked).value[k], addReadableTokens, readable)
  {
    GroupByEmpty(records);
    Ranking.SortDescSpec(GroupBy(records), GroupTokens);
  }

  /** When the Total row outweighs every group of datasets, the reindexing
      puts it last: no linked names and the sum of all token counts. */
  lemma GroupedTotalLast<H>(records: seq<Record>, addReadableTokens: bool, readable: int -> H)
    requires With(records, TotalLabel) == []
    requires forall key :: With(records, key) != [] ==> RecordTokens(With(records, key)) < RecordTokens(records)
    ensures var t := GroupTable(WithTotal(records, true), addReadableTokens, readable);
      t.Some? && t.value != [] && t.value[|t.value| - 1] == GroupLine(TotalLabel, [], TokenCellOf(RecordTokens(records), addReadableTokens, readable))
  {
    var total := TotalRecord(records);
    var all := records + [total];
    var groups := GroupBy(all);
    var top := Group(TotalLabel, [[]], RecordTokens(records));
    assert all[..|all| - 1] == records;
    assert With(all, TotalLabel) == [total];
    assert [total][..0] == [];
    assert SourcesOf([total]) == [[]];
    assert RecordTokens([total]) == RecordTokens(records);
    GroupBySpec(all, TotalLabel);
    assert GroupFor(groups, TotalLabel) == Some(top);
    GroupForIn(groups, TotalLabel);
    GroupByDistinct(all);
    forall k | 0 <= k < |groups| && groups[k] != top
      ensures GroupTokens(groups[k]) < GroupTokens(top)
    {
      var key := groups[k].key;
      GroupForDistinct(groups, k);
      assert key != TotalLabel;
      GroupBySpec(all, key);
      assert With(all, key) == With(records, key);
    }
    Ranking.TopComesFirst(groups, GroupTokens, top);
    assert Join([[]], LanguageSeparator) == [];
  }

  /** The collected token counts are the datasets' token counts. */
  lemma {:induction false} RecordTokensMatch(records: seq<Record>, entries: seq<Entry>)
    requires |records| == |entries| && forall k :: 0 <= k < |records| ==> records[k].tokens == entries[k].tokens
    ensures RecordTokens(records) == TotalTokens(entries)
    decreases |records|
  {
    if records != [] {
      RecordTokensMatch(records[..|records| - 1], entries[..|entries| - 1]);
    }
  }

  /** The records are collected exactly when every dataset has a value to be
      grouped under; then there is one per dataset, in list order, and the
      Total record carries the sum of the datasets' token counts. */
  lemma RecordsSpec(entries: seq<Entry>, group: string)
    ensures Records(entries, group).Success? <==> forall k :: 0 <= k < |entries| ==> GetFeatureByString(entries[k].sheet, group).Success?
    ensures Records(entries, group).Success? ==>
      var records := Records(entries, group).value;
      && |records| == |entries|
      && (forall k :: 0 <= k < |entries| ==>
            records[k] == Record("[" + entries[k].name + "]", GetFeatureByString(entries[k].sheet, group).value, entries[k].tokens))
      && RecordTokens(records) == TotalTokens(entries)
  {
    var rs := RecordResults(entries, group);
    CollectSpec(rs);
    assert forall k :: 0 <= k < |entries| ==> rs[k] == RecordOf(entries[k], group);
    if Records(entries, group).Success? {
      var records := Records(entries, group).value;
      RecordTokensMatch(records, entries);
    }
  }
}
