# Datasheets: a Dafny model

The datasheets repository maintains the markdown "datasheets" of a Danish text
collection. Each dataset has a README with a YAML front matter between `---`
fences and a body. Parts of the body are regions delimited by
`<!-- START-<tag> -->` and `<!-- END-<tag> -->` markers, and scripts regenerate
those regions: descriptive statistics, overview and grouped tables, reference
lists, and the version row of the main README.

This project models the text, path and record logic of those scripts in
Dafny and proves what it promises. One module covers each core source file,
and two modules are shared:

- `Wrappers`: `Option` and `Result`. `Collect` turns a list of results into a
  result of a list, where the first failure wins. `Somes` keeps the values
  that are present.
- `TextOps`: the Python string operations the scripts use, with Python's
  semantics. These are `find`, non-overlapping `count`, `partition`, `strip`,
  `split` (also with `maxsplit`), `join`, `replace` and `splitlines`.

The modules are:

- `Datasheet` (src/datasheets/datasheet.py): tag regions, `replace_tag`,
  `get_tag_content`, the short description, `to_str` and the front matter
  split, the header section search, the suffix choice of
  `human_readable_large_int`, and the language and domains lines.
- `ReadmeParsing` (src/tests/readme_parsing.py): the test helpers. They are
  proved to agree with the `Datasheet` versions, except that the body they
  return keeps the closing fence.
- `UpdateStats` (src/datasheets/update_descriptive_statistics.py):
  - the latest-version resolver, over a listing of type folders and their
    children;
  - the path and skip rules of `update_dataset`;
  - the order in which `main` updates datasets.
- `DescriptiveStats` (src/datasheets/descriptive_stats.py): the statistics
  monoid `__add__`, the zero-guarded averages, and `from_dataset` over
  batches.
- `BumpVersion` (src/datasheets/bump_version.py): the in-place line loop of
  `update_readme` over an array of lines, and the micro bump.
- `Convert` (src/datasheets/convert.py): batching of the input lines, the
  zero-token filter, the `KeyError` for a row without "text" and the chunks
  written before it, and chunk naming and indexing.
- `GenerateSheet` (src/datasheets/generate_sheet.py):
  - license-name selection;
  - the contribution line;
  - the template split and the ordered placeholder replacement;
  - the front matter update;
  - registering a dataset in the main README, a class whose `configs` field
    is appended in place.
- `Ranking`: the descending sort the tables use.
- `Tables` (src/datasheets/tables.py and src/dynaword/tables.py):
  - the license and README reference lists;
  - the overview table;
  - license normalisation and feature selection;
  - the grouped table.
- `TokenHistory` (src/datasheets/plots/plot_tokens_over_time.py): the
  git-log line parser and the token-history rows.
- `DatasetStructure` (src/datasheets/dataset_structure.py and
  src/dynaword/dataset_structure.py): `ensure_tuple`, the arity of `created`,
  and the column order.

Operations that loop in the source are methods with loop invariants, and
each is proved equal to a specification function. The properties are proved
about those functions.

Everything outside the program's own logic is a parameter:

- the file system, as listings and file contents;
- git, as its output (`None` when the command fails);
- YAML loading and dumping;
- the tokenizer;
- version parsing and its order;
- date parsing;
- the table renderer `convert_to_human_readable`.

## Model

| member | source | states |
|---|---|---|
| Datasheet.HumanReadableSuffix | src/datasheets/datasheet.py:41-51 | The plain number is kept exactly when value <= 1000. Above that, the suffix is B over 10^9, M over 10^6 and K otherwise, with the matching threshold. |
| Datasheet.HumanReadableLargeInt | src/datasheets/datasheet.py:41-51 | The threshold loop with early return agrees with the specification: plain iff value <= 1000, and a scaled value lies above its threshold. |
| Datasheet.MarkersShape | src/datasheets/datasheet.py:146-147 | Both markers are non-empty and the start marker is longer than the end marker. A tag without line feeds gives markers without line feeds. |
| Datasheet.GetTagIdx | src/datasheets/datasheet.py:143-152 | Succeeds exactly when both markers occur and the first start precedes the first end, and then returns the first occurrences. Otherwise it fails with "tag (<tag>) not found in readme". |
| Datasheet.GetTagContent | src/datasheets/datasheet.py:154-159 | Fails exactly when GetTagIdx fails, and a result has no surrounding whitespace. |
| Datasheet.GetTagContentRegion | src/datasheets/datasheet.py:154-159 | The content is the stripped text between the end of the first start marker and the first end marker (TagContent), and it is missing exactly when that region is. |
| Datasheet.ReplaceTag | src/datasheets/datasheet.py:220-223 | Fails exactly when either marker does not occur exactly once (non-overlapping count). |
| Datasheet.ReplacePreserves | src/datasheets/datasheet.py:225-228 | With each marker once and start before end, the result is the text before and including the start marker, a line feed, the stripped package, a line feed, then the end marker and the text after it, unchanged. |
| Datasheet.ReplaceEndFirstDropsTail | src/datasheets/datasheet.py:225-228 | When the end marker comes before the start marker, the replacement still succeeds, but everything after the start marker is lost: the result ends with the end marker. |
| Datasheet.ReplaceTagIdempotent | src/datasheets/datasheet.py:205-228 | For a tag without a line feed, with the markers once each and in order, and a stripped package holding neither marker, replacing twice equals replacing once. |
| Datasheet.ReplaceTagRoundTrip | src/datasheets/datasheet.py:154-159 | For a tag without a line feed and under the same conditions, reading the region back after a replacement gives the stripped package. |
| Datasheet.ShortDescription | src/datasheets/datasheet.py:76-81 | Fails exactly when the tag content cannot be read. Otherwise it is the content with one trailing "." removed, if there is one, and unchanged if not. |
| Datasheet.GetFrontmatterAndBody | src/datasheets/datasheet.py:230-240 | Succeeds exactly when the content starts with "---" and another "---" occurs at index 3 or later. The front matter is the stripped text between the first such fence and the opening one; the body is everything after that fence. |
| Datasheet.ToStrRoundTrip | src/datasheets/datasheet.py:91-92 | Splitting the output of to_str again gives back the stripped front matter and the body framed by the blank line and the final line feed to_str adds. This holds when the front matter holds no fence. |
| Datasheet.ToStrStable | src/datasheets/datasheet.py:91-92 | Writing a sheet, reading it back and writing it again gives the same text. |
| Datasheet.ContainsLevelAnyDepth | src/datasheets/datasheet.py:105-109 | With the levels 1..n that the section search passes, a line counts as a header exactly when n >= 1 and it starts with "#". The section therefore ends at a header of any depth. |
| Datasheet.FilterHeaders | src/datasheets/datasheet.py:133-141 | The headers returned are exactly the body lines that start with the "#" run of one of the levels: every returned line passes, and every passing line is returned. |
| Datasheet.FilterHeadersOne | src/datasheets/datasheet.py:141 | A single line is kept exactly when it passes the level test. |
| Datasheet.FilterHeadersAppend | src/datasheets/datasheet.py:141 | The filter keeps body order: the headers of two pieces of lines, in order, are the headers of the whole. |
| Datasheet.SectionEndSpec | src/datasheets/datasheet.py:107-116 | An end header is found exactly when some header after the first match differs from the searched one. It is the first such header after the run of matches. |
| Datasheet.SectionEndExists | src/datasheets/datasheet.py:107-116 | An end header is found exactly when a header naming the section is followed, somewhere later, by one that does not. |
| Datasheet.SectionEndFound | src/datasheets/datasheet.py:107-116 | A found end header is the first header after the first run of matches that does not match. |
| Datasheet.FindSectionEnd | src/datasheets/datasheet.py:107-116 | The flag loop returns the end header that the specification above describes. |
| Datasheet.GetSectionIndicesByHeader | src/datasheets/datasheet.py:104-127 | The start is the header's first index (-1 when it is missing). The end is the end header's first index from the start, or the body's length when there is none. |
| Datasheet.MissingHeaderStart | src/datasheets/datasheet.py:118-121 | The "not found" guard never fires: a missing header gives start -1, so the section is the body's last character. |
| Datasheet.GetSectionByHeader | src/datasheets/datasheet.py:129-131 | The section is the slice of the body from the header's index. |
| Datasheet.LanguageAndDomainLines | src/datasheets/datasheet.py:169-180 | Fails exactly when some language code is not in the table. Otherwise the text is "\n- **Language**: " and the language names joined by ", ", then a line feed, then the Domains line with the domains joined by ", " when domains are given and non-empty. |
| Datasheet.LanguagePackage | src/datasheets/datasheet.py:173-180 | The package text is the Language line naming every language in order, then the Domains line when there are domains. It starts with the Language lead and ends with the Domains line, or with a line feed when there are none. |
| Datasheet.Names | src/datasheets/datasheet.py:173 | Each code is mapped to its language name, one for one and in order. |
| ReadmeParsing.ReadFrontmatterAndBody | src/tests/readme_parsing.py:7-15 | Succeeds under the same condition as the datasheet reader. The body starts at the closing fence and keeps it. |
| ReadmeParsing.ReadersAgree | src/tests/readme_parsing.py:10-15 | The two readers succeed together. The front matter is the same and the test helper's body is the datasheet body with the fence in front. |
| ReadmeParsing.GetTagIdx | src/tests/readme_parsing.py:18-25 | On success the start index is non-negative and below the end index. On failure the message names the tag. |
| ReadmeParsing.GetTagContent | src/tests/readme_parsing.py:28-31 | Fails exactly when GetTagIdx fails, and a result is stripped. |
| ReadmeParsing.TagLookupAgrees | src/tests/readme_parsing.py:18-31 | Index and content lookups give exactly the results of the datasheet versions. |
| ReadmeParsing.ReplaceTag | src/tests/readme_parsing.py:43-49 | Fails exactly when either marker does not occur exactly once. |
| ReadmeParsing.ReplaceMarkedPreserves | src/tests/readme_parsing.py:51-54 | With markers once each and in order, the result is the prefix, the start marker, the stripped package between line feeds, the end marker and the suffix. |
| ReadmeParsing.ReplaceTagAgrees | src/tests/readme_parsing.py:43-54 | The string branch returns exactly what the datasheet's replace_tag returns, errors included. |
| UpdateStats.VersionGroup | src/datasheets/update_descriptive_statistics.py:70 | A match of `^v(.+)$` yields a non-empty group without line feeds. The name is "v" followed by the group, possibly with one final line feed. |
| UpdateStats.VersionGroupMatches | src/datasheets/update_descriptive_statistics.py:70 | Conversely, every such name matches, with that group. |
| UpdateStats.CandidateOrigin | src/datasheets/update_descriptive_statistics.py:74-104 | Every candidate comes from a version folder that is a directory, whose name matches and whose version parses, under a known type folder that is a directory. |
| UpdateStats.CandidateFound | src/datasheets/update_descriptive_statistics.py:74-104 | Every such version folder gives a candidate. |
| UpdateStats.CollectCandidates | src/datasheets/update_descriptive_statistics.py:72-108 | The nested loops collect exactly the candidates of the listing, in listing order. |
| UpdateStats.SelectBest | src/datasheets/update_descriptive_statistics.py:116-120 | Returns a best candidate, that is, one with the lowest priority and the highest version at that priority. It is strictly better than every candidate before it, so the first maximum wins. |
| UpdateStats.BestMeans | src/datasheets/update_descriptive_statistics.py:116-120 | A best candidate has the lowest priority of all and a version at least that of every candidate of the same priority. |
| UpdateStats.FindLatestDatasetVersion | src/datasheets/update_descriptive_statistics.py:52-128 | None when the root is not a directory, or when there is no candidate. Otherwise the best candidate, which is a real version folder of the listing. |
| UpdateStats.BetterTransitive | src/datasheets/update_descriptive_statistics.py:117-120 | The candidate order used by max is transitive when the version order is a total preorder. |
| UpdateStats.ConfiguredDatasets | src/datasheets/update_descriptive_statistics.py:36-40 | Exactly the configured names other than "default", and no more of them than there are configs. |
| UpdateStats.ConfiguredDatasetsOne | src/datasheets/update_descriptive_statistics.py:36-40 | A single config name is kept exactly when it is not "default". |
| UpdateStats.ConfiguredDatasetsAppend | src/datasheets/update_descriptive_statistics.py:36-40 | The list keeps the configs' order and repeats: the names of two pieces of configs, in order, are the names of the whole. |
| UpdateStats.UpdateOrder | src/datasheets/update_descriptive_statistics.py:257-262 | A named dataset alone; otherwise every configured dataset in order, then "default". |
| UpdateStats.PlanUpdate | src/datasheets/update_descriptive_statistics.py:153-221 | Existing statistics are skipped unless forced, and a dataset with no version folder is left alone. Paths are data/<name>/<name>.md, or README.md for "default". "default" sums the statistics files and refreshes the three tables. |
| DescriptiveStats.AddFields | src/datasheets/descriptive_stats.py:93-108 | The sum adds samples, tokens and characters and takes the min of the minima and the max of the maxima. |
| DescriptiveStats.AddCommutative | src/datasheets/descriptive_stats.py:93-108 | `__add__` is commutative. |
| DescriptiveStats.AddAssociative | src/datasheets/descriptive_stats.py:93-108 | `__add__` is associative. |
| DescriptiveStats.AddOrdered | src/datasheets/descriptive_stats.py:93-108 | min <= max for tokens and characters is preserved by the sum. |
| DescriptiveStats.AverageTokens | src/datasheets/descriptive_stats.py:40-46 | 0 with no samples; otherwise the average times the samples is the tokens. |
| DescriptiveStats.AverageCharacters | src/datasheets/descriptive_stats.py:48-54 | 0 with no samples; otherwise the average times the samples is the characters. |
| DescriptiveStats.TotalAppend | src/datasheets/update_descriptive_statistics.py:203 | The repository fold of a concatenation is the sum of the two folds. |
| DescriptiveStats.TotalPermutation | src/datasheets/update_descriptive_statistics.py:203 | The fold does not depend on the order of the statistics files. |
| DescriptiveStats.RowStatsBounds | src/datasheets/descriptive_stats.py:67-91 | The statistics of a non-empty set of rows count the rows, and the minima and maxima bound every row and are attained. |
| DescriptiveStats.FromDatasetIsRowStats | src/datasheets/descriptive_stats.py:67-91 | The per-batch aggregation followed by the overall sum, min and max equals the statistics of all rows taken together. |
| DescriptiveStats.FromDatasetBatchingFree | src/datasheets/descriptive_stats.py:67-91 | How rows are split into batches does not change the result. |
| DescriptiveStats.FromDatasetAppend | src/datasheets/descriptive_stats.py:67-108 | The statistics of A ++ B are the sum of those of A and of B. |
| BumpVersion.ScanSpec | src/datasheets/bump_version.py:32-41 | The scan replaces the first Version line at or after a start-marker line. It reports an error when an end-marker line comes before any such line, even without a start marker; otherwise it reports nothing found. |
| BumpVersion.ScanUnique | src/datasheets/bump_version.py:32-41 | Those outcomes are determined: any line meeting the conditions is the one the scan picks. |
| BumpVersion.UpdateReadme | src/datasheets/bump_version.py:24-44 | In place on the array: only the chosen line becomes the version row, and otherwise the lines are unchanged. The error case is "**Version** not found in README table." with nothing changed. |
| BumpVersion.ReplaceKeepsOthers | src/datasheets/bump_version.py:38 | The count of lines is kept, every other line is unchanged, and the new line holds "**Version**". |
| BumpVersion.VersionRow | src/datasheets/bump_version.py:38 | The version row contains the "**Version**" mark. |
| BumpVersion.Bump | src/datasheets/bump_version.py:48-50 | Gives major.minor.(micro+1): three segments, with missing segments read as 0 and further segments dropped. |
| BumpVersion.BumpIncreases | src/datasheets/bump_version.py:48-50 | The bumped release is greater than the original. |
| BumpVersion.BumpString | src/datasheets/bump_version.py:50 | The new version text is major "." minor "." micro+1. |
| Convert.AnnotateFields | src/datasheets/convert.py:96-100 | A kept row has all its original fields plus token_count. |
| Convert.KeepByPositions | src/datasheets/convert.py:96-100 | The kept rows are the rows with a positive token count, annotated, in input order. |
| Convert.PositionsSpec | src/datasheets/convert.py:96-100 | The kept positions increase, each has a positive count, and every position with a positive count is kept. |
| Convert.KeepAppend | src/datasheets/convert.py:96-100 | Filtering works piece by piece over concatenation. |
| Convert.ProcessAndSaveChunkSpec | src/datasheets/convert.py:74-109 | Raises KeyError exactly when some row has no "text" field. Otherwise the result is None for an empty batch and when every row is filtered out, and else the chunk is written at the chunk path with exactly the kept rows. |
| Convert.ChunkNameSmall | src/datasheets/convert.py:106 | An illustration of Pad4Spec: index 7 is named chunk_0007.parquet. |
| Convert.ChunkNameLarge | src/datasheets/convert.py:106 | An illustration of Pad4Spec: index 12345 is named chunk_12345.parquet. |
| Convert.Pad4Spec | src/datasheets/convert.py:106 | For every index, `{:04d}` pads an index below 10000 on the left with zeros to exactly four digits, and writes any larger index in full, uncut. |
| Convert.NatToStringWidth | src/datasheets/convert.py:106 | A number has at most k decimal digits exactly when it is below 10^k. |
| Convert.Pad4Value | src/datasheets/convert.py:106 | The padded digits denote the index. |
| Convert.ChunkPathInjective | src/datasheets/convert.py:106 | Different indices give different chunk paths. |
| Convert.BatchesConcat | src/datasheets/convert.py:131-144 | Concatenating the batches gives the input lines in order. |
| Convert.BatchesSizes | src/datasheets/convert.py:131-144 | Every batch but the last has batch_size rows, and the last has 1..batch_size rows. |
| Convert.NonPositiveBatchSize | src/datasheets/convert.py:133 | A batch size below 1 makes every batch a single line. |
| Convert.ProcessFileInChunks | src/datasheets/convert.py:112-146 | The loop processes the batches in order, indexed from 0. The chunks written are those of the batches before the first batch with a row lacking "text". If there is such a batch, the result is a KeyError failure and those chunks stay written; otherwise the result is the paths of the chunks of all batches. |
| Convert.ReadLines | src/datasheets/convert.py:131-138 | The loop over the lines either stops at a full batch that raises, with the conversion's failure result already reached, or ends with the loop invariant over all the lines and the open batch still to process. |
| Convert.AppendLine | src/datasheets/convert.py:131-138 | One pass of the loop keeps the loop invariant. The line joins the open batch, and a full batch is written under the next index and closed. A full batch that raises comes back with nothing more written. |
| Convert.FlushBatch | src/datasheets/convert.py:140-146 | After the loop, the last partial batch, if any, is processed as well. The result then matches the one ProcessFileInChunks states: a failure when that batch raises, otherwise the chunks of every batch and their paths. |
| Convert.SaveBatch | src/datasheets/convert.py:133-136 | Processing one batch succeeds exactly when all its rows have "text", and it appends that batch's chunk, if any, and its path. A failure writes nothing more. |
| Convert.LeadingSpec | src/datasheets/convert.py:112-146 | The batches before the first failing batch all have text, and the batch at that point, if any, lacks it. |
| Convert.LeadingAt | src/datasheets/convert.py:112-146 | The first failing batch is found at k when the batches before k have text and batch k does not. |
| Convert.RaisesSpec | src/datasheets/convert.py:92-146 | The conversion fails exactly when some input line has no "text" field. |
| Convert.RaisesAt | src/datasheets/convert.py:131-136 | A full batch that raises inside the loop is the first failing batch of the whole input. The chunks written before it are the conversion's result, a KeyError failure. |
| Convert.BatchesAfterFull | src/datasheets/convert.py:131-138 | The full batches the loop closed over a prefix of the lines are the first batches of the whole input. |
| Convert.WrittenRows | src/datasheets/convert.py:112-146 | The rows written across all chunks are the kept rows of the whole input, in order. |
| Convert.SavedNumbers | src/datasheets/convert.py:133-138 | The n-th written chunk carries the index of its batch, so the index advances for batches that write nothing. |
| Convert.NumbersRise | src/datasheets/convert.py:133-138 | The indices of the written chunks strictly increase and stay below the number of batches. |
| Convert.NumbersKept | src/datasheets/convert.py:133-138 | Every index a chunk is written under is that of a batch that keeps a row. |
| Convert.NumbersComplete | src/datasheets/convert.py:133-138 | Every batch that keeps a row has its index among the written ones, since the index advances after every batch. |
| Convert.PathsDistinct | src/datasheets/convert.py:133-146 | The returned paths are pairwise distinct. |
| GenerateSheet.LicenseName | src/datasheets/generate_sheet.py:82-88 | For "other", the typed name. Otherwise the mapped name, or "Unknown" when the id is unmapped. |
| GenerateSheet.ChoicesHaveNames | src/datasheets/generate_sheet.py:78-88 | Every offered license id other than "other" has a mapped name, so "Unknown" never results from the menu. |
| GenerateSheet.ContributionLine | src/datasheets/generate_sheet.py:107-114 | Empty exactly when no company is given; otherwise the contribution sentence around the company's name. |
| GenerateSheet.Placeholders | src/datasheets/generate_sheet.py:141-156 | Six non-empty placeholders, replaced in the source's order. |
| GenerateSheet.FillBodyNoPlaceholders | src/datasheets/generate_sheet.py:141-156 | A body with none of the placeholders passes through unchanged. |
| GenerateSheet.OrderMatters | src/datasheets/generate_sheet.py:141-151 | An illustration of FillPrettyName: a pretty name that reads LONG_DESCRIPTION ends up as the long description. |
| GenerateSheet.FillPrettyName | src/datasheets/generate_sheet.py:141-156 | For all data, a body that is exactly PRETTY_NAME becomes the pretty name with every later placeholder in it replaced in turn. |
| GenerateSheet.ReplaceAllAppend | src/datasheets/generate_sheet.py:141-156 | The chain of replacements runs in sequence: the first part of the chain, then the rest on the text it left. |
| GenerateSheet.ReplaceIsJoinSplit | src/datasheets/generate_sheet.py:141 | `replace` equals joining the split on the pattern with the replacement. |
| GenerateSheet.ReplaceAllAbsent | src/datasheets/generate_sheet.py:141-156 | A text without any of the patterns is unchanged by the chain of replacements. |
| GenerateSheet.UpdateFrontmatterSets | src/datasheets/generate_sheet.py:129-134 | After the update, the five keys hold the card's name, languages, license id, license name and domains. |
| GenerateSheet.UpdateFrontmatterOthers | src/datasheets/generate_sheet.py:129-134 | Every other key keeps its value. |
| GenerateSheet.UpdateFrontmatterKeys | src/datasheets/generate_sheet.py:129-137 | The key order is kept and new keys are only appended, at most five of them. |
| GenerateSheet.SetKeyLookup | src/datasheets/generate_sheet.py:130 | Setting a key gives it the value and leaves other keys as they were. |
| GenerateSheet.TemplateParts | src/datasheets/generate_sheet.py:124-126 | Too few parts is the IndexError of the source. |
| GenerateSheet.TemplatePartsCount | src/datasheets/generate_sheet.py:124-126 | The split yields both parts exactly when the template holds at least two "---". |
| GenerateSheet.TemplatePartsLayout | src/datasheets/generate_sheet.py:124-126 | The template is the text before the first fence, the fence, the front part without a fence, the second fence, and the body: the body is everything after the second fence. |
| GenerateSheet.CreateCardContent | src/datasheets/generate_sheet.py:119-158 | Succeeds exactly when the template splits and its front matter loads. The card starts with "---\n". |
| GenerateSheet.CardReadBack | src/datasheets/generate_sheet.py:158 | When the dumped YAML ends with a line feed and holds no fence, the card is "---\n" + YAML + "---\n" + filled body. Reading it back gives the stripped YAML and the filled body. |
| GenerateSheet.ListedSpec | src/datasheets/generate_sheet.py:164-168 | A name is listed exactly when some config has it and it is not "default". |
| GenerateSheet.RegisterIdempotent | src/datasheets/generate_sheet.py:170-171 | For ids other than "default", registering puts the id in the list, and registering twice equals registering once. |
| GenerateSheet.RegisterDefault | src/datasheets/generate_sheet.py:170-171 | "default" is never listed, so it is appended on every call. |
| GenerateSheet.MainReadme.AddDataset | src/datasheets/generate_sheet.py:161-172 | Appends the config only when the id is not listed, in place. The README is saved only then. |
| Ranking.SortDescSpec | src/datasheets/tables.py:80 | The sort is descending by key and a permutation of its input. |
| Ranking.TopComesFirst | src/datasheets/tables.py:181 | A row whose key exceeds every other row's comes first. |
| Tables.LicenseReferences | src/datasheets/tables.py:22-34 | The only failure is a sheet with license "other" and no license_name key. A license_name of null is printed as "None". |
| Tables.LicenseReferencesSpec | src/datasheets/tables.py:22-34 | Succeeds exactly when every "other"-licensed sheet has the license_name key. The result is then the default references followed by one line per such dataset, in list order, with "[None]" for a null name. The copy at src/dynaword/tables.py:21-33 is the same code. |
| Tables.LicenseReferencesFails | src/datasheets/tables.py:28-31 | A failure on a prefix of the list is the failure of the whole. |
| Tables.CreateLicenseReferences | src/datasheets/tables.py:22-34 | The loop computes exactly the specification above. |
| Tables.CreateDatasetReadmeReferences | src/datasheets/tables.py:37-46 | The loop computes exactly the reference list. |
| Tables.ReadmeReferencesLines | src/datasheets/tables.py:37-46 | For names without line feeds, the output's lines are "[name]: data/name/name.md", one per dataset in order, followed by a final empty piece. An empty list gives "". The copy at src/dynaword/tables.py:36-45 is the same code. |
| Tables.OverviewRowsSpec | src/datasheets/tables.py:64-77 | The rows are built exactly when every short description can be read, one row per dataset, in order. |
| Tables.SumTokensOfRows | src/datasheets/tables.py:89 | The total is the sum of all datasets' tokens. |
| Tables.TokenCellOf | src/datasheets/tables.py:106-107 | The tokens are rewritten by the renderer exactly when add_readable_tokens is set; otherwise the count is kept. |
| Tables.Settle | src/datasheets/tables.py:98-107 | With readme references the Source column takes the bracketed name, otherwise the plain name; Sources is dropped and the other columns are kept. Tokens are rendered readable only with add_readable_tokens. The copy at src/dynaword/tables.py:97-106 does the same with its column named "Source with link". |
| Tables.CreateOverviewTable | src/datasheets/tables.py:49-109 | The loop and the table steps compute exactly the overview specification. |
| Tables.OverviewRanked | src/datasheets/tables.py:79-97 | The dataset rows are a permutation of the rows sorted by tokens, largest first. With add_total_row, one more line follows: the Total row with the summed tokens. The copy at src/dynaword/tables.py:78-96 is the same code. |
| Tables.OverviewSpec | src/datasheets/tables.py:49-109 | When every description reads, the table succeeds with one row per dataset and the total equals the sum over all datasets. |
| Tables.TotalRowCells | src/datasheets/tables.py:82-90 | The total line reads "**Total**" with empty description, domain and license. |
| Tables.GetNormalizedLicense | src/datasheets/tables.py:112-129 | A missing name is an error. The five listed names map to "Other (Attribution required)", or for Danish Copyright Law to "Other (No attribution required)". Every other name is kept. |
| Tables.NormalizedLicenseStable | src/datasheets/tables.py:112-129 | Normalising a normalised name changes nothing. |
| Tables.GetFeatureByString | src/datasheets/tables.py:132-145 | Domain gives the first domain or "N/A", Language the codes joined by ", ", and License the normalised license. Any other key gives "Unknown feature: <key>". |
| Tables.RecordsSpec | src/datasheets/tables.py:160-170 | The records are built exactly when every feature resolves, one per dataset, holding "[name]", the feature and the tokens. Their tokens sum to the datasets' total. |
| Tables.GroupBySpec | src/datasheets/tables.py:179 | A key's group gathers exactly the records with that key: their sources in order and the sum of their tokens. Keys without records have no group. |
| Tables.GroupByDistinct | src/datasheets/tables.py:179 | Each key forms one group. |
| Tables.MoveFirstLast | src/datasheets/tables.py:187-188 | The reindexing moves the first row to the end and keeps the others in order. On an empty table it fails, as dropping label 0 raises KeyError. |
| Tables.CreateGroupedTable | src/datasheets/tables.py:148-193 | The loop and the table steps compute exactly the grouped specification, including the KeyError failure on an empty table. |
| Tables.GroupedTableEmpty | src/datasheets/tables.py:172-188 | The grouped table fails exactly when there are no entries and no Total row is added, and the error is the reindexing KeyError. |
| Tables.GroupTableRanked | src/datasheets/tables.py:179-188 | The reindexing fails exactly when there are no records. Otherwise the grouped lines are the groups sorted by tokens, largest first, with the first moved last. |
| Tables.GroupedTotalLast | src/datasheets/tables.py:172-188 | When the Total row outweighs every real group, the last line is "**Total**" with an empty source list and the sum of all tokens. |
| TokenHistory.ParseLineSome | src/datasheets/plots/plot_tokens_over_time.py:40-44 | A kept line is hash + "\|" + date + "\|" + message, with no bar in the hash or the date. The message may hold bars. |
| TokenHistory.ParseLineRoundTrip | src/datasheets/plots/plot_tokens_over_time.py:41-44 | The log line of a commit whose hash and date hold no bar parses back to that commit. |
| TokenHistory.ParseLineTwoBars | src/datasheets/plots/plot_tokens_over_time.py:41-42 | A line is kept exactly when it holds at least two bars, which includes ruling out the empty line. |
| TokenHistory.ParseLinesAppend | src/datasheets/plots/plot_tokens_over_time.py:39-44 | Parsing goes line by line, keeping the order of the output. |
| TokenHistory.SkipEmpty | src/datasheets/plots/plot_tokens_over_time.py:39-40 | Empty lines contribute nothing. |
| TokenHistory.ParseLinesAll | src/datasheets/plots/plot_tokens_over_time.py:37-44 | When every line parses, the commits are the lines' commits one for one, in order. |
| TokenHistory.GetFileHistory | src/datasheets/plots/plot_tokens_over_time.py:19-51 | The loop gives the parsed commits of the stripped output split at line feeds, and no commits when git fails. |
| TokenHistory.ShortHash | src/datasheets/plots/plot_tokens_over_time.py:90 | The short commit is the hash's first eight characters, or the whole hash when it is shorter. |
| TokenHistory.RowOfSpec | src/datasheets/plots/plot_tokens_over_time.py:79-95 | A row exists exactly when the file is there with number_of_tokens and the day of the date parses. The row's date is that day, and its tokens and samples are the file's values, with samples 0 when absent. The short commit is a prefix of the hash. |
| TokenHistory.RowsFromCommits | src/datasheets/plots/plot_tokens_over_time.py:77-95 | Every row comes from one of the commits, and a commit gives at most one row. |
| TokenHistory.RowsAll | src/datasheets/plots/plot_tokens_over_time.py:77-95 | When every commit gives a row, the rows follow the commits one for one. |
| TokenHistory.CollectRows | src/datasheets/plots/plot_tokens_over_time.py:77-95 | The loop collects exactly the rows of the commits. |
| TokenHistory.CreateTokenDataframe | src/datasheets/plots/plot_tokens_over_time.py:68-112 | Computes exactly the history frame, which is empty when there are no commits or no rows. |
| TokenHistory.FrameSpec | src/datasheets/plots/plot_tokens_over_time.py:98-107 | The frame's rows are the collected rows, none lost or added, ordered by date ascending. Changes exist exactly when there are at least two rows. |
| TokenHistory.Diff | src/datasheets/plots/plot_tokens_over_time.py:107 | One change per row. |
| TokenHistory.DiffTelescopes | src/datasheets/plots/plot_tokens_over_time.py:107 | The first row's tokens plus the changes up to row k are row k's tokens. |
| DatasetStructure.EnsureTuple | src/datasheets/dataset_structure.py:12-15 | A tuple comes back unchanged, and a string gives at least one component. |
| DatasetStructure.EnsureTupleRoundTrip | src/datasheets/dataset_structure.py:12-14 | Joining the components of a string with ", " gives back the string. The copy at src/dynaword/dataset_structure.py:11-14 is the same code. |
| DatasetStructure.EnsureTupleComponents | src/datasheets/dataset_structure.py:12-14 | No component of a string contains ", ". The copy at src/dynaword/dataset_structure.py:11-13 is the same code. |
| DatasetStructure.EnsureTupleArity | src/datasheets/dataset_structure.py:12-14 | A string has one component more than it has ", " separators. |
| DatasetStructure.ValidateCreated | src/datasheets/dataset_structure.py:23-26 | Validation passes exactly when there are two components and both parse as dates. The result is then the pair of those dates. |
| DatasetStructure.ValidCreatedText | src/datasheets/dataset_structure.py:23-26 | A string passes only when it holds exactly one ", ". The copy at src/dynaword/dataset_structure.py:22 is the same code. |
| DatasetStructure.ColumnOrder | src/datasheets/dataset_structure.py:39 | The order lists each column's name in declaration order. |
| DatasetStructure.ColumnOrderSpec | src/datasheets/dataset_structure.py:30-39 | The order is id, text, source, added, created, token_count, with no name twice. The copy at src/dynaword/dataset_structure.py:26-35 is the same code. |

## Left out

- File reads and writes are left out. That covers README loading at import time, `write_to_path`, the Path branch of the test helper `replace_tag`, JSON `to_disk`/`from_disk`, and parquet files. Contents and listings are inputs, and a written file is a value.
- YAML `safe_load` and `dump` are parameters. `yaml.dump` of the whole front matter in `to_str` is a string input.
- The tokenizer, the multiprocessing pool and polars frames in convert.py are left out. Token counting is a function parameter.
- The text a row is tokenized by is `str` of its "text" value. Strings and integers are written out. For any other JSON value, its `str` text is carried in the value itself.
- The git subprocess is left out; its output is an input. `get_file_at_commit` is a parameter from a hash to the file's numeric fields. JSON values that are not numbers, and the `avg_length` column, are not modelled.
- `datetime.fromisoformat` is a parameter. A date is its day number, and a failed parse drops the row as the source's ValueError does.
- PEP 440 parsing and ordering are parameters: a parse and a total preorder. Ties between equivalent versions fall to the first candidate in listing order. That order is the order of `iterdir`, which the file system decides.
- Floating point is left out. That covers the `.2f` digits of `human_readable_large_int`, `_format_tokens` and `calculate_average_document_length`. The averages are real numbers. Only the suffix choice of `human_readable_large_int` is modelled.
- `convert_to_human_readable`, imported by src/datasheets/tables.py, and `human_readable_large_int` from the dynaword datasheet module are parameters of the tables. The dynaword datasheet module is not part of this model; the dynaword tables are modelled with the same `Tables` members as src/datasheets/tables.py, whose code they repeat.
- pandas `to_markdown` rendering and the `*_str` wrappers that join rendered tables are left out. Tables are sequences of line records.
- Tables.OverviewRanked: pandas `sort_values` uses an unstable quicksort, so the order of rows with equal token counts is unspecified. The model sorts stably and states only that the rows are descending and a permutation.
- Tables.GroupTableRanked: pandas `groupby` orders keys by value before the token sort. The model groups in order of first appearance, so only the order among groups with equal tokens can differ. For the same reason GroupedTotalLast assumes that the Total row outweighs every real group.
- TokenHistory.FrameSpec: the order among rows of the same day is unspecified, as in the tables.
- The dataset path's `name` is taken to be the configured dataset name itself.
- Datasheet.GetSectionByHeader: states only that the section is a slice of the body starting at the header's index. The end index is the one GetSectionIndicesByHeader states.
- UpdateStats.PlanUpdate: states the plan's paths and the skip and not-found cases. Loading the dataset, computing statistics and writing the sheet are not modelled.
- `add_descriptive_stats` reads an average field that the statistics class does not define. Only its language check and Language and Domains lines are modelled, not the statistics lines or the final replace_tag call.
- `get_user_input` prompts are not modelled. Only the license-name rule and the contribution line are, with the typed answers as inputs.
- The `SampleSchema` date types are left out: a component is a date when the date-parsing parameter accepts it.
- The CLI argument parsing, logging and plotting code are left out.
