/** The token-history data behind the plot of the dataset's size over time:
    the commits that touched the statistics file, read from the output of
    `git log --format=%H|%ci|%s`, and one row per commit whose statistics can
    be read, ordered by date with the change in tokens from the row before.
    Running git is outside the model: its output is a parameter (`None` when
    the command fails), and so are the file's content at a commit and the
    parsing of a date (a date is its day number). */
module TokenHistory {
  import opened Wrappers
  import opened TextOps
  import Ranking

  /** A commit as the log line gives it. */
  datatype Commit = Commit(hash: string, date: string, message: string)

  const Bar: string := "|"

  /** The log line of a commit. */
  function CommitLine(c: Commit): string
  {
    c.hash + Bar + c.date + Bar + c.message
  }

  /** One line of the log: an empty line is skipped; otherwise the line is
      split at its first two bars, and a line with fewer than two bars is
      skipped. */
  function ParseLine(line: string): Option<Commit>
  {
    if line == [] then None
    else
      var parts := SplitMax(line, Bar, 2);
      if |parts| == 3 then Some(Commit(parts[0], parts[1], parts[2])) else None
  }

  /** `"|"` occurs at `k` exactly when the character there is a bar. */
  lemma BarAt(s: string, k: int)
    ensures OccursAt(s, Bar, k) <==> 0 <= k < |s| && s[k] == '|'
  {
    if 0 <= k < |s| {
      assert s[k..k + 1] == [s[k]];
    }
  }

  /** The first bar of a line whose first field holds none. */
  lemma FirstBar(h: string, rest: string)
    requires '|' !in h
    ensures Find(h + Bar + rest, Bar) == Some(|h|)
  {
    var s := h + Bar + rest;
    BarAt(s, |h|);
    forall j | 0 <= j < |h|
      ensures !OccursAt(s, Bar, j)
    {
      BarAt(s, j);
      assert s[j] == h[j];
    }
    FindIsFirst(s, Bar, |h|);
  }

  /** Text before the first bar holds no bar. */
  lemma BeforeFirstBar(s: string, i: nat)
    requires Find(s, Bar) == Some(i)
    ensures '|' !in s[..i]
  {
    if '|' in s[..i] {
      var k :| 0 <= k < i && s[..i][k] == '|';
      BarAt(s, k);
    }
  }

  /** Splitting at most twice gives three parts exactly when there are two
      bars, the second found after the first: then the parts are the text
      before the first bar, between the two, and after the second. */
  lemma SplitMaxTwo(line: string)
    ensures |SplitMax(line, Bar, 2)| == 3 <==>
      Find(line, Bar).Some? && Find(line[Find(line, Bar).value + 1..], Bar).Some?
    ensures |SplitMax(line, Bar, 2)| == 3 ==>
      var i := Find(line, Bar).value;
      var rest := line[i + 1..];
      var j := Find(rest, Bar).value;
      SplitMax(line, Bar, 2) == [line[..i], rest[..j], rest[j + 1..]]
  {
    match Find(line, Bar)
    case None =>
    case Some(i) =>
      var rest := line[i + 1..];
      match Find(rest, Bar)
      case None =>
      case Some(j) =>
        assert SplitMax(rest[j + 1..], Bar, 0) == [rest[j + 1..]];
  }

  /** A parsed line is the log line of its commit, and the first two fields
      hold no bar; the message may. */
  lemma ParseLineSome(line: string)
    requires ParseLine(line).Some?
    ensures var c := ParseLine(line).value;
      CommitLine(c) == line && '|' !in c.hash && '|' !in c.date
  {
    SplitMaxTwo(line);
    var i := Find(line, Bar).value;
    var rest := line[i + 1..];
    var j := Find(rest, Bar).value;
    var c := Commit(line[..i], rest[..j], rest[j + 1..]);
    assert ParseLine(line).value == c;
    Rejoin(line, i);
    Rejoin(rest, j);
    Reassemble(c, rest, line);
    BeforeFirstBar(line, i);
    BeforeFirstBar(rest, j);
  }

  /** The log line of a commit, read as its hash, a bar and the rest. */
  lemma Reassemble(c: Commit, rest: string, line: string)
    requires rest == c.date + Bar + c.message && line == c.hash + Bar + rest
    ensures CommitLine(c) == line
  {
  }

  /** A line is the text before a bar, the bar, and the text after it. */
  lemma Rejoin(s: string, i: nat)
    requires Find(s, Bar) == Some(i)
    ensures s == s[..i] + Bar + s[i + 1..]
  {
    BarAt(s, i);
  }

  /** The log line of a commit whose first two fields hold no bar parses back
      to that commit. */
  lemma ParseLineRoundTrip(c: Commit)
    requires '|' !in c.hash && '|' !in c.date
    ensures ParseLine(CommitLine(c)) == Some(c)
  {
    var line := CommitLine(c);
    var rest := c.date + Bar + c.message;
    assert line == c.hash + Bar + rest;
    FirstBar(c.hash, rest);
    FirstBar(c.date, c.message);
    Fields(c.hash, rest);
    Fields(c.date, c.message);
    SplitMaxTwo(line);
  }

  /** The text on either side of the bar that follows `h`. */
  lemma Fields(h: string, rest: string)
    ensures (h + Bar + rest)[..|h|] == h
    ensures (h + Bar + rest)[|h| + 1..] == rest
  {
  }

  /** The line holds at least two bars. */
  predicate TwoBars(line: string)
  {
    exists i, j :: 0 <= i < j < |line| && line[i] == '|' && line[j] == '|'
  }

  /** A line is kept exactly when it holds two bars. */
  lemma ParseLineTwoBars(line: string)
    ensures ParseLine(line).Some? <==> TwoBars(line)
  {
    if ParseLine(line).Some? {
      ParseLineSome(line);
      var c := ParseLine(line).value;
      assert line[|c.hash|] == '|';
      assert line[|c.hash| + 1 + |c.date|] == '|';
    }
    if TwoBars(line) {
      var i, j :| 0 <= i < j < |line| && line[i] == '|' && line[j] == '|';
      BarAt(line, i);
      assert Contains(line, Bar);
      var i0 := Find(line, Bar).value;
      assert i0 <= i;
      var rest := line[i0 + 1..];
      BarAt(rest, j - i0 - 1);
      assert rest[j - i0 - 1] == line[j];
      assert Contains(rest, Bar);
      SplitMaxTwo(line);
    }
  }

  /** The parse of each line. */
  function Parsed(lines: seq<string>): (r: seq<Option<Commit>>)
    ensures |r| == |lines|
  {
    seq(|lines|, k requires 0 <= k < |lines| => ParseLine(lines[k]))
  }

  /** The commits of the given lines, in order. */
  function ParseLines(lines: seq<string>): seq<Commit>
  {
    Somes(Parsed(lines))
  }

  /** Parsing works line by line: the commits of two runs of lines are those of
      the first run followed by those of the second. */
  lemma ParseLinesAppend(a: seq<string>, b: seq<string>)
    ensures ParseLines(a + b) == ParseLines(a) + ParseLines(b)
  {
    assert Parsed(a + b) == Parsed(a) + Parsed(b);
    SomesAppend(Parsed(a), Parsed(b));
  }

  /** Empty lines contribute nothing. */
  lemma SkipEmpty(a: seq<string>, b: seq<string>)
    ensures ParseLines(a + [""] + b) == ParseLines(a + b)
  {
    ParseLinesAppend(a + [""], b);
    ParseLinesAppend(a, [""]);
    ParseLinesAppend(a, b);
    assert Parsed([""]) == [None];
    assert Somes(Parsed([""])) == Somes([None]) == [];
  }

  /** When every line parses, the commits are the lines' commits one for
      one, in order. */
  lemma ParseLinesAll(lines: seq<string>)
    requires forall k :: 0 <= k < |lines| ==> ParseLine(lines[k]).Some?
    ensures |ParseLines(lines)| == |lines|
    ensures forall k :: 0 <= k < |lines| ==> ParseLine(lines[k]) == Some(ParseLines(lines)[k])
  {
    SomesAll(Parsed(lines));
  }

  /** `get_file_history` on the output of git: the stripped output split at
      line feeds; a failed command gives no commits. */
  function FileHistory(stdout: Option<string>): seq<Commit>
  {
    match stdout
    case None => []
    case Some(out) => ParseLines(Split(Strip(out), "\n"))
  }

  /** The loop of `get_file_history`. */
  method GetFileHistory(stdout: Option<string>) returns (commits: seq<Commit>)
    ensures commits == FileHistory(stdout)
  {
    commits := [];
    if stdout.None? {
      return;
    }
    var lines := Split(Strip(stdout.value), "\n");
    var parsed := Parsed(lines);
    var i := 0;
    while i < |lines|
      invariant 0 <= i <= |lines|
      invariant commits == Somes(parsed[..i])
    {
      var line := lines[i];
      assert parsed[i] == ParseLine(line);
      SomesStep(parsed, i);
      if line != [] {
        var parts := SplitMax(line, Bar, 2);
        if |parts| == 3 {
          commits := commits + [Commit(parts[0], parts[1], parts[2])];
        }
      }
      i := i + 1;
    }
    assert parsed[..i] == parsed;
  }

  // ---------------------------------------------------------------------------
  // The token rows

  /** The statistics file at a commit, as its numeric fields. */
  type FileData = map<string, int>

  const TokensKey: string := "number_of_tokens"
  const SamplesKey: string := "number_of_samples"

  /** One row of the history. */
  datatype Row = Row(date: int, tokens: int, samples: int, commit: string, commitShort: string, message: string)

  /** `commit_hash[:8]`. */
  function ShortHash(hash: string): (short: string)
    ensures |short| == if |hash| < 8 then |hash| else 8
    ensures hash[..|short|] == short
  {
    if |hash| < 8 then hash else hash[..8]
  }

  /** The row of a commit: only when the file can be read at that commit,
      has a token count, and the day of the commit date parses. */
  function RowOf(c: Commit, fileAt: string -> Option<FileData>, parseDate: string -> Option<int>): Option<Row>
  {
    match fileAt(c.hash)
    case None => None
    case Some(data) =>
      if TokensKey !in data then None
      else
        match parseDate(Split(c.date, " ")[0])
        case None => None
        case Some(day) =>
          Some(Row(day, data[TokensKey], if SamplesKey in data then data[SamplesKey] else 0, c.hash, ShortHash(c.hash), c.message))
  }

  /** A row is made exactly when the file is there with a token count and the
      date parses; the samples default to zero and the short commit is the
      hash's first eight characters. */
  lemma RowOfSpec(c: Commit, fileAt: string -> Option<FileData>, parseDate: string -> Option<int>)
    ensures RowOf(c, fileAt, parseDate).Some? <==>
      fileAt(c.hash).Some? && TokensKey in fileAt(c.hash).value && parseDate(Split(c.date, " ")[0]).Some?
    ensures RowOf(c, fileAt, parseDate).Some? ==>
      var r := RowOf(c, fileAt, parseDate).value;
      var data := fileAt(c.hash).value;
      && r.date == parseDate(Split(c.date, " ")[0]).value
      && r.tokens == data[TokensKey]
      && (SamplesKey in data ==> r.samples == data[SamplesKey])
      && (SamplesKey !in data ==> r.samples == 0)
      && r.commit == c.hash && r.message == c.message
      && StartsWith(r.commit, r.commitShort) && |r.commitShort| == (if |c.hash| < 8 then |c.hash| else 8)
  {
  }

  /** The row, if any, of each commit. */
  function RowOptions(commits: seq<Commit>, fileAt: string -> Option<FileData>, parseDate: string -> Option<int>): (r: seq<Option<Row>>)
    ensures |r| == |commits|
  {
    seq(|commits|, k requires 0 <= k < |commits| => RowOf(commits[k], fileAt, parseDate))
  }

  /** The rows the loop of `create_token_dataframe` collects. */
  function Rows(commits: seq<Commit>, fileAt: string -> Option<FileData>, parseDate: string -> Option<int>): seq<Row>
  {
    Somes(RowOptions(commits, fileAt, parseDate))
  }

  /** Every row comes from one of the commits, and a commit gives at most
      one row. */
  lemma RowsFromCommits(commits: seq<Commit>, fileAt: string -> Option<FileData>, parseDate: string -> Option<int>)
    ensures |Rows(commits, fileAt, parseDate)| <= |commits|
    ensures forall k :: 0 <= k < |Rows(commits, fileAt, parseDate)| ==>
      exists m :: 0 <= m < |commits| && RowOf(commits[m], fileAt, parseDate) == Some(Rows(commits, fileAt, parseDate)[k])
  {
    var os := RowOptions(commits, fileAt, parseDate);
    SomesFrom(os);
    forall k | 0 <= k < |Somes(os)|
      ensures exists m :: 0 <= m < |commits| && RowOf(commits[m], fileAt, parseDate) == Some(Somes(os)[k])
    {
      var m :| 0 <= m < |os| && os[m] == Some(Somes(os)[k]);
      assert RowOf(commits[m], fileAt, parseDate) == os[m];
    }
  }

  /** When every commit gives a row, the rows are the commits' rows one for
      one, in log order. */
  lemma RowsAll(commits: seq<Commit>, fileAt: string -> Option<FileData>, parseDate: string -> Option<int>)
    requires forall k :: 0 <= k < |commits| ==> RowOf(commits[k], fileAt, parseDate).Some?
    ensures |Rows(commits, fileAt, parseDate)| == |commits|
    ensures forall k :: 0 <= k < |commits| ==> RowOf(commits[k], fileAt, parseDate) == Some(Rows(commits, fileAt, parseDate)[k])
  {
    SomesAll(RowOptions(commits, fileAt, parseDate));
  }

  /** The history: its rows, and the token changes when there are at least
      two rows. */
  datatype TokenFrame = TokenFrame(rows: seq<Row>, changes: Option<seq<Option<int>>>)

  /** Sorting by date, earliest first, is sorting by the negated date,
      largest first. */
  function Earliness(r: Row): int
  {
    -r.date
  }

  /** `diff()`: nothing for the first row, the change from the row before for
      every other. */
  function Diff(rows: seq<Row>): (d: seq<Option<int>>)
    ensures |d| == |rows|
  {
    seq(|rows|, k requires 0 <= k < |rows| => if k == 0 then None else Some(rows[k].tokens - rows[k - 1].tokens))
  }

  /** The rows sorted by date and their token changes. */
  function Frame(rows: seq<Row>): TokenFrame
  {
    var sorted := Ranking.SortDesc(rows, Earliness);
    TokenFrame(sorted, if |sorted| > 1 then Some(Diff(sorted)) else None)
  }

  /** `create_token_dataframe`. */
  function TokenDataframe(stdout: Option<string>, fileAt: string -> Option<FileData>, parseDate: string -> Option<int>): TokenFrame
  {
    Frame(Rows(FileHistory(stdout), fileAt, parseDate))
  }

  /** The loop of `create_token_dataframe` over the commits. */
  method CollectRows(commits: seq<Commit>, fileAt: string -> Option<FileData>, parseDate: string -> Option<int>)
    returns (data: seq<Row>)
    ensures data == Rows(commits, fileAt, parseDate)
  {
    var os := RowOptions(commits, fileAt, parseDate);
    data := [];
    var i := 0;
    while i < |commits|
      invariant 0 <= i <= |commits|
      invariant data == Somes(os[..i])
    {
      var c := commits[i];
      assert os[..i + 1] == os[..i] + [RowOf(c, fileAt, parseDate)];
      SomesAppend(os[..i], [RowOf(c, fileAt, parseDate)]);
      var fileData := fileAt(c.hash);
      if fileData.Some? && TokensKey in fileData.value {
        var day := parseDate(Split(c.date, " ")[0]);
        if day.Some? {
          var samples := if SamplesKey in fileData.value then fileData.value[SamplesKey] else 0;
          data := data + [Row(day.value, fileData.value[TokensKey], samples, c.hash, ShortHash(c.hash), c.message)];
        }
      }
      i := i + 1;
    }
    assert os[..i] == os;
  }

  /** `create_token_dataframe`: the history, the rows of its commits, then
      sorting and the changes. */
  method CreateTokenDataframe(stdout: Option<string>, fileAt: string -> Option<FileData>, parseDate: string -> Option<int>)
    returns (frame: TokenFrame)
    ensures frame == TokenDataframe(stdout, fileAt, parseDate)
  {
    var commits := GetFileHistory(stdout);
    if commits == [] {
      return TokenFrame([], None);
    }
    var data := CollectRows(commits, fileAt, parseDate);
    if data == [] {
      return TokenFrame([], None);
    }
    frame := Frame(data);
  }

  /** The frame's rows are the collected rows, none lost or added, in date
      order; the changes are there exactly when there are two rows or more. */
  lemma FrameSpec(rows: seq<Row>)
    ensures multiset(Frame(rows).rows) == multiset(rows)
    ensures forall i, j :: 0 <= i < j < |Frame(rows).rows| ==> Frame(rows).rows[i].date <= Frame(rows).rows[j].date
    ensures Frame(rows).changes.Some? <==> |rows| > 1
  {
    Ranking.SortDescSpec(rows, Earliness);
  }

  /** The sum of the changes present. */
  function SumChanges(d: seq<Option<int>>): int
  {
    if d == [] then 0 else SumChanges(d[..|d| - 1]) + (match d[|d| - 1] case Some(x) => x case None => 0)
  }

  /** The changes add up: the first row's tokens plus the changes up to row
      `k` are row `k`'s tokens. */
  lemma {:induction false} DiffTelescopes(rows: seq<Row>, k: nat)
    requires k < |rows|
    ensures rows[0].tokens + SumChanges(Diff(rows)[..k + 1]) == rows[k].tokens
    decreases k
  {
    var d := Diff(rows);
    if k == 0 {
      assert d[..1] == [None];
      assert d[..1][..0] == [];
    } else {
      DiffTelescopes(rows, k - 1);
      assert d[..k + 1][..k] == d[..k];
    }
  }
}
