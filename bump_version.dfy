/** The release helper: it raises the micro part of the project version and
    rewrites the version row of the README's table in place. */
module BumpVersion {
  import opened Wrappers
  import opened TextOps

  const TableStart: string := "<!-- START README TABLE -->"
  const TableEnd: string := "<!-- END README TABLE -->"
  const VersionMark: string := "**Version**"
  const VersionNotFound: string := "**Version** not found in README table."

  const RowOpen: string := "| **Version** | "
  const RowClose: string := " ([Changelog](/CHANGELOG.md)) |\n"

  /** The table row that names `version`. */
  function VersionRow(version: string): (row: string)
    ensures Contains(row, VersionMark)
  {
    assert OccursAt(RowOpen + version + RowClose, VersionMark, 2);
    RowOpen + version + RowClose
  }

  // ---------------------------------------------------------------------------
  // What `update_readme` does, stated on the lines

  /** What the scan of `update_readme` finds. */
  datatype Scan = Replace(index: nat) | EndReached | NoVersion

  /** Line `i` is at or after a line holding the start marker. */
  predicate InTable(lines: seq<string>, i: int)
  {
    exists k :: 0 <= k <= i && k < |lines| && Contains(lines[k], TableStart)
  }

  /** Line `i` is in the table and holds the version mark. */
  predicate Hit(lines: seq<string>, i: int)
  {
    0 <= i < |lines| && InTable(lines, i) && Contains(lines[i], VersionMark)
  }

  /** The scan from line `i` on, with `inTable` set once the start marker has
      been seen: a version line in the table is replaced; otherwise a line
      holding the end marker is an error, even outside the table. */
  function ScanFrom(lines: seq<string>, i: nat, inTable: bool): (s: Scan)
    requires i <= |lines|
    ensures s.Replace? ==> i <= s.index < |lines|
    decreases |lines| - i
  {
    if i == |lines| then NoVersion
    else
      var inTable' := inTable || Contains(lines[i], TableStart);
      if inTable' && Contains(lines[i], VersionMark) then Replace(i)
      else if Contains(lines[i], TableEnd) then EndReached
      else ScanFrom(lines, i + 1, inTable')
  }

  function ScanLines(lines: seq<string>): (s: Scan)
    ensures s.Replace? ==> s.index < |lines|
  {
    ScanFrom(lines, 0, false)
  }

  /** No line before `i` is a version line in the table or holds the end marker. */
  predicate Clear(lines: seq<string>, i: int)
  {
    forall k :: 0 <= k < i && k < |lines| ==> !Hit(lines, k) && !Contains(lines[k], TableEnd)
  }

  /** The scan from `i` continues the scan from the start. */
  lemma {:induction false} ScanFromSpec(lines: seq<string>, i: nat, inTable: bool)
    requires i <= |lines| && inTable == InTable(lines, i - 1) && Clear(lines, i)
    ensures ScanFrom(lines, i, inTable).Replace? ==>
      var r := ScanFrom(lines, i, inTable).index;
      i <= r && Hit(lines, r) && Clear(lines, r)
    ensures ScanFrom(lines, i, inTable) == EndReached ==>
      exists e :: i <= e < |lines| && Contains(lines[e], TableEnd) && !Hit(lines, e) && Clear(lines, e)
    ensures ScanFrom(lines, i, inTable) == NoVersion ==> Clear(lines, |lines|)
    decreases |lines| - i
  {
    if i < |lines| {
      var inTable' := inTable || Contains(lines[i], TableStart);
      assert inTable' == InTable(lines, i) by {
        if InTable(lines, i) && !inTable {
          var k :| 0 <= k <= i && k < |lines| && Contains(lines[k], TableStart);
          assert k == i;
        }
      }
      if !(inTable' && Contains(lines[i], VersionMark)) && !Contains(lines[i], TableEnd) {
        assert Clear(lines, i + 1);
        ScanFromSpec(lines, i + 1, inTable');
      }
    }
  }

  /** What the scan finds, stated outright: the first version line at or after
      the start marker is replaced unless a line holding the end marker comes
      first; that end line is an error; with neither, nothing changes. */
  lemma ScanSpec(lines: seq<string>)
    ensures ScanLines(lines).Replace? ==>
      var r := ScanLines(lines).index;
      Hit(lines, r) && Clear(lines, r)
    ensures ScanLines(lines) == EndReached ==>
      exists e :: 0 <= e < |lines| && Contains(lines[e], TableEnd) && !Hit(lines, e) && Clear(lines, e)
    ensures ScanLines(lines) == NoVersion ==> Clear(lines, |lines|)
  {
    assert !InTable(lines, -1);
    ScanFromSpec(lines, 0, false);
  }

  /** The three outcomes exclude each other: what the scan finds is the only
      thing that fits the lines. */
  lemma ScanUnique(lines: seq<string>, r: int, e: int)
    ensures Hit(lines, r) && Clear(lines, r) ==> ScanLines(lines) == Replace(r)
    ensures 0 <= e < |lines| && Contains(lines[e], TableEnd) && !Hit(lines, e) && Clear(lines, e) ==>
      ScanLines(lines) == EndReached
  {
    ScanSpec(lines);
  }

  /** `update_readme` on the lines of the README: the version line found by the
      scan is rewritten in place; an end marker reached first raises and
      changes nothing; a README without either is left as it is. */
  method UpdateReadme(lines: array<string>, version: string) returns (r: Result<()>)
    modifies lines
    ensures match ScanLines(old(lines[..]))
      case Replace(i) => r.Success? && lines[..] == old(lines[..])[i := VersionRow(version)]
      case EndReached => r == Failure(VersionNotFound) && lines[..] == old(lines[..])
      case NoVersion => r.Success? && lines[..] == old(lines[..])
  {
    ghost var original := lines[..];
    var inTable := false;
    var i := 0;
    while i < lines.Length
      invariant 0 <= i <= lines.Length
      invariant lines[..] == original
      invariant ScanFrom(original, i, inTable) == ScanLines(original)
    {
      var line := lines[i];
      if Contains(line, TableStart) {
        inTable := true;
      }
      if inTable {
        if Contains(line, VersionMark) {
          lines[i] := VersionRow(version);
          return Success(());
        }
      }
      if Contains(line, TableEnd) {
        return Failure(VersionNotFound);
      }
      i := i + 1;
    }
    r := Success(());
  }

  /** A rewrite leaves the number of lines and every other line as they were,
      and the rewritten line names the new version. */
  lemma ReplaceKeepsOthers(lines: seq<string>, version: string)
    requires ScanLines(lines).Replace?
    ensures var i := ScanLines(lines).index;
      && i < |lines|
      && |lines[i := VersionRow(version)]| == |lines|
      && (forall k :: 0 <= k < |lines| && k != i ==> lines[i := VersionRow(version)][k] == lines[k])
      && Contains(lines[i := VersionRow(version)][i], VersionMark)
  {
    ScanSpec(lines);
  }

  // ---------------------------------------------------------------------------
  // The micro bump of `main`

  /** Segment `k` of a release, zero past its end, as the version's `major`,
      `minor` and `micro` read them. */
  function Segment(release: seq<nat>, k: nat): nat
  {
    if k < |release| then release[k] else 0
  }

  /** The release `main` writes: major, minor and micro plus one; any further
      segment is dropped. */
  function Bump(release: seq<nat>): (bumped: seq<nat>)
    ensures |bumped| == 3
    ensures bumped[0] == Segment(release, 0) && bumped[1] == Segment(release, 1)
    ensures bumped[2] == Segment(release, 2) + 1
  {
    [Segment(release, 0), Segment(release, 1), Segment(release, 2) + 1]
  }

  /** `a` comes before `b` in release order: at the first segment where they
      differ (reading missing segments as zero), `a`'s is smaller. */
  predicate ReleaseLess(a: seq<nat>, b: seq<nat>)
  {
    exists k: nat :: k <= |a| + |b| && Segment(a, k) < Segment(b, k)
      && forall j: nat :: j < k ==> Segment(a, j) == Segment(b, j)
  }

  /** The bumped release comes after the one it was made from. */
  lemma BumpIncreases(release: seq<nat>)
    ensures ReleaseLess(release, Bump(release))
  {
    var b := Bump(release);
    assert forall j: nat :: j < 2 ==> Segment(release, j) == Segment(b, j);
    assert Segment(release, 2) < Segment(b, 2);
    assert 2 <= |release| + |b|;
  }

  /** The version text of a release: its segments in decimal, joined by dots. */
  function ReleaseString(release: seq<nat>): string
  {
    if release == [] then []
    else if |release| == 1 then NatToString(release[0])
    else NatToString(release[0]) + "." + ReleaseString(release[1..])
  }

  /** The text `main` writes: the three numbers in decimal, joined by dots. */
  lemma BumpString(release: seq<nat>)
    ensures ReleaseString(Bump(release))
      == NatToString(Segment(release, 0)) + "." + NatToString(Segment(release, 1)) + "." + NatToString(Segment(release, 2) + 1)
  {
    var b := Bump(release);
    var x, y, z := NatToString(b[0]), NatToString(b[1]), NatToString(b[2]);
    assert b[1..] == [b[1], b[2]] && b[1..][1..] == [b[2]];
    assert ReleaseString([b[2]]) == z;
    assert ReleaseString(b[1..]) == y + "." + z;
    assert ReleaseString(b) == x + "." + (y + "." + z);
    assert x + "." + (y + "." + z) == x + "." + y + "." + z;
  }
}
