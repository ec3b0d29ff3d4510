/** The command that refreshes every datasheet's statistics: which version of a
    dataset it reads, which datasheets it touches and in what order.

    The file system is an input: the dataset's folder is a listing of type
    folders, each with a listing of its children. Version strings are parsed
    and ordered by parameters: `parse` yields a version or nothing, and `le`
    is the version order, a total preorder (versions such as 1.0 and 1.0.0
    are equivalent under it). */
module UpdateStats {
  import opened Wrappers

  /** The dataset that stands for the whole collection. */
  const Default: string := "default"

  /** The type folders of a dataset, by priority; a lower number is preferred. */
  const TypePriority: map<string, nat> := map["processed" := 1, "dedup" := 2, "original" := 3]

  /** A child of a type folder. */
  datatype Entry = Entry(name: string, isDir: bool)

  /** A child of the dataset folder, with its own children. */
  datatype TypeDir = TypeDir(name: string, isDir: bool, children: seq<Entry>)

  /** A version folder found under a known type folder: its priority, its
      parsed version and where it is. */
  datatype Candidate<V> = Candidate(priority: nat, version: V, typeName: string, dirName: string)

  /** `le` orders every pair of versions and is transitive. */
  ghost predicate TotalPreorder<V(!new)>(le: (V, V) -> bool)
  {
    && (forall a, b :: le(a, b) || le(b, a))
    && (forall a, b, c :: le(a, b) && le(b, c) ==> le(a, c))
  }

  // ---------------------------------------------------------------------------
  // The folder-name pattern

  /** The group of `^v(.+)$` when it matches `name`: `.` takes any character
      but a line feed, and `$` also matches before a line feed that ends the
      name. */
  function VersionGroup(name: string): (g: Option<string>)
    ensures g.Some? ==>
      && g.value != [] && '\n' !in g.value
      && (name == "v" + g.value || name == "v" + g.value + "\n")
  {
    if |name| < 2 || name[0] != 'v' then None
    else if '\n' !in name[1..] then Some(name[1..])
    else if name[|name| - 1] == '\n' && '\n' !in name[1..|name| - 1] && |name| > 2 then
      Some(name[1..|name| - 1])
    else None
  }

  /** Every name the pattern should match, it matches, with that group. */
  lemma VersionGroupMatches(name: string, g: string)
    requires g != [] && '\n' !in g
    requires name == "v" + g || name == "v" + g + "\n"
    ensures VersionGroup(name) == Some(g)
  {
    if name == "v" + g {
      assert name[1..] == g;
    } else {
      assert name[1..|name| - 1] == g;
      assert name[|name| - 1] == '\n' && '\n' in name[1..];
    }
  }

  // ---------------------------------------------------------------------------
  // Candidates

  /** The candidate one child of a type folder contributes: none unless it is a
      folder whose name matches the pattern with a group that parses. */
  function CandidateOf<V>(typeName: string, priority: nat, child: Entry, parse: string -> Option<V>): seq<Candidate<V>>
  {
    if !child.isDir then []
    else match VersionGroup(child.name)
      case None => []
      case Some(g) =>
        match parse(g)
        case None => []
        case Some(v) => [Candidate(priority, v, typeName, child.name)]
  }

  /** The candidates of a type folder's children, in listing order. */
  function ChildCandidates<V>(typeName: string, priority: nat, children: seq<Entry>, parse: string -> Option<V>): seq<Candidate<V>>
    decreases |children|
  {
    if children == [] then []
    else
      ChildCandidates(typeName, priority, children[..|children| - 1], parse)
      + CandidateOf(typeName, priority, children[|children| - 1], parse)
  }

  /** The candidates of one child of the dataset folder: none unless it is a
      folder of a known type. */
  function TypeCandidates<V>(t: TypeDir, parse: string -> Option<V>): seq<Candidate<V>>
  {
    if t.isDir && t.name in TypePriority then ChildCandidates(t.name, TypePriority[t.name], t.children, parse)
    else []
  }

  /** The candidates of the whole listing, in listing order. */
  function Candidates<V>(listing: seq<TypeDir>, parse: string -> Option<V>): seq<Candidate<V>>
    decreases |listing|
  {
    if listing == [] then []
    else Candidates(listing[..|listing| - 1], parse) + TypeCandidates(listing[|listing| - 1], parse)
  }

  /** Child `j` of type folder `i` is a version folder: the type folder is a
      folder of a known type, the child a folder whose name matches the pattern
      and whose group parses. */
  predicate IsVersionDir<V>(listing: seq<TypeDir>, i: int, j: int, parse: string -> Option<V>)
  {
    && 0 <= i < |listing| && listing[i].isDir && listing[i].name in TypePriority
    && 0 <= j < |listing[i].children| && listing[i].children[j].isDir
    && VersionGroup(listing[i].children[j].name).Some?
    && parse(VersionGroup(listing[i].children[j].name).value).Some?
  }

  /** The candidate a version folder gives. */
  function CandidateAt<V>(listing: seq<TypeDir>, i: int, j: int, parse: string -> Option<V>): Candidate<V>
    requires IsVersionDir(listing, i, j, parse)
  {
    var t := listing[i];
    Candidate(TypePriority[t.name], parse(VersionGroup(t.children[j].name).value).value, t.name, t.children[j].name)
  }

  /** Child `j` is a folder whose name matches the pattern with a group that parses. */
  predicate ChildFits<V>(children: seq<Entry>, j: int, parse: string -> Option<V>)
  {
    && 0 <= j < |children| && children[j].isDir
    && VersionGroup(children[j].name).Some? && parse(VersionGroup(children[j].name).value).Some?
  }

  function ChildCandidate<V>(typeName: string, priority: nat, children: seq<Entry>, j: int, parse: string -> Option<V>): Candidate<V>
    requires ChildFits(children, j, parse)
  {
    Candidate(priority, parse(VersionGroup(children[j].name).value).value, typeName, children[j].name)
  }

  /** Every candidate of a type folder comes from one of its version folders. */
  lemma {:induction false} ChildCandidateOrigin<V>(typeName: string, priority: nat, children: seq<Entry>, parse: string -> Option<V>, k: int)
    requires 0 <= k < |ChildCandidates(typeName, priority, children, parse)|
    ensures exists j :: (ChildFits(children, j, parse)
      && ChildCandidates(typeName, priority, children, parse)[k] == ChildCandidate(typeName, priority, children, j, parse))
    decreases |children|
  {
    var n := |children| - 1;
    var init := children[..n];
    var cs0 := ChildCandidates(typeName, priority, init, parse);
    if k < |cs0| {
      ChildCandidateOrigin(typeName, priority, init, parse, k);
      var j :| ChildFits(init, j, parse) && cs0[k] == ChildCandidate(typeName, priority, init, j, parse);
      assert init[j] == children[j];
      assert ChildFits(children, j, parse);
    } else {
      assert ChildFits(children, n, parse);
    }
  }

  /** Every version folder of a type folder is among its candidates. */
  lemma {:induction false} ChildCandidateFound<V>(typeName: string, priority: nat, children: seq<Entry>, parse: string -> Option<V>, j: int)
    requires ChildFits(children, j, parse)
    ensures exists k :: (0 <= k < |ChildCandidates(typeName, priority, children, parse)|
      && ChildCandidates(typeName, priority, children, parse)[k] == ChildCandidate(typeName, priority, children, j, parse))
    decreases |children|
  {
    var n := |children| - 1;
    var init := children[..n];
    var cs0 := ChildCandidates(typeName, priority, init, parse);
    var cs := ChildCandidates(typeName, priority, children, parse);
    if j < n {
      assert init[j] == children[j];
      ChildCandidateFound(typeName, priority, init, parse, j);
      var k :| 0 <= k < |cs0| && cs0[k] == ChildCandidate(typeName, priority, init, j, parse);
      assert cs[k] == cs0[k];
    } else {
      assert cs[|cs0|] == ChildCandidate(typeName, priority, children, j, parse);
    }
  }

  /** Every candidate of the listing is a `v…` folder directly under a known
      type folder. */
  lemma {:induction false} CandidateOrigin<V>(listing: seq<TypeDir>, parse: string -> Option<V>, k: int)
    requires 0 <= k < |Candidates(listing, parse)|
    ensures exists i, j :: IsVersionDir(listing, i, j, parse) && Candidates(listing, parse)[k] == CandidateAt(listing, i, j, parse)
    decreases |listing|
  {
    var n := |listing| - 1;
    var init := listing[..n];
    var t := listing[n];
    var cs0 := Candidates(init, parse);
    if k < |cs0| {
      CandidateOrigin(init, parse, k);
      var i, j :| IsVersionDir(init, i, j, parse) && cs0[k] == CandidateAt(init, i, j, parse);
      assert init[i] == listing[i];
      assert IsVersionDir(listing, i, j, parse);
    } else {
      ChildCandidateOrigin(t.name, TypePriority[t.name], t.children, parse, k - |cs0|);
      var j :| ChildFits(t.children, j, parse)
        && TypeCandidates(t, parse)[k - |cs0|] == ChildCandidate(t.name, TypePriority[t.name], t.children, j, parse);
      assert IsVersionDir(listing, n, j, parse);
    }
  }

  /** Every `v…` folder directly under a known type folder whose version parses
      is a candidate. */
  lemma {:induction false} CandidateFound<V>(listing: seq<TypeDir>, parse: string -> Option<V>, i: int, j: int)
    requires IsVersionDir(listing, i, j, parse)
    ensures exists k :: 0 <= k < |Candidates(listing, parse)| && Candidates(listing, parse)[k] == CandidateAt(listing, i, j, parse)
    decreases |listing|
  {
    var n := |listing| - 1;
    var init := listing[..n];
    var t := listing[n];
    var cs0 := Candidates(init, parse);
    var cs := Candidates(listing, parse);
    if i < n {
      assert init[i] == listing[i];
      assert IsVersionDir(init, i, j, parse);
      CandidateFound(init, parse, i, j);
      var k :| 0 <= k < |cs0| && cs0[k] == CandidateAt(init, i, j, parse);
      assert cs[k] == cs0[k];
    } else {
      var ts := TypeCandidates(t, parse);
      assert cs == cs0 + ts;
      assert ChildFits(t.children, j, parse);
      assert CandidateAt(listing, i, j, parse) == ChildCandidate(t.name, TypePriority[t.name], t.children, j, parse);
      ChildCandidateFound(t.name, TypePriority[t.name], t.children, parse, j);
      var k :| 0 <= k < |ts| && ts[k] == ChildCandidate(t.name, TypePriority[t.name], t.children, j, parse);
      assert cs[|cs0| + k] == ts[k];
    }
  }

  // ---------------------------------------------------------------------------
  // Choosing the latest version

  /** `a` beats `b` under the key `(-priority, version)`: a lower priority, or
      the same priority and a strictly greater version. */
  predicate Better<V>(a: Candidate<V>, b: Candidate<V>, le: (V, V) -> bool)
  {
    a.priority < b.priority || (a.priority == b.priority && !le(a.version, b.version))
  }

  lemma BetterTransitive<V(!new)>(a: Candidate<V>, b: Candidate<V>, c: Candidate<V>, le: (V, V) -> bool)
    requires TotalPreorder(le)
    requires Better(a, b, le) && Better(b, c, le)
    ensures Better(a, c, le)
  {
  }

  lemma BetterIrreflexive<V(!new)>(a: Candidate<V>, le: (V, V) -> bool)
    requires TotalPreorder(le)
    ensures !Better(a, a, le)
  {
    assert le(a.version, a.version) || le(a.version, a.version);
  }

  /** Candidate `k` is a best one: no candidate beats it. */
  predicate IsBest<V>(cs: seq<Candidate<V>>, k: int, le: (V, V) -> bool)
  {
    0 <= k < |cs| && forall i :: 0 <= i < |cs| ==> !Better(cs[i], cs[k], le)
  }

  /** A best candidate has the lowest priority present, and the greatest
      version among the candidates of that priority. */
  lemma BestMeans<V(!new)>(cs: seq<Candidate<V>>, k: int, le: (V, V) -> bool)
    requires TotalPreorder(le)
    requires IsBest(cs, k, le)
    ensures forall i :: 0 <= i < |cs| ==> cs[k].priority <= cs[i].priority
    ensures forall i :: 0 <= i < |cs| && cs[i].priority == cs[k].priority ==> le(cs[i].version, cs[k].version)
  {
  }

  /** The scan of `find_latest_dataset_version`: the candidates of every type
      folder in listing order. */
  method CollectCandidates<V>(listing: seq<TypeDir>, parse: string -> Option<V>) returns (candidates: seq<Candidate<V>>)
    ensures candidates == Candidates(listing, parse)
  {
    candidates := [];
    var i := 0;
    while i < |listing|
      invariant 0 <= i <= |listing|
      invariant candidates == Candidates(listing[..i], parse)
    {
      var t := listing[i];
      assert listing[..i + 1][..i] == listing[..i];
      if !t.isDir || t.name !in TypePriority {
        i := i + 1;
        continue;
      }
      var found := CollectVersions(t.name, TypePriority[t.name], t.children, parse);
      candidates := candidates + found;
      i := i + 1;
    }
    assert listing[..i] == listing;
  }

  /** The inner loop of the scan, over one type folder's children. */
  method CollectVersions<V>(typeName: string, priority: nat, children: seq<Entry>, parse: string -> Option<V>)
    returns (found: seq<Candidate<V>>)
    ensures found == ChildCandidates(typeName, priority, children, parse)
  {
    found := [];
    var j := 0;
    while j < |children|
      invariant 0 <= j <= |children|
      invariant found == ChildCandidates(typeName, priority, children[..j], parse)
    {
      var child := children[j];
      assert children[..j + 1][..j] == children[..j];
      if !child.isDir {
        j := j + 1;
        continue;
      }
      var g := VersionGroup(child.name);
      if g.None? {
        j := j + 1;
        continue;
      }
      var parsed := parse(g.value);
      if parsed.Some? {
        found := found + [Candidate(priority, parsed.value, typeName, child.name)];
      }
      j := j + 1;
    }
    assert children[..j] == children;
  }

  /** `max` with the key `(-priority, version)`: the first candidate that no
      other beats. */
  method SelectBest<V(!new)>(candidates: seq<Candidate<V>>, le: (V, V) -> bool) returns (best: nat)
    requires TotalPreorder(le)
    requires candidates != []
    ensures IsBest(candidates, best, le)
    ensures forall i :: 0 <= i < best ==> Better(candidates[best], candidates[i], le)
  {
    best := 0;
    var k := 1;
    BetterIrreflexive(candidates[0], le);
    while k < |candidates|
      invariant 1 <= k <= |candidates| && 0 <= best < k
      invariant forall i :: 0 <= i < k ==> !Better(candidates[i], candidates[best], le)
      invariant forall i :: 0 <= i < best ==> Better(candidates[best], candidates[i], le)
    {
      if Better(candidates[k], candidates[best], le) {
        forall i | 0 <= i < k
          ensures !Better(candidates[i], candidates[k], le)
          ensures Better(candidates[k], candidates[i], le)
        {
          if Better(candidates[i], candidates[k], le) {
            BetterTransitive(candidates[i], candidates[k], candidates[best], le);
          }
          NotBetterFlip(candidates[i], candidates[best], candidates[k], le);
        }
        BetterIrreflexive(candidates[k], le);
        best := k;
      }
      k := k + 1;
    }
  }

  /** `find_latest_dataset_version`: nothing when the dataset folder is not a
      folder or holds no version folder; otherwise the type and name of the
      first best candidate. */
  method FindLatestDatasetVersion<V(!new)>(rootIsDir: bool, listing: seq<TypeDir>, parse: string -> Option<V>, le: (V, V) -> bool)
    returns (latest: Option<(string, string)>)
    requires TotalPreorder(le)
    ensures !rootIsDir ==> latest == None
    ensures rootIsDir ==> (latest.None? <==> Candidates(listing, parse) == [])
    ensures latest.Some? ==> exists k ::
      && IsBest(Candidates(listing, parse), k, le)
      && (forall i :: 0 <= i < k ==> Better(Candidates(listing, parse)[k], Candidates(listing, parse)[i], le))
      && latest.value == (Candidates(listing, parse)[k].typeName, Candidates(listing, parse)[k].dirName)
    ensures latest.Some? ==> exists i, j ::
      IsVersionDir(listing, i, j, parse) && latest.value == (listing[i].name, listing[i].children[j].name)
  {
    if !rootIsDir {
      return None;
    }
    var candidates := CollectCandidates(listing, parse);
    if candidates == [] {
      return None;
    }
    var best := SelectBest(candidates, le);
    latest := Some((candidates[best].typeName, candidates[best].dirName));
    CandidateOrigin(listing, parse, best);
  }

  /** If `b` is at least as good as `a` and `c` beats `b`, then `c` beats `a`. */
  lemma NotBetterFlip<V(!new)>(a: Candidate<V>, b: Candidate<V>, c: Candidate<V>, le: (V, V) -> bool)
    requires TotalPreorder(le)
    requires !Better(a, b, le) && Better(c, b, le)
    ensures Better(c, a, le)
  {
  }


  // ---------------------------------------------------------------------------
  // Which datasheets are updated

  /** The datasets named in the main datasheet's configs, without "default". */
  function ConfiguredDatasets(configNames: seq<string>): (r: seq<string>)
    ensures forall x :: x in r <==> x in configNames && x != Default
    ensures |r| <= |configNames|
  {
    if configNames == [] then []
    else (if configNames[0] != Default then [configNames[0]] else []) + ConfiguredDatasets(configNames[1..])
  }

  /** A single name is kept exactly when it is not "default". */
  lemma ConfiguredDatasetsOne(x: string)
    ensures ConfiguredDatasets([x]) == if x != Default then [x] else []
  {
    assert [x][1..] == [];
  }

  /** The configured datasets keep the configs' order and repeats: those of
      two pieces, in order, are those of the whole. */
  lemma {:induction false} ConfiguredDatasetsAppend(a: seq<string>, b: seq<string>)
    ensures ConfiguredDatasets(a + b) == ConfiguredDatasets(a) + ConfiguredDatasets(b)
    decreases |a|
  {
    if a == [] {
      assert a + b == b;
    } else {
      assert (a + b)[0] == a[0] && (a + b)[1..] == a[1..] + b;
      ConfiguredDatasetsAppend(a[1..], b);
    }
  }

  /** `main`: one named dataset when one is given (an empty name counts as none);
      otherwise every configured dataset in order, then "default" last. */
  method UpdateOrder(dataset: Option<string>, datasets: seq<string>) returns (updated: seq<string>)
    ensures dataset.Some? && dataset.value != [] ==> updated == [dataset.value]
    ensures dataset.None? || dataset.value == [] ==> updated == datasets + [Default]
  {
    if dataset.Some? && dataset.value != [] {
      return [dataset.value];
    }
    updated := [];
    var i := 0;
    while i < |datasets|
      invariant 0 <= i <= |datasets|
      invariant updated == datasets[..i]
    {
      updated := updated + [datasets[i]];
      i := i + 1;
    }
    assert datasets[..i] == datasets;
    updated := updated + [Default];
  }

  /** Where a dataset's statistics come from. */
  datatype StatsSource =
    | LatestVersion(typeName: string, dirName: string)
    | StatsFiles

  /** What `update_dataset` does for one dataset. */
  datatype UpdatePlan =
    | Skipped
    | NotFound
    | Update(folder: seq<string>, readme: string, statsFile: seq<string>, source: StatsSource, tables: seq<string>)

  const TableTags: seq<string> := ["MAIN TABLE", "DOMAIN TABLE", "LICENSE TABLE"]

  /** The path and skip rules of `update_dataset`: datasets live in
      `data/<name>/<name>.md`, "default" is the repository root and its
      README.md; existing statistics are kept unless forced; a dataset without
      a version folder is left alone; "default" sums the statistics files and
      also refreshes its three tables. */
  function PlanUpdate(name: string, force: bool, statsExist: bool, latest: Option<(string, string)>): (p: UpdatePlan)
    ensures p.Skipped? <==> statsExist && !force
    ensures p.NotFound? <==> !(statsExist && !force) && name != Default && latest.None?
    ensures p.Update? ==>
      && (p.source.StatsFiles? <==> name == Default)
      && (p.source.LatestVersion? ==> latest == Some((p.source.typeName, p.source.dirName)))
      && (name == Default ==> p.folder == [] && p.readme == "README.md" && p.tables == TableTags)
      && (name != Default ==> p.folder == ["data", name] && p.readme == name + ".md" && p.tables == [])
      && p.statsFile == p.folder + ["descriptive_stats.json"]
  {
    var folder := if name != Default then ["data", name] else [];
    var readme := if name == Default then "README.md" else name + ".md";
    if statsExist && !force then Skipped
    else if name != Default then
      match latest
      case None => NotFound
      case Some((t, d)) => Update(folder, readme, folder + ["descriptive_stats.json"], LatestVersion(t, d), [])
    else Update(folder, readme, folder + ["descriptive_stats.json"], StatsFiles, TableTags)
  }
}
