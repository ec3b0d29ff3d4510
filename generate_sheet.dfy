/** The dataset-card generator: the answers gathered from the user fill a
    template (its YAML frontmatter and its markdown body), and the new dataset
    is registered among the `configs` of the main README. The prompts, the YAML
    library and the files are outside the model: the answers arrive as a
    `CardData` value, loading and dumping YAML are the parameters `load` and
    `dump`, and the main README is an object holding its configs. */
module GenerateSheet {
  import opened Wrappers
  import opened TextOps
  import Datasheet

  // ---------------------------------------------------------------------------
  // Choices and the license name

  const LanguagesChoices: seq<string> := ["en", "da", "se", "no"]
  const LicenseIdChoices: seq<string> := ["cc0-1.0", "cc-by-sa-4.0", "apache-2.0", "other"]
  const LicenseNamesMapping: map<string, string> :=
    map["cc0-1.0" := "CC-0", "cc-by-sa-4.0" := "CC-BY-SA 4.0", "apache-2.0" := "Apache 2.0"]
  const OtherLicense: string := "other"
  const UnknownLicense: string := "Unknown"

  /** The license name the prompts settle on: typed in by the user for
      "other", otherwise looked up, with "Unknown" for an id the mapping does
      not know. */
  function LicenseName(licenseId: string, typedName: string): (name: string)
    ensures licenseId == OtherLicense ==> name == typedName
    ensures licenseId != OtherLicense && licenseId in LicenseNamesMapping ==> name == LicenseNamesMapping[licenseId]
    ensures licenseId != OtherLicense && licenseId !in LicenseNamesMapping ==> name == UnknownLicense
  {
    if licenseId == OtherLicense then typedName
    else if licenseId in LicenseNamesMapping then LicenseNamesMapping[licenseId]
    else UnknownLicense
  }

  /** Every license id offered by the prompt gets a real name: the fallback is
      never used for them. */
  lemma ChoicesHaveNames(licenseId: string, typedName: string)
    requires licenseId in LicenseIdChoices && licenseId != OtherLicense
    ensures LicenseName(licenseId, typedName) in LicenseNamesMapping.Values
    ensures LicenseName(licenseId, typedName) != UnknownLicense
  {
    assert licenseId in LicenseNamesMapping;
  }

  const ContributionOpen: string := "This data has been contributed by ["
  const ContributionClose: string := "] through the [Dansk Sprogmodel Konsortium](https://alexandra.dk/dsk)."

  /** The contribution notice: naming the company when the user gave one,
      empty otherwise. */
  function ContributionLine(company: Option<string>): (line: string)
    ensures company.None? <==> line == []
    ensures company.Some? ==> StartsWith(line, ContributionOpen) && EndsWith(line, ContributionClose)
  {
    match company
    case None => []
    case Some(name) => ContributionOpen + name + ContributionClose
  }

  /** The answers the prompts collect. */
  datatype CardData = CardData(
    prettyName: string,
    datasetId: string,
    languages: seq<string>,
    domains: seq<string>,
    licenseId: string,
    licenseName: string,
    shortDescription: string,
    longDescription: string,
    licenseInformation: string,
    citationInformation: string,
    contributionLine: string)

  // ---------------------------------------------------------------------------
  // The body: placeholders replaced in a fixed order

  const ContributionPlaceholder: string := "<!-- CONTRIBUTION-PLACEHOLDER -->"

  /** The placeholders and what replaces them, in the order they are replaced. */
  function Placeholders(data: CardData): (pairs: seq<(string, string)>)
    ensures |pairs| == 6
    ensures forall k :: 0 <= k < |pairs| ==> pairs[k].0 != []
  {
    [ ("PRETTY_NAME", data.prettyName),
      ("LICENSE_INFORMATION", data.licenseInformation),
      ("CITATION_INFORMATION", data.citationInformation),
      ("SHORT_DESCRIPTION", data.shortDescription),
      ("LONG_DESCRIPTION", data.longDescription),
      (ContributionPlaceholder, data.contributionLine) ]
  }

  /** Each pair's `replace` in turn, each on the text the previous one left. */
  function ReplaceAll(s: string, pairs: seq<(string, string)>): string
    requires forall k :: 0 <= k < |pairs| ==> pairs[k].0 != []
    decreases |pairs|
  {
    if pairs == [] then s
    else ReplaceAll(Replace(s, pairs[0].0, pairs[0].1), pairs[1..])
  }

  /** The body of the card. */
  function FillBody(body: string, data: CardData): string
  {
    ReplaceAll(body, Placeholders(data))
  }

  /** A text without the pattern is left as it is by `replace`. */
  lemma ReplaceAbsent(s: string, pat: string, rep: string)
    requires pat != [] && !Contains(s, pat)
    ensures Replace(s, pat, rep) == s
  {
  }

  /** A text holding none of the patterns passes through every replacement. */
  lemma {:induction false} ReplaceAllAbsent(s: string, pairs: seq<(string, string)>)
    requires forall k :: 0 <= k < |pairs| ==> pairs[k].0 != [] && !Contains(s, pairs[k].0)
    ensures ReplaceAll(s, pairs) == s
    decreases |pairs|
  {
    if pairs != [] {
      ReplaceAbsent(s, pairs[0].0, pairs[0].1);
      ReplaceAllAbsent(s, pairs[1..]);
    }
  }

  /** A body with none of the placeholders is the card's body unchanged. */
  lemma FillBodyNoPlaceholders(body: string, data: CardData)
    requires forall k :: 0 <= k < 6 ==> !Contains(body, Placeholders(data)[k].0)
    ensures FillBody(body, data) == body
  {
    ReplaceAllAbsent(body, Placeholders(data));
  }

  /** `replace` is the text split at the pattern and joined with the
      replacement. */
  lemma {:induction false} ReplaceIsJoinSplit(s: string, pat: string, rep: string)
    requires pat != []
    ensures Replace(s, pat, rep) == Join(Split(s, pat), rep)
    decreases |s|
  {
    match Find(s, pat)
    case None =>
    case Some(i) =>
      var rest := s[i + |pat|..];
      ReplaceIsJoinSplit(rest, pat, rep);
      var parts := Split(s, pat);
      assert parts == [s[..i]] + Split(rest, pat);
      assert parts[0] == s[..i] && parts[1..] == Split(rest, pat);
  }

  /** Replacing a pattern by itself changes nothing. */
  lemma ReplaceSelf(s: string, pat: string)
    requires pat != []
    ensures Replace(s, pat, pat) == s
  {
    ReplaceIsJoinSplit(s, pat, pat);
    JoinSplit(s, pat);
  }

  /** The chain of replacements is the first part of the chain, then the
      rest on the text it left. */
  lemma {:induction false} ReplaceAllAppend(s: string, a: seq<(string, string)>, b: seq<(string, string)>)
    requires forall k :: 0 <= k < |a| ==> a[k].0 != []
    requires forall k :: 0 <= k < |b| ==> b[k].0 != []
    ensures forall k :: 0 <= k < |a + b| ==> (a + b)[k].0 != []
    ensures ReplaceAll(s, a + b) == ReplaceAll(ReplaceAll(s, a), b)
    decreases |a|
  {
    assert forall k :: 0 <= k < |a + b| ==> (a + b)[k] == if k < |a| then a[k] else b[k - |a|];
    if a == [] {
      assert a + b == b;
    } else {
      assert (a + b)[0] == a[0] && (a + b)[1..] == a[1..] + b;
      ReplaceAllAppend(Replace(s, a[0].0, a[0].1), a[1..], b);
    }
  }

  /** The replacements run in order: a body that is just the first
      placeholder becomes the pretty name with every later placeholder in it
      replaced, whatever the data. */
  lemma FillPrettyName(data: CardData)
    ensures FillBody("PRETTY_NAME", data) == ReplaceAll(data.prettyName, Placeholders(data)[1..])
  {
    ReplaceAllWhole("PRETTY_NAME", Placeholders(data));
  }

  /** An illustration of `FillPrettyName`: a pretty name that reads
      `LONG_DESCRIPTION` ends up as the long description. */
  lemma OrderMatters(data: CardData)
    requires data.prettyName == "LONG_DESCRIPTION" && data.longDescription == "x"
    ensures FillBody("PRETTY_NAME", data) == "x"
  {
    var p0 := Placeholders(data);
    var p1 := p0[1..];
    var p2 := p1[1..];
    var p3 := p2[1..];
    var p4 := p3[1..];
    var p5 := p4[1..];
    var s1 := data.prettyName;
    ReplaceAllWhole("PRETTY_NAME", p0);
    SkipLonger(s1, p1);
    SkipLonger(s1, p2);
    SkipLonger(s1, p3);
    ReplaceAllWhole(s1, p4);
    SkipLonger("x", p5);
    assert p5[1..] == [];
  }

  /** A text that is exactly the first pattern becomes its replacement. */
  lemma ReplaceAllWhole(s: string, pairs: seq<(string, string)>)
    requires pairs != [] && pairs[0].0 == s
    requires forall k :: 0 <= k < |pairs| ==> pairs[k].0 != []
    ensures ReplaceAll(s, pairs) == ReplaceAll(pairs[0].1, pairs[1..])
  {
    ReplaceWhole(s, pairs[0].1);
  }

  /** A text that is exactly the pattern is replaced as a whole. */
  lemma ReplaceWhole(s: string, rep: string)
    requires s != []
    ensures Replace(s, s, rep) == rep
  {
    assert Find(s, s) == Some(0);
    assert s[|s|..] == [];
    assert Replace([], s, rep) == [];
    assert s[..0] + rep + [] == rep;
  }

  /** A first pattern longer than the text leaves the text alone. */
  lemma SkipLonger(s: string, pairs: seq<(string, string)>)
    requires pairs != [] && |pairs[0].0| > |s|
    requires forall k :: 0 <= k < |pairs| ==> pairs[k].0 != []
    ensures ReplaceAll(s, pairs) == ReplaceAll(s, pairs[1..])
  {
    ReplaceAbsent(s, pairs[0].0, pairs[0].1);
  }

  // ---------------------------------------------------------------------------
  // The frontmatter: an ordered YAML mapping

  /** The YAML values the card's frontmatter is given. */
  datatype Yaml = YText(s: string) | YList(items: seq<string>) | YOther(source: string)

  /** A YAML mapping in the order its keys were loaded or added. */
  type Mapping = seq<(string, Yaml)>

  function Keys(m: Mapping): (keys: seq<string>)
    ensures |keys| == |m|
    ensures forall k :: 0 <= k < |m| ==> keys[k] == m[k].0
  {
    if m == [] then [] else [m[0].0] + Keys(m[1..])
  }

  /** The value under `key`. */
  function Lookup(m: Mapping, key: string): Option<Yaml>
  {
    if m == [] then None
    else if m[0].0 == key then Some(m[0].1)
    else Lookup(m[1..], key)
  }

  /** `front_matter[key] = value` on a dict: a key already present keeps its
      place and takes the new value; a new key goes at the end. */
  function SetKey(m: Mapping, key: string, value: Yaml): Mapping
  {
    if m == [] then [(key, value)]
    else if m[0].0 == key then [(key, value)] + m[1..]
    else [m[0]] + SetKey(m[1..], key, value)
  }

  /** After the assignment the key reads the new value and every other key
      reads what it did. */
  lemma {:induction false} SetKeyLookup(m: Mapping, key: string, value: Yaml, other: string)
    ensures Lookup(SetKey(m, key, value), key) == Some(value)
    ensures other != key ==> Lookup(SetKey(m, key, value), other) == Lookup(m, other)
    decreases |m|
  {
    if m != [] && m[0].0 != key {
      SetKeyLookup(m[1..], key, value, other);
    }
  }

  /** The assignment keeps the key order: an existing key stays where it is,
      a new one is appended. */
  lemma {:induction false} SetKeyKeys(m: Mapping, key: string, value: Yaml)
    ensures Keys(SetKey(m, key, value)) == if key in Keys(m) then Keys(m) else Keys(m) + [key]
    decreases |m|
  {
    if m != [] && m[0].0 != key {
      SetKeyKeys(m[1..], key, value);
      assert Keys(m) == [m[0].0] + Keys(m[1..]);
      assert key in Keys(m) <==> key in Keys(m[1..]);
    }
  }

  const PrettyNameKey: string := "pretty_name"
  const LanguageKey: string := "language"
  const LicenseKey: string := "license"
  const LicenseNameKey: string := "license_name"
  const DomainsKey: string := "domains"

  /** The five assignments made to the loaded frontmatter, in order. */
  function UpdateFrontmatter(m: Mapping, data: CardData): Mapping
  {
    var m1 := SetKey(m, PrettyNameKey, YText(data.prettyName));
    var m2 := SetKey(m1, LanguageKey, YList(data.languages));
    var m3 := SetKey(m2, LicenseKey, YText(data.licenseId));
    var m4 := SetKey(m3, LicenseNameKey, YText(data.licenseName));
    SetKey(m4, DomainsKey, YList(data.domains))
  }

  /** The updated frontmatter carries the answers under the five keys. */
  lemma UpdateFrontmatterSets(m: Mapping, data: CardData)
    ensures var u := UpdateFrontmatter(m, data);
      && Lookup(u, PrettyNameKey) == Some(YText(data.prettyName))
      && Lookup(u, LanguageKey) == Some(YList(data.languages))
      && Lookup(u, LicenseKey) == Some(YText(data.licenseId))
      && Lookup(u, LicenseNameKey) == Some(YText(data.licenseName))
      && Lookup(u, DomainsKey) == Some(YList(data.domains))
  {
    var m1 := SetKey(m, PrettyNameKey, YText(data.prettyName));
    var m2 := SetKey(m1, LanguageKey, YList(data.languages));
    var m3 := SetKey(m2, LicenseKey, YText(data.licenseId));
    var m4 := SetKey(m3, LicenseNameKey, YText(data.licenseName));
    SetKeyLookup(m, PrettyNameKey, YText(data.prettyName), PrettyNameKey);
    SetKeyLookup(m1, LanguageKey, YList(data.languages), PrettyNameKey);
    SetKeyLookup(m2, LicenseKey, YText(data.licenseId), PrettyNameKey);
    SetKeyLookup(m3, LicenseNameKey, YText(data.licenseName), PrettyNameKey);
    SetKeyLookup(m4, DomainsKey, YList(data.domains), PrettyNameKey);
    SetKeyLookup(m2, LicenseKey, YText(data.licenseId), LanguageKey);
    SetKeyLookup(m3, LicenseNameKey, YText(data.licenseName), LanguageKey);
    SetKeyLookup(m4, DomainsKey, YList(data.domains), LanguageKey);
    SetKeyLookup(m3, LicenseNameKey, YText(data.licenseName), LicenseKey);
    SetKeyLookup(m4, DomainsKey, YList(data.domains), LicenseKey);
    SetKeyLookup(m4, DomainsKey, YList(data.domains), LicenseNameKey);
  }

  /** Every other key of the template's frontmatter keeps its value. */
  lemma UpdateFrontmatterOthers(m: Mapping, data: CardData, other: string)
    requires other != PrettyNameKey && other != LanguageKey && other != LicenseKey
    requires other != LicenseNameKey && other != DomainsKey
    ensures Lookup(UpdateFrontmatter(m, data), other) == Lookup(m, other)
  {
    var m1 := SetKey(m, PrettyNameKey, YText(data.prettyName));
    var m2 := SetKey(m1, LanguageKey, YList(data.languages));
    var m3 := SetKey(m2, LicenseKey, YText(data.licenseId));
    var m4 := SetKey(m3, LicenseNameKey, YText(data.licenseName));
    SetKeyLookup(m, PrettyNameKey, YText(data.prettyName), other);
    SetKeyLookup(m1, LanguageKey, YList(data.languages), other);
    SetKeyLookup(m2, LicenseKey, YText(data.licenseId), other);
    SetKeyLookup(m3, LicenseNameKey, YText(data.licenseName), other);
    SetKeyLookup(m4, DomainsKey, YList(data.domains), other);
  }

  /** One assignment keeps the keys as a prefix and adds at most one. */
  lemma SetKeyExtends(m: Mapping, key: string, value: Yaml)
    ensures Keys(m) <= Keys(SetKey(m, key, value))
    ensures |SetKey(m, key, value)| <= |m| + 1
  {
    SetKeyKeys(m, key, value);
  }

  /** The template's keys come first and in their order; at most the five
      keys are added after them. */
  lemma UpdateFrontmatterKeys(m: Mapping, data: CardData)
    ensures Keys(m) <= Keys(UpdateFrontmatter(m, data))
    ensures |UpdateFrontmatter(m, data)| <= |m| + 5
  {
    var m1 := SetKey(m, PrettyNameKey, YText(data.prettyName));
    var m2 := SetKey(m1, LanguageKey, YList(data.languages));
    var m3 := SetKey(m2, LicenseKey, YText(data.licenseId));
    var m4 := SetKey(m3, LicenseNameKey, YText(data.licenseName));
    var u := SetKey(m4, DomainsKey, YList(data.domains));
    SetKeyExtends(m, PrettyNameKey, YText(data.prettyName));
    SetKeyExtends(m1, LanguageKey, YList(data.languages));
    SetKeyExtends(m2, LicenseKey, YText(data.licenseId));
    SetKeyExtends(m3, LicenseNameKey, YText(data.licenseName));
    SetKeyExtends(m4, DomainsKey, YList(data.domains));
    var k0, k1, k2, k3, k4, k5 := Keys(m), Keys(m1), Keys(m2), Keys(m3), Keys(m4), Keys(u);
    assert k0 <= k1 <= k2;
    assert k2 <= k3 <= k4;
    assert k0 <= k4 <= k5;
  }

  // ---------------------------------------------------------------------------
  // `create_card_content`

  const IndexError: string := "list index out of range"
  const NotAMapping: string := "the template's frontmatter is not a YAML mapping"

  /** `template.split("---", 2)`, of which the second and third parts are
      taken: the text between the first two `---` and everything after the
      second. Fewer than two `---` leave too few parts. */
  function TemplateParts(template: string): (r: Result<(string, string)>)
    ensures r.Failure? ==> r.error == IndexError
  {
    var first := Find(template, Datasheet.Fence);
    if first.None? then Failure(IndexError)
    else
      var rest := template[first.value + 3..];
      var second := Find(rest, Datasheet.Fence);
      if second.None? then Failure(IndexError)
      else Success((rest[..second.value], rest[second.value + 3..]))
  }

  /** The template splits exactly when it holds `---` twice. */
  lemma TemplatePartsCount(template: string)
    ensures TemplateParts(template).Success? <==> Count(template, Datasheet.Fence) >= 2
  {
    match Find(template, Datasheet.Fence)
    case None =>
    case Some(i) =>
      var rest := template[i + 3..];
      assert Count(template, Datasheet.Fence) == 1 + Count(rest, Datasheet.Fence);
      match Find(rest, Datasheet.Fence)
      case None =>
      case Some(j) =>
  }

  /** A split template is its head, a first `---`, the frontmatter (free of
      `---`), a second `---` and the body. */
  lemma TemplatePartsLayout(template: string)
    requires TemplateParts(template).Success?
    ensures var parts := TemplateParts(template).value;
      exists i ::
        && IsFirst(template, Datasheet.Fence, i)
        && template == template[..i] + Datasheet.Fence + parts.0 + Datasheet.Fence + parts.1
        && !Contains(parts.0, Datasheet.Fence)
  {
    var i := Find(template, Datasheet.Fence).value;
    var rest := template[i + 3..];
    var j := Find(rest, Datasheet.Fence).value;
    var parts := TemplateParts(template).value;
    assert parts == (rest[..j], rest[j + 3..]);
    assert |Datasheet.Fence| == 3;
    TwoFences(template, Datasheet.Fence, i, rest, j);
  }

  /** The text around the first two occurrences of a pattern. */
  lemma TwoFences(template: string, fence: string, i: nat, rest: string, j: nat)
    requires fence != [] && Find(template, fence) == Some(i) && rest == template[i + |fence|..]
    requires Find(rest, fence) == Some(j)
    ensures IsFirst(template, fence, i)
    ensures template == template[..i] + fence + rest[..j] + fence + rest[j + |fence|..]
    ensures !Contains(rest[..j], fence)
  {
    AroundFirst(template, fence, i);
    AroundFirst(rest, fence, j);
    assert template == template[..i] + fence + (rest[..j] + fence + rest[j + |fence|..]);
  }

  /** `create_card_content`: the template split at its first two `---`, the
      frontmatter loaded, updated and dumped, the body filled, and the card
      put together with fences. */
  function CreateCardContent(template: string, data: CardData, load: string -> Option<Mapping>, dump: Mapping -> string): (r: Result<string>)
    ensures r.Success? <==> TemplateParts(template).Success? && load(TemplateParts(template).value.0).Some?
    ensures r.Success? ==> StartsWith(r.value, "---\n")
  {
    match TemplateParts(template)
    case Failure(e) => Failure(e)
    case Success((front, body)) =>
      match load(front)
      case None => Failure(NotAMapping)
      case Some(m) => Success("---\n" + dump(UpdateFrontmatter(m, data)) + "---\n" + FillBody(body, data))
  }

  /** The card reads back with the datasheet's frontmatter reader: the dumped
      YAML (which ends in a line feed and holds no `---`) comes back stripped,
      and the filled body comes back behind the line feed that ends the
      closing fence. */
  lemma CardReadBack(template: string, data: CardData, load: string -> Option<Mapping>, dump: Mapping -> string)
    requires CreateCardContent(template, data, load, dump).Success?
    ensures var (front, body) := TemplateParts(template).value;
      var yaml := dump(UpdateFrontmatter(load(front).value, data));
      EndsWith(yaml, "\n") && !Contains(yaml, Datasheet.Fence) ==>
        Datasheet.GetFrontmatterAndBody(CreateCardContent(template, data, load, dump).value)
          == Success((Strip(yaml), "\n" + FillBody(body, data)))
  {
    var (front, body) := TemplateParts(template).value;
    var yaml := dump(UpdateFrontmatter(load(front).value, data));
    if EndsWith(yaml, "\n") && !Contains(yaml, Datasheet.Fence) {
      FencedReadBack(yaml, FillBody(body, data));
    }
  }

  /** A text of the form `---\n<yaml>---\n<body>` reads back as the stripped
      YAML and the body behind its line feed. */
  lemma FencedReadBack(yaml: string, body: string)
    requires EndsWith(yaml, "\n") && !Contains(yaml, Datasheet.Fence)
    ensures Datasheet.GetFrontmatterAndBody("---\n" + yaml + "---\n" + body)
      == Success((Strip(yaml), "\n" + body))
  {
    var q := yaml[..|yaml| - 1];
    assert yaml == q + "\n";
    var tail := "\n" + body;
    var content := "---\n" + yaml + "---\n" + body;
    assert content == Datasheet.Framed(Datasheet.Fence, q, Datasheet.Fence + tail);
    Datasheet.FramedParts(Datasheet.Fence, q, Datasheet.Fence + tail);
    assert !Contains(q, Datasheet.Fence) by {
      if Contains(q, Datasheet.Fence) {
        var k :| 0 <= k <= |q| && OccursAt(q, Datasheet.Fence, k);
        OccursPrefix(yaml, |q|, Datasheet.Fence, k);
      }
    }
    var e := |q| + 5;
    forall j | 3 <= j < e
      ensures !OccursAt(content, Datasheet.Fence, j)
    {
      if OccursAt(content, Datasheet.Fence, j) {
        OccursAroundLine(Datasheet.Fence, q, Datasheet.Fence + tail, Datasheet.Fence, j);
      }
    }
    OccursShift(content, e, Datasheet.Fence, 0);
    FindFromIsFirst(content, Datasheet.Fence, 3, e);
    assert content[3..e] == "\n" + yaml;
    assert AllSpace("\n");
    LStripSpaces("\n", yaml);
    assert content[e + 3..] == tail;
  }

  // ---------------------------------------------------------------------------
  // `add_dataset_to_readme`

  /** One entry of the README's `configs`: its `config_name` and its other
      fields. */
  datatype Config = Config(name: string, fields: map<string, string>)

  const DefaultConfig: string := "default"

  /** The names of the configs other than "default", in order. */
  function Listed(configs: seq<Config>): seq<string>
  {
    if configs == [] then []
    else (if configs[0].name != DefaultConfig then [configs[0].name] else []) + Listed(configs[1..])
  }

  /** A name is listed exactly when some config other than "default" has it. */
  lemma {:induction false} ListedSpec(configs: seq<Config>, id: string)
    ensures id in Listed(configs) <==>
      id != DefaultConfig && exists k :: 0 <= k < |configs| && configs[k].name == id
    decreases |configs|
  {
    if configs != [] {
      ListedSpec(configs[1..], id);
      if exists k :: 0 <= k < |configs[1..]| && configs[1..][k].name == id {
        var k :| 0 <= k < |configs[1..]| && configs[1..][k].name == id;
        assert configs[k + 1].name == id;
      }
      if exists k :: 0 <= k < |configs| && configs[k].name == id {
        var k :| 0 <= k < |configs| && configs[k].name == id;
        if k > 0 {
          assert configs[1..][k - 1].name == id;
        }
      }
    }
  }

  /** The configs after registering `id`. */
  function Registered(configs: seq<Config>, id: string): seq<Config>
  {
    if id in Listed(configs) then configs else configs + [Config(id, map[])]
  }

  lemma {:induction false} ListedAppend(configs: seq<Config>, c: Config)
    ensures Listed(configs + [c]) == Listed(configs) + (if c.name != DefaultConfig then [c.name] else [])
    decreases |configs|
  {
    if configs == [] {
      assert configs + [c] == [c];
      assert [c][1..] == [];
    } else {
      assert (configs + [c])[1..] == configs[1..] + [c];
      ListedAppend(configs[1..], c);
    }
  }

  /** Registering a name other than "default" twice is registering it once,
      and afterwards it is listed. */
  lemma RegisterIdempotent(configs: seq<Config>, id: string)
    requires id != DefaultConfig
    ensures id in Listed(Registered(configs, id))
    ensures Registered(Registered(configs, id), id) == Registered(configs, id)
  {
    if id !in Listed(configs) {
      ListedAppend(configs, Config(id, map[]));
    }
  }

  /** "default" is never listed, so registering it appends it every time. */
  lemma RegisterDefault(configs: seq<Config>)
    ensures Registered(configs, DefaultConfig) == configs + [Config(DefaultConfig, map[])]
  {
    ListedSpec(configs, DefaultConfig);
  }

  /** The main README with its frontmatter's configs: `configs` is the list in
      memory, `saved` the list as last written to the file. */
  class MainReadme {
    var configs: seq<Config>
    var saved: seq<Config>

    constructor(configs: seq<Config>)
      ensures this.configs == configs && saved == configs
    {
      this.configs := configs;
      saved := configs;
    }

    /** `add_dataset_to_readme`: an id not yet listed is appended as a config
        of its own and the README is written; a listed id changes nothing. */
    method AddDataset(id: string)
      modifies this
      ensures configs == Registered(old(configs), id)
      ensures id in Listed(old(configs)) ==> saved == old(saved)
      ensures id !in Listed(old(configs)) ==> saved == configs
    {
      if id !in Listed(configs) {
        configs := configs + [Config(id, map[])];
        saved := configs;
      }
    }
  }
}
