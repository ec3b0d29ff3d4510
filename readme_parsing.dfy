/** The string helpers the test suite keeps beside the datasheet class: a
    frontmatter reader whose body keeps the closing fence, and stand-alone
    copies of the tag lookup and the tag replacement, written with `find`,
    `count`, `partition` and an f-string. Each copy is related to its
    counterpart in `Datasheet`. */
module ReadmeParsing {
  import opened Wrappers
  import opened TextOps
  import Datasheet

  const NoFrontmatter: string := "No frontmatter found in file"

  /** The string part of `read_frontmatter_and_body`: the content must start
      with `---` and hold another `---` at index 3 or later; the frontmatter is
      the stripped text between the fences and the body starts AT the closing
      fence. */
  function ReadFrontmatterAndBody(content: string): (r: Result<(string, string)>)
    ensures r.Success? <==>
      StartsWith(content, Datasheet.Fence) && exists j :: 3 <= j <= |content| && OccursAt(content, Datasheet.Fence, j)
    ensures r.Success? ==> StartsWith(r.value.1, Datasheet.Fence)
    ensures r.Success? ==> exists e ::
      && 3 <= e && IsFirstFence(content, e)
      && r.value == (Strip(content[3..e]), content[e..])
  {
    FindFromSome(content, Datasheet.Fence, 3);
    if StartsWith(content, Datasheet.Fence) then
      match FindFrom(content, Datasheet.Fence, 3)
      case Some(e) => Success((Strip(content[3..e]), content[e..]))
      case None => Failure(NoFrontmatter)
    else Failure(NoFrontmatter)
  }

  /** `e` is the first `---` at index 3 or later. */
  predicate IsFirstFence(content: string, e: int)
  {
    OccursAt(content, Datasheet.Fence, e) && forall j :: 3 <= j < e ==> !OccursAt(content, Datasheet.Fence, j)
  }

  /** The two frontmatter readers accept the same files and read the same
      frontmatter; the test helper's body is the datasheet's body with the
      closing fence in front. */
  lemma ReadersAgree(content: string)
    ensures ReadFrontmatterAndBody(content).Success? <==> Datasheet.GetFrontmatterAndBody(content).Success?
    ensures ReadFrontmatterAndBody(content).Success? ==>
      var (fm, body) := Datasheet.GetFrontmatterAndBody(content).value;
      ReadFrontmatterAndBody(content).value == (fm, Datasheet.Fence + body)
  {
    if StartsWith(content, Datasheet.Fence) {
      match FindFrom(content, Datasheet.Fence, 3)
      case Some(e) =>
        assert content[e..] == content[e..e + 3] + content[e + 3..];
      case None =>
    }
  }

  /** The test helper's `get_tag_idx`, on Python's integer `find`. */
  function GetTagIdx(readme: string, tag: string): (r: Result<(int, int)>)
    ensures r.Success? ==> 0 <= r.value.0 < r.value.1
    ensures r.Failure? ==> r.error == Datasheet.TagErrorOpen + tag + Datasheet.TagErrorClose
  {
    var startIdx := PyFind(readme, Datasheet.StartMarker(tag));
    var endIdx := PyFind(readme, Datasheet.EndMarker(tag));
    if endIdx != -1 && startIdx != -1 && startIdx < endIdx then Success((startIdx, endIdx))
    else Failure(Datasheet.TagErrorOpen + tag + Datasheet.TagErrorClose)
  }

  /** The test helper's `get_tag_content`. */
  function GetTagContent(readme: string, tag: string): (r: Result<string>)
    ensures r.Failure? <==> GetTagIdx(readme, tag).Failure?
    ensures r.Success? ==> Stripped(r.value)
  {
    match GetTagIdx(readme, tag)
    case Failure(msg) => Failure(msg)
    case Success((s, e)) =>
      StripIsStripped(PySlice(readme, s + |Datasheet.StartMarker(tag)|, e));
      Success(Strip(PySlice(readme, s + |Datasheet.StartMarker(tag)|, e)))
  }

  /** The two copies of the tag lookup agree: same indices, same content, same
      error. */
  lemma TagLookupAgrees(readme: string, tag: string)
    ensures GetTagIdx(readme, tag).Success? <==> Datasheet.GetTagIdx(readme, tag).Success?
    ensures GetTagIdx(readme, tag).Success? ==>
      GetTagIdx(readme, tag).value == Datasheet.GetTagIdx(readme, tag).value
    ensures GetTagContent(readme, tag) == Datasheet.GetTagContent(readme, tag)
  {
    TagIdxAgrees(readme, tag);
    var a := GetTagIdx(readme, tag);
    if a.Success? {
      var s, e := a.value.0, a.value.1;
      var c := Strip(PySlice(readme, s + |Datasheet.StartMarker(tag)|, e));
      assert Datasheet.GetTagIdx(readme, tag) == Success((s, e));
      assert GetTagContent(readme, tag) == Success(c);
      assert Datasheet.GetTagContent(readme, tag) == Success(c);
    }
  }

  /** The two copies of `get_tag_idx` give the same indices or the same error. */
  lemma TagIdxAgrees(readme: string, tag: string)
    ensures GetTagIdx(readme, tag).Success? <==> Datasheet.GetTagIdx(readme, tag).Success?
    ensures GetTagIdx(readme, tag).Success? ==>
      GetTagIdx(readme, tag).value == Datasheet.GetTagIdx(readme, tag).value
    ensures GetTagIdx(readme, tag).Failure? ==>
      GetTagIdx(readme, tag).error == Datasheet.GetTagIdx(readme, tag).error
  {
  }

  /** The string branch of the test helper's `replace_tag`. */
  function ReplaceTag(markdown: string, package: string, tag: string): (r: Result<string>)
    ensures r.Failure? <==>
      Count(markdown, Datasheet.StartMarker(tag)) != 1 || Count(markdown, Datasheet.EndMarker(tag)) != 1
  {
    Datasheet.MarkersShape(tag);
    ReplaceMarked(markdown, package, Datasheet.StartMarker(tag), Datasheet.EndMarker(tag))
  }

  /** The count check, the two partitions and the f-string of the helper's
      `replace_tag`, once the markers are built. */
  function ReplaceMarked(markdown: string, package: string, tagStart: string, tagEnd: string): (r: Result<string>)
    requires tagStart != [] && tagEnd != []
    ensures r.Failure? <==> Count(markdown, tagStart) != 1 || Count(markdown, tagEnd) != 1
  {
    if Count(markdown, tagStart) != 1 || Count(markdown, tagEnd) != 1 then
      Failure(Datasheet.MarkersError(tagStart, tagEnd))
    else
      var (startMd, _, remainder) := Partition(markdown, tagStart);
      var (_, _, endMd) := Partition(remainder, tagEnd);
      Success(startMd + tagStart + "\n" + Strip(package) + "\n" + tagEnd + endMd)
  }

  /** The helper's splice and the datasheet's agree for any markers. */
  lemma ReplaceMarkedAgrees(markdown: string, package: string, tagStart: string, tagEnd: string)
    requires tagStart != [] && tagEnd != []
    ensures ReplaceMarked(markdown, package, tagStart, tagEnd)
      == Datasheet.ReplaceBetween(markdown, package, tagStart, tagEnd)
  {
    if Count(markdown, tagStart) == 1 && Count(markdown, tagEnd) == 1 {
      var (startMd, _, remainder) := Partition(markdown, tagStart);
      var (_, _, endMd) := Partition(remainder, tagEnd);
      var q := Strip(package);
      FramedFlat(startMd + tagStart, q, tagEnd, endMd);
      assert startMd + tagStart + "\n" + q + "\n" + tagEnd + endMd
        == Datasheet.Splice(markdown, q, tagStart, tagEnd);
    }
  }

  /** The f-string written flat is the framed text. */
  lemma FramedFlat(x: string, q: string, y: string, z: string)
    ensures x + "\n" + q + "\n" + y + z == Datasheet.Framed(x, q, y + z)
  {
  }

  /** The test helper's `replace_tag` gives what the datasheet's gives, result
      and error alike, so every property proved of the one holds of the other. */
  lemma ReplaceTagAgrees(markdown: string, package: string, tag: string)
    ensures ReplaceTag(markdown, package, tag) == Datasheet.ReplaceTag(markdown, package, tag)
  {
    Datasheet.MarkersShape(tag);
    ReplaceMarkedAgrees(markdown, package, Datasheet.StartMarker(tag), Datasheet.EndMarker(tag));
  }

  /** On a body whose markers occur once each and in order, the helper keeps
      everything outside the markers verbatim. */
  lemma ReplaceMarkedPreserves(markdown: string, package: string, tagStart: string, tagEnd: string)
    requires tagStart != [] && tagEnd != []
    requires Count(markdown, tagStart) == 1 && Count(markdown, tagEnd) == 1
    requires Datasheet.InOrder(markdown, tagStart, tagEnd)
    ensures var s, e := Find(markdown, tagStart).value, Find(markdown, tagEnd).value;
      ReplaceMarked(markdown, package, tagStart, tagEnd)
        == Success(markdown[..s] + tagStart + "\n" + Strip(package) + "\n" + tagEnd + markdown[e + |tagEnd|..])
  {
    var s, e := Find(markdown, tagStart).value, Find(markdown, tagEnd).value;
    ReplaceMarkedAgrees(markdown, package, tagStart, tagEnd);
    Datasheet.ReplacePreserves(markdown, package, tagStart, tagEnd);
    FramedFlat(markdown[..s] + tagStart, Strip(package), tagEnd, markdown[e + |tagEnd|..]);
  }
}
