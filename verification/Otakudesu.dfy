/** The otakudesu provider's candidates, and what the pipeline does with them. */
module Otakudesu {
  import opened Basics
  import opened Domain
  import opened GoText
  import opened Identifiers
  import opened Sorting
  import opened StreamCandidates

  /** containerFrom. */
  function ContainerFrom(quality: string, href: string): string {
    var source := ToLower(quality + " " + href);
    if Contains(source, "mp4") then "mp4"
    else if Contains(source, "mkv") then "mkv"
    else "unknown"
  }

  /** The text after the last '/'. */
  function LastSegment(s: string): string
    decreases |s|
  {
    match Cut(s, '/')
    case None => s
    case Some((_, after)) => LastSegment(after)
  }

  /** normalizeDownloadURL: whether the link is direct, and its direct form. */
  function NormalizeDownloadUrl(href: string): (bool, string) {
    if Contains(href, "pixeldrain.com/u/") then
      (true, "https://pixeldrain.com/api/file/" + LastSegment(TrimSlashesRight(href)) + "?download")
    else if Contains(href, "pixeldrain.com/api/file/") then (true, href)
    else if HasSuffix(ToLower(href), ".mp4") then (true, href)
    else (false, href)
  }

  function QualityScore(quality: string): int {
    var q := ToLower(quality);
    if Contains(q, "720") then 40
    else if Contains(q, "480") then 35
    else if Contains(q, "1080") then 30
    else if Contains(q, "360") then 20
    else 10
  }

  /** streamPriority. */
  function StreamPriority(container: string, quality: string, isDirect: bool): int {
    (if isDirect then 100 else 0) + (if container == "mp4" then 50 else 0) + QualityScore(quality)
  }

  /** One link of the download list: the text of its quality heading, its address and its text. */
  datatype Link = Link(heading: string, href: string, text: string)

  function BuildCandidate(link: Link): Candidate {
    var quality := TrimSpace(link.heading);
    var container := ContainerFrom(quality, link.href);
    var (isDirect, url) := NormalizeDownloadUrl(link.href);
    Candidate(if url == "" then link.href else url, container, quality, "", isDirect, isDirect,
              StreamPriority(container, quality, isDirect), TrimSpace(link.text))
  }

  /** StreamCandidates: a candidate for each link with an address, or an error when there is none. */
  function Candidates(links: seq<Link>): Result<seq<Candidate>> {
    var built := Build(links);
    if built == [] then Err else Ok(built)
  }

  predicate HasAddress(link: Link) {
    link.href != ""
  }

  /** The candidates are those of the links that have an address, one each and in their order. */
  function Build(links: seq<Link>): seq<Candidate> {
    Mapped(BuildCandidate, Filter(HasAddress, links))
  }

  /** The appending callback of StreamCandidates. */
  method BuildLoop(links: seq<Link>) returns (candidates: seq<Candidate>)
    ensures candidates == Build(links)
  {
    candidates := [];
    for i := 0 to |links|
      invariant candidates == Build(links[..i])
    {
      BuildNext(links, i);
      if links[i].href != "" {
        candidates := candidates + [BuildCandidate(links[i])];
      }
    }
    assert links[..|links|] == links;
  }

  lemma BuildNext(links: seq<Link>, i: nat)
    requires i < |links|
    ensures Build(links[..i + 1]) == if links[i].href == "" then Build(links[..i]) else Build(links[..i]) + [BuildCandidate(links[i])]
  {
    assert links[..i + 1] == links[..i] + [links[i]];
    FilterAppend(HasAddress, links[..i], links[i]);
    var addressed := Filter(HasAddress, links[..i]);
    if links[i].href == "" {
      assert addressed + [] == addressed;
    } else {
      MappedAppend(BuildCandidate, addressed, links[i]);
    }
  }

  // ---------------------------------------------------------------- one link

  /** A pixeldrain page address, whatever is before its identifier and however many slashes follow it,
      becomes the download address of that identifier. */
  lemma PageLink(before: string, id: string, slashes: string)
    requires Contains(before + "/" + id + slashes, "pixeldrain.com/u/")
    requires '/' !in id && id != "" && AllSlashes(slashes)
    ensures NormalizeDownloadUrl(before + "/" + id + slashes) == (true, "https://pixeldrain.com/api/file/" + id + "?download")
  {
    var href := before + "/" + id + slashes;
    assert href == (before + "/" + id) + slashes;
    TrimmedSlashes(before + "/" + id, slashes);
    LastOf(before, id);
  }

  lemma {:induction false} TrimmedSlashes(s: string, slashes: string)
    requires s != "" && s[|s| - 1] != '/' && AllSlashes(slashes)
    ensures TrimSlashesRight(s + slashes) == s
  {
    if slashes == "" {
      assert s + slashes == s;
    } else {
      var fewer := slashes[..|slashes| - 1];
      assert (s + slashes)[..|s + slashes| - 1] == s + fewer;
      forall c | c in fewer ensures c == '/' { assert c in slashes; }
      assert slashes[|slashes| - 1] in slashes && (s + slashes)[|s + slashes| - 1] == '/';
      TrimmedSlashes(s, fewer);
    }
  }

  lemma {:induction false} LastOf(before: string, id: string)
    requires '/' !in id
    ensures LastSegment(before + "/" + id) == id
    decreases |before|
  {
    var s := before + "/" + id;
    if '/' !in before {
      assert s == before + ['/'] + id;
      CutOf(before, '/', id);
      assert LastSegment(id) == id;
    } else {
      var (first, rest) := Cut(before, '/').value;
      assert s == first + ['/'] + (rest + "/" + id);
      CutOf(first, '/', rest + "/" + id);
      LastOf(rest, id);
    }
  }

  /** Any other link keeps its address; it is direct exactly when it is a pixeldrain file address or
      ends in ".mp4", in any case. */
  lemma OtherLink(href: string)
    requires !Contains(href, "pixeldrain.com/u/")
    ensures NormalizeDownloadUrl(href).1 == href
    ensures NormalizeDownloadUrl(href).0 <==>
      Contains(href, "pixeldrain.com/api/file/") || (|href| >= 4 && ToLower(href[|href| - 4..]) == ".mp4")
  {
    assert |href| >= 4 ==> ToLower(href[|href| - 4..]) == ToLower(href)[|href| - 4..];
  }

  /** How good a quality is: the place of the first of these labels in it, the fifth if there is none. */
  function Rank(quality: string): nat {
    if Contains(ToLower(quality), "720") then 0
    else if Contains(ToLower(quality), "480") then 1
    else if Contains(ToLower(quality), "1080") then 2
    else if Contains(ToLower(quality), "360") then 3
    else 4
  }

  /** Direct links come first, then mp4s, then the better quality: 720p before 480p before 1080p before
      360p. */
  lemma PriorityOrder(link: Link, other: Link)
    ensures var c, d := BuildCandidate(link), BuildCandidate(other);
      c.priority > d.priority <==>
        || (c.isDirect && !d.isDirect)
        || (c.isDirect == d.isDirect && c.container == "mp4" && d.container != "mp4")
        || (c.isDirect == d.isDirect && (c.container == "mp4" <==> d.container == "mp4") && Rank(c.quality) < Rank(d.quality))
  {
    CandidateOf(link);
    CandidateOf(other);
  }

  /** What a link becomes. */
  lemma CandidateOf(link: Link)
    ensures var c := BuildCandidate(link);
      var source := ToLower(TrimSpace(link.heading) + " " + link.href);
      && c.quality == TrimSpace(link.heading) && c.caption == TrimSpace(link.text) && c.codec == ""
      && c.isDirect == c.playable == NormalizeDownloadUrl(link.href).0
      && c.url == NormalizeDownloadUrl(link.href).1
      && c.container == (if Contains(source, "mp4") then "mp4" else if Contains(source, "mkv") then "mkv" else "unknown")
      && c.priority == (if c.isDirect then 100 else 0) + (if c.container == "mp4" then 50 else 0) + [40, 35, 30, 20, 10][Rank(c.quality)]
  {
  }

  lemma BuiltFromLinks(links: seq<Link>)
    ensures forall c :: c in Build(links) ==> exists link :: link in links && c == BuildCandidate(link)
  {
    var addressed := Filter(HasAddress, links);
    FilterMembers(HasAddress, links);
    forall c | c in Build(links) ensures exists link :: link in links && c == BuildCandidate(link) {
      var i :| 0 <= i < |addressed| && Build(links)[i] == c;
      assert addressed[i] in addressed;
    }
  }

  predicate PlainContainer(container: string) {
    container == "mp4" || container == "mkv" || container == "unknown"
  }

  /** The dedupe key of a trimmed quality and one of the three containers. */
  lemma PlainKey(c: Candidate)
    requires PlainContainer(c.container) && TrimSpace(c.quality) == c.quality
    ensures DedupeKey(c) == c.container + "|" + ToLower(c.quality) && '|' !in c.container
  {
    TrimmedFixed(c.container);
    ToLowerConcat(c.container + "|", c.quality);
    ToLowerConcat(c.container, "|");
    assert ToLower(c.container) == c.container && ToLower("|") == "|";
    assert (c.container + "|" + ToLower(c.quality))[0] == c.container[0];
  }

  lemma BuiltIsPlain(link: Link)
    ensures var c := BuildCandidate(link); PlainContainer(c.container) && TrimSpace(c.quality) == c.quality
  {
    TrimSpaceTrims(link.heading);
  }

  lemma QualityScoreIgnoresCase(quality1: string, quality2: string)
    requires ToLower(quality1) == ToLower(quality2)
    ensures QualityScore(quality1) == QualityScore(quality2)
  {
  }

  lemma CutAtBar(container1: string, quality1: string, container2: string, quality2: string)
    requires '|' !in container1 && '|' !in container2
    requires container1 + "|" + quality1 == container2 + "|" + quality2
    ensures container1 == container2 && quality1 == quality2
  {
    CutOf(container1, '|', quality1);
    CutOf(container2, '|', quality2);
  }

  lemma SamePlainKey(c1: Candidate, c2: Candidate)
    requires PlainContainer(c1.container) && TrimSpace(c1.quality) == c1.quality
    requires PlainContainer(c2.container) && TrimSpace(c2.quality) == c2.quality
    requires DedupeKey(c1) == DedupeKey(c2)
    ensures c1.container == c2.container && ToLower(c1.quality) == ToLower(c2.quality)
  {
    PlainKey(c1);
    PlainKey(c2);
    CutAtBar(c1.container, ToLower(c1.quality), c2.container, ToLower(c2.quality));
  }

  /** Candidates with one dedupe key have one container and differ in priority only by the direct
      bonus. */
  lemma SameKeySameScore(link1: Link, link2: Link)
    requires DedupeKey(BuildCandidate(link1)) == DedupeKey(BuildCandidate(link2))
    ensures var c1, c2 := BuildCandidate(link1), BuildCandidate(link2);
      && c1.container == c2.container
      && c1.priority - (if c1.isDirect then 100 else 0) == c2.priority - (if c2.isDirect then 100 else 0)
  {
    var c1, c2 := BuildCandidate(link1), BuildCandidate(link2);
    BuiltIsPlain(link1);
    BuiltIsPlain(link2);
    SamePlainKey(c1, c2);
    QualityScoreIgnoresCase(c1.quality, c2.quality);
  }

  /** A direct candidate is never deduped away in favour of an indirect one. */
  lemma DirectSurvivesDedupe(links: seq<Link>, c: Candidate) returns (kept: Candidate)
    requires c in Build(links) && c.isDirect
    ensures kept in Deduped(Build(links))
    ensures kept.isDirect && kept.playable && kept.container == c.container && DedupeKey(kept) == DedupeKey(c)
  {
    kept := Represented(Build(links), c);
    BuiltFromLinks(links);
    var link1 :| link1 in links && c == BuildCandidate(link1);
    var link2 :| link2 in links && kept == BuildCandidate(link2);
    SameKeySameScore(link1, link2);
  }

  /** If the page offers any direct mp4, the preferred stream is a direct, playable mp4, however
      the final sort breaks ties. */
  lemma PrefersDirectMp4(links: seq<Link>, c: Candidate, resorted: seq<Candidate>)
    requires c in Build(links) && c.isDirect && c.container == "mp4"
    requires SortOf(Ranks, resorted, Normalized(Build(links)))
    ensures Select(resorted).0.Some? && DirectMp4(Select(resorted).0.value)
  {
    var kept := DirectSurvivesDedupe(links, c);
    SurvivingMp4(Deduped(Build(links)), kept);
    SelectsDirectMp4(Build(links), resorted, kept);
  }
}
