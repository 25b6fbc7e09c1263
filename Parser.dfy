/**
 * The two parsers that turn a directory into media items: the Apache autoindex
 * scraper (over the anchors of the document, given as link records) and the
 * `apasnap.json` manifest converter, with the extension-based classifier they share.
 */
module Parser {
  import opened Wrappers
  import opened Text
  import opened Types

  const ImageExtensions: seq<string> := ["jpg", "jpeg", "png", "gif", "webp", "avif", "bmp"]
  const VideoExtensions: seq<string> := ["mp4", "webm", "mov", "mkv"]

  // ---------------------------------------------------------------------------
  // Classification by extension

  /** `name.split('.').pop()`: the text after the last dot, or all of `s` if it has none. */
  function LastSegment(s: string): (r: string)
    ensures '.' !in r
    ensures EndsWith(s, r)
    ensures |r| < |s| ==> s[|s| - |r| - 1] == '.'
    decreases |s|
  {
    if s == [] then []
    else if s[|s| - 1] == '.' then []
    else
      var t := s[..|s| - 1];
      var l := LastSegment(t);
      var r := l + [s[|s| - 1]];
      assert t[|t| - |l|..] == l;
      assert s[|s| - |r|..] == t[|t| - |l|..] + [s[|s| - 1]];
      assert |r| < |s| ==> s[|s| - |r| - 1] == t[|t| - |l| - 1];
      r
  }

  /** The three facts above determine the segment. */
  lemma {:induction false} LastSegmentUnique(s: string, r: string)
    requires '.' !in r && EndsWith(s, r)
    requires |r| < |s| ==> s[|s| - |r| - 1] == '.'
    ensures LastSegment(s) == r
    decreases |s|
  {
    if s == [] {
    } else if s[|s| - 1] == '.' {
      DotEndLeavesNothing(s, r);
    } else {
      var t, q := SegmentStep(s, r);
      LastSegmentUnique(t, q);
    }
  }

  lemma DotEndLeavesNothing(s: string, r: string)
    requires s != [] && s[|s| - 1] == '.'
    requires '.' !in r && EndsWith(s, r)
    ensures r == []
  {
    var last, tail := s[|s| - 1], s[|s| - |r|..];
    assert r == [] || last in tail;
  }

  /** Dropping the last character of both strings keeps the three facts. */
  lemma SegmentStep(s: string, r: string) returns (t: string, q: string)
    requires s != [] && s[|s| - 1] != '.'
    requires '.' !in r && EndsWith(s, r)
    requires |r| < |s| ==> s[|s| - |r| - 1] == '.'
    ensures t == s[..|s| - 1] && r == q + [s[|s| - 1]]
    ensures '.' !in q && EndsWith(t, q)
    ensures |q| < |t| ==> t[|t| - |q| - 1] == '.'
  {
    assert r != [];
    t, q := s[..|s| - 1], r[..|r| - 1];
    assert s[|s| - |r|..] == r;
    assert t[|t| - |q|..] == q;
    assert |q| < |t| ==> t[|t| - |q| - 1] == s[|s| - |r| - 1];
    assert r == q + [s[|s| - 1]];
  }

  /** `list.includes(x)`, walked element by element. */
  function Includes(list: seq<string>, x: string): bool {
    list != [] && (list[0] == x || Includes(list[1..], x))
  }

  lemma {:induction false} IncludesIsMembership(list: seq<string>, x: string)
    ensures Includes(list, x) <==> x in list
  {
    if list != [] {
      IncludesIsMembership(list[1..], x);
      assert list == [list[0]] + list[1..];
    }
  }

  function ExtensionType(ext: string): MediaType {
    if Includes(ImageExtensions, ext) then Image
    else if Includes(VideoExtensions, ext) then Video
    else Unknown
  }

  function GetMediaType(filename: string): MediaType {
    ExtensionType(Lower(LastSegment(filename)))
  }

  /** Only the segment after the LAST dot decides, compared in lower case. */
  lemma MediaTypeOfLastExtension(stem: string, ext: string)
    requires '.' !in ext
    ensures GetMediaType(stem + "." + ext) == ExtensionType(Lower(ext))
  {
    var s := stem + "." + ext;
    assert s[|s| - |ext|..] == ext;
    assert s[|s| - |ext| - 1] == '.';
    LastSegmentUnique(s, ext);
  }

  /** A name without a dot is taken whole as its extension. */
  lemma MediaTypeWithoutDot(name: string)
    requires '.' !in name
    ensures GetMediaType(name) == ExtensionType(Lower(name))
  {
    assert name[|name| - |name|..] == name;
    LastSegmentUnique(name, name);
  }

  /** Classification ignores ASCII case. */
  lemma MediaTypeIgnoresCase(name: string)
    ensures GetMediaType(Lower(name)) == GetMediaType(name)
  {
    var l, seg := Lower(name), LastSegment(name);
    var lseg := Lower(seg);
    forall i | 0 <= i < |lseg| ensures lseg[i] == l[|l| - |seg| + i] && lseg[i] != '.' {
      LowerCharFacts(seg[i]);
    }
    assert l[|l| - |lseg|..] == lseg;
    if |lseg| < |l| {
      LowerCharFacts(name[|name| - |seg| - 1]);
    }
    LastSegmentUnique(l, lseg);
    LowerIdempotent(seg);
  }

  lemma MediaTypeOfPhotoJpg()
    ensures GetMediaType("photo.JPG") == Image
  {
    var stem, ext := "photo", "JPG";
    assert stem + "." + ext == "photo.JPG";
    MediaTypeOfLastExtension(stem, ext);
    JpgIsImage(ext);
  }

  lemma MediaTypeOfLastOfSeveralDots()
    ensures GetMediaType("clip.final.MP4") == Video
  {
    var stem, ext := "clip.final", "MP4";
    assert stem + "." + ext == "clip.final.MP4";
    MediaTypeOfLastExtension(stem, ext);
    Mp4IsVideo(ext);
  }

  lemma MediaTypeOfReportPdf()
    ensures GetMediaType("report.pdf") == Unknown
  {
    var stem, ext := "report", "pdf";
    assert stem + "." + ext == "report.pdf";
    MediaTypeOfLastExtension(stem, ext);
    PdfIsUnknown(ext);
  }

  lemma JpgIsImage(ext: string)
    requires ext == "JPG" || ext == "jpg"
    ensures '.' !in ext && ExtensionType(Lower(ext)) == Image
  {
    assert Lower(ext) == "jpg";
    IncludesIsMembership(ImageExtensions, "jpg");
  }

  lemma Mp4IsVideo(ext: string)
    requires ext == "MP4"
    ensures '.' !in ext && ExtensionType(Lower(ext)) == Video
  {
    assert Lower(ext) == "mp4";
    IncludesIsMembership(ImageExtensions, "mp4");
    IncludesIsMembership(VideoExtensions, "mp4");
  }

  lemma PdfIsUnknown(ext: string)
    requires ext == "pdf"
    ensures '.' !in ext && ExtensionType(Lower(ext)) == Unknown
  {
    assert Lower(ext) == ext;
    PdfNotListed(ext);
  }

  lemma PdfNotListed(ext: string)
    requires ext == "pdf"
    ensures !Includes(ImageExtensions, ext) && !Includes(VideoExtensions, ext)
  {
    IncludesIsMembership(ImageExtensions, ext);
    IncludesIsMembership(VideoExtensions, ext);
  }

  // ---------------------------------------------------------------------------
  // URL construction

  /** The base URL with exactly one `/` appended when it lacks a trailing one. */
  function CleanBase(baseUrl: string): (r: string)
    ensures EndsWith(r, "/")
    ensures EndsWith(baseUrl, "/") ==> r == baseUrl
    ensures !EndsWith(baseUrl, "/") ==> r == baseUrl + "/"
  {
    if EndsWith(baseUrl, "/") then baseUrl else baseUrl + "/"
  }

  /** Cleaning twice is cleaning once. */
  lemma CleanBaseIdempotent(baseUrl: string)
    ensures CleanBase(CleanBase(baseUrl)) == CleanBase(baseUrl)
  {
  }

  /** One leading `/` removed. */
  function StripLeadingSlash(h: string): (r: string)
    ensures StartsWith(h, "/") ==> "/" + r == h
    ensures !StartsWith(h, "/") ==> r == h
  {
    if StartsWith(h, "/") then h[1..] else h
  }

  /** A resolved HTML link: verbatim if it starts with `http`, else under the clean base. */
  function LinkUrl(cleanBase: string, href: string): (r: string)
    ensures StartsWith(href, "http") ==> r == href
    ensures !StartsWith(href, "http") ==> r == cleanBase + StripLeadingSlash(href) && StartsWith(r, cleanBase)
  {
    if StartsWith(href, "http") then href
    else
      StartsWithConcat(cleanBase, StripLeadingSlash(href));
      cleanBase + StripLeadingSlash(href)
  }

  // ---------------------------------------------------------------------------
  // Apache autoindex listing

  /**
   * One anchor of the listing: its `href` attribute (absent or present), its
   * text content, and the text of the node right after it when that node is a
   * text node.
   */
  datatype Link = Link(href: Option<string>, text: string, nextText: Option<string>)

  /** The anchors the scraper ignores. */
  predicate Skipped(link: Link) {
    match link.href
    case None => true
    case Some(h) =>
      h == "" || h == "../" || Trim(link.text) == "Parent Directory" || '?' in h
      || StartsWith(h, "javascript:") || StartsWith(h, "data:")
  }

  /** Date and size read from the text after an anchor, as the pair (date, size). */
  function Metadata(nextText: Option<string>): (string, string) {
    match nextText
    case None => ("", "")
    case Some(t) =>
      var parts := Words(Trim(t));
      if |parts| >= 2 then (parts[0] + " " + parts[1], if |parts| >= 3 then parts[2] else "")
      else ("", "")
  }

  /** The text after an anchor gives a date exactly when it holds at least two words. */
  lemma MetadataNeedsTwoWords(t: string)
    ensures Metadata(Some(t)).0 != "" <==> |Words(Trim(t))| >= 2
    ensures |Words(Trim(t))| < 2 ==> Metadata(Some(t)) == ("", "")
  {
  }

  /** The conventional autoindex layout `date time size`, with any white space around it. */
  lemma MetadataOfAutoindexLayout(t: string, pre: string, day: string, time: string, size: string, tail: string)
    requires day != [] && NoSpace(day) && time != [] && NoSpace(time) && size != [] && NoSpace(size)
    requires forall i :: 0 <= i < |pre| ==> IsSpace(pre[i])
    requires forall i :: 0 <= i < |tail| ==> IsSpace(tail[i])
    requires t == pre + day + " " + time + " " + size + tail
    ensures Metadata(Some(t)) == (day + " " + time, size)
  {
    var core := day + " " + time + " " + size;
    assert t == pre + core + tail;
    TrimAround(pre, core, tail);
    WordsOfThree(core, day, time, size);
  }

  lemma {:induction false} TrimAround(pre: string, core: string, tail: string)
    requires core != [] && !IsSpace(core[0]) && !IsSpace(core[|core| - 1])
    requires forall i :: 0 <= i < |pre| ==> IsSpace(pre[i])
    requires forall i :: 0 <= i < |tail| ==> IsSpace(tail[i])
    ensures Trim(pre + core + tail) == core
  {
    TrimStartSpaces(pre, core + tail);
    assert pre + core + tail == pre + (core + tail);
    assert TrimStart(core + tail) == core + tail;
    TrimEndSpaces(core, tail);
  }

  lemma {:induction false} TrimEndSpaces(core: string, tail: string)
    requires core != [] && !IsSpace(core[|core| - 1])
    requires forall i :: 0 <= i < |tail| ==> IsSpace(tail[i])
    ensures TrimEnd(core + tail) == core
    decreases |tail|
  {
    if tail == [] {
      assert core + tail == core;
    } else {
      var s := core + tail;
      assert s[..|s| - 1] == core + tail[..|tail| - 1];
      TrimEndSpaces(core, tail[..|tail| - 1]);
    }
  }

  /** The identifier `media-<index>-<now>`. */
  function ListingId(index: nat, now: nat): string {
    "media-" + NatToString(index) + "-" + NatToString(now)
  }

  /** The link index can be read back from a listing identifier. */
  lemma ListingIdInjective(i: nat, t: nat, j: nat, u: nat)
    requires ListingId(i, t) == ListingId(j, u)
    ensures i == j
  {
    var a, b := NatToString(i), NatToString(j);
    var x, y := ListingId(i, t), ListingId(j, u);
    assert x[6..] == a + "-" + NatToString(t);
    assert y[6..] == b + "-" + NatToString(u);
    DigitsBeforeDash(a, NatToString(t), b, NatToString(u));
    NatToStringInjective(i, j);
  }

  /** Digit strings followed by a dash cannot be told apart only if they are equal. */
  lemma {:induction false} DigitsBeforeDash(a: string, p: string, b: string, q: string)
    requires forall k :: 0 <= k < |a| ==> IsDigit(a[k])
    requires forall k :: 0 <= k < |b| ==> IsDigit(b[k])
    requires a + "-" + p == b + "-" + q
    ensures a == b
    decreases |a|
  {
    var c := (a + "-" + p)[0];
    assert c == (if a == [] then '-' else a[0]);
    assert c == (b + "-" + q)[0] == (if b == [] then '-' else b[0]);
    if a != [] && b != [] {
      assert a[0] == (a + "-" + p)[0] == (b + "-" + q)[0] == b[0];
      assert (a + "-" + p)[1..] == a[1..] + "-" + p;
      assert (b + "-" + q)[1..] == b[1..] + "-" + q;
      DigitsBeforeDash(a[1..], p, b[1..], q);
    }
  }

  /** What one anchor at position `index` contributes. */
  datatype LinkOutcome = NoItem | Item(item: MediaItem) | DecodeFailed

  function LinkToItem(cleanBase: string, link: Link, index: nat, clock: nat -> nat,
                      decode: string -> Option<string>): LinkOutcome
  {
    if Skipped(link) then NoItem
    else
      var href := link.href.value;
      var cleanHref := StripLeadingSlash(href);
      var kind := GetMediaType(cleanHref);
      if kind == Unknown then NoItem
      else
        var (date, size) := Metadata(link.nextText);
        match decode(cleanHref)
        case None => DecodeFailed
        case Some(name) =>
          Item(MediaItem(ListingId(index, clock(index)), name, LinkUrl(cleanBase, href), kind,
                         Some(size), Some(date)))
  }

  /** Every item an anchor contributes is a resolved image or video with that anchor's id. */
  lemma LinkItemFacts(cleanBase: string, link: Link, index: nat, clock: nat -> nat,
                      decode: string -> Option<string>)
    requires LinkToItem(cleanBase, link, index, clock, decode).Item?
    ensures var it := LinkToItem(cleanBase, link, index, clock, decode).item;
      && (it.kind == Image || it.kind == Video)
      && (StartsWith(it.url, "http") || StartsWith(it.url, cleanBase))
      && it.id == ListingId(index, clock(index))
  {
  }

  /**
   * The items of the first `k` outcomes in order, or `None` once a name failed
   * to decode (the exception aborts the whole `forEach`).
   */
  function Gather(outs: seq<LinkOutcome>, k: nat): Option<seq<MediaItem>>
    requires k <= |outs|
  {
    if k == 0 then Some([])
    else
      match Gather(outs, k - 1)
      case None => None
      case Some(acc) =>
        match outs[k - 1]
        case NoItem => Some(acc)
        case Item(it) => Some(acc + [it])
        case DecodeFailed => None
  }

  /** The positions among the first `k` outcomes that carry an item. */
  function Origins(outs: seq<LinkOutcome>, k: nat): seq<nat>
    requires k <= |outs|
  {
    if k == 0 then [] else Origins(outs, k - 1) + (if outs[k - 1].Item? then [k - 1] else [])
  }

  /** The `forEach` callback: what anchor `index` contributes, under a fixed clean base. */
  function LinkStep(cleanBase: string, clock: nat -> nat, decode: string -> Option<string>): (Link, nat) -> LinkOutcome {
    (link: Link, index: nat) => LinkToItem(cleanBase, link, index, clock, decode)
  }

  /** The outcomes of the first `k` anchors, each computed with its own position. */
  function Outcomes(links: seq<Link>, step: (Link, nat) -> LinkOutcome, k: nat): (outs: seq<LinkOutcome>)
    requires k <= |links|
    ensures |outs| == k
  {
    if k == 0 then []
    else Outcomes(links, step, k - 1) + [step(links[k - 1], k - 1)]
  }

  lemma {:induction false} OutcomeAt(links: seq<Link>, step: (Link, nat) -> LinkOutcome, k: nat, i: nat)
    requires i < k <= |links|
    ensures Outcomes(links, step, k)[i] == step(links[i], i)
  {
    if i < k - 1 {
      OutcomeAt(links, step, k - 1, i);
    }
  }

  /** Outcomes of a longer prefix extend those of a shorter one. */
  lemma {:induction false} OutcomesPrefix(links: seq<Link>, step: (Link, nat) -> LinkOutcome, j: nat, k: nat)
    requires j <= k <= |links|
    ensures Outcomes(links, step, k)[..j] == Outcomes(links, step, j)
  {
    if j < k {
      OutcomesPrefix(links, step, j, k - 1);
      assert Outcomes(links, step, k)[..k - 1] == Outcomes(links, step, k - 1);
    }
  }

  /** The listing: every anchor's outcome, gathered in document order. */
  function Listing(links: seq<Link>, baseUrl: string, clock: nat -> nat,
                   decode: string -> Option<string>): Option<seq<MediaItem>>
  {
    Gather(Outcomes(links, LinkStep(CleanBase(baseUrl), clock, decode), |links|), |links|)
  }

  /**
   * parseApacheDirectoryHtml over the anchors of the parsed document. `clock(i)`
   * is the value of `Date.now()` while anchor `i` is handled; `decode` is
   * `decodeURIComponent`, `None` where it throws.
   */
  method ParseApacheDirectoryHtml(links: seq<Link>, baseUrl: string, clock: nat -> nat,
                                  decode: string -> Option<string>)
    returns (r: Option<seq<MediaItem>>)
    ensures r == Listing(links, baseUrl, clock, decode)
  {
    var cleanBaseUrl := if EndsWith(baseUrl, "/") then baseUrl else baseUrl + "/";
    assert cleanBaseUrl == CleanBase(baseUrl);
    r := GatherLinks(links, LinkStep(cleanBaseUrl, clock, decode));
  }

  /**
   * The `forEach` over the anchors: each anchor's outcome is appended in order,
   * and a decoding failure aborts the whole walk.
   */
  method GatherLinks(links: seq<Link>, step: (Link, nat) -> LinkOutcome) returns (r: Option<seq<MediaItem>>)
    ensures r == Gather(Outcomes(links, step, |links|), |links|)
  {
    ghost var outs := Outcomes(links, step, |links|);
    var items: seq<MediaItem> := [];
    var index := 0;
    while index < |links|
      invariant 0 <= index <= |links|
      invariant Gather(outs, index) == Some(items)
    {
      OutcomeAt(links, step, |links|, index);
      var outcome := step(links[index], index);
      match outcome {
        case DecodeFailed =>
          GatherFailsAt(outs, |outs|, index);
          return None;
        case Item(item) =>
          GatherStep(outs, index, items);
          items := items + [item];
        case NoItem =>
          GatherStep(outs, index, items);
      }
      index := index + 1;
    }
    return Some(items);
  }

  /**
   * A successful gather is exactly the items of the item-carrying outcomes,
   * in increasing position order.
   */
  lemma {:induction false} GatherExactly(outs: seq<LinkOutcome>, k: nat)
    requires k <= |outs|
    requires Gather(outs, k).Some?
    ensures var items, o := Gather(outs, k).value, Origins(outs, k);
      && |items| == |o|
      && (forall p :: 0 <= p < |o| ==> o[p] < k && outs[o[p]] == Item(items[p]))
      && (forall p, q :: 0 <= p < q < |o| ==> o[p] < o[q])
      && (forall j :: 0 <= j < k && outs[j].Item? ==> j in o)
  {
    if k > 0 {
      GatherExactly(outs, k - 1);
    }
  }

  /** The gather fails exactly when some outcome in range is a decoding failure. */
  lemma {:induction false} GatherFails(outs: seq<LinkOutcome>, k: nat)
    requires k <= |outs|
    ensures Gather(outs, k).None? <==> exists j :: 0 <= j < k && outs[j] == DecodeFailed
  {
    if k > 0 {
      GatherFails(outs, k - 1);
    }
  }

  /** One more outcome extends a successful gather by its item, if it has one. */
  lemma GatherStep(outs: seq<LinkOutcome>, k: nat, acc: seq<MediaItem>)
    requires k < |outs| && Gather(outs, k) == Some(acc)
    ensures outs[k].NoItem? ==> Gather(outs, k + 1) == Some(acc)
    ensures outs[k].Item? ==> Gather(outs, k + 1) == Some(acc + [outs[k].item])
  {
  }

  /** One decoding failure in range is enough to fail the gather. */
  lemma {:induction false} GatherFailsAt(outs: seq<LinkOutcome>, k: nat, j: nat)
    requires j < k <= |outs| && outs[j] == DecodeFailed
    ensures Gather(outs, k).None?
  {
    if j < k - 1 {
      GatherFailsAt(outs, k - 1, j);
    }
  }

  /**
   * A successful listing holds one item per surviving media anchor, in document
   * order: only images and videos, each URL absolute or under the clean base,
   * and pairwise distinct ids.
   */
  lemma ListingItems(links: seq<Link>, baseUrl: string, clock: nat -> nat,
                     decode: string -> Option<string>)
    requires Listing(links, baseUrl, clock, decode).Some?
    ensures var items := Listing(links, baseUrl, clock, decode).value;
      && |items| <= |links|
      && (forall it :: it in items ==> it.kind == Image || it.kind == Video)
      && (forall it :: it in items ==> StartsWith(it.url, "http") || StartsWith(it.url, CleanBase(baseUrl)))
      && (forall p, q :: 0 <= p < q < |items| ==> items[p].id != items[q].id)
  {
    var cb := CleanBase(baseUrl);
    var outs := Outcomes(links, LinkStep(cb, clock, decode), |links|);
    var items := Listing(links, baseUrl, clock, decode).value;
    GatherExactly(outs, |outs|);
    var o := Origins(outs, |outs|);
    forall p | 0 <= p < |items|
      ensures (items[p].kind == Image || items[p].kind == Video)
      ensures StartsWith(items[p].url, "http") || StartsWith(items[p].url, cb)
      ensures items[p].id == ListingId(o[p], clock(o[p]))
    {
      OutcomeAt(links, LinkStep(cb, clock, decode), |links|, o[p]);
      LinkItemFacts(cb, links[o[p]], o[p], clock, decode);
    }
    forall p, q | 0 <= p < q < |items| ensures items[p].id != items[q].id {
      if items[p].id == items[q].id {
        ListingIdInjective(o[p], clock(o[p]), o[q], clock(o[q]));
      }
    }
    OriginsBounded(outs, |outs|);
  }

  lemma {:induction false} OriginsBounded(outs: seq<LinkOutcome>, k: nat)
    requires k <= |outs|
    ensures |Origins(outs, k)| <= k
  {
    if k > 0 {
      OriginsBounded(outs, k - 1);
    }
  }

  /** The listing fails exactly when the name of some media anchor cannot be decoded. */
  lemma ListingFails(links: seq<Link>, baseUrl: string, clock: nat -> nat,
                     decode: string -> Option<string>)
    ensures Listing(links, baseUrl, clock, decode).None? <==>
      exists j :: 0 <= j < |links| && LinkToItem(CleanBase(baseUrl), links[j], j, clock, decode) == DecodeFailed
  {
    var cb := CleanBase(baseUrl);
    var outs := Outcomes(links, LinkStep(cb, clock, decode), |links|);
    GatherFails(outs, |outs|);
    forall j | 0 <= j < |links|
      ensures outs[j] == LinkToItem(cb, links[j], j, clock, decode)
    {
      OutcomeAt(links, LinkStep(cb, clock, decode), |links|, j);
    }
  }

  /** Anchors that are all skipped or non-media give an empty list, not a failure. */
  lemma {:induction false} GatherWithoutItems(outs: seq<LinkOutcome>, k: nat)
    requires k <= |outs|
    requires forall i :: 0 <= i < k ==> outs[i] == NoItem
    ensures Gather(outs, k) == Some([])
  {
    if k > 0 {
      GatherWithoutItems(outs, k - 1);
    }
  }

  /** A document without anchors gives an empty list. */
  lemma ListingOfNoAnchors(baseUrl: string, clock: nat -> nat, decode: string -> Option<string>)
    ensures Listing([], baseUrl, clock, decode) == Some([])
  {
  }

  /** The autoindex metadata ` 2023-01-01 10:00 1.2M` followed by a line break. */
  lemma MetadataExample(t: string)
    requires t == " 2023-01-01 10:00 1.2M\n"
    ensures Metadata(Some(t)) == ("2023-01-01 10:00", "1.2M")
  {
    var pre, day, time, size, tail := " ", "2023-01-01", "10:00", "1.2M", "\n";
    ExampleLineParts(t, pre, day, time, size, tail);
    MetadataOfAutoindexLayout(t, pre, day, time, size, tail);
  }

  /** The example line is white space, three words separated by single spaces, and a line break. */
  lemma ExampleLineParts(t: string, pre: string, day: string, time: string, size: string, tail: string)
    requires t == " 2023-01-01 10:00 1.2M\n"
    requires pre == " " && day == "2023-01-01" && time == "10:00" && size == "1.2M" && tail == "\n"
    ensures t == pre + day + " " + time + " " + size + tail
    ensures day + " " + time == "2023-01-01 10:00"
    ensures day != [] && NoSpace(day) && time != [] && NoSpace(time) && size != [] && NoSpace(size)
    ensures (forall i :: 0 <= i < |pre| ==> IsSpace(pre[i])) && (forall i :: 0 <= i < |tail| ==> IsSpace(tail[i]))
  {
    assert pre + day == " 2023-01-01";
    assert pre + day + " " == " 2023-01-01 ";
    assert pre + day + " " + time == " 2023-01-01 10:00";
    assert pre + day + " " + time + " " == " 2023-01-01 10:00 ";
    assert pre + day + " " + time + " " + size == " 2023-01-01 10:00 1.2M";
  }

  /** What a kept media anchor whose name decodes contributes. */
  lemma KeptLink(cleanBase: string, link: Link, index: nat, clock: nat -> nat,
                 decode: string -> Option<string>)
    requires !Skipped(link)
    requires GetMediaType(StripLeadingSlash(link.href.value)) != Unknown
    requires decode(StripLeadingSlash(link.href.value)).Some?
    ensures var href := link.href.value;
      LinkToItem(cleanBase, link, index, clock, decode)
      == Item(MediaItem(ListingId(index, clock(index)), decode(StripLeadingSlash(href)).value,
                        LinkUrl(cleanBase, href), GetMediaType(StripLeadingSlash(href)),
                        Some(Metadata(link.nextText).1), Some(Metadata(link.nextText).0)))
  {
  }

  /** The anchor `<a href="photo.JPG">photo.JPG</a>` is kept, as an image named by its own href. */
  lemma PhotoAnchor(link: Link, h: string, next: Option<string>, cleanBase: string)
    requires h == "photo.JPG" && link == Link(Some(h), h, next)
    ensures !Skipped(link) && StripLeadingSlash(h) == h && GetMediaType(h) == Image
    ensures LinkUrl(cleanBase, h) == cleanBase + h
  {
    PhotoHrefKept(link, h, next);
    FirstCharDiffers(h, "/");
    FirstCharDiffers(h, "http");
    MediaTypeOfPhotoJpg();
  }

  lemma PhotoHrefKept(link: Link, h: string, next: Option<string>)
    requires h == "photo.JPG" && link == Link(Some(h), h, next)
    ensures !Skipped(link)
  {
    PhotoIsTrimmed(h);
    PhotoHasNoQuery(h);
    FirstCharDiffers(h, "data:");
    FirstCharDiffers(h, "javascript:");
  }

  lemma PhotoIsTrimmed(h: string)
    requires h == "photo.JPG"
    ensures Trim(h) == h && h != "Parent Directory"
  {
  }

  lemma PhotoHasNoQuery(h: string)
    requires h == "photo.JPG"
    ensures '?' !in h && h != "" && h != "../"
  {
  }

  /**
   * The anchor `<a href="photo.JPG">photo.JPG</a> 2023-01-01 10:00 1.2M`, being
   * the only one of a listing of `https://s.com/p/`, gives one image under that base.
   */
  lemma ListingAutoindexExample(links: seq<Link>, base: string, h: string, t: string,
                                clock: nat -> nat, decode: string -> Option<string>)
    requires base == "https://s.com/p/" && h == "photo.JPG" && t == " 2023-01-01 10:00 1.2M\n"
    requires links == [Link(Some(h), h, Some(t))]
    requires decode(h) == Some(h)
    ensures Listing(links, base, clock, decode)
         == Some([MediaItem(ListingId(0, clock(0)), h, base + h, Image, Some("1.2M"), Some("2023-01-01 10:00"))])
  {
    var link := links[0];
    PhotoAnchor(link, h, Some(t), base);
    MetadataExample(t);
    assert CleanBase(base) == base;
    var item := MediaItem(ListingId(0, clock(0)), h, base + h, Image, Some("1.2M"), Some("2023-01-01 10:00"));
    KeptLink(base, link, 0, clock, decode);
    var outs := Outcomes(links, LinkStep(base, clock, decode), 1);
    OutcomeAt(links, LinkStep(base, clock, decode), 1, 0);
    assert link.nextText == Some(t) && link.href.value == h;
    assert outs[0] == Item(item);
    GatherOfOneItem(outs);
  }

  lemma GatherOfOneItem(outs: seq<LinkOutcome>)
    requires |outs| >= 1 && outs[0].Item?
    ensures Gather(outs, 1) == Some([outs[0].item])
  {
    assert Gather(outs, 0) == Some([]);
    assert [] + [outs[0].item] == [outs[0].item];
  }

  // ---------------------------------------------------------------------------
  // apasnap.json manifest

  /** One entry of `items`; `declared` is its `type` field, when present and non-empty. */
  datatype Entry = Entry(name: Option<string>, url: string, declared: Option<MediaType>,
                         size: Option<string>, date: Option<string>)

  /** The parsed document; `items` is `None` when the document is null or `items` is not an array. */
  datatype Manifest = Manifest(items: Option<seq<Entry>>)

  predicate Truthy(s: Option<string>) {
    s.Some? && s.value != ""
  }

  /** `item.type || getMediaType(item.name || item.url)`. */
  function EntryType(e: Entry): MediaType {
    match e.declared
    case Some(t) => t
    case None => GetMediaType(if Truthy(e.name) then e.name.value else e.url)
  }

  /** A non-empty url not starting with `http` goes under the clean base, one leading `/` removed. */
  function EntryUrl(cleanBase: string, url: string): (r: string)
    ensures url == "" || StartsWith(url, "http") ==> r == url
    ensures url != "" && !StartsWith(url, "http") ==>
              StartsWith(r, cleanBase) && r == cleanBase + StripLeadingSlash(url)
  {
    if url != "" && !StartsWith(url, "http") then
      StartsWithConcat(cleanBase, StripLeadingSlash(url));
      cleanBase + StripLeadingSlash(url)
    else url
  }

  function ManifestId(index: nat, now: nat): string {
    "manifest-" + NatToString(index) + "-" + NatToString(now)
  }

  function EntryToItem(e: Entry, index: nat, cleanBase: string, clock: nat -> nat): MediaItem {
    MediaItem(ManifestId(index, clock(index)),
              if Truthy(e.name) then e.name.value else "File " + NatToString(index),
              EntryUrl(cleanBase, e.url), EntryType(e), e.size, e.date)
  }

  /** The converted entries from position `from` on, unknown types dropped. */
  function ManifestItems(es: seq<Entry>, cleanBase: string, clock: nat -> nat, from: nat): (r: seq<MediaItem>)
    requires from <= |es|
    ensures |r| <= |es| - from
    ensures forall it :: it in r ==> it.kind != Unknown
    decreases |es| - from
  {
    if from == |es| then []
    else
      var head := if EntryType(es[from]) == Unknown then [] else [EntryToItem(es[from], from, cleanBase, clock)];
      head + ManifestItems(es, cleanBase, clock, from + 1)
  }

  /** parseManifestJson: `[]` unless the document has an `items` array. */
  function ParseManifestJson(json: Manifest, baseUrl: string, clock: nat -> nat): (r: seq<MediaItem>)
    ensures json.items.None? ==> r == []
    ensures forall it :: it in r ==> it.kind == Image || it.kind == Video
  {
    match json.items
    case None => []
    case Some(es) => ManifestItems(es, CleanBase(baseUrl), clock, 0)
  }

  /** The type each entry is given, position by position. */
  function Kinds(es: seq<Entry>): (kinds: seq<MediaType>)
    ensures |kinds| == |es|
  {
    seq(|es|, i requires 0 <= i < |es| => EntryType(es[i]))
  }

  /** The positions from `from` on whose type is known, in increasing order. */
  function KeptIndices(kinds: seq<MediaType>, from: nat): (r: seq<nat>)
    requires from <= |kinds|
    decreases |kinds| - from
  {
    if from == |kinds| then []
    else (if kinds[from] == Unknown then [] else [from]) + KeptIndices(kinds, from + 1)
  }

  /** The kept positions are exactly the entries of known type from `from` on, in increasing order. */
  lemma {:induction false} KeptIndicesExactly(kinds: seq<MediaType>, from: nat)
    requires from <= |kinds|
    ensures var kept := KeptIndices(kinds, from);
      && (forall k :: 0 <= k < |kept| ==> from <= kept[k] < |kinds| && kinds[kept[k]] != Unknown)
      && (forall k, l :: 0 <= k < l < |kept| ==> kept[k] < kept[l])
      && (forall i :: from <= i < |kinds| && kinds[i] != Unknown ==> i in kept)
    decreases |kinds| - from
  {
    if from < |kinds| {
      KeptIndicesExactly(kinds, from + 1);
    }
  }

  /** `r` holds, in order, the conversion of the entry at each position of `kept`. */
  predicate Aligned(es: seq<Entry>, r: seq<MediaItem>, kept: seq<nat>, cleanBase: string, clock: nat -> nat) {
    && |r| == |kept|
    && (forall k :: 0 <= k < |kept| ==>
          kept[k] < |es| && r[k] == EntryToItem(es[kept[k]], kept[k], cleanBase, clock))
  }

  lemma AlignedCons(es: seq<Entry>, r: seq<MediaItem>, kept: seq<nat>, cleanBase: string, clock: nat -> nat, i: nat)
    requires Aligned(es, r, kept, cleanBase, clock) && i < |es|
    ensures Aligned(es, [EntryToItem(es[i], i, cleanBase, clock)] + r, [i] + kept, cleanBase, clock)
  {
    var r2, kept2 := [EntryToItem(es[i], i, cleanBase, clock)] + r, [i] + kept;
    forall k | 1 <= k < |kept2|
      ensures kept2[k] < |es| && r2[k] == EntryToItem(es[kept2[k]], kept2[k], cleanBase, clock)
    {
      assert r2[k] == r[k - 1] && kept2[k] == kept[k - 1];
    }
  }

  /**
   * The manifest result is exactly the surviving entries, each converted with its
   * ORIGINAL position, in manifest order.
   */
  lemma {:induction false} ManifestItemsExactly(es: seq<Entry>, cleanBase: string, clock: nat -> nat, from: nat)
    requires from <= |es|
    ensures Aligned(es, ManifestItems(es, cleanBase, clock, from), KeptIndices(Kinds(es), from), cleanBase, clock)
    decreases |es| - from
  {
    if from < |es| {
      ManifestItemsExactly(es, cleanBase, clock, from + 1);
      var r' := ManifestItems(es, cleanBase, clock, from + 1);
      var kept' := KeptIndices(Kinds(es), from + 1);
      assert Kinds(es)[from] == EntryType(es[from]);
      if EntryType(es[from]) == Unknown {
        assert ManifestItems(es, cleanBase, clock, from) == r';
        assert KeptIndices(Kinds(es), from) == kept';
      } else {
        assert ManifestItems(es, cleanBase, clock, from) == [EntryToItem(es[from], from, cleanBase, clock)] + r';
        assert KeptIndices(Kinds(es), from) == [from] + kept';
        AlignedCons(es, r', kept', cleanBase, clock, from);
      }
    }
  }

  /** `a.jpg` is an image whose url is relative and has no leading slash. */
  lemma AJpgFacts(n: string)
    requires n == "a.jpg"
    ensures GetMediaType(n) == Image && n != "" && !StartsWith(n, "http") && StripLeadingSlash(n) == n
  {
    var stem, ext := "a", "jpg";
    assert stem + "." + ext == n;
    MediaTypeOfLastExtension(stem, ext);
    JpgIsImage(ext);
    FirstCharDiffers(n, "http");
    FirstCharDiffers(n, "/");
  }

  lemma DirBase(base: string)
    requires base == "https://x.com/dir"
    ensures CleanBase(base) == base + "/"
  {
    assert base[|base| - 1] == 'r';
    assert !EndsWith(base, "/");
  }

  /** `{items: [{name: "a.jpg", url: "a.jpg"}]}` against `https://x.com/dir`. */
  lemma ManifestExample(json: Manifest, base: string, n: string, clock: nat -> nat)
    requires n == "a.jpg" && base == "https://x.com/dir"
    requires json == Manifest(Some([Entry(Some(n), n, None, None, None)]))
    ensures ParseManifestJson(json, base, clock)
         == [MediaItem(ManifestId(0, clock(0)), n, base + "/" + n, Image, None, None)]
  {
    AJpgFacts(n);
    DirBase(base);
    var es := json.items.value;
    var cb := base + "/";
    var item := EntryToItem(es[0], 0, cb, clock);
    assert EntryType(es[0]) == Image;
    assert item == MediaItem(ManifestId(0, clock(0)), n, cb + n, Image, None, None);
    assert ManifestItems(es, cb, clock, 1) == [];
    assert ManifestItems(es, cb, clock, 0) == [item] + [];
  }
}
