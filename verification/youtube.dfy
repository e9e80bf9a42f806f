/**
 * The YouTube page helpers: the episode description cut out of the page's
 * embedded data and unescaped, the video title cleaned of its site suffix,
 * and the video URLs read from a channel's selected tab. Fetching a page is
 * an oracle: its text, or `None` when the request fails. The channel page's
 * decoded data is given as a value; reaching it (the `ytInitialData` search
 * and the JSON decode) is not modelled.
 */
module Youtube {
  import opened Common
  import opened Text

  // ---------------------------------------------------------------- description

  const DescStart: string := "shortDescription\":\""
  const DescEnd: string := "\",\"isCrawlable"

  /** The marker ends right at `p` (the pattern's look-behind). */
  predicate StartEndsAt(html: string, p: nat) {
    p >= |DescStart| && OccursAt(html, DescStart, p - |DescStart|)
  }

  /**
   * The lazy `.*?` from `q` on: the first position at or after `q` where the
   * end marker occurs, provided no newline comes before it (`.` does not match
   * a newline).
   */
  function LazyEnd(html: string, q: nat): (r: Option<nat>)
    requires q <= |html|
    ensures r.Some? ==> q <= r.value <= |html|
    decreases |html| - q
  {
    if OccursAt(html, DescEnd, q) then Some(q)
    else if q == |html| || html[q] == '\n' then None
    else LazyEnd(html, q + 1)
  }

  /** The lazy match stops at the first end marker and crosses no newline. */
  lemma {:induction false} LazyEndSound(html: string, q: nat)
    requires q <= |html| && LazyEnd(html, q).Some?
    ensures OccursAt(html, DescEnd, LazyEnd(html, q).value)
    ensures forall j :: q <= j < LazyEnd(html, q).value ==> html[j] != '\n' && !OccursAt(html, DescEnd, j)
    decreases |html| - q
  {
    if !OccursAt(html, DescEnd, q) {
      LazyEndSound(html, q + 1);
    }
  }

  /** The pattern matches from `p`: the start marker ends there and an end marker follows on the same line. */
  predicate MatchesAt(html: string, p: nat)
    requires p <= |html|
  {
    StartEndsAt(html, p) && LazyEnd(html, p).Some?
  }

  /** `pattern.search(html)` from position `p` on: the first start position that matches. */
  function SearchFrom(html: string, p: nat): (r: Option<(nat, nat)>)
    requires p <= |html|
    ensures r.Some? ==> p <= r.value.0 <= r.value.1 <= |html|
    decreases |html| - p
  {
    if MatchesAt(html, p) then Some((p, LazyEnd(html, p).value))
    else if p == |html| then None
    else SearchFrom(html, p + 1)
  }

  /** The search finds the first position where the pattern matches, and none when there is none. */
  lemma {:induction false} SearchFromSound(html: string, p: nat)
    requires p <= |html|
    ensures SearchFrom(html, p).Some? ==>
      MatchesAt(html, SearchFrom(html, p).value.0) &&
      LazyEnd(html, SearchFrom(html, p).value.0) == Some(SearchFrom(html, p).value.1)
    ensures SearchFrom(html, p).Some? ==> forall j :: p <= j < SearchFrom(html, p).value.0 ==> !MatchesAt(html, j)
    ensures SearchFrom(html, p).None? ==> forall j :: p <= j <= |html| ==> !MatchesAt(html, j)
    decreases |html| - p
  {
    if !MatchesAt(html, p) && p < |html| {
      SearchFromSound(html, p + 1);
    }
  }

  /** The four unescapes, applied in this order. */
  function Unescape(d: string): string {
    var d1 := ReplaceAll(d, "\\n", "\n");
    var d2 := ReplaceAll(d1, "\\r", "\r");
    var d3 := ReplaceAll(d2, "\\'", "'");
    ReplaceAll(d3, "\\\"", "\"")
  }

  /** `extract_description` on the fetched page, `None` for a failed request or no match. */
  function Description(page: Option<string>): Option<string> {
    match page
    case None => None
    case Some(html) =>
      match SearchFrom(html, 0)
      case None => None
      case Some((p, q)) => Some(Unescape(html[p..q]))
  }

  /**
   * A description is found exactly when some position is preceded by
   * `shortDescription":"` and followed, on the same line, by `","isCrawlable`;
   * the earliest such position is used and the text stops at the first end
   * marker, holding no newline.
   */
  lemma DescriptionFound(html: string)
    ensures Description(Some(html)).None? <==> forall p :: 0 <= p <= |html| ==> !MatchesAt(html, p)
    ensures Description(Some(html)).Some? ==>
      var (p, q) := SearchFrom(html, 0).value;
      StartEndsAt(html, p) && OccursAt(html, DescEnd, q) && '\n' !in html[p..q]
      && Description(Some(html)) == Some(Unescape(html[p..q]))
      && forall j :: p <= j < q ==> !OccursAt(html, DescEnd, j)
  {
    DescriptionNone(html);
    if SearchFrom(html, 0).Some? {
      DescriptionSome(html);
    }
  }

  lemma DescriptionNone(html: string)
    ensures Description(Some(html)).None? <==> forall p :: 0 <= p <= |html| ==> !MatchesAt(html, p)
  {
    SearchFromSound(html, 0);
    if SearchFrom(html, 0).Some? {
      var p := SearchFrom(html, 0).value.0;
      assert MatchesAt(html, p);
    }
  }

  lemma DescriptionSome(html: string)
    requires SearchFrom(html, 0).Some?
    ensures var (p, q) := SearchFrom(html, 0).value;
      StartEndsAt(html, p) && OccursAt(html, DescEnd, q) && '\n' !in html[p..q]
      && Description(Some(html)) == Some(Unescape(html[p..q]))
      && forall j :: p <= j < q ==> !OccursAt(html, DescEnd, j)
  {
    SearchFromSound(html, 0);
    var (p, q) := SearchFrom(html, 0).value;
    LazyEndSound(html, p);
    forall k | 0 <= k < q - p ensures html[p..q][k] != '\n' {
      assert html[p..q][k] == html[p + k];
    }
  }

  /** A page that fails to load has no description. */
  lemma DescriptionUnavailable()
    ensures Description(None) == None
  {
  }

  /** Unescaping never lengthens the text. */
  lemma UnescapeShrinks(d: string)
    ensures |Unescape(d)| <= |d|
  {
    var d1 := ReplaceAll(d, "\\n", "\n");
    var d2 := ReplaceAll(d1, "\\r", "\r");
    var d3 := ReplaceAll(d2, "\\'", "'");
    ReplaceShrinks(d, "\\n", "\n");
    ReplaceShrinks(d1, "\\r", "\r");
    ReplaceShrinks(d2, "\\'", "'");
    ReplaceShrinks(d3, "\\\"", "\"");
  }

  /** A text with no backslash is returned as it is. */
  lemma UnescapePlain(d: string)
    requires '\\' !in d
    ensures Unescape(d) == d
  {
    NoBackslash(d, "\\n");
    ReplaceAbsent(d, "\\n", "\n");
    NoBackslash(d, "\\r");
    ReplaceAbsent(d, "\\r", "\r");
    NoBackslash(d, "\\'");
    ReplaceAbsent(d, "\\'", "'");
    NoBackslash(d, "\\\"");
    ReplaceAbsent(d, "\\\"", "\"");
  }

  lemma NoBackslash(d: string, pat: string)
    requires '\\' !in d && |pat| > 0 && pat[0] == '\\'
    ensures forall j: nat :: !OccursAt(d, pat, j)
  {
  }

  // ---------------------------------------------------------------- title

  const TitleSuffix: string := " - YouTube"

  /** `extract_video_title`: every ` - YouTube` removed, then whitespace stripped. */
  function CleanTitle(title: string): string {
    Strip(ReplaceAll(title, TitleSuffix, ""))
  }

  /** `extract_video_title` on the page's `<title>` text, `None` when the page or the tag is missing. */
  function VideoTitle(titleTag: Option<string>): Option<string> {
    match titleTag
    case None => None
    case Some(t) => Some(CleanTitle(t))
  }

  /**
   * The cleaned title carries no surrounding whitespace and is never longer
   * than the tag's text; a text without the suffix is only stripped.
   */
  lemma CleanTitleSound(title: string)
    ensures IsStripped(CleanTitle(title)) && |CleanTitle(title)| <= |title|
    ensures (forall j: nat :: !OccursAt(title, TitleSuffix, j)) ==> CleanTitle(title) == Strip(title)
  {
    ReplaceShrinks(title, TitleSuffix, "");
    if forall j: nat :: !OccursAt(title, TitleSuffix, j) {
      ReplaceAbsent(title, TitleSuffix, "");
    }
  }

  /** Cleaning a clean title changes nothing more, as long as the suffix is gone. */
  lemma CleanTitleIdempotent(title: string)
    requires forall j: nat :: !OccursAt(CleanTitle(title), TitleSuffix, j)
    ensures CleanTitle(CleanTitle(title)) == CleanTitle(title)
  {
    var c := CleanTitle(title);
    ReplaceAbsent(c, TitleSuffix, "");
    StripOfStripped(c);
  }

  // ---------------------------------------------------------------- channel videos

  /** An entry of the video grid: a `richItemRenderer` (its `videoId`, `None` when a key on the way is missing) or anything else. */
  datatype GridItem = OtherItem | RichItem(videoId: Option<string>)

  /** A tab's `tabRenderer`, if it has one: its `selected` flag and the grid items (`None` when a key on the way is missing). */
  datatype TabRenderer = TabRenderer(selected: bool, contents: Option<seq<GridItem>>)

  datatype Tab = Tab(renderer: Option<TabRenderer>)

  /**
   * The channel page as read: `Unavailable` when the request fails, the
   * initial data is not found or its JSON does not decode; otherwise the
   * tabs (`None` when a key on the way to them is missing).
   */
  datatype ChannelPage = Unavailable | ChannelData(tabs: Option<seq<Tab>>)

  const WatchPrefix: string := "https://www.youtube.com/watch?v="

  function WatchUrl(videoId: string): string {
    WatchPrefix + videoId
  }

  /** The video ID can be read back from its URL. */
  lemma WatchUrlRoundTrip(videoId: string)
    ensures StartsWith(WatchUrl(videoId), WatchPrefix)
    ensures WatchUrl(videoId)[|WatchPrefix|..] == videoId
  {
    assert WatchUrl(videoId)[..|WatchPrefix|] == WatchPrefix;
  }

  /** The first tab whose renderer is selected. */
  function SelectedTab(tabs: seq<Tab>): (r: Option<TabRenderer>)
    decreases |tabs|
  {
    if tabs == [] then None
    else if tabs[0].renderer.Some? && tabs[0].renderer.value.selected then tabs[0].renderer
    else SelectedTab(tabs[1..])
  }

  /** The tab chosen is the first selected one; none exactly when no tab is selected. */
  lemma {:induction false} SelectedTabFirst(tabs: seq<Tab>)
    ensures SelectedTab(tabs).None? <==>
      forall i :: 0 <= i < |tabs| ==> !(tabs[i].renderer.Some? && tabs[i].renderer.value.selected)
    ensures SelectedTab(tabs).Some? ==>
      exists i :: (0 <= i < |tabs| && tabs[i].renderer == SelectedTab(tabs) && SelectedTab(tabs).value.selected &&
        forall j :: 0 <= j < i ==> !(tabs[j].renderer.Some? && tabs[j].renderer.value.selected))
    decreases |tabs|
  {
    if tabs != [] && !(tabs[0].renderer.Some? && tabs[0].renderer.value.selected) {
      SelectedTabFirst(tabs[1..]);
      if SelectedTab(tabs).Some? {
        var i :| 0 <= i < |tabs[1..]| && tabs[1..][i].renderer == SelectedTab(tabs[1..]) && SelectedTab(tabs[1..]).value.selected &&
          forall j :: 0 <= j < i ==> !(tabs[1..][j].renderer.Some? && tabs[1..][j].renderer.value.selected);
        assert tabs[i + 1].renderer == SelectedTab(tabs);
        forall j | 0 <= j < i + 1 ensures !(tabs[j].renderer.Some? && tabs[j].renderer.value.selected) {
          if j > 0 { assert tabs[j] == tabs[1..][j - 1]; }
        }
      } else {
        forall i | 0 <= i < |tabs| ensures !(tabs[i].renderer.Some? && tabs[i].renderer.value.selected) {
          if i > 0 { assert tabs[i] == tabs[1..][i - 1]; }
        }
      }
    }
  }

  /**
   * The item loop from the URLs collected so far: a malformed rich item
   * raises (`None`), the loop stops once the limit is reached.
   */
  function Walk(items: seq<GridItem>, limit: Option<int>, acc: seq<string>): Option<seq<string>>
    decreases |items|
  {
    if items == [] then Some(acc)
    else match items[0]
      case OtherItem => Walk(items[1..], limit, acc)
      case RichItem(None) => None
      case RichItem(Some(id)) =>
        var next := acc + [WatchUrl(id)];
        if LimitReached(limit, |next|) then Some(next) else Walk(items[1..], limit, next)
  }

  /** The URL of every rich item, in grid order. */
  function AllUrls(items: seq<GridItem>): seq<string>
    decreases |items|
  {
    if items == [] then []
    else
      var here := if items[0].RichItem? && items[0].videoId.Some? then [WatchUrl(items[0].videoId.value)] else [];
      here + AllUrls(items[1..])
  }

  predicate WellFormed(items: seq<GridItem>) {
    forall i :: 0 <= i < |items| && items[i].RichItem? ==> items[i].videoId.Some?
  }

  /** Without a (truthy) limit every rich item's URL is returned, in grid order. */
  lemma {:induction false} WalkNoLimit(items: seq<GridItem>, limit: Option<int>, acc: seq<string>)
    requires WellFormed(items) && (limit.None? || limit.value == 0)
    ensures Walk(items, limit, acc) == Some(acc + AllUrls(items))
    decreases |items|
  {
    if items == [] {
      assert acc + AllUrls(items) == acc;
    } else {
      assert WellFormed(items[1..]) by {
        forall i | 0 <= i < |items[1..]| && items[1..][i].RichItem? ensures items[1..][i].videoId.Some? {
          assert items[1..][i] == items[i + 1];
        }
      }
      match items[0]
      case OtherItem =>
        assert AllUrls(items) == [] + AllUrls(items[1..]) == AllUrls(items[1..]);
        assert Walk(items, limit, acc) == Walk(items[1..], limit, acc);
        WalkNoLimit(items[1..], limit, acc);
      case RichItem(id) =>
        assert items[0].videoId.Some?;
        var next := acc + [WatchUrl(id.value)];
        assert acc + AllUrls(items) == next + AllUrls(items[1..]);
        WalkNoLimit(items[1..], limit, next);
    }
  }

  /** With a positive limit `n`, the first `n` URLs are returned (all of them when there are fewer). */
  lemma {:induction false} WalkLimit(items: seq<GridItem>, n: nat, acc: seq<string>)
    requires WellFormed(items) && n > 0 && |acc| < n
    ensures var all := acc + AllUrls(items);
      Walk(items, Some(n), acc) == Some(if |all| <= n then all else all[..n])
    decreases |items|
  {
    if items == [] {
      assert acc + AllUrls(items) == acc;
    } else {
      assert WellFormed(items[1..]) by {
        forall i | 0 <= i < |items[1..]| && items[1..][i].RichItem? ensures items[1..][i].videoId.Some? {
          assert items[1..][i] == items[i + 1];
        }
      }
      match items[0]
      case OtherItem =>
        assert AllUrls(items) == [] + AllUrls(items[1..]) == AllUrls(items[1..]);
        assert Walk(items, Some(n), acc) == Walk(items[1..], Some(n), acc);
        WalkLimit(items[1..], n, acc);
      case RichItem(id) =>
        assert items[0].videoId.Some?;
        var next := acc + [WatchUrl(id.value)];
        assert acc + AllUrls(items) == next + AllUrls(items[1..]);
        if |next| < n {
          assert Walk(items, Some(n), acc) == Walk(items[1..], Some(n), next);
          WalkLimit(items[1..], n, next);
        } else {
          assert Walk(items, Some(n), acc) == Some(next);
          var all := next + AllUrls(items[1..]);
          if |all| <= n {
            assert |AllUrls(items[1..])| == 0;
            assert all == next;
          } else {
            assert all[..n] == next;
          }
        }
    }
  }

  /** The loop raises only on a malformed rich item. */
  lemma {:induction false} WalkFails(items: seq<GridItem>, limit: Option<int>, acc: seq<string>)
    requires Walk(items, limit, acc).None?
    ensures !WellFormed(items)
    decreases |items|
  {
    if (items[0].RichItem? && items[0].videoId.Some?) || items[0].OtherItem? {
      var next := if items[0].OtherItem? then acc else acc + [WatchUrl(items[0].videoId.value)];
      WalkFails(items[1..], limit, next);
      var i :| 0 <= i < |items[1..]| && items[1..][i].RichItem? && items[1..][i].videoId.None?;
      assert items[i + 1] == items[1..][i];
    }
  }

  /** `extract_channel_videos` on a page: `[]` whenever something is missing or raises. */
  function ChannelVideos(page: ChannelPage, limit: Option<int>): seq<string> {
    if page.Unavailable? || page.tabs.None? then []
    else
      match SelectedTab(page.tabs.value)
      case None => []
      case Some(tab) =>
        if tab.contents.None? then []
        else
          match Walk(tab.contents.value, limit, [])
          case None => []
          case Some(urls) => urls
  }

  /** The tab loop: the first tab with a selected renderer. */
  method FindVideosTab(tabs: seq<Tab>) returns (r: Option<TabRenderer>)
    ensures r == SelectedTab(tabs)
  {
    var i := 0;
    while i < |tabs|
      invariant 0 <= i <= |tabs|
      invariant SelectedTab(tabs) == SelectedTab(tabs[i..])
    {
      assert tabs[i..][1..] == tabs[i + 1..];
      if tabs[i].renderer.Some? && tabs[i].renderer.value.selected {
        return tabs[i].renderer;
      }
      i := i + 1;
    }
    return None;
  }

  /** The item loop, with the limit check after each append. */
  method CollectUrls(items: seq<GridItem>, limit: Option<int>) returns (r: Option<seq<string>>)
    ensures r == Walk(items, limit, [])
  {
    var urls: seq<string> := [];
    var i := 0;
    while i < |items|
      invariant 0 <= i <= |items|
      invariant Walk(items, limit, []) == Walk(items[i..], limit, urls)
    {
      assert items[i..][1..] == items[i + 1..];
      var item := items[i];
      if item.RichItem? {
        if item.videoId.None? {
          return None;
        }
        urls := urls + [WatchUrl(item.videoId.value)];
        if LimitReached(limit, |urls|) {
          return Some(urls);
        }
      }
      i := i + 1;
    }
    return Some(urls);
  }

  /** `extract_channel_videos` */
  method ExtractChannelVideos(page: ChannelPage, limit: Option<int>) returns (urls: seq<string>)
    ensures urls == ChannelVideos(page, limit)
  {
    if page.Unavailable? || page.tabs.None? {
      return [];
    }
    var tab := FindVideosTab(page.tabs.value);
    if tab.None? || tab.value.contents.None? {
      return [];
    }
    var r := CollectUrls(tab.value.contents.value, limit);
    if r.None? {
      return [];
    }
    return r.value;
  }

  /**
   * On a readable page with a selected tab whose items are well formed, the
   * URLs are those of the rich items in grid order, cut to the limit when it
   * is positive.
   */
  lemma ChannelVideosSound(page: ChannelPage, limit: Option<int>)
    requires page.ChannelData? && page.tabs.Some? && SelectedTab(page.tabs.value).Some?
    requires SelectedTab(page.tabs.value).value.contents.Some?
    requires WellFormed(SelectedTab(page.tabs.value).value.contents.value)
    ensures var all := AllUrls(SelectedTab(page.tabs.value).value.contents.value);
      (limit.None? || limit.value == 0 ==> ChannelVideos(page, limit) == all)
      && (limit.Some? && limit.value > 0 ==> ChannelVideos(page, limit) == if |all| <= limit.value then all else all[..limit.value])
  {
    var items := SelectedTab(page.tabs.value).value.contents.value;
    if limit.None? || limit.value == 0 {
      WalkNoLimit(items, limit, []);
      assert [] + AllUrls(items) == AllUrls(items);
    } else if limit.value > 0 {
      WalkLimit(items, limit.value, []);
      assert [] + AllUrls(items) == AllUrls(items);
    }
  }
}
