/** The X post feed endpoint: RSS mirrors of one account are tried in order, and
    the first one whose document yields at least one post answers the request. */
module XFeed {
  import opened Prelude
  import opened Text
  import opened Regex

  /** One post; `pubDate` is absent when the feed gives none. */
  datatype XItem = XItem(title: string, link: string, description: string, pubDate: Option<string>)

  /** The answer: the posts with the mirror they came from, or the note that no
      mirror gave any. Both are sent with status 200. */
  datatype XResponse = Found(source: string, items: seq<XItem>) | Unavailable(note: string)

  const FEED_URLS: seq<string> := [
    "https://nitter.net/ArcheNova_X/rss",
    "https://rsshub.app/twitter/user/ArcheNova_X"
  ]

  const NO_ITEMS_NOTE: string := "No items available right now (feed may require URL update)."

  const DEFAULT_TITLE: string := "Post"

  const DEFAULT_DESCRIPTION: string := "Open the post →"

  function Status(r: XResponse): int { 200 }

  // ---- stripHtml ----

  /** This endpoint's `stripHtml`: line breaks and paragraph ends become line feeds,
      other tags are deleted, white space before a line feed is dropped, runs of
      three or more line feeds become two, and the result is trimmed. */
  function StripHtml(s: string): string
  {
    var a := Replace(s, Break, "\n");
    var b := Replace(a, Lit("</p>", true), "\n\n");
    var c := Replace(b, Tag, "");
    var d := Replace(c, SpacesNewline, "\n");
    var e := Replace(d, NewlineRun, "\n\n");
    Trim(e)
  }

  /** The stripped text is trimmed and never holds three line feeds in a row. */
  lemma StripHtmlShape(s: string)
    ensures Trimmed(StripHtml(s)) && NoTripleNewline(StripHtml(s))
  {
    var a := Replace(s, Break, "\n");
    var b := Replace(a, Lit("</p>", true), "\n\n");
    var c := Replace(b, Tag, "");
    var d := Replace(c, SpacesNewline, "\n");
    var e := Replace(d, NewlineRun, "\n\n");
    SquashFacts(d);
    NoTripleNewlineSlice(e, Lead(e), Lead(e) + |Trim(e)|);
  }

  lemma NoTripleNewlineSlice(s: string, i: nat, j: nat)
    requires i <= j <= |s| && NoTripleNewline(s)
    ensures NoTripleNewline(s[i..j])
  {
    var t := s[i..j];
    forall k | 0 <= k < |t| - 2 ensures !(t[k] == '\n' && t[k + 1] == '\n' && t[k + 2] == '\n') {
      assert t[k] == s[i + k] && t[k + 1] == s[i + k + 1] && t[k + 2] == s[i + k + 2];
    }
  }

  // ---- parseRss ----

  const TITLE_CDATA_OPEN: string := "<title><![CDATA["
  const TITLE_CDATA_CLOSE: string := "]]></title>"

  /** The title text: the CDATA form when there is one, else the plain form,
      trimmed. */
  function TitleOf(b: string): string
  {
    match Between(b, TITLE_CDATA_OPEN, TITLE_CDATA_CLOSE, true)
    case Some(v) => Trim(v)
    case None =>
      match Between(b, "<title>", "</title>", true)
      case Some(v) => Trim(v)
      case None => ""
  }

  function LinkOf(b: string): string
  {
    match Between(b, "<link>", "</link>", true)
    case Some(v) => Trim(v)
    case None => ""
  }

  /** The raw description: CDATA `description`, plain `description`, then CDATA
      `content:encoded`. */
  function DescriptionRaw(b: string): string
  {
    match Between(b, "<description><![CDATA[", "]]></description>", true)
    case Some(v) => v
    case None =>
      match Between(b, "<description>", "</description>", true)
      case Some(v) => v
      case None =>
        match Between(b, "<content:encoded><![CDATA[", "]]></content:encoded>", true)
        case Some(v) => v
        case None => ""
  }

  function PubDateOf(b: string): string
  {
    match Between(b, "<pubDate>", "</pubDate>", true)
    case Some(v) => Trim(v)
    case None => ""
  }

  /** One `<item>` block as the loop reads it: skipped without a link, otherwise a
      post with the defaults filled in. */
  function ReadItem(b: string): Option<XItem>
  {
    var title := TitleOf(b);
    var link := LinkOf(b);
    var description := StripHtml(DescriptionRaw(b));
    var pubDate := PubDateOf(b);
    if link == "" then None
    else Some(XItem(OrElse(title, DEFAULT_TITLE), link, OrElse(description, DEFAULT_DESCRIPTION),
                    if pubDate == "" then None else Some(pubDate)))
  }

  function ItemReader(): string -> Option<XItem>
  {
    b => ReadItem(b)
  }

  /** `xml.match(/<item[\s\S]*?<\/item>/g) || []`, without the `i` flag. */
  function ItemBlocks(xml: string): seq<string>
  {
    Blocks(xml, "<item", "</item>", false, 0)
  }

  /** The posts `parseRss(xml, limit)` returns. */
  function Posts(xml: string, limit: Num): seq<XItem>
  {
    FilterMap(SlicePrefix(ItemBlocks(xml), limit), ItemReader())
  }

  /** `parseRss`: the loop over the first `limit` blocks, pushing every block
      that has a link. */
  method ParseRss(xml: string, limit: Num) returns (items: seq<XItem>)
    ensures items == Posts(xml, limit)
  {
    items := [];
    var blocks := SlicePrefix(ItemBlocks(xml), limit);
    for k := 0 to |blocks|
      invariant items == FilterMap(blocks[..k], ItemReader())
    {
      var b := blocks[k];
      var title := TitleOf(b);
      var link := LinkOf(b);
      var description := StripHtml(DescriptionRaw(b));
      var pubDate := PubDateOf(b);
      FilterMapSnoc(blocks, k, ItemReader());
      if link == "" {
        continue;
      }
      items := items + [XItem(OrElse(title, DEFAULT_TITLE), link, OrElse(description, DEFAULT_DESCRIPTION),
                              if pubDate == "" then None else Some(pubDate))];
    }
    assert blocks[..|blocks|] == blocks;
  }

  /** A block is skipped exactly when its link is empty; a post always has a
      title, a trimmed link and a description, and a date only when one was
      given. */
  lemma ReadItemFacts(b: string)
    ensures ReadItem(b).None? <==> LinkOf(b) == ""
    ensures ReadItem(b).Some? ==>
      var it := ReadItem(b).value;
      && it.title != "" && it.link != "" && Trimmed(it.link) && it.description != ""
      && (TitleOf(b) == "" ==> it.title == DEFAULT_TITLE)
      && (TitleOf(b) != "" ==> it.title == TitleOf(b))
      && (StripHtml(DescriptionRaw(b)) == "" ==> it.description == DEFAULT_DESCRIPTION)
      && (it.description != DEFAULT_DESCRIPTION ==> NoTripleNewline(it.description) && Trimmed(it.description))
      && (it.pubDate.Some? <==> PubDateOf(b) != "")
      && (it.pubDate.Some? ==> Trimmed(it.pubDate.value))
  {
    StripHtmlShape(DescriptionRaw(b));
  }

  /** The first (leftmost, shortest) CDATA title wins over any plain title. */
  lemma TitlePrefersCdata(b: string, i: nat, c: nat) returns (i0: nat, c0: nat)
    requires LazyMatch(b, TITLE_CDATA_OPEN, TITLE_CDATA_CLOSE, true, i, c)
    ensures i0 <= i && LazyMatch(b, TITLE_CDATA_OPEN, TITLE_CDATA_CLOSE, true, i0, c0)
    ensures TitleOf(b) == Trim(b[i0 + |TITLE_CDATA_OPEN|..c0])
  {
    BetweenLeftmost(b, TITLE_CDATA_OPEN, TITLE_CDATA_CLOSE, true, i, c);
    i0 := Find(b, TITLE_CDATA_OPEN, 0, true).value;
    c0 := Find(b, TITLE_CDATA_CLOSE, i0 + |TITLE_CDATA_OPEN|, true).value;
  }

  /** At most `limit` posts, one per block at most, each as `ReadItemFacts`
      describes. */
  lemma PostsShape(xml: string, limit: Num)
    ensures |Posts(xml, limit)| <= |ItemBlocks(xml)|
    ensures limit.Finite? && limit.v >= 0 ==> |Posts(xml, limit)| <= limit.v
    ensures limit.NaN? || limit.NegInf? ==> Posts(xml, limit) == []
    ensures forall it :: it in Posts(xml, limit) ==>
      it.title != "" && it.link != "" && Trimmed(it.link) && it.description != ""
  {
    var blocks := SlicePrefix(ItemBlocks(xml), limit);
    FilterMapBounds(blocks, ItemReader());
    forall it | it in Posts(xml, limit)
      ensures it.title != "" && it.link != "" && Trimmed(it.link) && it.description != ""
    {
      var b :| b in blocks && ItemReader()(b) == Some(it);
      ReadItemFacts(b);
    }
  }

  // ---- GET ----

  /** `Math.min(Number(searchParams.get("limit") || 5), 10)`; `number` stands for
      `Number` on a string. */
  function RequestedLimit(param: Option<string>, number: string -> Num): (n: Num)
    ensures param.None? || param == Some("") ==> n == Finite(5)
    ensures param.Some? && param.value != "" ==> n == MinNum(number(param.value), 10)
    ensures n.Finite? ==> n.v <= 10
  {
    var requested := match param
      case None => Finite(5)
      case Some(s) => if s == "" then Finite(5) else number(s);
    MinNum(requested, 10)
  }

  /** `?limit=-1` on a feed of 12 items reads 11 of them: the cap of 10 does
      not hold for a negative limit, which `slice` counts from the end. */
  lemma NegativeLimitPassesCap(number: string -> Num, blocks: seq<string>)
    requires number("-1") == Finite(-1)
    requires |blocks| == 12
    ensures |SlicePrefix(blocks, RequestedLimit(Some("-1"), number))| == 11
  {
  }

  /** The requested limit clamped at 0 as well as at 10, as the cap evidently
      intends. */
  function ClampedRequestedLimit(param: Option<string>, number: string -> Num): (n: Num)
    ensures n.Finite? ==> 0 <= n.v <= 10
    ensures !n.PosInf?
    ensures param.None? || param == Some("") ==> n == Finite(5)
    ensures n != RequestedLimit(param, number) ==>
      RequestedLimit(param, number).Finite? && RequestedLimit(param, number).v < 0 && n == Finite(0)
  {
    AtLeastZero(RequestedLimit(param, number))
  }

  /** With the clamped limit no document gives more than 10 posts. */
  lemma ClampedRequestedLimitBound(param: Option<string>, number: string -> Num, xml: string)
    ensures |Posts(xml, ClampedRequestedLimit(param, number))| <= 10
  {
    var n := ClampedRequestedLimit(param, number);
    PostsShape(xml, n);
  }

  /** The posts a document gives for `limit`. */
  function PostsReader(limit: Num): string -> seq<XItem>
  {
    xml => Posts(xml, limit)
  }

  /** The mirror `url` answers: its text is there, not empty, and gives posts. */
  predicate Yields(url: string, posts: string -> seq<XItem>, fetch: string -> Option<string>)
  {
    fetch(url).Some? && fetch(url).value != "" && posts(fetch(url).value) != []
  }

  /** The answer of the mirror chain `urls`, where `posts` reads a document. */
  function Chain(urls: seq<string>, posts: string -> seq<XItem>, fetch: string -> Option<string>): XResponse
  {
    if urls == [] then Unavailable(NO_ITEMS_NOTE)
    else if Yields(urls[0], posts, fetch) then Found(urls[0], posts(fetch(urls[0]).value))
    else Chain(urls[1..], posts, fetch)
  }

  /** The chain gives the note exactly when no mirror yields posts. */
  lemma {:induction false} ChainUnavailable(urls: seq<string>, posts: string -> seq<XItem>, fetch: string -> Option<string>)
    ensures Chain(urls, posts, fetch).Unavailable? <==> forall k :: 0 <= k < |urls| ==> !Yields(urls[k], posts, fetch)
    ensures Chain(urls, posts, fetch).Unavailable? ==> Chain(urls, posts, fetch).note == NO_ITEMS_NOTE
  {
    if urls != [] && !Yields(urls[0], posts, fetch) {
      ChainUnavailable(urls[1..], posts, fetch);
      assert forall k :: 1 <= k < |urls| ==> urls[k] == urls[1..][k - 1];
    }
  }

  /** A chain that answers with posts answers with those of the first mirror
      that yields any; `k` is that mirror's position. */
  lemma {:induction false} ChainFound(urls: seq<string>, posts: string -> seq<XItem>, fetch: string -> Option<string>)
    returns (k: nat)
    requires Chain(urls, posts, fetch).Found?
    ensures k < |urls| && urls[k] == Chain(urls, posts, fetch).source
    ensures Yields(urls[k], posts, fetch)
    ensures Chain(urls, posts, fetch).items == posts(fetch(urls[k]).value)
    ensures forall j :: 0 <= j < k ==> !Yields(urls[j], posts, fetch)
  {
    if Yields(urls[0], posts, fetch) {
      k := 0;
    } else {
      var k1 := ChainFound(urls[1..], posts, fetch);
      k := k1 + 1;
      assert urls[k] == urls[1..][k1];
      forall j | 0 <= j < k ensures !Yields(urls[j], posts, fetch) {
        if j > 0 { assert urls[j] == urls[1..][j - 1]; }
      }
    }
  }

  /** `GET`: the mirrors in order, stopping at the first that yields posts.
      `fetched` lists the mirrors asked, in order; `fetch` stands for `fetchText`,
      with `None` for a failed request. */
  method Get(limitParam: Option<string>, number: string -> Num, fetch: string -> Option<string>)
    returns (r: XResponse, fetched: seq<string>)
    ensures r == Chain(FEED_URLS, PostsReader(RequestedLimit(limitParam, number)), fetch)
    ensures fetched <= FEED_URLS
    ensures r.Found? ==> fetched != [] && fetched[|fetched| - 1] == r.source
    ensures r.Unavailable? ==> fetched == FEED_URLS
  {
    var limit := RequestedLimit(limitParam, number);
    fetched := [];
    var k := 0;
    while k < |FEED_URLS|
      invariant 0 <= k <= |FEED_URLS|
      invariant fetched == FEED_URLS[..k]
      invariant Chain(FEED_URLS[k..], PostsReader(limit), fetch) == Chain(FEED_URLS, PostsReader(limit), fetch)
    {
      var url := FEED_URLS[k];
      fetched := fetched + [url];
      var xml := fetch(url);
      assert FEED_URLS[k..][1..] == FEED_URLS[k + 1..];
      if xml.None? || xml.value == "" {
        k := k + 1;
        continue;
      }
      var items := ParseRss(xml.value, limit);
      if |items| > 0 {
        r := Found(url, items);
        assert fetched == FEED_URLS[..k + 1];
        return;
      }
      k := k + 1;
    }
    assert FEED_URLS[..k] == FEED_URLS;
    r := Unavailable(NO_ITEMS_NOTE);
  }
}
