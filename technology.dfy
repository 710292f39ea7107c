/** The technology observation endpoint: every source is read in turn (an X
    profile becomes a link placeholder, a web page is searched for a feed, and
    without usable feed items the page's own title is used), the items are
    de-duplicated by URL, sorted newest first and capped, and grouped into blocks
    by the source's group. */
module Technology {
  import opened Prelude
  import opened Text
  import opened Regex
  import opened Sorting
  import opened Dedup

  datatype Kind = Web | X | OpenAI

  datatype Source = Source(group: string, observation: string, name: string, url: string,
                           note: Option<string>, kind: Kind)

  /** An item's time: not given, a parsed time, or a date `Date.parse` rejects
      (the source stores NaN then). */
  datatype Stamp = Unset | Time(t: int) | Invalid

  datatype Item = Item(title: string, summary: Option<string>, url: string, source: string,
                       group: string, ts: Stamp)

  /** The text cheerio gives for the first element of each kind inside one RSS
      `<item>` ("" when there is none). */
  datatype RssElement = RssElement(title: string, link: string, description: string,
                                   contentEncoded: string, pubDate: string)

  /** The same for one Atom `<entry>`; `linkHref` is the `href` attribute of its
      first `<link>`, when it has one. */
  datatype AtomElement = AtomElement(title: string, linkHref: Option<string>, linkText: string,
                                     summary: string, content: string, updated: string)

  /** A feed document as cheerio sees it in XML mode. */
  datatype FeedDoc = FeedDoc(items: seq<RssElement>, entries: seq<AtomElement>)

  /** An HTML page as cheerio sees it: the `content` of the `og:title` meta tag,
      the text of the first `<title>`, the two description meta tags, and the
      `href` of each of the four feed-link selectors in the order they are tried. */
  datatype Page = Page(ogTitle: Option<string>, title: string, ogDescription: Option<string>,
                       description: Option<string>, alternates: seq<Option<string>>)

  /** What the endpoint takes from outside: `fetch` is `fetchText` (`None` when
      it throws, also for a status that is not ok), `page` and `feed` are
      cheerio's view of a document, `resolve` is `new URL(href, base).toString()`
      (`None` when it throws), `htmlText` is `cheerio.load(s).text()`, `parse` is
      `Date.parse` (`None` for NaN) and `now(u)` is what `Date.now()` returns
      while the source at URL `u` is read. The sources are read one after
      another and their URLs are distinct, so each reading has a value of its
      own, and a later source may have a later stamp. */
  datatype Env = Env(fetch: string -> Option<string>, page: string -> Page, feed: string -> FeedDoc,
                     resolve: (string, string) -> Option<string>, htmlText: string -> string,
                     parse: string -> Option<int>, now: string -> int)

  const X_NOTE: string := "X content is not scraped without official API. Open the official profile."

  const X_DEFAULT_TITLE: string := "Open the official profile on X"

  const X_SUMMARY: string := "This surface is observed via official link (no scraping)."

  const G1: string := "① Institutions × Technology"
  const G2: string := "② AI & Compute Foundations"
  const G3: string := "③ Semiconductors & Compute Infrastructure"
  const G4: string := "④ Quantum Technology"
  const G5: string := "⑤ Energy & Foundational Infrastructure"
  const G6: string := "⑥ Bio & Life Manipulation"

  const O1: string := "The point where technology outruns institutions"
  const O2: string := "Where human judgment becomes unnecessary / impossible"
  const O3: string := "Physical constraints that software cannot override"
  const O4: string := "Signals of moving from control to structure"
  const O5: string := "Whether systems are designed assuming humans cannot stop them"
  const O6: string := "Irreversible manipulation of living systems"

  const SOURCES: seq<Source> := [
    Source(G1, O1, "OECD — Technology Policy", "https://www.oecd.org/en/topics/technology-policy.html", None, Web),
    Source(G1, O1, "NIST — News", "https://www.nist.gov/news-events/news/search", None, Web),
    Source(G1, O1, "World Economic Forum — Centre", "https://centres.weforum.org/centre-for-regions-trade-and-geopolitics/home", None, Web),
    Source(G2, O2, "Andrej Karpathy (X)", "https://x.com/karpathy", Some(X_NOTE), X),
    Source(G2, O2, "Ilya Sutskever (X)", "https://x.com/ilyasut", Some(X_NOTE), X),
    Source(G2, O2, "Geoffrey Hinton (X)", "https://x.com/geoffreyhinton", Some(X_NOTE), X),
    Source(G2, O2, "OpenAI — Company announcements", "https://openai.com/news/company-announcements/", None, OpenAI),
    Source(G3, O3, "NVIDIA Newsroom", "https://nvidianews.nvidia.com", None, Web),
    Source(G3, O3, "TSMC — Latest News", "https://pr.tsmc.com/english/latest-news", None, Web),
    Source(G3, O3, "ASML — News", "https://www.asml.com/en/news", None, Web),
    Source(G4, O4, "PsiQuantum — News", "https://www.psiquantum.com/news", None, Web),
    Source(G4, O4, "John Preskill (X)", "https://x.com/preskill", Some(X_NOTE), X),
    Source(G4, O4, "Quanta Magazine", "https://www.quantamagazine.org", None, Web),
    Source(G5, O5, "Elon Musk (X)", "https://x.com/elonmusk", Some(X_NOTE), X),
    Source(G5, O5, "SpaceX — Updates", "https://www.spacex.com/updates", None, Web),
    Source(G5, O5, "ITER — Press clippings", "https://www.iter.org/press-clippings", None, Web),
    Source(G5, O5, "U.S. Department of Energy — Newsroom", "https://www.energy.gov/newsroom", None, Web),
    Source(G5, O5, "IBM — Newsroom", "https://newsroom.ibm.com", None, Web),
    Source(G6, O6, "Broad Institute — News", "https://www.broadinstitute.org/news", None, Web),
    Source(G6, O6, "Nature Biotechnology", "https://www.nature.com/nbt/", None, Web)
  ]

  function ItemUrl(it: Item): string { it.url }

  function SourceGroup(s: Source): string { s.group }

  /** The sort key `ts ?? 0`. An unparseable date also counts as 0 here; see the
      notes on the sort. */
  function TsKey(it: Item): int
  {
    match it.ts
    case Unset => 0
    case Time(t) => t
    case Invalid => 0
  }

  // ---- absUrl ----

  /** `absUrl`: `href` resolved against `base`, or `href` itself when resolution
      throws. */
  function AbsUrl(base: string, href: string, resolve: (string, string) -> Option<string>): (r: string)
    ensures resolve(base, href).None? ==> r == href
    ensures resolve(base, href).Some? ==> r == resolve(base, href).value
  {
    match resolve(base, href)
    case Some(u) => u
    case None => href
  }

  // ---- parseRss ----

  /** `.replace(/\s+/g, " ").trim().slice(0, 180)`. */
  function Summarize(s: string): (r: string)
  {
    Take(Trim(Replace(s, Spaces, " ")), 180)
  }

  /** A summary is at most 180 characters of the collapsed text: it starts with a
      visible character, and its only white space is single plain spaces. */
  lemma SummarizeFacts(s: string)
    ensures |Summarize(s)| <= 180
    ensures Summarize(s) <= Trim(Replace(s, Spaces, " "))
    ensures Summarize(s) != [] ==> !IsSpace(Summarize(s)[0])
    ensures NoDoubleSpace(Summarize(s))
    ensures forall k :: 0 <= k < |Summarize(s)| && IsSpace(Summarize(s)[k]) ==> Summarize(s)[k] == ' '
  {
    CollapseFacts(s);
    TrimTakeFacts(Replace(s, Spaces, " "), 180);
  }

  /** A prefix of a trimmed text whose spaces are single plain spaces keeps
      them so. */
  lemma TrimTakeFacts(c: string, n: nat)
    requires NoDoubleSpace(c)
    requires forall k :: 0 <= k < |c| && IsSpace(c[k]) ==> c[k] == ' '
    ensures var r := Take(Trim(c), n);
      && (r != [] ==> !IsSpace(r[0]))
      && NoDoubleSpace(r)
      && (forall k :: 0 <= k < |r| && IsSpace(r[k]) ==> r[k] == ' ')
  {
    var t := Trim(c);
    var r := Take(t, n);
    assert forall k :: 0 <= k < |t| ==> t[k] == c[Lead(c) + k];
    assert forall k :: 0 <= k < |r| ==> r[k] == t[k];
  }

  /** `pub ? Date.parse(pub) : undefined`. */
  function StampOf(pub: string, parse: string -> Option<int>): (r: Stamp)
    ensures pub == "" <==> r.Unset?
    ensures pub != "" && parse(pub).None? ==> r.Invalid?
    ensures pub != "" && parse(pub).Some? ==> r == Time(parse(pub).value)
  {
    if pub == "" then Unset
    else match parse(pub)
      case Some(t) => Time(t)
      case None => Invalid
  }

  /** One RSS item as the `.each` callback reads it. */
  function RssEntry(el: RssElement, name: string, group: string, env: Env): Option<Item>
  {
    var title := Trim(el.title);
    var link := Trim(el.link);
    var desc := OrElse(Trim(el.description), Trim(el.contentEncoded));
    var ts := StampOf(Trim(el.pubDate), env.parse);
    var summary := if desc != "" then Some(Summarize(env.htmlText(desc))) else None;
    if title != "" && link != "" then Some(Item(title, summary, link, name, group, ts)) else None
  }

  /** One Atom entry as the fallback callback reads it. */
  function AtomEntry(el: AtomElement, name: string, group: string, env: Env): Option<Item>
  {
    var title := Trim(el.title);
    var href := match el.linkHref case Some(h) => h case None => "";
    var link := OrElse(href, Trim(el.linkText));
    var sum := OrElse(Trim(el.summary), Trim(el.content));
    var ts := StampOf(Trim(el.updated), env.parse);
    var summary := if sum != "" then Some(Summarize(sum)) else None;
    if title != "" && link != "" then Some(Item(title, summary, link, name, group, ts)) else None
  }

  function RssReader(name: string, group: string, env: Env): RssElement -> Option<Item>
  {
    el => RssEntry(el, name, group, env)
  }

  function AtomReader(name: string, group: string, env: Env): AtomElement -> Option<Item>
  {
    el => AtomEntry(el, name, group, env)
  }

  /** The items of the first six RSS items that have a title and a link. */
  function RssPass(doc: FeedDoc, name: string, group: string, env: Env): seq<Item>
  {
    FilterMap(Take(doc.items, 6), RssReader(name, group, env))
  }

  /** The items of the first six Atom entries that have a title and a link. */
  function AtomPass(doc: FeedDoc, name: string, group: string, env: Env): seq<Item>
  {
    FilterMap(Take(doc.entries, 6), AtomReader(name, group, env))
  }

  /** What `parseRss` returns: the RSS items, or the Atom items when there are none. */
  function FeedItems(xml: string, name: string, group: string, env: Env): seq<Item>
  {
    var doc := env.feed(xml);
    if RssPass(doc, name, group, env) != [] then RssPass(doc, name, group, env)
    else AtomPass(doc, name, group, env)
  }

  /** `parseRss`: at most six `<item>`s are read, and the `<entry>`s only while
      no item has been pushed. */
  method ParseRss(xml: string, sourceName: string, group: string, env: Env) returns (items: seq<Item>)
    ensures items == FeedItems(xml, sourceName, group, env)
  {
    var doc := env.feed(xml);
    items := CollectItems(Take(doc.items, 6), sourceName, group, env);
    if |items| == 0 {
      items := CollectEntries(Take(doc.entries, 6), sourceName, group, env);
    }
  }

  /** The `$("item").slice(0, 6).each(…)` pass of `parseRss`. */
  method CollectItems(els: seq<RssElement>, sourceName: string, group: string, env: Env) returns (items: seq<Item>)
    ensures items == FilterMap(els, RssReader(sourceName, group, env))
  {
    items := [];
    for k := 0 to |els|
      invariant items == FilterMap(els[..k], RssReader(sourceName, group, env))
    {
      var el := els[k];
      var title := Trim(el.title);
      var link := Trim(el.link);
      var desc := OrElse(Trim(el.description), Trim(el.contentEncoded));
      var ts := StampOf(Trim(el.pubDate), env.parse);
      var summary := if desc != "" then Some(Summarize(env.htmlText(desc))) else None;
      FilterMapSnoc(els, k, RssReader(sourceName, group, env));
      if title != "" && link != "" {
        items := items + [Item(title, summary, link, sourceName, group, ts)];
      }
    }
    assert els[..|els|] == els;
  }

  /** The `$("entry").slice(0, 6).each(…)` pass of `parseRss`. */
  method CollectEntries(ens: seq<AtomElement>, sourceName: string, group: string, env: Env) returns (items: seq<Item>)
    ensures items == FilterMap(ens, AtomReader(sourceName, group, env))
  {
    items := [];
    for k := 0 to |ens|
      invariant items == FilterMap(ens[..k], AtomReader(sourceName, group, env))
    {
      var el := ens[k];
      var title := Trim(el.title);
      var href := match el.linkHref case Some(h) => h case None => "";
      var link := OrElse(href, Trim(el.linkText));
      var sum := OrElse(Trim(el.summary), Trim(el.content));
      var ts := StampOf(Trim(el.updated), env.parse);
      var summary := if sum != "" then Some(Summarize(sum)) else None;
      FilterMapSnoc(ens, k, AtomReader(sourceName, group, env));
      if title != "" && link != "" {
        items := items + [Item(title, summary, link, sourceName, group, ts)];
      }
    }
    assert ens[..|ens|] == ens;
  }

  /** The item names its source and group and has a summary of at most 180
      characters, if any. */
  predicate Labelled(it: Item, name: string, group: string)
  {
    it.source == name && it.group == group && (it.summary.Some? ==> |it.summary.value| <= 180)
  }

  /** The fields every item read from a feed has. */
  predicate FeedItemOk(it: Item, name: string, group: string)
  {
    it.title != "" && it.url != "" && Labelled(it, name, group)
  }

  lemma RssEntryFacts(el: RssElement, name: string, group: string, env: Env, it: Item)
    requires RssEntry(el, name, group, env) == Some(it)
    ensures FeedItemOk(it, name, group)
    ensures Trimmed(it.title) && Trimmed(it.url)
  {
    SummarizeFacts(env.htmlText(OrElse(Trim(el.description), Trim(el.contentEncoded))));
  }

  lemma AtomEntryFacts(el: AtomElement, name: string, group: string, env: Env, it: Item)
    requires AtomEntry(el, name, group, env) == Some(it)
    ensures FeedItemOk(it, name, group)
    ensures Trimmed(it.title)
    ensures el.linkHref.Some? && el.linkHref.value != "" ==> it.url == el.linkHref.value
  {
    SummarizeFacts(OrElse(Trim(el.summary), Trim(el.content)));
  }

  lemma RssPassShape(doc: FeedDoc, name: string, group: string, env: Env)
    ensures |RssPass(doc, name, group, env)| <= 6
    ensures forall it :: it in RssPass(doc, name, group, env) ==> FeedItemOk(it, name, group)
  {
    FilterMapBounds(Take(doc.items, 6), RssReader(name, group, env));
    forall it | it in RssPass(doc, name, group, env) ensures FeedItemOk(it, name, group) {
      var el :| el in Take(doc.items, 6) && RssReader(name, group, env)(el) == Some(it);
      RssEntryFacts(el, name, group, env, it);
    }
  }

  lemma AtomPassShape(doc: FeedDoc, name: string, group: string, env: Env)
    ensures |AtomPass(doc, name, group, env)| <= 6
    ensures forall it :: it in AtomPass(doc, name, group, env) ==> FeedItemOk(it, name, group)
  {
    FilterMapBounds(Take(doc.entries, 6), AtomReader(name, group, env));
    forall it | it in AtomPass(doc, name, group, env) ensures FeedItemOk(it, name, group) {
      var el :| el in Take(doc.entries, 6) && AtomReader(name, group, env)(el) == Some(it);
      AtomEntryFacts(el, name, group, env, it);
    }
  }

  /** A feed gives at most six items, each with a title, a link, the source's
      name and group, and a summary of at most 180 characters. */
  lemma FeedItemsShape(xml: string, name: string, group: string, env: Env)
    ensures |FeedItems(xml, name, group, env)| <= 6
    ensures forall it :: it in FeedItems(xml, name, group, env) ==> FeedItemOk(it, name, group)
  {
    RssPassShape(env.feed(xml), name, group, env);
    AtomPassShape(env.feed(xml), name, group, env);
  }

  /** The Atom entries are read only when the RSS pass keeps nothing. */
  lemma FeedItemsAtomOnlyWithoutRss(xml: string, name: string, group: string, env: Env)
    ensures RssPass(env.feed(xml), name, group, env) != [] ==>
      FeedItems(xml, name, group, env) == RssPass(env.feed(xml), name, group, env)
    ensures RssPass(env.feed(xml), name, group, env) == [] ==>
      FeedItems(xml, name, group, env) == AtomPass(env.feed(xml), name, group, env)
  {
  }

  // ---- discovery and fallback ----

  /** The first of the candidate `href`s that is there and not empty: the `||`
      chain over the four feed-link selectors. */
  function FirstHref(cands: seq<Option<string>>): (r: Option<string>)
    ensures r.Some? ==> r.value != "" && exists k :: 0 <= k < |cands| && cands[k] == r
    ensures r.None? <==> forall k :: 0 <= k < |cands| ==> cands[k].None? || cands[k].value == ""
  {
    if cands == [] then None
    else if cands[0].Some? && cands[0].value != "" then cands[0]
    else
      var r := FirstHref(cands[1..]);
      assert forall k :: 1 <= k < |cands| ==> cands[k] == cands[1..][k - 1];
      r
  }

  /** `tryDiscoverAndFetchRss`: the page text and the absolute URL of the feed it
      announces, if any; `None` when the page fetch throws. */
  function Discover(pageUrl: string, env: Env): Option<(string, Option<string>)>
  {
    match env.fetch(pageUrl)
    case None => None
    case Some(html) =>
      match FirstHref(env.page(html).alternates)
      case None => Some((html, None))
      case Some(href) => Some((html, Some(AbsUrl(pageUrl, href, env.resolve))))
  }

  /** `attr("content")?.trim()`, with `undefined` as "". */
  function TrimmedAttr(a: Option<string>): string
  {
    match a
    case None => ""
    case Some(v) => Trim(v)
  }

  /** `fallbackFromHtml`: one item titled by the page, or none. */
  function FallbackFromHtml(html: string, pageUrl: string, sourceName: string, group: string, env: Env): seq<Item>
  {
    var p := env.page(html);
    var title := OrElse(TrimmedAttr(p.ogTitle), Trim(p.title));
    var desc := OrElse(OrElse(TrimmedAttr(p.ogDescription), TrimmedAttr(p.description)), "");
    var summary := if desc != "" then Some(Summarize(desc)) else None;
    if title == "" then [] else [Item(title, summary, pageUrl, sourceName, group, Time(env.now(pageUrl)))]
  }

  /** The fallback gives at most one item, none exactly when the page has no
      title, and otherwise an item for the page itself stamped with the current
      time. */
  lemma FallbackFacts(html: string, pageUrl: string, sourceName: string, group: string, env: Env)
    ensures var r := FallbackFromHtml(html, pageUrl, sourceName, group, env);
      && |r| <= 1
      && (r == [] <==> OrElse(TrimmedAttr(env.page(html).ogTitle), Trim(env.page(html).title)) == "")
      && (r != [] ==> r[0].url == pageUrl && r[0].ts == Time(env.now(pageUrl)) && r[0].title != "" && Labelled(r[0], sourceName, group))
  {
    var p := env.page(html);
    SummarizeFacts(OrElse(OrElse(TrimmedAttr(p.ogDescription), TrimmedAttr(p.description)), ""));
  }

  // ---- fetchItemsForSource ----

  /** The placeholder of an X profile. */
  function XPlaceholder(s: Source, now: int): Item
  {
    Item(match s.note case Some(n) => n case None => X_DEFAULT_TITLE, Some(X_SUMMARY), s.url, s.name, s.group, Time(now))
  }

  /** What `fetchItemsForSource` gives for `s`; `None` when it throws. An empty
      feed URL, which `if (rss)` treats as none, is not fetched. */
  function SourceItems(s: Source, env: Env): Option<seq<Item>>
  {
    if s.kind == X then Some([XPlaceholder(s, env.now(s.url))])
    else
      match Discover(s.url, env)
      case None => None
      case Some(d) =>
        var html := d.0;
        var feedItems :=
          match d.1
          case None => []
          case Some(rss) =>
            if rss == "" then [] else
            match env.fetch(rss)
            case None => []
            case Some(xml) => FeedItems(xml, s.name, s.group, env);
        if feedItems != [] then Some(feedItems)
        else Some(FallbackFromHtml(html, s.url, s.name, s.group, env))
  }

  /** `fetchItemsForSource`; `fetched` lists the URLs it asks for, in order. */
  method FetchItemsForSource(s: Source, env: Env) returns (r: Option<seq<Item>>, fetched: seq<string>)
    ensures r == SourceItems(s, env)
    ensures s.kind == X ==> fetched == []
    ensures s.kind != X ==> 1 <= |fetched| <= 2 && fetched[0] == s.url
    ensures |fetched| == 2 ==> Discover(s.url, env).Some? && Discover(s.url, env).value.1 == Some(fetched[1]) && fetched[1] != ""
  {
    if s.kind == X {
      return Some([XPlaceholder(s, env.now(s.url))]), [];
    }
    fetched := [s.url];
    var html := env.fetch(s.url);
    if html.None? {
      return None, fetched;
    }
    var href := FirstHref(env.page(html.value).alternates);
    var rss := if href.None? then None else Some(AbsUrl(s.url, href.value, env.resolve));
    if rss.Some? && rss.value != "" {
      fetched := fetched + [rss.value];
      var xml := env.fetch(rss.value);
      if xml.Some? {
        var items := ParseRss(xml.value, s.name, s.group, env);
        if |items| > 0 {
          return Some(items), fetched;
        }
      }
    }
    r := Some(FallbackFromHtml(html.value, s.url, s.name, s.group, env));
  }

  /** An X profile gives its placeholder, which links to the profile, and
      nothing else. */
  lemma XSourceItems(s: Source, env: Env)
    requires s.kind == X
    ensures SourceItems(s, env) == Some([XPlaceholder(s, env.now(s.url))])
    ensures XPlaceholder(s, env.now(s.url)).url == s.url && XPlaceholder(s, env.now(s.url)).ts == Time(env.now(s.url))
    ensures s.note.Some? ==> XPlaceholder(s, env.now(s.url)).title == s.note.value
  {
  }

  /** Any other source fails exactly when its page cannot be fetched. */
  lemma WebSourceFails(s: Source, env: Env)
    requires s.kind != X
    ensures SourceItems(s, env).None? <==> env.fetch(s.url).None?
  {
  }

  /** A web source that reads its page gives the feed's items when the page
      announces a feed that can be fetched and gives items, and otherwise the
      page's one item or nothing. */
  lemma WebSourceItems(s: Source, env: Env)
    requires s.kind != X && env.fetch(s.url).Some?
    ensures var d := Discover(s.url, env).value;
      var feedItems := if d.1.Some? && d.1.value != "" && env.fetch(d.1.value).Some?
        then FeedItems(env.fetch(d.1.value).value, s.name, s.group, env) else [];
      && (feedItems != [] ==> SourceItems(s, env) == Some(feedItems))
      && (feedItems == [] ==> SourceItems(s, env) == Some(FallbackFromHtml(d.0, s.url, s.name, s.group, env)))
      && (feedItems == [] ==> |SourceItems(s, env).value| <= 1)
  {
    var d := Discover(s.url, env).value;
    FallbackFacts(d.0, s.url, s.name, s.group, env);
  }

  /** Every item of a source carries the source's name and group, and a summary
      of at most 180 characters. */
  lemma SourceItemsFields(s: Source, env: Env)
    requires SourceItems(s, env).Some?
    ensures forall it :: it in SourceItems(s, env).value ==> Labelled(it, s.name, s.group)
  {
    if s.kind == X {
      SummarizeFacts(X_SUMMARY);
    } else {
      WebSourceItems(s, env);
      var d := Discover(s.url, env).value;
      if d.1.Some? && d.1.value != "" && env.fetch(d.1.value).Some? {
        FeedItemsShape(env.fetch(d.1.value).value, s.name, s.group, env);
      }
      FallbackFacts(d.0, s.url, s.name, s.group, env);
    }
  }

  // ---- uniqByUrl ----

  /** `uniqByUrl`: the loop with the set of URLs seen so far. */
  method UniqByUrl(items: seq<Item>) returns (out: seq<Item>)
    ensures out == DedupBy(items, ItemUrl)
  {
    var seen: set<string> := {};
    out := [];
    for k := 0 to |items|
      invariant out == DedupBy(items[..k], ItemUrl)
      invariant forall u :: u in seen <==> HasKey(items[..k], ItemUrl, u)
    {
      var it := items[k];
      assert items[..k + 1][..k] == items[..k];
      HasKeyPrefix(items, k, ItemUrl);
      if it.url in seen {
        continue;
      }
      seen := seen + {it.url};
      out := out + [it];
    }
    assert items[..|items|] == items;
  }

  // ---- GET ----

  /** A link of a block; `caption` is the source's `label`, a reserved word here. */
  datatype Link = Link(caption: string, url: string, note: Option<string>)

  /** The value kept in `byGroup` for one group. */
  datatype Bucket = Bucket(groupTitle: string, observation: string, items: seq<Item>, links: seq<Link>)

  /** The `byGroup` map together with the order in which its keys were first set,
      which is the order `byGroup.values()` gives them in. */
  datatype Grouping = Grouping(order: seq<string>, byGroup: map<string, Bucket>)

  datatype Block = Block(groupTitle: string, observation: string, links: seq<Link>, items: seq<Item>)

  /** The three bodies `GET` can answer with; all have status 200. */
  datatype TechResponse = Home(updatedAt: string, home: seq<Item>)
                        | Full(updatedAt: string, blocks: seq<Block>)
                        | Failed

  function Status(r: TechResponse): int { 200 }

  /** `searchParams.get("mode") || "home"`. */
  function Mode(param: Option<string>): string
  {
    match param
    case None => "home"
    case Some(m) => OrElse(m, "home")
  }

  /** The link a source adds to its group; only an X profile carries its note. */
  function LinkOf(s: Source): Link
  {
    Link(s.name, s.url, if s.kind == X then s.note else None)
  }

  function Links(ss: seq<Source>): seq<Link>
  {
    seq(|ss|, i requires 0 <= i < |ss| => LinkOf(ss[i]))
  }

  function InGroup(g: string): Source -> bool
  {
    (s: Source) => s.group == g
  }

  function GroupTitles(ss: seq<Source>): seq<string>
  {
    seq(|ss|, i requires 0 <= i < |ss| => ss[i].group)
  }

  /** One pass of the loop over the sources: the group's bucket, made on first
      sight, gets the source's items and link. */
  function AddSource(gr: Grouping, s: Source, items: seq<Item>): Grouping
  {
    var known := s.group in gr.byGroup;
    var b := if known then gr.byGroup[s.group] else Bucket(s.group, s.observation, [], []);
    var b' := b.(items := b.items + items, links := b.links + [LinkOf(s)]);
    Grouping(if known then gr.order else gr.order + [s.group], gr.byGroup[s.group := b'])
  }

  /** The grouping after the sources `ss`, which gave the item lists `lists`. */
  function GroupAll(ss: seq<Source>, lists: seq<seq<Item>>): Grouping
    requires |ss| == |lists|
    decreases |ss|
  {
    if ss == [] then Grouping([], map[])
    else AddSource(GroupAll(ss[..|ss| - 1], lists[..|ss| - 1]), ss[|ss| - 1], lists[|ss| - 1])
  }

  /** `all.push(...items)` over the lists. */
  function Flatten(lists: seq<seq<Item>>): seq<Item>
    decreases |lists|
  {
    if lists == [] then [] else Flatten(lists[..|lists| - 1]) + lists[|lists| - 1]
  }

  /** The items of the sources of group `g`, in source order. */
  function ItemsIn(g: string, ss: seq<Source>, lists: seq<seq<Item>>): seq<Item>
    requires |ss| == |lists|
  {
    if ss == [] then [] else (if ss[0].group == g then lists[0] else []) + ItemsIn(g, ss[1..], lists[1..])
  }

  lemma {:induction false} ItemsInSnoc(g: string, ss: seq<Source>, lists: seq<seq<Item>>)
    requires |ss| == |lists| > 0
    ensures var n := |ss| - 1;
      ItemsIn(g, ss, lists) == ItemsIn(g, ss[..n], lists[..n]) + (if ss[n].group == g then lists[n] else [])
    decreases |ss|
  {
    var n := |ss| - 1;
    if n > 0 {
      ItemsInSnoc(g, ss[1..], lists[1..]);
      assert ss[1..][..n - 1] == ss[..n][1..] && lists[1..][..n - 1] == lists[..n][1..];
      assert ss[..n][0] == ss[0] && lists[..n][0] == lists[0];
      assert ss[1..][n - 1] == ss[n] && lists[1..][n - 1] == lists[n];
    } else {
      assert ss[..n] == [] && lists[..n] == [];
      assert ItemsIn(g, ss[1..], lists[1..]) == [];
    }
  }

  lemma {:induction false} ItemsInNone(g: string, ss: seq<Source>, lists: seq<seq<Item>>)
    requires |ss| == |lists| && !HasKey(ss, SourceGroup, g)
    ensures ItemsIn(g, ss, lists) == []
    decreases |ss|
  {
    if ss != [] {
      assert ss[0].group != g by { assert SourceGroup(ss[0]) != g; }
      forall i | 0 <= i < |ss[1..]| ensures SourceGroup(ss[1..][i]) != g {
        assert ss[1..][i] == ss[i + 1];
      }
      ItemsInNone(g, ss[1..], lists[1..]);
    }
  }

  /** The groups come in the order in which a source first names them, and
      `byGroup` holds exactly the named groups. */
  lemma {:induction false} GroupAllShape(ss: seq<Source>, lists: seq<seq<Item>>)
    requires |ss| == |lists|
    ensures GroupAll(ss, lists).order == GroupTitles(DedupBy(ss, SourceGroup))
    ensures forall g :: g in GroupAll(ss, lists).byGroup <==> HasKey(ss, SourceGroup, g)
    decreases |ss|
  {
    if ss != [] {
      var n := |ss| - 1;
      GroupAllShape(ss[..n], lists[..n]);
      HasKeyPrefix(ss, n, SourceGroup);
      assert ss[..n + 1] == ss;
      var d := DedupBy(ss[..n], SourceGroup);
      assert GroupTitles(d + [ss[n]]) == GroupTitles(d) + [ss[n].group];
    }
  }

  /** The first source of group `g` in `ss` has observation `o`. */
  ghost predicate FirstObservation(ss: seq<Source>, g: string, o: string)
  {
    exists i: nat :: i < |ss| && ss[i].group == g && FirstOfKey(ss, SourceGroup, i) && ss[i].observation == o
  }

  /** Each bucket is titled by its group and keeps the observation of the
      group's first source. */
  lemma {:induction false} GroupAllBucketTitle(ss: seq<Source>, lists: seq<seq<Item>>, g: string)
    requires |ss| == |lists| && g in GroupAll(ss, lists).byGroup
    ensures GroupAll(ss, lists).byGroup[g].groupTitle == g
    ensures FirstObservation(ss, g, GroupAll(ss, lists).byGroup[g].observation)
    decreases |ss|
  {
    var n := |ss| - 1;
    var p, pl, x := ss[..n], lists[..n], ss[n];
    var prev := GroupAll(p, pl);
    GroupAllShape(p, pl);
    assert forall i :: 0 <= i < n ==> p[i] == ss[i];
    if g in prev.byGroup {
      GroupAllBucketTitle(p, pl, g);
      var i: nat :| i < |p| && p[i].group == g && FirstOfKey(p, SourceGroup, i)
        && p[i].observation == prev.byGroup[g].observation;
      assert FirstOfKey(ss, SourceGroup, i);
    } else {
      assert FirstOfKey(ss, SourceGroup, n) by {
        forall j | 0 <= j < n ensures SourceGroup(ss[j]) != g {
          assert SourceGroup(p[j]) != g;
        }
      }
    }
  }

  /** Each bucket lists the links of its group's sources in source order. */
  lemma {:induction false} GroupAllBucketLinks(ss: seq<Source>, lists: seq<seq<Item>>, g: string)
    requires |ss| == |lists| && g in GroupAll(ss, lists).byGroup
    ensures GroupAll(ss, lists).byGroup[g].links == Links(Filter(ss, InGroup(g)))
    decreases |ss|
  {
    var n := |ss| - 1;
    var p, pl, x := ss[..n], lists[..n], ss[n];
    var prev := GroupAll(p, pl);
    assert ss == p + [x];
    GroupAllShape(p, pl);
    FilterSnoc(p, x, InGroup(g));
    var fp := Filter(p, InGroup(g));
    if g in prev.byGroup {
      GroupAllBucketLinks(p, pl, g);
      LinksSnoc(fp, x);
    } else {
      forall j | 0 <= j < |p| ensures !InGroup(g)(p[j]) {
        assert SourceGroup(p[j]) != g;
      }
      FilterNone(p, InGroup(g));
      LinksSnoc([], x);
    }
  }

  lemma LinksSnoc(ss: seq<Source>, x: Source)
    ensures Links(ss + [x]) == Links(ss) + [LinkOf(x)]
  {
  }

  /** Each bucket holds the items of its group's sources in source order. */
  lemma {:induction false} GroupAllBucketItems(ss: seq<Source>, lists: seq<seq<Item>>, g: string)
    requires |ss| == |lists| && g in GroupAll(ss, lists).byGroup
    ensures GroupAll(ss, lists).byGroup[g].items == ItemsIn(g, ss, lists)
    decreases |ss|
  {
    var n := |ss| - 1;
    var p, pl, x := ss[..n], lists[..n], ss[n];
    var prev := GroupAll(p, pl);
    GroupAllShape(p, pl);
    ItemsInSnoc(g, ss, lists);
    if g in prev.byGroup {
      GroupAllBucketItems(p, pl, g);
    } else {
      ItemsInNone(g, p, pl);
    }
  }

  /** What reading one source gives: `fetchItemsForSource` with its throw as None. */
  type Reader = Source -> Option<seq<Item>>

  function SourceReader(env: Env): Reader
  {
    s => SourceItems(s, env)
  }

  /** The item lists of the sources, with [] for a source that failed. */
  function Results(ss: seq<Source>, read: Reader): (r: seq<seq<Item>>)
    ensures |r| == |ss|
    decreases |ss|
  {
    if ss == [] then [] else Results(ss[..|ss| - 1], read) + [ResultOf(ss[|ss| - 1], read)]
  }

  function ResultOf(s: Source, read: Reader): seq<Item>
  {
    match read(s) case Some(v) => v case None => []
  }

  /** The reading of source `s` did not throw. */
  predicate Fetched(s: Source, read: Reader)
  {
    read(s).Some?
  }

  /** No source's reading threw. */
  predicate AllFetched(ss: seq<Source>, read: Reader)
    decreases |ss|
  {
    ss == [] || (AllFetched(ss[..|ss| - 1], read) && Fetched(ss[|ss| - 1], read))
  }

  /** `AllFetched` holds exactly when every source was read without a throw. */
  lemma {:induction false} AllFetchedMeaning(ss: seq<Source>, read: Reader)
    ensures AllFetched(ss, read) <==> forall j :: 0 <= j < |ss| ==> Fetched(ss[j], read)
    decreases |ss|
  {
    if ss != [] {
      var n := |ss| - 1;
      AllFetchedMeaning(ss[..n], read);
      assert forall j :: 0 <= j < n ==> ss[..n][j] == ss[j];
    }
  }

  /** A source that failed makes every longer list of sources fail. */
  lemma {:induction false} AllFetchedPrefix(ss: seq<Source>, m: nat, read: Reader)
    requires m <= |ss| && AllFetched(ss, read)
    ensures AllFetched(ss[..m], read)
    decreases |ss|
  {
    if m < |ss| {
      var n := |ss| - 1;
      assert ss[..n][..m] == ss[..m];
      AllFetchedPrefix(ss[..n], m, read);
    } else {
      assert ss[..m] == ss;
    }
  }

  /** `uniqByUrl(items).sort(newest first).slice(0, cap)`. */
  function Clean(items: seq<Item>, cap: nat): seq<Item>
  {
    Take(SortDesc(DedupBy(items, ItemUrl), TsKey), cap)
  }

  function BlockOf(b: Bucket): Block
  {
    Block(b.groupTitle, b.observation, b.links, Clean(b.items, 10))
  }

  /** `Array.from(byGroup.values()).map(…)`. */
  function BlocksOf(gr: Grouping): seq<Block>
    requires forall g :: g in gr.order ==> g in gr.byGroup
  {
    seq(|gr.order|, i requires 0 <= i < |gr.order| => BlockOf(gr.byGroup[gr.order[i]]))
  }

  /** Every group in the order has a bucket. */
  lemma GroupAllOrdered(ss: seq<Source>, lists: seq<seq<Item>>)
    requires |ss| == |lists|
    ensures forall g :: g in GroupAll(ss, lists).order ==> g in GroupAll(ss, lists).byGroup
  {
    GroupAllShape(ss, lists);
    var d := DedupBy(ss, SourceGroup);
    DedupBySubseq(ss, SourceGroup);
    DedupByKeys(ss, SourceGroup);
    forall g | g in GroupAll(ss, lists).order ensures HasKey(ss, SourceGroup, g) {
      var i :| 0 <= i < |d| && GroupTitles(d)[i] == g;
      assert HasKey(d, SourceGroup, g) by { assert SourceGroup(d[i]) == g; }
    }
  }

  /** What `GET` answers for the sources `ss`. */
  function Response(ss: seq<Source>, mode: string, read: Reader, updatedAt: string): TechResponse
  {
    if !AllFetched(ss, read) then Failed
    else
      var lists := Results(ss, read);
      var gr := GroupAll(ss, lists);
      if mode == "full" then
        GroupAllOrdered(ss, lists);
        Full(updatedAt, BlocksOf(gr))
      else Home(updatedAt, Take(Clean(Flatten(lists), 30), 5))
  }

  /** The `for (const s of SOURCES)` loop of `GET`: each source is read before
      the next; a source whose reading throws ends the loop. */
  method CollectSources(sources: seq<Source>, env: Env) returns (failed: bool, all: seq<Item>, gr: Grouping)
    ensures failed <==> !AllFetched(sources, SourceReader(env))
    ensures !failed ==> var lists := Results(sources, SourceReader(env));
      all == Flatten(lists) && gr == GroupAll(sources, lists)
  {
    ghost var read := SourceReader(env);
    all := [];
    gr := Grouping([], map[]);
    for k := 0 to |sources|
      invariant AllFetched(sources[..k], read)
      invariant all == Flatten(Results(sources[..k], read))
      invariant gr == GroupAll(sources[..k], Results(sources[..k], read))
    {
      var s := sources[k];
      var items, _ := FetchItemsForSource(s, env);
      assert items == read(s);
      CollectStep(sources, k, read);
      if items.None? {
        if AllFetched(sources, read) {
          AllFetchedPrefix(sources, k + 1, read);
        }
        return true, all, gr;
      }
      gr := AddSource(gr, s, items.value);
      all := all + items.value;
    }
    assert sources[..|sources|] == sources;
    failed := false;
  }

  /** One more source read: the loop state after `ss[..k + 1]` from the state
      after `ss[..k]`. */
  lemma CollectStep(ss: seq<Source>, k: nat, read: Reader)
    requires k < |ss|
    ensures read(ss[k]).None? ==> !AllFetched(ss[..k + 1], read)
    ensures read(ss[k]).Some? ==>
      var p, q, v := ss[..k + 1], ss[..k], read(ss[k]).value;
      && (AllFetched(p, read) <==> AllFetched(q, read))
      && Flatten(Results(p, read)) == Flatten(Results(q, read)) + v
      && GroupAll(p, Results(p, read)) == AddSource(GroupAll(q, Results(q, read)), ss[k], v)
  {
    var p, q := ss[..k + 1], ss[..k];
    assert p[..k] == q && p[k] == ss[k];
    var rp := Results(p, read);
    assert rp == Results(q, read) + [ResultOf(ss[k], read)];
    assert rp[..k] == Results(q, read);
  }

  /** The `.map` that turns the buckets into blocks. */
  method MakeBlocks(gr: Grouping) returns (blocks: seq<Block>)
    requires forall g :: g in gr.order ==> g in gr.byGroup
    ensures blocks == BlocksOf(gr)
  {
    blocks := [];
    for i := 0 to |gr.order|
      invariant blocks == BlocksOf(gr)[..i]
    {
      var b := gr.byGroup[gr.order[i]];
      var its := UniqByUrl(b.items);
      blocks := blocks + [Block(b.groupTitle, b.observation, b.links, Take(SortDesc(its, TsKey), 10))];
      assert BlocksOf(gr)[..i + 1] == BlocksOf(gr)[..i] + [BlocksOf(gr)[i]];
    }
    assert BlocksOf(gr)[..|gr.order|] == BlocksOf(gr);
  }

  /** `GET`; a failed reading gives the failure body. `updatedAt` stands for
      `new Date().toISOString()`. */
  method Get(modeParam: Option<string>, env: Env, updatedAt: string) returns (r: TechResponse)
    ensures r == Response(SOURCES, Mode(modeParam), SourceReader(env), updatedAt)
  {
    var mode := Mode(modeParam);
    var failed, all, gr := CollectSources(SOURCES, env);
    if failed {
      return Failed;
    }
    var unique := UniqByUrl(all);
    var allClean := Take(SortDesc(unique, TsKey), 30);
    if mode == "full" {
      GroupAllOrdered(SOURCES, Results(SOURCES, SourceReader(env)));
      var blocks := MakeBlocks(gr);
      r := Full(updatedAt, blocks);
    } else {
      var home := Take(allClean, 5);
      r := Home(updatedAt, home);
    }
  }

  /** `uniqByUrl(...).sort(newest first).slice(0, cap)`: at most `cap` items of
      distinct URLs, newest first, and none left out is newer than one kept. */
  lemma CleanShape(items: seq<Item>, cap: nat)
    ensures var r := Clean(items, cap); var d := DedupBy(items, ItemUrl);
      && |r| == (if |d| < cap then |d| else cap)
      && SortedDesc(r, TsKey)
      && InjectiveOn(r, ItemUrl)
      && (forall i, y :: 0 <= i < |r| && y in d && y !in r ==> TsKey(r[i]) >= TsKey(y))
  {
    var d := DedupBy(items, ItemUrl);
    var t := SortDesc(d, TsKey);
    SortDescFacts(d, TsKey);
    TakeSortDesc(d, TsKey, cap);
    DedupByInjective(items, ItemUrl);
    SortDescInjective(d, TsKey, ItemUrl);
    assert forall i :: 0 <= i < |Take(t, cap)| ==> Take(t, cap)[i] == t[i];
  }

  /** Every kept item is the first item of its URL in the input. */
  lemma CleanOrigin(items: seq<Item>, cap: nat)
    ensures forall x :: x in Clean(items, cap) ==> x in items && IsFirstOfKey(items, ItemUrl, x)
  {
    var d := DedupBy(items, ItemUrl);
    TakeSortDesc(d, TsKey, cap);
    DedupBySubseq(items, ItemUrl);
    SubseqIn(d, items);
    DedupByFirst(items, ItemUrl);
    forall x | x in Clean(items, cap) ensures IsFirstOfKey(items, ItemUrl, x) {
      var k :| 0 <= k < |d| && d[k] == x;
    }
  }

  /** When there are no more distinct URLs than `cap`, every URL of the input
      is kept. */
  lemma CleanComplete(items: seq<Item>, cap: nat)
    requires |DedupBy(items, ItemUrl)| <= cap
    ensures forall x :: x in items ==> HasKey(Clean(items, cap), ItemUrl, x.url)
  {
    var d := DedupBy(items, ItemUrl);
    SortDescFacts(d, TsKey);
    assert Clean(items, cap) == SortDesc(d, TsKey);
    DedupByKeys(items, ItemUrl);
    forall x | x in items ensures HasKey(Clean(items, cap), ItemUrl, x.url) {
      var i :| 0 <= i < |items| && items[i] == x;
      KeyOfPermutation(d, SortDesc(d, TsKey), ItemUrl(items[i]));
    }
  }

  /** A reordering of a list has the same URLs. */
  lemma KeyOfPermutation(d: seq<Item>, r: seq<Item>, u: string)
    requires multiset(r) == multiset(d) && HasKey(d, ItemUrl, u)
    ensures HasKey(r, ItemUrl, u)
  {
    var k :| 0 <= k < |d| && ItemUrl(d[k]) == u;
    assert d[k] in multiset(r);
    var j :| 0 <= j < |r| && r[j] == d[k];
  }

  /** The request fails exactly when the reading of some source throws. */
  lemma ResponseFailed(ss: seq<Source>, mode: string, read: Reader, updatedAt: string)
    ensures Response(ss, mode, read, updatedAt).Failed?
      <==> exists j :: 0 <= j < |ss| && !Fetched(ss[j], read)
  {
    AllFetchedMeaning(ss, read);
  }

  /** Only a web page that cannot be fetched makes a source throw; an X
      source never does. */
  lemma SourceFetched(s: Source, env: Env)
    ensures Fetched(s, SourceReader(env)) <==> s.kind == X || env.fetch(s.url).Some?
  {
    if s.kind != X {
      WebSourceFails(s, env);
    }
  }

  /** The home view is the newest five items of distinct URLs over all sources. */
  lemma HomeFacts(ss: seq<Source>, mode: string, read: Reader, updatedAt: string)
    requires mode != "full" && AllFetched(ss, read)
    ensures var r := Response(ss, mode, read, updatedAt);
      r.Home? && r.updatedAt == updatedAt && r.home == Clean(Flatten(Results(ss, read)), 5)
  {
    TakeTake(SortDesc(DedupBy(Flatten(Results(ss, read)), ItemUrl), TsKey), 30, 5);
  }

  /** The full view has one block per group, in the order of the groups'
      first sources. */
  lemma FullShape(ss: seq<Source>, mode: string, read: Reader, updatedAt: string)
    requires mode == "full" && AllFetched(ss, read)
    ensures var r := Response(ss, mode, read, updatedAt); var d := DedupBy(ss, SourceGroup);
      && r.Full? && r.updatedAt == updatedAt && |r.blocks| == |d|
      && forall i :: 0 <= i < |d| ==> r.blocks[i].groupTitle == d[i].group
  {
    var lists := Results(ss, read);
    var gr := GroupAll(ss, lists);
    GroupAllShape(ss, lists);
    GroupAllOrdered(ss, lists);
    forall i | 0 <= i < |gr.order| ensures BlocksOf(gr)[i].groupTitle == gr.order[i] {
      GroupAllBucketTitle(ss, lists, gr.order[i]);
    }
  }

  /** Block `i` of the full view: its group's links in source order, the
      observation of the group's first source, and the group's newest ten items
      of distinct URLs. */
  lemma FullBlock(ss: seq<Source>, mode: string, read: Reader, updatedAt: string, i: nat)
    requires mode == "full" && AllFetched(ss, read) && i < |DedupBy(ss, SourceGroup)|
    ensures var r := Response(ss, mode, read, updatedAt); var g := DedupBy(ss, SourceGroup)[i].group;
      && r.Full? && i < |r.blocks|
      && r.blocks[i].groupTitle == g
      && r.blocks[i].links == Links(Filter(ss, InGroup(g)))
      && FirstObservation(ss, g, r.blocks[i].observation)
      && r.blocks[i].items == Clean(ItemsIn(g, ss, Results(ss, read)), 10)
  {
    var lists := Results(ss, read);
    var gr := GroupAll(ss, lists);
    GroupAllShape(ss, lists);
    GroupAllOrdered(ss, lists);
    var g := gr.order[i];
    GroupAllBucketTitle(ss, lists, g);
    GroupAllBucketLinks(ss, lists, g);
    GroupAllBucketItems(ss, lists, g);
  }

  /** No two blocks of the full view belong to the same group. */
  lemma FullDistinct(ss: seq<Source>, mode: string, read: Reader, updatedAt: string)
    requires mode == "full" && AllFetched(ss, read)
    ensures var r := Response(ss, mode, read, updatedAt);
      r.Full? && forall i, j :: 0 <= i < j < |r.blocks| ==> r.blocks[i].groupTitle != r.blocks[j].groupTitle
  {
    FullShape(ss, mode, read, updatedAt);
    DedupByInjective(ss, SourceGroup);
  }
}
