/** The feed normaliser of `lib/feeds.ts`: a pattern-based reader for RSS 2.0
    `<item>` blocks and Atom `<entry>` blocks, with its markup stripping, tag and
    attribute extraction, date stamp and text clamp, and the static source tables. */
module Feeds {
  import opened Prelude
  import opened Text
  import opened Regex

  datatype FeedItem = FeedItem(title: string, url: string, source: string, ts: int, summary: string)

  datatype FeedSource = FeedSource(id: string, name: string, url: string)

  datatype Category = Category(id: string, name: string, sources: seq<FeedSource>)

  // ---- markup helpers ----

  /** `decodeEntities`: five global replacements, in this order. */
  function DecodeEntities(s: string): string
  {
    var a := Replace(s, Lit("&amp;", false), "&");
    var b := Replace(a, Lit("&lt;", false), "<");
    var c := Replace(b, Lit("&gt;", false), ">");
    var d := Replace(c, Lit("&quot;", false), "\"");
    Replace(d, Lit("&#39;", false), "'")
  }

  /** One decoding pass, which replaces an entity `&…;` by one visible character,
      keeps trimmed, single-spaced text so. */
  lemma EntityStep(s: string, t: string, c: char)
    requires |t| >= 2 && t[0] == '&' && t[|t| - 1] == ';' && !IsSpace(c)
    requires Trimmed(s) && NoDoubleSpace(s)
    ensures Trimmed(Replace(s, Lit(t, false), [c])) && NoDoubleSpace(Replace(s, Lit(t, false), [c]))
  {
    ReplaceLitKeepsSpacing(s, t, false, [c]);
  }

  /** Decoding replaces entities by single visible characters, so it never creates
      or joins white space. */
  lemma DecodeEntitiesKeepsSpacing(s: string)
    requires Trimmed(s) && NoDoubleSpace(s)
    ensures Trimmed(DecodeEntities(s)) && NoDoubleSpace(DecodeEntities(s))
  {
    var a := Replace(s, Lit("&amp;", false), "&");
    EntityStep(s, "&amp;", '&');
    var b := Replace(a, Lit("&lt;", false), "<");
    EntityStep(a, "&lt;", '<');
    var c := Replace(b, Lit("&gt;", false), ">");
    EntityStep(b, "&gt;", '>');
    var d := Replace(c, Lit("&quot;", false), "\"");
    EntityStep(c, "&quot;", '"');
    EntityStep(d, "&#39;", '\'');
  }

  /** `stripHtml`: line breaks and paragraph ends become line feeds, every other
      tag a space, white-space runs one space; then trim and decode entities. */
  function StripHtml(html: string): string
  {
    var a := Replace(html, Break, "\n");
    var b := Replace(a, Lit("</p>", true), "\n\n");
    var c := Replace(b, Tag, " ");
    var d := Replace(c, Spaces, " ");
    DecodeEntities(Trim(d))
  }

  /** The stripped text has no white space at either end and no two white-space
      characters in a row. */
  lemma StripHtmlWellSpaced(html: string)
    ensures Trimmed(StripHtml(html)) && NoDoubleSpace(StripHtml(html))
  {
    var a := Replace(html, Break, "\n");
    var b := Replace(a, Lit("</p>", true), "\n\n");
    var c := Replace(b, Tag, " ");
    var d := Replace(c, Spaces, " ");
    CollapseFacts(c);
    DecodeEntitiesKeepsSpacing(Trim(d));
  }

  function OpenTag(tag: string): string { "<" + tag }

  function CloseTag(tag: string): string { "</" + tag + ">" }

  /** `open[^>]*>([\s\S]*?)close` with the `i` flag, matched with `open` at `i`,
      the `>` that ends the opening tag at `g` and `close` at `c`: no `>` before
      `g`, and the lazy body stops at the first `close`. */
  predicate TagMatch(xml: string, open: string, close: string, i: nat, g: nat, c: nat)
  {
    && MatchAt(xml, i, open, true)
    && i + |open| <= g < |xml| && xml[g] == '>'
    && (forall k :: i + |open| <= k < g ==> xml[k] != '>')
    && g + 1 <= c && MatchAt(xml, c, close, true)
    && (forall k: nat :: g + 1 <= k < c ==> NoMatchAt(xml, k, close, true))
  }

  /** The capture group of the first match of `open[^>]*>([\s\S]*?)close`. */
  function PickPair(xml: string, open: string, close: string): Option<string>
  {
    match Find(xml, open, 0, true)
    case None => None
    case Some(i) => PickFrom(xml, open, close, i)
  }

  /** The rest of the match once `open` is found at `i`. */
  function PickFrom(xml: string, open: string, close: string, i: nat): Option<string>
  {
    match Find(xml, ">", i + |open|, false)
    case None => None
    case Some(g) =>
      match Find(xml, close, g + 1, true)
      case None => None
      case Some(c) => Some(xml[g + 1..c])
  }

  /** `pick`: the text of the first `<tag …>…</tag>` pair with the CDATA markers
      removed, trimmed; "" when there is no pair. */
  function Pick(xml: string, tag: string): string
  {
    match PickPair(xml, OpenTag(tag), CloseTag(tag))
    case None => ""
    case Some(v) => Trim(Replace(v, CdataMark, ""))
  }

  /** The pair pattern finds a match exactly when the document has one. */
  lemma PickPairNone(xml: string, open: string, close: string)
    ensures PickPair(xml, open, close).None? <==>
      forall i: nat, g: nat, c: nat :: !TagMatch(xml, open, close, i, g, c)
  {
    forall i: nat, g: nat, c: nat | TagMatch(xml, open, close, i, g, c)
      ensures PickPair(xml, open, close).Some?
    {
      var i0, g0, c0 := PickPairLeftmost(xml, open, close, i, g, c);
    }
    if PickPair(xml, open, close).Some? {
      var i0 := Find(xml, open, 0, true).value;
      var g0 := Find(xml, ">", i0 + |open|, false).value;
      var c0 := Find(xml, close, g0 + 1, true).value;
      PickPairMatch(xml, open, close, i0, g0, c0);
    }
  }

  /** What the rest of the match reads once its two positions are known. */
  lemma PickFromValue(xml: string, open: string, close: string, i0: nat, g0: nat, c0: nat)
    requires Find(xml, ">", i0 + |open|, false) == Some(g0)
    requires Find(xml, close, g0 + 1, true) == Some(c0)
    ensures PickFrom(xml, open, close, i0) == Some(xml[g0 + 1..c0])
  {
    var g := Find(xml, ">", i0 + |open|, false);
    var c := Find(xml, close, g0 + 1, true);
    assert g == Some(g0) && c == Some(c0);
    assert PickFrom(xml, open, close, i0) == Some(xml[g.value + 1..c.value]);
  }

  lemma PickPairMatch(xml: string, open: string, close: string, i0: nat, g0: nat, c0: nat)
    requires Find(xml, open, 0, true) == Some(i0)
    requires Find(xml, ">", i0 + |open|, false) == Some(g0)
    requires Find(xml, close, g0 + 1, true) == Some(c0)
    ensures TagMatch(xml, open, close, i0, g0, c0)
  {
    CharAt(xml, g0, '>');
    forall k | i0 + |open| <= k < g0 ensures xml[k] != '>' {
      FindFirst(xml, ">", i0 + |open|, false, k);
      CharAt(xml, k, '>');
    }
  }

  /** When the document has a match, the pair pattern reads the leftmost one: the
      positions it finds are those of a match that starts no later. */
  lemma PickPairLeftmost(xml: string, open: string, close: string, i: nat, g: nat, c: nat)
    returns (i0: nat, g0: nat, c0: nat)
    requires TagMatch(xml, open, close, i, g, c)
    ensures i0 <= i && TagMatch(xml, open, close, i0, g0, c0)
    ensures PickPair(xml, open, close) == Some(xml[g0 + 1..c0])
  {
    i0, g0, c0 := LeftmostFound(xml, open, close, i, g, c);
    PickPairMatch(xml, open, close, i0, g0, c0);
    PickFromValue(xml, open, close, i0, g0, c0);
  }

  /** The three searches of the pair pattern succeed when a match exists. */
  lemma LeftmostFound(xml: string, open: string, close: string, i: nat, g: nat, c: nat)
    returns (i0: nat, g0: nat, c0: nat)
    requires TagMatch(xml, open, close, i, g, c)
    ensures Find(xml, open, 0, true) == Some(i0) && i0 <= i
    ensures Find(xml, ">", i0 + |open|, false) == Some(g0)
    ensures Find(xml, close, g0 + 1, true) == Some(c0)
  {
    FindFirst(xml, open, 0, true, i);
    i0 := Find(xml, open, 0, true).value;
    FindFirst(xml, ">", i0 + |open|, false, g);
    CharAt(xml, g, '>');
    g0 := Find(xml, ">", i0 + |open|, false).value;
    FindFirst(xml, close, g0 + 1, true, c);
    c0 := Find(xml, close, g0 + 1, true).value;
  }

  /** `open[^>]*key([^"]+)"[^>]*\/?>` with the `i` flag, where `key` is `attr="`,
      matched with `open` at `i`, `key` at `p` and the closing quote at `e`. */
  predicate AttrMatch(xml: string, open: string, key: string, i: nat, p: nat, e: nat)
  {
    && MatchAt(xml, i, open, true)
    && i + |open| <= p
    && AttrAt(xml, key, p, e)
    && (forall k :: i + |open| <= k < p ==> xml[k] != '>')
  }

  /** `key` at `p`, then a non-empty value that ends with the quote at `e`, then
      somewhere a `>`. */
  predicate AttrAt(xml: string, key: string, p: nat, e: nat)
  {
    && MatchAt(xml, p, key, true)
    && p + |key| < e < |xml| && xml[e] == '"'
    && (forall k :: p + |key| <= k < e ==> xml[k] != '"')
    && Find(xml, ">", e + 1, false).Some?
  }

  /** The closing quote of an attribute value whose key starts at `p`, if the
      pattern can match there. */
  function AttrEnd(xml: string, key: string, p: nat): (r: Option<nat>)
    ensures r.Some? ==> AttrAt(xml, key, p, r.value)
    ensures r.None? ==> forall e: nat :: !AttrAt(xml, key, p, e)
  {
    if !MatchAt(xml, p, key, true) then None
    else
      var q := p + |key|;
      var f := Find(xml, "\"", q, false);
      assert forall e: nat :: q <= e < |xml| && xml[e] == '"' ==> f.Some? && f.value <= e by {
        forall e: nat | q <= e < |xml| && xml[e] == '"' ensures f.Some? && f.value <= e {
          CharAt(xml, e, '"');
          FindFirst(xml, "\"", q, false, e);
        }
      }
      if f.None? then None
      else
        var e := f.value;
        CharAt(xml, e, '"');
        if e > q && Find(xml, ">", e + 1, false).Some? then Some(e) else None
  }

  /** The greedy `[^>]*` before the key: the largest position in `lo..p` where the
      rest of the pattern matches. */
  function AttrBack(xml: string, key: string, lo: nat, p: nat): (r: Option<(nat, nat)>)
    requires lo <= p
    ensures r.Some? ==> lo <= r.value.0 <= p && AttrAt(xml, key, r.value.0, r.value.1)
    ensures r.Some? ==> forall q: nat, e: nat :: r.value.0 < q <= p ==> !AttrAt(xml, key, q, e)
    ensures r.None? ==> forall q: nat, e: nat :: lo <= q <= p ==> !AttrAt(xml, key, q, e)
    decreases p - lo
  {
    match AttrEnd(xml, key, p)
    case Some(e) => Some((p, e))
    case None =>
      if p == lo then None
      else
        var r := AttrBack(xml, key, lo, p - 1);
        assert forall e: nat :: !AttrAt(xml, key, p, e);
        r
  }

  /** The attribute match whose `open` starts at `i`, if any. */
  function AttrFrom(xml: string, open: string, key: string, i: nat): (r: Option<(nat, nat)>)
    requires MatchAt(xml, i, open, true)
    ensures r.Some? ==> AttrMatch(xml, open, key, i, r.value.0, r.value.1)
    ensures r.Some? ==> forall q: nat, e: nat :: r.value.0 < q ==> !AttrMatch(xml, open, key, i, q, e)
    ensures r.None? ==> forall p: nat, e: nat :: !AttrMatch(xml, open, key, i, p, e)
  {
    var lo := i + |open|;
    var f := Find(xml, ">", lo, false);
    assert forall k: nat :: lo <= k < |xml| && xml[k] == '>' ==> f.Some? && f.value <= k by {
      forall k: nat | lo <= k < |xml| && xml[k] == '>' ensures f.Some? && f.value <= k {
        CharAt(xml, k, '>');
        FindFirst(xml, ">", lo, false, k);
      }
    }
    if f.None? then
      assert forall p: nat, e: nat :: !AttrMatch(xml, open, key, i, p, e) by {
        forall p: nat, e: nat ensures !AttrMatch(xml, open, key, i, p, e) {
          var h := Find(xml, ">", e + 1, false);
          if h.Some? { CharAt(xml, h.value, '>'); }
        }
      }
      None
    else
      var g := f.value;
      CharAt(xml, g, '>');
      AttrBack(xml, key, lo, g)
  }

  /** The match the regex returns when it starts its search at `from`: the
      leftmost `open` that has an attribute match and, for that `open`, the
      last key position before its `>`, as the greedy `[^>]*` backtracks. */
  ghost predicate FirstAttrMatch(xml: string, open: string, key: string, from: nat, i: nat, p: nat, e: nat)
  {
    && from <= i
    && AttrMatch(xml, open, key, i, p, e)
    && (forall j: nat, q: nat, f: nat :: from <= j < i ==> !AttrMatch(xml, open, key, j, q, f))
    && (forall q: nat, f: nat :: p < q ==> !AttrMatch(xml, open, key, i, q, f))
  }

  /** There is at most one such match. */
  lemma FirstAttrMatchUnique(xml: string, open: string, key: string, from: nat,
    i: nat, p: nat, e: nat, i': nat, p': nat, e': nat)
    requires FirstAttrMatch(xml, open, key, from, i, p, e)
    requires FirstAttrMatch(xml, open, key, from, i', p', e')
    ensures i == i' && p == p' && e == e'
  {
  }

  /** The leftmost `open` at or after `from` that has an attribute match. */
  function PickAttrFrom(xml: string, open: string, key: string, from: nat): (r: Option<(nat, nat, nat)>)
    ensures r.Some? ==> FirstAttrMatch(xml, open, key, from, r.value.0, r.value.1, r.value.2)
    ensures r.None? ==> forall i: nat, p: nat, e: nat :: from <= i ==> !AttrMatch(xml, open, key, i, p, e)
    decreases |xml| - from
  {
    match Find(xml, open, from, true)
    case None =>
      assert forall j: nat, p: nat, e: nat :: from <= j ==> !AttrMatch(xml, open, key, j, p, e) by {
        forall j: nat, p: nat, e: nat | from <= j ensures !AttrMatch(xml, open, key, j, p, e) {
          FindFirst(xml, open, from, true, j);
        }
      }
      None
    case Some(i) =>
      assert forall j: nat, p: nat, e: nat :: from <= j < i ==> !AttrMatch(xml, open, key, j, p, e) by {
        forall j: nat, p: nat, e: nat | from <= j < i ensures !AttrMatch(xml, open, key, j, p, e) {
          FindFirst(xml, open, from, true, j);
        }
      }
      match AttrFrom(xml, open, key, i)
      case Some(pe) =>
        FirstAttrHere(xml, open, key, from, i, pe.0, pe.1);
        Some((i, pe.0, pe.1))
      case None =>
        var r := PickAttrFrom(xml, open, key, i + 1);
        FirstAttrLater(xml, open, key, from, i, r);
        assert r.None? ==> forall j: nat, p: nat, e: nat :: from <= j ==> !AttrMatch(xml, open, key, j, p, e) by {
          if r.None? {
            forall j: nat, p: nat, e: nat | from <= j ensures !AttrMatch(xml, open, key, j, p, e) {
              FindFirst(xml, open, from, true, j);
            }
          }
        }
        r
  }

  /** A match at the first `open` from `from`, with no key after it. */
  lemma FirstAttrHere(xml: string, open: string, key: string, from: nat, i: nat, p: nat, e: nat)
    requires from <= i && AttrMatch(xml, open, key, i, p, e)
    requires forall j: nat, q: nat, f: nat :: from <= j < i ==> !AttrMatch(xml, open, key, j, q, f)
    requires forall q: nat, f: nat :: p < q ==> !AttrMatch(xml, open, key, i, q, f)
    ensures FirstAttrMatch(xml, open, key, from, i, p, e)
  {
  }

  /** No match at or before `i`: the first match from `i + 1` is the first from
      `from`. */
  lemma FirstAttrLater(xml: string, open: string, key: string, from: nat, i: nat, r: Option<(nat, nat, nat)>)
    requires from <= i
    requires forall j: nat, q: nat, f: nat :: from <= j < i ==> !AttrMatch(xml, open, key, j, q, f)
    requires forall q: nat, f: nat :: !AttrMatch(xml, open, key, i, q, f)
    requires r.Some? ==> FirstAttrMatch(xml, open, key, i + 1, r.value.0, r.value.1, r.value.2)
    ensures r.Some? ==> FirstAttrMatch(xml, open, key, from, r.value.0, r.value.1, r.value.2)
  {
  }

  function AttrKey(attr: string): string { attr + "=\"" }

  /** `pickAttr`: the attribute value of the first match, or "". */
  function PickAttr(xml: string, tag: string, attr: string): string
  {
    var key := AttrKey(attr);
    match PickAttrFrom(xml, OpenTag(tag), key, 0)
    case None => ""
    case Some(m) => xml[m.1 + |key|..m.2]
  }

  /** `v` is the value of the `attr` attribute the regex finds: that of the
      first match in `xml`. */
  ghost predicate IsAttrValue(xml: string, tag: string, attr: string, v: string)
  {
    exists i: nat, p: nat, e: nat :: FirstAttrMatch(xml, OpenTag(tag), AttrKey(attr), 0, i, p, e)
      && v == xml[p + |AttrKey(attr)|..e]
  }

  /** A value is found exactly when some `<tag … attr="v" …>` matches, and then it
      is the quoted text of the first match: the leftmost `<tag`, and in it the
      last key before its `>`. */
  lemma PickAttrMeaning(xml: string, tag: string, attr: string)
    ensures PickAttr(xml, tag, attr) == "" <==>
      forall i: nat, p: nat, e: nat :: !AttrMatch(xml, OpenTag(tag), AttrKey(attr), i, p, e)
    ensures PickAttr(xml, tag, attr) != "" ==> IsAttrValue(xml, tag, attr, PickAttr(xml, tag, attr))
  {
    var key := AttrKey(attr);
    match PickAttrFrom(xml, OpenTag(tag), key, 0)
    case None =>
    case Some(pe) =>
      var v := xml[pe.1 + |key|..pe.2];
      assert PickAttr(xml, tag, attr) == v && |v| > 0;
      assert FirstAttrMatch(xml, OpenTag(tag), AttrKey(attr), 0, pe.0, pe.1, pe.2) && v == xml[pe.1 + |AttrKey(attr)|..pe.2];
  }

  /** Conversely, the value of the first match is the value `pickAttr` gives. */
  lemma PickAttrIsFirst(xml: string, tag: string, attr: string, i: nat, p: nat, e: nat)
    requires FirstAttrMatch(xml, OpenTag(tag), AttrKey(attr), 0, i, p, e)
    ensures PickAttr(xml, tag, attr) == xml[p + |AttrKey(attr)|..e]
  {
    var m := PickAttrFrom(xml, OpenTag(tag), AttrKey(attr), 0);
    assert m.Some?;
    FirstAttrMatchUnique(xml, OpenTag(tag), AttrKey(attr), 0, i, p, e, m.value.0, m.value.1, m.value.2);
  }

  /** `parseDateToTs`: the parsed time, or 0 when the date does not parse.
      `parse` stands for `Date.parse`, with `None` for NaN. */
  function ParseDateToTs(s: string, parse: string -> Option<int>): (t: int)
    ensures parse(s).None? ==> t == 0
    ensures parse(s).Some? ==> t == parse(s).value
  {
    match parse(s)
    case None => 0
    case Some(v) => v
  }

  // ---- parseFeed ----

  /** One RSS `<item>` block as `parseFeed` reads it. */
  function RssItem(b: string, name: string, parse: string -> Option<int>): Option<FeedItem>
  {
    var title := StripHtml(Pick(b, "title"));
    var link := OrElse(StripHtml(Pick(b, "link")), StripHtml(Pick(b, "guid")));
    var desc := OrElse(StripHtml(Pick(b, "description")), StripHtml(Pick(b, "content:encoded")));
    var pubDate := OrElse(Pick(b, "pubDate"), Pick(b, "dc:date"));
    if title != "" && link != "" then
      Some(FeedItem(title, link, name, ParseDateToTs(pubDate, parse), desc))
    else None
  }

  /** One Atom `<entry>` block as `parseFeed` reads it. */
  function AtomItem(e: string, name: string, parse: string -> Option<int>): Option<FeedItem>
  {
    var title := StripHtml(Pick(e, "title"));
    var link := OrElse(PickAttr(e, "link", "href"), "");
    var sum := OrElse(StripHtml(Pick(e, "summary")), StripHtml(Pick(e, "content")));
    var updated := OrElse(Pick(e, "updated"), Pick(e, "published"));
    if title != "" && link != "" then
      Some(FeedItem(title, link, name, ParseDateToTs(updated, parse), sum))
    else None
  }

  function RssDecoder(name: string, parse: string -> Option<int>): string -> Option<FeedItem>
  {
    b => RssItem(b, name, parse)
  }

  function AtomDecoder(name: string, parse: string -> Option<int>): string -> Option<FeedItem>
  {
    e => AtomItem(e, name, parse)
  }

  /** `xml.match(/<item[\s\S]*?<\/item>/gi) ?? []`. */
  function ItemBlocks(xml: string): seq<string>
  {
    Blocks(xml, "<item", "</item>", true, 0)
  }

  /** `xml.match(/<entry[\s\S]*?<\/entry>/gi) ?? []`. */
  function EntryBlocks(xml: string): seq<string>
  {
    Blocks(xml, "<entry", "</entry>", true, 0)
  }

  /** The items the RSS pass keeps, in block order. */
  function RssItems(xml: string, name: string, parse: string -> Option<int>): seq<FeedItem>
  {
    FilterMap(ItemBlocks(xml), RssDecoder(name, parse))
  }

  /** The items the Atom pass keeps, in block order. */
  function AtomItems(xml: string, name: string, parse: string -> Option<int>): seq<FeedItem>
  {
    FilterMap(EntryBlocks(xml), AtomDecoder(name, parse))
  }

  /** The `for (const it of items)` loop of `parseFeed`. */
  method CollectRss(items: seq<string>, sourceName: string, parse: string -> Option<int>) returns (out: seq<FeedItem>)
    ensures out == FilterMap(items, RssDecoder(sourceName, parse))
  {
    out := [];
    for k := 0 to |items|
      invariant out == FilterMap(items[..k], RssDecoder(sourceName, parse))
    {
      var item := RssItem(items[k], sourceName, parse);
      FilterMapSnoc(items, k, RssDecoder(sourceName, parse));
      if item.Some? {
        out := out + [item.value];
      }
    }
    assert items[..|items|] == items;
  }

  /** The `for (const e of entries)` loop of `parseFeed`. */
  method CollectAtom(entries: seq<string>, sourceName: string, parse: string -> Option<int>) returns (out: seq<FeedItem>)
    ensures out == FilterMap(entries, AtomDecoder(sourceName, parse))
  {
    out := [];
    for k := 0 to |entries|
      invariant out == FilterMap(entries[..k], AtomDecoder(sourceName, parse))
    {
      var item := AtomItem(entries[k], sourceName, parse);
      FilterMapSnoc(entries, k, AtomDecoder(sourceName, parse));
      if item.Some? {
        out := out + [item.value];
      }
    }
    assert entries[..|entries|] == entries;
  }

  /** `parseFeed`: the RSS items, or the Atom items when there are no RSS items. */
  method ParseFeed(xml: string, sourceName: string, parse: string -> Option<int>) returns (out: seq<FeedItem>)
    ensures RssItems(xml, sourceName, parse) != [] ==> out == RssItems(xml, sourceName, parse)
    ensures RssItems(xml, sourceName, parse) == [] ==> out == AtomItems(xml, sourceName, parse)
  {
    out := CollectRss(ItemBlocks(xml), sourceName, parse);
    if |out| == 0 {
      out := CollectAtom(EntryBlocks(xml), sourceName, parse);
    }
  }

  /** An RSS item has a title and a URL, both stripped text without white space at
      the ends or doubled, and names its source. */
  lemma RssItemFacts(b: string, name: string, parse: string -> Option<int>, it: FeedItem)
    requires RssItem(b, name, parse) == Some(it)
    ensures it.title != "" && it.url != "" && it.source == name
    ensures Trimmed(it.title) && NoDoubleSpace(it.title)
    ensures Trimmed(it.url) && NoDoubleSpace(it.url)
  {
    StripHtmlWellSpaced(Pick(b, "title"));
    StripHtmlWellSpaced(Pick(b, "link"));
    StripHtmlWellSpaced(Pick(b, "guid"));
  }

  /** An Atom item has a title and names its source; its URL is the non-empty
      `href` value of a `<link …>` tag of its entry. */
  lemma AtomItemFacts(e: string, name: string, parse: string -> Option<int>, it: FeedItem)
    requires AtomItem(e, name, parse) == Some(it)
    ensures it.title != "" && it.url != "" && it.source == name
    ensures IsAttrValue(e, "link", "href", it.url)
  {
    PickAttrMeaning(e, "link", "href");
  }

  /** The RSS pass keeps at most one item per `<item>` block, each with a title and
      a well-spaced URL. */
  lemma RssItemsShape(xml: string, name: string, parse: string -> Option<int>)
    ensures |RssItems(xml, name, parse)| <= |ItemBlocks(xml)|
    ensures forall it :: it in RssItems(xml, name, parse) ==>
      it.title != "" && it.url != "" && it.source == name && Trimmed(it.url) && NoDoubleSpace(it.url)
  {
    FilterMapBounds(ItemBlocks(xml), RssDecoder(name, parse));
    forall it | it in RssItems(xml, name, parse)
      ensures it.title != "" && it.url != "" && it.source == name && Trimmed(it.url) && NoDoubleSpace(it.url)
    {
      var b :| b in ItemBlocks(xml) && RssDecoder(name, parse)(b) == Some(it);
      RssItemFacts(b, name, parse, it);
    }
  }

  /** The Atom pass keeps at most one item per `<entry>` block, each with a title
      and the `href` of one of the entry's links. */
  lemma AtomItemsShape(xml: string, name: string, parse: string -> Option<int>)
    ensures |AtomItems(xml, name, parse)| <= |EntryBlocks(xml)|
    ensures forall it :: it in AtomItems(xml, name, parse) ==>
      it.title != "" && it.url != "" && it.source == name
      && exists e :: e in EntryBlocks(xml) && IsAttrValue(e, "link", "href", it.url)
  {
    FilterMapBounds(EntryBlocks(xml), AtomDecoder(name, parse));
    forall it | it in AtomItems(xml, name, parse)
      ensures it.title != "" && it.url != "" && it.source == name
        && exists e :: e in EntryBlocks(xml) && IsAttrValue(e, "link", "href", it.url)
    {
      var e :| e in EntryBlocks(xml) && AtomDecoder(name, parse)(e) == Some(it);
      AtomItemFacts(e, name, parse, it);
    }
  }

  // ---- clamp ----

  /** `clamp(s, n)`: the trimmed text when it fits in `n` characters; otherwise its
      first `n` characters without the last, possibly partial, word, then "…". */
  function Clamp(s: string, n: int): string
  {
    var t := Trim(s);
    if |t| <= n then t else DropLastWord(SlicePrefix(t, Finite(n))) + "\U{2026}"
  }

  lemma ClampFacts(s: string, n: int)
    ensures |Trim(s)| <= n ==> Clamp(s, n) == Trim(s)
    ensures var t := Trim(s); var r := Clamp(s, n);
      0 <= n < |t| ==>
        && |r| <= n + 1 && r[|r| - 1] == '\U{2026}'
        && r[..|r| - 1] <= t[..n]
        && (r[..|r| - 1] == [] || !IsSpace(r[|r| - 2]))
        && (NoSpace(t[..n]) ==> r == t[..n] + "\U{2026}")
        && (!NoSpace(t[..n]) ==> IsSpace(t[|r| - 1]))
  {
    var t := Trim(s);
    if 0 <= n < |t| {
      var u := SlicePrefix(t, Finite(n));
      assert u == t[..n];
      var w := DropLastWord(u);
      var r := Clamp(s, n);
      assert r == w + "\U{2026}";
      assert r[..|r| - 1] == w;
      if !NoSpace(u) {
        assert t[|w|] == u[|w|];
      }
    }
  }

  // ---- static tables ----

  const SCIENCE_SOURCES: seq<FeedSource> := [
    FeedSource("nature", "Nature", "https://www.nature.com/nature.rss"),
    FeedSource("science", "Science", "https://www.science.org/action/showFeed?type=etoc&feed=rss&jc=science"),
    FeedSource("aps", "APS / PRL", "https://feeds.aps.org/rss/recent/prl.xml")
  ]

  const TECHNOLOGY_CATEGORIES: seq<Category> := [
    Category("policy", "Policy", [
      FeedSource("oecd", "OECD", "https://www.oecd.org/en/topics.xml"),
      FeedSource("nist", "NIST", "https://www.nist.gov/news-events/news/rss.xml")
    ]),
    Category("ai-compute", "AI\U{30FB}Compute", [
      FeedSource("openai", "OpenAI", "https://openai.com/blog/rss.xml")
    ]),
    Category("semiconductor", "Semiconductor", [
      FeedSource("nvidia", "NVIDIA", "https://nvidianews.nvidia.com/rss.xml")
    ]),
    Category("quantum", "Quantum", [
      FeedSource("quanta", "Quanta Magazine", "https://www.quantamagazine.org/feed/"),
      FeedSource("psiq", "PsiQuantum", "https://www.psiquantum.com/news/rss.xml")
    ]),
    Category("energy", "Energy", [
      FeedSource("doe", "US DOE", "https://www.energy.gov/rss/science/3662436"),
      FeedSource("iter", "ITER", "https://www.iter.org/rss/NewsLine.rss"),
      FeedSource("ibm", "IBM Newsroom", "https://newsroom.ibm.com/announcements?output=rss")
    ]),
    Category("space", "Space", [
      FeedSource("nasa", "NASA", "https://www.nasa.gov/rss/dyn/breaking_news.rss")
    ]),
    Category("bio", "Bio", [
      FeedSource("broad", "Broad Institute", "https://www.broadinstitute.org/rss/news.xml"),
      FeedSource("nbt", "Nature Biotechnology", "https://www.nature.com/nbt.rss")
    ])
  ]

  function SourceId(f: FeedSource): string { f.id }

  function CategoryId(c: Category): string { c.id }

  /** The science sources can be addressed by id. */
  lemma ScienceSourcesDistinct()
    ensures |SCIENCE_SOURCES| == 3 && InjectiveOn(SCIENCE_SOURCES, SourceId)
  {
    assert SCIENCE_SOURCES[0].id[0] == 'n' && SCIENCE_SOURCES[1].id[0] == 's' && SCIENCE_SOURCES[2].id[0] == 'a';
  }

  /** The technology categories can be addressed by id. */
  lemma CategoriesDistinct()
    ensures |TECHNOLOGY_CATEGORIES| == 7 && InjectiveOn(TECHNOLOGY_CATEGORIES, CategoryId)
  {
    var cs := TECHNOLOGY_CATEGORIES;
    assert cs[0].id[0] == 'p' && cs[1].id[0] == 'a' && cs[2].id[0] == 's' && cs[3].id[0] == 'q';
    assert cs[4].id[0] == 'e' && cs[5].id[0] == 's' && cs[6].id[0] == 'b';
    assert cs[2].id[1] == 'e' && cs[5].id[1] == 'p';
  }

  /** Every technology category has at least one source, and its sources can be
      addressed by id. */
  lemma CategorySourcesDistinct()
    ensures forall k :: 0 <= k < |TECHNOLOGY_CATEGORIES| ==>
      TECHNOLOGY_CATEGORIES[k].sources != [] && InjectiveOn(TECHNOLOGY_CATEGORIES[k].sources, SourceId)
  {
    var cs := TECHNOLOGY_CATEGORIES;
    assert cs[0].sources[0].id[0] == 'o' && cs[0].sources[1].id[0] == 'n';
    assert cs[3].sources[0].id[1] == 'u' && cs[3].sources[1].id[1] == 's';
    assert cs[4].sources[0].id[0] == 'd' && cs[4].sources[1].id[0] == 'i' && cs[4].sources[2].id[1] == 'b';
    assert cs[4].sources[1].id[1] == 't';
    assert cs[6].sources[0].id[0] == 'b' && cs[6].sources[1].id[0] == 'n';
  }
}
