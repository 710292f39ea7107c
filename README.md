# ArcheNova site core in Dafny

This project models the logic of the ArcheNova web site, a Next.js application, and proves properties of that model. Three groups are covered.

- **News readers.** The feed normaliser in `lib/feeds.ts`. The X (formerly Twitter) mirror reader at `/api/x`. The technology observatory at `/api/technology`, which discovers feeds, falls back to the page title, groups sources into blocks and ranks headlines. The science headline merger at `/api/science-tech`.
- **Gate store.** The time-limited fragment store in `lib/gateStore.ts` and its HTTP route `/api/gete`.
- **Client logic.** The Constraint Forge page, the Quantum & Gravity Observatory quiz, the Structural AI page, the projects page with its lock levels, the home pager, and the science-and-technology carousel card.

How the TypeScript maps onto Dafny:

- Pure code becomes functions with lemmas.
- Code that loops becomes a method whose `while` loop is proved against a specification function.
- React state becomes classes: `Gate.GateStore`, `ConstraintForge.Forge`, `Observatory.Quiz`, `StructuralAI.Page`, `HomePager.Pager` and `ScienceTechHome.Card`. Each state setter becomes a method with a `modifies` clause.
- The outside world becomes function parameters: the network, the file system's answer, the clock, `Date.parse`, `Number`, `toISOString`, the URL resolver and the HTML/XML parsers (cheerio, rss-parser).

Shared pieces:

- `Text` models the JavaScript white space, `trim`, ASCII `toLowerCase`, `includes` and `indexOf`.
- `Regex` holds explicit matchers for the few regular expressions the core uses.
- `Sorting` models the stable `Array.prototype.sort` with a key comparator.
- `Dedup` models the "first of each key" pass behind `new Set` and `uniqByUrl`.
- `Prelude` holds `Option`, the `Number` values a limit can take, `slice` and `filter`.

## Model

| member | source | states |
|---|---|---|
| Prelude.SlicePrefix | app/api/gete/route.ts:22 | `slice(0, n)` gives a prefix: for a non-negative `n`, at most `n` items, or the whole list. A negative `n` drops that many items from the end, or everything when there are fewer. A NaN or negative-infinity limit gives nothing; positive infinity gives everything. |
| Prelude.AtLeastZero | app/api/gete/route.ts:20 | A negative limit becomes 0 and any other limit is kept, so the result is never a negative number. |
| Prelude.MinNum | app/api/gete/route.ts:20 | `Math.min(x, cap)` stays NaN on NaN; a finite result is at most `cap` and is `x` or `cap`. |
| Prelude.FilterLength | lib/gateStore.ts:24-28 | A filter never lengthens a list, and keeps its length exactly when every element passes. |
| Prelude.FilterIdempotent | lib/gateStore.ts:24-28 | Filtering twice by the same test is filtering once. |
| Prelude.FilterMapBounds | lib/feeds.ts:63-72 | A decoding pass keeps at most one result per input; each result decodes some input; nothing is kept exactly when every input is refused. |
| Text.Trim | app/api/gete/route.ts:7 | `trim()` gives no white space at either end and is the middle slice of the input, with only white space cut off; it is empty exactly for a blank text. |
| Text.Find | lib/feeds.ts:41-45 | Searching from a position gives the first match at or after it, and no match before the one returned. |
| Text.ContainsMeaning | app/projects/page.tsx:108 | `includes(w)` holds exactly when `w` occurs at some position. |
| Text.DropLastWord | lib/feeds.ts:94 | Removing `\s+\S*$` leaves the input unchanged when it has no white space. Otherwise the result is a proper prefix: it ends before a white space and where the last run of white space begins. |
| Regex.CollapseFacts | app/api/technology/route.ts:219 | `replace(/\s+/g, " ")` never lengthens the text, keeps white space at its ends, leaves no two white-space characters together, and leaves only plain spaces. |
| Regex.SquashFacts | app/api/x/route.ts:29 | `replace(/\n{3,}/g, "\n\n")` leaves no three line feeds together. The leading run of line feeds is kept up to two. |
| Regex.BetweenNone | app/api/x/route.ts:39-41 | A lazy `open([\s\S]*?)close` finds a match exactly when some match exists. |
| Regex.BetweenLeftmost | app/api/x/route.ts:39-41 | When a match exists, the lazy pattern reads the leftmost opening with the nearest closing after it. |
| Regex.BlockEnds | lib/feeds.ts:63 | A text between an opening and a closing tag is a block of `/<tag[\s\S]*?<\/tag>/gi`. |
| Sorting.SortDescFacts | app/api/science-tech/route.ts:77 | Sorting by `(a, b) => key(b) - key(a)` is a permutation of the input, of the same length, highest key first. |
| Sorting.SortDescStable | app/projects/page.tsx:159-160 | The sort is stable: the elements of one key keep their input order. |
| Sorting.TakeSortDesc | app/api/science-tech/route.ts:77-78 | The first `n` of the sorted list are in order, come from the input, and no element left out has a higher key than one kept. |
| Sorting.SortDescInjective | app/api/technology/route.ts:350-352 | Sorting keeps a list free of duplicate keys. |
| Dedup.DedupByKeys | app/api/technology/route.ts:310-319 | `uniqByUrl` keeps every key of the input, and only keys of the input. |
| Dedup.DedupByInjective | app/api/technology/route.ts:310-319 | `uniqByUrl` keeps each key once. |
| Dedup.DedupByFirst | app/api/technology/route.ts:313-317 | Each element kept is the first of its key in the input. |
| Dedup.DedupBySubseq | app/api/technology/route.ts:310-319 | What `uniqByUrl` keeps is a subsequence of the input, in input order. |
| Feeds.DecodeEntitiesKeepsSpacing | lib/feeds.ts:22-29 | The five entity replacements keep a trimmed text trimmed and never create two white-space characters in a row. |
| Feeds.EntityStep | lib/feeds.ts:23-28 | One pass that replaces an entity by one visible character keeps those two properties. |
| Feeds.StripHtmlWellSpaced | lib/feeds.ts:31-39 | `stripHtml` gives a text with no white space at either end and no two white-space characters together. |
| Feeds.PickPairNone | lib/feeds.ts:41-45 | The pattern of `pick` finds nothing exactly when the document has no `<tag …>…</tag>` match. |
| Feeds.PickPairLeftmost | lib/feeds.ts:41-45 | When a match exists, `pick` reads a leftmost match, with the lazy capture up to the first closing tag. |
| Feeds.PickPairMatch | lib/feeds.ts:41-45 | The three positions the searches find form a match of the pattern. |
| Feeds.PickFromValue | lib/feeds.ts:41-45 | Once the matched positions are known, the capture is the text between `>` and the closing tag. |
| Feeds.LeftmostFound | lib/feeds.ts:41-45 | When a match exists, the three searches of `pick` succeed at or before it. |
| Feeds.AttrEnd | lib/feeds.ts:47-51 | The end of an attribute value `[^"]+"` that starts at a key is found exactly when one exists. |
| Feeds.AttrBack | lib/feeds.ts:47-51 | The greedy `[^>]*` before the key backtracks from the right: it picks the last position up to the limit where the rest of the pattern matches, and there is none only when no position matches. |
| Feeds.AttrFrom | lib/feeds.ts:47-51 | From a given opening tag, the attribute match is found exactly when one exists, and it is the one with the last key before the tag's `>`. |
| Feeds.PickAttrFrom | lib/feeds.ts:47-51 | The search from a position finds the match the regex returns: the leftmost opening tag at or after it that has an attribute match, with no match starting earlier, and the last key in that tag. It finds nothing only when there is no match at all. |
| Feeds.FirstAttrMatchUnique | lib/feeds.ts:47-51 | The leftmost, last-key match is unique: its tag, key and closing quote are determined. |
| Feeds.PickAttrMeaning | lib/feeds.ts:47-51 | `pickAttr` gives "" exactly when no `<tag … attr="v" …>` matches; otherwise it gives the `v` of the first match: the leftmost `<tag`, and in it the last key before `>`. |
| Feeds.PickAttrIsFirst | lib/feeds.ts:47-51 | Conversely, whenever a match is the first one, `pickAttr` gives its value. |
| Feeds.ParseDateToTs | lib/feeds.ts:53-56 | A date that parses gives its time; any other gives 0. |
| Feeds.CollectRss | lib/feeds.ts:63-72 | The loop over `<item>` blocks pushes exactly the decoded items, in block order. |
| Feeds.CollectAtom | lib/feeds.ts:75-86 | The loop over `<entry>` blocks pushes exactly the decoded entries, in block order. |
| Feeds.ParseFeed | lib/feeds.ts:59-89 | `parseFeed` returns the RSS items, or the Atom items when the RSS pass found none. |
| Feeds.RssItemFacts | lib/feeds.ts:64-71 | A kept RSS item has a non-empty title and URL, both well spaced, and names its source. |
| Feeds.AtomItemFacts | lib/feeds.ts:76-85 | A kept Atom entry has a title, names its source, and its URL is the `href` of the first `<link …href="…">` of the entry, as the regex finds it. |
| Feeds.RssItemsShape | lib/feeds.ts:62-72 | The RSS pass keeps at most one item per block, and each item has a title, a well-spaced URL and the source name. |
| Feeds.AtomItemsShape | lib/feeds.ts:74-86 | The Atom pass keeps at most one item per entry, each with a title and the `href` of its entry's link. |
| Feeds.ClampFacts | lib/feeds.ts:91-95 | `clamp` gives the trimmed text when it fits. Otherwise it cuts at `n`, drops the trailing partial word if there is white space, and appends `…`. For a non-negative `n`, the result is at most `n + 1` long and does not end in white space before the ellipsis. |
| Feeds.ScienceSourcesDistinct | lib/feeds.ts:98-102 | There are three science sources with distinct ids. |
| Feeds.CategoriesDistinct | lib/feeds.ts:109-172 | There are seven technology categories with distinct ids. |
| Feeds.CategorySourcesDistinct | lib/feeds.ts:109-172 | Every category has at least one source, and its source ids are distinct. |
| XFeed.StripHtmlShape | app/api/x/route.ts:23-31 | The X reader's `stripHtml` is trimmed and has no three line feeds together. |
| XFeed.NoTripleNewlineSlice | app/api/x/route.ts:47-49 | Cutting a slice out of such a text keeps that property. |
| XFeed.ReadItemFacts | app/api/x/route.ts:38-63 | An item is skipped exactly when it has no link. A kept item has a link, the title or "Post", and the stripped description or its default. It has a date exactly when `pubDate` is present, and that date is trimmed. |
| XFeed.TitlePrefersCdata | app/api/x/route.ts:39-41 | When a CDATA title exists, the title is the trimmed text of the first CDATA title. |
| XFeed.ParseRss | app/api/x/route.ts:34-67 | The loop over items returns exactly the posts of the feed, up to the limit. |
| XFeed.PostsShape | app/api/x/route.ts:34-67 | There is at most one post per item and, for a limit that is not a negative number, at most `limit` posts; a NaN or negative-infinity limit gives none. Every post has a title, a trimmed link and a description. |
| XFeed.RequestedLimit | app/api/x/route.ts:96 | The limit is 5 when the parameter is absent or empty; otherwise it is `Math.min(Number(p), 10)`, never above 10. |
| XFeed.NegativeLimitPassesCap | app/api/x/route.ts:38 | With `?limit=-1`, a feed of 12 items has 11 of them read: a negative limit passes the cap of 10. |
| XFeed.ClampedRequestedLimit | app/api/x/route.ts:96 | The corrected limit lies between 0 and 10, is 5 by default, and differs from the written one only where that is a negative number. |
| XFeed.ClampedRequestedLimitBound | app/api/x/route.ts:38 | With the corrected limit, no document gives more than 10 posts. |
| XFeed.ChainUnavailable | app/api/x/route.ts:98-111 | The response is "unavailable" with the fixed note exactly when no mirror URL gives a response with posts. |
| XFeed.ChainFound | app/api/x/route.ts:98-106 | A found response comes from the first mirror that gives posts, and holds that mirror's posts. |
| XFeed.Get | app/api/x/route.ts:94-112 | The handler tries the mirrors in their order and stops at the first that yields posts. It fetches a prefix of the mirror list, ending at the source it reports, or the whole list when none yields. |
| Technology.AbsUrl | app/api/technology/route.ts:182-188 | A URL that resolves against the base gives the resolved URL; otherwise `href` is kept. |
| Technology.SummarizeFacts | app/api/technology/route.ts:219 | The summary has at most 180 characters, is a prefix of the collapsed trimmed text, does not start with white space, and has only single plain spaces. |
| Technology.StampOf | app/api/technology/route.ts:215-216 | No date gives no time; a date that does not parse gives an invalid time; one that parses gives its time. |
| Technology.ParseRss | app/api/technology/route.ts:203-245 | The parser returns the items of the RSS pass, or of the Atom pass when the RSS pass kept none. |
| Technology.CollectItems | app/api/technology/route.ts:208-225 | The loop over the first six `<item>` elements pushes exactly the ones with a title and a link. |
| Technology.CollectEntries | app/api/technology/route.ts:229-241 | The loop over the first six `<entry>` elements pushes exactly the ones with a title and a link. |
| Technology.RssEntryFacts | app/api/technology/route.ts:209-224 | A kept RSS item has a non-empty trimmed title and URL and carries the source name and group. |
| Technology.AtomEntryFacts | app/api/technology/route.ts:230-239 | A kept Atom entry has a title and is labelled. Its URL is the link `href` when that is non-empty. |
| Technology.RssPassShape | app/api/technology/route.ts:208-225 | The RSS pass keeps at most six items, all well formed. |
| Technology.AtomPassShape | app/api/technology/route.ts:228-242 | The Atom pass keeps at most six items, all well formed. |
| Technology.FeedItemsShape | app/api/technology/route.ts:203-245 | The parser gives at most six items, all well formed. |
| Technology.FeedItemsAtomOnlyWithoutRss | app/api/technology/route.ts:227-228 | The Atom pass is used exactly when the RSS pass kept nothing. |
| Technology.FirstHref | app/api/technology/route.ts:252-256 | The feed link is the first non-empty `href` of the four selectors, or none when all four are empty. |
| Technology.FallbackFacts | app/api/technology/route.ts:264-277 | The fallback gives one item or none. There is none exactly when neither the `og:title` nor the `<title>` has text. The item links to the page, is stamped with the clock reading taken for that source and is labelled. |
| Technology.FetchItemsForSource | app/api/technology/route.ts:279-308 | The method computes the specified items of a source. An X source fetches nothing. A web source fetches its page and then at most the discovered feed, and only when that feed's URL is not empty. |
| Technology.XSourceItems | app/api/technology/route.ts:280-292 | An X source gives one placeholder that links to the profile, is stamped with the clock reading taken for that source, and uses the note as its title when there is one. |
| Technology.WebSourceFails | app/api/technology/route.ts:295 | A web source fails exactly when its page cannot be fetched. |
| Technology.WebSourceItems | app/api/technology/route.ts:295-307 | A web source gives the feed's items when the feed was found, fetched and parsed to something. Otherwise it gives the fallback from the page, at most one item. |
| Technology.SourceItemsFields | app/api/technology/route.ts:279-308 | Every item of a source carries that source's name and group. |
| Technology.UniqByUrl | app/api/technology/route.ts:310-319 | The loop with the `seen` set returns the first item of each URL, in order. |
| Technology.ItemsInSnoc | app/api/technology/route.ts:343 | One more source adds its items to its own group's bucket only. |
| Technology.ItemsInNone | app/api/technology/route.ts:336-345 | A group with no source has no items. |
| Technology.GroupAllShape | app/api/technology/route.ts:336-345 | The map's groups are exactly the sources' groups, in the order each first appears. |
| Technology.GroupAllBucketTitle | app/api/technology/route.ts:336-341 | A bucket is titled by its group and keeps the observation of the first source of that group. |
| Technology.GroupAllBucketLinks | app/api/technology/route.ts:344 | A bucket's links are the links of its group's sources, in source order. |
| Technology.LinksSnoc | app/api/technology/route.ts:344 | One more source appends one link. |
| Technology.GroupAllBucketItems | app/api/technology/route.ts:343 | A bucket's items are its group's sources' items, in source order. |
| Technology.GroupAllOrdered | app/api/technology/route.ts:354 | Every group in the block order has a bucket. |
| Technology.Results | app/api/technology/route.ts:333-334 | There is one result per source. |
| Technology.AllFetchedMeaning | app/api/technology/route.ts:333-334 | The loop gets through exactly when every source is fetched. |
| Technology.AllFetchedPrefix | app/api/technology/route.ts:333-334 | A prefix of a list that gets through gets through. |
| Technology.CollectSources | app/api/technology/route.ts:332-348 | The loop over the sources fails exactly when some source throws. Otherwise it returns all items, in order, and the grouped buckets. |
| Technology.MakeBlocks | app/api/technology/route.ts:354-359 | The blocks are the buckets in the order of the groups, each with at most ten items. |
| Technology.Get | app/api/technology/route.ts:321-377 | The handler returns the specified response for the mode, the sources and the time. |
| Technology.CleanShape | app/api/technology/route.ts:350-352 | The cleaned list has `min(cap, unique URLs)` items, newest first, with distinct URLs, and no item left out is newer than one kept. |
| Technology.CleanOrigin | app/api/technology/route.ts:350-352 | Every cleaned item is an input item, the first of its URL. |
| Technology.CleanComplete | app/api/technology/route.ts:350-352 | When the unique URLs fit under the cap, every input URL is kept. |
| Technology.ResponseFailed | app/api/technology/route.ts:371-376 | The response is `{ ok: false }` exactly when some source fails to fetch. |
| Technology.SourceFetched | app/api/technology/route.ts:279-308 | A source gets through exactly when it is an X source or its page can be fetched. |
| Technology.HomeFacts | app/api/technology/route.ts:361-366 | In any mode but `full`, the response is the home list: the newest five unique items, with the time. |
| Technology.FullShape | app/api/technology/route.ts:354-365 | In `full` mode, there is one block per group, in order of first appearance. |
| Technology.FullBlock | app/api/technology/route.ts:354-359 | The `i`-th block has its group's title, the first observation, all the group's links, and the newest ten unique items of the group. |
| Technology.FullDistinct | app/api/technology/route.ts:354-359 | No two blocks have the same title. |
| ScienceTech.DateFacts | app/api/science-tech/route.ts:16-27 | An absent or unparsable date scores 0 and prints as "". A valid date scores its time and prints as the first ten characters of its ISO form. |
| ScienceTech.ReadFacts | app/api/science-tech/route.ts:29-35 | A bad status reads as no items. A throw, or a parser failure on a good body, fails the whole request. |
| ScienceTech.NormalizeFacts | app/api/science-tech/route.ts:50-75 | Each entry names its feed's source. The title is the item's or "Untitled". The URL is the item's link or the feed's home page. The score is the date of `isoDate`, else of `pubDate`. |
| ScienceTech.NormalizeAll | app/api/science-tech/route.ts:50-75 | There is one scored entry per item, in order. |
| ScienceTech.Entries | app/api/science-tech/route.ts:79 | The final `map` drops the score and keeps the entries in order. |
| ScienceTech.MergedAllShown | app/api/science-tech/route.ts:76 | Every merged entry has a title and a URL, so the filter keeps them all. |
| ScienceTech.TopFacts | app/api/science-tech/route.ts:76-78 | The headline list has `min(5, merged)` entries, newest first. All come from the merge, and none left out is newer than one kept. |
| ScienceTech.TopStable | app/api/science-tech/route.ts:77-78 | The headlines are a prefix of the stable sort: entries of one score keep their feed order. |
| ScienceTech.GetEntries | app/api/science-tech/route.ts:37-85 | The response holds at most five entries, each with a title and a URL. |
| ScienceTech.GetFailed | app/api/science-tech/route.ts:81-84 | The response is `ok: false`, with no items, exactly when one of the three reads fails. The status is 200 either way. |
| Gate.PruneFacts | lib/gateStore.ts:22-29 | Pruning keeps exactly the fragments whose date parses and is at most 24 hours old, in order. It keeps the length exactly when all are live, and pruning twice is pruning once. |
| Gate.PruneNothing | lib/gateStore.ts:46 | A prune that keeps the length keeps the list, so the file is rewritten exactly when something expired. |
| Gate.Loaded | lib/gateStore.ts:35-40 | The file's fragments, or none when the file cannot be parsed or is missing. |
| Gate.Ensured | lib/gateStore.ts:17-20 | `ensureFile` writes `[]` when the file is missing and leaves it otherwise. |
| Gate.PrependFacts | lib/gateStore.ts:66 | The new fragment comes first, followed by a prefix of the old ones, and the list is capped at 200. |
| Gate.GateStore.constructor | lib/gateStore.ts:11-12 | The store starts with the given file contents. |
| Gate.GateStore.ReadFragments | lib/gateStore.ts:31-51 | The method returns the pruned fragments. It writes them back when the prune removed something; otherwise the file is only ensured. |
| Gate.GateStore.AddFragment | lib/gateStore.ts:53-70 | The new fragment holds the id, text and time given. The file then holds it first, followed by the pruned old fragments, capped at 200. |
| Gete.SanitizeFacts | app/api/gete/route.ts:5-16 | Sanitising gives at most 120 characters, single plain spaces only and no leading white space. It is empty exactly for a blank text. |
| Gete.CheckFacts | app/api/gete/route.ts:26-51 | A post is accepted exactly when the text is given and its sanitised form has six or more characters and no `@` or digit-dash-digit pattern. "too short", "no personal identifiers" and "bad request" are returned in exactly their cases. |
| Gete.AcceptedText | app/api/gete/route.ts:31-44 | An accepted text has 6 to 120 characters, no `@` and no `\d{2,}-\d{2,}`. |
| Gete.Post | app/api/gete/route.ts:26-51 | A refused post answers 400 with its reason and leaves the file alone. An accepted one answers 200 with the new fragment, prepended to the pruned store. |
| Gete.LimitFacts | app/api/gete/route.ts:20-22 | The limit is 5 by default and never more than 30. For a limit that is not a negative number, at most 30 fragments are listed. |
| Gete.NegativeLimitPassesCap | app/api/gete/route.ts:20-22 | With `?limit=-1`, a store of 200 fragments lists 199: a negative limit passes the cap of 30. |
| Gete.ClampedLimit | app/api/gete/route.ts:20 | The corrected limit lies between 0 and 30, is 5 by default, and differs from the written one only where that is a negative number. |
| Gete.ClampedLimitBound | app/api/gete/route.ts:22 | With the corrected limit, no request lists more than 30 fragments. |
| Gete.Get | app/api/gete/route.ts:18-24 | GET lists the first `limit` pruned fragments, and the file then holds exactly the pruned list. |
| ConstraintForge.FieldName | app/constraint-forge/page.tsx:12-41 | Each field is named by one letter, A to E. |
| ConstraintForge.KeyForInjective | app/constraint-forge/page.tsx:43-45 | Two choices have the same key exactly when they are the same choice. |
| ConstraintForge.Clamp | app/constraint-forge/page.tsx:47-49 | `clamp` stays within the bounds and is the identity inside them. |
| ConstraintForge.BaseTensionFacts | app/constraint-forge/page.tsx:63-75 | The base tension of two fields is symmetric and is 1 or 2. |
| ConstraintForge.PairTensionFacts | app/constraint-forge/page.tsx:58-100 | The pair tension is symmetric and between 1 and 3. It is 3 exactly when an escalation rule matches; otherwise it is the base tension. |
| ConstraintForge.Matrix | app/constraint-forge/page.tsx:406-424 | The tension matrix is square, of the selection's size. |
| ConstraintForge.MatrixSymmetric | app/constraint-forge/page.tsx:406-424 | The matrix is symmetric and is 0 exactly on the diagonal. |
| ConstraintForge.AddUnique | app/constraint-forge/page.tsx:110-122 | Adding a domain gives the old domains plus the new one, without duplicates. |
| ConstraintForge.DomainSacrifice | app/constraint-forge/page.tsx:102-126 | A domain is sacrificed exactly when its keyword test matches the joined selection ("banned", the long-horizon words, "cascading failure elimination", "anonym"). There are no duplicates, and the list is in the order of first addition. |
| ConstraintForge.Sacrifice | app/constraint-forge/page.tsx:108-125 | The sacrificed domains follow the four tests, each at most once, in the order of their first addition. |
| ConstraintForge.SacrificeOrderFacts | app/constraint-forge/page.tsx:105-125 | The insertion order of the set lists each domain at most once, and holds a domain exactly when one of its tests matched. |
| ConstraintForge.SacrificeOrderDistinct | app/constraint-forge/page.tsx:105-125 | The insertion order has no repeats, even when both the long-horizon and the cascading tests add Energy and Capital. |
| ConstraintForge.AutoPrompts | app/constraint-forge/page.tsx:128-147 | There are three prompts, each chosen by its field or keyword test. |
| ConstraintForge.Strictness | app/constraint-forge/page.tsx:216-222 | The label is standard for up to three choices, high for four and max for five or more. |
| ConstraintForge.Messages | app/constraint-forge/page.tsx:224-237 | There is one message per hot pair. |
| ConstraintForge.MessagesSnoc | app/constraint-forge/page.tsx:224-237 | Messages of a concatenation concatenate. |
| ConstraintForge.RowPairsMeaning | app/constraint-forge/page.tsx:228-233 | The inner loop visits exactly the later partners of row `i` whose tension is 3. |
| ConstraintForge.HotPairsMeaning | app/constraint-forge/page.tsx:227-234 | The double loop visits exactly the pairs `i < j` whose tension is 3. |
| ConstraintForge.WarningsStep | app/constraint-forge/page.tsx:228-232 | One step of the inner loop for row `i` adds a message exactly when the tension is at least 3. |
| ConstraintForge.HotPairsStep | app/constraint-forge/page.tsx:226-234 | One finished row of the outer loop appends that row's messages. |
| ConstraintForge.PushRow | app/constraint-forge/page.tsx:227-233 | The inner loop appends exactly the messages of row `i`, in order. |
| ConstraintForge.Warnings | app/constraint-forge/page.tsx:224-237 | The warnings are the first five messages of the hot pairs, in loop order. |
| ConstraintForge.WarningsWith | app/constraint-forge/page.tsx:224-237 | The same for any tension table. |
| ConstraintForge.WarningsFacts | app/constraint-forge/page.tsx:224-237 | There are at most five warnings, each naming a hot pair `i < j` of the selection. |
| ConstraintForge.FilterKeyOnce | app/constraint-forge/page.tsx:247 | Removing by a key that occurs once removes exactly that choice. |
| ConstraintForge.ToggledFacts | app/constraint-forge/page.tsx:243-256 | Toggling a selected choice removes it. Toggling a new one appends it when fewer than five are selected, and otherwise changes nothing. The selection stays valid: at most five, one per key. |
| ConstraintForge.RemoveValid | app/constraint-forge/page.tsx:247 | Removing a choice keeps the selection valid. |
| ConstraintForge.AppendValid | app/constraint-forge/page.tsx:252 | Appending a new key under the cap keeps the selection valid. |
| ConstraintForge.Forge.constructor | app/constraint-forge/page.tsx:191 | The page starts with nothing selected. |
| ConstraintForge.Forge.Toggle | app/constraint-forge/page.tsx:243-256 | Clicking a choice sets the selection to the toggled one. |
| ConstraintForge.Forge.CanEnterDeep | app/constraint-forge/page.tsx:258 | Deep mode is open exactly with three or more choices. |
| Observatory.Questions | app/components/Observatory.tsx:37-113 | Each domain has four questions. |
| Observatory.RawSeqFacts | app/components/Observatory.tsx:119-125 | The raw sequence has one character per question: the answer, or `_`. |
| Observatory.JoinChars | app/components/Observatory.tsx:124 | Joining one-character strings gives their characters in order. |
| Observatory.DoneMeaning | app/components/Observatory.tsx:367 | The quiz is done exactly when the raw sequence has no `_`. |
| Observatory.QuantumAxesFacts | app/components/Observatory.tsx:140-150 | Measurement is Record exactly when Q1 or Q3 is A. Stability is Boundary exactly when Q2 is A. Architecture is Memory exactly when Q4 is A. |
| Observatory.QuantumCodeInjective | app/components/Observatory.tsx:152-153 | The code is `Q-` and three letters, and the eight axis triples have eight codes. |
| Observatory.QuantumTypeNameInjective | app/components/Observatory.tsx:155-158 | The eight type names differ. |
| Observatory.GravityDone | app/components/Observatory.tsx:367 | The gravity quiz is done exactly when G1 to G4 are answered. |
| Observatory.GravityComplete | app/components/Observatory.tsx:224-247 | With all answers given, each of the six types is exactly one cell of the answer table. |
| Observatory.GravityPartial | app/components/Observatory.tsx:224-247 | Without G1, only the RIG rule can fire; with no answers the type is FPC. |
| Observatory.GravityCodeFacts | app/components/Observatory.tsx:249-353 | Each gravity code is `G-` and its key, and the six codes differ. |
| Observatory.ResultCodeDomain | app/components/Observatory.tsx:380-387 | The result code has five characters and starts with its domain's letter. |
| Observatory.Quiz.constructor | app/components/Observatory.tsx:360-362 | The quiz starts on the quantum domain, at step 0, with no answers. |
| Observatory.Quiz.Pick | app/components/Observatory.tsx:369-372 | Picking records the answer and moves one step on, stopping at the last question. |
| Observatory.Quiz.ResetDomain | app/components/Observatory.tsx:374-378 | Changing the domain starts it at step 0 with no answers. |
| Observatory.Quiz.Back | app/components/Observatory.tsx:453 | Back goes one step back, stopping at 0. |
| Observatory.Quiz.Next | app/components/Observatory.tsx:462 | Next goes one step on, stopping at the last question. |
| Observatory.Quiz.Reset | app/components/Observatory.tsx:471 | Reset goes to step 0 and clears the answers of the current domain. |
| StructuralAI.LowerBlank | app/structural-ai/page.tsx:20-22 | Lower-casing keeps a text blank or not blank. |
| StructuralAI.Readings | app/structural-ai/page.tsx:44-78 | There is always a reading: the fired rules, or the fallback. |
| StructuralAI.AnswerFacts | app/structural-ai/page.tsx:81-87 | The answer takes `fixed` and `pnr` of the first reading. It keeps at most three eliminated options, each once, all from the readings. |
| StructuralAI.AnswerSingle | app/structural-ai/page.tsx:81-87 | A single reading with two distinct options is returned as it is. |
| StructuralAI.RulesShaped | app/structural-ai/page.tsx:44-78 | Each rule and the fallback has a non-empty `fixed` and `pnr` and two distinct eliminated options. |
| StructuralAI.InterpretedFacts | app/structural-ai/page.tsx:44-87 | No fired rule gives the fallback; one fired rule gives that rule. Otherwise the first rule's `fixed` and `pnr` are used, with at most three distinct eliminated options. |
| StructuralAI.InterpretConstraint | app/structural-ai/page.tsx:27-88 | A blank input gives `null`. Any other gives an answer with `fixed`, `pnr` and at most three distinct eliminated options. |
| StructuralAI.Warns | app/structural-ai/page.tsx:140 | One warning per hit, in order. |
| StructuralAI.LayersOf | app/structural-ai/page.tsx:141 | One layer per hit, in order. |
| StructuralAI.DetectCollisions | app/structural-ai/page.tsx:131-152 | The loop over the collision rules gives the specified warnings and layers. |
| StructuralAI.DetectWith | app/structural-ai/page.tsx:131-152 | The same for any rule table. |
| StructuralAI.HitsMeaning | app/structural-ai/page.tsx:136-143 | A rule is hit exactly when both of its phrases occur, ignoring case, in the constraints joined by " \| ". Hits keep rule order. |
| StructuralAI.TensionLayerFacts | app/structural-ai/page.tsx:151 | The tension layers are the hit rules' layers, each once. |
| StructuralAI.GenericNote | app/structural-ai/page.tsx:146-148 | The generic note is the only warning exactly when nothing is hit and there are three or more constraints; otherwise there is one warning per hit. |
| StructuralAI.RuleWarnings | app/structural-ai/page.tsx:93-129 | No collision rule's warning is the generic note. |
| StructuralAI.MirrorFacts | app/structural-ai/page.tsx:155-175 | The mirror is "" exactly for a blank question. Otherwise it is one of the five questions, the AI one when that test matches first, and the fallback when no test matches. |
| StructuralAI.FilterValid | app/structural-ai/page.tsx:386 | Removing chips keeps the list valid: at most twelve trimmed, non-empty, distinct constraints. |
| StructuralAI.RemoveChipFacts | app/structural-ai/page.tsx:386 | Removing a chip removes every copy of it and nothing else, in order. |
| StructuralAI.Page.constructor | app/structural-ai/page.tsx:208-219 | The page starts empty. |
| StructuralAI.Page.Run1 | app/structural-ai/page.tsx:243-246 | Running the interpreter sets its output and nothing else. |
| StructuralAI.Page.Run3 | app/structural-ai/page.tsx:271 | Running the mirror sets its output and nothing else. |
| StructuralAI.Page.AddConstraint | app/structural-ai/page.tsx:248-257 | A blank draft changes nothing. A present one only clears the draft. A new one is appended when fewer than twelve are listed, and the draft is cleared. |
| StructuralAI.Page.RemoveChip | app/structural-ai/page.tsx:386 | Removing a chip filters it out and changes nothing else. |
| StructuralAI.Page.ClearAll | app/structural-ai/page.tsx:259-269 | Clearing empties every input and output. |
| Projects.LockFromYears | app/projects/page.tsx:106-112 | 5 exactly when "100", "50" or "30" occurs. 4 exactly when those do not but "20" or "10" does. Otherwise 3. |
| Projects.LockFromGenerations | app/projects/page.tsx:114-120 | 5 exactly with "3"; 4 exactly with "2" but not "3"; otherwise 3. |
| Projects.LockFromCapital | app/projects/page.tsx:122-128 | 5 exactly with "infrastructure", "locked" or "custody". 4 exactly with "mission" or "governance" but none of those. Otherwise 3. |
| Projects.PhaseLock | app/projects/page.tsx:130-134 | Deployment is 5, prototype 4 and concept 3. |
| Projects.RoundQuarter | app/projects/page.tsx:144 | `Math.round(x / 4)` is within half a unit of `x / 4`. |
| Projects.AvgLock | app/projects/page.tsx:136-145 | The average lock is 3 to 5 and within half a level of the mean of the four levels. |
| Projects.AvgLockUniform | app/projects/page.tsx:136-145 | Four equal levels average to that level. |
| Projects.AvgLockMonotone | app/projects/page.tsx:136-145 | Raising any level never lowers the average. |
| Projects.ListedFacts | app/projects/page.tsx:159-160 | The list is a permutation of the table, highest level first, and projects of one level keep table order. |
| Projects.ListedSorted | app/projects/page.tsx:159-160 | A table already in order is listed unchanged. |
| Projects.InsertFront | app/projects/page.tsx:159-160 | An element no lower than every later one goes first. |
| Projects.YearsPriority | app/projects/page.tsx:106-112 | "10–30 years" scores 5, because "30" is tested before "10". |
| HomePager.Clamp | app/components/HomePager.tsx:18 | The page index is kept within the pages and is the identity inside them; with no pages it is 0. |
| HomePager.ClampIdempotent | app/components/HomePager.tsx:18 | Clamping twice is clamping once. |
| HomePager.Abs | app/components/HomePager.tsx:51 | `Math.abs`. |
| HomePager.PageClasses | app/components/HomePager.tsx:84-92 | A rendered page has `hp-page` and exactly one of active, previous or next. The current page also carries the direction of the last move. |
| HomePager.RenderWindow | app/components/HomePager.tsx:76-82 | Only the current page and its two neighbours are rendered. |
| HomePager.Pager.constructor | app/components/HomePager.tsx:15-16 | The pager starts on page 0, moving forward, with no touch. |
| HomePager.Pager.Go | app/components/HomePager.tsx:20-25 | Going to the current page changes nothing. Any other move sets the clamped index, with forward exactly when the index grew. |
| HomePager.Pager.OnKey | app/components/HomePager.tsx:28-35 | The right arrow goes one page forward and the left arrow one back; other keys do nothing. The direction is kept when the page stays, and is forward exactly when the page number grew. |
| HomePager.Pager.OnTouchStart | app/components/HomePager.tsx:38-41 | The start of a touch is remembered. |
| HomePager.Pager.OnTouchEnd | app/components/HomePager.tsx:43-55 | A horizontal swipe of more than 40 pixels turns one page, forward when it goes left. Any other touch only forgets its start. The direction is kept when the page stays, and is forward exactly when the page number grew. |
| HomePager.Pager.OnWheel | app/components/HomePager.tsx:58-68 | A wheel turn under 8 is ignored. A larger one prevents scrolling and turns one page, forward when positive. The direction is kept when the page stays, and is forward exactly when the page number grew. |
| HomePager.StepByOne | app/components/HomePager.tsx:28-68 | A key, swipe or wheel moves at most one page. |
| HomePager.DisabledArrows | app/components/HomePager.tsx:128-138 | The left arrow is disabled exactly where it cannot move, and so is the right. |
| ScienceTechHome.Clamp | app/components/ScienceTechHome.tsx:13-18 | A blank text gives "". A text that fits is trimmed. A longer one is cut at `max` before its partial word and ends with `…`. |
| ScienceTechHome.ClampAgrees | app/components/ScienceTechHome.tsx:13-18 | For a non-negative limit or a non-blank text, this is the feed reader's `clamp`. |
| ScienceTechHome.SummaryLine | app/components/ScienceTechHome.tsx:90 | The summary line is never empty: the clamped summary or the fixed invitation. |
| ScienceTechHome.NextIdx | app/components/ScienceTechHome.tsx:54 | Next goes one item on and wraps from the last to the first. |
| ScienceTechHome.PrevIdx | app/components/ScienceTechHome.tsx:53 | Prev goes one item back and wraps from the first to the last. |
| ScienceTechHome.PrevNextInverse | app/components/ScienceTechHome.tsx:53-54 | Next and Prev undo each other. |
| ScienceTechHome.Card.constructor | app/components/ScienceTechHome.tsx:21-23 | The card starts loading, with no items. |
| ScienceTechHome.Card.Current | app/components/ScienceTechHome.tsx:51 | There is a shown item exactly when there are items, and it is one of them. |
| ScienceTechHome.Card.Loaded | app/components/ScienceTechHome.tsx:25-49 | A good answer shows its first item. A failure empties the list and keeps the index. Loading ends either way. |
| ScienceTechHome.Card.Next | app/components/ScienceTechHome.tsx:54 | Next moves the index by `NextIdx` and changes nothing else. |
| ScienceTechHome.Card.Prev | app/components/ScienceTechHome.tsx:53 | Prev moves the index by `PrevIdx` and changes nothing else. |
| ScienceTechHome.Card.Select | app/components/ScienceTechHome.tsx:104 | A dot shows its item. |

## Findings

| source | as written | input that shows it | evidently intended | confidence | as-written member | corrected member |
|---|---|---|---|---|---|---|
| app/api/gete/route.ts:20-22 | The limit is capped at 30 with `Math.min` but has no lower bound, and `slice(0, limit)` counts a negative limit from the end. | `GET /api/gete?limit=-1` on a store of 200 fragments lists 199. | The limit clamped at 0, so that at most 30 fragments are listed. | not executed | Gete.NegativeLimitPassesCap | Gete.ClampedLimit |
| app/api/x/route.ts:38 | The limit is capped at 10 with `Math.min` but has no lower bound, and `blocks.slice(0, limit)` counts a negative limit from the end. | `GET /api/x?limit=-1` on a feed of 12 items reads 11 of them. | The limit clamped at 0, so that at most 10 posts are given. | not executed | XFeed.NegativeLimitPassesCap | XFeed.ClampedRequestedLimit |

The endpoints `Gete.Get` and `XFeed.Get` keep the limits as written. The corrected limits are stated beside them, with their bounds proved in `Gete.ClampedLimitBound` and `XFeed.ClampedRequestedLimitBound`.

## Left out

- Network, file system, browser storage, timers and abort controllers are parameters or omitted. `fetch`, `fs`, `localStorage` and `setTimeout`/`AbortController` are not modelled as effects. The gate store's file is a field holding the parsed contents.
- Concurrency: the fetches of `Promise.all` in the science route are modelled in sequence. Their results do not depend on order.
- `Date.now` in the technology route is a reading per source, taken by URL: the sources are read one after another and their URLs are distinct. That the readings do not decrease along `SOURCES` is not assumed or used.
- `Date.now`, `new Date().toISOString()`, `Date.parse`, `Number`, `new URL` and `crypto.randomUUID` are oracle parameters. Their formats are not modelled.
- The cheerio and rss-parser libraries are oracles. The model receives the texts and attributes they extract, not the HTML or XML grammar.
- Case folding: `toLowerCase` and the `i` flag are modelled for ASCII letters only.
- String length: Dafny counts code points, while JavaScript counts UTF-16 code units. `slice` lengths differ for characters outside the Basic Multilingual Plane.
- Regular expressions are modelled by explicit matchers for exactly the patterns the core uses. They are not a general engine.
- Technology.CleanShape: a time that did not parse (NaN) is ordered as 0. JavaScript's comparator returns NaN for such items, which leaves their order to the engine.
- HomePager: pointer positions and wheel deltas are real numbers, without the rounding of floating-point subtraction.
- React rendering, styling, the page-number indicator (`padStart`) and the download buttons are not modelled.
- The Constraint Forge's `makeCuts`, `downloadText`, `tensionColor` and its history keys in local storage are not modelled. They are text templates, a download and a colour choice.
- The Structural AI page's `LS_KEY` history load/save is not modelled. `wantsFlexible` is not modelled either, since it is computed and never used.
- The Observatory's result texts other than `code` and `typeName` are not modelled.
- Projects: titles and irreversible conditions are not part of the model, since they do not affect the order. The concrete sorted order of the six `PROJECTS` rows is not proved.
- ScienceTechHome.Card.Loaded: the `cancelled` flag of the effect is not modelled, since it only guards against an unmounted component.
- ScienceTechHome.NextIdx: the fact that `n` applications of `next` come back to the start is not proved.
