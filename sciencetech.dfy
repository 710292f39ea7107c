/** The science-and-technology headline route: three journal feeds read in a
    fixed order, normalised with defaults, merged, sorted newest first by a
    date score with 0 for a missing date, and cut to five. */
module ScienceTech {
  import opened Prelude
  import opened Text
  import opened Sorting

  /** The fields of one `rss-parser` item that the route reads; an absent
      field is "". */
  datatype FeedItem = FeedItem(title: string, link: string, isoDate: string, pubDate: string,
    contentSnippet: string)

  /** What `fetch(url)` gives: a body with an ok status, a status that is not
      ok, or a throw. */
  datatype Fetch = Ok(body: string) | NotOk | Threw

  /** The platform: `fetch`, `parser.parseString` (None when it throws; the
      list is `feed.items || []`), `new Date(d).getTime()` (None for NaN) and
      `toISOString` of a time. */
  datatype Env = Env(fetch: string -> Fetch, parseFeed: string -> Option<seq<FeedItem>>,
    parseDate: string -> Option<int>, isoString: int -> string)

  /** One feed of the merge: its source name, its URL, and the URL that stands
      in for a missing item link. */
  datatype Feed = Feed(source: string, url: string, home: string)

  datatype Entry = Entry(source: string, title: string, url: string, date: string, summary: string)

  /** An entry with its sort score `_t`. */
  datatype Scored = Scored(entry: Entry, t: int)

  datatype SciResponse = SciResponse(ok: bool, items: seq<Entry>)

  const NATURE := Feed("Nature", "http://feeds.nature.com/nature/rss/current", "https://www.nature.com")
  const SCIENCE := Feed("Science", "https://www.sciencemag.org/rss/news_current.xml",
    "https://www.science.org/journal/science")
  const PRL := Feed("APS(PRL)", "http://feeds.aps.org/rss/recent/prl.xml", "https://journals.aps.org/prl/")

  const UNTITLED := "Untitled"

  /** Every answer has status 200. */
  function Status(r: SciResponse): int
  {
    200
  }

  /** `fmtDate`: the calendar day of the ISO form of the date, or "". */
  function FmtDate(d: string, env: Env): string
  {
    if d == "" then ""
    else match env.parseDate(d)
      case None => ""
      case Some(t) => Take(env.isoString(t), 10)
  }

  /** `scoreDate`: the time of the date, 0 when there is none. */
  function ScoreDate(d: string, env: Env): int
  {
    if d == "" then 0
    else match env.parseDate(d)
      case None => 0
      case Some(t) => t
  }

  /** A missing or unparseable date is shown as "" and scores 0; otherwise the
      shown day and the score come from the same instant. */
  lemma DateFacts(d: string, env: Env)
    ensures d == "" || env.parseDate(d).None? ==> FmtDate(d, env) == "" && ScoreDate(d, env) == 0
    ensures d != "" && env.parseDate(d).Some? ==>
      ScoreDate(d, env) == env.parseDate(d).value
      && FmtDate(d, env) == Take(env.isoString(ScoreDate(d, env)), 10)
    ensures |FmtDate(d, env)| <= 10
  {
  }

  /** `read(url)`: None when the fetch or the parse throws, [] when the status
      is not ok. */
  function Read(url: string, env: Env): (r: Option<seq<FeedItem>>)
  {
    match env.fetch(url)
    case Threw => None
    case NotOk => Some([])
    case Ok(xml) => env.parseFeed(xml)
  }

  lemma ReadFacts(url: string, env: Env)
    ensures env.fetch(url).NotOk? ==> Read(url, env) == Some([])
    ensures Read(url, env).None? <==> env.fetch(url).Threw? || (env.fetch(url).Ok? && env.parseFeed(env.fetch(url).body).None?)
  {
  }

  /** One item of a feed with the defaults filled in. */
  function Normalize(f: Feed, it: FeedItem, env: Env): Scored
  {
    var d := OrElse(it.isoDate, it.pubDate);
    Scored(Entry(f.source, OrElse(it.title, UNTITLED), OrElse(it.link, f.home), FmtDate(d, env),
      it.contentSnippet), ScoreDate(d, env))
  }

  /** A normalised item always has a title and a URL: its own, or the
      defaults. */
  lemma NormalizeFacts(f: Feed, it: FeedItem, env: Env)
    requires f.home != ""
    ensures var e := Normalize(f, it, env).entry;
      && e.source == f.source && e.title != "" && e.url != ""
      && (it.title != "" ==> e.title == it.title) && (it.title == "" ==> e.title == UNTITLED)
      && (it.link != "" ==> e.url == it.link) && (it.link == "" ==> e.url == f.home)
      && Normalize(f, it, env).t == ScoreDate(OrElse(it.isoDate, it.pubDate), env)
  {
  }

  function NormalizeAll(f: Feed, items: seq<FeedItem>, env: Env): (r: seq<Scored>)
    ensures |r| == |items|
    ensures forall i :: 0 <= i < |items| ==> r[i] == Normalize(f, items[i], env)
  {
    seq(|items|, i requires 0 <= i < |items| => Normalize(f, items[i], env))
  }

  /** The test of `.filter((x) => x.title && x.url)`. */
  predicate Shown(x: Scored)
  {
    x.entry.title != "" && x.entry.url != ""
  }

  function ShownTest(): Scored -> bool
  {
    x => Shown(x)
  }

  function ScoreOf(x: Scored): int
  {
    x.t
  }

  /** The three feeds concatenated in the order Nature, Science, PRL. */
  function Merged(nature: seq<FeedItem>, science: seq<FeedItem>, prl: seq<FeedItem>, env: Env): seq<Scored>
  {
    NormalizeAll(NATURE, nature, env) + NormalizeAll(SCIENCE, science, env) + NormalizeAll(PRL, prl, env)
  }

  /** The sorted, cut list that the answer shows, with scores. */
  function Top(merged: seq<Scored>): seq<Scored>
  {
    Take(SortDesc(Filter(merged, ShownTest()), ScoreOf), 5)
  }

  /** `.map(({ _t, ...rest }) => rest)`. */
  function Entries(xs: seq<Scored>): (r: seq<Entry>)
    ensures |r| == |xs| && forall i :: 0 <= i < |xs| ==> r[i] == xs[i].entry
  {
    seq(|xs|, i requires 0 <= i < |xs| => xs[i].entry)
  }

  /** `GET`. */
  function Get(env: Env): SciResponse
  {
    match (Read(NATURE.url, env), Read(SCIENCE.url, env), Read(PRL.url, env))
    case (Some(n), Some(s), Some(p)) => SciResponse(true, Entries(Top(Merged(n, s, p, env))))
    case _ => SciResponse(false, [])
  }

  /** The filter drops nothing: every merged item has a title and a URL. */
  lemma {:induction false} MergedAllShown(nature: seq<FeedItem>, science: seq<FeedItem>, prl: seq<FeedItem>, env: Env)
    ensures forall k :: 0 <= k < |Merged(nature, science, prl, env)| ==> Shown(Merged(nature, science, prl, env)[k])
    ensures Filter(Merged(nature, science, prl, env), ShownTest()) == Merged(nature, science, prl, env)
  {
    var m := Merged(nature, science, prl, env);
    forall k | 0 <= k < |m| ensures Shown(m[k]) {
      var a, b := |nature|, |nature| + |science|;
      if k < a {
        NormalizeFacts(NATURE, nature[k], env);
      } else if k < b {
        NormalizeFacts(SCIENCE, science[k - a], env);
      } else {
        NormalizeFacts(PRL, prl[k - b], env);
      }
    }
    FilterAll(m, ShownTest());
  }

  /** The shown list: at most five items, newest first, each from the merge,
      and no merged item left out scores higher than one shown. */
  lemma TopFacts(nature: seq<FeedItem>, science: seq<FeedItem>, prl: seq<FeedItem>, env: Env)
    ensures var m := Merged(nature, science, prl, env); var r := Top(m);
      && |r| <= 5 && (|m| >= 5 ==> |r| == 5) && (|m| < 5 ==> |r| == |m|)
      && SortedDesc(r, ScoreOf)
      && (forall x :: x in r ==> x in m)
      && (forall i, y :: 0 <= i < |r| && y in m && y !in r ==> ScoreOf(r[i]) >= ScoreOf(y))
  {
    var m := Merged(nature, science, prl, env);
    MergedAllShown(nature, science, prl, env);
    SortDescFacts(m, ScoreOf);
    TakeSortDesc(m, ScoreOf, 5);
  }

  /** Ties keep the merge order: among the items of any one score, the sorted
      list has the order of the concatenation Nature, Science, PRL, and the
      shown list is its first part. */
  lemma TopStable(nature: seq<FeedItem>, science: seq<FeedItem>, prl: seq<FeedItem>, env: Env, v: int)
    ensures var m := Merged(nature, science, prl, env);
      && Top(m) <= SortDesc(m, ScoreOf)
      && Filter(SortDesc(m, ScoreOf), KeyIs(ScoreOf, v)) == Filter(m, KeyIs(ScoreOf, v))
  {
    var m := Merged(nature, science, prl, env);
    MergedAllShown(nature, science, prl, env);
    SortDescStable(m, ScoreOf, v);
  }

  /** Every shown entry has a title and a URL. */
  lemma GetEntries(env: Env)
    ensures forall k :: 0 <= k < |Get(env).items| ==> Get(env).items[k].title != "" && Get(env).items[k].url != ""
    ensures |Get(env).items| <= 5
  {
    match (Read(NATURE.url, env), Read(SCIENCE.url, env), Read(PRL.url, env))
    case (Some(n), Some(s), Some(p)) =>
      var m := Merged(n, s, p, env);
      MergedAllShown(n, s, p, env);
      TopFacts(n, s, p, env);
      forall k | 0 <= k < |Top(m)| ensures Shown(Top(m)[k]) {
        assert Top(m)[k] in m;
      }
    case _ =>
  }

  /** The answer fails, with no items, exactly when one of the three reads
      throws. */
  lemma GetFailed(env: Env)
    ensures !Get(env).ok <==> Read(NATURE.url, env).None? || Read(SCIENCE.url, env).None? || Read(PRL.url, env).None?
    ensures !Get(env).ok ==> Get(env).items == []
    ensures Status(Get(env)) == 200
  {
  }
}
