/**
 * The listing walker of the China Daily adapter (`ParseFeedUrls` and
 * `ParsePageContent`): for every configured topic it walks the chain of
 * topic-listing pages, counting the entries it sees, and appends one
 * (topic, title, link, None) tuple per kept entry to one shared list.
 *
 * Pages are pre-parsed records. Fetching, link resolution (`urljoin`) and
 * the clock come from outside as the fields of an `Env`.
 */
module Listing {
  import opened Wrappers
  import Recency

  type Url = string

  /**
   * One article entry of a listing page (a `span.tw3_01_2_t`): the link text,
   * the raw href, and the publish time in seconds (None when the date tag is empty).
   */
  datatype Entry = Entry(title: string, href: Url, published: Option<int>)

  /** A parsed topic-listing page: its entries in document order and its "Next" href. */
  datatype ListingPage = ListingPage(entries: seq<Entry>, next: Option<Url>)

  /** An entry whose href has been resolved against the URL of the page it is on. */
  datatype Candidate = Candidate(title: string, link: Url, published: Option<int>)

  /** The (topic, title, link, content) tuple; the walker always leaves content empty. */
  datatype ArticleRef = ArticleRef(topic: string, title: string, link: Url, content: Option<string>)

  /** A configured topic and the URL of its first listing page. */
  datatype Feed = Feed(topic: string, url: Url)

  /** The adapter's settings: `feeds`, `max_articles_per_feed`, `oldest_article`. */
  datatype Config = Config(feeds: seq<Feed>, maxArticlesPerFeed: int, oldestArticle: int)

  /**
   * The collaborators: `fetch` holds the pages whose request succeeds (status
   * 200 and a non-empty body); `join` is `urljoin`, left uninterpreted; `now`
   * is the current time in whole seconds.
   */
  datatype Env = Env(fetch: map<Url, ListingPage>, join: (Url, Url) -> Url, now: int)

  /** What walking one topic, or all of them, produces: the tuples and the URLs whose fetch failed. */
  datatype Crawl = Crawl(refs: seq<ArticleRef>, warnings: seq<Url>)

  /** The refs and the final value of `count` after the loop over one page's entries. */
  datatype ScanResult = ScanResult(refs: seq<ArticleRef>, count: int)

  /** The parsed page at `url`, or None when its request fails. */
  function Fetch(env: Env, url: Url): Option<ListingPage> {
    if url in env.fetch then Some(env.fetch[url]) else None
  }

  function Max(a: int, b: int): int { if a < b then b else a }

  function Min(a: int, b: int): int { if a < b then a else b }

  /** The entries of a page with their links resolved against `pageUrl`, in order. */
  function Resolve(join: (Url, Url) -> Url, pageUrl: Url, entries: seq<Entry>): (cands: seq<Candidate>)
    ensures |cands| == |entries|
  {
    if entries == [] then []
    else
      var first := Candidate(entries[0].title, join(pageUrl, entries[0].href), entries[0].published);
      [first] + Resolve(join, pageUrl, entries[1..])
  }

  /** The tuple appended for a candidate of `topic`. */
  function RefOf(topic: string, c: Candidate): ArticleRef {
    ArticleRef(topic, c.title, c.link, None)
  }

  /**
   * Reference definition of what a page keeps when no cap applies: the
   * candidates that are not too old, in order, as tuples of `topic`.
   */
  function Kept(oldest: int, now: int, topic: string, cands: seq<Candidate>): (refs: seq<ArticleRef>)
    ensures |refs| <= |cands|
    ensures forall i :: 0 <= i < |refs| ==> refs[i].topic == topic && refs[i].content == None
  {
    if cands == [] then []
    else if Recency.OutTimeRange(oldest, now, cands[0].published) then Kept(oldest, now, topic, cands[1..])
    else [RefOf(topic, cands[0])] + Kept(oldest, now, topic, cands[1..])
  }

  /**
   * The loop over one page's entries, starting from the running `count`:
   * the count goes up before the cap test, the walk stops at the first entry
   * that takes it past the cap, and a too-old entry is skipped after it was counted.
   */
  function Scan(cfg: Config, now: int, topic: string, cands: seq<Candidate>, count: int): (r: ScanResult)
    ensures r.count >= count
    ensures |r.refs| <= r.count - count
  {
    if cands == [] then ScanResult([], count)
    else
      var c := count + 1;
      if c > cfg.maxArticlesPerFeed then ScanResult([], c)
      else
        var rest := Scan(cfg, now, topic, cands[1..], c);
        if Recency.OutTimeRange(cfg.oldestArticle, now, cands[0].published) then rest
        else ScanResult([RefOf(topic, cands[0])] + rest.refs, rest.count)
  }

  /**
   * One call of `ParsePageContent` and the calls it makes for the following
   * pages. `fuel` bounds how many "Next" links may be followed; None means
   * the walk needs more than that.
   */
  function Walk(cfg: Config, env: Env, topic: string, url: Url, count: int, fuel: nat): (r: Option<Crawl>)
    ensures r.Some? ==> |r.value.warnings| <= 1
    decreases fuel
  {
    match Fetch(env, url)
    case None => Some(Crawl([], [url]))
    case Some(page) =>
      var here := Scan(cfg, env.now, topic, Resolve(env.join, url, page.entries), count);
      if page.next.Some? && here.count < cfg.maxArticlesPerFeed then
        if fuel == 0 then None
        else
          match Walk(cfg, env, topic, env.join(url, page.next.value), here.count, fuel - 1)
          case None => None
          case Some(more) => Some(Crawl(here.refs + more.refs, more.warnings))
      else Some(Crawl(here.refs, []))
  }

  /** `ParseFeedUrls` over the first feeds: each topic walked from a count of 0, in order. */
  function CollectFeeds(cfg: Config, env: Env, feeds: seq<Feed>, fuel: nat): (r: Option<Crawl>)
    ensures r.Some? ==> |r.value.warnings| <= |feeds|
  {
    if feeds == [] then Some(Crawl([], []))
    else
      var last := feeds[|feeds| - 1];
      match CollectFeeds(cfg, env, feeds[..|feeds| - 1], fuel)
      case None => None
      case Some(before) =>
        match Walk(cfg, env, last.topic, last.url, 0, fuel)
        case None => None
        case Some(topic) => Some(Crawl(before.refs + topic.refs, before.warnings + topic.warnings))
  }

  /**
   * Every candidate along the "Next" chain from `url`, page by page, where
   * `held` candidates were gathered before: the chain ends at a failed fetch,
   * at a page without "Next", or at the page that brings the total to
   * `max_articles_per_feed` or beyond.
   */
  function Chain(cfg: Config, env: Env, url: Url, held: int, fuel: nat): Option<seq<Candidate>>
    decreases fuel
  {
    match Fetch(env, url)
    case None => Some([])
    case Some(page) =>
      var here := Resolve(env.join, url, page.entries);
      if page.next.Some? && held + |here| < cfg.maxArticlesPerFeed then
        if fuel == 0 then None
        else
          match Chain(cfg, env, env.join(url, page.next.value), held + |here|, fuel - 1)
          case None => None
          case Some(rest) => Some(here + rest)
      else Some(here)
  }

  /** The number of candidates the cap still lets through from `count`. */
  function Room(cfg: Config, count: int, n: nat): (k: nat)
    ensures k <= n
  {
    Min(n, Max(0, cfg.maxArticlesPerFeed - count))
  }

  // ---------------------------------------------------------------------
  // Properties of the per-page loop
  // ---------------------------------------------------------------------

  /** Each entry keeps its title and date, and its href is resolved against the page URL. */
  lemma {:induction false} ResolveAt(join: (Url, Url) -> Url, pageUrl: Url, entries: seq<Entry>, i: nat)
    requires i < |entries|
    ensures Resolve(join, pageUrl, entries)[i]
         == Candidate(entries[i].title, join(pageUrl, entries[i].href), entries[i].published)
    decreases i
  {
    if i > 0 {
      ResolveAt(join, pageUrl, entries[1..], i - 1);
    }
  }

  /** Every tuple a page adds carries the topic and an empty content. */
  lemma {:induction false} ScanTopic(cfg: Config, now: int, topic: string, cands: seq<Candidate>, count: int)
    ensures forall i :: 0 <= i < |Scan(cfg, now, topic, cands, count).refs| ==>
      Scan(cfg, now, topic, cands, count).refs[i].topic == topic
      && Scan(cfg, now, topic, cands, count).refs[i].content == None
    decreases |cands|
  {
    if cands != [] && count + 1 <= cfg.maxArticlesPerFeed {
      ScanTopic(cfg, now, topic, cands[1..], count + 1);
    }
  }

  /**
   * The loop keeps exactly the candidates that are not too old among the
   * first `max_articles_per_feed - count` ones.
   */
  lemma {:induction false} ScanSelects(cfg: Config, now: int, topic: string, cands: seq<Candidate>, count: int)
    ensures Scan(cfg, now, topic, cands, count).refs
         == Kept(cfg.oldestArticle, now, topic, cands[..Room(cfg, count, |cands|)])
    decreases |cands|
  {
    if cands != [] && count + 1 <= cfg.maxArticlesPerFeed {
      var k := Room(cfg, count, |cands|);
      ScanSelects(cfg, now, topic, cands[1..], count + 1);
      assert Room(cfg, count + 1, |cands| - 1) == k - 1;
      assert cands[..k] == [cands[0]] + cands[1..][..k - 1];
      assert cands[..k][1..] == cands[1..][..k - 1];
    }
  }

  /**
   * The final count: every entry seen is counted, whether or not it is too
   * old; past the cap the loop stops one beyond it.
   */
  lemma {:induction false} ScanCount(cfg: Config, now: int, topic: string, cands: seq<Candidate>, count: int)
    ensures Scan(cfg, now, topic, cands, count).count
         == if cands == [] then count
            else if count + |cands| <= cfg.maxArticlesPerFeed then count + |cands|
            else Max(count, cfg.maxArticlesPerFeed) + 1
    decreases |cands|
  {
    if cands != [] && count + 1 <= cfg.maxArticlesPerFeed {
      ScanCount(cfg, now, topic, cands[1..], count + 1);
    }
  }

  /** A page adds at most as many tuples as the cap has room for. */
  lemma ScanCap(cfg: Config, now: int, topic: string, cands: seq<Candidate>, count: int)
    ensures |Scan(cfg, now, topic, cands, count).refs| <= Max(0, cfg.maxArticlesPerFeed - count)
    ensures |Scan(cfg, now, topic, cands, count).refs| <= Scan(cfg, now, topic, cands, count).count - count
  {
    ScanSelects(cfg, now, topic, cands, count);
    ScanCount(cfg, now, topic, cands, count);
  }

  /** A too-old entry within the cap adds nothing but uses up one slot. */
  lemma SkippedEntryUsesSlot(cfg: Config, now: int, topic: string, cands: seq<Candidate>, count: int)
    requires cands != [] && count < cfg.maxArticlesPerFeed
    requires Recency.OutTimeRange(cfg.oldestArticle, now, cands[0].published)
    ensures Scan(cfg, now, topic, cands, count) == Scan(cfg, now, topic, cands[1..], count + 1)
  {
  }

  /**
   * Scanning two lists of candidates one after the other, carrying the
   * count, keeps the same tuples as scanning them joined.
   */
  lemma {:induction false} ScanAppend(cfg: Config, now: int, topic: string, xs: seq<Candidate>, ys: seq<Candidate>, count: int)
    ensures Scan(cfg, now, topic, xs + ys, count).refs
         == Scan(cfg, now, topic, xs, count).refs
            + Scan(cfg, now, topic, ys, Scan(cfg, now, topic, xs, count).count).refs
    decreases |xs|
  {
    if xs == [] {
      assert xs + ys == ys;
    } else if count + 1 > cfg.maxArticlesPerFeed {
      ScanCap(cfg, now, topic, ys, count + 1);
    } else {
      assert (xs + ys)[1..] == xs[1..] + ys;
      ScanAppend(cfg, now, topic, xs[1..], ys, count + 1);
    }
  }

  // ---------------------------------------------------------------------
  // Properties of the walk over one topic
  // ---------------------------------------------------------------------

  /** Across any number of pages, a topic gets at most `max_articles_per_feed - count` tuples. */
  lemma {:induction false} WalkCap(cfg: Config, env: Env, topic: string, url: Url, count: int, fuel: nat)
    requires Walk(cfg, env, topic, url, count, fuel).Some?
    ensures |Walk(cfg, env, topic, url, count, fuel).value.refs| <= Max(0, cfg.maxArticlesPerFeed - count)
    decreases fuel
  {
    match Fetch(env, url)
    case None =>
    case Some(page) =>
      var cands := Resolve(env.join, url, page.entries);
      var here := Scan(cfg, env.now, topic, cands, count);
      ScanCap(cfg, env.now, topic, cands, count);
      if page.next.Some? && here.count < cfg.maxArticlesPerFeed {
        WalkCap(cfg, env, topic, env.join(url, page.next.value), here.count, fuel - 1);
      }
  }

  /** At most one warning per topic: for the one page whose fetch failed, after which the walk stops. */
  lemma {:induction false} WalkWarnsOnce(cfg: Config, env: Env, topic: string, url: Url, count: int, fuel: nat)
    requires Walk(cfg, env, topic, url, count, fuel).Some?
    ensures |Walk(cfg, env, topic, url, count, fuel).value.warnings| <= 1
    ensures Fetch(env, url).None? ==> Walk(cfg, env, topic, url, count, fuel).value == Crawl([], [url])
    decreases fuel
  {
    match Fetch(env, url)
    case None =>
    case Some(page) =>
      var here := Scan(cfg, env.now, topic, Resolve(env.join, url, page.entries), count);
      if page.next.Some? && here.count < cfg.maxArticlesPerFeed {
        WalkWarnsOnce(cfg, env, topic, env.join(url, page.next.value), here.count, fuel - 1);
      }
  }

  /** Once the count has reached the cap, the walk fetches one page and adds nothing. */
  lemma WalkAtCap(cfg: Config, env: Env, topic: string, url: Url, count: int, fuel: nat)
    requires count >= cfg.maxArticlesPerFeed
    ensures Walk(cfg, env, topic, url, count, fuel).Some?
    ensures Walk(cfg, env, topic, url, count, fuel).value.refs == []
  {
    match Fetch(env, url)
    case None =>
    case Some(page) =>
      ScanCap(cfg, env.now, topic, Resolve(env.join, url, page.entries), count);
  }

  /** A walk that completes within some fuel gives the same result with more. */
  lemma {:induction false} WalkFuelIrrelevant(cfg: Config, env: Env, topic: string, url: Url, count: int, fuel: nat, more: nat)
    requires Walk(cfg, env, topic, url, count, fuel).Some?
    requires fuel <= more
    ensures Walk(cfg, env, topic, url, count, more) == Walk(cfg, env, topic, url, count, fuel)
    decreases fuel
  {
    match Fetch(env, url)
    case None =>
    case Some(page) =>
      var here := Scan(cfg, env.now, topic, Resolve(env.join, url, page.entries), count);
      if page.next.Some? && here.count < cfg.maxArticlesPerFeed {
        WalkFuelIrrelevant(cfg, env, topic, env.join(url, page.next.value), here.count, fuel - 1, more - 1);
      }
  }

  /**
   * The count is carried across pages: the walk finishes exactly when the
   * chain does, and it keeps what one loop over the whole chain of
   * candidates, page after page, would keep.
   */
  lemma {:induction false} WalkScansChain(cfg: Config, env: Env, topic: string, url: Url, count: int, fuel: nat)
    ensures Walk(cfg, env, topic, url, count, fuel).Some? <==> Chain(cfg, env, url, count, fuel).Some?
    ensures Chain(cfg, env, url, count, fuel).Some? ==>
      Walk(cfg, env, topic, url, count, fuel).value.refs
      == Scan(cfg, env.now, topic, Chain(cfg, env, url, count, fuel).value, count).refs
    decreases fuel
  {
    match Fetch(env, url)
    case None =>
    case Some(page) =>
      var cands := Resolve(env.join, url, page.entries);
      var here := Scan(cfg, env.now, topic, cands, count);
      ScanCount(cfg, env.now, topic, cands, count);
      assert here.count < cfg.maxArticlesPerFeed <==> count + |cands| < cfg.maxArticlesPerFeed;
      if page.next.Some? && here.count < cfg.maxArticlesPerFeed && fuel > 0 {
        var nextUrl := env.join(url, page.next.value);
        WalkScansChain(cfg, env, topic, nextUrl, here.count, fuel - 1);
        if Chain(cfg, env, nextUrl, here.count, fuel - 1).Some? {
          ScanAppend(cfg, env.now, topic, cands, Chain(cfg, env, nextUrl, here.count, fuel - 1).value, count);
        }
      }
  }

  /**
   * A topic walked from a count of 0 gets the candidates that are not too
   * old among the first `max_articles_per_feed` of its chain of pages.
   */
  lemma TopicSelectsFromChain(cfg: Config, env: Env, topic: string, url: Url, fuel: nat)
    requires Walk(cfg, env, topic, url, 0, fuel).Some?
    ensures Chain(cfg, env, url, 0, fuel).Some?
    ensures Walk(cfg, env, topic, url, 0, fuel).value.refs
         == Kept(cfg.oldestArticle, env.now, topic,
                 Chain(cfg, env, url, 0, fuel).value[..Room(cfg, 0, |Chain(cfg, env, url, 0, fuel).value|)])
  {
    WalkScansChain(cfg, env, topic, url, 0, fuel);
    ScanSelects(cfg, env.now, topic, Chain(cfg, env, url, 0, fuel).value, 0);
  }

  /** A "Next" link back to the same page: the cap ends the walk, and the page's entries repeat. */
  lemma CapEndsCycle(e: Entry, join: (Url, Url) -> Url)
    requires join("p", "p") == "p"
    ensures var env := Env(map["p" := ListingPage([e], Some("p"))], join, 0);
            var cfg := Config([Feed("topic", "p")], 2, 0);
            var c := Candidate(e.title, join("p", e.href), e.published);
            Walk(cfg, env, "topic", "p", 0, 1) == Some(Crawl([RefOf("topic", c), RefOf("topic", c)], []))
            && Chain(cfg, env, "p", 0, 1) == Some([c, c])
  {
    var env := Env(map["p" := ListingPage([e], Some("p"))], join, 0);
    var cfg := Config([Feed("topic", "p")], 2, 0);
    var c := Candidate(e.title, join("p", e.href), e.published);
    assert Resolve(join, "p", [e]) == [c];
    assert Scan(cfg, 0, "topic", [c], 0) == ScanResult([RefOf("topic", c)], 1);
    assert Scan(cfg, 0, "topic", [c], 1) == ScanResult([RefOf("topic", c)], 2);
    assert Walk(cfg, env, "topic", "p", 1, 0) == Some(Crawl([RefOf("topic", c)], []));
    assert [RefOf("topic", c)] + [RefOf("topic", c)] == [RefOf("topic", c), RefOf("topic", c)];
    assert Chain(cfg, env, "p", 1, 0) == Some([c]);
    assert [c] + [c] == [c, c];
  }

  // ---------------------------------------------------------------------
  // Properties of the collection over all feeds
  // ---------------------------------------------------------------------

  /** The tuples of topic `t`, in order. */
  function WithTopic(refs: seq<ArticleRef>, t: string): (r: seq<ArticleRef>)
    ensures |r| <= |refs|
  {
    if refs == [] then []
    else (if refs[0].topic == t then [refs[0]] else []) + WithTopic(refs[1..], t)
  }

  lemma {:induction false} WithTopicAppend(xs: seq<ArticleRef>, ys: seq<ArticleRef>, t: string)
    ensures WithTopic(xs + ys, t) == WithTopic(xs, t) + WithTopic(ys, t)
    decreases |xs|
  {
    if xs == [] {
      assert xs + ys == ys;
    } else {
      var head := if xs[0].topic == t then [xs[0]] else [];
      assert (xs + ys)[0] == xs[0];
      assert (xs + ys)[1..] == xs[1..] + ys;
      assert WithTopic(xs + ys, t) == head + WithTopic(xs[1..] + ys, t);
      assert WithTopic(xs, t) == head + WithTopic(xs[1..], t);
      WithTopicAppend(xs[1..], ys, t);
    }
  }

  lemma {:induction false} WithTopicOther(refs: seq<ArticleRef>, t: string)
    requires forall i :: 0 <= i < |refs| ==> refs[i].topic != t
    ensures WithTopic(refs, t) == []
    decreases |refs|
  {
    if refs != [] {
      WithTopicOther(refs[1..], t);
    }
  }

  lemma {:induction false} WithTopicSame(refs: seq<ArticleRef>, t: string)
    requires forall i :: 0 <= i < |refs| ==> refs[i].topic == t
    ensures WithTopic(refs, t) == refs
    decreases |refs|
  {
    if refs != [] {
      WithTopicSame(refs[1..], t);
    }
  }

  /** The walk only produces tuples of its own topic, with an empty content. */
  lemma {:induction false} WalkTopic(cfg: Config, env: Env, topic: string, url: Url, count: int, fuel: nat)
    requires Walk(cfg, env, topic, url, count, fuel).Some?
    ensures forall i :: 0 <= i < |Walk(cfg, env, topic, url, count, fuel).value.refs| ==>
      Walk(cfg, env, topic, url, count, fuel).value.refs[i].topic == topic
      && Walk(cfg, env, topic, url, count, fuel).value.refs[i].content == None
    decreases fuel
  {
    match Fetch(env, url)
    case None =>
    case Some(page) =>
      var cands := Resolve(env.join, url, page.entries);
      var here := Scan(cfg, env.now, topic, cands, count);
      ScanTopic(cfg, env.now, topic, cands, count);
      if page.next.Some? && here.count < cfg.maxArticlesPerFeed {
        var nextUrl := env.join(url, page.next.value);
        WalkTopic(cfg, env, topic, nextUrl, here.count, fuel - 1);
      }
  }

  /** Every tuple collected over some feeds belongs to one of those feeds' topics. */
  lemma {:induction false} CollectTopics(cfg: Config, env: Env, feeds: seq<Feed>, fuel: nat, t: string)
    requires CollectFeeds(cfg, env, feeds, fuel).Some?
    requires forall j :: 0 <= j < |feeds| ==> feeds[j].topic != t
    ensures WithTopic(CollectFeeds(cfg, env, feeds, fuel).value.refs, t) == []
    decreases |feeds|
  {
    if feeds != [] {
      var last := feeds[|feeds| - 1];
      var before := CollectFeeds(cfg, env, feeds[..|feeds| - 1], fuel).value;
      var topic := Walk(cfg, env, last.topic, last.url, 0, fuel).value;
      CollectTopics(cfg, env, feeds[..|feeds| - 1], fuel, t);
      WalkTopic(cfg, env, last.topic, last.url, 0, fuel);
      WithTopicOther(topic.refs, t);
      WithTopicAppend(before.refs, topic.refs, t);
    }
  }

  /**
   * When the topics are distinct, each topic gets at most
   * `max_articles_per_feed` tuples, and at most one warning is logged per feed.
   */
  lemma {:induction false} CollectCap(cfg: Config, env: Env, feeds: seq<Feed>, fuel: nat, t: string)
    requires CollectFeeds(cfg, env, feeds, fuel).Some?
    requires forall i, j :: 0 <= i < j < |feeds| ==> feeds[i].topic != feeds[j].topic
    ensures |WithTopic(CollectFeeds(cfg, env, feeds, fuel).value.refs, t)| <= Max(0, cfg.maxArticlesPerFeed)
    ensures |CollectFeeds(cfg, env, feeds, fuel).value.warnings| <= |feeds|
    decreases |feeds|
  {
    if feeds != [] {
      var init := feeds[..|feeds| - 1];
      var last := feeds[|feeds| - 1];
      var before := CollectFeeds(cfg, env, init, fuel).value;
      var topic := Walk(cfg, env, last.topic, last.url, 0, fuel).value;
      CollectCap(cfg, env, init, fuel, t);
      WalkWarnsOnce(cfg, env, last.topic, last.url, 0, fuel);
      WithTopicAppend(before.refs, topic.refs, t);
      WalkTopic(cfg, env, last.topic, last.url, 0, fuel);
      if last.topic == t {
        CollectTopics(cfg, env, init, fuel, t);
        WithTopicSame(topic.refs, t);
        WalkCap(cfg, env, last.topic, last.url, 0, fuel);
      } else {
        WithTopicOther(topic.refs, t);
      }
    }
  }

  // ---------------------------------------------------------------------
  // The imperative walker
  // ---------------------------------------------------------------------

  /** The shared Python list the walker appends to. */
  class ArticleList {
    var items: seq<ArticleRef>

    constructor ()
      ensures items == []
    {
      items := [];
    }

    method Append(r: ArticleRef)
      modifies this
      ensures items == old(items) + [r]
    {
      items := items + [r];
    }
  }

  /** The adapter object: its settings, its collaborators, and the warnings it has logged. */
  class ChinaDaily {
    const cfg: Config
    const env: Env
    var warnings: seq<Url>

    constructor (cfg: Config, env: Env)
      ensures this.cfg == cfg && this.env == env && warnings == []
    {
      this.cfg := cfg;
      this.env := env;
      warnings := [];
    }

    /**
     * The loop over the entries of one listing page at `pageUrl`: counts each
     * entry, stops past the cap, skips too-old entries and appends the others.
     */
    method ScanEntries(topic: string, pageUrl: Url, entries: seq<Entry>, urls: ArticleList, count: int)
      returns (seen: int)
      modifies urls
      ensures urls.items
           == old(urls.items) + Scan(cfg, env.now, topic, Resolve(env.join, pageUrl, entries), count).refs
      ensures seen == Scan(cfg, env.now, topic, Resolve(env.join, pageUrl, entries), count).count
    {
      var cands := Resolve(env.join, pageUrl, entries);
      seen := count;
      var i := 0;
      while i < |cands|
        invariant 0 <= i <= |cands|
        invariant urls.items + Scan(cfg, env.now, topic, cands[i..], seen).refs
               == old(urls.items) + Scan(cfg, env.now, topic, cands, count).refs
        invariant Scan(cfg, env.now, topic, cands[i..], seen).count
               == Scan(cfg, env.now, topic, cands, count).count
      {
        var item := cands[i];
        ScanStep(cfg, env.now, topic, cands, i, seen);
        seen := seen + 1;
        if seen > cfg.maxArticlesPerFeed {
          break;
        }
        if !Recency.OutTimeRange(cfg.oldestArticle, env.now, item.published) {
          urls.Append(ArticleRef(topic, item.title, item.link, None));
        }
        i := i + 1;
      }
    }

    /**
     * Walks the listing pages of `topic` from `url` with the running `count`,
     * appending to `urls`; `fuel` is any bound on the pages the walk follows.
     */
    method ParsePageContent(topic: string, url: Url, urls: ArticleList, count: int, ghost fuel: nat)
      requires Walk(cfg, env, topic, url, count, fuel).Some?
      modifies this, urls
      ensures urls.items == old(urls.items) + Walk(cfg, env, topic, url, count, fuel).value.refs
      ensures warnings == old(warnings) + Walk(cfg, env, topic, url, count, fuel).value.warnings
    {
      var pageUrl, seen := url, count;
      ghost var left := fuel;
      while true
        invariant Walk(cfg, env, topic, pageUrl, seen, left).Some?
        invariant old(urls.items) + Walk(cfg, env, topic, url, count, fuel).value.refs
               == urls.items + Walk(cfg, env, topic, pageUrl, seen, left).value.refs
        invariant old(warnings) + Walk(cfg, env, topic, url, count, fuel).value.warnings
               == warnings + Walk(cfg, env, topic, pageUrl, seen, left).value.warnings
        decreases left
      {
        var result := Fetch(env, pageUrl);
        if result.None? {
          warnings := warnings + [pageUrl];
          return;
        }
        var page := result.value;
        WalkStep(cfg, env, topic, pageUrl, seen, left, page);
        seen := ScanEntries(topic, pageUrl, page.entries, urls, seen);
        if page.next.Some? && seen < cfg.maxArticlesPerFeed {
          pageUrl := env.join(pageUrl, page.next.value);
          left := left - 1;
        } else {
          return;
        }
      }
    }

    /**
     * Walks every configured topic in order, each from a count of 0, into
     * one fresh list; `fuel` bounds the pages followed per topic.
     */
    method ParseFeedUrls(ghost fuel: nat) returns (urls: seq<ArticleRef>)
      requires CollectFeeds(cfg, env, cfg.feeds, fuel).Some?
      modifies this
      ensures urls == CollectFeeds(cfg, env, cfg.feeds, fuel).value.refs
      ensures warnings == old(warnings) + CollectFeeds(cfg, env, cfg.feeds, fuel).value.warnings
    {
      var feeds := cfg.feeds;
      var list := new ArticleList();
      var k := 0;
      ghost var done := Crawl([], []);
      while k < |feeds|
        invariant 0 <= k <= |feeds|
        invariant CollectFeeds(cfg, env, feeds[..k], fuel) == Some(done)
        invariant list.items == done.refs
        invariant warnings == old(warnings) + done.warnings
      {
        ghost var walked := CollectNext(cfg, env, feeds, fuel, k, done);
        ParsePageContent(feeds[k].topic, feeds[k].url, list, 0, fuel);
        done := Crawl(done.refs + walked.refs, done.warnings + walked.warnings);
        k := k + 1;
      }
      assert feeds[..k] == feeds;
      urls := list.items;
    }
  }

  /** A collection that completes over all feeds completes over each prefix of them. */
  lemma {:induction false} CollectPrefix(cfg: Config, env: Env, feeds: seq<Feed>, fuel: nat, k: nat)
    requires k <= |feeds|
    requires CollectFeeds(cfg, env, feeds, fuel).Some?
    ensures CollectFeeds(cfg, env, feeds[..k], fuel).Some?
    decreases |feeds|
  {
    if k < |feeds| {
      assert feeds[..|feeds| - 1][..k] == feeds[..k];
      CollectPrefix(cfg, env, feeds[..|feeds| - 1], fuel, k);
    } else {
      assert feeds[..k] == feeds;
    }
  }

  /** Collecting one more feed adds that feed's walk after what the earlier feeds gave. */
  lemma CollectNext(cfg: Config, env: Env, feeds: seq<Feed>, fuel: nat, k: nat, done: Crawl) returns (walked: Crawl)
    requires k < |feeds|
    requires CollectFeeds(cfg, env, feeds, fuel).Some?
    requires CollectFeeds(cfg, env, feeds[..k], fuel) == Some(done)
    ensures Walk(cfg, env, feeds[k].topic, feeds[k].url, 0, fuel) == Some(walked)
    ensures CollectFeeds(cfg, env, feeds[..k + 1], fuel)
         == Some(Crawl(done.refs + walked.refs, done.warnings + walked.warnings))
  {
    CollectPrefix(cfg, env, feeds, fuel, k + 1);
    assert feeds[..k + 1][..k] == feeds[..k];
    assert feeds[..k + 1][k] == feeds[k];
    walked := Walk(cfg, env, feeds[k].topic, feeds[k].url, 0, fuel).value;
  }

  /** One step of the loop over a page's entries, at position `i`. */
  lemma ScanStep(cfg: Config, now: int, topic: string, cands: seq<Candidate>, i: nat, seen: int)
    requires i < |cands|
    ensures Scan(cfg, now, topic, cands[i..], seen)
         == if seen + 1 > cfg.maxArticlesPerFeed then ScanResult([], seen + 1)
            else if Recency.OutTimeRange(cfg.oldestArticle, now, cands[i].published)
            then Scan(cfg, now, topic, cands[i + 1..], seen + 1)
            else ScanResult([RefOf(topic, cands[i])] + Scan(cfg, now, topic, cands[i + 1..], seen + 1).refs,
                            Scan(cfg, now, topic, cands[i + 1..], seen + 1).count)
  {
    assert cands[i..][0] == cands[i];
    assert cands[i..][1..] == cands[i + 1..];
  }

  /** One step of the walk, on a page that was fetched. */
  lemma WalkStep(cfg: Config, env: Env, topic: string, url: Url, count: int, fuel: nat, page: ListingPage)
    requires Fetch(env, url) == Some(page)
    requires Walk(cfg, env, topic, url, count, fuel).Some?
    ensures var here := Scan(cfg, env.now, topic, Resolve(env.join, url, page.entries), count);
      if page.next.Some? && here.count < cfg.maxArticlesPerFeed then
        fuel > 0
        && Walk(cfg, env, topic, env.join(url, page.next.value), here.count, fuel - 1).Some?
        && Walk(cfg, env, topic, url, count, fuel).value
           == Crawl(here.refs + Walk(cfg, env, topic, env.join(url, page.next.value), here.count, fuel - 1).value.refs,
                    Walk(cfg, env, topic, env.join(url, page.next.value), here.count, fuel - 1).value.warnings)
      else Walk(cfg, env, topic, url, count, fuel).value == Crawl(here.refs, [])
  {
  }
}
