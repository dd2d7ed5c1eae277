/**
 * One crawl task (crawlPage) and the crawl as a whole, run sequentially: every
 * spawned task is pushed onto a worklist, and waiting for all tasks is
 * "loop until the worklist is empty". The next task is chosen arbitrarily, so
 * what is proved holds for every order in which whole tasks could run.
 */
module Crawler {
  import opened Wrappers
  import opened Web
  import opened Registry

  /** The exit a task takes. */
  datatype Exit =
    | LimitReached     // the registry already holds maxPages entries
    | UnparsableURL    // url.Parse failed
    | OffOrigin        // host differs from the seed's host
    | NormalizeFailed  // normalizeURL failed
    | AlreadyVisited   // the normalised key was claimed before
    | FetchFailed      // getHTML failed (after registration)
    | LinksFailed      // getURLsFromHTML failed (after registration)
    | Expanded         // one child task spawned per extracted link
  {
    /** The exits taken after the task claimed its key. */
    predicate Registered() {
      this == FetchFailed || this == LinksFailed || this == Expanded
    }
  }

  /** The checks a task makes before fetching: either an early exit, or the key it claims and its parsed URL. */
  datatype Screen = Rejected(exit: Exit) | Admitted(key: string, url: Url)

  /**
   * The guard chain in front of the fetch, in the source's order: the page
   * limit, then parsing, then the host, then normalisation, then the
   * registry's first-claim check.
   */
  function ScreenTask<V>(web: Web, baseHost: string, maxPages: int, pages: map<string, V>, rawURL: string): (s: Screen)
    ensures s == Rejected(LimitReached) <==> |pages| >= maxPages
    ensures s.Admitted? <==>
      && |pages| < maxPages
      && web.parse(rawURL).Some? && web.parse(rawURL).value.host == baseHost
      && web.normalize(rawURL).Some? && web.normalize(rawURL).value !in pages
    ensures s.Admitted? ==> web.parse(rawURL) == Some(s.url) && web.normalize(rawURL) == Some(s.key)
    ensures s.Rejected? ==> !s.exit.Registered()
  {
    if |pages| >= maxPages then Rejected(LimitReached)
    else match web.parse(rawURL)
      case None => Rejected(UnparsableURL)
      case Some(url) =>
        if url.host != baseHost then Rejected(OffOrigin)
        else match web.normalize(rawURL)
          case None => Rejected(NormalizeFailed)
          case Some(key) => if key in pages then Rejected(AlreadyVisited) else Admitted(key, url)
  }

  /** The links a page yields when fetched: getHTML, then getURLsFromHTML against its own URL. */
  function Found(web: Web, rawURL: string): (links: seq<string>)
  {
    match web.parse(rawURL)
    case None => []
    case Some(url) =>
      match web.fetch(rawURL)
      case None => []
      case Some(html) =>
        match web.links(html, url)
        case None => []
        case Some(ls) => ls
  }

  /** `rawURL` is on the seed host and normalises to `key`. */
  ghost predicate Yields(web: Web, baseHost: string, rawURL: string, key: string)
  {
    web.parse(rawURL).Some? && web.parse(rawURL).value.host == baseHost && web.normalize(rawURL) == Some(key)
  }

  /**
   * crawlPage: one task. `record` is the value registered for a newly claimed
   * key; the task's children are returned instead of being started.
   * Registration happens before the fetch, so a page whose fetch or link
   * extraction fails stays registered but spawns nothing.
   */
  method CrawlPage<V>(cfg: Config<V>, web: Web, rawCurrentURL: string, record: V) returns (exit: Exit, children: seq<string>)
    modifies cfg`pages
    ensures match ScreenTask(web, cfg.baseURL.host, cfg.maxPages, old(cfg.pages), rawCurrentURL)
      case Rejected(e) => exit == e && cfg.pages == old(cfg.pages) && children == []
      case Admitted(key, url) =>
        && cfg.pages == old(cfg.pages)[key := record]
        && exit.Registered()
        && (web.fetch(rawCurrentURL).None? ==> exit == FetchFailed)
        && (web.fetch(rawCurrentURL).Some? && web.links(web.fetch(rawCurrentURL).value, url).None? ==> exit == LinksFailed)
        && (web.fetch(rawCurrentURL).Some? && web.links(web.fetch(rawCurrentURL).value, url).Some? ==> exit == Expanded)
        && (exit == Expanded ==> children == web.links(web.fetch(rawCurrentURL).value, url).value)
        && (exit != Expanded ==> children == [])
    ensures exit == Expanded ==> children == Found(web, rawCurrentURL)
    ensures exit.Registered() && Found(web, rawCurrentURL) != [] ==> exit == Expanded
    ensures |old(cfg.pages)| < cfg.maxPages ==>
      forall k :: Yields(web, cfg.baseURL.host, rawCurrentURL, k) ==> k in cfg.pages
    ensures exit.Registered() <==> ScreenTask(web, cfg.baseURL.host, cfg.maxPages, old(cfg.pages), rawCurrentURL).Admitted?
    // a registered exit claimed the task's own on-host key, fresh before the task
    ensures exit.Registered() ==>
      && web.normalize(rawCurrentURL).Some?
      && Yields(web, cfg.baseURL.host, rawCurrentURL, web.normalize(rawCurrentURL).value)
      && web.normalize(rawCurrentURL).value !in old(cfg.pages)
      && web.normalize(rawCurrentURL).value in cfg.pages
    // the only key a task can add is its own, and only when it registers it
    ensures forall k :: k in cfg.pages ==>
      k in old(cfg.pages) || (exit.Registered() && web.normalize(rawCurrentURL) == Some(k))
  {
    children := [];
    if |cfg.pages| >= cfg.maxPages {
      return LimitReached, children;
    }
    var currentURL := web.parse(rawCurrentURL);
    if currentURL.None? {
      return UnparsableURL, children;
    }
    if currentURL.value.host != cfg.baseURL.host {
      return OffOrigin, children;
    }
    var normalizedURL := web.normalize(rawCurrentURL);
    if normalizedURL.None? {
      return NormalizeFailed, children;
    }
    var isFirst := cfg.AddPageVisit(normalizedURL.value, record);
    if !isFirst {
      return AlreadyVisited, children;
    }
    var html := web.fetch(rawCurrentURL);
    if html.None? {
      return FetchFailed, children;
    }
    var urls := web.links(html.value, currentURL.value);
    if urls.None? {
      return LinksFailed, children;
    }
    children := urls.value;
    exit := Expanded;
  }

  /** The task at position i was spawned by an earlier task that expanded. */
  ghost predicate HasParent(web: Web, processed: seq<string>, exits: seq<Exit>, i: nat)
    requires |processed| == |exits| && i < |processed|
  {
    exists j :: 0 <= j < i && exits[j] == Expanded && processed[i] in Found(web, processed[j])
  }

  /** Every task after the seed was spawned by an earlier task that expanded. */
  ghost predicate Spawned(web: Web, processed: seq<string>, exits: seq<Exit>)
    requires |processed| == |exits|
  {
    forall i :: 0 < i < |processed| ==> HasParent(web, processed, exits, i)
  }

  /** Every task still waiting was spawned by a task that already ran and expanded. */
  ghost predicate Pending(web: Web, processed: seq<string>, exits: seq<Exit>, work: seq<string>)
    requires |processed| == |exits|
  {
    forall w :: w in work ==>
      exists j :: 0 <= j < |processed| && exits[j] == Expanded && w in Found(web, processed[j])
  }

  /** Every link of every expanded page has run or is waiting to run. */
  ghost predicate Covered(web: Web, processed: seq<string>, exits: seq<Exit>, work: seq<string>)
    requires |processed| == |exits|
  {
    forall i :: 0 <= i < |processed| && exits[i] == Expanded ==>
      forall l :: l in Found(web, processed[i]) ==> l in processed || l in work
  }

  /** The task history of a sequential crawl from `seed`, with `work` still to run. */
  ghost predicate History(web: Web, seed: string, processed: seq<string>, exits: seq<Exit>, work: seq<string>)
  {
    && |processed| == |exits|
    && (processed == [] ==> work == [seed])
    && (processed != [] ==> processed[0] == seed && Pending(web, processed, exits, work))
    && Spawned(web, processed, exits)
    && Covered(web, processed, exits, work)
  }

  /** Removing position n from a sequence keeps every other element. */
  lemma {:induction false} RemoveAt(work: seq<string>, n: nat)
    requires n < |work|
    ensures forall w :: w in work ==> w == work[n] || w in work[..n] + work[n + 1..]
  {
    var rest := work[..n] + work[n + 1..];
    forall w | w in work ensures w == work[n] || w in rest {
      var k :| 0 <= k < |work| && work[k] == w;
      if k < n { assert rest[k] == w; } else if k > n { assert rest[k - 1] == w; }
    }
  }

  lemma {:induction false} PendingStep(web: Web, processed: seq<string>, exits: seq<Exit>, work: seq<string>,
                                       n: nat, exit: Exit, children: seq<string>)
    requires |processed| == |exits| && n < |work|
    requires Pending(web, processed, exits, work)
    requires exit == Expanded ==> children == Found(web, work[n])
    requires exit != Expanded ==> children == []
    ensures Pending(web, processed + [work[n]], exits + [exit], work[..n] + work[n + 1..] + children)
  {
    var processed', exits', rest := processed + [work[n]], exits + [exit], work[..n] + work[n + 1..];
    forall w | w in rest + children
      ensures exists j :: 0 <= j < |processed'| && exits'[j] == Expanded && w in Found(web, processed'[j])
    {
      if w in rest {
        assert w in work;
        var j :| 0 <= j < |processed| && exits[j] == Expanded && w in Found(web, processed[j]);
        assert processed'[j] == processed[j] && exits'[j] == exits[j];
      } else {
        var j := |processed|;
        assert processed'[j] == work[n] && exits'[j] == Expanded;
      }
    }
  }

  lemma {:induction false} SpawnedStep(web: Web, processed: seq<string>, exits: seq<Exit>, work: seq<string>, n: nat, exit: Exit)
    requires |processed| == |exits| && n < |work|
    requires Spawned(web, processed, exits)
    requires processed != [] ==> Pending(web, processed, exits, work)
    requires processed == [] ==> work == [work[n]]
    ensures Spawned(web, processed + [work[n]], exits + [exit])
  {
    var processed', exits' := processed + [work[n]], exits + [exit];
    forall i | 0 < i < |processed'|
      ensures HasParent(web, processed', exits', i)
    {
      if i < |processed| {
        assert HasParent(web, processed, exits, i);
        var j :| 0 <= j < i && exits[j] == Expanded && processed[i] in Found(web, processed[j]);
        assert processed'[j] == processed[j] && exits'[j] == exits[j];
      } else {
        assert work[n] in work;
        var j :| 0 <= j < |processed| && exits[j] == Expanded && work[n] in Found(web, processed[j]);
        assert processed'[j] == processed[j] && exits'[j] == exits[j];
      }
    }
  }

  lemma {:induction false} CoveredStep(web: Web, processed: seq<string>, exits: seq<Exit>, work: seq<string>,
                                       n: nat, exit: Exit, children: seq<string>)
    requires |processed| == |exits| && n < |work|
    requires Covered(web, processed, exits, work)
    requires exit == Expanded ==> children == Found(web, work[n])
    ensures Covered(web, processed + [work[n]], exits + [exit], work[..n] + work[n + 1..] + children)
  {
    var processed', exits', rest := processed + [work[n]], exits + [exit], work[..n] + work[n + 1..];
    RemoveAt(work, n);
    forall i, l | 0 <= i < |processed'| && exits'[i] == Expanded && l in Found(web, processed'[i])
      ensures l in processed' || l in rest + children
    {
      if i < |processed| {
        assert processed'[i] == processed[i] && exits'[i] == exits[i];
        assert l in processed || l in work;
      } else {
        assert l in children;
      }
    }
  }

  /** Running the task at position n of the worklist, and queueing its children, keeps the history valid. */
  lemma {:induction false} HistoryStep(web: Web, seed: string, processed: seq<string>, exits: seq<Exit>, work: seq<string>,
                                       n: nat, exit: Exit, children: seq<string>)
    requires History(web, seed, processed, exits, work)
    requires n < |work|
    requires exit == Expanded ==> children == Found(web, work[n])
    requires exit != Expanded ==> children == []
    ensures History(web, seed, processed + [work[n]], exits + [exit], work[..n] + work[n + 1..] + children)
  {
    if processed == [] {
      assert work[n] == seed;
    } else {
      PendingStep(web, processed, exits, work, n, exit, children);
    }
    if processed == [] {
      var processed', exits', work' := [work[n]], [exit], work[..n] + work[n + 1..] + children;
      assert work[..n] + work[n + 1..] == [];
      forall w | w in work'
        ensures exists j :: 0 <= j < |processed'| && exits'[j] == Expanded && w in Found(web, processed'[j])
      {
        assert exits'[0] == Expanded && w in Found(web, processed'[0]);
      }
      assert Pending(web, processed', exits', work');
    }
    SpawnedStep(web, processed, exits, work, n, exit);
    CoveredStep(web, processed, exits, work, n, exit, children);
  }

  /**
   * What a crawl leaves in the registry, relative to the entries `start` it
   * began with: those are kept unchanged, and every new key holds `record` and
   * was produced by normalising a processed URL on the seed host.
   */
  ghost predicate FromSeedHost<V>(web: Web, baseHost: string, start: map<string, V>, pages: map<string, V>,
                                  processed: seq<string>, record: V)
  {
    && (forall k :: k in start ==> k in pages && pages[k] == start[k])
    && (forall k :: k in pages && k !in start ==>
          pages[k] == record && exists i :: 0 <= i < |processed| && Yields(web, baseHost, processed[i], k))
  }

  /** Running more tasks keeps the provenance of the keys already registered. */
  lemma {:induction false} FromSeedHostLonger<V>(web: Web, baseHost: string, start: map<string, V>, pages: map<string, V>,
                                                 processed: seq<string>, url: string, record: V)
    requires FromSeedHost(web, baseHost, start, pages, processed, record)
    ensures FromSeedHost(web, baseHost, start, pages, processed + [url], record)
  {
    var processed' := processed + [url];
    forall k | k in pages && k !in start
      ensures exists i :: 0 <= i < |processed'| && Yields(web, baseHost, processed'[i], k)
    {
      var i :| 0 <= i < |processed| && Yields(web, baseHost, processed[i], k);
      assert processed'[i] == processed[i];
    }
  }

  /** Registering a fresh key that the newest processed URL yields keeps the provenance of every key. */
  lemma {:induction false} FromSeedHostClaim<V>(web: Web, baseHost: string, start: map<string, V>, pages: map<string, V>,
                                                processed: seq<string>, url: string, key: string, record: V)
    requires FromSeedHost(web, baseHost, start, pages, processed, record)
    requires key !in pages && Yields(web, baseHost, url, key)
    ensures FromSeedHost(web, baseHost, start, pages[key := record], processed + [url], record)
  {
    FromSeedHostLonger(web, baseHost, start, pages, processed, url, record);
    var pages', processed' := pages[key := record], processed + [url];
    assert Yields(web, baseHost, processed'[|processed|], key);
    forall k | k in pages' && k !in start
      ensures pages'[k] == record && exists j :: 0 <= j < |processed'| && Yields(web, baseHost, processed'[j], k)
    {
      if k != key {
        assert k in pages;
      }
    }
  }

  /** One task's effect on the registry keeps FromSeedHost and the page limit, and only ever adds one fresh key. */
  lemma {:induction false} PagesStep<V>(web: Web, baseHost: string, maxPages: int, start: map<string, V>,
                                        pages: map<string, V>, pages': map<string, V>,
                                        processed: seq<string>, url: string, record: V)
    requires FromSeedHost(web, baseHost, start, pages, processed, record)
    requires |pages| <= maxPages || |pages| == 0
    requires ScreenTask(web, baseHost, maxPages, pages, url).Rejected? ==> pages' == pages
    requires ScreenTask(web, baseHost, maxPages, pages, url).Admitted? ==>
      pages' == pages[ScreenTask(web, baseHost, maxPages, pages, url).key := record]
    ensures FromSeedHost(web, baseHost, start, pages', processed + [url], record)
    ensures pages.Keys <= pages'.Keys
    ensures |pages'| <= maxPages || |pages'| == 0
    ensures pages' == pages || (|pages| < maxPages && |pages'| == |pages| + 1)
  {
    var screen := ScreenTask(web, baseHost, maxPages, pages, url);
    if screen.Admitted? {
      FromSeedHostClaim(web, baseHost, start, pages, processed, url, screen.key, record);
    } else {
      FromSeedHostLonger(web, baseHost, start, pages, processed, url, record);
    }
  }

  /** Every registered task whose page yields links expanded it. */
  ghost predicate ExpandedWhenLinked(web: Web, processed: seq<string>, exits: seq<Exit>)
    requires |processed| == |exits|
  {
    forall i :: 0 <= i < |processed| && exits[i].Registered() && Found(web, processed[i]) != [] ==>
      exits[i] == Expanded
  }

  /** Below the limit, every crawled URL on the seed host has its key registered. */
  ghost predicate Reached<V>(web: Web, baseHost: string, maxPages: int, pages: map<string, V>, processed: seq<string>)
  {
    |pages| < maxPages ==>
      forall i, k :: 0 <= i < |processed| && Yields(web, baseHost, processed[i], k) ==> k in pages
  }

  /** One more task keeps ExpandedWhenLinked and Reached. */
  lemma {:induction false} ReachedStep<V>(web: Web, baseHost: string, maxPages: int,
                                          pages: map<string, V>, pages': map<string, V>,
                                          processed: seq<string>, exits: seq<Exit>, url: string, exit: Exit)
    requires |processed| == |exits|
    requires ExpandedWhenLinked(web, processed, exits) && Reached(web, baseHost, maxPages, pages, processed)
    requires pages.Keys <= pages'.Keys && (pages' == pages || |pages'| == |pages| + 1)
    requires exit.Registered() && Found(web, url) != [] ==> exit == Expanded
    requires |pages| < maxPages ==> forall k :: Yields(web, baseHost, url, k) ==> k in pages'
    ensures ExpandedWhenLinked(web, processed + [url], exits + [exit])
    ensures Reached(web, baseHost, maxPages, pages', processed + [url])
  {
    var processed', exits' := processed + [url], exits + [exit];
    forall i | 0 <= i < |processed'| && exits'[i].Registered() && Found(web, processed'[i]) != []
      ensures exits'[i] == Expanded
    {
      if i < |processed| {
        assert exits'[i] == exits[i] && processed'[i] == processed[i];
      }
    }
    if |pages'| < maxPages {
      forall i, k | 0 <= i < |processed'| && Yields(web, baseHost, processed'[i], k) ensures k in pages' {
        if i < |processed| {
          assert processed'[i] == processed[i];
        }
      }
    }
  }

  /** Every key added since `start` was registered by a task that normalised to it and took a registered exit. */
  ghost predicate Claimed<V>(web: Web, start: map<string, V>, pages: map<string, V>, processed: seq<string>, exits: seq<Exit>)
    requires |processed| == |exits|
  {
    forall k :: k in pages && k !in start ==>
      exists i :: 0 <= i < |processed| && exits[i].Registered() && web.normalize(processed[i]) == Some(k)
  }

  /** One more task keeps Claimed: a key it adds is its own, under a registered exit. */
  lemma {:induction false} ClaimedStep<V>(web: Web, start: map<string, V>, pages: map<string, V>, pages': map<string, V>,
                                          processed: seq<string>, exits: seq<Exit>, url: string, exit: Exit)
    requires |processed| == |exits|
    requires Claimed(web, start, pages, processed, exits)
    requires forall k :: k in pages' ==> k in pages || (exit.Registered() && web.normalize(url) == Some(k))
    ensures Claimed(web, start, pages', processed + [url], exits + [exit])
  {
    var processed', exits' := processed + [url], exits + [exit];
    forall k | k in pages' && k !in start
      ensures exists i :: 0 <= i < |processed'| && exits'[i].Registered() && web.normalize(processed'[i]) == Some(k)
    {
      if k in pages {
        var i :| 0 <= i < |processed| && exits[i].Registered() && web.normalize(processed[i]) == Some(k);
        assert processed'[i] == processed[i] && exits'[i] == exits[i];
      } else {
        assert processed'[|processed|] == url && exits'[|processed|] == exit;
      }
    }
  }

  /**
   * Every task with a registered exit claimed its own on-host key, absent from
   * `start` and present in `pages`, and no two such tasks claimed the same key.
   */
  ghost predicate FreshClaims<V>(web: Web, baseHost: string, start: map<string, V>, pages: map<string, V>,
                                 processed: seq<string>, exits: seq<Exit>)
    requires |processed| == |exits|
  {
    && (forall i :: 0 <= i < |processed| && exits[i].Registered() ==>
          && web.normalize(processed[i]).Some?
          && Yields(web, baseHost, processed[i], web.normalize(processed[i]).value)
          && web.normalize(processed[i]).value in pages
          && web.normalize(processed[i]).value !in start)
    && (forall i, j :: 0 <= i < j < |processed| && exits[i].Registered() && exits[j].Registered() ==>
          web.normalize(processed[i]) != web.normalize(processed[j]))
  }

  /** One more task keeps FreshClaims: a registered exit claims a key no earlier task held. */
  lemma {:induction false} FreshClaimsStep<V>(web: Web, baseHost: string, start: map<string, V>,
                                              pages: map<string, V>, pages': map<string, V>,
                                              processed: seq<string>, exits: seq<Exit>, url: string, exit: Exit)
    requires |processed| == |exits|
    requires FreshClaims(web, baseHost, start, pages, processed, exits)
    requires start.Keys <= pages.Keys <= pages'.Keys
    requires exit.Registered() ==>
      && web.normalize(url).Some?
      && Yields(web, baseHost, url, web.normalize(url).value)
      && web.normalize(url).value !in pages
      && web.normalize(url).value in pages'
    ensures FreshClaims(web, baseHost, start, pages', processed + [url], exits + [exit])
  {
    var processed', exits' := processed + [url], exits + [exit];
    forall i | 0 <= i < |processed'| && exits'[i].Registered()
      ensures && web.normalize(processed'[i]).Some?
              && Yields(web, baseHost, processed'[i], web.normalize(processed'[i]).value)
              && web.normalize(processed'[i]).value in pages'
              && web.normalize(processed'[i]).value !in start
    {
      if i < |processed| {
        assert processed'[i] == processed[i] && exits'[i] == exits[i];
      }
    }
    forall i, j | 0 <= i < j < |processed'| && exits'[i].Registered() && exits'[j].Registered()
      ensures web.normalize(processed'[i]) != web.normalize(processed'[j])
    {
      assert processed'[i] == processed[i] && exits'[i] == exits[i];
      if j < |processed| {
        assert processed'[j] == processed[j] && exits'[j] == exits[j];
      } else {
        assert processed'[j] == url && exits'[j] == exit;
      }
    }
  }

  /**
   * A finished crawl from `seed` that began with registry `start`: the history
   * is valid with nothing queued, every registered task whose page yields links
   * expanded it, below the limit every crawled on-host URL is registered, every
   * new key was claimed by a task with a registered exit, and those tasks
   * claimed distinct fresh on-host keys.
   */
  ghost predicate Finished<V>(web: Web, seed: string, baseHost: string, maxPages: int, start: map<string, V>,
                              pages: map<string, V>, processed: seq<string>, exits: seq<Exit>)
  {
    && History(web, seed, processed, exits, [])
    && processed != []
    && ExpandedWhenLinked(web, processed, exits)
    && Reached(web, baseHost, maxPages, pages, processed)
    && Claimed(web, start, pages, processed, exits)
    && FreshClaims(web, baseHost, start, pages, processed, exits)
  }

  /** Pages the limit still allows: the crawl's first termination measure. */
  function Room<V>(maxPages: int, pages: map<string, V>): (room: nat)
    ensures room > 0 <==> |pages| < maxPages
  {
    if |pages| < maxPages then maxPages - |pages| else 0
  }

  /**
   * The state of the crawl loop: `processed` and `exits` are the tasks run so
   * far, `work` the tasks still queued, `pages` the registry, which began as
   * `start`.
   */
  ghost predicate Crawling<V>(web: Web, seed: string, baseHost: string, maxPages: int, start: map<string, V>,
                              record: V, pages: map<string, V>, processed: seq<string>, exits: seq<Exit>,
                              work: seq<string>)
  {
    var first := ScreenTask(web, baseHost, maxPages, start, seed);
    && (|pages| <= maxPages || |pages| == 0)
    && History(web, seed, processed, exits, work)
    && (work == [] ==> processed != [])
    && FromSeedHost(web, baseHost, start, pages, processed, record)
    && (processed == [] ==> pages == start)
    && (processed != [] && first.Admitted? ==> first.key in pages && exits[0].Registered())
    && ExpandedWhenLinked(web, processed, exits)
    && Reached(web, baseHost, maxPages, pages, processed)
    && Claimed(web, start, pages, processed, exits)
    && FreshClaims(web, baseHost, start, pages, processed, exits)
  }

  /**
   * One turn of the crawl loop: run any queued task and queue its children.
   * Either the registry's room shrinks, or it stays and the queue shrinks.
   */
  method RunTask<V>(cfg: Config<V>, web: Web, seed: string, record: V, ghost start: map<string, V>,
                    work: seq<string>, ghost processed: seq<string>, ghost exits: seq<Exit>)
    returns (work': seq<string>, ghost processed': seq<string>, ghost exits': seq<Exit>)
    requires work != []
    requires Crawling(web, seed, cfg.baseURL.host, cfg.maxPages, start, record, cfg.pages, processed, exits, work)
    modifies cfg`pages
    ensures Crawling(web, seed, cfg.baseURL.host, cfg.maxPages, start, record, cfg.pages, processed', exits', work')
    ensures Room(cfg.maxPages, cfg.pages) < Room(cfg.maxPages, old(cfg.pages)) ||
      (Room(cfg.maxPages, cfg.pages) == Room(cfg.maxPages, old(cfg.pages)) && |work'| < |work|)
  {
    var n :| 0 <= n < |work|;
    var url := work[n];
    ghost var before := cfg.pages;
    var exit, children := CrawlPage(cfg, web, url, record);
    PagesStep(web, cfg.baseURL.host, cfg.maxPages, start, before, cfg.pages, processed, url, record);
    HistoryStep(web, seed, processed, exits, work, n, exit, children);
    ReachedStep(web, cfg.baseURL.host, cfg.maxPages, before, cfg.pages, processed, exits, url, exit);
    ClaimedStep(web, start, before, cfg.pages, processed, exits, url, exit);
    FreshClaimsStep(web, cfg.baseURL.host, start, before, cfg.pages, processed, exits, url, exit);
    processed', exits' := processed + [url], exits + [exit];
    work' := work[..n] + work[n + 1..] + children;
  }

  /**
   * The whole crawl from one seed task, until no task is left. Returns, as
   * ghost history, the URLs in the order their tasks ran and the exit each took.
   * Terminates: a task that spawns children has first claimed a fresh key, and
   * no key is claimed once the registry holds maxPages entries.
   */
  method Crawl<V>(cfg: Config<V>, web: Web, seed: string, record: V) returns (ghost processed: seq<string>, ghost exits: seq<Exit>)
    requires cfg.WithinLimit()
    modifies cfg`pages
    ensures cfg.WithinLimit()
    ensures Finished(web, seed, cfg.baseURL.host, cfg.maxPages, old(cfg.pages), cfg.pages, processed, exits)
    ensures FromSeedHost(web, cfg.baseURL.host, old(cfg.pages), cfg.pages, processed, record)
    // the seed task runs first, so it registers its key whenever the guards let it
    ensures ScreenTask(web, cfg.baseURL.host, cfg.maxPages, old(cfg.pages), seed).Admitted? ==>
      ScreenTask(web, cfg.baseURL.host, cfg.maxPages, old(cfg.pages), seed).key in cfg.pages && exits[0].Registered()
  {
    var work := [seed];
    processed, exits := [], [];
    while work != []
      invariant Crawling(web, seed, cfg.baseURL.host, cfg.maxPages, old(cfg.pages), record, cfg.pages, processed, exits, work)
      decreases Room(cfg.maxPages, cfg.pages), |work|
    {
      work, processed, exits := RunTask(cfg, web, seed, record, old(cfg.pages), work, processed, exits);
    }
  }

  /** Every link of the page of task i has run. */
  ghost predicate LinksRan(web: Web, processed: seq<string>, i: nat)
    requires i < |processed|
  {
    forall l :: l in Found(web, processed[i]) ==> l in processed
  }

  /**
   * In a finished crawl, every key added to the registry belongs to a task
   * whose links all ran: registering a page means following its links.
   */
  lemma {:induction false} RegisteredPagesFollowed<V>(web: Web, start: map<string, V>, pages: map<string, V>,
                                                      processed: seq<string>, exits: seq<Exit>)
    requires |processed| == |exits|
    requires Claimed(web, start, pages, processed, exits) && ExpandedWhenLinked(web, processed, exits)
    requires Covered(web, processed, exits, [])
    ensures forall k :: k in pages && k !in start ==>
      exists i :: 0 <= i < |processed| && web.normalize(processed[i]) == Some(k) && LinksRan(web, processed, i)
  {
    forall k | k in pages && k !in start
      ensures exists i :: 0 <= i < |processed| && web.normalize(processed[i]) == Some(k) && LinksRan(web, processed, i)
    {
      var i :| 0 <= i < |processed| && exits[i].Registered() && web.normalize(processed[i]) == Some(k);
      if Found(web, processed[i]) != [] {
        assert exits[i] == Expanded;
      }
    }
  }

  /** The second task of a crawl was spawned by the first. */
  lemma SecondSpawnedByFirst(web: Web, processed: seq<string>, exits: seq<Exit>)
    requires |processed| == |exits| && |processed| > 1
    requires Spawned(web, processed, exits)
    ensures exits[0] == Expanded && processed[1] in Found(web, processed[0])
  {
    assert HasParent(web, processed, exits, 1);
  }

  /** A seed page that yields no links is the only task of its crawl. */
  lemma {:induction false} LeafSite(web: Web, seed: string, processed: seq<string>, exits: seq<Exit>)
    requires History(web, seed, processed, exits, [])
    requires processed != [] && Found(web, seed) == []
    ensures processed == [seed]
  {
    if |processed| > 1 {
      SecondSpawnedByFirst(web, processed, exits);
      assert false;
    }
  }

  /** `site` holds every link of every page in it. */
  ghost predicate LinkClosed(web: Web, site: set<string>)
  {
    forall p, l :: p in site && l in Found(web, p) ==> l in site
  }

  /** A crawl from a seed inside a link-closed set of pages never leaves that set. */
  lemma {:induction false} StaysInSite(web: Web, seed: string, processed: seq<string>, exits: seq<Exit>,
                                       site: set<string>, i: nat)
    requires |processed| == |exits| && processed != [] && processed[0] == seed
    requires Spawned(web, processed, exits)
    requires seed in site && LinkClosed(web, site)
    requires i < |processed|
    ensures processed[i] in site
    decreases i
  {
    if i > 0 {
      assert HasParent(web, processed, exits, i);
      var j :| 0 <= j < i && exits[j] == Expanded && processed[i] in Found(web, processed[j]);
      StaysInSite(web, seed, processed, exits, site, j);
    }
  }

  /** A set of keys drawn from two keys has at most two members, and has two only when it holds both. */
  lemma AtMostTwo(keys: set<string>, x: string, y: string)
    requires keys <= {x, y}
    ensures |keys| <= 2
    ensures |keys| == 2 ==> keys == {x, y}
  {
    if x in keys && y in keys {
      assert keys == {x, y};
    } else if x in keys {
      assert keys == {x};
    } else if y in keys {
      assert keys == {y};
    } else {
      assert keys == {};
    }
  }

  /**
   * Two same-host pages that link only to each other: a finished crawl from
   * one of them, with room for at least two pages, registers exactly their
   * two keys.
   */
  lemma {:induction false} TwoPageCycle<V>(web: Web, baseHost: string, maxPages: int, pages: map<string, V>,
                                           processed: seq<string>, exits: seq<Exit>,
                                           a: string, b: string, ka: string, kb: string)
    requires History(web, a, processed, exits, [])
    requires processed != [] && exits[0].Registered()
    requires forall i :: 0 <= i < |processed| && exits[i].Registered() && Found(web, processed[i]) != [] ==>
      exits[i] == Expanded
    requires |pages| < maxPages ==>
      forall i, k :: 0 <= i < |processed| && Yields(web, baseHost, processed[i], k) ==> k in pages
    requires forall k :: k in pages ==> exists i :: 0 <= i < |processed| && Yields(web, baseHost, processed[i], k)
    requires Found(web, a) == [b] && Found(web, b) == [a]
    requires Yields(web, baseHost, a, ka) && Yields(web, baseHost, b, kb)
    requires maxPages >= 2
    ensures pages.Keys == {ka, kb}
  {
    var site := {a, b};
    assert LinkClosed(web, site);
    forall k | k in pages ensures k == ka || k == kb {
      var i :| 0 <= i < |processed| && Yields(web, baseHost, processed[i], k);
      StaysInSite(web, a, processed, exits, site, i);
    }
    assert pages.Keys <= {ka, kb};
    AtMostTwo(pages.Keys, ka, kb);
    if |pages| < maxPages {
      // the seed expanded, so b ran too; below the limit both keys are registered
      assert exits[0] == Expanded;
      assert b in processed;
      var j :| 0 <= j < |processed| && processed[j] == b;
      assert Yields(web, baseHost, processed[0], ka) && Yields(web, baseHost, processed[j], kb);
    }
  }
}
