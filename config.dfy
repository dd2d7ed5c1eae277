/**
 * The crawler's shared state (config.go): the visited registry, a map from
 * normalised URL to the value recorded for it, plus the settings fixed at
 * start-up. The value type is a parameter V.
 */
module Registry {
  import opened Web

  /**
   * Insert-if-absent on a map: the specification of addPageVisit.
   * Returns the new map and whether the key was absent before.
   */
  function Claim<V>(pages: map<string, V>, key: string, value: V): (r: (map<string, V>, bool))
    ensures r.1 <==> key !in pages
    ensures r.0.Keys == pages.Keys + {key}
    ensures forall k :: k in pages ==> r.0[k] == pages[k]
    ensures r.1 ==> r.0[key] == value && |r.0| == |pages| + 1
    ensures !r.1 ==> r.0 == pages
  {
    if key in pages then (pages, false)
    else
      assert (pages[key := value]).Keys == pages.Keys + {key};
      (pages[key := value], true)
  }

  /** A second claim of a key never succeeds and changes nothing, whatever value it carries. */
  lemma ClaimTwice<V>(pages: map<string, V>, key: string, first: V, second: V)
    ensures var (after, _) := Claim(pages, key, first);
      Claim(after, key, second) == (after, false)
  {
  }

  class Config<V> {
    /** Normalised URL -> recorded value; only ever grows. */
    var pages: map<string, V>
    /** The seed URL, parsed. */
    const baseURL: Url
    /** Capacity of the admission semaphore (concurrencyControl); no effect on a sequential run. */
    const maxConcurrency: int
    /** The page limit; enforced by the crawl step, not by AddPageVisit. */
    const maxPages: int

    /** The registry respects the page limit (a non-positive limit admits no page at all). */
    ghost predicate WithinLimit()
      reads this
    {
      |pages| <= maxPages || |pages| == 0
    }

    constructor (baseURL: Url, maxConcurrency: int, maxPages: int)
      ensures pages == map[]
      ensures this.baseURL == baseURL && this.maxConcurrency == maxConcurrency && this.maxPages == maxPages
      ensures WithinLimit()
    {
      this.pages := map[];
      this.baseURL := baseURL;
      this.maxConcurrency := maxConcurrency;
      this.maxPages := maxPages;
    }

    /**
     * addPageVisit: records `value` under `normalizedURL` unless the key is
     * already present, and says whether this was the first claim. An existing
     * entry is never overwritten; no other key is touched; maxPages is not consulted.
     */
    method AddPageVisit(normalizedURL: string, value: V) returns (isFirst: bool)
      modifies this`pages
      ensures (pages, isFirst) == Claim(old(pages), normalizedURL, value)
    {
      if normalizedURL in pages {
        return false;
      }
      pages := pages[normalizedURL := value];
      return true;
    }
  }
}
