/**
 * The program's entry point (main.go): argument validation, start-up of the
 * crawl state and the seed task, and the final page count. Printing and the
 * process exit are not modelled: an error result stands for "exit status 1".
 */
module Cli {
  import opened Wrappers
  import opened Web
  import opened Registry
  import opened Crawler

  /** The range of Go's 64-bit int. */
  const MinInt: int := -0x8000_0000_0000_0000
  const MaxInt: int := 0x7FFF_FFFF_FFFF_FFFF

  predicate IsDigit(c: char) { '0' <= c <= '9' }

  predicate AllDigits(s: string) { forall i :: 0 <= i < |s| ==> IsDigit(s[i]) }

  /** The value of a string of decimal digits, most significant first. */
  function DigitsValue(s: string): nat
    requires AllDigits(s)
  {
    if s == [] then 0 else DigitsValue(s[..|s| - 1]) * 10 + (s[|s| - 1] as int - '0' as int)
  }

  /** The string with one leading '+' or '-' removed. */
  function Unsigned(s: string): (d: string)
    ensures |d| >= |s| - 1
  {
    if |s| > 0 && (s[0] == '+' || s[0] == '-') then s[1..] else s
  }

  /** The value of a signed decimal string: its digits' value, negated after a leading '-'. */
  function SignedValue(s: string): int
    requires Unsigned(s) != [] && AllDigits(Unsigned(s))
  {
    if s[0] == '-' then 0 - DigitsValue(Unsigned(s)) as int else DigitsValue(Unsigned(s))
  }

  /**
   * strconv.Atoi: an optional '+' or '-', then one or more ASCII digits, and a
   * value that fits a 64-bit int; anything else is an error.
   */
  function Atoi(s: string): (r: Option<int>)
    ensures r.Some? <==>
      (Unsigned(s) != [] && AllDigits(Unsigned(s)) && MinInt <= SignedValue(s) <= MaxInt)
    ensures r.Some? ==> r.value == SignedValue(s) && MinInt <= r.value <= MaxInt
  {
    var digits := Unsigned(s);
    if digits == [] || !AllDigits(digits) then None
    else if MinInt <= SignedValue(s) <= MaxInt then Some(SignedValue(s))
    else None
  }

  function DigitChar(d: nat): char
    requires d < 10
  {
    ('0' as int + d) as char
  }

  /** The decimal digits of n, without leading zeros. */
  function NatDigits(n: nat): (s: string)
    ensures s != [] && AllDigits(s)
  {
    if n < 10 then [DigitChar(n)] else NatDigits(n / 10) + [DigitChar(n % 10)]
  }

  /** strconv.Itoa: how an int is written in decimal. */
  function Itoa(n: int): string
  {
    if n < 0 then "-" + NatDigits(-n) else NatDigits(n)
  }

  lemma {:induction false} DigitsValueOfNatDigits(n: nat)
    ensures DigitsValue(NatDigits(n)) == n
  {
    if n >= 10 {
      DigitsValueOfNatDigits(n / 10);
      var s := NatDigits(n);
      assert s[..|s| - 1] == NatDigits(n / 10);
    }
  }

  /** Atoi reads back every 64-bit int written in decimal. */
  lemma {:induction false} AtoiItoa(n: int)
    requires MinInt <= n <= MaxInt
    ensures Atoi(Itoa(n)) == Some(n)
  {
    var digits := NatDigits(if n < 0 then -n else n);
    DigitsValueOfNatDigits(if n < 0 then -n else n);
    if n < 0 {
      assert Itoa(n)[1..] == digits;
    } else {
      assert IsDigit(digits[0]);
    }
    assert Unsigned(Itoa(n)) == digits;
  }

  datatype ArgError =
    | NotEnoughArgs
    | TooManyArgs
    | BadMaxConcurrency       // maxConcurrency is not an integer
    | BadMaxPages             // maxPages is not an integer
    | MaxConcurrencyTooSmall  // maxConcurrency < 1
    | MaxPagesTooSmall        // maxPages < 1
    | BadBaseURL              // the seed URL does not parse

  datatype Settings = Settings(rawBaseURL: string, baseURL: Url, maxConcurrency: int, maxPages: int)

  /**
   * The checks main makes on `crawler <URL> <maxConcurrency> <maxPages>`, in
   * its order: argument count, maxConcurrency parses, maxPages parses,
   * maxConcurrency >= 1, maxPages >= 1, the URL parses.
   */
  function ParseArgs(web: Web, args: seq<string>): (r: Result<Settings, ArgError>)
    ensures |args| < 3 <==> r == Err(NotEnoughArgs)
    ensures |args| > 3 <==> r == Err(TooManyArgs)
    ensures |args| == 3 && Atoi(args[1]).None? ==> r == Err(BadMaxConcurrency)
    ensures |args| == 3 && Atoi(args[1]).Some? && Atoi(args[2]).None? ==> r == Err(BadMaxPages)
    ensures r == Err(MaxConcurrencyTooSmall) <==>
      |args| == 3 && Atoi(args[1]).Some? && Atoi(args[2]).Some? && Atoi(args[1]).value < 1
    ensures r == Err(MaxPagesTooSmall) <==>
      |args| == 3 && Atoi(args[1]).Some? && Atoi(args[2]).Some? && Atoi(args[1]).value >= 1 && Atoi(args[2]).value < 1
    ensures r == Err(BadBaseURL) <==>
      && |args| == 3
      && Atoi(args[1]).Some? && Atoi(args[1]).value >= 1
      && Atoi(args[2]).Some? && Atoi(args[2]).value >= 1
      && web.parse(args[0]).None?
    ensures r.Ok? <==>
      && |args| == 3
      && Atoi(args[1]).Some? && Atoi(args[1]).value >= 1
      && Atoi(args[2]).Some? && Atoi(args[2]).value >= 1
      && web.parse(args[0]).Some?
    ensures r.Ok? ==> r.value == Settings(args[0], web.parse(args[0]).value, Atoi(args[1]).value, Atoi(args[2]).value)
  {
    if |args| < 3 then Err(NotEnoughArgs)
    else if |args| > 3 then Err(TooManyArgs)
    else
      var rawBaseURL := args[0];
      match Atoi(args[1])
      case None => Err(BadMaxConcurrency)
      case Some(maxConcurrency) =>
        match Atoi(args[2])
        case None => Err(BadMaxPages)
        case Some(maxPages) =>
          if maxConcurrency < 1 then Err(MaxConcurrencyTooSmall)
          else if maxPages < 1 then Err(MaxPagesTooSmall)
          else match web.parse(rawBaseURL)
            case None => Err(BadBaseURL)
            case Some(baseURL) => Ok(Settings(rawBaseURL, baseURL, maxConcurrency, maxPages))
  }

  /** Every well-formed command line is accepted: a parseable URL and two positive ints written in decimal. */
  lemma {:induction false} AcceptsDecimalArgs(web: Web, url: string, maxConcurrency: int, maxPages: int)
    requires web.parse(url).Some?
    requires 1 <= maxConcurrency <= MaxInt && 1 <= maxPages <= MaxInt
    ensures ParseArgs(web, [url, Itoa(maxConcurrency), Itoa(maxPages)])
         == Ok(Settings(url, web.parse(url).value, maxConcurrency, maxPages))
  {
    AtoiItoa(maxConcurrency);
    AtoiItoa(maxPages);
  }

  /** What main reports: the settings, the final registry and the count it prints. */
  datatype Summary<V> = Summary(settings: Settings, pages: map<string, V>, count: nat)

  /**
   * main: validate the arguments; then build the crawl state with an empty
   * registry, run the single seed task on the raw seed URL and every task it
   * spawns, and report how many pages were registered. `record` is the value
   * registered for each page.
   */
  method Run<V>(web: Web, args: seq<string>, record: V)
    returns (r: Result<Summary<V>, ArgError>, ghost processed: seq<string>, ghost exits: seq<Exit>)
    ensures r.Err? <==> ParseArgs(web, args).Err?
    ensures r.Err? ==> r.error == ParseArgs(web, args).error && processed == [] && exits == []
    ensures r.Ok? ==> r.value.settings == ParseArgs(web, args).value
    ensures r.Ok? ==> r.value.count == |r.value.pages| <= r.value.settings.maxPages
    // every registered key is the normalised form of a crawled URL on the seed's host
    ensures r.Ok? ==> forall k :: k in r.value.pages ==>
      r.value.pages[k] == record &&
      exists i :: 0 <= i < |processed| && Yields(web, r.value.settings.baseURL.host, processed[i], k)
    // the seed task runs first and registers the seed whenever it normalises
    ensures r.Ok? ==> processed != [] && processed[0] == args[0]
    ensures r.Ok? && web.normalize(args[0]).Some? ==> web.normalize(args[0]).value in r.value.pages
    // wg.Wait: every spawned task has run before the count is read, and the history is a finished crawl
    ensures r.Ok? ==>
      Finished(web, args[0], r.value.settings.baseURL.host, r.value.settings.maxPages, map[], r.value.pages, processed, exits)
    ensures r.Ok? && web.normalize(args[0]).Some? ==> exits[0].Registered()
    // a seed page that yields no links is the whole crawl
    ensures r.Ok? && web.normalize(args[0]).Some? && Found(web, args[0]) == [] ==>
      r.value.pages.Keys == {web.normalize(args[0]).value}
  {
    processed, exits := [], [];
    var parsed := ParseArgs(web, args);
    if parsed.Err? {
      return Err(parsed.error), processed, exits;
    }
    var settings := parsed.value;
    var cfg := new Config(settings.baseURL, settings.maxConcurrency, settings.maxPages);
    processed, exits := Crawl(cfg, web, settings.rawBaseURL, record);
    if web.normalize(settings.rawBaseURL).Some? && Found(web, settings.rawBaseURL) == [] {
      LeafSite(web, settings.rawBaseURL, processed, exits);
    }
    r := Ok(Summary(settings, cfg.pages, |cfg.pages|));
  }
}
