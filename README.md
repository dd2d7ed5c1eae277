# linkscout crawl core, modelled in Dafny

linkscout is a same-host web crawler: from a seed URL it follows links, registers every page it
claims under its normalised URL, stops claiming pages at a page limit, and can write the pages
to a CSV report. This project models the crawl bookkeeping and the glue around it:

- `Registry` (config.go): the crawl state, a class `Config<V>` whose `pages` map goes from
  normalised URL to the value recorded for it, and `AddPageVisit`, insert-if-absent.
- `Crawler` (crawl_page.go): one crawl task (`CrawlPage`) with its chain of early exits, and the
  whole crawl (`Crawl`) run sequentially over a worklist.
- `Pages` (page_data.go): the `PageData` record and `ExtractPageData`.
- `Report` (csv_report.go): the header, one five-field row per page, `;`-joined lists, the write loop.
- `Cli` (main.go): `strconv.Atoi`, the argument checks in their order, and the run from the seed.
- `Web`, `Wrappers`: the collaborators the crawler calls but that are not modelled, and `Option`/`Result`.

The collaborators are `url.Parse`, `normalizeURL`, `getHTML`, `getH1FromHTML`,
`getFirstParagraphFromHTML`, `getURLsFromHTML` and `getImagesFromHTML`. They are fields of the
datatype `Web.Web`, each a deterministic function of its inputs. `None` stands for a Go error return.

The crawl is sequential. Each goroutine that `crawlPage` starts becomes a URL pushed onto a
worklist. `wg.Wait` becomes "run tasks until the worklist is empty". The next task is chosen
arbitrarily, so the results hold for every order in which whole tasks can run one after
another. The semaphore has no effect on such a run; its capacity is kept as `Config.maxConcurrency`.

Where the source files leave a choice open or disagree with each other, the model follows
the code:
- The type of `pages` differs between files. config.go:9 declares `map[string]PageData`, and
  main.go:69 builds `map[string]int`. crawl_page.go:39 passes only the key to `addPageVisit`,
  whose signature at config.go:19 takes a key and a value. The registry is therefore generic in
  its value type `V`. The crawl registers a value `record` that the caller chooses.
- The page limit is checked by `crawlPage` before it parses the URL (crawl_page.go:11-16).
  `addPageVisit` never consults the limit.
- A page is registered before it is fetched (crawl_page.go:39 comes before line 49). A page
  whose fetch or link extraction fails stays registered.
- The crawl never calls `extractPageData`. It expands a page with `getHTML` and
  `getURLsFromHTML` alone.
- The report's second column is headed `h1` and holds the page's `H1` field (csv_report.go:24, 35-41).

## Model

| member | source | states |
|---|---|---|
| `Registry.Claim` | config.go:19-32 | Insert-if-absent. The flag is true exactly when the key was absent. The key set grows by exactly that key. Existing values are kept. On true the new entry holds the value and the size grows by one. On false the map is unchanged. |
| `Registry.ClaimTwice` | config.go:24-27 | A second claim of the same key returns false and leaves the map as the first claim left it, whatever value it carries. |
| `Registry.Config.constructor` | main.go:68-75 | The crawl state starts with an empty registry, the parsed seed URL, the semaphore capacity and the page limit. |
| `Registry.Config.AddPageVisit` | config.go:19-32 | The new `pages` and the returned flag are exactly `Claim` of the old map: true exactly when the key was absent, and then the key maps to the value; otherwise nothing changes. Only `pages` changes, and the page limit plays no part. |
| `Crawler.ScreenTask` | crawl_page.go:11-43 | The checks before the fetch, in order. The task exits at the limit exactly when the registry holds at least maxPages entries. It goes on to fetch exactly when: it is under the limit, the URL parses, its host equals the seed host, it normalises, and its key is unclaimed. It then claims the normalised key. |
| `Crawler.CrawlPage` | crawl_page.go:9-73 | An early exit leaves `pages` unchanged and spawns nothing. Otherwise the key is registered before the fetch. A failed fetch or link extraction keeps the registration and spawns nothing. When both succeed the task expands, with one child per extracted link, in order, with duplicates and off-host links included. Below the limit, a URL on the seed host always ends with its key registered, whether new or already present. |
| `Crawler.HistoryStep` | crawl_page.go:63-72 | Running any queued task and queueing its children keeps three facts true. Every task after the seed was spawned by an earlier task that expanded. Every queued task was spawned by such a task. Every link of every expanded page has run or is queued. |
| `Crawler.PagesStep` | crawl_page.go:11-43 | One task adds at most one key, and only while the registry is under the limit. The new key is the normalised form of the task's URL, and that URL is on the seed host. Old entries are never changed. |
| `Crawler.Crawl` | crawl_page.go:63-72 | The worklist crawl terminates. Its measure is (pages still allowed, tasks queued), because a task that spawns children has first claimed a fresh key. Afterwards `|pages| <= maxPages` and the task history is valid with nothing queued. Every new key comes from a crawled URL on the seed host and holds `record`. The seed runs first and registers its key when its guards pass. Every registered task whose page yields links expanded it. While the registry is below the limit, every crawled URL on the seed host has its key registered. Every new key was registered by a crawled task that normalises to it and took a registered exit. Every task with a registered exit claimed its own on-host key, fresh at that point, so an off-host URL is never registered or expanded and no key is claimed by two tasks. |
| `Crawler.RunTask` | crawl_page.go:9-73 | One turn of the loop runs any queued task and queues its children, keeping the whole loop state. Either the room left under the limit shrinks, or it stays and the queue shrinks. |
| `Crawler.ReachedStep` | crawl_page.go:9-73 | Running one more task keeps two facts. Every registered task whose page yields links expanded it. Below the limit, every crawled same-host URL's key is registered. |
| `Crawler.FreshClaimsStep` | crawl_page.go:31-43 | One more task keeps FreshClaims. A registered exit means the task normalised to an on-host key that was absent before it and present after, so no earlier task held it. |
| `Crawler.ClaimedStep` | crawl_page.go:31-43 | One more task keeps the provenance of every new key. A key the task adds is its own normalised URL, and its exit is a registered one. |
| `Crawler.RegisteredPagesFollowed` | crawl_page.go:39-72 | In a finished crawl, every page registered has had all of its links run as tasks. |
| `Crawler.LeafSite` | crawl_page.go:63-72 | When the seed page yields no links, the seed is the only task the crawl runs. |
| `Crawler.StaysInSite` | crawl_page.go:63-72 | A crawl started inside a set of pages that holds all its own links never runs a task outside that set. |
| `Crawler.TwoPageCycle` | crawl_page.go:9-73 | Two same-host pages that link only to each other give exactly their two keys whenever maxPages is at least 2. This includes maxPages = 2, where the limit is reached exactly. The facts used are the ones `Crawl` and `Run` ensure. |
| `Pages.ExtractPageData` | page_data.go:15-49 | Total. `URL` is always the argument. If the URL does not parse, every other field is empty. Otherwise H1 and FirstParagraph are the extractors' outputs. Links and images are resolved against the page's own parsed URL, in extractor order. An error in one list extractor makes only that list empty. |
| `Pages.FieldsIndependent` | page_data.go:28-39 | Each field depends only on its own extractor. Collaborators that agree on parsing and on one extractor give equal values for that field. |
| `Report.Join` | csv_report.go:32-33 | The empty list joins to the empty field. One element joins to itself. Several elements contain the separator. |
| `Report.SplitJoin` | csv_report.go:32-33 | Splitting on `;` recovers a non-empty list whose elements contain no `;`. |
| `Report.SplitFieldJoin` | csv_report.go:32-33 | A joined field reads back as the original list when its elements are non-empty and `;`-free. This includes the empty list, which is written as the empty field. |
| `Report.Row` | csv_report.go:36-42 | A data row has exactly as many fields as the header, five. It is built from the record alone, without the map key. |
| `Report.RowRoundTrip` | csv_report.go:32-42 | The row is URL, H1, FirstParagraph, joined links and joined images, in that order. Reading it back gives the record, list order included. |
| `Report.Rows` | csv_report.go:30-48 | The i-th row is the row of the page under the i-th key visited. |
| `Report.WriteRows` | csv_report.go:30-48 | Visits distinct keys in an unspecified order and writes one row per key. It stops at the first failing Write. If no Write fails, every key was visited. |
| `Report.WriteCSVReport` | csv_report.go:11-56 | Each of the four errors is returned exactly when its call is the first to fail: create, the header Write, some row Write, then the final `writer.Error()` check. A create failure or a header failure writes nothing. Otherwise the written rows are the header followed by the rows of distinct keys. A row failure stops before the failing row. Success holds exactly when the file is created, all `|pages| + 1` writes succeed and the final check passes. Then `|pages| + 1` rows are written. |
| `Cli.Atoi` | main.go:31-41 | Accepts an optional sign followed by ASCII digits, and only values within Go's 64-bit int range. |
| `Cli.AtoiItoa` | main.go:31-41 | Every 64-bit int written in decimal parses back to itself. |
| `Cli.ParseArgs` | main.go:16-59 | The checks run in order. Fewer than three arguments is an error, and so is more than three. A non-integer maxConcurrency is reported whatever maxPages is. A non-integer maxPages is reported before either range check. The range check on maxConcurrency comes before the one on maxPages. The URL is parsed last, and an unparsable URL is reported as such exactly when every earlier check passed. Acceptance holds exactly when all checks pass, and then the settings are the parsed values. |
| `Cli.AcceptsDecimalArgs` | main.go:16-59 | Every command line made of a parseable URL and two positive ints in decimal is accepted with exactly those values. |
| `Cli.Run` | main.go:11-94 | Fails exactly when argument validation fails, with the same error, and then crawls nothing. Otherwise it runs one seed task on the raw seed URL, first. The reported count is the final `|pages|`, which is at most maxPages. Every key is the normalised form of a crawled URL on the seed host. The seed's key is registered when the seed normalises. A seed with no links gives exactly one page. Every spawned task has run before the count is read: the returned task history has nothing queued. A registered task whose page yields links expanded it. Below the limit, every crawled URL on the seed host has its key registered. Every key was registered by a crawled task that normalises to it and took a registered exit. Every registered exit claimed a distinct fresh key of a URL on the seed host. |

## Left out

- Goroutines, `sync.Mutex`, `sync.WaitGroup` and the channel semaphore: the crawl is modelled as one task at a time. Under real interleaving the limit check (crawl_page.go:11-16) and the insert (config.go:30) are separate critical sections, so `|pages| <= maxPages` is proved only for sequential runs.
- HTTP (`getHTML`, with its status and content-type checks), `url.Parse` and `ResolveReference`, the goquery extractors and `normalizeURL`: these are uninterpreted collaborators. The source of `normalizeURL` is not part of this model.
- Printing, `os.Exit` and the printed per-page lines (main.go:61-65, 90-98): an `Err` result stands for exit status 1.
- CSV quoting, file creation and flushing: these are the CSV library's and the OS's job. A row is its field values, and each I/O call's outcome is an input. The `Flush` that csv_report.go:21 defers runs after the `writer.Error()` check, so its error is never reported. The model does not represent that flush.
- Map iteration order: it is not fixed, so the report writes rows in an arbitrary order of distinct keys, and no order is asserted.
- `strconv.Atoi` error kinds: range errors and syntax errors are both `None`.
