# A verified model of a multithreaded same-domain web crawler

The crawler starts from one URL and collects every link it can reach without
leaving the domain. On each page it finds the `<a href="http(s)://...">`
links, drops links whose text ends with a dot and one of twelve listed
endings (ten file extensions such as `jpg`, `pdf` and `zip`, plus the words
`download` and `upload`), keeps those whose text contains the domain token,
and offers each kept link to one shared visited set. A link that this add-if-absent call admits is
crawled as a task of its own. A page then waits for its tasks and adds their
results to the visited set. The visited set is the final answer. The default
page fetcher makes up to five attempts, pausing 1, 2, 4 and 8 seconds after
timeouts, and every attempt appends to the same text buffer.

The model has four modules:

- `LinkFilter` (`link_filter.dfy`) models `extractLinks`.
  - The anchor pattern is abstracted. A page is the sequence of strings the
    pattern captures, in document order.
  - Exclusion is the whole-string match of `.*\.(jpg|...|upload)$` with Java's
    semantics. It is case-sensitive, and `.` matches no line terminator. A
    captured link that contains `\n`, `\r`, U+0085, U+2028 or U+2029 is
    therefore never excluded.
  - The domain filter is substring containment.
  - Two reference formulations are proved equivalent to the pattern form: "the
    text after the last dot is listed" and "ends with a dot and a listed
    extension". `contains` is proved equivalent to an `indexOf` search.
- `PageFetcher` (`page_fetcher.dfy`) models `DefaultPageFetcher`.
  - The network is a function from the attempt number to what that attempt
    yields: its chunks, and how it ends (end of stream, socket timeout, or any
    other exception).
  - Pauses are recorded instead of slept.
  - The text buffer is a `StringBuilder` class, appended to in place by every
    attempt.
- `Crawl` (`crawl.dfy`) models both `collectLinks` methods.
  - The shared visited set is a `VisitedSet` class with an atomic `Add`
    (add-if-absent) and `AddAll`.
  - The page fetcher is a finite map from URL to either `FetchFailed` (the
    fetch threw) or the page's captured hrefs. A URL the map lacks fails.
  - The crawl is the recursive method `CrawlPage`. `Admit` is the admission
    loop, and `Join` and `AwaitChild` are the loop over the futures.
  - `CollectLinks` returns exactly the links reachable from the seed in the
    link graph, where a page's edges are the links its filters keep. Every URL
    except the seed is fetched at most once.
  - The fetch log is a ghost output. The seed may be fetched twice, because it
    is never put into the visited set itself. It is fetched again when some
    page links back to it.
- `Scenarios` (`scenarios.dfy`) turns the unit tests into concrete fetchers.
  It proves the exact set the code returns for each of the five tests.

The crawl is modelled under one schedule the concurrent program can take:
- a page first admits all of its links;
- its children are then crawled one after another, and each child is awaited
  before the next one starts.

Under this schedule every link admitted by anyone is crawled exactly once,
and the result is the reachable set.

Where a test expects something the code does not do, the model follows the
code. The test at `src/test/java/CrawlerTest.java:108-130` expects the
`.mp3` link to be dropped. No listed extension covers it, so the code keeps
it, and `Scenarios.ExcludesListedMedia` proves the result `{news, mp3}`. The
test at `src/test/java/CrawlerTest.java:132-153` expects a relative href to
be resolved and collected. The anchor pattern only captures `http://` and
`https://` links, so the code never sees it, and
`Scenarios.IncludeRelativeUrl` proves the result is the news link alone.

## Model

| member | source | states |
|---|---|---|
| LinkFilter.ExtractLinks | src/main/java/Main.java:155-166 | The result holds a captured link exactly when it is not excluded by the extension pattern and contains the domain token; it equals the capture-by-capture set `KeptLinks`. |
| LinkFilter.KeptLinksMembership | src/main/java/Main.java:160-164 | A link is in a page's kept set if and only if it was captured, is not excluded and contains the domain. |
| LinkFilter.KeptLinksIgnoresRepeats | src/main/java/Main.java:156-163 | Capturing a link a second time leaves the result set unchanged. |
| LinkFilter.ExcludedIffLastExtension | src/main/java/Main.java:162 | A link is excluded exactly when it has no line terminator and the text after its last dot is one of the twelve listed endings. |
| LinkFilter.ExcludedIffEndsWithExtension | src/main/java/Main.java:162 | A link is excluded exactly when it has no line terminator and ends with a dot followed by one of the twelve listed endings. |
| LinkFilter.ContainsIffIndexOf | src/main/java/Main.java:163 | The domain test holds exactly when the first-occurrence search finds the domain at some index. |
| LinkFilter.IndexOf | src/main/java/Main.java:163 | The search returns the first index at or after its start where the token occurs, or -1 when there is none. |
| PageFetcher.FetchPageContent | src/main/java/Main.java:64-92 | At most five attempts; every attempt before the last timed out; the pauses are the backoff schedule; end of stream returns the text from all attempts so far; any other exception fails at once; a fifth timeout fails with retries exhausted. |
| PageFetcher.BufferInputStream | src/main/java/Main.java:94-108 | Appends every chunk of the attempt to the shared buffer, also when the attempt then fails, and returns the whole buffer only at end of stream. |
| PageFetcher.StringBuilder.Append | src/main/java/Main.java:101 | The buffer becomes its old text followed by the chunk. |
| PageFetcher.BackoffSchedule | src/main/java/Main.java:87 | The pause after the k-th timeout is 1000 * 2^(k-1) milliseconds. |
| PageFetcher.BackoffScheduleValues | src/main/java/Main.java:59-87 | The pauses of a fetch whose first four attempts time out are 1000, 2000, 4000 and 8000 ms. |
| PageFetcher.BackoffDoubles | src/main/java/Main.java:87 | The first pause is one second and each pause doubles the one before. |
| PageFetcher.BufferedIsAllChunks | src/main/java/Main.java:65-101 | The returned text is the concatenation of every chunk read by every attempt, in order, including attempts that timed out. |
| Crawl.VisitedSet.Add | src/main/java/Main.java:130 | Add-if-absent: reports whether the link was absent, and the link is in the set afterwards. |
| Crawl.VisitedSet.AddAll | src/main/java/Main.java:138 | The set becomes its union with the given links. |
| Crawl.Crawler.Admit | src/main/java/Main.java:129-134 | Every link of the page is added to the visited set; the links this page admitted are those that were absent, and each becomes exactly one child. |
| Crawl.Crawler.CrawlPage | src/main/java/Main.java:122-147 | A failed fetch changes nothing and returns the empty set; otherwise the page returns the links it admitted, all its links end up visited, every newly visited link is reachable from it and has its own links visited, and each newly visited link is fetched exactly once. |
| Crawl.Crawler.CrawlLinks | src/main/java/Main.java:126-142 | Offering a fetched page's links and awaiting its children leaves every link of the page, and every link of every newly visited page, in the visited set. |
| Crawl.Crawler.Join | src/main/java/Main.java:136-142 | Awaiting all children in order crawls each admitted link once and keeps the visited set closed under the links of newly visited pages. |
| Crawl.Crawler.AwaitChild | src/main/java/Main.java:137-138 | Awaiting one child adds its result, which is already visited, and carries the loop invariant of the join past that child. |
| Crawl.Crawler.CollectLinks | src/main/java/Main.java:113-120 | The result is exactly the set of links reachable from the seed; a seed whose fetch fails gives the empty set; the URLs fetched after the seed are the result, each exactly once. |
| Crawl.Crawler.ClosedContainsReachable | src/main/java/Main.java:122-147 | A set holding the seed's links and the links of each of its members holds every link reachable from the seed. |
| Crawl.Crawler.ReachableHasLinkingPage | src/main/java/Main.java:125-131 | Every reachable link was kept on some successfully fetched page that is the seed or is itself reachable. |
| Crawl.Crawler.PrependEdge | src/main/java/Main.java:130-132 | A link reachable from an admitted child is reachable from its parent. |
| Crawl.ListsOnceMeans | src/main/java/Main.java:130-132 | The fetch log lists every crawled link and nothing else, and its entries are pairwise distinct. |
| Scenarios.IgnoresExternalLinks | src/test/java/CrawlerTest.java:15-40 | With the same page served for every URL, the crawl of `https://example.com` returns exactly page1 and page2, without the external link. |
| Scenarios.MultipleSubpages | src/test/java/CrawlerTest.java:42-80 | For the four-page site, where pages 3 and 4 serve a page without links, the crawl returns exactly page1 to page4. |
| Scenarios.IncludesSubdomain | src/test/java/CrawlerTest.java:82-106 | For the domain `orf.at` the crawl returns exactly the news link and the `kids.orf.at` link. |
| Scenarios.ExcludesListedMedia | src/test/java/CrawlerTest.java:108-130 | The jpeg link and the gitlab link are dropped, and the result is exactly the news link and the mp3 link. |
| Scenarios.IncludeRelativeUrl | src/test/java/CrawlerTest.java:132-153 | With the page of the relative-href test served for every URL, the crawl of `https://orf.at` returns exactly the news link; the relative href `/doc/` is not in the result. |
| Scenarios.UniformSiteReach | src/test/java/CrawlerTest.java:18-19 | When every fetched page serves the same captures, the reachable links are exactly the kept captures. |
| Scenarios.Mp3Kept | src/main/java/Main.java:162 | A link ending in `.mp3` passes both filters for its own domain. |
| Scenarios.JpegExcluded | src/main/java/Main.java:162 | A link ending in `.jpeg` is excluded. |

## Left out

- The HTTP connection is not modelled: request method, timeouts and user agent. The network is the function from the attempt number to that attempt's outcome.
- `Thread.sleep` is not modelled. The pauses are returned as a list of milliseconds.
- Debug logging and `getFullErrorMessage` are left out. They print only.
- The anchor pattern at Main.java:157 is not modelled. It runs a case-insensitive regular-expression search over the page text, and a page is given by the hrefs that pattern captures. The model therefore does not show that relative hrefs are never captured.
- URI parsing is not modelled. `collectLinks` passes the seed's host as the domain token, and the model takes that token as a parameter. A seed without a host (null token) is not modelled.
- The connection between the default fetcher and the crawler is not modelled. Any fetch that throws is `FetchFailed`, whether the retries were exhausted or another exception occurred.
- Concurrency is not modelled: the thread pool, interleavings of tasks, and the 60-second timeout when awaiting a child. The crawl follows the sequential schedule described above. A timed-out or failed child is not modelled, and under it the result can be smaller than the reachable set.
- `shutdownExecutor` is not modelled. A second call of `collectLinks` on the same instance would find the pool shut down.
- Only the link filter applies letter-case and line-terminator semantics. The crawler compares URLs as plain strings, as the hash sets do.
