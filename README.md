# China Daily feed adapter, modelled in Dafny

This project models the site-specific logic of the China Daily adapter of a
Kindle feed-aggregation tool (`books/chinadaily.py`). HTML pages are treated
as pre-parsed records. The project covers four pieces of logic:

- **Listing walker** (`ParseFeedUrls`, `ParsePageContent`), in `listing.dfy`.
  It walks each topic's chain of listing pages with a running `count`. An
  entry is counted before anything else is checked. Past
  `max_articles_per_feed` the walk stops. A too-old entry is skipped but has
  used its slot. A "Next" page is followed only while `count` is below the
  cap. Each kept entry appends `(topic, title, link, None)` to one shared
  list. A failed fetch logs a warning and ends that topic.
  - `Scan` (one page's entries), `Walk` (one topic) and `CollectFeeds` (all
    topics) are the specification functions.
  - The class `ChinaDaily` holds the imperative methods. Their loops append to
    an `ArticleList`, which models the shared Python list.
  - `Chain` and `Kept` are reference definitions. `Chain` gathers the
    candidates page by page and stops following "Next" once it holds
    `max_articles_per_feed` of them, so it ends exactly when the walk does,
    also on a "Next" cycle that the cap cuts off. They show that a topic gets
    the not-too-old entries among the first `max_articles_per_feed` entries of
    that chain of pages.
- **Recency test** (`OutTimeRange`), in `recency.dfy`. Elapsed time is in
  whole seconds. A setting of at most 365 counts days, a larger one counts
  seconds, and a setting of 0 or less switches the test off.
- **Title cleanup** (`processtitle`), in `titles.dfy`. It removes every
  occurrence of `" - Chinadaily.com.cn"`, scanning left to right, as Python's
  `str.replace` does.
- **Article stitcher** (`SplitJointPagination`), in `stitcher.dfy`. The
  pages that the successive "Next" links return are a finite sequence. If that
  sequence ends before a page without "Next" is reached, a fetch failed, and
  the result is an error.

Points where the code reads differently from its own comments or from what
a reader of the adapter would expect; the model follows the code:
- `OutTimeRange` tests `oldest_article > 0`, so a negative setting also turns
  the test off. The comment at `books/chinadaily.py:41` mentions only 0.
- The tuple stores the raw link text as the title. `processtitle` is not
  called in `ParsePageContent`; any caller of it lies in the base class,
  which is not part of this model.
- The stitcher puts the pages' fragments newest first (C, B, A), although
  the comment at `books/chinadaily.py:136` speaks of merging the earlier
  content into the current page. See "## Findings".

## Model

| member | source | states |
|---|---|---|
| `Recency.OutTimeRange` | books/chinadaily.py:94-111 | an article is too old only if the setting is positive, it has a date, and its elapsed time is positive |
| `Recency.Threshold` | books/chinadaily.py:103-106 | the cutoff in seconds is positive and never below the setting itself |
| `Recency.DisabledNeverOutOfRange` | books/chinadaily.py:98-111 | a setting of 0 or less never filters, whatever the dates |
| `Recency.UndatedNeverOutOfRange` | books/chinadaily.py:96-98 | an article without a date is never too old |
| `Recency.DayBoundaries` | books/chinadaily.py:103-109 | with N days, elapsed N days or N days minus a second is kept; N+1 days, or N days plus a second, is dropped (strict comparison) |
| `Recency.SecondsBoundaries` | books/chinadaily.py:103-108 | with a setting N above 365, counted in seconds, an article N seconds old is kept and one N+1 seconds old is dropped |
| `Recency.UnitSwitchAt365` | books/chinadaily.py:103-106 | 365 means 365 days but 366 means 366 seconds |
| `Recency.FutureNeverOutOfRange` | books/chinadaily.py:101-109 | zero or negative elapsed time is never too old |
| `Recency.OutOfRangeIsMonotone` | books/chinadaily.py:101-109 | a too-old article stays too old at any later time |
| `Titles.ProcessTitle` | books/chinadaily.py:114-115 | the result is never longer than the title |
| `Titles.RemovesWholeSuffixes` | books/chinadaily.py:115 | the title gets shorter by a whole number of 20-character suffixes |
| `Titles.UnchangedIffNoOccurrence` | books/chinadaily.py:115 | a title changes exactly when it contains the suffix, and then it gets strictly shorter |
| `Titles.StripsSuffixAfterCleanPrefix` | books/chinadaily.py:115 | a part with no occurrence is kept and the suffix right after it is removed |
| `Titles.StripsAppendedSuffix` | books/chinadaily.py:115 | `t + " - Chinadaily.com.cn"` cleans to `t` when `t` holds no occurrence |
| `Titles.NotIdempotent` | books/chinadaily.py:115 | cleanup is not idempotent: removing one occurrence can create another |
| `Listing.Resolve` | books/chinadaily.py:69-72 | one candidate per entry of the page |
| `Listing.ResolveAt` | books/chinadaily.py:69-72 | each entry keeps its title and date, and its link is its href resolved against the page it was found on, in document order |
| `Listing.Scan` | books/chinadaily.py:69-81 | the loop over one page's entries never lowers the count, and adds no more tuples than the entries it counted |
| `Listing.ScanTopic` | books/chinadaily.py:81 | every tuple a page adds is `(topic, title, link, None)` for the walk's topic |
| `Listing.ScanSelects` | books/chinadaily.py:69-81 | a page keeps exactly the not-too-old entries among the first `max_articles_per_feed - count`, in order |
| `Listing.ScanCount` | books/chinadaily.py:73-76 | every entry seen is counted, whatever its age; past the cap the count stops one beyond it |
| `Listing.ScanCap` | books/chinadaily.py:73-81 | a page adds no more tuples than the cap has room for, nor more than it counted |
| `Listing.SkippedEntryUsesSlot` | books/chinadaily.py:73-79 | a too-old entry below the cap adds nothing but still raises the count by one |
| `Listing.ScanAppend` | books/chinadaily.py:84-87 | scanning two lists one after the other, carrying the count, keeps the same tuples as scanning them joined |
| `Listing.Walk` | books/chinadaily.py:58-91 | a walk of one topic that completes logs at most one warning |
| `Listing.WalkCap` | books/chinadaily.py:58-91 | across any number of pages a topic gets at most `max_articles_per_feed - count` tuples |
| `Listing.WalkWarnsOnce` | books/chinadaily.py:60-62 | a topic logs at most one warning; a failed fetch adds nothing, names its URL, and visits no further page |
| `Listing.WalkAtCap` | books/chinadaily.py:73-76 | once the count has reached the cap, nothing more is added |
| `Listing.WalkFuelIrrelevant` | books/chinadaily.py:84-87 | the result of a walk does not depend on the page bound, once the walk fits in it |
| `Listing.WalkScansChain` | books/chinadaily.py:84-87 | the count is carried into the next page: the walk completes exactly when the chain of pages does, and keeps what one scan of that chain keeps |
| `Listing.TopicSelectsFromChain` | books/chinadaily.py:47-91 | a topic walked from 0 keeps the not-too-old entries among the first `max_articles_per_feed` of its chain |
| `Listing.CapEndsCycle` | books/chinadaily.py:73-87 | a page whose "Next" leads back to itself is walked until the cap stops it, and its entry is appended twice with a cap of 2 |
| `Listing.WalkTopic` | books/chinadaily.py:81 | every tuple of a walk carries that walk's topic and an empty content |
| `Listing.CollectFeeds` | books/chinadaily.py:44-55 | a collection over some feeds that completes logs at most one warning per feed |
| `Listing.CollectTopics` | books/chinadaily.py:47-51 | the collected tuples come only from the configured topics |
| `Listing.CollectCap` | books/chinadaily.py:44-55 | with distinct topics, each topic gets at most `max_articles_per_feed` tuples, and at most one warning is logged per feed |
| `Listing.CollectPrefix` | books/chinadaily.py:47-51 | a collection that completes over all feeds completes over each prefix of them |
| `Listing.ArticleList.Append` | books/chinadaily.py:81 | the list grows by exactly the appended tuple |
| `Listing.ChinaDaily.ScanEntries` | books/chinadaily.py:69-81 | the loop over one page's entries appends exactly the tuples `Scan` keeps, after the list's old contents, and ends with `Scan`'s count |
| `Listing.ChinaDaily.ParsePageContent` | books/chinadaily.py:58-91 | the shared list keeps its old contents as a prefix and gains the walk's tuples in page and entry order; a failed fetch appends a warning |
| `Listing.ChinaDaily.ParseFeedUrls` | books/chinadaily.py:44-55 | the result is every topic's walk, each from a count of 0, in feed order |
| `Stitcher.SplitJointPagination` | books/chinadaily.py:127-143 | a page without "Next" is returned unchanged; a successful result has no "Next" |
| `Stitcher.StitchNewestFirst` | books/chinadaily.py:129-141 | the result is the first page without "Next", holding its own fragments and then every earlier page's, newest first |
| `Stitcher.StitchFailsPastChain` | books/chinadaily.py:133-135 | if the fetched pages run out before a page without "Next", the result is the fetch error for the last href |
| `Stitcher.ThreePagesReversed` | books/chinadaily.py:137-141 | pages A, B, C come out as C, B, A |
| `Stitcher.SplitJointPaginationInOrder` | books/chinadaily.py:137-139 | the corrected stitcher: a page without "Next" is returned unchanged; a successful result has no "Next" |
| `Stitcher.StitchInOrder` | books/chinadaily.py:137-139 | with the correction, the first page without "Next" holds every page's fragments in page order |
| `Stitcher.ThreePagesInOrder` | books/chinadaily.py:137-139 | with the correction, pages A, B, C come out as A, B, C |

## Findings

| source | as written | input that shows it | evidently intended | confidence | as-written member | corrected member |
|---|---|---|---|---|---|---|
| books/chinadaily.py:139 | the older pages' fragments are appended after the next page's own fragments | a three-page article A, B, C linked by "Next" | the article body reads A, B, C | not executed; medium (the bs4 `append` semantics are taken from its documentation) | `Stitcher.ThreePagesReversed` | `Stitcher.StitchInOrder` |

## Left out

- HTTP fetching (`GetResponseContent`, `URLOpener`, lines 146-148) is not modelled. The listing walker gets a finite map `fetch` instead. It holds the pages whose request succeeds. A URL outside the map stands for a status other than 200 or an empty body.
- The warning's text (`URLOpener.CodeMap`, lines 90-91) is not modelled. The log keeps only the failing URL.
- HTML parsing and serialisation with BeautifulSoup/lxml are not modelled. Pages are records. The entry selector, the "Next" anchor search and `unicode(content)` in `preprocess` (lines 118-124) are not part of this model.
- An entry whose `a` tag has no single string child gets the title `None` in the source. This model always has a string title.
- `datetime.utcnow` and `strptime` are not modelled. Dates are integer seconds. The source reads the clock again for every entry; the model uses one `now` per run. A malformed date string raises an exception in the source, and the model has no way to represent such a string.
- `BaseFeedBook.urljoin` and the base class are not part of this model. `join` is an uninterpreted function. So the resolution of a relative link such as `/china/x` is not modelled.
- Listing.ChinaDaily.ParsePageContent: the source follows "Next" by recursion (line 87) with no page bound. On a "Next" cycle the cap does not cut off, such as pages without entries, CPython 2 raises `RuntimeError` (maximum recursion depth exceeded) after about 1000 nested calls. The exception leaves `ParseFeedUrls` (line 51), so no tuples of any topic are returned. The model does not represent that exception. Its walk takes a ghost page bound `fuel` and requires the walk to finish within it. `WalkFuelIrrelevant` shows that the bound does not change the result.
- Recency.Threshold: its own contract only bounds the cutoff. Its exact value for each unit is stated through `OutTimeRange` by `DayBoundaries` (settings 1 to 365) and `SecondsBoundaries` (settings above 365).
- Listing.ChinaDaily.ParseFeedUrls: likewise, it requires every topic's walk to finish within the page bound.
- Stitcher.SplitJointPagination: the fetched pages are a finite sequence instead of a fetch by href. The raw, unjoined href is only carried in the error. A failed fetch, or a page without `div#Content`, raises an exception in the source; here both are the single error `FetchFailed`. The model assumes the "Next" anchor is never part of the moved content; `soup.find` in the source could also find an anchor there.
- Static metadata and configuration (lines 16-41) and `getBook` (lines 10-11) are not modelled. `feeds`, `max_articles_per_feed` and `oldest_article` are fields of `Config`.
