# News scraper core, modelled in Dafny

`NewsScraper` (`src/news_scrapper.py`) searches a news site, reads each result
on the page, keeps the results dated within the last `months` × 30 days,
enriches them and writes them to a spreadsheet. This project models the part
of it that processes data:

- the text and date utilities `clean_text`, `count_search_phrases`,
  `contains_money` and `is_within_months`;
- how `download_image` derives the image file name, and its "" on failure;
- the per-article loop of `search_news`, and the rows that `save_to_excel`
  writes.

Modules, one per component:

- `TextUtil` (`text.dfy`): character classes and `clean_text`.
- `Phrases` (`phrases.dfy`): Python's `str.count` and `count_search_phrases`.
- `MoneyPattern` (`money.dfy`): a hand-written matcher for the money regular
  expression, proved equal to a direct reading of the pattern.
- `Recency` (`recency.dfy`): the month window.
- `Image` (`image.dfy`): `url.split("/")[-1]`, `os.path.join` as it behaves
  on POSIX systems, and `download_image`.
- `Pipeline` (`pipeline.dfy`): the generic order-preserving filter that the
  loop's shape follows, with its list lemmas.
- `Scraper` (`scraper.dfy`): the result element as a value, the per-article
  step, the collected records, the spreadsheet rows, and the class
  `NewsScraper`, whose methods `SearchNews` and `SaveToExcel` are the source's
  two loops.
- `Wrappers` (`wrappers.dfy`): `Option`.

The following are inputs to the model, because it cannot see them:

- `now` is the clock. An instant is a count of microseconds since
  0001-01-01 00:00, the earliest value `datetime` can hold.
- `parse` stands for `datetime.fromisoformat`. It gives None where that
  function raises.
- `fetch(url, filename)` tells whether the HTTP download succeeded.
- `page` holds the result elements in page order. It is None when a browser
  step before the loop raises.

Each result element is a `Candidate` that records what each of the six
`find_element` lookups returned. A missing element is None.

Characters are handled as ASCII: `\s`, `\d`, `\w`, `str.lower()` and
`re.IGNORECASE` are modelled on their ASCII part. Whitespace follows Python's
own ASCII table: 0x09–0x0D, 0x1C–0x1F and the space.

Facts about the code that the model follows:

- Configuration keys are not checked when the file is loaded. A missing key
  raises `KeyError` inside `search_news`'s `try` (src/news_scrapper.py:49-53,
  102-105). The error is caught and logged, and an empty spreadsheet is
  written.
- `clean_text` keeps only `a-zA-Z`, digits and whitespace
  (src/news_scrapper.py:149-150). Accented letters are removed.
- `months` may be any integer (src/news_scrapper.py:52, 107-110). A negative
  count gives an empty window. When the window's start would fall before
  0001-01-01, `datetime - timedelta` raises `OverflowError`. At a current
  date in 2026 that happens from about 24,664 months. From 121,736 months
  (3,652,059 days) it happens for every possible current time. From
  33,333,334 months `timedelta(days=30 * months)` itself raises
  `OverflowError`. The error is raised inside the loop's `try`, so every
  article is dropped.

## Model

| member | source | states |
|---|---|---|
| TextUtil.CleanText | src/news_scrapper.py:149-150 | the output has only ASCII letters, digits and whitespace, and is no longer than the input |
| TextUtil.CleanTextCounts | src/news_scrapper.py:149-150 | every kept character occurs in the output exactly as often as in the input; every other character does not occur |
| TextUtil.CleanTextIsSubsequence | src/news_scrapper.py:149-150 | the output is the input with characters deleted, in the original order |
| TextUtil.CleanTextKeepsClean | src/news_scrapper.py:149-150 | a text made only of kept characters is returned unchanged |
| TextUtil.CleanTextIdempotent | src/news_scrapper.py:149-150 | cleaning twice is the same as cleaning once |
| TextUtil.CleanTextConcat | src/news_scrapper.py:149-150 | cleaning a concatenation is the concatenation of the cleaned parts, so characters are judged one at a time |
| TextUtil.CleanTextExample | src/news_scrapper.py:149-150 | "Apple's $100 deal!" becomes "Apples 100 deal" |
| Phrases.Count | src/news_scrapper.py:113 | `str.count`: an empty substring counts \|s\| + 1; otherwise the count is positive exactly when the substring occurs |
| Phrases.CountSearchPhrases | src/news_scrapper.py:112-113 | for a non-empty phrase, the count is positive exactly when the lower-cased phrase occurs in the lower-cased title or description |
| Phrases.CountFrom | src/news_scrapper.py:113 | the left-to-right non-overlapping count from an index is positive exactly when the phrase occurs at or after that index |
| Phrases.CountFromIsUpperBound | src/news_scrapper.py:113 | no set of non-overlapping occurrences at or after an index is larger than the scan's count |
| Phrases.CountIsMaximalNonOverlapping | src/news_scrapper.py:113 | for a non-empty phrase, `str.count` equals the largest number of non-overlapping occurrences: some set that large exists and none is larger |
| Phrases.SearchPhraseCountIsMaximal | src/news_scrapper.py:112-113 | the phrase count is the sum of the maximal non-overlapping case-insensitive counts in title and description, each counted on its own |
| Phrases.SearchPhraseCountIgnoresCase | src/news_scrapper.py:112-113 | lower-casing the title, description or phrase beforehand does not change the count |
| Phrases.SearchPhraseCountEmptyPhrase | src/news_scrapper.py:112-113 | an empty phrase counts \|title\| + \|description\| + 2, Python's empty-substring rule for each field |
| Phrases.SearchPhraseCountExample | src/news_scrapper.py:112-113 | title "Dollars and Dollars", description "dollars" and phrase "dollars" give 3 |
| MoneyPattern.SearchFrom | src/news_scrapper.py:116 | a match found from an index needs a dollar sign or a digit at or after that index |
| MoneyPattern.Matches | src/news_scrapper.py:116 | `re.search` succeeds only on a text that holds a dollar sign or a digit |
| MoneyPattern.MatchesIff | src/news_scrapper.py:116 | the hand-written matcher accepts a text if and only if some substring matches `\$[\d,]+` or `\b\d+\s+(dollars\|usd)\b`, with case-insensitive keywords |
| MoneyPattern.ContainsMoney | src/news_scrapper.py:115-117 | true if and only if the pattern occurs in the title or in the description |
| MoneyPattern.ContainsMoneySymmetric | src/news_scrapper.py:115-117 | swapping title and description does not change the answer |
| MoneyPattern.DollarExamples | src/news_scrapper.py:116 | "Price: $1,200.50" matches, and so does "$," |
| MoneyPattern.AmountExample | src/news_scrapper.py:116 | "50 dollars paid" matches |
| MoneyPattern.NoMoneyExample | src/news_scrapper.py:115-117 | "no money here" does not match |
| Recency.IsWithinMonths | src/news_scrapper.py:107-110 | None exactly when `timedelta` or `datetime` would overflow; otherwise true if and only if now − 30·months days ≤ t ≤ now, inclusive at both ends |
| Recency.WithinMonthsMonotone | src/news_scrapper.py:107-110 | an article inside the window for m months is inside it for any larger m whose window can be computed |
| Recency.WithinZeroMonths | src/news_scrapper.py:107-110 | with zero months only the current instant passes |
| Recency.WithinNegativeMonths | src/news_scrapper.py:107-110 | a negative month count passes nothing |
| Recency.WithinMonthsOverflows | src/news_scrapper.py:107-110 | 30·months ≥ 3,652,059 days raises for every current time |
| Recency.WithinMonthsDefined | src/news_scrapper.py:107-110 | a window that starts at or after the earliest instant never raises |
| Image.LastSegment | src/news_scrapper.py:121 | the segment contains no '/', is a suffix of the URL, and is either the whole URL or preceded by '/' |
| Image.LastSegmentOfJoin | src/news_scrapper.py:121 | for a prefix that is empty or ends in '/', the last segment of prefix + name is name when name has no '/' |
| Image.PathJoin | src/news_scrapper.py:121 | joining a name without '/' keeps the directory as a prefix of the result, and the name is the result's last segment |
| Image.ImageFilename | src/news_scrapper.py:121 | the name ends in ".jpg"; for a directory without a trailing '/' it is the directory, '/', the URL's last segment and ".jpg" |
| Image.DownloadImage | src/news_scrapper.py:119-127 | "" when the URL is missing or the download fails, otherwise the derived file name; it never raises |
| Scraper.Extract | src/news_scrapper.py:70-80 | fields are read exactly when all six sub-elements exist; title and description are element texts, date and image URL the `datetime` and `src` attributes |
| Scraper.ArticleDate | src/news_scrapper.py:82 | a missing or empty date attribute gives now; otherwise the attribute minus its last character is parsed |
| Scraper.MakeRecord | src/news_scrapper.py:85-93 | title and description are cleaned; the phrase count and the money flag are computed from the raw texts; the image name comes from the download |
| Scraper.Process | src/news_scrapper.py:69-99 | a record is produced if and only if the candidate is well formed, its date parses and the date is in the window; the record's date is in the window and its texts are clean |
| Scraper.MissingDateKept | src/news_scrapper.py:82-110 | a well-formed article with a missing or empty date is kept whenever its window starts at or after the earliest instant, including for zero months |
| Scraper.Collect | src/news_scrapper.py:68-99 | at most one record per candidate; no record at all exactly when no candidate is kept |
| Scraper.CollectIsFilter | src/news_scrapper.py:68-99 | the collected records are exactly those of the kept candidates in page order: the k-th record is from the k-th kept candidate, and a candidate is kept if and only if its position is listed |
| Scraper.CollectSkipsDropped | src/news_scrapper.py:68-99 | a dropped candidate leaves the records of the candidates before and after it unchanged |
| Scraper.CollectedRecordsInWindow | src/news_scrapper.py:84-97 | every collected record is dated within [now − 30·months days, now], with a clean title and description |
| Scraper.FailedDownloadKeepsRecord | src/news_scrapper.py:84-97 | a kept candidate whose image is missing or fails to download still yields its record, with image file name "" |
| Scraper.RowOf | src/news_scrapper.py:136-143 | a record's row has six cells; the k-th is the record's field named by the k-th header |
| Scraper.NewsScraper.constructor | src/news_scrapper.py:22-29 | the scraper holds the given configuration; its output directory is "output" |
| Scraper.NewsScraper.SearchNews | src/news_scrapper.py:47-105 | the loop collects exactly the records given by Collect on the page, or none when the page could not be reached; the rows are written from them in either case |
| Scraper.NewsScraper.SaveToExcel | src/news_scrapper.py:129-147 | the workbook is "output/news_data.xlsx"; the rows are the six-column header followed by exactly one row per record, in the same order |

## Left out

- Browser driving (`open_available_browser`, clicks, waits, `dismiss_overlays`, `close_browser`): this is foreign UI automation. `page` and the `Candidate` values stand for its results.
- The HTTP download, and the files it writes: this is foreign I/O. `fetch` is a function of the URL and the file name, so the model cannot express two downloads of the same URL with different outcomes.
- The spreadsheet library (`create_workbook`, `create_worksheet`, `save_workbook`), and a failure part-way through writing: this is foreign I/O. The model computes the rows the library is given.
- `load_config`, the JSON file, `os.makedirs`, `setup_logging`, `logging` and `print`: these are file I/O and logging. The configuration is a typed value, so a missing or mistyped key cannot occur in the model.
- `tasks.py`: it only constructs the scraper, searches and closes the browser.
- Scraper.ArticleDate: the source reads the clock once for a missing date (src/news_scrapper.py:82) and again in `is_within_months` (src/news_scrapper.py:108), for each article. The model reads one `now` for the whole page. For months ≥ 1 the difference does not matter for an article with a missing date. For months = 0 the source keeps such an article only if both clock reads give the same instant, while the model always keeps it (Scraper.MissingDateKept).
- Scraper.ArticleDate: `parse` is abstract. A naive/aware `datetime` comparison that raises `TypeError` is treated as a parse that gives None.
- MoneyPattern.ContainsMoney: only ASCII character classes are modelled. Non-ASCII digits, whitespace and word characters, and `re.IGNORECASE`'s non-ASCII case folding, are not captured. For example, U+017F 'ſ' folds to 's', so Python matches "5 dollarſ" and the model does not.
- TextUtil.CleanText: only ASCII whitespace is recognised. Python's `\s` also keeps non-ASCII whitespace such as U+00A0, which the model removes.
- Phrases.CountSearchPhrases: `str.lower()` is modelled on ASCII only.
- Image.ImageFilename / Scraper.NewsScraper.SaveToExcel: path joining is modelled as POSIX `posixpath.join`. On Windows `os.path.join` is `ntpath.join`, which uses '\\' and drive letters; that is not modelled.
- Scraper.Extract: the `else ""` branch of the description read is not modelled. `find_element` raises rather than returning nothing, so that branch is never taken.
