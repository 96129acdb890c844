# LinkedIn job scraper — a Dafny model of its core

The program asks the operator for a job title and a location. It then walks
LinkedIn's job-search result pages 25 listings at a time. From each listing
card it takes the title, location, company and link, and it fetches the
listing's detail page for a description. Complete listings are appended to
one table. After each page that was walked without an error the operator is
asked whether to go on; a page without a result list, or an error, ends the
walk. At the end the table is shown, a non-empty description as its first 20
characters plus "..." and an empty one as "N/A", and, if the operator answers
exactly "y", it is written out.

This project models that core:

- `PyText` holds Python's `str.strip()` (the exact `str.isspace` set) and an
  ASCII `str.lower()`, with their properties.
- `Listings` covers one result page:
  - the description fallback (`JobDescription`);
  - the per-listing decision to abort, skip or keep (`Examine`);
  - the page loop as an imperative method (`ScrapePage`), proved against the
    specification function `ScanListings`;
  - the search terms the page loop leaves behind (`SearchAfter`).
- `Scraper` covers the pagination loop:
  - one step of it is the function `PageStep` and the whole run is `Crawl`;
  - `ScrapeResultsPage` is the imperative loop body, proved equal to
    `PageStep`;
  - `ScrapeLoop` is the imperative `while True` loop, proved equal to
    `Crawl`, both as written (`ScrapeLinkedIn`) and with the search terms
    kept apart (`ScrapeLinkedInPinned`);
  - lemmas give the counter, the page offsets, the rows collected and every
    way the loop can stop.
- `Report` covers the output side:
  - the description cell of the summary table;
  - the export gate;
  - the export file names;
  - the text export, with a parser that reads one block back.
- `Options` holds the `Option` type and `Seqs` a few generic sequence lemmas.

The browser and the HTTP session are inputs to the model:

- A search site is a function from a query (keywords, location, start offset)
  to what the result page shows. That is no result list, a list of listing
  cards, or an error while loading it.
- A listing card holds optional fields (`None` where the element is missing)
  and the outcome of its detail fetch.
- The operator's answers to "Scrape Next Page?" are a sequence of strings.
  Running out of answers is the `EOFError` that `input()` raises.

## Model

| member | source | states |
|---|---|---|
| PyText.StripSpec | E/linkedin_scrapper.py:95-97 | `strip()` leaves no whitespace at either end, and it yields "" exactly when the text is all whitespace |
| PyText.StripIsSlice | E/linkedin_scrapper.py:95-97 | the stripped text is a contiguous slice of the original, and everything cut off on either side is whitespace |
| PyText.StripFixesTrimmed | E/linkedin_scrapper.py:95-97 | text with no whitespace at its ends is left unchanged by `strip()`, and stripping twice equals stripping once |
| PyText.StripIdempotent | E/linkedin_scrapper.py:95-97 | `strip()` is idempotent |
| PyText.LowerChar | E/linkedin_scrapper.py:121 | `lower()` maps the i-th capital letter A-Z to the i-th small letter a-z and leaves every other character alone |
| Scraper.Declines | E/linkedin_scrapper.py:119-122 | the continue check holds exactly when the answer is "n" or "N"; every other answer, the empty one included, goes on |
| Listings.JobDescription | E/linkedin_scrapper.py:59-68 | a detail page without a description element gives ""; otherwise the result is the element's text, stripped; the result has no whitespace at its ends and is "" exactly when the element is missing or its text is all whitespace |
| Listings.Examine | E/linkedin_scrapper.py:95-102 | a listing aborts the run exactly when a card element is missing, its link is empty or its detail fetch fails; it is kept exactly when it does not abort and its stripped title, location and company and its link are all non-empty, and then with its stripped fields and its description; otherwise it is skipped |
| Listings.ScanListings | E/linkedin_scrapper.py:94-116 | each listing the page loop reads appends at most one row |
| Listings.ScanKeepsComplete | E/linkedin_scrapper.py:94-116 | every row the page loop appends has a non-empty title, location, company and link |
| Listings.ScanAbortsIff | E/linkedin_scrapper.py:94-116 | the page loop aborts exactly when some listing on the page is malformed |
| Listings.ScanWellFormed | E/linkedin_scrapper.py:94-116 | on a page with no malformed listing, the loop appends exactly the kept listings, in page order, and does not abort |
| Listings.ScanAbortsAt | E/linkedin_scrapper.py:94-129 | when listing k is the first malformed one, the loop keeps the rows of listings before k and aborts |
| Listings.SearchAfterIsLastRow | E/linkedin_scrapper.py:94-96 | after a page of well-formed listings, `job_title`/`job_location` hold the stripped title and location of the page's last listing, whether or not its row was kept; an empty page leaves them as they were |
| Listings.ScrapePage | E/linkedin_scrapper.py:94-116 | the imperative page loop appends exactly the rows `ScanListings` keeps and aborts exactly when it does; without an abort, `job_title`/`job_location` end as `SearchAfter` gives them |
| Scraper.PageStep | E/linkedin_scrapper.py:80-125 | one pass of the loop body appends the page's rows to the table and records the query, whether it stops or goes on; it goes on only after reading an answer, adding 25 to `counter` and 1 to `page_counter`; the corrected pass keeps the search terms; every stop leaves both counters unchanged |
| Scraper.PageStepStops | E/linkedin_scrapper.py:80-129 | a pass goes on exactly when the page has a results list, no listing raises and an answer other than "n"/"N" is read; it stops with no results exactly when the page has no results list, declined exactly when the page was walked to its end and the answer is "n"/"N", and failed exactly when the page failed to load, a listing raised or no answer was left |
| Scraper.ScrapeResultsPage | E/linkedin_scrapper.py:80-129 | the imperative loop body ends in the step `PageStep` defines for the k-th answer, and it goes on only when an answer was left to read |
| Scraper.ScrapeLoop | E/linkedin_scrapper.py:72-131 | the imperative loop, which runs `ScrapeResultsPage` once per page, ends in the state `Crawl` defines, with counter = 25·(pages−1); it requests at most one page more than there were answers; the first request is the operator's query; request i starts at 25·i; with the terms kept apart, request i is the operator's query at 25·i; the table is the starting table plus the rows of every requested page |
| Scraper.ScrapeLinkedIn | E/linkedin_scrapper.py:72-131 | the loop as written ends in the state `Crawl` defines, with counter = 25·(pages−1); it requests at most one page more than there were answers; the first request is the operator's query; request i starts at 25·i; the table is the starting table plus the rows of every requested page |
| Scraper.CrawlDeclineCause | E/linkedin_scrapper.py:118-122 | a run that ends declined requested no more pages than there were answers, and the answer it read on its last requested page (the answer at that page's position in the run) is "n" or "N" |
| Scraper.CrawlStop | E/linkedin_scrapper.py:79-129 | every run requests at least one page, and the last page it requested explains its stop: no results exactly when that page had no results list; declined only after that page was walked to its end; failed only when that page failed to load, one of its listings raised, or the answers ran out |
| Scraper.NoResultsStops | E/linkedin_scrapper.py:88-90 | on any page without a results list the run ends there as no results, appending nothing, reading no answer and leaving both counters unchanged |
| Scraper.FirstPageWithoutResults | E/linkedin_scrapper.py:88-90 | when the first page has no results list, the run keeps the starting table, counter 0 and page counter 1, and it requests only that page |
| Scraper.CrawlCounter | E/linkedin_scrapper.py:75-125 | from any loop state, the run's final `counter` and `page_counter` keep `counter == 25 * (page_counter - 1)` |
| Scraper.CrawlOffsets | E/linkedin_scrapper.py:81-125 | the k-th page requested in a run starts at offset 25·k beyond the current one |
| Scraper.CrawlRecords | E/linkedin_scrapper.py:79-129 | a run's final table is the table it started with followed by the rows harvested from the requested pages, in order |
| Scraper.CrawlFromStart | E/linkedin_scrapper.py:72-131 | the whole-run facts (counter, offsets, first query, at most one page per answer plus one, collected rows) from the start state |
| Scraper.HarvestComplete | E/linkedin_scrapper.py:102-116 | every row harvested from any sequence of pages is complete |
| Scraper.DeclineAfterFirstPage | E/linkedin_scrapper.py:88-122 | if page 1 has only well-formed listings and the operator declines, the run ends with exactly page 1's kept rows, counter 0, page counter 1 and one request |
| Scraper.ExceptionKeepsEarlierRows | E/linkedin_scrapper.py:95-129 | an error on the current page keeps the rows appended before its first malformed listing, stops the run as failed, and leaves both counters unchanged |
| Scraper.ContinueAdvances | E/linkedin_scrapper.py:118-125 | any answer other than "n"/"N" after a complete page moves to the next page, 25 listings further on |
| Scraper.PinnedKeepsSearch | E/linkedin_scrapper.py:82 | when the search terms are kept apart from the listing variables, every page of the run searches with the operator's terms |
| Scraper.AsWrittenSecondPageSearchesLastListing | E/linkedin_scrapper.py:82-96 | as written, a search for "Data Engineer" in "Remote" whose first page holds one listing "Data Analyst" in "Berlin" requests page 2 with "Data Analyst" and "Berlin" |
| Scraper.PinnedSecondPageKeepsSearch | E/linkedin_scrapper.py:82 | with the search terms kept apart, the same run requests page 2 with "Data Engineer" and "Remote" |
| Scraper.ScrapeLinkedInPinned | E/linkedin_scrapper.py:72-131 | the corrected loop: it ends in the state `Crawl` defines with the terms kept apart; request i is the operator's query at offset 25·i; counter = 25·(pages−1); the table is the starting table plus the rows of every requested page |
| Report.DescriptionCell | E/linkedin_scrapper.py:165 | the cell is "N/A" exactly when the description is empty; otherwise it is the first min(20, length) characters followed by "...", so it is never longer than 23 |
| Report.ShortDescriptionShownWhole | E/linkedin_scrapper.py:165 | a description of 1 to 20 characters appears whole, followed by "..." |
| Report.CellDeterminesPrefix | E/linkedin_scrapper.py:165 | two descriptions with the same cell agree on their first 20 characters |
| Report.SaveRequested | E/linkedin_scrapper.py:170-173 | an answer that requests the export never declines pagination |
| Report.PromptsDisagreeOnCase | E/linkedin_scrapper.py:121-173 | the answers "n" and "N" both decline pagination, while "Y" neither declines it nor requests the export: only the pagination prompt ignores case |
| Report.ExportFileName | E/linkedin_scrapper.py:135 | the file name is `<title>_<location>_jobs.<ext>`: the title, "_", the location, then "_jobs." and the extension |
| Report.ExportNamesShareStem | E/linkedin_scrapper.py:135-174 | the CSV and text exports differ only in their extension |
| Report.Block | E/linkedin_scrapper.py:139-144 | one row's block starts with "Title: ", ends with the rule of 50 dashes, and is as long as the row's five values plus the fixed labels, newlines and rule |
| Report.TxtContents | E/linkedin_scrapper.py:137-144 | the text export holds at least one block's fixed characters per row, and it is empty exactly when the table is |
| Report.TxtContentsAppend | E/linkedin_scrapper.py:138-144 | the text export of two tables concatenated is the concatenation of their exports |
| Report.TxtContentsAt | E/linkedin_scrapper.py:138-144 | row i's block sits in the text export right after the blocks of rows 0..i−1 |
| Report.BlockRoundTrip | E/linkedin_scrapper.py:139-144 | a row whose title, company, location and link hold no newline is read back exactly from its text block |
| Report.ParseBlockExact | E/linkedin_scrapper.py:139-144 | whatever the block reader accepts is exactly the block of the row it returns |
| Report.SaveResults | E/linkedin_scrapper.py:170-175 | an export happens exactly when the answer is "y"; it uses the operator's title and location for both file names; its text is the text export of the table (empty for an empty table), with row i's block after the blocks of rows 0..i−1 |

## Left out

- Selenium, BeautifulSoup and aiohttp are not modelled. The result page and the detail pages are inputs, as described above.
- The rich console, the progress bar and `get_user_input`'s prompts are not modelled. The operator's terms are taken as already stripped strings.
- The console rendering of the table's cells is not modelled. `rich` reads console markup and emoji codes in every cell, so bracketed text such as "[m/w/d]" in a field may be dropped or restyled, and a code such as ":fire:" shown as an emoji. The other four columns are passed the stored fields.
- SaveResults: holds only once the save prompt is reached. An unmatched closing markup tag such as "[/b]" in a stored field, or in a description's first 20 characters, makes printing the table raise, so the program ends before the save prompt and nothing is exported whatever the answer. The model does not parse markup.
- The CSV file written by `pandas.DataFrame.to_csv` is not modelled. Only its name is.
- `os.makedirs`, `EXPORT_DIR` and the unused `file_path` are not modelled. The text file is written in the working directory under `file_name`.
- The actual file writes are not modelled. `SaveResults` returns the names and the contents that would be written.
- The query string of the search URL is not modelled. It is sent without URL-encoding, and the model records the query as its three parts.
- LowerChar, Lower: model `str.lower()` on ASCII letters only. No other character lowers to "n", so the decline test is exact.
- ScrapeLinkedIn: does not model `driver.quit()`. Every stop leaves through the single exit after the loop, and the browser session is not modelled as an object.
- A whole text export is not parsed back. Only one block is, because a description may itself contain the rule line, which makes the file ambiguous.
- Detail pages are fetched one after another: each fetch is awaited before the next listing is read. The model therefore has no concurrency to capture.
- Only `AttributeError` is caught around the description element. A failed detail fetch propagates and ends the whole run as an error.
- Whether a detail fetch fails is an input, except for an empty link. The listing's link is fetched before it is tested, and an empty URL is rejected by the HTTP client, so an empty link ends the run rather than skipping the listing. Other links the client rejects, such as relative ones, are left to the input.

## Findings

| source | as written | input that shows it | evidently intended | confidence | as-written member | corrected member |
|---|---|---|---|---|---|---|
| E/linkedin_scrapper.py:82 | the URL is built from `job_title`/`job_location`, which lines 95-96 rebind to each listing's stripped title and location, so every page after the first searches with the last listing's terms | search "Data Engineer" in "Remote"; page 1 has one complete listing "Data Analyst" in "Berlin"; the answer is "y": page 2 is requested as keywords "Data Analyst", location "Berlin", start 25 | every page searches with the operator's terms at offsets 0, 25, 50, … | high, not executed | Scraper.AsWrittenSecondPageSearchesLastListing | Scraper.ScrapeLinkedInPinned |
