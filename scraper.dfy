/** The pagination loop of `scrape_linkedin`: load a results page at the current offset, walk its
    listings, ask the operator whether to go on, and advance by one page. */
module Scraper {
  import opened Options
  import opened PyText
  import opened Listings
  import opened Seqs

  /** The results page a browser navigation asks for: the URL's `keywords`, `location` and `start`. */
  datatype Query = Query(keywords: string, location: string, start: nat)

  /** What loading and parsing a results page yields: no results list, the list's items, or an
      exception raised by the navigation or the parse. */
  datatype PageOutcome = NoResultsList | Listings(items: seq<Candidate>) | PageError

  /** Why the loop ended: no results list, the operator answered no, or an exception was caught. */
  datatype Stop = NoResults | Declined | Failed

  /** The state the loop leaves behind: the result frame, the offset, the page number, why it
      stopped, and every page it navigated to, in order. */
  datatype Run = Run(records: seq<Record>, counter: nat, pageCounter: nat, stop: Stop, visited: seq<Query>)

  /** The offset step between result pages. */
  const PageSize: nat := 25

  /** The continue check: the answer, lower-cased, is `"n"`. Exactly the answers `"n"` and `"N"` stop
      the loop; any other answer, the empty one included, goes on to the next page. */
  predicate Declines(answer: string): (b: bool)
    ensures b <==> answer == "n" || answer == "N"
  {
    var lowered := Lower(answer);
    assert lowered == "n" ==> |answer| == 1 && lowered[0] == 'n' == LowerChar(answer[0]);
    lowered == "n"
  }

  /** The loop's variables between pages: the search terms the next URL is built from, the offset,
      the page number, the frame, and the pages navigated so far. */
  datatype Cursor = Cursor(search: Search, counter: nat, pageCounter: nat, df: seq<Record>, visited: seq<Query>)
  {
    /** The page this state navigates to next. */
    function Here(): Query
    {
      Query(search.keywords, search.location, counter)
    }
  }

  /** One pass through the loop body ends the loop with a final state, or goes on from a new one. */
  datatype Step = Halt(run: Run) | Advance(next: Cursor)

  /** The state `scrape_linkedin` starts from, for the operator's search terms and the frame on entry. */
  function Start(jobTitle: string, jobLocation: string, df0: seq<Record>): Cursor
  {
    Cursor(Search(jobTitle, jobLocation), 0, 1, df0, [])
  }

  /** One pass through the loop body: navigate to the current offset, walk the page's listings, read
      the operator's answer (None when `input()` has nothing left to read and raises). With `pinned`
      false the next page is searched with the terms the listing walk left in `job_title` and
      `job_location`, as the source does; with `pinned` true with the terms the pass started with. */
  function PageStep(site: Query -> PageOutcome, answer: Option<string>, c: Cursor, pinned: bool): (s: Step)
    ensures s.Advance? ==> answer.Some?
    ensures s.Halt? ==> s.run.records == c.df + PageRows(site(c.Here())) && s.run.visited == c.visited + [c.Here()]
    ensures s.Advance? ==> s.next.df == c.df + PageRows(site(c.Here())) && s.next.visited == c.visited + [c.Here()]
    ensures s.Advance? ==> s.next.counter == c.counter + PageSize && s.next.pageCounter == c.pageCounter + 1
    ensures s.Advance? && pinned ==> s.next.search == c.search
    ensures s.Halt? ==> s.run.counter == c.counter && s.run.pageCounter == c.pageCounter
  {
    var q := c.Here();
    var seen := c.visited + [q];
    match site(q)
    case PageError => Halt(Run(c.df, c.counter, c.pageCounter, Failed, seen))
    case NoResultsList => Halt(Run(c.df, c.counter, c.pageCounter, NoResults, seen))
    case Listings(cs) =>
      var scan := ScanListings(cs);
      var df := c.df + scan.kept;
      if scan.aborted || answer.None? then Halt(Run(df, c.counter, c.pageCounter, Failed, seen))
      else if Declines(answer.value) then Halt(Run(df, c.counter, c.pageCounter, Declined, seen))
      else
        var next := if pinned then c.search else SearchAfter(cs, c.search);
        Advance(Cursor(next, c.counter + PageSize, c.pageCounter + 1, df, seen))
  }

  /** When one pass ends the loop and why: it goes on exactly when the page had a results list, no
      listing raised, and an answer other than "n"/"N" was read; it stops with `NoResults` exactly when
      the page had no results list, with `Declined` exactly when the page was walked to its end and the
      answer was "n" or "N", and otherwise with `Failed`. */
  lemma PageStepStops(site: Query -> PageOutcome, answer: Option<string>, c: Cursor, pinned: bool)
    ensures var s := PageStep(site, answer, c, pinned); var p := site(c.Here());
      && (s.Advance? <==> p.Listings? && !ScanListings(p.items).aborted && answer.Some? && !Declines(answer.value))
      && (s.Halt? ==> (s.run.stop == NoResults <==> p.NoResultsList?))
      && (s.Halt? ==> (s.run.stop == Declined <==> p.Listings? && !ScanListings(p.items).aborted && answer.Some?
                                                    && Declines(answer.value)))
      && (s.Halt? ==> (s.run.stop == Failed <==> p.PageError?
                                                  || (p.Listings? && (ScanListings(p.items).aborted || answer.None?))))
  {
  }

  /** The first of the remaining answers, if any. */
  function NextAnswer(answers: seq<string>): Option<string>
  {
    if answers == [] then None else Some(answers[0])
  }

  /** The loop from state `c` on, with `answers` the operator's remaining replies. */
  function Crawl(site: Query -> PageOutcome, answers: seq<string>, c: Cursor, pinned: bool): Run
    decreases |answers|
  {
    match PageStep(site, NextAnswer(answers), c, pinned)
    case Halt(r) => r
    case Advance(n) => Crawl(site, answers[1..], n, pinned)
  }

  /** The rows one navigated page contributes: the listings the walk kept, up to where it raised. */
  function PageRows(p: PageOutcome): seq<Record>
  {
    match p
    case Listings(cs) => ScanListings(cs).kept
    case _ => []
  }

  /** The rows the navigated pages contribute, page by page. */
  function Harvest(site: Query -> PageOutcome, qs: seq<Query>): seq<Record>
  {
    if qs == [] then [] else PageRows(site(qs[0])) + Harvest(site, qs[1..])
  }

  /** One pass through the body of `while True`: navigate to `counter` with the current search terms,
      walk the page's listings, and read the operator's answer (the `k`-th). `pinned` false is the
      source's pass, where the next search terms are those the listing walk leaves in `job_title` and
      `job_location`; `pinned` true keeps the terms the pass started with. */
  method ScrapeResultsPage(site: Query -> PageOutcome, answers: seq<string>, k: nat, jobTitle: string,
                           jobLocation: string, counter: nat, pageCounter: nat, df: seq<Record>,
                           visited: seq<Query>, pinned: bool) returns (step: Step)
    requires k <= |answers|
    ensures step == PageStep(site, NextAnswer(answers[k..]),
                             Cursor(Search(jobTitle, jobLocation), counter, pageCounter, df, visited), pinned)
    ensures step.Advance? ==> k < |answers|
  {
    var q := Query(jobTitle, jobLocation, counter);
    var seen := visited + [q];
    var page := site(q);
    if page.PageError? {
      return Halt(Run(df, counter, pageCounter, Failed, seen));
    }
    if page.NoResultsList? {
      return Halt(Run(df, counter, pageCounter, NoResults, seen));
    }
    var rows, lastTitle, lastLocation, aborted := ScrapePage(page.items, df, Search(jobTitle, jobLocation));
    if aborted || k == |answers| {
      // an exception inside the walk, or `input()` with nothing left to read
      return Halt(Run(rows, counter, pageCounter, Failed, seen));
    }
    var continueInput := answers[k];
    assert NextAnswer(answers[k..]) == Some(continueInput);
    if Declines(continueInput) {
      return Halt(Run(rows, counter, pageCounter, Declined, seen));
    }
    var next := if pinned then Search(jobTitle, jobLocation) else Search(lastTitle, lastLocation);
    step := Advance(Cursor(next, counter + PageSize, pageCounter + 1, rows, seen));
  }

  /** The `while True` loop of `scrape_linkedin`, run from the operator's terms with `df0` the global
      frame on entry; the result's `records` is the frame on exit. `pinned` false is the loop as
      written, `pinned` true the loop with the search terms kept apart from the listing fields. */
  method ScrapeLoop(site: Query -> PageOutcome, answers: seq<string>, jobTitle0: string,
                    jobLocation0: string, df0: seq<Record>, pinned: bool) returns (run: Run)
    ensures run == Crawl(site, answers, Start(jobTitle0, jobLocation0, df0), pinned)
    ensures run.counter == PageSize * (run.pageCounter - 1)
    ensures 1 <= |run.visited| <= |answers| + 1 && run.visited[0] == Query(jobTitle0, jobLocation0, 0)
    ensures forall i :: 0 <= i < |run.visited| ==> run.visited[i].start == PageSize * i
    ensures pinned ==> forall i :: 0 <= i < |run.visited| ==> run.visited[i] == Query(jobTitle0, jobLocation0, PageSize * i)
    ensures run.records == df0 + Harvest(site, run.visited)
  {
    var jobTitle, jobLocation := jobTitle0, jobLocation0;
    var counter: nat := 0;
    var pageCounter: nat := 1;
    var df := df0;
    var visited: seq<Query> := [];
    var k := 0;
    while true
      invariant 0 <= k <= |answers|
      invariant Crawl(site, answers, Start(jobTitle0, jobLocation0, df0), pinned)
             == Crawl(site, answers[k..], Cursor(Search(jobTitle, jobLocation), counter, pageCounter, df, visited), pinned)
      decreases |answers| - k
    {
      ghost var before := Cursor(Search(jobTitle, jobLocation), counter, pageCounter, df, visited);
      var step := ScrapeResultsPage(site, answers, k, jobTitle, jobLocation, counter, pageCounter, df, visited, pinned);
      if step.Halt? {
        CrawlHalts(site, answers[k..], before, pinned);
        run := step.run;
        break;
      }
      AdvanceThenCrawl(site, answers[k..], before, pinned);
      assert answers[k..][1..] == answers[k + 1..];
      jobTitle, jobLocation := step.next.search.keywords, step.next.search.location;
      counter, pageCounter, df, visited := step.next.counter, step.next.pageCounter, step.next.df, step.next.visited;
      k := k + 1;
    }
    CrawlFromStart(site, answers, jobTitle0, jobLocation0, df0, pinned);
    if pinned {
      PinnedKeepsSearch(site, answers, Start(jobTitle0, jobLocation0, df0));
    }
  }

  /** `scrape_linkedin` as written: the terms of every page after the first are those the listing
      walk left behind. */
  method ScrapeLinkedIn(site: Query -> PageOutcome, answers: seq<string>, jobTitle0: string,
                        jobLocation0: string, df0: seq<Record>) returns (run: Run)
    ensures run == Crawl(site, answers, Start(jobTitle0, jobLocation0, df0), false)
    ensures run.counter == PageSize * (run.pageCounter - 1)
    ensures 1 <= |run.visited| <= |answers| + 1 && run.visited[0] == Query(jobTitle0, jobLocation0, 0)
    ensures forall i :: 0 <= i < |run.visited| ==> run.visited[i].start == PageSize * i
    ensures run.records == df0 + Harvest(site, run.visited)
  {
    run := ScrapeLoop(site, answers, jobTitle0, jobLocation0, df0, false);
  }

  /** Each page the operator continues past adds exactly `PageSize` to the offset and one to the page
      number, so the offset is always `PageSize * (pageCounter - 1)`; the loop navigates first to the
      current offset, and every navigation after that consumes one answer. */
  lemma {:induction false} CrawlCounter(site: Query -> PageOutcome, answers: seq<string>, c: Cursor, pinned: bool)
    requires c.counter == PageSize * (c.pageCounter - 1)
    ensures var r := Crawl(site, answers, c, pinned);
      && r.counter == PageSize * (r.pageCounter - 1)
      && |c.visited| < |r.visited| <= |c.visited| + |answers| + 1
      && r.visited[..|c.visited|] == c.visited
      && r.visited[|c.visited|] == Query(c.search.keywords, c.search.location, c.counter)
      && r.counter == c.counter + PageSize * (|r.visited| - |c.visited| - 1)
  {
    match PageStep(site, NextAnswer(answers), c, pinned)
    case Halt(_) =>
    case Advance(n) =>
      CrawlCounter(site, answers[1..], n, pinned);
      var r := Crawl(site, answers[1..], n, pinned);
      assert r.visited[..|n.visited|][..|c.visited|] == r.visited[..|c.visited|];
      assert r.visited[..|n.visited|][|c.visited|] == r.visited[|c.visited|];
  }

  /** The page at position `i` of the navigations is requested at offset `counter + PageSize * i`:
      offsets 0, 25, 50, ... with no page skipped or repeated. */
  lemma {:induction false} CrawlOffsets(site: Query -> PageOutcome, answers: seq<string>, c: Cursor, pinned: bool)
    ensures var r := Crawl(site, answers, c, pinned);
      forall i :: |c.visited| <= i < |r.visited| ==> r.visited[i].start == c.counter + PageSize * (i - |c.visited|)
  {
    match PageStep(site, NextAnswer(answers), c, pinned)
    case Halt(_) =>
    case Advance(n) =>
      CrawlOffsets(site, answers[1..], n, pinned);
      CrawlRecords(site, answers[1..], n, pinned);
      var r := Crawl(site, answers[1..], n, pinned);
      PrefixSplit(r.visited, c.visited, [c.Here()]);
      assert r.visited[|c.visited|] == c.Here();
  }

  /** The frame is only ever appended to: what it held stays, unchanged and in place, and after it
      come the rows of every navigated page, in page order and, within a page, in listing order. This
      holds on every exit, the exception exit included. */
  lemma {:induction false} CrawlRecords(site: Query -> PageOutcome, answers: seq<string>, c: Cursor, pinned: bool)
    ensures var r := Crawl(site, answers, c, pinned);
      && |c.visited| <= |r.visited| && r.visited[..|c.visited|] == c.visited
      && r.records == c.df + Harvest(site, r.visited[|c.visited|..])
  {
    var r := Crawl(site, answers, c, pinned);
    var q := c.Here();
    match PageStep(site, NextAnswer(answers), c, pinned)
    case Halt(_) =>
      assert r.visited[|c.visited|..] == [q];
      HarvestCons(site, q, []);
    case Advance(n) =>
      CrawlRecords(site, answers[1..], n, pinned);
      PrefixSplit(r.visited, c.visited, [q]);
      var tail := r.visited[|n.visited|..];
      HarvestCons(site, q, tail);
      AppendAssoc(c.df, PageRows(site(q)), Harvest(site, tail));
  }

  lemma HarvestCons(site: Query -> PageOutcome, q: Query, qs: seq<Query>)
    ensures Harvest(site, [q] + qs) == PageRows(site(q)) + Harvest(site, qs)
  {
    assert ([q] + qs)[0] == q && ([q] + qs)[1..] == qs;
  }

  /** What a whole run guarantees, from the loop's starting state: the offset matches the page number,
      pages are requested at offsets 0, 25, 50, ... starting with the operator's search, at most one
      page more than there are answers, and the frame ends as its entry value followed by the rows of
      the navigated pages, in order. */
  lemma CrawlFromStart(site: Query -> PageOutcome, answers: seq<string>, jobTitle: string, jobLocation: string,
                       df0: seq<Record>, pinned: bool)
    ensures var run := Crawl(site, answers, Start(jobTitle, jobLocation, df0), pinned);
      && run.counter == PageSize * (run.pageCounter - 1)
      && 1 <= |run.visited| <= |answers| + 1 && run.visited[0] == Query(jobTitle, jobLocation, 0)
      && (forall i :: 0 <= i < |run.visited| ==> run.visited[i].start == PageSize * i)
      && run.records == df0 + Harvest(site, run.visited)
  {
    var start := Start(jobTitle, jobLocation, df0);
    var run := Crawl(site, answers, start, pinned);
    CrawlCounter(site, answers, start, pinned);
    CrawlOffsets(site, answers, start, pinned);
    CrawlRecords(site, answers, start, pinned);
    assert run.visited[0..] == run.visited;
  }

  /** Every row the loop appends has a non-empty title, location, company and link. */
  lemma {:induction false} HarvestComplete(site: Query -> PageOutcome, qs: seq<Query>)
    ensures forall r :: r in Harvest(site, qs) ==> Complete(r)
  {
    if qs != [] {
      HarvestComplete(site, qs[1..]);
      if site(qs[0]).Listings? {
        ScanKeepsComplete(site(qs[0]).items);
      }
    }
  }

  /** When the first page has no results list the loop ends at once: nothing is appended, the offset
      stays 0 and only that one page was requested. */
  lemma FirstPageWithoutResults(site: Query -> PageOutcome, answers: seq<string>, jobTitle: string,
                                jobLocation: string, df0: seq<Record>, pinned: bool)
    requires site(Query(jobTitle, jobLocation, 0)) == NoResultsList
    ensures Crawl(site, answers, Start(jobTitle, jobLocation, df0), pinned)
         == Run(df0, 0, 1, NoResults, [Query(jobTitle, jobLocation, 0)])
  {
  }

  /** On any page without a results list the loop ends there: nothing is appended, neither counter
      moves, and no answer is read. */
  lemma NoResultsStops(site: Query -> PageOutcome, answers: seq<string>, c: Cursor, pinned: bool)
    requires site(c.Here()).NoResultsList?
    ensures Crawl(site, answers, c, pinned) == Run(c.df, c.counter, c.pageCounter, NoResults, c.visited + [c.Here()])
  {
  }

  /** Why a run ended, read off the last page it requested: no results list there exactly when the
      stop is `NoResults`; a "no" only after that page was walked to its end; and an exception when
      that page failed to load, one of its listings raised, or every answer had been used up
      (`exhausted`). */
  predicate StopExplained(site: Query -> PageOutcome, r: Run, exhausted: bool)
    requires r.visited != []
  {
    var last := site(r.visited[|r.visited| - 1]);
    && (r.stop == NoResults <==> last.NoResultsList?)
    && (r.stop == Declined ==> last.Listings? && !ScanListings(last.items).aborted)
    && (r.stop == Failed ==> last.PageError? || (last.Listings? && ScanListings(last.items).aborted) || exhausted)
  }

  /** A pass that ends the loop gives the run, and the page it requested explains its stop. */
  lemma HaltExplained(site: Query -> PageOutcome, answers: seq<string>, c: Cursor, pinned: bool)
    requires PageStep(site, NextAnswer(answers), c, pinned).Halt?
    ensures var r := PageStep(site, NextAnswer(answers), c, pinned).run;
      && Crawl(site, answers, c, pinned) == r
      && |c.visited| < |r.visited|
      && StopExplained(site, r, |r.visited| == |c.visited| + |answers| + 1)
  {
    PageStepStops(site, NextAnswer(answers), c, pinned);
  }

  /** A pass that ends the loop gives the run's final state. */
  lemma CrawlHalts(site: Query -> PageOutcome, answers: seq<string>, c: Cursor, pinned: bool)
    requires PageStep(site, NextAnswer(answers), c, pinned).Halt?
    ensures Crawl(site, answers, c, pinned) == PageStep(site, NextAnswer(answers), c, pinned).run
  {
  }

  /** A pass that goes on consumes one answer, requests one page, and leaves the rest of the run to
      the next state. */
  lemma AdvanceThenCrawl(site: Query -> PageOutcome, answers: seq<string>, c: Cursor, pinned: bool)
    requires PageStep(site, NextAnswer(answers), c, pinned).Advance?
    ensures var n := PageStep(site, NextAnswer(answers), c, pinned).next;
      && answers != [] && |n.visited| == |c.visited| + 1
      && Crawl(site, answers, c, pinned) == Crawl(site, answers[1..], n, pinned)
  {
  }

  /** Every run requests at least one page, and the last page it requested explains why it stopped:
      `NoResults` exactly when that page had no results list, `Declined` only after it was walked to
      its end, `Failed` only when it failed to load, one of its listings raised, or the answers ran
      out (the run then requested one page more than there were answers). */
  lemma {:induction false} CrawlStop(site: Query -> PageOutcome, answers: seq<string>, c: Cursor, pinned: bool)
    ensures var r := Crawl(site, answers, c, pinned);
      |c.visited| < |r.visited| && StopExplained(site, r, |r.visited| == |c.visited| + |answers| + 1)
  {
    match PageStep(site, NextAnswer(answers), c, pinned)
    case Halt(_) =>
      HaltExplained(site, answers, c, pinned);
    case Advance(n) =>
      AdvanceThenCrawl(site, answers, c, pinned);
      CrawlStop(site, answers[1..], n, pinned);
  }

  /** The stop cause of a run read off its last page's answer: declined only on an answer "n" or
      "N", the one at the position of the last requested page among those requested from `c` on. */
  predicate DeclineExplained(answers: seq<string>, c: Cursor, r: Run)
  {
    r.stop == Declined ==> |c.visited| < |r.visited| <= |c.visited| + |answers|
                           && Declines(answers[|r.visited| - |c.visited| - 1])
  }

  /** A pass that stops declined read an answer, and that answer was "n" or "N". */
  lemma HaltDeclined(site: Query -> PageOutcome, answers: seq<string>, c: Cursor, pinned: bool)
    requires PageStep(site, NextAnswer(answers), c, pinned).Halt?
    ensures DeclineExplained(answers, c, Crawl(site, answers, c, pinned))
  {
    CrawlHalts(site, answers, c, pinned);
    PageStepStops(site, NextAnswer(answers), c, pinned);
  }

  /** A pass that goes on consumes one answer and requests one page, so the cause of the rest of the
      run is the cause of the whole run, one answer further on. */
  lemma DeclineShifts(answers: seq<string>, c: Cursor, n: Cursor, r: Run)
    requires answers != [] && |n.visited| == |c.visited| + 1
    requires DeclineExplained(answers[1..], n, r)
    ensures DeclineExplained(answers, c, r)
  {
    if r.stop == Declined {
      var k := |r.visited| - |n.visited| - 1;
      assert answers[1..][k] == answers[k + 1];
    }
  }

  /** A run that ends declined ends on an answer "n" or "N": the answer it read on its last page. */
  lemma {:induction false} CrawlDeclineCause(site: Query -> PageOutcome, answers: seq<string>, c: Cursor, pinned: bool)
    ensures DeclineExplained(answers, c, Crawl(site, answers, c, pinned))
  {
    match PageStep(site, NextAnswer(answers), c, pinned)
    case Halt(_) =>
      HaltDeclined(site, answers, c, pinned);
    case Advance(n) =>
      AdvanceThenCrawl(site, answers, c, pinned);
      CrawlDeclineCause(site, answers[1..], n, pinned);
      DeclineShifts(answers, c, n, Crawl(site, answers[1..], n, pinned));
  }

  /** A first page whose listings are all well formed, followed by a "no": the loop stops after that
      one page, having appended exactly that page's listings with all four columns non-empty. */
  lemma DeclineAfterFirstPage(site: Query -> PageOutcome, answers: seq<string>, jobTitle: string,
                              jobLocation: string, df0: seq<Record>, pinned: bool)
    requires site(Query(jobTitle, jobLocation, 0)).Listings?
    requires var cs := site(Query(jobTitle, jobLocation, 0)).items; forall i :: 0 <= i < |cs| ==> WellFormed(cs[i])
    requires answers != [] && Declines(answers[0])
    ensures Crawl(site, answers, Start(jobTitle, jobLocation, df0), pinned)
         == Run(df0 + Accepted(site(Query(jobTitle, jobLocation, 0)).items), 0, 1, Declined, [Query(jobTitle, jobLocation, 0)])
  {
    ScanWellFormed(site(Query(jobTitle, jobLocation, 0)).items);
  }

  /** A listing that makes the source raise ends the whole loop: the rows of the listings before it on
      that page are kept, with everything appended earlier, and no further page is requested. */
  lemma ExceptionKeepsEarlierRows(site: Query -> PageOutcome, answers: seq<string>, c: Cursor, pinned: bool, k: nat)
    requires site(c.Here()).Listings?
    requires var cs := site(c.Here()).items;
      k < |cs| && !WellFormed(cs[k]) && forall i :: 0 <= i < k ==> WellFormed(cs[i])
    ensures Crawl(site, answers, c, pinned)
         == Run(c.df + Accepted(site(c.Here()).items[..k]), c.counter, c.pageCounter, Failed, c.visited + [c.Here()])
  {
    ScanAbortsAt(site(c.Here()).items, k);
  }

  /** Any answer other than "n" or "N" after a fully walked page moves on: the next page is requested at
      the offset one page further on, with that page's accepted rows appended. */
  lemma ContinueAdvances(site: Query -> PageOutcome, answers: seq<string>, c: Cursor, pinned: bool)
    requires site(c.Here()).Listings?
    requires var cs := site(c.Here()).items; forall i :: 0 <= i < |cs| ==> WellFormed(cs[i])
    requires answers != [] && answers[0] != "n" && answers[0] != "N"
    ensures var cs := site(c.Here()).items;
      var next := if pinned then c.search else SearchAfter(cs, c.search);
      Crawl(site, answers, c, pinned)
        == Crawl(site, answers[1..], Cursor(next, c.counter + PageSize, c.pageCounter + 1, c.df + Accepted(cs),
                                            c.visited + [c.Here()]), pinned)
  {
    ScanWellFormed(site(c.Here()).items);
  }

  /** Corrected loop: every page is requested with the search terms the loop started from, never with
      the terms of a scraped listing. */
  lemma {:induction false} PinnedKeepsSearch(site: Query -> PageOutcome, answers: seq<string>, c: Cursor)
    ensures var r := Crawl(site, answers, c, true);
      forall i :: |c.visited| <= i < |r.visited| ==>
        r.visited[i].keywords == c.search.keywords && r.visited[i].location == c.search.location
  {
    match PageStep(site, NextAnswer(answers), c, true)
    case Halt(_) =>
    case Advance(n) =>
      PinnedKeepsSearch(site, answers[1..], n);
      CrawlRecords(site, answers[1..], n, true);
      var r := Crawl(site, answers[1..], n, true);
      PrefixSplit(r.visited, c.visited, [c.Here()]);
      assert r.visited[|c.visited|] == c.Here();
  }

  /** A site whose first page holds one listing for a "Data Analyst" in "Berlin" and whose later
      pages are empty. */
  function AnalystSite(q: Query): PageOutcome
  {
    if q.start == 0 then
      Listings([Candidate(Some("Data Analyst"), Some("Berlin"), Some("Acme"), Some("https://example.com/1"), Fetched(None))])
    else NoResultsList
  }

  /** As written, a search for "Data Engineer" in "Remote" that the operator continues past page one
      requests page two with the keywords and location of page one's last listing. */
  lemma AsWrittenSecondPageSearchesLastListing()
    ensures Crawl(AnalystSite, ["y"], Start("Data Engineer", "Remote", []), false).visited
         == [Query("Data Engineer", "Remote", 0), Query("Data Analyst", "Berlin", PageSize)]
  {
    StripFixesTrimmed("Data Analyst");
    StripFixesTrimmed("Berlin");
  }

  /** With the search terms kept apart, the same run requests page two with the operator's terms. */
  lemma PinnedSecondPageKeepsSearch()
    ensures Crawl(AnalystSite, ["y"], Start("Data Engineer", "Remote", []), true).visited
         == [Query("Data Engineer", "Remote", 0), Query("Data Engineer", "Remote", PageSize)]
  {
    StripFixesTrimmed("Data Analyst");
    StripFixesTrimmed("Berlin");
  }

  /** `scrape_linkedin` with the search terms kept apart from the listing fields, as the loop evidently
      intends: every page is requested with the operator's keywords and location. */
  method ScrapeLinkedInPinned(site: Query -> PageOutcome, answers: seq<string>, jobTitle: string,
                              jobLocation: string, df0: seq<Record>) returns (run: Run)
    ensures run == Crawl(site, answers, Start(jobTitle, jobLocation, df0), true)
    ensures forall i :: 0 <= i < |run.visited| ==> run.visited[i] == Query(jobTitle, jobLocation, PageSize * i)
    ensures run.counter == PageSize * (run.pageCounter - 1)
    ensures run.records == df0 + Harvest(site, run.visited)
  {
    run := ScrapeLoop(site, answers, jobTitle, jobLocation, df0, true);
  }
}
