/** One results page of `scrape_linkedin`: the walk over the page's `li` elements, the detail fetch
    for each, and the rule that decides which listings become rows of the result frame. */
module Listings {
  import opened Options
  import opened PyText
  import opened Seqs

  /** One row of the result frame, with its five columns. */
  datatype Record = Record(title: string, location: string, company: string, link: string, description: string)

  /** What awaiting `scrape_job_description` for a listing yields: the request itself raised, or the
      page arrived and its description container was found (with this raw text) or was absent. */
  datatype DetailPage = FetchFailed | Fetched(container: Option<string>)

  /** One `li` of the results list as the parser sees it. Each field is the raw text of its element, and
      `link` the `href` of the first anchor; None means the element, the anchor or the attribute is
      missing, which makes the source raise. */
  datatype Candidate = Candidate(
    title: Option<string>,
    location: Option<string>,
    company: Option<string>,
    link: Option<string>,
    detail: DetailPage)

  /** The search terms the URL is built from: the variables `job_title` and `job_location`. */
  datatype Search = Search(keywords: string, location: string)

  /** The four structural columns are all non-empty: the condition for a row to be appended. */
  predicate Complete(r: Record) {
    r.title != "" && r.location != "" && r.company != "" && r.link != ""
  }

  /** The result of `scrape_job_description` once its page has arrived: the container's text, stripped,
      or the empty string when the container is absent (the `AttributeError` fallback). */
  function JobDescription(container: Option<string>): (d: string)
    ensures Trimmed(d)
    ensures container.None? ==> d == ""
    ensures container.Some? ==> d == Strip(container.value)
    ensures d == "" <==> container.None? || AllSpace(container.value)
  {
    match container
    case None => ""
    case Some(t) => StripSpec(t); Strip(t)
  }

  /** Nothing about this listing makes the source raise: every element is present and its detail
      page was fetched. The fetch is awaited before the emptiness check, and an empty `href` is no URL
      the HTTP client accepts, so an empty link raises rather than being skipped. */
  predicate WellFormed(c: Candidate) {
    c.title.Some? && c.location.Some? && c.company.Some? && c.link.Some? && c.link.value != ""
    && c.detail.Fetched?
  }

  /** The row a well-formed listing produces. */
  function ToRecord(c: Candidate): Record
    requires WellFormed(c)
  {
    Record(Strip(c.title.value), Strip(c.location.value), Strip(c.company.value), c.link.value,
           JobDescription(c.detail.container))
  }

  /** What happens to one listing: the loop aborts, the listing is skipped, or its row is kept. */
  datatype Verdict = Abort | Skip | Keep(record: Record)

  function Examine(c: Candidate): (v: Verdict)
    ensures v.Abort? <==> !WellFormed(c)
    ensures v.Keep? <==> WellFormed(c) && Complete(ToRecord(c))
    ensures v.Keep? ==> v.record == ToRecord(c)
  {
    if !WellFormed(c) then Abort
    else if Complete(ToRecord(c)) then Keep(ToRecord(c))
    else Skip
  }

  /** The outcome of walking a page's listings: the rows appended, and whether the walk raised. */
  datatype Scan = Scan(kept: seq<Record>, aborted: bool)

  /** The walk over a page's listings, one at a time and in order; each listing appends at most one row. */
  function ScanListings(cs: seq<Candidate>): (s: Scan)
    ensures |s.kept| <= |cs|
  {
    if cs == [] then Scan([], false)
    else
      var p := ScanListings(cs[..|cs| - 1]);
      if p.aborted then p
      else match Examine(cs[|cs| - 1])
        case Abort => Scan(p.kept, true)
        case Skip => p
        case Keep(r) => Scan(p.kept + [r], false)
  }

  /** The walk over the first `i + 1` listings is the walk over the first `i`, then listing `i`. */
  lemma ScanStep(cs: seq<Candidate>, i: nat)
    requires i < |cs|
    ensures var p := ScanListings(cs[..i]);
      ScanListings(cs[..i + 1]) == if p.aborted then p else match Examine(cs[i])
        case Abort => Scan(p.kept, true)
        case Skip => p
        case Keep(r) => Scan(p.kept + [r], false)
  {
    assert cs[..i + 1][..i] == cs[..i] && cs[..i + 1][i] == cs[i];
  }

  /** Every row the walk keeps has its four structural columns non-empty. */
  lemma {:induction false} ScanKeepsComplete(cs: seq<Candidate>)
    ensures forall r :: r in ScanListings(cs).kept ==> Complete(r)
  {
    if cs != [] {
      ScanKeepsComplete(cs[..|cs| - 1]);
    }
  }

  /** The walk raises exactly when some listing on the page is not well formed. */
  lemma {:induction false} ScanAbortsIff(cs: seq<Candidate>)
    ensures ScanListings(cs).aborted <==> exists i :: 0 <= i < |cs| && !WellFormed(cs[i])
  {
    if cs != [] {
      var init := cs[..|cs| - 1];
      ScanAbortsIff(init);
      assert forall i :: 0 <= i < |init| ==> init[i] == cs[i];
    }
  }

  /** The rows a sequence of well-formed listings yields: those whose four columns are non-empty,
      in listing order. */
  function Accepted(cs: seq<Candidate>): seq<Record>
    requires forall i :: 0 <= i < |cs| ==> WellFormed(cs[i])
  {
    if cs == [] then []
    else (if Complete(ToRecord(cs[0])) then [ToRecord(cs[0])] else []) + Accepted(cs[1..])
  }

  lemma {:induction false} AcceptedSnoc(cs: seq<Candidate>, c: Candidate)
    requires forall i :: 0 <= i < |cs| ==> WellFormed(cs[i])
    requires WellFormed(c)
    ensures forall i :: 0 <= i < |cs + [c]| ==> WellFormed((cs + [c])[i])
    ensures Accepted(cs + [c]) == Accepted(cs) + (if Complete(ToRecord(c)) then [ToRecord(c)] else [])
  {
    var tail := if Complete(ToRecord(c)) then [ToRecord(c)] else [];
    if cs == [] {
      assert Accepted([c]) == tail + Accepted([]);
    } else {
      var head := if Complete(ToRecord(cs[0])) then [ToRecord(cs[0])] else [];
      assert (cs + [c])[0] == cs[0] && (cs + [c])[1..] == cs[1..] + [c];
      AcceptedSnoc(cs[1..], c);
      AppendAssoc(head, Accepted(cs[1..]), tail);
    }
  }

  /** A page whose listings are all well formed is walked to the end, and the rows it appends are
      exactly its listings with all four columns non-empty, in listing order. */
  lemma {:induction false} ScanWellFormed(cs: seq<Candidate>)
    requires forall i :: 0 <= i < |cs| ==> WellFormed(cs[i])
    ensures ScanListings(cs) == Scan(Accepted(cs), false)
  {
    if cs != [] {
      var init := cs[..|cs| - 1];
      ScanWellFormed(init);
      AcceptedSnoc(init, cs[|cs| - 1]);
      assert init + [cs[|cs| - 1]] == cs;
    }
  }

  /** Once the walk has raised, the listings after that point change nothing. */
  lemma {:induction false} ScanStaysAborted(cs: seq<Candidate>, m: nat)
    requires m <= |cs|
    requires ScanListings(cs[..m]).aborted
    ensures ScanListings(cs) == ScanListings(cs[..m])
  {
    if m < |cs| {
      assert cs[..|cs| - 1][..m] == cs[..m];
      ScanStaysAborted(cs[..|cs| - 1], m);
    } else {
      assert cs[..m] == cs;
    }
  }

  /** A listing that makes the source raise ends the walk: the rows kept are those of the listings
      before it, and nothing after it is looked at. */
  lemma ScanAbortsAt(cs: seq<Candidate>, k: nat)
    requires k < |cs| && !WellFormed(cs[k])
    requires forall i :: 0 <= i < k ==> WellFormed(cs[i])
    ensures ScanListings(cs) == Scan(Accepted(cs[..k]), true)
  {
    ScanWellFormed(cs[..k]);
    assert cs[..k + 1][..k] == cs[..k];
    ScanStaysAborted(cs, k + 1);
  }

  /** The as-written search terms after a page walked to its end: the inner loop rebinds `job_title`
      and `job_location` to the stripped title and location of every listing it reads, so the last
      listing's values remain (on such a page every listing has both). The fallback past a listing
      without a title or location is reached only on a page whose walk raised: such a listing raises
      at `.text`, and an aborted page's terms are never used. */
  function SearchAfter(cs: seq<Candidate>, search: Search): Search
  {
    if cs == [] then search
    else match (cs[|cs| - 1].title, cs[|cs| - 1].location)
      case (Some(t), Some(l)) => Search(Strip(t), Strip(l))
      case _ => SearchAfter(cs[..|cs| - 1], search)
  }

  /** After a page walked to its end, the next URL's terms are the title and location of the row the
      page's last listing produced (whether or not that row was kept); a page with no listings leaves
      the terms as they were. */
  lemma SearchAfterIsLastRow(cs: seq<Candidate>, search: Search)
    requires forall i :: 0 <= i < |cs| ==> WellFormed(cs[i])
    ensures cs == [] ==> SearchAfter(cs, search) == search
    ensures cs != [] ==> SearchAfter(cs, search) == Search(ToRecord(cs[|cs| - 1]).title, ToRecord(cs[|cs| - 1]).location)
  {
  }

  /** The body of the `for item in li_elements` loop over one page: appends the accepted rows to `df`
      and reports whether a listing raised; `jobTitle`/`jobLocation` end as the loop leaves them. */
  method ScrapePage(cs: seq<Candidate>, df: seq<Record>, search: Search)
    returns (out: seq<Record>, jobTitle: string, jobLocation: string, aborted: bool)
    ensures aborted == ScanListings(cs).aborted
    ensures out == df + ScanListings(cs).kept
    ensures !aborted ==> Search(jobTitle, jobLocation) == SearchAfter(cs, search)
  {
    out, jobTitle, jobLocation, aborted := df, search.keywords, search.location, false;
    var i := 0;
    while i < |cs|
      invariant 0 <= i <= |cs|
      invariant forall j :: 0 <= j < i ==> WellFormed(cs[j])
      invariant !ScanListings(cs[..i]).aborted && out == df + ScanListings(cs[..i]).kept
      invariant Search(jobTitle, jobLocation) == SearchAfter(cs[..i], search)
    {
      var item := cs[i];
      ghost var done := ScanListings(cs[..i]);
      ScanStep(cs, i);
      if item.title.None? || item.location.None? || item.company.None? || item.link.None? {
        // `.text` on a missing element, or `[0]`/`["href"]` on a missing anchor, raises
        assert ScanListings(cs[..i + 1]) == Scan(done.kept, true);
        aborted := true;
        break;
      }
      jobTitle := Strip(item.title.value);
      jobLocation := Strip(item.location.value);
      var jobCompany := Strip(item.company.value);
      var jobLink := item.link.value;
      if jobLink == "" || item.detail.FetchFailed? {
        // the awaited detail fetch raised, as it does for an empty URL
        assert ScanListings(cs[..i + 1]) == Scan(done.kept, true);
        aborted := true;
        break;
      }
      var jobDescription := JobDescription(item.detail.container);
      var row := Record(jobTitle, jobLocation, jobCompany, jobLink, jobDescription);
      assert row == ToRecord(item);
      assert cs[..i + 1][i] == item;
      assert SearchAfter(cs[..i + 1], search) == Search(jobTitle, jobLocation);
      if jobTitle != "" && jobLocation != "" && jobCompany != "" && jobLink != "" {
        assert Examine(item) == Keep(row);
        assert ScanListings(cs[..i + 1]) == Scan(done.kept + [row], false);
        AppendAssoc(df, done.kept, [row]);
        out := out + [row];
      } else {
        assert Examine(item) == Skip;
        assert ScanListings(cs[..i + 1]) == done;
      }
      i := i + 1;
    }
    if aborted {
      ScanStaysAborted(cs, i + 1);
    } else {
      assert cs[..i] == cs;
    }
  }
}
