/**
 * The crawler of publications/spiders/publication_spider.py: the search
 * requests it starts from, the page count of a listing and the choice between
 * a cached listing page and a fresh request, the filter that decides which
 * search hits get a detail request, and the rule that saves only detail
 * documents that have, or can obtain, a research payload.
 */
module Spider {
  import opened Wrappers
  import opened Text
  import opened Records
  import Extraction

  // ---------------------------------------------------------------------------
  // Start requests
  // ---------------------------------------------------------------------------

  /** The fields of the widget-search body the crawler reads or overrides; the rest of the config is sent unchanged. */
  datatype WidgetQuery = WidgetQuery(
    urlPath: string,
    docCount: nat,
    publicationDateFrom: int,
    publicationDateTo: int,
    reportTitleSearch: string,
    page: int)

  /** The class-level request body every search request is copied from. */
  const Template := WidgetQuery("ratings-assessments-reports", 200, 946656000000, 978278399999, "downgrade", 1)

  const SearchTerms: seq<string> := ["downgrade", "upgrade", "outlook", "lower"]
  const FirstYear := 1995
  /** `range(1995, 2025)` has this many years. */
  const YearCount := 30

  /** A first-level search request with the year and term it was built for. */
  datatype SearchRequest = SearchRequest(year: int, term: string, query: WidgetQuery)

  /**
   * The request for one term and year. `yearStart` and `yearEnd` stand for the
   * local-time millisecond timestamps of 1 January 00:00:00 and 31 December
   * 23:59:59 of a year.
   */
  function SearchFor(term: string, year: int, yearStart: int -> int, yearEnd: int -> int): SearchRequest {
    SearchRequest(year, term, Template.(publicationDateFrom := yearStart(year), publicationDateTo := yearEnd(year),
                                        reportTitleSearch := term, page := 1))
  }

  /**
   * `start_requests`: for each search term in order, one request per year
   * 1995..2024, each with page 1 and its own year window and title search;
   * the template's other fields are unchanged.
   */
  method StartRequests(yearStart: int -> int, yearEnd: int -> int) returns (reqs: seq<SearchRequest>)
    ensures |reqs| == |SearchTerms| * YearCount
    ensures forall k :: 0 <= k < |reqs| ==>
      reqs[k] == SearchFor(SearchTerms[k / YearCount], FirstYear + k % YearCount, yearStart, yearEnd)
    ensures forall k :: 0 <= k < |reqs| ==>
      && reqs[k].query.page == 1
      && reqs[k].query.urlPath == Template.urlPath
      && reqs[k].query.docCount == Template.docCount
      && reqs[k].query.reportTitleSearch == reqs[k].term
  {
    reqs := [];
    var t := 0;
    while t < |SearchTerms|
      invariant 0 <= t <= |SearchTerms|
      invariant |reqs| == t * YearCount
      invariant forall k :: 0 <= k < |reqs| ==>
        reqs[k] == SearchFor(SearchTerms[k / YearCount], FirstYear + k % YearCount, yearStart, yearEnd)
    {
      var y := FirstYear;
      while y < FirstYear + YearCount
        invariant FirstYear <= y <= FirstYear + YearCount
        invariant |reqs| == t * YearCount + (y - FirstYear)
        invariant forall k :: 0 <= k < |reqs| ==>
          reqs[k] == SearchFor(SearchTerms[k / YearCount], FirstYear + k % YearCount, yearStart, yearEnd)
      {
        assert |reqs| / YearCount == t && |reqs| % YearCount == y - FirstYear;
        reqs := reqs + [SearchFor(SearchTerms[t], y, yearStart, yearEnd)];
        y := y + 1;
      }
      t := t + 1;
    }
  }

  /**
   * Every (term, year) pair of the crawl is requested by exactly one start
   * request, so the crawl covers 4 terms times 30 years without repetition.
   */
  lemma StartRequestsCover(reqs: seq<SearchRequest>, yearStart: int -> int, yearEnd: int -> int, t: int, year: int)
    requires |reqs| == |SearchTerms| * YearCount
    requires forall k :: 0 <= k < |reqs| ==>
      reqs[k] == SearchFor(SearchTerms[k / YearCount], FirstYear + k % YearCount, yearStart, yearEnd)
    requires 0 <= t < |SearchTerms| && FirstYear <= year < FirstYear + YearCount
    ensures exists k :: 0 <= k < |reqs| && reqs[k].term == SearchTerms[t] && reqs[k].year == year
    ensures forall k, m :: 0 <= k < m < |reqs| ==> reqs[k].term != reqs[m].term || reqs[k].year != reqs[m].year
  {
    var k := t * YearCount + (year - FirstYear);
    assert k / YearCount == t && k % YearCount == year - FirstYear;
    assert reqs[k].term == SearchTerms[t] && reqs[k].year == year;
    forall k, m | 0 <= k < m < |reqs|
      ensures reqs[k].term != reqs[m].term || reqs[k].year != reqs[m].year
    {
      SearchTermsDistinct();
      var a, b := k / YearCount, m / YearCount;
      assert k == a * YearCount + k % YearCount && m == b * YearCount + m % YearCount;
      if a == b {
        assert k % YearCount != m % YearCount;
      } else {
        assert SearchTerms[a] != SearchTerms[b];
      }
    }
  }

  lemma SearchTermsDistinct()
    ensures forall i, j :: 0 <= i < j < |SearchTerms| ==> SearchTerms[i] != SearchTerms[j]
  {
    assert SearchTerms[0][0] == 'd' && SearchTerms[1][0] == 'u' && SearchTerms[2][0] == 'o' && SearchTerms[3][0] == 'l';
  }

  // ---------------------------------------------------------------------------
  // Title filter and detail requests
  // ---------------------------------------------------------------------------

  /** Titles containing any of these (after upper-casing) are not fetched. */
  const UnprocessWords: seq<string> := [
    "POSSIBLE DOWNGRADE",
    "POSSIBLE FURTHER DOWNGRADE",
    "POSSIBLE UPGRADE",
    "POSSIBLE FURTHER UPGRADE",
    "POSSIBLE STABLE",
    "POSSIBLE FURTHER STABLE",
    "POSSIBLE WATCH",
    "POSSIBLE FURTHER WATCH",
    "POSSIBLE REVIEW",
    "POSSIBLE FURTHER REVIEW",
    "POSSIBLE PLACEMENT",
    "POSSIBLE FURTHER PLACEMENT",
    "POSSIBLE WITHDRAW",
    "POSSIBLE FURTHER WITHDRAW",
    "POSSIBLE AFFIRM",
    "POSSIBLE FURTHER AFFIRM",
    "POSSIBLE OUTLOOK",
    "POSSIBLE FURTHER OUTLOOK",
    "POSSIBLE POSITIVE OUTLOOK",
    "POSSIBLE FURTHER POSITIVE OUTLOOK",
    "POSSIBLE NEGATIVE OUTLOOK",
    "POSSIBLE FURTHER NEGATIVE OUTLOOK",
    "POSSIBLE POSITIVE IMPLICATION",
    "POSSIBLE FURTHER POSITIVE IMPLICATION",
    "POSSIBLE NEGATIVE IMPLICATION",
    "POSSIBLE FURTHER NEGATIVE IMPLICATION",
    "POSSIBLE POSITIVE ACTION",
    "POSSIBLE FURTHER POSITIVE ACTION",
    "POSSIBLE NEGATIVE ACTION",
    "POSSIBLE FURTHER NEGATIVE ACTION",
    "POSSIBLE POSITIVE WATCH",
    "POSSIBLE FURTHER POSITIVE WATCH",
    "POSSIBLE NEGATIVE WATCH",
    "POSSIBLE FURTHER NEGATIVE WATCH",
    "POSSIBLE POSITIVE REVIEW",
    "POSSIBLE FURTHER POSITIVE REVIEW",
    "POSSIBLE NEGATIVE REVIEW",
    "POSSIBLE FURTHER NEGATIVE REVIEW"
  ]

  /** The common beginning of every entry of `UnprocessWords`. */
  const PossibleStem := "POSSIBLE "

  lemma UnprocessWordsShareStem()
    ensures forall k :: 0 <= k < |UnprocessWords| ==> PossibleStem <= UnprocessWords[k]
  {
  }

  /** Some entry of `words` occurs in `s`: the `for word in ...: if word in upper_title: break` scan. */
  function ContainsAny(s: string, words: seq<string>): (b: bool)
    ensures b <==> exists k :: 0 <= k < |words| && Contains(s, words[k])
  {
    if words == [] then false
    else
      assert forall k :: 1 <= k < |words| ==> words[k] == words[1..][k - 1];
      Contains(s, words[0]) || ContainsAny(s, words[1..])
  }

  predicate Blocked(title: string) {
    ContainsAny(Upper(title), UnprocessWords)
  }

  /** One hit of a search listing; `title` is `None` when the key is missing or null. */
  datatype SearchResult = SearchResult(publicationId: string, title: Option<string>)

  /** A detail request and the file its response is saved to. */
  datatype DetailRequest = DetailRequest(url: string, publicationId: string, saveTo: string)

  const ResearchApiUrl := "https://www.moodys.com/research/api/research/"

  function DetailFileName(publicationId: string): string {
    publicationId + ".json"
  }

  function DetailRequestFor(publicationId: string): DetailRequest {
    DetailRequest(ResearchApiUrl + publicationId, publicationId, DetailFileName(publicationId))
  }

  /** A hit gets a detail request: not yet saved, titled, and its title carries no excluded phrase. */
  predicate Admitted(r: SearchResult, saved: set<string>) {
    DetailFileName(r.publicationId) !in saved && r.title.Some? && !Blocked(r.title.value)
  }

  /**
   * `parse_page_data` over one listing page, with `saved` the names of the
   * files already in the year's `detail/` directory: a request is issued for
   * exactly the admitted hits, in listing order.
   */
  function ParsePageData(results: seq<SearchResult>, saved: set<string>): (reqs: seq<DetailRequest>)
    ensures |reqs| <= |results|
    ensures forall q :: q in reqs <==>
      exists i :: 0 <= i < |results| && Admitted(results[i], saved) && q == DetailRequestFor(results[i].publicationId)
  {
    if results == [] then []
    else
      var rest := ParsePageData(results[1..], saved);
      assert forall i :: 1 <= i < |results| ==> results[i] == results[1..][i - 1];
      if Admitted(results[0], saved) then [DetailRequestFor(results[0].publicationId)] + rest else rest
  }

  /** A single hit yields its one request when admitted and nothing otherwise. */
  lemma ParsePageDataUnit(r: SearchResult, saved: set<string>)
    ensures ParsePageData([], saved) == []
    ensures ParsePageData([r], saved) == if Admitted(r, saved) then [DetailRequestFor(r.publicationId)] else []
  {
    assert [r][1..] == [];
  }

  /**
   * Filtering a listing is filtering its parts in order: with
   * `ParsePageDataUnit` this fixes the result hit by hit, one request per
   * admitted hit, in listing order.
   */
  lemma {:induction false} ParsePageDataConcat(a: seq<SearchResult>, b: seq<SearchResult>, saved: set<string>)
    ensures ParsePageData(a + b, saved) == ParsePageData(a, saved) + ParsePageData(b, saved)
  {
    if a == [] {
      assert a + b == b;
    } else {
      assert (a + b)[0] == a[0] && (a + b)[1..] == a[1..] + b;
      ParsePageDataConcat(a[1..], b, saved);
      var head := if Admitted(a[0], saved) then [DetailRequestFor(a[0].publicationId)] else [];
      assert ParsePageData(a + b, saved) == head + ParsePageData(a[1..] + b, saved);
      assert ParsePageData(a, saved) == head + ParsePageData(a[1..], saved);
      assert head + (ParsePageData(a[1..], saved) + ParsePageData(b, saved))
          == (head + ParsePageData(a[1..], saved)) + ParsePageData(b, saved);
    }
  }

  /** A phrase occurs where a longer phrase beginning with it occurs. */
  lemma OccursPrefixOf(s: string, pat: string, pre: string, i: int)
    requires pre <= pat && Occurs(s, pat, i)
    ensures Occurs(s, pre, i)
  {
    assert s[i..i + |pre|] == s[i..i + |pat|][..|pre|];
  }

  /** A phrase cannot occur where a beginning of it does not. */
  lemma AbsentPrefixAbsentPhrase(s: string, pat: string, pre: string)
    requires pre <= pat && !Contains(s, pre)
    ensures !Contains(s, pat)
  {
    forall i | 0 <= i <= |s| && Occurs(s, pat, i)
      ensures Occurs(s, pre, i)
    {
      OccursPrefixOf(s, pat, pre, i);
    }
  }

  /** Only titles mentioning "POSSIBLE " (in any case) can be blocked. */
  lemma UnblockedWithoutStem(title: string)
    requires !Contains(Upper(title), PossibleStem)
    ensures !Blocked(title)
  {
    UnprocessWordsShareStem();
    forall k | 0 <= k < |UnprocessWords|
      ensures !Contains(Upper(title), UnprocessWords[k])
    {
      AbsentPrefixAbsentPhrase(Upper(title), UnprocessWords[k], PossibleStem);
    }
  }

  /** The filter ignores case: a title and its upper-cased form are treated alike. */
  lemma BlockedIgnoresCase(title: string)
    ensures Blocked(title) <==> Blocked(Upper(title))
  {
    UpperIdempotent(title);
  }

  /**
   * A titled hit that is not yet on disk and does not mention "POSSIBLE " is
   * always requested; a hit already on disk never is.
   */
  lemma ParsePageDataRequests(results: seq<SearchResult>, saved: set<string>, i: int)
    requires 0 <= i < |results|
    ensures results[i].title.Some? && DetailFileName(results[i].publicationId) !in saved
            && !Contains(Upper(results[i].title.value), PossibleStem)
            ==> DetailRequestFor(results[i].publicationId) in ParsePageData(results, saved)
    ensures DetailFileName(results[i].publicationId) in saved ==>
            forall q :: q in ParsePageData(results, saved) ==> q.publicationId != results[i].publicationId
  {
    if results[i].title.Some? && !Contains(Upper(results[i].title.value), PossibleStem) {
      UnblockedWithoutStem(results[i].title.value);
    }
  }

  // ---------------------------------------------------------------------------
  // Pagination
  // ---------------------------------------------------------------------------

  const PageSize := 200

  /** `doc_count // 200 + 1` with Python's flooring division. */
  function TotalPages(docCount: int): (pages: int)
    ensures PageSize * (pages - 1) <= docCount < PageSize * pages
  {
    docCount / PageSize + 1
  }

  /** A listing with documents asks for at least one page, and every document lies on a requested page. */
  lemma PagesCoverListing(docCount: int)
    requires docCount >= 0
    ensures TotalPages(docCount) >= 1
    ensures docCount < PageSize * TotalPages(docCount)
    ensures docCount % PageSize == 0 ==> PageSize * (TotalPages(docCount) - 1) == docCount
  {
  }

  /** `<term>_data<page>.json` in the year's `list/` directory. */
  function ListFileName(term: string, page: nat): string {
    term + "_data" + NatToString(page) + ".json"
  }

  /** Distinct pages of one term are cached in distinct files. */
  lemma ListFileNameInjective(term: string, i: nat, j: nat)
    requires ListFileName(term, i) == ListFileName(term, j)
    ensures i == j
  {
    var pre := term + "_data";
    var a, b := NatToString(i), NatToString(j);
    var s := ListFileName(term, i);
    assert |a| == |b|;
    assert s == pre + a + ".json" && s == pre + b + ".json";
    assert a == s[|pre|..|pre| + |a|];
    assert b == s[|pre|..|pre| + |b|];
  }

  /** What a cached listing page turned out to be: absent, unreadable, or its hits. */
  datatype ListCache = Missing | Unreadable | Cached(results: seq<SearchResult>)

  /** The handling of one page: its detail requests from the cache, or a request for the page itself. */
  datatype PageStep =
    | FromCache(page: nat, requests: seq<DetailRequest>)
    | FetchPage(page: nat, query: WidgetQuery, saveTo: string)

  /** The number of pages `parse` iterates over: `range(1, total_pages + 1)`. */
  function PageCount(listing: Option<int>): nat {
    match listing
    case None => 0
    case Some(n) => if TotalPages(n) >= 1 then TotalPages(n) else 0
  }

  /** The handling of page `page`: served from its list file when that reads, requested otherwise. */
  function PageStepFor(term: string, query: WidgetQuery, cache: string -> ListCache, saved: set<string>, page: nat): PageStep {
    var path := ListFileName(term, page);
    match cache(path)
    case Cached(results) => FromCache(page, ParsePageData(results, saved))
    case _ => FetchPage(page, query.(page := page), path)
  }

  /**
   * `parse` for a first-page response whose body is `null` (`None`) or carries
   * `docCount`. Pages 1..total are handled in order; a page whose list file
   * can be read is served from it, and every other page is requested anew
   * with its page number and the file to save it to.
   */
  method Paginate(term: string, query: WidgetQuery, listing: Option<int>, cache: string -> ListCache, saved: set<string>)
    returns (steps: seq<PageStep>)
    ensures |steps| == PageCount(listing)
    ensures listing.Some? && listing.value >= 0 ==> |steps| == TotalPages(listing.value)
    ensures forall k :: 0 <= k < |steps| ==> steps[k].page == k + 1
    ensures forall k :: 0 <= k < |steps| && cache(ListFileName(term, k + 1)).Cached? ==>
      steps[k] == FromCache(k + 1, ParsePageData(cache(ListFileName(term, k + 1)).results, saved))
    ensures forall k :: 0 <= k < |steps| && !cache(ListFileName(term, k + 1)).Cached? ==>
      steps[k] == FetchPage(k + 1, query.(page := k + 1), ListFileName(term, k + 1))
  {
    steps := [];
    var total := PageCount(listing);
    var i := 1;
    while i <= total
      invariant 1 <= i <= total + 1 && |steps| == i - 1
      invariant forall k :: 0 <= k < |steps| ==> steps[k] == PageStepFor(term, query, cache, saved, k + 1)
    {
      var step := PageStepFor(term, query, cache, saved, i);
      steps := steps + [step];
      i := i + 1;
    }
    forall k | 0 <= k < |steps|
      ensures steps[k].page == k + 1
      ensures cache(ListFileName(term, k + 1)).Cached? ==>
        steps[k] == FromCache(k + 1, ParsePageData(cache(ListFileName(term, k + 1)).results, saved))
      ensures !cache(ListFileName(term, k + 1)).Cached? ==>
        steps[k] == FetchPage(k + 1, query.(page := k + 1), ListFileName(term, k + 1))
    {
      assert steps[k] == PageStepFor(term, query, cache, saved, k + 1);
    }
  }

  // ---------------------------------------------------------------------------
  // Detail documents
  // ---------------------------------------------------------------------------

  const DocumentUrlPrefix := "https://www.moodys.com/research-document/"

  function DocumentUrl(asp: string): string {
    DocumentUrlPrefix + asp
  }

  /** The outcome of fetching the research document: a response, or an exception (for example a timeout). */
  datatype FetchOutcome = Fetched(status: nat, text: string) | FetchRaised

  /**
   * `parse_details`: a detail document is saved (`Some`) as it came when it
   * has a research payload; without one, its `s3Urls.asp` document is fetched
   * and a 200 response becomes the payload; otherwise nothing is saved.
   */
  function ParseDetails(publicationId: string, d: DetailRecord, fetch: string -> FetchOutcome): (saved: Option<DetailRecord>)
    ensures saved.Some? <==>
      d.researchPayload.Some? || (d.aspPath.Some? && fetch(DocumentUrl(d.aspPath.value)).Fetched?
                                  && fetch(DocumentUrl(d.aspPath.value)).status == 200)
    ensures saved.Some? ==> saved.value.researchPayload.Some? && saved.value.baseInfo == d.baseInfo
    ensures d.researchPayload.Some? ==> saved == Some(d)
    ensures d.researchPayload.None? && saved.Some? ==>
      saved.value.researchPayload.value
        == Payload(Some(fetch(DocumentUrl(d.aspPath.value)).text), Some(publicationId), true)
  {
    if d.researchPayload.Some? then Some(d)
    else if d.aspPath.None? then None
    else
      match fetch(DocumentUrl(d.aspPath.value))
      case Fetched(status, text) =>
        if status == 200 then Some(d.(researchPayload := Some(Payload(Some(text), Some(publicationId), true))))
        else None
      case FetchRaised => None
  }

  /**
   * Every detail document the crawler saves takes the payload branch of the
   * extraction (given its `baseInfo` list is not empty), and a fetched
   * document is what the extraction normalises.
   */
  lemma SavedDetailsReachTheModel(env: Extraction.Environment, publicationId: string, d: DetailRecord, fetch: string -> FetchOutcome)
    requires ParseDetails(publicationId, d, fetch).Some? && |d.baseInfo| > 0
    ensures Extraction.ProcessDetail(env, ParseDetails(publicationId, d, fetch).value).hasResearchPayload
    ensures d.researchPayload.None? ==>
      ParseDetails(publicationId, d, fetch).value.researchPayload.value.htmlContent
        == Some(fetch(DocumentUrl(d.aspPath.value)).text)
  {
  }
}
