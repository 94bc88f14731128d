/**
 * anjuke_crawler.py: the crawler that walks the list pages, visits every listing they link to,
 * and appends the accepted listings to the output CSV.
 *
 * The browser, the clock and the file system are oracles, as in the other modules: what visiting
 * one listing would observe is a `Visit`, what loading one list page would observe a `ListPage`.
 * The output CSV is a sequence of rows of cells, `None` while the file does not exist.
 */
module Crawler {

  import opened Common
  import opened Text
  import opened Utils
  import opened Config
  import opened Logging
  import opened DuplicateChecking
  import opened DataExtraction
  import opened ListPages
  import opened AntiCrawler

  /** The output CSV: its rows of cells, or `None` while the file does not exist. */
  type CsvRows = Option<seq<seq<string>>>

  function RowsOf(csv: CsvRows): seq<seq<string>> {
    if csv.Some? then csv.value else []
  }

  /**
   * What crawling one listing observes: the navigation steps of `safe_navigate` (response, the
   * page-load delay, the verification encounter and its log write, the simulated browsing), what
   * the extraction script evaluates to, and whether the CSV opens for appending.
   */
  datatype Visit = Visit(
    response: Outcome<int>, delayOk: bool, encounter: Encounter, write: LogWrite, humanOk: bool,
    evaluated: Outcome<Record>, csvOpens: bool)

  /** What loading one list page observes: the status, the link script's result, the visit of its k-th link. */
  datatype ListPage = ListPage(status: Outcome<int>, script: Outcome<seq<string>>, visits: nat -> Visit)

  /** What the crawler sees of its duplicate checker: none, or the checker's switch and loaded ids. */
  datatype CheckerView = NoChecker | CheckerView(enabled: bool, ids: set<string>)

  /** The two switches `handle_verification` reads. */
  function VerificationSettings(s: Settings): VerificationConfig {
    VerificationConfig(s.enableAutoVerification, s.enableVerificationLog)
  }

  function BoundsOf(s: Settings): Bounds {
    Bounds(s.minPrice, s.maxPrice, s.minArea, s.maxArea)
  }

  /** The file the duplicate checker is built on: `duplicate_csv_file` when set, else `csv_filename`. */
  function DuplicateFileFor(s: Settings): (file: string)
    ensures s.duplicateCsvFile != [] ==> file == s.duplicateCsvFile
    ensures s.duplicateCsvFile == [] ==> file == s.csvFilename
  {
    if s.duplicateCsvFile != [] then s.duplicateCsvFile else s.csvFilename
  }

  // ---------------------------------------------------------------------------
  // One listing

  /** `safe_navigate(page, url)` answers true. */
  predicate Navigated(s: Settings, v: Visit) {
    v.response == Returned(200) && v.delayOk && Handle(VerificationSettings(s), v.encounter) != GaveUp && v.humanOk
  }

  /** `extract_data`'s answer when it is truthy; `None` also stands for the empty dict. */
  function DataOf(s: Settings, v: Visit): (data: Option<Record>)
    ensures data.Some? ==> data.value != map[]
  {
    var data := ExtractData(v.evaluated, s.validateData, BoundsOf(s));
    if data.Some? && data.value != map[] then data else None
  }

  /** `data.get('房源编号', '').strip()`. */
  function HouseId(data: Record): string {
    Strip(FieldOf(data, IdColumn))
  }

  /** `self.duplicate_checker and self.duplicate_checker.is_duplicate(house_id)`. */
  predicate DuplicateIn(view: CheckerView, houseId: string) {
    view.CheckerView? && view.enabled && houseId != [] && houseId in view.ids
  }

  /** `DictWriter.writerow` raises on a key that is not one of the CSV fields. */
  predicate FitsFields(data: Record) {
    forall k :: k in data ==> k in CsvFields
  }

  /** The row `DictWriter` writes: the record's value of each field, in field order, `''` when absent. */
  function RowOf(data: Record): seq<string> {
    seq(|CsvFields|, i requires 0 <= i < |CsvFields| => FieldOf(data, CsvFields[i]))
  }

  /**
   * `_save_to_csv(data)` once the file opened: opening in append mode creates a missing file,
   * and the row follows unless a key is outside the fields.
   */
  function SavedCsv(csv: CsvRows, data: Record): CsvRows {
    Some(RowsOf(csv) + if FitsFields(data) then [RowOf(data)] else [])
  }

  /** Whether `crawl_single_house` answers true: every step succeeded, in order. */
  predicate Crawled(s: Settings, view: CheckerView, v: Visit)
    ensures Crawled(s, view, v) ==> v.response == Returned(200) && v.csvOpens
    ensures Crawled(s, view, v) ==> v.evaluated.Returned? && FitsFields(v.evaluated.value)
  {
    Navigated(s, v) && DataOf(s, v).Some? && !DuplicateIn(view, HouseId(DataOf(s, v).value)) &&
    v.csvOpens && FitsFields(DataOf(s, v).value)
  }

  /** The output CSV after crawling one listing: the save is reached only past the duplicate check. */
  function CsvAfterVisit(csv: CsvRows, s: Settings, view: CheckerView, v: Visit): CsvRows {
    if Navigated(s, v) && DataOf(s, v).Some? && !DuplicateIn(view, HouseId(DataOf(s, v).value)) && v.csvOpens
    then SavedCsv(csv, DataOf(s, v).value)
    else csv
  }

  /** The verification log after crawling one listing: only a 200 response whose delay passed reaches verification. */
  function LogAfterVisit(log: Option<seq<string>>, enabled: bool, s: Settings, v: Visit): Option<seq<string>> {
    if v.response == Returned(200) && v.delayOk then LogAfter(log, enabled, VerificationSettings(s), v.encounter, v.write)
    else log
  }

  // ---------------------------------------------------------------------------
  // A batch of listings

  /** How many of `xs` satisfy `p`. */
  function Count<T>(p: T -> bool, xs: seq<T>): (n: nat)
    ensures n <= |xs|
  {
    if xs == [] then 0
    else Count(p, xs[..|xs| - 1]) + if p(xs[|xs| - 1]) then 1 else 0
  }

  /** How many of the visits crawl successfully. */
  function CountCrawled(s: Settings, view: CheckerView, visits: seq<Visit>): nat {
    Count(CrawledWith(s, view), visits)
  }

  function CrawledWith(s: Settings, view: CheckerView): Visit -> bool {
    v => Crawled(s, view, v)
  }

  function CsvAfterVisits(csv: CsvRows, s: Settings, view: CheckerView, visits: seq<Visit>): CsvRows {
    if visits == [] then csv
    else CsvAfterVisit(CsvAfterVisits(csv, s, view, visits[..|visits| - 1]), s, view, visits[|visits| - 1])
  }

  function LogAfterVisits(log: Option<seq<string>>, enabled: bool, s: Settings, visits: seq<Visit>): Option<seq<string>> {
    if visits == [] then log
    else LogAfterVisit(LogAfterVisits(log, enabled, s, visits[..|visits| - 1]), enabled, s, visits[|visits| - 1])
  }

  // ---------------------------------------------------------------------------
  // The list pages

  /** The links `extract_house_links` answers for a list page. */
  function LinksOf(page: ListPage, maxHouses: int): seq<string> {
    HouseLinks(page.status, page.script, maxHouses)
  }

  /** The visits of a page's links, in link order. */
  function VisitsOf(page: ListPage, maxHouses: int): seq<Visit> {
    seq(|LinksOf(page, maxHouses)|, k requires 0 <= k => page.visits(k))
  }

  /** How many links the first `n` started pages handed to the batch crawler. */
  function LinksProcessed(pages: nat -> ListPage, maxHouses: int, n: nat): nat {
    if n == 0 then 0 else LinksProcessed(pages, maxHouses, n - 1) + |LinksOf(pages(n - 1), maxHouses)|
  }

  /** `_prepare_csv` (re)creates the file when it does not exist or append mode is off. */
  predicate CsvNeedsCreating(csv: CsvRows, s: Settings) {
    csv.None? || !s.appendMode
  }

  /** The output CSV after a `_prepare_csv` that succeeds: a header-only file unless an existing one is appended to. */
  function PreparedCsv(csv: CsvRows, s: Settings): CsvRows {
    if CsvNeedsCreating(csv, s) then Some([CsvFields]) else csv
  }

  /** The output CSV after the batches of the first `n` started pages; a page without links adds nothing. */
  function CsvAfterPages(csv: CsvRows, s: Settings, view: CheckerView, pages: nat -> ListPage, maxHouses: int, n: nat): CsvRows {
    if n == 0 then csv
    else CsvAfterVisits(CsvAfterPages(csv, s, view, pages, maxHouses, n - 1), s, view, VisitsOf(pages(n - 1), maxHouses))
  }

  /** How many listings of the first `n` started pages crawl successfully. */
  function SuccessesInPages(s: Settings, view: CheckerView, pages: nat -> ListPage, maxHouses: int, n: nat): nat {
    if n == 0 then 0
    else SuccessesInPages(s, view, pages, maxHouses, n - 1) + CountCrawled(s, view, VisitsOf(pages(n - 1), maxHouses))
  }

  /** The verification log after the batches of the first `n` started pages. */
  function LogAfterPages(log: Option<seq<string>>, enabled: bool, s: Settings, pages: nat -> ListPage, maxHouses: int, n: nat): Option<seq<string>> {
    if n == 0 then log
    else LogAfterVisits(LogAfterPages(log, enabled, s, pages, maxHouses, n - 1), enabled, s, VisitsOf(pages(n - 1), maxHouses))
  }

  /** The page numbers after which the first `n` started pages of `total` pause: those with links, but not the last page. */
  function DelaysAfter(pages: nat -> ListPage, maxHouses: int, n: nat, total: nat): seq<nat> {
    if n == 0 then []
    else
      var paused := LinksOf(pages(n - 1), maxHouses) != [] && n < total;
      DelaysAfter(pages, maxHouses, n - 1, total) + (if paused then [n] else [])
  }

  // ---------------------------------------------------------------------------
  // The crawler

  class AnjukeCrawler {
    const settings: Settings
    const log: Logger
    const stats: StatisticsTracker
    const checker: DuplicateChecker?
    /** Whether `self.browser` / `self.page` are set. */
    var browserOpen: bool
    var pageOpen: bool
    var csv: CsvRows

    /** The duplicate checker's switch and ids, as the crawler queries them. */
    function View(): CheckerView
      reads this, checker
    {
      if checker == null then NoChecker else CheckerView(checker.enabled, checker.crawledIds)
    }

    /**
     * `AnjukeCrawler()`: no browser yet, fresh statistics, and with duplicate checking on, an
     * enabled checker loaded from `DuplicateFileFor(settings)`; with it off, no checker.
     */
    constructor (settings: Settings, log: Logger, env: Option<seq<string>>, files: map<string, CsvFile>, csv: CsvRows)
      ensures this.settings == settings && this.log == log && this.csv == csv
      ensures !browserOpen && !pageOpen
      ensures fresh(stats) && stats.successCount == 0 && stats.failedCount == 0
      ensures settings.enableDuplicateCheck ==>
        checker != null && fresh(checker) && checker.enabled &&
        checker.csvFile == Some(ResolvedFile(Some(DuplicateFileFor(settings)), env)) &&
        checker.crawledIds == LoadedIds(ResolvedFile(Some(DuplicateFileFor(settings)), env), files)
      ensures !settings.enableDuplicateCheck ==> checker == null
    {
      this.settings := settings;
      this.log := log;
      stats := new StatisticsTracker();
      if settings.enableDuplicateCheck {
        var file := if settings.duplicateCsvFile != [] then settings.duplicateCsvFile else settings.csvFilename;
        var c := new DuplicateChecker(Some(file), env, files);
        c.Enable(true);
        checker := c;
      } else {
        checker := null;
      }
      browserOpen := false;
      pageOpen := false;
      this.csv := csv;
    }

    /**
     * `start`: nothing when a browser is already set; otherwise launch it, then open its page.
     * A failing launch leaves both unset, a failing page leaves only the browser set; either raises.
     */
    method Start(launchOk: bool, pageOk: bool) returns (raised: bool)
      modifies this
      ensures old(browserOpen) ==> !raised && browserOpen && pageOpen == old(pageOpen)
      ensures !old(browserOpen) ==>
        browserOpen == launchOk && raised == !(launchOk && pageOk) &&
        pageOpen == ((launchOk && pageOk) || old(pageOpen))
      ensures csv == old(csv)
    {
      if browserOpen {
        return false;
      }
      if !launchOk {
        return true;
      }
      browserOpen := true;
      if !pageOk {
        return true;
      }
      pageOpen := true;
      return false;
    }

    /** `close`: with a browser set, closes it and unsets both fields; without one, does nothing. */
    method Close()
      modifies this
      ensures !browserOpen
      ensures old(browserOpen) ==> !pageOpen
      ensures !old(browserOpen) ==> pageOpen == old(pageOpen)
      ensures csv == old(csv)
    {
      if browserOpen {
        browserOpen := false;
        pageOpen := false;
      }
    }

    /**
     * `_prepare_csv`: a fresh file holding only the header when none exists or append mode is off.
     * `createOk` says whether opening the file for writing succeeds; when it does not, the error
     * propagates (`raised`) and the file is left as it was. Appending opens nothing.
     */
    method PrepareCsv(createOk: bool) returns (raised: bool)
      modifies this
      ensures raised <==> CsvNeedsCreating(old(csv), settings) && !createOk
      ensures csv == if raised then old(csv) else PreparedCsv(old(csv), settings)
      ensures browserOpen == old(browserOpen) && pageOpen == old(pageOpen)
    {
      raised := false;
      if csv.None? || !settings.appendMode {
        if !createOk {
          return true;
        }
        csv := Some([CsvFields]);
      }
    }

    /** `_save_to_csv(data)`: a failing open or a key outside the fields raises (the error is re-raised). */
    method SaveToCsv(data: Record, opens: bool) returns (raised: bool)
      modifies this
      ensures raised <==> !opens || !FitsFields(data)
      ensures csv == if opens then SavedCsv(old(csv), data) else old(csv)
      ensures browserOpen == old(browserOpen) && pageOpen == old(pageOpen)
    {
      if !opens {
        return true;
      }
      csv := Some(RowsOf(csv));
      if !FitsFields(data) {
        assert RowsOf(old(csv)) + [] == RowsOf(old(csv));
        return true;
      }
      csv := Some(RowsOf(csv) + [RowOf(data)]);
      return false;
    }

    /**
     * `crawl_single_house(url)`: navigate, extract, skip a duplicate, save; the first step that
     * fails answers false, and `handle_errors(False)` turns the save's exception into false.
     * Saving does not tell the duplicate checker about the id.
     */
    method CrawlSingleHouse(v: Visit) returns (ok: bool)
      modifies this, log
      ensures ok <==> Crawled(settings, View(), v)
      ensures csv == CsvAfterVisit(old(csv), settings, View(), v)
      ensures log.verificationLog == LogAfterVisit(old(log.verificationLog), old(log.verificationEnabled), settings, v)
      ensures log.verificationEnabled == old(log.verificationEnabled)
      ensures browserOpen == old(browserOpen) && pageOpen == old(pageOpen)
    {
      var navigated := SafeNavigate(log, VerificationSettings(settings), v.response, settings.pageLoadDelay,
                                    v.delayOk, v.encounter, v.write, v.humanOk);
      if !navigated {
        return false;
      }
      var data := DataOf(settings, v);
      if data.None? {
        return false;
      }
      if checker != null {
        var houseId := HouseId(data.value);
        if checker.IsDuplicate(houseId) {
          return false;
        }
      }
      var raised := SaveToCsv(data.value, v.csvOpens);
      ok := !raised;
    }

    /** `crawl_house_batch(links)`: one crawl per link, in order, each counted as a success or a failure. */
    method CrawlHouseBatch(visits: seq<Visit>) returns (n: nat)
      modifies this, log, stats
      ensures n == CountCrawled(settings, View(), visits)
      ensures stats.successCount == old(stats.successCount) + n
      ensures stats.failedCount == old(stats.failedCount) + (|visits| - n)
      ensures csv == CsvAfterVisits(old(csv), settings, View(), visits)
      ensures log.verificationLog == LogAfterVisits(old(log.verificationLog), old(log.verificationEnabled), settings, visits)
      ensures log.verificationEnabled == old(log.verificationEnabled)
      ensures browserOpen == old(browserOpen) && pageOpen == old(pageOpen)
    {
      n := 0;
      for i := 0 to |visits|
        invariant n == CountCrawled(settings, View(), visits[..i])
        invariant stats.successCount == old(stats.successCount) + n
        invariant stats.failedCount == old(stats.failedCount) + (i - n)
        invariant csv == CsvAfterVisits(old(csv), settings, View(), visits[..i])
        invariant log.verificationLog == LogAfterVisits(old(log.verificationLog), old(log.verificationEnabled), settings, visits[..i])
        invariant log.verificationEnabled == old(log.verificationEnabled)
        invariant browserOpen == old(browserOpen) && pageOpen == old(pageOpen)
      {
        assert visits[..i + 1][..i] == visits[..i];
        var ok := CrawlSingleHouse(visits[i]);
        if ok {
          n := n + 1;
          stats.RecordSuccess();
        } else {
          stats.RecordFailure();
        }
      }
      assert visits[..|visits|] == visits;
    }

    /** `_crawl_detail_pages(links)`: the batch crawler over the links, answering whether any listing was saved. */
    method CrawlDetailPages(visits: seq<Visit>) returns (ok: bool)
      modifies this, log, stats
      ensures ok <==> CountCrawled(settings, View(), visits) > 0
      ensures stats.successCount == old(stats.successCount) + CountCrawled(settings, View(), visits)
      ensures stats.failedCount == old(stats.failedCount) + (|visits| - CountCrawled(settings, View(), visits))
      ensures csv == CsvAfterVisits(old(csv), settings, View(), visits)
      ensures log.verificationLog == LogAfterVisits(old(log.verificationLog), old(log.verificationEnabled), settings, visits)
      ensures log.verificationEnabled == old(log.verificationEnabled)
      ensures browserOpen == old(browserOpen) && pageOpen == old(pageOpen)
    {
      var n := CrawlHouseBatch(visits);
      ok := n > 0;
    }

    /**
     * One turn of the page loop's `try` block: extract the page's links and, when there are any,
     * crawl them as one batch. Answers how many links there were.
     */
    method CrawlListPage(page: ListPage, maxHouses: int) returns (count: nat)
      modifies this, log, stats
      ensures count == |LinksOf(page, maxHouses)|
      ensures stats.successCount == old(stats.successCount) + CountCrawled(settings, View(), VisitsOf(page, maxHouses))
      ensures csv == CsvAfterVisits(old(csv), settings, View(), VisitsOf(page, maxHouses))
      ensures log.verificationLog ==
        LogAfterVisits(old(log.verificationLog), old(log.verificationEnabled), settings, VisitsOf(page, maxHouses))
      ensures stats.successCount + stats.failedCount == old(stats.successCount) + old(stats.failedCount) + count
      ensures stats.successCount >= old(stats.successCount)
      ensures log.verificationEnabled == old(log.verificationEnabled)
      ensures browserOpen == old(browserOpen) && pageOpen == old(pageOpen)
    {
      var links := ExtractHouseLinks(page.status, page.script, maxHouses);
      count := |links|;
      if links == [] {
        return;
      }
      var visits := seq(|links|, k requires 0 <= k => page.visits(k));
      assert visits == VisitsOf(page, maxHouses);
      var _ := CrawlHouseBatch(visits);
    }

    /**
     * Page `k` of the walk of `total` pages, started once the first `k` pages are done: the
     * processed-link count, the pauses, the CSV, the verification log and the statistics move on
     * from their state after `k` pages to their state after `k + 1`.
     */
    method StartPage(pages: nat -> ListPage, mh: int, k: nat, total: nat, processed0: nat, delays0: seq<nat>,
                     ghost csv0: CsvRows, ghost log0: Option<seq<string>>, ghost enabled: bool,
                     ghost successes0: nat, ghost tally0: nat)
      returns (processed: nat, delays: seq<nat>)
      modifies this, log, stats
      requires processed0 == LinksProcessed(pages, mh, k)
      requires delays0 == DelaysAfter(pages, mh, k, total)
      requires csv == CsvAfterPages(csv0, settings, View(), pages, mh, k)
      requires log.verificationLog == LogAfterPages(log0, enabled, settings, pages, mh, k)
      requires log.verificationEnabled == enabled
      requires stats.successCount == successes0 + SuccessesInPages(settings, View(), pages, mh, k)
      requires stats.successCount + stats.failedCount == tally0 + processed0
      ensures processed == LinksProcessed(pages, mh, k + 1)
      ensures delays == DelaysAfter(pages, mh, k + 1, total)
      ensures csv == CsvAfterPages(csv0, settings, View(), pages, mh, k + 1)
      ensures log.verificationLog == LogAfterPages(log0, enabled, settings, pages, mh, k + 1)
      ensures log.verificationEnabled == enabled
      ensures stats.successCount == successes0 + SuccessesInPages(settings, View(), pages, mh, k + 1)
      ensures stats.successCount + stats.failedCount == tally0 + processed
      ensures browserOpen == old(browserOpen) && pageOpen == old(pageOpen)
    {
      var count := CrawlListPage(pages(k), mh);
      processed, delays := processed0, delays0;
      if count != 0 {
        processed := processed + count;
        if k + 1 < total {
          delays := delays + [k + 1];
        }
      }
    }

    /**
     * The page loop of `crawl_from_list_pages` over `total` list pages: before each page it stops
     * once `success_count` has reached `max_total_houses`; a page without links is skipped; a page
     * with links goes to the batch crawler and, unless it is the last page, is followed by a pause.
     */
    method WalkPages(pages: nat -> ListPage, mh: int, total: nat)
      returns (started: nat, processed: nat, delays: seq<nat>, ghost startCounts: seq<int>)
      modifies this, log, stats
      ensures started <= total
      ensures started < total ==> stats.successCount >= settings.maxTotalHouses
      ensures |startCounts| == started
      ensures forall j :: 0 <= j < started ==> startCounts[j] < settings.maxTotalHouses
      ensures processed == LinksProcessed(pages, mh, started)
      ensures delays == DelaysAfter(pages, mh, started, total)
      ensures csv == CsvAfterPages(old(csv), settings, View(), pages, mh, started)
      ensures log.verificationLog ==
        LogAfterPages(old(log.verificationLog), old(log.verificationEnabled), settings, pages, mh, started)
      ensures stats.successCount == old(stats.successCount) + SuccessesInPages(settings, View(), pages, mh, started)
      ensures stats.successCount + stats.failedCount == old(stats.successCount) + old(stats.failedCount) + processed
      ensures log.verificationEnabled == old(log.verificationEnabled)
      ensures browserOpen == old(browserOpen) && pageOpen == old(pageOpen)
    {
      processed, delays, startCounts := 0, [], [];
      started := 0;
      while started < total
        invariant started <= total
        invariant |startCounts| == started
        invariant forall j :: 0 <= j < started ==> startCounts[j] < settings.maxTotalHouses
        invariant processed == LinksProcessed(pages, mh, started)
        invariant delays == DelaysAfter(pages, mh, started, total)
        invariant csv == CsvAfterPages(old(csv), settings, View(), pages, mh, started)
        invariant log.verificationLog ==
          LogAfterPages(old(log.verificationLog), old(log.verificationEnabled), settings, pages, mh, started)
        invariant stats.successCount == old(stats.successCount) + SuccessesInPages(settings, View(), pages, mh, started)
        invariant stats.successCount + stats.failedCount == old(stats.successCount) + old(stats.failedCount) + processed
        invariant log.verificationEnabled == old(log.verificationEnabled)
        invariant browserOpen == old(browserOpen) && pageOpen == old(pageOpen)
      {
        if stats.successCount >= settings.maxTotalHouses {
          break;
        }
        startCounts := startCounts + [stats.successCount];
        processed, delays := StartPage(pages, mh, started, total, processed, delays,
                                       old(csv), old(log.verificationLog), old(log.verificationEnabled),
                                       old(stats.successCount), old(stats.successCount) + old(stats.failedCount));
        started := started + 1;
      }
    }

    /**
     * `crawl_from_list_pages`: without a page it raises `RuntimeError`. Otherwise it builds the
     * list-page URLs and prepares the CSV; creating the file may fail (`csvCreateOk` false), and the
     * `OSError` then leaves the call, which no handler guards. Otherwise it walks the pages in order:
     * before each page it stops once `success_count` has reached `max_total_houses`; a page without
     * links is skipped; a page with
     * links goes to the batch crawler and, unless it is the last page, is followed by a pause. It
     * answers whether `success_count` is positive. `started` is the number of pages begun,
     * `startCounts` the success count each of them began with, `delays` the page numbers paused after.
     */
    method CrawlFromListPages(maxPages: Option<int>, maxHousesPerPage: Option<int>, pages: nat -> ListPage,
                              env: Option<seq<string>>, csvCreateOk: bool)
      returns (r: Outcome<bool>, started: nat, processed: nat, delays: seq<nat>, ghost startCounts: seq<int>)
      modifies this, log, stats
      ensures !old(pageOpen) ==> r == Raised("RuntimeError")
      ensures old(pageOpen) && CsvNeedsCreating(old(csv), settings) && !csvCreateOk ==> r == Raised("OSError")
      ensures r.Raised? ==>
        csv == old(csv) && stats.successCount == old(stats.successCount) &&
        stats.failedCount == old(stats.failedCount) && log.verificationLog == old(log.verificationLog) && started == 0
      ensures old(pageOpen) && (CsvNeedsCreating(old(csv), settings) ==> csvCreateOk) ==> r == Returned(stats.successCount > 0)
      ensures r.Returned? ==>
        |log.emitted| >= 2 &&
        log.emitted[|log.emitted| - 2..] == StopMessages(env, stats.successCount, stats.failedCount)
      ensures var mh := maxHousesPerPage.GetOr(settings.maxHousesPerPage);
        var total := |ListUrls(settings.baseUrl, settings.targetRegions, maxPages.GetOr(settings.maxPages))|;
        r.Returned? ==>
          started <= total &&
          (started < total ==> stats.successCount >= settings.maxTotalHouses) &&
          |startCounts| == started &&
          (forall j :: 0 <= j < started ==> startCounts[j] < settings.maxTotalHouses) &&
          processed == LinksProcessed(pages, mh, started) &&
          delays == DelaysAfter(pages, mh, started, total) &&
          stats.successCount == old(stats.successCount) + SuccessesInPages(settings, View(), pages, mh, started) &&
          csv == CsvAfterPages(PreparedCsv(old(csv), settings), settings, View(), pages, mh, started) &&
          log.verificationLog ==
            LogAfterPages(old(log.verificationLog), old(log.verificationEnabled), settings, pages, mh, started)
      ensures stats.successCount + stats.failedCount == old(stats.successCount) + old(stats.failedCount) + processed
      ensures stats.successCount >= old(stats.successCount)
      ensures log.verificationEnabled == old(log.verificationEnabled)
      ensures browserOpen == old(browserOpen) && pageOpen == old(pageOpen)
    {
      if !pageOpen {
        return Raised("RuntimeError"), 0, 0, [], [];
      }
      var mp := maxPages.GetOr(settings.maxPages);
      var mh := maxHousesPerPage.GetOr(settings.maxHousesPerPage);
      var urls := GenerateListUrls(settings.baseUrl, settings.targetRegions, Some(mp), settings.maxPages);
      var raised := PrepareCsv(csvCreateOk);
      if raised {
        return Raised("OSError"), 0, 0, [], [];
      }
      started, processed, delays, startCounts := WalkPages(pages, mh, |urls|);
      log.CrawlerStop(env, stats.GetStats());
      r := Returned(stats.successCount > 0);
    }
  }

  // ---------------------------------------------------------------------------
  // Properties

  /** A count is positive exactly when some element satisfies the predicate. */
  lemma {:induction false} CountPositive<T>(p: T -> bool, xs: seq<T>)
    ensures Count(p, xs) > 0 <==> exists i :: 0 <= i < |xs| && p(xs[i])
  {
    if xs != [] {
      var init := xs[..|xs| - 1];
      CountPositive(p, init);
      if Count(p, init) > 0 {
        var i :| 0 <= i < |init| && p(init[i]);
        assert xs[i] == init[i];
      } else if exists i :: 0 <= i < |xs| && p(xs[i]) {
        var i :| 0 <= i < |xs| && p(xs[i]);
        if i < |init| {
          assert init[i] == xs[i];
        }
      }
    }
  }

  lemma {:induction false} CountIsSetSize<T>(p: T -> bool, xs: seq<T>)
    ensures Count(p, xs) == |set i | 0 <= i < |xs| && p(xs[i])|
  {
    if xs != [] {
      var init := xs[..|xs| - 1];
      CountIsSetSize(p, init);
      var before := set i | 0 <= i < |init| && p(init[i]);
      var after := set i | 0 <= i < |xs| && p(xs[i]);
      var last := |xs| - 1;
      if p(xs[last]) {
        assert after == before + {last};
      } else {
        assert after == before;
      }
    }
  }

  /** A successful crawl appends exactly one row, so the CSV gains one row per success and keeps what it had. */
  lemma {:induction false} RowsPerSuccess(csv: CsvRows, s: Settings, view: CheckerView, visits: seq<Visit>)
    ensures RowsOf(csv) <= RowsOf(CsvAfterVisits(csv, s, view, visits))
    ensures |RowsOf(CsvAfterVisits(csv, s, view, visits))| == |RowsOf(csv)| + CountCrawled(s, view, visits)
  {
    if visits != [] {
      RowsPerSuccess(csv, s, view, visits[..|visits| - 1]);
    }
  }

  /**
   * Over the whole page loop, every earlier CSV row stays in place and exactly one row is added per
   * listing counted as a success.
   */
  lemma {:induction false} PagesRowsPerSuccess(csv: CsvRows, s: Settings, view: CheckerView, pages: nat -> ListPage, maxHouses: int, n: nat)
    ensures RowsOf(csv) <= RowsOf(CsvAfterPages(csv, s, view, pages, maxHouses, n))
    ensures |RowsOf(CsvAfterPages(csv, s, view, pages, maxHouses, n))| == |RowsOf(csv)| + SuccessesInPages(s, view, pages, maxHouses, n)
  {
    if n != 0 {
      PagesRowsPerSuccess(csv, s, view, pages, maxHouses, n - 1);
      RowsPerSuccess(CsvAfterPages(csv, s, view, pages, maxHouses, n - 1), s, view, VisitsOf(pages(n - 1), maxHouses));
    }
  }

  /** The verification log only grows while a batch is crawled. */
  lemma {:induction false} LogOnlyGrows(log: Option<seq<string>>, enabled: bool, s: Settings, visits: seq<Visit>)
    ensures LinesOf(log) <= LinesOf(LogAfterVisits(log, enabled, s, visits))
  {
    if visits != [] {
      LogOnlyGrows(log, enabled, s, visits[..|visits| - 1]);
    }
  }

  /**
   * Saving a record does not tell the duplicate checker about its id: the same listing crawled
   * twice in one batch is saved twice.
   */
  lemma RepeatedListingSavedTwice(csv: CsvRows, s: Settings, view: CheckerView, v: Visit)
    requires Crawled(s, view, v)
    ensures CountCrawled(s, view, [v, v]) == 2
    ensures RowsOf(CsvAfterVisits(csv, s, view, [v, v])) ==
      RowsOf(csv) + [RowOf(DataOf(s, v).value), RowOf(DataOf(s, v).value)]
  {
    CountPair(CrawledWith(s, view), v, v);
    CsvAfterPair(csv, s, view, v, v);
    SavedOnce(csv, s, view, v);
    SavedOnce(CsvAfterVisit(csv, s, view, v), s, view, v);
  }

  lemma CountPair<T>(p: T -> bool, a: T, b: T)
    ensures Count(p, [a, b]) == (if p(a) then 1 else 0) + (if p(b) then 1 else 0)
  {
    assert [a, b][..1] == [a];
    assert [a][..0] == [];
  }

  lemma CsvAfterPair(csv: CsvRows, s: Settings, view: CheckerView, a: Visit, b: Visit)
    ensures CsvAfterVisits(csv, s, view, [a, b]) == CsvAfterVisit(CsvAfterVisit(csv, s, view, a), s, view, b)
  {
    assert [a, b][..1] == [a];
    assert [a][..0] == [];
    assert CsvAfterVisits(csv, s, view, [a]) == CsvAfterVisit(csv, s, view, a);
  }

  /** A successful crawl appends the record's row. */
  lemma SavedOnce(csv: CsvRows, s: Settings, view: CheckerView, v: Visit)
    requires Crawled(s, view, v)
    ensures CsvAfterVisit(csv, s, view, v) == Some(RowsOf(csv) + [RowOf(DataOf(s, v).value)])
  {
  }

  /** A listing whose stripped id the enabled checker holds is skipped: nothing is saved. */
  lemma DuplicateIsSkipped(csv: CsvRows, s: Settings, view: CheckerView, v: Visit)
    requires DataOf(s, v).Some? && view.CheckerView? && view.enabled
    requires HouseId(DataOf(s, v).value) != [] && HouseId(DataOf(s, v).value) in view.ids
    ensures !Crawled(s, view, v)
    ensures CsvAfterVisit(csv, s, view, v) == csv
  {
  }

  /**
   * A saved listing passed every gate: the page answered 200, the verification did not give up,
   * the record is non-empty, fits the CSV fields and, with validation on, passed `validate_data`.
   */
  lemma CrawledListingPassedGates(s: Settings, view: CheckerView, v: Visit)
    requires Crawled(s, view, v)
    ensures v.response == Returned(200) && Handle(VerificationSettings(s), v.encounter) != GaveUp
    ensures v.evaluated.Returned? && v.evaluated.value != map[] && FitsFields(v.evaluated.value)
    ensures s.validateData ==> DataExtraction.ValidateData(v.evaluated.value, BoundsOf(s))
    ensures !DuplicateIn(view, HouseId(v.evaluated.value))
  {
  }

  /**
   * The written row reads back as the record: one cell per CSV field in field order, each the
   * record's value or `''`, and every value of a record that fits the fields sits under its field.
   */
  lemma RowKeepsRecord(data: Record)
    ensures |RowOf(data)| == |CsvFields|
    ensures forall i :: 0 <= i < |CsvFields| ==> RowOf(data)[i] == FieldOf(data, CsvFields[i])
    ensures FitsFields(data) ==>
      forall k :: k in data ==> exists i :: 0 <= i < |CsvFields| && CsvFields[i] == k && RowOf(data)[i] == data[k]
  {
    if FitsFields(data) {
      forall k | k in data
        ensures exists i :: 0 <= i < |CsvFields| && CsvFields[i] == k && RowOf(data)[i] == data[k]
      {
        var i :| 0 <= i < |CsvFields| && CsvFields[i] == k;
        assert RowOf(data)[i] == data[k];
      }
    }
  }

  /** The pauses come after started pages only, in increasing order, and never after the last page. */
  lemma {:induction false} DelaysSkipLastPage(pages: nat -> ListPage, maxHouses: int, n: nat, total: nat)
    ensures forall j :: 0 <= j < |DelaysAfter(pages, maxHouses, n, total)| ==>
      1 <= DelaysAfter(pages, maxHouses, n, total)[j] <= n && DelaysAfter(pages, maxHouses, n, total)[j] < total
    ensures forall i, j :: 0 <= i < j < |DelaysAfter(pages, maxHouses, n, total)| ==>
      DelaysAfter(pages, maxHouses, n, total)[i] < DelaysAfter(pages, maxHouses, n, total)[j]
  {
    if n > 0 {
      DelaysSkipLastPage(pages, maxHouses, n - 1, total);
    }
  }

  /** A page without links adds neither processed links nor a pause. */
  lemma EmptyPageSkipped(pages: nat -> ListPage, maxHouses: int, n: nat, total: nat)
    requires LinksOf(pages(n), maxHouses) == []
    ensures LinksProcessed(pages, maxHouses, n + 1) == LinksProcessed(pages, maxHouses, n)
    ensures DelaysAfter(pages, maxHouses, n + 1, total) == DelaysAfter(pages, maxHouses, n, total)
  {
    assert DelaysAfter(pages, maxHouses, n, total) + [] == DelaysAfter(pages, maxHouses, n, total);
  }
}
