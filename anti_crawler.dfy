/**
 * anti_crawler.py: recognising the site's anti-bot verification page, clicking through it, and
 * the navigation steps that wrap it.
 *
 * The browser is an oracle. What a step would observe is an input: the page's URL, its title and
 * content (or the exception reading them raised), whether the verification button showed up,
 * and, for each selector tried in an attempt, whether clicking through it worked. Waits are
 * recorded as the durations requested, in milliseconds.
 */
module AntiCrawler {

  import opened Common
  import opened Text
  import opened Utils
  import opened Logging

  /** The verification endpoint of the 58.com anti-bot service. */
  const VerificationEndpoint := "callback.58.com/antibot/verifycode"

  /** The title phrases `_detect_verification_page` looks for. */
  const DetectionTitles: seq<string> := ["验证码", "访问过于频繁", "安全验证", "请输入验证码"]

  /** The title phrases `_verify_success` requires to be gone (the same four, in another order). */
  const SuccessTitles: seq<string> := ["验证码", "访问过于频繁", "请输入验证码", "安全验证"]

  /** The phrases of the verification page's text. */
  const ContentPhrases: seq<string> := ["点击按钮进行验证", "点击按钮完成验证", "访问过于频繁，本次访问做以下验证码校验"]

  /** The selectors for the verification button, most specific first. */
  const VerificationSelectors: seq<string> := [
    "button:has-text(\"点击按钮进行验证\")",
    "button:has-text(\"点击按钮完成验证\")",
    "[role=\"button\"]:has-text(\"点击按钮进行验证\")",
    "text=\"点击按钮进行验证\"",
    "*:has-text(\"点击按钮进行验证\")"
  ]

  /** `handle_verification` tries at most this many times. */
  const MaxAttempts := 3

  /** `any(p in text for p in phrases)`. */
  predicate AnyIn(text: string, phrases: seq<string>) {
    exists i :: 0 <= i < |phrases| && Contains(text, phrases[i])
  }

  /** A URL that names the verification service. */
  predicate UrlFlagged(url: string) {
    Contains(url, "verifycode") || Contains(url, "antibot")
  }

  // ---------------------------------------------------------------------------
  // _detect_verification_page

  /**
   * What detection observes: whether the 2-second settle wait returned, the URL, the title
   * (or the exception `title()` raised), whether the button selector appeared within 3 seconds,
   * and the content (or the exception `content()` raised).
   */
  datatype DetectionView = DetectionView(
    settled: bool, url: string, title: Outcome<string>, buttonShown: bool, content: Outcome<string>)

  /** `_detect_verification_page`: a chain of checks, each returning at once; any exception answers no. */
  function DetectVerificationPage(v: DetectionView): (flagged: bool)
    ensures flagged ==> v.settled
    ensures v.settled && (Contains(v.url, "verifycode") || Contains(v.url, "antibot")) ==> flagged
  {
    if !v.settled then false
    else if Contains(v.url, VerificationEndpoint) then true
    else if Contains(v.url, "verifycode") || Contains(v.url, "antibot") then true
    else if v.title.Raised? then false
    else if AnyIn(v.title.value, DetectionTitles) then true
    else if v.buttonShown then true
    else if v.content.Raised? then false
    else AnyIn(v.content.value, ContentPhrases)
  }

  /** The endpoint holds "verifycode", so any URL holding the endpoint holds "verifycode". */
  lemma EndpointIsFlagged(url: string)
    requires Contains(url, VerificationEndpoint)
    ensures Contains(url, "verifycode")
  {
    assert VerificationEndpoint[24..34] == "verifycode";
    ContainsAt(VerificationEndpoint, "verifycode", 24);
    ContainsTransitive(url, VerificationEndpoint, "verifycode");
  }

  /**
   * Detection answers yes exactly when the page settled and either the URL names the service,
   * or the title was read and it, the button or the content (when read) shows the page.
   * The endpoint check adds nothing to the "verifycode" check.
   */
  lemma DetectionDecides(v: DetectionView)
    ensures DetectVerificationPage(v) <==>
      v.settled &&
      (UrlFlagged(v.url) ||
       (v.title.Returned? &&
        (AnyIn(v.title.value, DetectionTitles) || v.buttonShown ||
         (v.content.Returned? && AnyIn(v.content.value, ContentPhrases)))))
  {
    if Contains(v.url, VerificationEndpoint) {
      EndpointIsFlagged(v.url);
    }
  }

  // ---------------------------------------------------------------------------
  // _click_verification_button

  /**
   * What trying one selector does: the element was clicked (wait, visible state, scroll and click
   * all returned), no element came back, or one of the steps raised.
   */
  datatype SelectorTry = Clicked | NotFound | Threw

  /** The index of the first selector from `from` on whose try clicks, if any. */
  function FirstClicked(trial: nat -> SelectorTry, from: nat): Option<nat>
    decreases |VerificationSelectors| - from
  {
    if from >= |VerificationSelectors| then None
    else if trial(from).Clicked? then Some(from)
    else FirstClicked(trial, from + 1)
  }

  /** `FirstClicked` finds the first clicking selector from `from` on, and only misses when none clicks. */
  lemma {:induction false} FirstClickedIsFirst(trial: nat -> SelectorTry, from: nat)
    ensures FirstClicked(trial, from).Some? ==>
      var r := FirstClicked(trial, from).value;
      from <= r < |VerificationSelectors| && trial(r).Clicked? &&
      forall j :: from <= j < r ==> !trial(j).Clicked?
    ensures FirstClicked(trial, from).None? ==>
      forall j :: from <= j < |VerificationSelectors| ==> !trial(j).Clicked?
    decreases |VerificationSelectors| - from
  {
    if from < |VerificationSelectors| && !trial(from).Clicked? {
      FirstClickedIsFirst(trial, from + 1);
    }
  }

  /**
   * `_click_verification_button`: tries the selectors in order and stops at the first click;
   * `tried` is how many selectors it tried. Every failure is caught, so it never raises.
   */
  method ClickVerificationButton(trial: nat -> SelectorTry) returns (clicked: bool, tried: nat)
    ensures clicked <==> exists i :: 0 <= i < |VerificationSelectors| && trial(i).Clicked?
    ensures clicked <==> FirstClicked(trial, 0).Some?
    ensures clicked ==> tried == FirstClicked(trial, 0).value + 1
    ensures !clicked ==> tried == |VerificationSelectors|
  {
    FirstClickedIsFirst(trial, 0);
    for i := 0 to |VerificationSelectors|
      invariant FirstClicked(trial, 0) == FirstClicked(trial, i)
    {
      if trial(i).Clicked? {
        return true, i + 1;
      }
    }
    return false, |VerificationSelectors|;
  }

  // ---------------------------------------------------------------------------
  // _verify_success

  /** What the check after an attempt observes: whether its 3-second wait returned, the URL, the title. */
  datatype CheckView = CheckView(settled: bool, url: string, title: Outcome<string>)

  /**
   * `_verify_success`: the URL no longer names the service, and the title lost the verification
   * phrases or the URL is on anjuke.com. Any exception answers no.
   */
  function VerifySuccess(v: CheckView): (ok: bool)
    ensures ok ==> v.settled && v.title.Returned?
    ensures ok ==> !Contains(v.url, "verifycode") && !Contains(v.url, "antibot")
  {
    if !v.settled || v.title.Raised? then false
    else
      var urlSuccess := !Contains(v.url, VerificationEndpoint) && !Contains(v.url, "verifycode") && !Contains(v.url, "antibot");
      var titleSuccess := forall i :: 0 <= i < |SuccessTitles| ==> !Contains(v.title.value, SuccessTitles[i]);
      var targetSuccess := Contains(v.url, "anjuke.com");
      urlSuccess && (titleSuccess || targetSuccess)
  }

  /** The phrases checked on the title after an attempt are those detection looks for. */
  lemma SuccessTitlesAreDetectionTitles()
    ensures forall t :: t in SuccessTitles <==> t in DetectionTitles
  {
  }

  /**
   * A page that passes the check is not the verification page by its URL; unless it is on
   * anjuke.com, its title holds none of the phrases detection looks for either.
   */
  lemma VerifiedPageIsNotFlagged(v: CheckView)
    requires VerifySuccess(v)
    ensures !UrlFlagged(v.url)
    ensures !Contains(v.url, "anjuke.com") ==> !AnyIn(v.title.value, DetectionTitles)
  {
    if !Contains(v.url, "anjuke.com") {
      forall i | 0 <= i < |DetectionTitles|
        ensures !Contains(v.title.value, DetectionTitles[i])
      {
        var j := if i == 2 then 3 else if i == 3 then 2 else i;
        assert SuccessTitles[j] == DetectionTitles[i];
      }
    }
  }

  // ---------------------------------------------------------------------------
  // handle_verification

  /** One attempt: what trying the i-th of `VerificationSelectors` does, whether the attempt's wait returned, what the check sees. */
  datatype Attempt = Attempt(trial: nat -> SelectorTry, waitOk: bool, check: CheckView)

  /** The two switches `handle_verification` reads. */
  datatype VerificationConfig = VerificationConfig(autoVerification: bool, logEnabled: bool)

  /**
   * One encounter with a page: the URL at entry, what detection sees, whether announcing the
   * detection raises (the only exception that escapes to the outer handler), and the k-th attempt.
   */
  datatype Encounter = Encounter(
    entryUrl: string, detection: DetectionView, noticeRaises: bool, attempts: nat -> Attempt)

  /** The clock and the file system at the moment a verification record is written. */
  datatype LogWrite = LogWrite(timestamp: string, hundredths: nat, writeOk: bool)

  /** How `handle_verification` ends. */
  datatype Verdict = Bypassed | NotDetected | Escaped | Verified(attempt: nat) | GaveUp

  /** An attempt succeeds when a selector clicks, its wait returns and the check passes. */
  predicate AttemptSucceeds(a: Attempt) {
    FirstClicked(a.trial, 0).Some? && a.waitOk && VerifySuccess(a.check)
  }

  /** The first succeeding attempt from `from` on, within the three allowed. */
  function FirstVerified(attempts: nat -> Attempt, from: nat): Option<nat>
    decreases MaxAttempts - from
  {
    if from >= MaxAttempts then None
    else if AttemptSucceeds(attempts(from)) then Some(from)
    else FirstVerified(attempts, from + 1)
  }

  /** `FirstVerified` finds the first succeeding attempt from `from` on, and only misses when none of the three succeeds. */
  lemma {:induction false} FirstVerifiedIsFirst(attempts: nat -> Attempt, from: nat)
    ensures FirstVerified(attempts, from).Some? ==>
      var r := FirstVerified(attempts, from).value;
      from <= r < MaxAttempts && AttemptSucceeds(attempts(r)) &&
      forall j :: from <= j < r ==> !AttemptSucceeds(attempts(j))
    ensures FirstVerified(attempts, from).None? ==>
      forall j :: from <= j < MaxAttempts ==> !AttemptSucceeds(attempts(j))
    decreases MaxAttempts - from
  {
    if from < MaxAttempts && !AttemptSucceeds(attempts(from)) {
      FirstVerifiedIsFirst(attempts, from + 1);
    }
  }

  /** The verdict of `handle_verification`. */
  function Handle(cfg: VerificationConfig, e: Encounter): (verdict: Verdict)
    ensures verdict == Bypassed <==> !cfg.autoVerification
    ensures verdict == NotDetected <==> cfg.autoVerification && !DetectVerificationPage(e.detection)
    ensures verdict.Verified? ==> verdict.attempt < MaxAttempts && AttemptSucceeds(e.attempts(verdict.attempt))
  {
    FirstVerifiedIsFirst(e.attempts, 0);
    if !cfg.autoVerification then Bypassed
    else if !DetectVerificationPage(e.detection) then NotDetected
    else if e.noticeRaises then Escaped
    else AttemptsVerdict(e.attempts)
  }

  /** The verdict of the attempt loop alone: the first successful attempt, or giving up. */
  function AttemptsVerdict(attempts: nat -> Attempt): Verdict {
    match FirstVerified(attempts, 0)
    case Some(k) => Verified(k)
    case None => GaveUp
  }

  /** How many attempts the verdict took. */
  function AttemptsMade(v: Verdict): nat {
    match v
    case Verified(k) => k + 1
    case GaveUp => MaxAttempts
    case _ => 0
  }

  /** Whether attempt k clicked a selector. */
  function ClickedAt(attempts: nat -> Attempt): nat -> bool {
    (k: nat) => FirstClicked(attempts(k).trial, 0).Some?
  }

  /** The waits of the first `n` attempts: `5000 + 2000·k` ms after a click in attempt k, none without one. */
  function WaitsOf(clicked: nat -> bool, n: nat): seq<nat> {
    if n == 0 then []
    else WaitsOf(clicked, n - 1) + (if clicked(n - 1) then [5000 + 2000 * (n - 1)] else [])
  }

  /** The record the verdict writes: SKIPPED at the entry URL, SUCCESS at the page's URL, FAILED at the entry URL. */
  function RecordFor(v: Verdict, e: Encounter, w: LogWrite): Option<string> {
    match v
    case Bypassed => Some(RenderRecord(w.timestamp, e.entryUrl, Skipped, 0, 0))
    case Verified(k) => Some(RenderRecord(w.timestamp, e.attempts(k).check.url, Success, k + 1, w.hundredths))
    case GaveUp => Some(RenderRecord(w.timestamp, e.entryUrl, Failure, MaxAttempts, w.hundredths))
    case _ => None
  }

  /** The verification log after the encounter: the record is appended when both switches are on and the write works. */
  function LogAfter(log: Option<seq<string>>, enabled: bool, cfg: VerificationConfig, e: Encounter, w: LogWrite): Option<seq<string>> {
    LogWith(log, enabled, cfg, RecordFor(Handle(cfg, e), e, w), w)
  }

  /** The verification log after writing `record`, if any. */
  function LogWith(log: Option<seq<string>>, enabled: bool, cfg: VerificationConfig, record: Option<string>, w: LogWrite): Option<seq<string>> {
    if record.Some? && cfg.logEnabled && enabled && w.writeOk then Some(LinesOf(log) + [record.value]) else log
  }

  /**
   * `handle_verification`: bypass when auto-verification is off; pass a page that is not the
   * verification page; otherwise up to three attempts, each a click, a growing wait and a check.
   * It answers false only after three failed attempts.
   */
  method HandleVerification(log: Logger, cfg: VerificationConfig, e: Encounter, w: LogWrite)
    returns (passed: bool, waits: seq<nat>)
    modifies log
    ensures passed <==> Handle(cfg, e) != GaveUp
    ensures waits == WaitsOf(ClickedAt(e.attempts), AttemptsMade(Handle(cfg, e)))
    ensures log.verificationLog == LogAfter(old(log.verificationLog), old(log.verificationEnabled), cfg, e, w)
    ensures log.verificationEnabled == old(log.verificationEnabled)
  {
    if !cfg.autoVerification {
      if cfg.logEnabled {
        log.LogVerificationSkip(e.entryUrl, w.timestamp, w.writeOk);
      }
      return true, [];
    }
    if !DetectVerificationPage(e.detection) {
      return true, [];
    }
    if e.noticeRaises {
      // `logger.exception(...)`; the outer handler lets the crawl go on.
      return true, [];
    }
    passed, waits := RunAttempts(log, cfg, e, w);
    assert Handle(cfg, e) == AttemptsVerdict(e.attempts);
  }

  /**
   * The attempt loop `for attempt in range(3)` on a detected verification page: the log record
   * written when the loop returns or ends.
   */
  method RunAttempts(log: Logger, cfg: VerificationConfig, e: Encounter, w: LogWrite)
    returns (passed: bool, waits: seq<nat>)
    modifies log
    ensures passed <==> AttemptsVerdict(e.attempts) != GaveUp
    ensures waits == WaitsOf(ClickedAt(e.attempts), AttemptsMade(AttemptsVerdict(e.attempts)))
    ensures log.verificationLog ==
      LogWith(old(log.verificationLog), old(log.verificationEnabled), cfg, RecordFor(AttemptsVerdict(e.attempts), e, w), w)
    ensures log.verificationEnabled == old(log.verificationEnabled)
  {
    var verdict;
    verdict, waits := TryAttempts(e.attempts);
    if verdict.Verified? {
      var k := verdict.attempt;
      if cfg.logEnabled {
        log.LogVerificationSuccess(e.attempts(k).check.url, k + 1, w.hundredths, w.timestamp, w.writeOk);
      }
      return true, waits;
    }
    if cfg.logEnabled {
      log.LogVerificationFailure(e.entryUrl, MaxAttempts, w.hundredths, w.timestamp, w.writeOk);
    }
    return false, waits;
  }

  /**
   * The attempts themselves: click, wait `5000 + 2000·attempt` ms after a click, check; stop at
   * the first success. Answers the verdict (Verified or GaveUp) and the waits taken.
   */
  method TryAttempts(attempts: nat -> Attempt) returns (verdict: Verdict, waits: seq<nat>)
    ensures verdict == AttemptsVerdict(attempts)
    ensures verdict.Verified? || verdict == GaveUp
    ensures waits == WaitsOf(ClickedAt(attempts), AttemptsMade(verdict))
  {
    waits := [];
    var attempt := 0;
    while attempt < MaxAttempts
      invariant 0 <= attempt <= MaxAttempts
      invariant FirstVerified(attempts, 0) == FirstVerified(attempts, attempt)
      invariant waits == WaitsOf(ClickedAt(attempts), attempt)
    {
      var a := attempts(attempt);
      var clicked, _ := ClickVerificationButton(a.trial);
      var succeeded := clicked && a.waitOk && VerifySuccess(a.check);
      AttemptStep(attempts, attempt, clicked, succeeded);
      assert ClickedAt(attempts)(attempt) == clicked;
      WaitsStep(ClickedAt(attempts), attempt);
      if clicked {
        waits := waits + [5000 + 2000 * attempt];
        if succeeded {
          return Verified(attempt), waits;
        }
      }
      attempt := attempt + 1;
    }
    return GaveUp, waits;
  }

  /** One more attempt adds its wait exactly when it clicked. */
  lemma WaitsStep(clicked: nat -> bool, n: nat)
    ensures clicked(n) ==> WaitsOf(clicked, n + 1) == WaitsOf(clicked, n) + [5000 + 2000 * n]
    ensures !clicked(n) ==> WaitsOf(clicked, n + 1) == WaitsOf(clicked, n)
  {
  }

  /** An attempt that does not succeed leaves the search for the first success to the next one. */
  lemma AttemptStep(attempts: nat -> Attempt, k: nat, clicked: bool, succeeded: bool)
    requires k < MaxAttempts
    requires clicked <==> FirstClicked(attempts(k).trial, 0).Some?
    requires succeeded <==> clicked && attempts(k).waitOk && VerifySuccess(attempts(k).check)
    ensures succeeded <==> AttemptSucceeds(attempts(k))
    ensures !succeeded ==> FirstVerified(attempts, k) == FirstVerified(attempts, k + 1)
  {
  }

  // ---------------------------------------------------------------------------
  // Properties of handle_verification

  /** With auto-verification off, the page passes without detection and a SKIPPED record is the only effect. */
  lemma BypassSkipsDetection(cfg: VerificationConfig, e: Encounter, w: LogWrite)
    requires !cfg.autoVerification
    ensures Handle(cfg, e) == Bypassed && AttemptsMade(Handle(cfg, e)) == 0
    ensures RecordFor(Handle(cfg, e), e, w) == Some(RenderRecord(w.timestamp, e.entryUrl, Skipped, 0, 0))
  {
  }

  /** Only three failed attempts on a detected page fail it; every other way through passes. */
  lemma GaveUpExactly(cfg: VerificationConfig, e: Encounter)
    ensures Handle(cfg, e) == GaveUp <==>
      cfg.autoVerification && DetectVerificationPage(e.detection) && !e.noticeRaises &&
      forall k :: 0 <= k < MaxAttempts ==> !AttemptSucceeds(e.attempts(k))
  {
    FirstVerifiedIsFirst(e.attempts, 0);
  }

  /** A verified page was verified by its first successful attempt, one of the three. */
  lemma VerifiedAtFirstSuccess(cfg: VerificationConfig, e: Encounter, k: nat)
    requires Handle(cfg, e) == Verified(k)
    ensures k < MaxAttempts && AttemptSucceeds(e.attempts(k))
    ensures forall j :: 0 <= j < k ==> !AttemptSucceeds(e.attempts(j))
  {
    FirstVerifiedIsFirst(e.attempts, 0);
  }

  /**
   * The waits: at most one per attempt made, the k-th attempt's wait is `5000 + 2000·k` ms, and
   * an attempt whose click failed waits not at all.
   */
  lemma {:induction false} WaitsGrow(clicked: nat -> bool, n: nat)
    ensures |WaitsOf(clicked, n)| <= n
    ensures forall i :: 0 <= i < |WaitsOf(clicked, n)| ==>
      exists k :: 0 <= k < n && clicked(k) && WaitsOf(clicked, n)[i] == 5000 + 2000 * k
    ensures forall i, j :: 0 <= i < j < |WaitsOf(clicked, n)| ==> WaitsOf(clicked, n)[i] < WaitsOf(clicked, n)[j]
  {
    if n > 0 {
      WaitsGrow(clicked, n - 1);
      var before := WaitsOf(clicked, n - 1);
      var ws := WaitsOf(clicked, n);
      assert ws == before + (if clicked(n - 1) then [5000 + 2000 * (n - 1)] else []);
      forall i | 0 <= i < |ws|
        ensures exists k :: 0 <= k < n && clicked(k) && ws[i] == 5000 + 2000 * k
      {
        if i < |before| {
          assert ws[i] == before[i];
          var k :| 0 <= k < n - 1 && clicked(k) && before[i] == 5000 + 2000 * k;
          assert 0 <= k < n && clicked(k) && ws[i] == 5000 + 2000 * k;
        } else {
          assert ws[i] == 5000 + 2000 * (n - 1);
        }
      }
      forall i | 0 <= i < |before|
        ensures ws[i] < 5000 + 2000 * (n - 1)
      {
        var k :| 0 <= k < n - 1 && clicked(k) && before[i] == 5000 + 2000 * k;
      }
    }
  }

  /** Within three attempts there are at most three waits, each 5, 7 or 9 seconds. */
  lemma WaitsWithinThree(clicked: nat -> bool, n: nat)
    requires n <= MaxAttempts
    ensures |WaitsOf(clicked, n)| <= MaxAttempts
    ensures forall x :: x in WaitsOf(clicked, n) ==> x == 5000 || x == 7000 || x == 9000
  {
    WaitsGrow(clicked, n);
    forall x | x in WaitsOf(clicked, n)
      ensures x == 5000 || x == 7000 || x == 9000
    {
      var i :| 0 <= i < |WaitsOf(clicked, n)| && WaitsOf(clicked, n)[i] == x;
      var k :| 0 <= k < n && clicked(k) && x == 5000 + 2000 * k;
    }
  }

  /** The waits of a whole call: at most three, each 5, 7 or 9 seconds. */
  lemma AtMostThreeWaits(cfg: VerificationConfig, e: Encounter)
    ensures |WaitsOf(ClickedAt(e.attempts), AttemptsMade(Handle(cfg, e)))| <= MaxAttempts
    ensures forall x :: x in WaitsOf(ClickedAt(e.attempts), AttemptsMade(Handle(cfg, e))) ==> x == 5000 || x == 7000 || x == 9000
  {
    var v := Handle(cfg, e);
    assert AttemptsMade(v) <= MaxAttempts;
    WaitsWithinThree(ClickedAt(e.attempts), AttemptsMade(v));
  }

  /**
   * The record splits back into its fields: a success carries the URL the check saw and the
   * attempt count k + 1, a failure the entry URL and 3.
   */
  lemma RecordFields(cfg: VerificationConfig, e: Encounter, w: LogWrite)
    requires ',' !in w.timestamp && ',' !in e.entryUrl
    requires forall k :: 0 <= k < MaxAttempts ==> ',' !in e.attempts(k).check.url
    ensures Handle(cfg, e).Verified? ==>
      var k := Handle(cfg, e).attempt;
      Split(RecordFor(Handle(cfg, e), e, w).value, ',') ==
        [w.timestamp, e.attempts(k).check.url, "SUCCESS", IntToString(k + 1), FormatDuration(w.hundredths)]
    ensures Handle(cfg, e) == GaveUp ==>
      Split(RecordFor(Handle(cfg, e), e, w).value, ',') ==
        [w.timestamp, e.entryUrl, "FAILED", IntToString(MaxAttempts), FormatDuration(w.hundredths)]
  {
    match Handle(cfg, e)
    case Verified(k) =>
      RecordReadsBack(w.timestamp, e.attempts(k).check.url, Success, k + 1, w.hundredths);
    case GaveUp =>
      RecordReadsBack(w.timestamp, e.entryUrl, Failure, MaxAttempts, w.hundredths);
    case _ =>
  }

  // ---------------------------------------------------------------------------
  // navigate_to_page, post_load_actions, safe_navigate

  /** `navigate_to_page`: true iff `goto` returned a response with status 200; false when it raised. */
  function NavigateToPage(response: Outcome<int>): (ok: bool)
    ensures ok <==> response == Returned(200)
  {
    HandleErrors(if response.Raised? then Raised(response.error) else Returned(response.value == 200), false)
  }

  /**
   * `post_load_actions`: the load wait swallows its own timeout; the `page_load_delay` wait (in
   * seconds, so `1000·delay` ms) and the simulated scrolling raise into the handler's `False`;
   * verification runs only once the delay has passed.
   */
  method PostLoadActions(log: Logger, cfg: VerificationConfig, pageLoadDelay: int, delayOk: bool,
                         e: Encounter, w: LogWrite, humanOk: bool)
    returns (ok: bool, delayMs: int)
    modifies log
    ensures delayMs == pageLoadDelay * 1000
    ensures ok <==> delayOk && Handle(cfg, e) != GaveUp && humanOk
    ensures log.verificationLog ==
      if delayOk then LogAfter(old(log.verificationLog), old(log.verificationEnabled), cfg, e, w)
      else old(log.verificationLog)
    ensures log.verificationEnabled == old(log.verificationEnabled)
  {
    delayMs := pageLoadDelay * 1000;
    if !delayOk {
      return false, delayMs;
    }
    var passed, _ := HandleVerification(log, cfg, e, w);
    if !passed {
      return false, delayMs;
    }
    ok := humanOk;
  }

  /**
   * `safe_navigate`, one run of its body: navigate, then the post-load steps; each failure
   * answers false. The verification step runs only after a 200 response.
   */
  method SafeNavigate(log: Logger, cfg: VerificationConfig, response: Outcome<int>, pageLoadDelay: int,
                      delayOk: bool, e: Encounter, w: LogWrite, humanOk: bool)
    returns (ok: bool)
    modifies log
    ensures ok <==> response == Returned(200) && delayOk && Handle(cfg, e) != GaveUp && humanOk
    ensures log.verificationLog ==
      if response == Returned(200) && delayOk then LogAfter(old(log.verificationLog), old(log.verificationEnabled), cfg, e, w)
      else old(log.verificationLog)
    ensures log.verificationEnabled == old(log.verificationEnabled)
  {
    if !NavigateToPage(response) {
      return false;
    }
    var loaded, _ := PostLoadActions(log, cfg, pageLoadDelay, delayOk, e, w, humanOk);
    ok := loaded;
  }

  /**
   * `safe_navigate` is `retry(3)` stacked on `handle_errors(False)`: whatever the body does on each
   * call, the guarded body never raises, so `retry` calls it once, never sleeps, and returns what
   * the first call gave (false for a raising body).
   */
  lemma SafeNavigateRunsOnce(body: nat -> Outcome<bool>, guarded: nat -> Outcome<bool>)
    requires forall k :: guarded(k) == Returned(HandleErrors(body(k), false))
    ensures RetrySpec(3, guarded).calls == 1 && RetrySpec(3, guarded).sleeps == 0
    ensures RetrySpec(3, guarded).result == Value(body(0).Returned? && body(0).value)
  {
    RetryOfGuardedCallRunsOnce(3, body, false, guarded);
  }
}
