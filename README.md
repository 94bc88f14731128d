# anjuke-crawler, modelled in Dafny

This project models the logic of a rental-listing crawler for anjuke.com. The crawler walks the
list pages of a city, opens every listing they link to and appends each accepted listing to a
CSV file. On the way it:

- parses its `.env` file into typed settings;
- generates the list-page URLs and truncates the links it extracts from each list page;
- gets past the site's anti-bot verification page by clicking its button and checking the result;
- validates each record's price and area against configured bounds;
- skips listings whose id already appears in an earlier CSV;
- counts successes and failures;
- appends one record per verification to a verification log.

The browser, the clock, randomness and the file system are not modelled as effects. Whatever the
program would observe from them becomes a value passed in:

- a page snapshot (URL, title, content, whether the button appears);
- the outcome of trying each selector;
- a navigation status;
- the lines of `.env`, or `None` when the file is missing;
- the rows of an existing CSV;
- the timestamp and elapsed time of a log write, and whether the write succeeds.

The CSV output and the verification log are sequences of rows and lines, which the methods
extend.

Modules, one per source file:

| module | file | contents |
|---|---|---|
| `Common` | `common.dfy` | `Option` |
| `Text` | `text.dfy` | the string operations the sources rely on: `strip` (with Python's whitespace), `split`, `join`, first-`#` cut, `replace`, ASCII `lower` and `int` |
| `Utils` | `utils.dfy` | `handle_errors`, `retry` (as a loop over an outcome oracle), `StatisticsTracker` (a class) |
| `Config` | `config.dfy` | the `.env` line parser, last-assignment-wins and first-assignment-wins readings, typed settings with their defaults and `int()` failures, `get_dict` |
| `Logging` | `logger.dfy` | the logger's own `.env` reading, the coloured formatter, the `Logger` class with its console messages and its verification-log record stream |
| `DuplicateChecking` | `duplicate_checker.dfy` | the `DuplicateChecker` class over abstract CSV rows |
| `DataExtraction` | `data_extractor.dfy` | first-number extraction, `validate_data`, the gate and field partition of `extract_data` |
| `ListPages` | `list_page_crawler.dfy` | `generate_list_urls` (a loop), the status check and truncation of `extract_house_links` |
| `AntiCrawler` | `anti_crawler.dfy` | detection, selector clicking, success check, the `handle_verification` state machine, `navigate_to_page`, `post_load_actions`, `safe_navigate` |
| `Crawler` | `anjuke_crawler.dfy` | the `AnjukeCrawler` class: one listing, a batch, the list-page loop with its stop rule and delays |

Three behaviours of the code that a reader may not expect:

- **`safe_navigate` retry.** `safe_navigate` is decorated to retry up to three times, but
  `retry` only repeats a call that raises, and the `handle_errors` inside it turns every
  exception into `False`. The body therefore runs exactly once (`AntiCrawler.SafeNavigateRunsOnce`).
- **Order inside an attempt.** The wait and the success check of an attempt happen only when
  a selector was clicked. An attempt whose click fails neither waits nor checks
  (`AntiCrawler.WaitsGrow`).
- **Bypass logging.** With auto-verification off, the bypass path writes a SKIPPED record
  whenever `ENABLE_VERIFICATION_LOG` is true and the logger's log is on
  (`AntiCrawler.BypassSkipsDetection`). The not-detected path writes nothing.

## Model

| member | source | states |
|---|---|---|
| Text.Strip | config.py:29 | the result has no leading or trailing whitespace, is no longer than the input and has only characters of the input |
| Text.StripSurrounded | config.py:29 | `strip()` removes exactly the surrounding whitespace: a stripped core between two whitespace runs comes back unchanged |
| Text.StripIsSlice | config.py:29 | the result is the slice of the input left once an all-whitespace prefix and an all-whitespace suffix are cut off |
| Text.JoinSplit | config.py:66-71 | joining the pieces of a split on `,` gives back the original string |
| Text.SplitJoin | config.py:66-71 | splitting a join of separator-free pieces gives back the pieces |
| Text.UpToIsFirstPiece | config.py:34 | cutting at the first `#` is `split('#')[0]` |
| Text.Without | data_extractor.py:348 | `replace(',', '')` has no comma and keeps exactly the other characters |
| Text.WithoutAppend | data_extractor.py:348 | removing commas distributes over concatenation |
| Text.Lower | config.py:38 | lower-casing keeps the length and maps each character on its own |
| Text.ParseInt | config.py:39 | a parsed value comes from a non-empty string, a negative one from a string starting with `-`, and a digit string reads as its decimal value |
| Text.ParseIntOfIntToString | config.py:39 | `int()` reads back every integer written in decimal |
| Utils.HandleErrors | utils.py:16-31 | the wrapped call's value when it returns, the default when it raises |
| Utils.Retry | utils.py:46-62 | the loop's result, call count and sleeps equal the retry specification, and every sleep is `delay` |
| Utils.RetryReturnsFirstValue | utils.py:50-52 | the first call that returns decides the result, after k+1 calls and k sleeps; a returned False is not retried |
| Utils.RetryReraisesLast | utils.py:53-61 | when every call raises, the last exception is re-raised after max_times calls and max_times-1 sleeps |
| Utils.RetryWithoutAttempts | utils.py:50-62 | with max_times ≤ 0 nothing is called and None is returned |
| Utils.RetryCallsAndSleeps | utils.py:50-58 | at most max_times calls, and one sleep fewer than calls, so none after the last |
| Utils.RetryOfGuardedCallRunsOnce | utils.py:50-52 | retrying a call wrapped by `handle_errors` calls it exactly once and never sleeps |
| Utils.RetrySpec | utils.py:42-65 | with max_times ≤ 0 nothing is called and None results; otherwise 1 to max_times calls, one sleep fewer, and a value or a re-raised error |
| Utils.StatisticsTracker.constructor | utils.py:71-73 | both counters start at 0 |
| Utils.StatisticsTracker.RecordSuccess | utils.py:75-77 | success_count rises by one, failed_count unchanged |
| Utils.StatisticsTracker.RecordFailure | utils.py:79-81 | failed_count rises by one, success_count unchanged |
| Utils.StatisticsTracker.GetStats | utils.py:83-91 | reports both counters; the rate is 0 for no attempts, otherwise success/total, between 0 and 1, and 1 exactly when nothing failed |
| Utils.StatisticsTracker.Reset | utils.py:93-96 | both counters return to 0 |
| Config.ParseEnvLine | config.py:28-34 | a line yields an entry only if it holds `=`, and the key and value are stripped |
| Config.ParseEnvLineShape | config.py:28-34 | a line counts iff, stripped, it is non-empty, does not start with `#` and has `=`; the key has no `=`, the value no `#`, both stripped |
| Config.ParseEnvLineRoundTrip | config.py:29-34 | a `key=value` line with a clean key and value parses back to that pair |
| Config.AssignedKeys | config.py:27-35 | a key is in the dictionary iff some line assigns it |
| Config.LastAssignmentWins | config.py:35 | the dictionary holds the value of the last line that assigns the key |
| Config.FirstAssignmentIsFirst | duplicate_checker.py:29-35 | the break-at-first reading finds the first assigning line, and nothing only when no line assigns the key |
| Config.FindFirst | logger.py:143-151 | the loop with `break` answers the first assignment of the key |
| Config.FirstAndLastDisagree | logger.py:141-151 | with two assignments, the `progress`-style reading sees the first value and the settings see the second |
| Config.Items | config.py:66-71 | a list setting is empty exactly when its stripped value is empty |
| Config.ItemsJoinBack | config.py:66-71 | a non-empty list setting's items, rejoined with `,`, are the stripped value, so items are not stripped |
| Config.FromEnv | config.py:37-84 | when loading succeeds, the integer settings are the conversions of the twelve integer keys in source order |
| Config.NumbersFails | config.py:39-78 | converting a list of keys succeeds iff every present key holds an integer, each value is its key's conversion or default, and the error names the first failing key and its value |
| Config.FromEnvFails | config.py:39-81 | loading fails iff some present integer setting is not an integer, reporting the first such key in source order with its value; otherwise each integer setting is its key's conversion or default |
| Config.DefaultsWhenEmpty | config.py:38-84 | an `.env` without assignments gives every default |
| Config.ReadEnv | config.py:23-35 | the line loop builds the last-assignment-wins dictionary |
| Config.LoadConfig | config.py:16-84 | a missing `.env` raises FileNotFoundError; otherwise the typed settings of the dictionary |
| Config.GetDict | config.py:86-118 | the dictionary has an entry for every one of the 29 attributes |
| Config.GetDictRoundTrip | config.py:86-118 | the dictionary has all 29 keys and reading it back gives exactly the loaded settings |
| Logging.LoggerEnvOfUpdate | logger.py:65-74 | each of the five keys the logger reads updates only its own setting |
| Logging.ReadLoggerEnv | logger.py:52-74 | the loop without `break` keeps the last value of each key, or the defaults without `.env` |
| Logging.ProgressShownByDefault | logger.py:140-154 | progress is shown when no line sets SHOW_PROGRESS |
| Logging.ProgressReadsFirstSettingsReadLast | logger.py:141-151 | with two SHOW_PROGRESS lines, `progress` obeys the first and the settings and logger setup obey the second |
| Logging.DecoratedShowsLevel | logger.py:18-31 | the coloured level still contains the level name, is unchanged exactly for names without a colour, and `RESET` itself is coloured |
| Logging.Format | logger.py:27-35 | the line shows the coloured level, and the record's level name is as before the call |
| Logging.FormatDurationReadsBack | logger.py:258 | the duration field is two digit runs split by `.`, two decimals, reading back to the hundredths |
| Logging.RecordReadsBack | logger.py:257-258 | a record splits on `,` into timestamp, url, result, attempts, duration, and attempts read back |
| Logging.Logger.constructor | logger.py:41-47 | level and file handler follow `.env`, but the verification log is always on and always `verification_log.csv`; the header is written only when the log is missing |
| Logging.Logger.Info | logger.py:117-119 | one console message, verification log untouched |
| Logging.Logger.Progress | logger.py:137-154 | the `📊` message is emitted exactly when progress is shown |
| Logging.Logger.CrawlerStop | logger.py:160-177 | the two closing messages carry the counters and the first CSV_FILENAME |
| Logging.Logger.LogVerification | logger.py:251-265 | one record is appended exactly when the log is on and the write works; otherwise nothing changes and nothing is raised |
| Logging.Logger.LogVerificationSuccess | logger.py:267-269 | the record's result is SUCCESS |
| Logging.Logger.LogVerificationFailure | logger.py:271-273 | the record's result is FAILED |
| Logging.Logger.LogVerificationSkip | logger.py:275-277 | the record's result is SKIPPED with 0 attempts |
| Logging.SkipRecordFields | logger.py:275-277 | a skip record reads back as SKIPPED, `0`, `0.00` |
| DuplicateChecking.CollectedMembers | duplicate_checker.py:38-44 | an id is collected iff it is non-empty and the stripped id column of some row |
| DuplicateChecking.CollectedAreStripped | duplicate_checker.py:42-44 | every collected id is non-empty and stripped |
| DuplicateChecking.DuplicateChecker.constructor | duplicate_checker.py:15-19 | enabled, the file resolved, and the ids loaded from it |
| DuplicateChecking.DuplicateChecker.LoadExistingIds | duplicate_checker.py:21-48 | the file is resolved and the ids are those of its rows, or none when it is missing or unreadable |
| DuplicateChecking.DuplicateChecker.ResolveCsvFile | duplicate_checker.py:25-36 | a given file is kept; otherwise the first CSV_FILENAME of `.env`, else `anjuke_houses.csv` |
| DuplicateChecking.DuplicateChecker.AddIds | duplicate_checker.py:38-48 | the loop collects the ids, and a row that makes reading fail leaves the set empty |
| DuplicateChecking.DuplicateChecker.Enable | duplicate_checker.py:68-71 | sets the switch and changes nothing else |
| DuplicateChecking.DuplicateChecker.GetStats | duplicate_checker.py:60-66 | reports the id count, file and switch |
| DuplicateChecking.DuplicateChecker.IsDuplicate | duplicate_checker.py:50-58 | a flagged id is a loaded id; with the checker off or an empty id nothing is flagged |
| DuplicateChecking.IsDuplicateMeansInFile | duplicate_checker.py:50-58 | an id is a duplicate iff the checker is on, the id is non-empty and it is the stripped id of a row of the file |
| DuplicateChecking.NothingLoadedOnError | duplicate_checker.py:46-48 | a missing or unreadable file loads no ids |
| DuplicateChecking.FlaggedIdsAreStripped | duplicate_checker.py:50-58 | only stripped ids are ever flagged |
| DataExtraction.FirstNumber | data_extractor.py:348 | none iff there is no digit; otherwise a non-empty digit run |
| DataExtraction.FirstDecimal | data_extractor.py:361 | none iff there is no digit; otherwise a whole part of digits and a fraction of digits |
| DataExtraction.PriceAccepted | data_extractor.py:346-357 | a missing price passes; with an empty range (max below min) only a missing price passes |
| DataExtraction.AreaAccepted | data_extractor.py:359-369 | a missing area passes; with an empty range (max below min) only a missing area passes |
| DataExtraction.ValidateData | data_extractor.py:342-374 | a record passes iff its price is accepted and its area is accepted |
| DataExtraction.ExtractData | data_extractor.py:411-416 | the record, unchanged, iff the script returned and validation is off or passes |
| DataExtraction.NonEmptyFields | data_extractor.py:387 | exactly the fields whose stripped value is non-empty, with their values |
| DataExtraction.EmptyFields | data_extractor.py:388 | exactly the fields whose stripped value is empty |
| DataExtraction.FieldsPartition | data_extractor.py:387-388 | the two field lists are disjoint and together cover every key |
| DataExtraction.NoPriceNoAreaPasses | data_extractor.py:346-371 | a record without price and area passes |
| DataExtraction.PriceOfText | data_extractor.py:348-350 | the price is the value of the first digit run |
| DataExtraction.PriceIgnoresCommas | data_extractor.py:348 | a comma in the price text changes nothing |
| DataExtraction.PriceOfMonthlyRent | data_extractor.py:346-350 | `1,200元/月` has price 1200 |
| DataExtraction.PriceWithoutDigitsRejected | data_extractor.py:354-356 | a non-empty price without digits rejects the record |
| DataExtraction.AreaWithoutDigitsRejected | data_extractor.py:367-369 | a non-empty area without digits rejects the record |
| DataExtraction.BadPriceRejectsAnyArea | data_extractor.py:346-357 | a rejected price rejects the record whatever the area |
| DataExtraction.GoodPriceAreaDecides | data_extractor.py:359-371 | with an accepted price, the area alone decides |
| DataExtraction.FirstDecimalSkipsPrefix | data_extractor.py:361 | text before the first digit does not change the number found |
| DataExtraction.FirstDecimalWithFraction | data_extractor.py:361-363 | `digits.digits` is read with its fraction |
| DataExtraction.FirstDecimalWhole | data_extractor.py:361-363 | digits not followed by `.digit` are read as a whole number |
| DataExtraction.AreaOfWhole | data_extractor.py:361-363 | such an area's value is the whole number |
| DataExtraction.DecimalBetween | data_extractor.py:363 | a decimal's value lies between its whole part and the next integer |
| DataExtraction.AreaOfFloorSpace | data_extractor.py:359-366 | `89.5㎡` has area 89.5 and passes the default bounds |
| ListPages.ListUrls | list_page_crawler.py:81-110 | max(pages, 0) URLs without regions, and that many per non-blank region with regions |
| ListPages.PagesOf | list_page_crawler.py:102-107 | one URL per page, none for pages ≤ 0 |
| ListPages.RegionPages | list_page_crawler.py:90-99 | a blank region yields no URLs, another one URL per page |
| ListPages.GenerateListUrls | list_page_crawler.py:81-110 | the loops build the specified URL list, with pages defaulting to MAX_PAGES |
| ListPages.AppendPages | list_page_crawler.py:102-107 | the page loop builds one region's URLs |
| ListPages.CountWithoutRegions | list_page_crawler.py:100-107 | without regions there are exactly max(pages, 0) URLs |
| ListPages.CountWithRegions | list_page_crawler.py:89-99 | with regions there are pages × non-blank regions URLs, possibly 0 |
| ListPages.PagePathShape | list_page_crawler.py:95-98 | a page URL keeps the base prefix and ends in `/` |
| ListPages.PagePathsDistinct | list_page_crawler.py:95-98 | different pages get different URLs |
| ListPages.PagesOfMembers | list_page_crawler.py:102-107 | the URLs are exactly the paths of pages 1..pages |
| ListPages.RegionPagesMembers | list_page_crawler.py:90-99 | a region's URLs are exactly the paths of its pages under the stripped region |
| ListPages.RegionUrlsMembers | list_page_crawler.py:89-99 | the URLs are exactly those of some configured region |
| ListPages.RegionUrlsAppend | list_page_crawler.py:89-99 | regions keep their order: earlier regions' URLs come first |
| ListPages.PagesOfShape | list_page_crawler.py:102-106 | every URL starts with the base and ends in `/` |
| ListPages.ListUrlsShape | list_page_crawler.py:96-106 | every generated URL starts with the base URL and ends in `/` |
| ListPages.SlicePrefix | list_page_crawler.py:70-71 | Python slicing `[:n]` gives a prefix of min(n, len) items, or drops -n from the end for negative n |
| ListPages.ExtractHouseLinks | list_page_crawler.py:20-79 | non-200 or a raising step gives []; otherwise the truncated links |
| ListPages.HouseLinks | list_page_crawler.py:20-79 | links come only from a page answering 200 whose script returned, and are a prefix of what the script found |
| ListPages.HouseLinksArePrefix | list_page_crawler.py:27-71 | links come only from a 200 page and are a prefix of what the script found |
| ListPages.HouseLinksBounded | list_page_crawler.py:70-71 | exactly min(found, max_houses) links |
| AntiCrawler.DetectVerificationPage | anti_crawler.py:77-114 | only a settled page is flagged, and a settled page whose URL holds `verifycode` or `antibot` always is |
| AntiCrawler.EndpointIsFlagged | anti_crawler.py:86-91 | the `callback.58.com/antibot/verifycode` test is subsumed by the `verifycode` test |
| AntiCrawler.DetectionDecides | anti_crawler.py:77-114 | a page is flagged iff it settled and its URL, title, button or content shows the challenge; any failure answers false |
| AntiCrawler.FirstClickedIsFirst | anti_crawler.py:128-148 | the selector used is the first in order whose steps all work; none only when all five fail |
| AntiCrawler.ClickVerificationButton | anti_crawler.py:116-155 | clicks iff some selector works, after trying exactly the selectors up to that one, else all five |
| AntiCrawler.VerifySuccess | anti_crawler.py:157-193 | success needs a settled page whose title could be read and whose URL holds neither `verifycode` nor `antibot` |
| AntiCrawler.SuccessTitlesAreDetectionTitles | anti_crawler.py:176-179 | the success check looks for the same four titles as detection |
| AntiCrawler.VerifiedPageIsNotFlagged | anti_crawler.py:169-185 | a verified page's URL is not flagged, and off anjuke.com neither is its title |
| AntiCrawler.Handle | anti_crawler.py:195-240 | bypassed iff auto-verification is off; not detected iff it is on and the page is not flagged; a success names one of the three attempts, which succeeded |
| AntiCrawler.FirstVerifiedIsFirst | anti_crawler.py:212-230 | the verdict is the first of three attempts that clicks, waits and checks successfully |
| AntiCrawler.HandleVerification | anti_crawler.py:195-240 | false exactly when all three attempts fail on a detected page; the waits and the appended record follow the verdict |
| AntiCrawler.RunAttempts | anti_crawler.py:211-236 | the attempt loop's verdict, waits and SUCCESS or FAILED record |
| AntiCrawler.TryAttempts | anti_crawler.py:212-230 | the loop stops at the first successful attempt or gives up after three |
| AntiCrawler.BypassSkipsDetection | anti_crawler.py:200-203 | with auto-verification off, no attempt is made and the record is SKIPPED at the entry URL |
| AntiCrawler.GaveUpExactly | anti_crawler.py:205-236 | false iff auto-verification is on, the page is flagged, the notice does not raise and no attempt succeeds |
| AntiCrawler.VerifiedAtFirstSuccess | anti_crawler.py:220-225 | success at attempt k means attempt k succeeded and no earlier one did |
| AntiCrawler.WaitsGrow | anti_crawler.py:214-218 | waits happen only after a click in attempt k, last 5000+2000·k ms, and strictly increase |
| AntiCrawler.WaitsWithinThree | anti_crawler.py:211-218 | at most three waits, each 5000, 7000 or 9000 ms |
| AntiCrawler.AtMostThreeWaits | anti_crawler.py:211-218 | a whole verification waits at most three times, each 5000, 7000 or 9000 ms |
| AntiCrawler.RecordFields | anti_crawler.py:220-235 | SUCCESS records the current URL and k+1 attempts; FAILED records the entry URL and 3 attempts |
| AntiCrawler.NavigateToPage | anti_crawler.py:242-250 | true iff the response status is 200; a raising navigation is false |
| AntiCrawler.PostLoadActions | anti_crawler.py:252-270 | waits PAGE_LOAD_DELAY seconds, and is true iff the wait, verification and simulated browsing succeed |
| AntiCrawler.SafeNavigate | anti_crawler.py:274-289 | true iff the status is 200 and the post-load actions succeed; verification runs only after both |
| AntiCrawler.SafeNavigateRunsOnce | anti_crawler.py:272-289 | the outer retry runs the guarded body exactly once, without sleeping |
| Crawler.DuplicateFileFor | anjuke_crawler.py:31 | DUPLICATE_CSV_FILE when set, else CSV_FILENAME |
| Crawler.AnjukeCrawler.constructor | anjuke_crawler.py:24-35 | zero counters; an enabled checker on the chosen file when duplicate checking is on, none otherwise |
| Crawler.AnjukeCrawler.Start | anjuke_crawler.py:48-83 | does nothing when a browser is open; otherwise opens browser and page or raises |
| Crawler.AnjukeCrawler.Close | anjuke_crawler.py:85-91 | closes the browser and drops the page, only when a browser is open |
| Crawler.AnjukeCrawler.PrepareCsv | anjuke_crawler.py:206-217 | writes a fresh header iff the file is missing or append mode is off; raises, leaving the file as it was, exactly when that creation fails |
| Crawler.AnjukeCrawler.SaveToCsv | anjuke_crawler.py:219-258 | appends the record's row; raises when the file does not open or a key is not a CSV field |
| Crawler.AnjukeCrawler.CrawlSingleHouse | anjuke_crawler.py:150-174 | true iff navigation, extraction, the duplicate check and the save succeed, in that order |
| Crawler.AnjukeCrawler.CrawlHouseBatch | anjuke_crawler.py:176-195 | answers the number of crawled links; successes rise by it and failures by the rest |
| Crawler.AnjukeCrawler.CrawlDetailPages | anjuke_crawler.py:197-204 | true iff at least one link was crawled; counters, CSV and verification log change as the batch specifies |
| Crawler.AnjukeCrawler.CrawlListPage | anjuke_crawler.py:119-136 | answers the link count; counters rise by exactly that many, successes by the crawled ones |
| Crawler.AnjukeCrawler.StartPage | anjuke_crawler.py:119-141 | one turn of the page loop keeps the loop's bookkeeping in step with the page-by-page specification |
| Crawler.AnjukeCrawler.WalkPages | anjuke_crawler.py:114-144 | every started page began under MAX_TOTAL_HOUSES, stopping early only at the limit; counters, CSV, log and delays match the pages started |
| Crawler.AnjukeCrawler.CrawlFromListPages | anjuke_crawler.py:93-148 | raises RuntimeError without a page, and OSError when the CSV cannot be created, changing nothing; otherwise walks the pages as specified, ends with the `crawler_stop` report of the final counters, and returns whether anything succeeded |
| Crawler.Crawled | anjuke_crawler.py:150-174 | a crawled listing answered 200, its script returned a record with only CSV fields, and its CSV file opened |
| Crawler.CountPositive | anjuke_crawler.py:204 | some listing was crawled exactly when the success count is positive |
| Crawler.CountIsSetSize | anjuke_crawler.py:185-189 | the success count is the number of positions whose listing crawled |
| Crawler.RowsPerSuccess | anjuke_crawler.py:181-192 | a batch appends exactly one row per success and keeps the earlier rows |
| Crawler.PagesRowsPerSuccess | anjuke_crawler.py:114-144 | the page loop appends exactly one row per success and keeps the earlier rows |
| Crawler.LogOnlyGrows | logger.py:251-265 | crawling listings only appends to the verification log |
| Crawler.RepeatedListingSavedTwice | anjuke_crawler.py:165-173 | a listing seen twice in one run is saved twice, because saving does not register its id |
| Crawler.SavedOnce | anjuke_crawler.py:172 | a crawled listing adds exactly its row |
| Crawler.DuplicateIsSkipped | anjuke_crawler.py:165-169 | a listing whose id is already known is not saved |
| Crawler.CrawledListingPassedGates | anjuke_crawler.py:155-174 | a crawled listing had status 200, passed verification, extraction and validation, and was no duplicate |
| Crawler.RowKeepsRecord | anjuke_crawler.py:245-247 | the CSV row holds each field's value in field order, and loses no key of a fitting record |
| Crawler.DelaysSkipLastPage | anjuke_crawler.py:140-141 | delays follow only non-empty pages before the last, in increasing page order |
| Crawler.EmptyPageSkipped | anjuke_crawler.py:127-129 | a page without links changes neither the processed count nor the delays |

## Left out

- The JavaScript run in the browser (data_extractor.py:29-339, list_page_crawler.py:35-67): the model takes its result as an input.
- Playwright itself is not modelled: browser launch options, proxy, `setup_browser_stealth`, `wait_for_selector`, `mouse.wheel`. Each browser step is an outcome value (returned or raised).
- `wait_for_page_load`: it swallows its own timeouts and has no effect on any result, so it is not modelled.
- `smart_delay` and `simulate_human_behavior`: random durations and scroll distances are left out. Simulated browsing is a `humanOk` outcome.
- `time.time()` is left out: the elapsed time is an input given in hundredths of a second.
- Logging.Logger.LogVerification: the duration is given in hundredths, not as a float formatted with `:.2f`.
- AntiCrawler.HandleVerification: its waits list only the 5000+2000·k ms waits after clicks. The fixed 2000 ms and 3000 ms waits inside detection and the success check are not listed.
- AntiCrawler.HandleVerification: of its logging calls, only the notice at anti_crawler.py:209 is modelled as able to raise, which takes the fail-open path. Console logging elsewhere is taken not to raise.
- Crawler.AnjukeCrawler.CrawlHouseBatch: the `smart_delay` after each listing is not recorded.
- Crawler.AnjukeCrawler.WalkPages: the delay between pages is recorded as the number of the page it follows, not as a duration.
- Crawler.AnjukeCrawler.CrawlFromListPages: its console messages at anjuke_crawler.py:106, 117, 120, 128, 131 and 137 are not modelled. Of `Logger.emitted` it states only the last two lines, the closing `crawler_stop` report; what comes before them is unspecified.
- Crawler.AnjukeCrawler.WalkPages: the per-page messages at anjuke_crawler.py:117-137 are not modelled, and `Logger.emitted` is unspecified after it.
- Crawler.AnjukeCrawler.StartPage: its messages at anjuke_crawler.py:120-137 are not modelled, and `Logger.emitted` is unspecified after it.
- Crawler.AnjukeCrawler.CrawlListPage: its messages at anjuke_crawler.py:120-137 are not modelled, and `Logger.emitted` is unspecified after it.
- Crawler.AnjukeCrawler.CrawlDetailPages: the message at anjuke_crawler.py:199 is not modelled, and `Logger.emitted` is unspecified after it.
- Crawler.AnjukeCrawler.CrawlHouseBatch: the progress and summary messages at anjuke_crawler.py:182 and 194 are not modelled, and `Logger.emitted` is unspecified after it.
- Crawler.AnjukeCrawler.CrawlSingleHouse: the messages at anjuke_crawler.py:153, 168 and 173, and those of the callees it models, are not modelled, and `Logger.emitted` is unspecified after it.
- AntiCrawler.SafeNavigate: the messages at anti_crawler.py:276-288 are not modelled, and `Logger.emitted` is unspecified after it.
- AntiCrawler.PostLoadActions: the message at anti_crawler.py:259 is not modelled, and `Logger.emitted` is unspecified after it.
- AntiCrawler.HandleVerification: the console messages at anti_crawler.py:130-192 and 209-239 are not modelled, and `Logger.emitted` is unspecified after it; only the verification-log records are stated.
- AntiCrawler.RunAttempts: the messages at anti_crawler.py:215-233 are not modelled, and `Logger.emitted` is unspecified after it.
- Text.ParseInt: only an optional sign and ASCII digits parse. Python `int()` would also accept surrounding spaces, underscores and Unicode digits.
- Text.Lower: only ASCII letters are lower-cased.
- DataExtraction.FirstNumber: only ASCII digits count, where Python's `\d` also matches Unicode digits.
- DataExtraction.FirstDecimal: only ASCII digits count, and the value is exact rather than a binary float.
- Logging.Format: the formatter is modelled through the two record attributes it changes and restores. The rest of `logging.Formatter` is not modelled.
- Log levels, handlers, the log file and ANSI output are not modelled. `Logger.emitted` is what the `info`, `progress` and `crawler_stop` methods append when they are called; of the crawler's own calls, only the closing `crawler_stop` is modelled (see the lines below). The other message helpers are thin wrappers around `logging` and are not modelled.
- CSV quoting and encodings are left out. An existing CSV is a sequence of rows mapping column names to cells. A cell missing from a short row is `None`, which makes `.strip()` raise.
- The preview logging inside `extract_data` and `_save_to_csv` is not modelled. It cannot change a result, because each of these functions either returns its data or is guarded.
- The page-loop `except` branch at anjuke_crawler.py:143-144 is not modelled. Both callees are wrapped by `handle_errors`; the branch is reached only when `logger.progress` at anjuke_crawler.py:120 raises, for instance when re-reading `.env` (logger.py:141-151) fails, and the model takes that logging not to raise.
- `AnjukeCrawler.get_stats` is not modelled separately: it returns `StatisticsTracker.get_stats`.
- Not modelled: `__aenter__`/`__aexit__`, `crawl_anjuke_from_list`, `crawl_anjuke_from_urls`, the `__main__` block and `Config.__str__`. They only compose modelled operations or format text.
- The module-level instances (config.py:126, logger.py:281, duplicate_checker.py:75) and `get_logger` are not modelled. Each modelled operation takes its settings and `.env` lines as parameters.
- The list pages and listing visits of a crawl are functions from index to observation. The model does not fetch anything.
- test_example.py is not part of this model: it calls a function the crawler does not define, and asserts nothing.
- Async scheduling and concurrency are not modelled: the crawler runs as one sequential flow.
