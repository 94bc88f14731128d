/**
 * logger.py: the logger's own reading of `.env`, the progress and end-of-crawl messages, the
 * colouring formatter and the append-only verification log.
 *
 * Files are values: `.env` is its lines (`None` when it does not exist) and the verification log is
 * its lines (`None` while the file does not exist). The clock is a parameter (`timestamp`), and a
 * failing write is the input `writeOk == false`.
 */
module Logging {

  import opened Common
  import opened Text
  import opened Config
  import Utils

  // ---------------------------------------------------------------------------
  // What `_setup_logger` reads from `.env`

  /** The values `_setup_logger` ends up with (`None`: the attribute was not assigned). */
  datatype LoggerEnv = LoggerEnv(
    logLevel: string, logFilename: string, showProgress: bool,
    verificationEnabled: Option<bool>, verificationLogFile: Option<string>)

  /** What the loop leaves behind when `d` is the last value read for every key. */
  function LoggerEnvOf(d: map<string, string>): LoggerEnv {
    LoggerEnv(
      Get(d, "LOG_LEVEL", "INFO"),
      Get(d, "LOG_FILENAME", "anjuke_crawler.log"),
      Flag(d, "SHOW_PROGRESS", true),
      if "ENABLE_VERIFICATION_LOG" in d then Some(Lower(d["ENABLE_VERIFICATION_LOG"]) == "true") else None,
      if "VERIFICATION_LOG_FILE" in d then Some(d["VERIFICATION_LOG_FILE"]) else None)
  }

  /** One step of the `if`/`elif` chain. */
  function Assign(e: LoggerEnv, key: string, value: string): LoggerEnv {
    if key == "LOG_LEVEL" then e.(logLevel := value)
    else if key == "LOG_FILENAME" then e.(logFilename := value)
    else if key == "SHOW_PROGRESS" then e.(showProgress := Lower(value) == "true")
    else if key == "ENABLE_VERIFICATION_LOG" then e.(verificationEnabled := Some(Lower(value) == "true"))
    else if key == "VERIFICATION_LOG_FILE" then e.(verificationLogFile := Some(value))
    else e
  }

  /** Reading one more line changes exactly the field its key names. */
  lemma LoggerEnvOfUpdate(d: map<string, string>, key: string, value: string)
    ensures LoggerEnvOf(d[key := value]) == Assign(LoggerEnvOf(d), key, value)
  {
  }

  /**
   * The `.env` loop of `_setup_logger`. It has no `break`, so every key keeps the value of its last
   * line: the result is what the settings dictionary of config.py holds.
   */
  method ReadLoggerEnv(env: Option<seq<string>>) returns (e: LoggerEnv)
    ensures env.None? ==> e == LoggerEnvOf(map[])
    ensures env.Some? ==> e == LoggerEnvOf(EnvMap(env.value))
  {
    e := LoggerEnv("INFO", "anjuke_crawler.log", true, None, None);
    if env.None? {
      return;
    }
    var lines := env.value;
    for i := 0 to |lines|
      invariant e == LoggerEnvOf(LastAssigned(Parsed(lines)[..i]))
    {
      ghost var before := LastAssigned(Parsed(lines)[..i]);
      assert Parsed(lines)[..i + 1][..i] == Parsed(lines)[..i];
      var entry := ParseEnvLine(lines[i]);
      if entry.Some? {
        LoggerEnvOfUpdate(before, entry.value.0, entry.value.1);
        e := Assign(e, entry.value.0, entry.value.1);
      }
    }
    assert Parsed(lines)[..|lines|] == Parsed(lines);
  }

  // ---------------------------------------------------------------------------
  // First-match readers: `progress` and `crawler_stop`

  /** Whether `progress` logs: the first SHOW_PROGRESS line decides, `true` without one. */
  predicate ProgressShown(env: Option<seq<string>>) {
    match FirstSetting(env, "SHOW_PROGRESS")
    case Some(v) => Lower(v) == "true"
    case None => true
  }

  /** The file `crawler_stop` names: the first CSV_FILENAME line, `anjuke_houses.csv` without one. */
  function StopCsvFilename(env: Option<seq<string>>): string {
    FirstSetting(env, "CSV_FILENAME").GetOr("anjuke_houses.csv")
  }

  /** The two closing messages of `crawler_stop`: the final counters, then the file the data went to. */
  function StopMessages(env: Option<seq<string>>, successes: nat, failures: nat): (lines: seq<string>)
    ensures |lines| == 2
  {
    ["📈 爬取完成! 成功: " + NatToString(successes) + ", 失败: " + NatToString(failures),
     "📁 数据已保存到: " + StopCsvFilename(env)]
  }

  /** Progress is shown when no line of `.env` sets SHOW_PROGRESS (or there is no `.env`). */
  lemma ProgressShownByDefault(env: Option<seq<string>>)
    requires env.Some? ==> forall i :: 0 <= i < |env.value| ==> !Assigns(Parsed(env.value)[i], "SHOW_PROGRESS")
    ensures ProgressShown(env)
  {
    if env.Some? {
      FirstAssignmentIsFirst(Parsed(env.value), "SHOW_PROGRESS");
    }
  }

  /**
   * A `.env` that sets SHOW_PROGRESS twice: `progress` follows the first line, the settings (and
   * `_setup_logger`) the second.
   */
  lemma ProgressReadsFirstSettingsReadLast(first: string, second: string)
    requires Stripped(first) && '#' !in first && Stripped(second) && '#' !in second
    ensures var lines := ["SHOW_PROGRESS=" + first, "SHOW_PROGRESS=" + second];
      && (ProgressShown(Some(lines)) <==> Lower(first) == "true")
      && (Flag(EnvMap(lines), "SHOW_PROGRESS", true) <==> Lower(second) == "true")
      && (LoggerEnvOf(EnvMap(lines)).showProgress <==> Lower(second) == "true")
  {
    var key := "SHOW_PROGRESS";
    assert key[0] == 'S';
    assert "SHOW_PROGRESS=" + first == key + "=" + first;
    assert "SHOW_PROGRESS=" + second == key + "=" + second;
    FirstAndLastDisagree(key, first, second);
  }

  // ---------------------------------------------------------------------------
  // ColoredFormatter

  const Reset := "\U{1B}[0m"

  /** `ColoredFormatter.COLORS`: five level names and the reset code (itself a key). */
  function Colors(): map<string, string> {
    map[
      "DEBUG" := "\U{1B}[36m",
      "INFO" := "\U{1B}[32m",
      "WARNING" := "\U{1B}[33m",
      "ERROR" := "\U{1B}[31m",
      "CRITICAL" := "\U{1B}[35m",
      "RESET" := Reset
    ]
  }

  /** The level name as the console shows it: wrapped in its colour and the reset code when it has one. */
  function Decorated(levelname: string): string {
    if levelname in Colors() then Colors()[levelname] + levelname + Reset else levelname
  }

  /**
   * The decorated name still shows the level name, and it differs from it exactly when the name
   * has a colour. The reset code is a key as well, so a record whose level name is `RESET` is
   * coloured too.
   */
  lemma DecoratedShowsLevel(levelname: string)
    ensures Contains(Decorated(levelname), levelname)
    ensures Decorated(levelname) == levelname <==> levelname !in Colors()
    ensures Decorated("RESET") == Reset + "RESET" + Reset
  {
    if levelname in Colors() {
      var c := Colors()[levelname];
      ContainsAt(Decorated(levelname), levelname, |c|);
      assert |Decorated(levelname)| > |levelname|;
    } else {
      ContainsAt(levelname, levelname, 0);
    }
  }

  /** A log record: only the two attributes the formatter touches. */
  class LogRecord {
    var levelname: string
    var message: string

    constructor (levelname: string, message: string)
      ensures this.levelname == levelname && this.message == message
    {
      this.levelname := levelname;
      this.message := message;
    }
  }

  /** The console layout `%(asctime)s %(levelname)s %(message)s`. */
  function ConsoleLine(asctime: string, levelname: string, message: string): string {
    asctime + " " + levelname + " " + message
  }

  /**
   * `ColoredFormatter.format`: formats with the decorated level name, which it writes into the
   * record and then puts back.
   */
  method Format(record: LogRecord, asctime: string) returns (formatted: string)
    modifies record
    ensures record.levelname == old(record.levelname) && record.message == old(record.message)
    ensures formatted == ConsoleLine(asctime, Decorated(record.levelname), record.message)
  {
    if record.levelname in Colors() {
      var original := record.levelname;
      record.levelname := Colors()[original] + original + Colors()["RESET"];
      formatted := ConsoleLine(asctime, record.levelname, record.message);
      record.levelname := original;
    } else {
      formatted := ConsoleLine(asctime, record.levelname, record.message);
    }
  }

  // ---------------------------------------------------------------------------
  // Verification log records

  const VerificationHeader := "timestamp,url,result,attempts,duration_seconds"

  datatype VerificationResult = Success | Failure | Skipped

  function ResultName(r: VerificationResult): string {
    match r
    case Success => "SUCCESS"
    case Failure => "FAILED"
    case Skipped => "SKIPPED"
  }

  /** `f"{duration:.2f}"` for a duration given in hundredths of a second. */
  function FormatDuration(hundredths: nat): string {
    NatToString(hundredths / 100) + "." + [DigitChar(hundredths % 100 / 10), DigitChar(hundredths % 10)]
  }

  /** The two digits after the point spell the hundredths below one second. */
  lemma TwoDigitsValue(hundredths: nat)
    ensures DigitsValue([DigitChar(hundredths % 100 / 10), DigitChar(hundredths % 10)]) == hundredths % 100
  {
    var frac := [DigitChar(hundredths % 100 / 10), DigitChar(hundredths % 10)];
    assert frac[..1] == [frac[0]];
    assert DigitsValue(frac) == DigitsValue([frac[0]]) * 10 + DigitValue(frac[1]);
    assert DigitsValue([frac[0]]) == DigitValue(frac[0]) by {
      assert [frac[0]][..0] == [];
    }
  }

  /** The rendered duration reads back: seconds before the point, hundredths after it. */
  lemma FormatDurationReadsBack(hundredths: nat)
    ensures var parts := Split(FormatDuration(hundredths), '.');
      |parts| == 2 && AllDigits(parts[0]) && AllDigits(parts[1]) && |parts[1]| == 2
      && DigitsValue(parts[0]) * 100 + DigitsValue(parts[1]) == hundredths
  {
    var whole := NatToString(hundredths / 100);
    var frac := [DigitChar(hundredths % 100 / 10), DigitChar(hundredths % 10)];
    assert '.' !in whole by {
      assert forall i :: 0 <= i < |whole| ==> IsDigit(whole[i]);
    }
    assert '.' !in frac;
    assert FormatDuration(hundredths) == Join([whole, frac], '.');
    SplitJoin([whole, frac], '.');
    NatToStringValue(hundredths / 100);
    TwoDigitsValue(hundredths);
    assert DigitsValue(frac) == hundredths % 100;
  }

  /** One record: `timestamp,url,result,attempts,duration`. */
  function RenderRecord(timestamp: string, url: string, result: VerificationResult, attempts: int, hundredths: nat): string {
    Join([timestamp, url, ResultName(result), IntToString(attempts), FormatDuration(hundredths)], ',')
  }

  lemma NumberHasNoComma(n: nat)
    ensures ',' !in NatToString(n)
  {
    var s := NatToString(n);
    assert forall i :: 0 <= i < |s| ==> IsDigit(s[i]);
  }

  /**
   * A record splits back into its five fields in order, and the attempts field reads back as the
   * number of attempts, provided the timestamp and the URL hold no comma (the line is not quoted,
   * so a URL with a comma shifts the fields).
   */
  lemma RecordReadsBack(timestamp: string, url: string, result: VerificationResult, attempts: int, hundredths: nat)
    requires ',' !in timestamp && ',' !in url
    ensures var fields := Split(RenderRecord(timestamp, url, result, attempts, hundredths), ',');
      fields == [timestamp, url, ResultName(result), IntToString(attempts), FormatDuration(hundredths)]
      && ParseInt(fields[3]) == Some(attempts)
  {
    var fields := [timestamp, url, ResultName(result), IntToString(attempts), FormatDuration(hundredths)];
    NumberHasNoComma(if attempts < 0 then -attempts else attempts);
    assert ',' !in IntToString(attempts);
    NumberHasNoComma(hundredths / 100);
    assert ',' !in FormatDuration(hundredths);
    assert ',' !in ResultName(result);
    SplitJoin(fields, ',');
    ParseIntOfIntToString(attempts);
  }

  // ---------------------------------------------------------------------------
  // Logger

  /** The contents of an optional file, empty when it does not exist. */
  function LinesOf(file: Option<seq<string>>): seq<string> {
    file.GetOr([])
  }

  class Logger {
    // The logger's name, level, log file and verification file name are set once, by the constructor.
    const name: string
    const logLevel: string
    const logFilename: string
    /** Whether a file handler is attached (`log_filename` non-empty). */
    const fileHandler: bool
    var verificationEnabled: bool
    const verificationLogFile: string
    /** The verification log file; `None` while it does not exist. */
    var verificationLog: Option<seq<string>>
    /** The messages handed to `logger.info` by `progress`, `crawler_stop` and `info`. */
    var emitted: seq<string>

    /**
     * `Logger.__init__`: `_setup_logger` reads `.env`, then lines 45-46 overwrite what it read for
     * the verification log, then `_init_verification_log` names the file and creates it with its
     * header when it does not exist. `existingLog` is what the verification log file holds beforehand.
     */
    constructor (name: string, env: Option<seq<string>>, existingLog: Option<seq<string>>)
      ensures this.name == name
      ensures var e := if env.None? then LoggerEnvOf(map[]) else LoggerEnvOf(EnvMap(env.value));
        logLevel == e.logLevel && logFilename == e.logFilename && fileHandler == (e.logFilename != [])
      ensures verificationEnabled && verificationLogFile == "verification_log.csv"
      ensures verificationLog == if existingLog.None? then Some([VerificationHeader]) else existingLog
      ensures emitted == []
    {
      var e := ReadLoggerEnv(env);
      this.name := name;
      logLevel := e.logLevel;
      logFilename := e.logFilename;
      fileHandler := e.logFilename != [];
      // Lines 45-46 run after `_setup_logger`: what it read for the verification log is discarded,
      // the file name is reset to `None` and `_init_verification_log` then picks the default name.
      verificationEnabled := true;
      verificationLogFile := "verification_log.csv";
      verificationLog := if existingLog.None? then Some([VerificationHeader]) else existingLog;
      emitted := [];
    }

    /** `info`: hands the message to the logging system. */
    method Info(message: string)
      modifies this
      ensures emitted == old(emitted) + [message]
      ensures verificationLog == old(verificationLog) && verificationEnabled == old(verificationEnabled)
    {
      emitted := emitted + [message];
    }

    /** `progress`: re-reads `.env` (first SHOW_PROGRESS line wins) and logs only when it is true. */
    method Progress(env: Option<seq<string>>, message: string)
      modifies this
      ensures emitted == old(emitted) + if ProgressShown(env) then ["📊 " + message] else []
      ensures verificationLog == old(verificationLog) && verificationEnabled == old(verificationEnabled)
    {
      var show := true;
      if env.Some? {
        var v := FindFirst(env.value, "SHOW_PROGRESS");
        if v.Some? {
          show := Lower(v.value) == "true";
        }
      }
      if show {
        emitted := emitted + ["📊 " + message];
      }
    }

    /** `crawler_stop`: the two closing messages, naming the first CSV_FILENAME of `.env`. */
    method CrawlerStop(env: Option<seq<string>>, stats: Utils.Stats)
      modifies this
      ensures emitted == old(emitted) + StopMessages(env, stats.successCount, stats.failedCount)
      ensures verificationLog == old(verificationLog) && verificationEnabled == old(verificationEnabled)
    {
      var csvFilename := "anjuke_houses.csv";
      if env.Some? {
        var v := FindFirst(env.value, "CSV_FILENAME");
        if v.Some? {
          csvFilename := v.value;
        }
      }
      emitted := emitted + ["📈 爬取完成! 成功: " + NatToString(stats.successCount) + ", 失败: " + NatToString(stats.failedCount)];
      emitted := emitted + ["📁 数据已保存到: " + csvFilename];
    }

    /**
     * `log_verification`: nothing while disabled; otherwise appends one record (opening in append
     * mode creates the file). A failing write is swallowed and leaves the file as it was.
     */
    method LogVerification(url: string, result: VerificationResult, attempts: int, hundredths: nat,
                           timestamp: string, writeOk: bool)
      modifies this
      ensures verificationLog == if verificationEnabled && writeOk
        then Some(LinesOf(old(verificationLog)) + [RenderRecord(timestamp, url, result, attempts, hundredths)])
        else old(verificationLog)
      ensures verificationEnabled == old(verificationEnabled) && emitted == old(emitted)
    {
      if !verificationEnabled {
        return;
      }
      if writeOk {
        verificationLog := Some(LinesOf(verificationLog) + [RenderRecord(timestamp, url, result, attempts, hundredths)]);
      }
    }

    method LogVerificationSuccess(url: string, attempts: int, hundredths: nat, timestamp: string, writeOk: bool)
      modifies this
      ensures verificationLog == if verificationEnabled && writeOk
        then Some(LinesOf(old(verificationLog)) + [RenderRecord(timestamp, url, Success, attempts, hundredths)])
        else old(verificationLog)
      ensures verificationEnabled == old(verificationEnabled) && emitted == old(emitted)
    {
      LogVerification(url, Success, attempts, hundredths, timestamp, writeOk);
    }

    method LogVerificationFailure(url: string, attempts: int, hundredths: nat, timestamp: string, writeOk: bool)
      modifies this
      ensures verificationLog == if verificationEnabled && writeOk
        then Some(LinesOf(old(verificationLog)) + [RenderRecord(timestamp, url, Failure, attempts, hundredths)])
        else old(verificationLog)
      ensures verificationEnabled == old(verificationEnabled) && emitted == old(emitted)
    {
      LogVerification(url, Failure, attempts, hundredths, timestamp, writeOk);
    }

    /** A skipped verification is recorded with 0 attempts and duration 0. */
    method LogVerificationSkip(url: string, timestamp: string, writeOk: bool)
      modifies this
      ensures verificationLog == if verificationEnabled && writeOk
        then Some(LinesOf(old(verificationLog)) + [RenderRecord(timestamp, url, Skipped, 0, 0)])
        else old(verificationLog)
      ensures verificationEnabled == old(verificationEnabled) && emitted == old(emitted)
    {
      LogVerification(url, Skipped, 0, 0, timestamp, writeOk);
    }
  }

  /** A skip record ends in `,SKIPPED,0,0.00`. */
  lemma SkipRecordFields(timestamp: string, url: string)
    requires ',' !in timestamp && ',' !in url
    ensures Split(RenderRecord(timestamp, url, Skipped, 0, 0), ',') == [timestamp, url, "SKIPPED", "0", "0.00"]
  {
    RecordReadsBack(timestamp, url, Skipped, 0, 0);
    assert DigitChar(0) == '0';
    assert NatToString(0) == "0";
    assert IntToString(0) == "0";
    assert [DigitChar(0 % 100 / 10), DigitChar(0 % 10)] == "00";
    assert FormatDuration(0) == "0.00";
    assert ResultName(Skipped) == "SKIPPED";
  }
}
