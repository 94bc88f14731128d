/**
 * config.py: the `.env` line parser and the typed settings built from it.
 *
 * The file is given as its lines (`None` when `.env` does not exist). The settings object is only
 * written while it is being built, so it is modelled as a value, `Settings`.
 */
module Config {

  import opened Common
  import opened Text

  // ---------------------------------------------------------------------------
  // One line of `.env`

  /** What one line assigns: a key and its value, or nothing. */
  type Entry = Option<(string, string)>

  /**
   * A line contributes `(key, value)` when, stripped, it is non-empty, does not start with `#` and
   * holds an `=`. It is split at the first `=`; the key is stripped; the value is cut at its first `#`
   * and stripped, so it may still hold `=`.
   */
  function ParseEnvLine(line: string): (e: Entry)
    ensures e.Some? ==> '=' in line && Stripped(e.value.0) && Stripped(e.value.1)
  {
    var t := Strip(line);
    if t != [] && t[0] != '#' && '=' in t then
      Some((Strip(UpTo(t, '=')), Strip(UpTo(After(t, '='), '#'))))
    else None
  }

  /**
   * Which lines assign something, and what an assignment looks like: a stripped key without `=`,
   * a stripped value without `#`.
   */
  lemma ParseEnvLineShape(line: string)
    ensures var t := Strip(line);
      ParseEnvLine(line).Some? <==> t != [] && t[0] != '#' && '=' in t
    ensures ParseEnvLine(line).Some? ==>
      var (key, value) := ParseEnvLine(line).value;
      '=' !in key && '#' !in value && Stripped(key) && Stripped(value)
  {
  }

  /** On a line that is already stripped, the parser works on the line itself. */
  lemma ParseStrippedLine(t: string)
    requires Stripped(t) && t != [] && t[0] != '#' && '=' in t
    ensures ParseEnvLine(t) == Some((Strip(UpTo(t, '=')), Strip(UpTo(After(t, '='), '#'))))
  {
    StripKeepsStripped(t);
  }

  lemma AssignmentLineStripped(key: string, value: string)
    requires key != [] && Stripped(key) && Stripped(value)
    ensures Stripped(key + "=" + value)
  {
    var line := key + "=" + value;
    assert line[0] == key[0];
    if value == [] {
      assert line[|line| - 1] == '=';
    } else {
      assert line[|line| - 1] == value[|value| - 1];
    }
  }

  /** Writing a setting as `KEY=value` and parsing it back gives the same key and value. */
  lemma ParseEnvLineRoundTrip(key: string, value: string)
    requires key != [] && Stripped(key) && key[0] != '#' && '=' !in key
    requires Stripped(value) && '#' !in value
    ensures ParseEnvLine(key + "=" + value) == Some((key, value))
  {
    var line := key + "=" + value;
    AssignmentLineStripped(key, value);
    assert line == key + ['='] + value;
    assert line[0] == key[0] && line[|key|] == '=';
    ParseStrippedLine(line);
    UpToSeparator(key, value, '=');
    AfterSplits(line, '=');
    assert After(line, '=') == value;
    UpToWithoutSeparator(value, '#');
    StripKeepsStripped(key);
    StripKeepsStripped(value);
  }

  // ---------------------------------------------------------------------------
  // The whole file

  /** The entries of the lines, in file order. */
  function Parsed(lines: seq<string>): seq<Entry> {
    seq(|lines|, i requires 0 <= i < |lines| => ParseEnvLine(lines[i]))
  }

  predicate Assigns(e: Entry, key: string) {
    e.Some? && e.value.0 == key
  }

  /** The dictionary built by reading the entries in order: a later entry overrides an earlier one. */
  function LastAssigned(entries: seq<Entry>): map<string, string> {
    if entries == [] then map[]
    else
      var d := LastAssigned(entries[..|entries| - 1]);
      match entries[|entries| - 1]
      case Some((k, v)) => d[k := v]
      case None => d
  }

  /** A key is in the dictionary exactly when some entry assigns it. */
  lemma {:induction false} AssignedKeys(entries: seq<Entry>, key: string)
    ensures key in LastAssigned(entries) <==> exists i :: 0 <= i < |entries| && Assigns(entries[i], key)
  {
    if entries != [] {
      var init := entries[..|entries| - 1];
      var n := |entries| - 1;
      AssignedKeys(init, key);
      if !Assigns(entries[n], key) && key !in LastAssigned(init) {
        forall i | 0 <= i < |entries|
          ensures !Assigns(entries[i], key)
        {
          if i < n {
            assert entries[i] == init[i];
          }
        }
      } else if !Assigns(entries[n], key) {
        var i :| 0 <= i < n && Assigns(init[i], key);
        assert entries[i] == init[i];
      }
    }
  }

  /** The value of an assigned key is the one of the LAST entry that assigns it. */
  lemma {:induction false} LastAssignmentWins(entries: seq<Entry>, key: string)
    requires key in LastAssigned(entries)
    ensures exists i :: 0 <= i < |entries| && Assigns(entries[i], key) &&
                        entries[i].value.1 == LastAssigned(entries)[key] &&
                        forall j :: i < j < |entries| ==> !Assigns(entries[j], key)
  {
    var init := entries[..|entries| - 1];
    var n := |entries| - 1;
    if Assigns(entries[n], key) {
      assert entries[n].value.1 == LastAssigned(entries)[key];
    } else {
      assert key in LastAssigned(init);
      LastAssignmentWins(init, key);
      var i :| 0 <= i < n && Assigns(init[i], key) && init[i].value.1 == LastAssigned(init)[key]
        && forall j :: i < j < n ==> !Assigns(init[j], key);
      assert entries[i] == init[i];
      assert forall j :: i < j < n ==> entries[j] == init[j];
    }
  }

  /** `config_dict` after reading the lines of `.env` in order. */
  function EnvMap(lines: seq<string>): map<string, string> {
    LastAssigned(Parsed(lines))
  }

  /** The value of the FIRST entry assigning `key`. */
  function FirstAssigned(entries: seq<Entry>, key: string): Option<string> {
    if entries == [] then None
    else if Assigns(entries[0], key) then Some(entries[0].value.1)
    else FirstAssigned(entries[1..], key)
  }

  /**
   * The first-match lookup finds `key` exactly when some entry assigns it, and then yields the
   * value of the first such entry.
   */
  lemma {:induction false} FirstAssignmentIsFirst(entries: seq<Entry>, key: string)
    ensures FirstAssigned(entries, key).None? <==> forall i :: 0 <= i < |entries| ==> !Assigns(entries[i], key)
    ensures FirstAssigned(entries, key).Some? ==>
      exists i :: 0 <= i < |entries| && Assigns(entries[i], key) && entries[i].value.1 == FirstAssigned(entries, key).value
        && forall j :: 0 <= j < i ==> !Assigns(entries[j], key)
  {
    if entries != [] && !Assigns(entries[0], key) {
      var rest := entries[1..];
      FirstAssignmentIsFirst(rest, key);
      assert forall i :: 0 < i < |entries| ==> entries[i] == rest[i - 1];
      if FirstAssigned(entries, key).Some? {
        var i :| 0 <= i < |rest| && Assigns(rest[i], key)
          && rest[i].value.1 == FirstAssigned(entries, key).value
          && forall j :: 0 <= j < i ==> !Assigns(rest[j], key);
        assert Assigns(entries[i + 1], key);
      }
    }
  }

  /** The first-match lookup over an optional `.env`. */
  function FirstSetting(env: Option<seq<string>>, key: string): Option<string> {
    if env.None? then None else FirstAssigned(Parsed(env.value), key)
  }

  /**
   * The first-match loop over the lines of `.env` (the one with `break` in logger.py and
   * duplicate_checker.py).
   */
  method FindFirst(lines: seq<string>, key: string) returns (v: Option<string>)
    ensures v == FirstAssigned(Parsed(lines), key)
  {
    v := None;
    var i := 0;
    while i < |lines|
      invariant 0 <= i <= |lines|
      invariant FirstAssigned(Parsed(lines), key) == FirstAssigned(Parsed(lines)[i..], key)
    {
      assert Parsed(lines)[i..][1..] == Parsed(lines)[i + 1..];
      var entry := ParseEnvLine(lines[i]);
      if entry.Some? && entry.value.0 == key {
        v := Some(entry.value.1);
        return;
      }
      i := i + 1;
    }
  }

  /**
   * The first-match and last-match readers disagree on a file that sets a key twice: the
   * first-match lookup (`progress`, `crawler_stop`, the duplicate checker) yields the first value,
   * the settings hold the second.
   */
  lemma FirstAndLastDisagree(key: string, first: string, second: string)
    requires key != [] && Stripped(key) && key[0] != '#' && '=' !in key
    requires Stripped(first) && '#' !in first && Stripped(second) && '#' !in second
    ensures FirstAssigned(Parsed([key + "=" + first, key + "=" + second]), key) == Some(first)
    ensures key in EnvMap([key + "=" + first, key + "=" + second])
    ensures EnvMap([key + "=" + first, key + "=" + second])[key] == second
  {
    var lines := [key + "=" + first, key + "=" + second];
    var entries := [Some((key, first)), Some((key, second))];
    assert Parsed(lines) == entries by {
      ParseEnvLineRoundTrip(key, first);
      ParseEnvLineRoundTrip(key, second);
    }
    assert entries[..1][..0] == [];
  }

  // ---------------------------------------------------------------------------
  // Typed settings

  datatype ConfigError = MissingEnvFile | InvalidInteger(key: string, text: string)

  datatype Result<T> = Ok(value: T) | Err(error: ConfigError) {
    predicate IsFailure() {
      Err?
    }

    function PropagateFailure<U>(): Result<U>
      requires Err?
    {
      Err(error)
    }

    function Extract(): T
      requires Ok?
    {
      value
    }
  }

  datatype Settings = Settings(
    browserHeadless: bool, browserTimeout: int, baseUrl: string,
    maxHousesPerPage: int, maxTotalHouses: int, maxPages: int, crawlDelay: int, pageLoadDelay: int,
    csvFilename: string, csvEncoding: string, appendMode: bool,
    logLevel: string, showProgress: bool, logFilename: string,
    enableAutoVerification: bool, maxRetryTimes: int, retryDelay: int, enableStealthMode: bool,
    proxyList: seq<string>, targetRegions: seq<string>,
    validateData: bool, minPrice: int, maxPrice: int, minArea: int, maxArea: int,
    enableDuplicateCheck: bool, duplicateCsvFile: string,
    enableVerificationLog: bool, verificationLogFile: string)

  /** `config_dict.get(key, default)`. */
  function Get(d: map<string, string>, key: string, default: string): string {
    if key in d then d[key] else default
  }

  /** A boolean setting: `config_dict.get(key, default).lower() == 'true'`. */
  predicate Flag(d: map<string, string>, key: string, default: bool) {
    if key in d then Lower(d[key]) == "true" else default
  }

  /** An integer setting: `int(config_dict.get(key, default))`, failing on a non-numeric value. */
  function Number(d: map<string, string>, key: string, default: int): Result<int> {
    if key !in d then Ok(default)
    else
      match ParseInt(d[key])
      case Some(n) => Ok(n)
      case None => Err(InvalidInteger(key, d[key]))
  }

  /** A list setting: the stripped value split on every `,` (items are not stripped), `[]` if blank. */
  function Items(d: map<string, string>, key: string): (items: seq<string>)
    ensures items == [] <==> Strip(Get(d, key, "")) == []
  {
    var text := Strip(Get(d, key, ""));
    if text != [] then Split(text, ',') else []
  }

  /** A non-empty list setting joins back to the stripped text it was read from. */
  lemma ItemsJoinBack(d: map<string, string>, key: string)
    requires Items(d, key) != []
    ensures Join(Items(d, key), ',') == Strip(Get(d, key, ""))
  {
    JoinSplit(Strip(Get(d, key, "")), ',');
  }

  /** The integer settings, in the order `_load_config` converts them. */
  const IntegerKeys: seq<string> := [
    "BROWSER_TIMEOUT", "MAX_HOUSES_PER_PAGE", "MAX_TOTAL_HOUSES", "MAX_PAGES",
    "CRAWL_DELAY", "PAGE_LOAD_DELAY", "MAX_RETRY_TIMES", "RETRY_DELAY",
    "MIN_PRICE", "MAX_PRICE", "MIN_AREA", "MAX_AREA"]

  /** The defaults of `IntegerKeys`, position by position. */
  const IntegerDefaults: seq<int> := [30000, 60, 50000, 100, 2, 2, 3, 5, 100, 50000, 1, 1000]

  /** The integer settings of `s`, in the order of `IntegerKeys`. */
  function IntegerFields(s: Settings): seq<int> {
    [s.browserTimeout, s.maxHousesPerPage, s.maxTotalHouses, s.maxPages,
     s.crawlDelay, s.pageLoadDelay, s.maxRetryTimes, s.retryDelay,
     s.minPrice, s.maxPrice, s.minArea, s.maxArea]
  }

  /** Converts the `keys` one after the other; the first that fails to convert is the error. */
  function Numbers(d: map<string, string>, keys: seq<string>, defaults: seq<int>): (r: Result<seq<int>>)
    requires |keys| == |defaults|
    ensures r.Ok? ==> |r.value| == |keys|
  {
    if keys == [] then Ok([])
    else
      var n :- Number(d, keys[0], defaults[0]);
      var rest :- Numbers(d, keys[1..], defaults[1..]);
      Ok([n] + rest)
  }

  /** The settings read from `d` once its integer settings have been converted to `ns`. */
  function SettingsOf(d: map<string, string>, ns: seq<int>): (s: Settings)
    requires |ns| == |IntegerKeys|
    ensures IntegerFields(s) == ns
  {
    var browserTimeout, maxHousesPerPage, maxTotalHouses, maxPages := ns[0], ns[1], ns[2], ns[3];
    var crawlDelay, pageLoadDelay, maxRetryTimes, retryDelay := ns[4], ns[5], ns[6], ns[7];
    var minPrice, maxPrice, minArea, maxArea := ns[8], ns[9], ns[10], ns[11];
    var s := Settings(
      Flag(d, "BROWSER_HEADLESS", false), browserTimeout,
      Get(d, "BASE_URL", "https://hf.zu.anjuke.com/fangyuan"),
      maxHousesPerPage, maxTotalHouses, maxPages, crawlDelay, pageLoadDelay,
      Get(d, "CSV_FILENAME", "anjuke_houses.csv"), Get(d, "CSV_ENCODING", "utf-8"),
      Flag(d, "APPEND_MODE", false),
      Get(d, "LOG_LEVEL", "INFO"), Flag(d, "SHOW_PROGRESS", true),
      Get(d, "LOG_FILENAME", "anjuke_crawler.log"),
      Flag(d, "ENABLE_AUTO_VERIFICATION", true), maxRetryTimes, retryDelay,
      Flag(d, "ENABLE_STEALTH_MODE", true),
      Items(d, "PROXY_LIST"), Items(d, "TARGET_REGIONS"),
      Flag(d, "VALIDATE_DATA", true), minPrice, maxPrice, minArea, maxArea,
      Flag(d, "ENABLE_DUPLICATE_CHECK", true), Strip(Get(d, "DUPLICATE_CSV_FILE", "")),
      Flag(d, "ENABLE_VERIFICATION_LOG", true),
      Get(d, "VERIFICATION_LOG_FILE", "verification_log.csv"));
    s
  }

  /**
   * The attributes `_load_config` assigns. The integer conversions are the only ones that can fail
   * and run in the order of `IntegerKeys`; the string, flag and list settings in between cannot fail.
   */
  function FromEnv(d: map<string, string>): (r: Result<Settings>)
    ensures r.Ok? ==> Numbers(d, IntegerKeys, IntegerDefaults) == Ok(IntegerFields(r.value))
  {
    var ns :- Numbers(d, IntegerKeys, IntegerDefaults);
    Ok(SettingsOf(d, ns))
  }

  /** The settings of an empty `.env`. */
  function Defaults(): Settings {
    Settings(
      false, 30000, "https://hf.zu.anjuke.com/fangyuan",
      60, 50000, 100, 2, 2,
      "anjuke_houses.csv", "utf-8", false,
      "INFO", true, "anjuke_crawler.log",
      true, 3, 5, true,
      [], [],
      true, 100, 50000, 1, 1000,
      true, "", true, "verification_log.csv")
  }

  /** Every setting takes its listed default when its key is absent. */
  lemma DefaultsWhenEmpty()
    ensures FromEnv(map[]) == Ok(Defaults())
  {
    NumbersOfAbsent(map[], IntegerKeys, IntegerDefaults);
    assert Strip("") == "";
  }

  /** `int(...)` succeeds on the key's value, or the key is absent and the default applies. */
  predicate Readable(d: map<string, string>, key: string) {
    key !in d || ParseInt(d[key]).Some?
  }

  /** `keys[i]` is the first of `keys` that cannot be converted. */
  predicate FirstUnreadable(d: map<string, string>, keys: seq<string>, i: int) {
    && 0 <= i < |keys|
    && !Readable(d, keys[i])
    && forall j :: 0 <= j < i ==> Readable(d, keys[j])
  }

  /** Keys that are all absent take their defaults. */
  lemma {:induction false} NumbersOfAbsent(d: map<string, string>, keys: seq<string>, defaults: seq<int>)
    requires |keys| == |defaults|
    requires forall i :: 0 <= i < |keys| ==> keys[i] !in d
    ensures Numbers(d, keys, defaults) == Ok(defaults)
  {
    if keys != [] {
      NumbersOfAbsent(d, keys[1..], defaults[1..]);
      assert [defaults[0]] + defaults[1..] == defaults;
    }
  }

  /**
   * Converting succeeds exactly when every key is readable, each value then being the key's own
   * conversion; otherwise the error names the first unreadable key and its value.
   */
  lemma {:induction false} NumbersFails(d: map<string, string>, keys: seq<string>, defaults: seq<int>)
    requires |keys| == |defaults|
    ensures Numbers(d, keys, defaults).Ok? <==> forall i :: 0 <= i < |keys| ==> Readable(d, keys[i])
    ensures Numbers(d, keys, defaults).Ok? ==>
      forall i :: 0 <= i < |keys| ==> Number(d, keys[i], defaults[i]) == Ok(Numbers(d, keys, defaults).value[i])
    ensures Numbers(d, keys, defaults).Err? ==>
      exists i :: FirstUnreadable(d, keys, i) && Numbers(d, keys, defaults).error == InvalidInteger(keys[i], d[keys[i]])
  {
    if keys != [] {
      NumbersFails(d, keys[1..], defaults[1..]);
      var r := Numbers(d, keys, defaults);
      if !Readable(d, keys[0]) {
        assert FirstUnreadable(d, keys, 0);
      } else if r.Err? {
        var i :| FirstUnreadable(d, keys[1..], i) && r.error == InvalidInteger(keys[1..][i], d[keys[1..][i]]);
        assert FirstUnreadable(d, keys, i + 1);
      } else {
        forall i | 0 <= i < |keys|
          ensures Readable(d, keys[i]) && Number(d, keys[i], defaults[i]) == Ok(r.value[i])
        {
          if i > 0 {
            assert keys[i] == keys[1..][i - 1];
          }
        }
      }
    }
  }

  /**
   * `_load_config` fails exactly when some integer setting cannot be converted, and it then reports
   * the first such setting in source order with its value; otherwise each integer setting is its
   * key's conversion, or its default when the key is absent.
   */
  lemma FromEnvFails(d: map<string, string>)
    ensures FromEnv(d).Err? <==> exists i :: 0 <= i < |IntegerKeys| && !Readable(d, IntegerKeys[i])
    ensures FromEnv(d).Ok? ==> forall i :: 0 <= i < |IntegerKeys| ==>
      Number(d, IntegerKeys[i], IntegerDefaults[i]) == Ok(IntegerFields(FromEnv(d).value)[i])
    ensures FromEnv(d).Err? ==>
      exists i :: FirstUnreadable(d, IntegerKeys, i) && FromEnv(d).error == InvalidInteger(IntegerKeys[i], d[IntegerKeys[i]])
  {
    NumbersFails(d, IntegerKeys, IntegerDefaults);
  }

  /** The reading loop of `_load_config`: every line in order, later assignments overriding earlier ones. */
  method ReadEnv(lines: seq<string>) returns (d: map<string, string>)
    ensures d == EnvMap(lines)
  {
    d := map[];
    for i := 0 to |lines|
      invariant d == LastAssigned(Parsed(lines)[..i])
    {
      assert Parsed(lines)[..i + 1][..i] == Parsed(lines)[..i];
      var entry := ParseEnvLine(lines[i]);
      if entry.Some? {
        d := d[entry.value.0 := entry.value.1];
      }
    }
    assert Parsed(lines)[..|lines|] == Parsed(lines);
  }

  /**
   * `_load_config`: reads the lines into `config_dict`, then converts it; a missing file is the
   * `FileNotFoundError` path.
   */
  method LoadConfig(env: Option<seq<string>>) returns (r: Result<Settings>)
    ensures env.None? ==> r == Err(MissingEnvFile)
    ensures env.Some? ==> r == FromEnv(EnvMap(env.value))
  {
    if env.None? {
      return Err(MissingEnvFile);
    }
    var d := ReadEnv(env.value);
    r := FromEnv(d);
  }

  // ---------------------------------------------------------------------------
  // get_dict

  datatype SettingValue = BoolValue(b: bool) | IntValue(i: int) | TextValue(s: string) | ListValue(items: seq<string>)

  /** The keys of the `get_dict` dictionary: one per attribute, named as the attribute is. */
  datatype SettingKey =
    BrowserHeadless | BrowserTimeout | BaseUrl | MaxHousesPerPage
    | MaxTotalHouses | MaxPages | CrawlDelay | PageLoadDelay
    | CsvFilename | CsvEncoding | AppendMode | LogLevel
    | ShowProgress | LogFilename | EnableAutoVerification | MaxRetryTimes
    | RetryDelay | EnableStealthMode | ProxyList | TargetRegions
    | ValidateData | MinPrice | MaxPrice | MinArea
    | MaxArea | EnableDuplicateCheck | DuplicateCsvFile | EnableVerificationLog
    | VerificationLogFile

  /** The dictionary key of an attribute. */
  function KeyName(k: SettingKey): string {
    match k
    case BrowserHeadless => "browser_headless"
    case BrowserTimeout => "browser_timeout"
    case BaseUrl => "base_url"
    case MaxHousesPerPage => "max_houses_per_page"
    case MaxTotalHouses => "max_total_houses"
    case MaxPages => "max_pages"
    case CrawlDelay => "crawl_delay"
    case PageLoadDelay => "page_load_delay"
    case CsvFilename => "csv_filename"
    case CsvEncoding => "csv_encoding"
    case AppendMode => "append_mode"
    case LogLevel => "log_level"
    case ShowProgress => "show_progress"
    case LogFilename => "log_filename"
    case EnableAutoVerification => "enable_auto_verification"
    case MaxRetryTimes => "max_retry_times"
    case RetryDelay => "retry_delay"
    case EnableStealthMode => "enable_stealth_mode"
    case ProxyList => "proxy_list"
    case TargetRegions => "target_regions"
    case ValidateData => "validate_data"
    case MinPrice => "min_price"
    case MaxPrice => "max_price"
    case MinArea => "min_area"
    case MaxArea => "max_area"
    case EnableDuplicateCheck => "enable_duplicate_check"
    case DuplicateCsvFile => "duplicate_csv_file"
    case EnableVerificationLog => "enable_verification_log"
    case VerificationLogFile => "verification_log_file"
  }

  /** The value `get_dict` stores under a key: the attribute of that name. */
  function ValueOf(s: Settings, k: SettingKey): SettingValue {
    match k
    case BrowserHeadless => BoolValue(s.browserHeadless)
    case BrowserTimeout => IntValue(s.browserTimeout)
    case BaseUrl => TextValue(s.baseUrl)
    case MaxHousesPerPage => IntValue(s.maxHousesPerPage)
    case MaxTotalHouses => IntValue(s.maxTotalHouses)
    case MaxPages => IntValue(s.maxPages)
    case CrawlDelay => IntValue(s.crawlDelay)
    case PageLoadDelay => IntValue(s.pageLoadDelay)
    case CsvFilename => TextValue(s.csvFilename)
    case CsvEncoding => TextValue(s.csvEncoding)
    case AppendMode => BoolValue(s.appendMode)
    case LogLevel => TextValue(s.logLevel)
    case ShowProgress => BoolValue(s.showProgress)
    case LogFilename => TextValue(s.logFilename)
    case EnableAutoVerification => BoolValue(s.enableAutoVerification)
    case MaxRetryTimes => IntValue(s.maxRetryTimes)
    case RetryDelay => IntValue(s.retryDelay)
    case EnableStealthMode => BoolValue(s.enableStealthMode)
    case ProxyList => ListValue(s.proxyList)
    case TargetRegions => ListValue(s.targetRegions)
    case ValidateData => BoolValue(s.validateData)
    case MinPrice => IntValue(s.minPrice)
    case MaxPrice => IntValue(s.maxPrice)
    case MinArea => IntValue(s.minArea)
    case MaxArea => IntValue(s.maxArea)
    case EnableDuplicateCheck => BoolValue(s.enableDuplicateCheck)
    case DuplicateCsvFile => TextValue(s.duplicateCsvFile)
    case EnableVerificationLog => BoolValue(s.enableVerificationLog)
    case VerificationLogFile => TextValue(s.verificationLogFile)
  }

  /** `get_dict`: every loaded attribute under its own key. */
  function GetDict(s: Settings): (m: map<SettingKey, SettingValue>)
    ensures forall k: SettingKey :: k in m
  {
    map k: SettingKey :: ValueOf(s, k)
  }

  function BoolAt(m: map<SettingKey, SettingValue>, key: SettingKey): Option<bool> {
    if key in m && m[key].BoolValue? then Some(m[key].b) else None
  }

  function IntAt(m: map<SettingKey, SettingValue>, key: SettingKey): Option<int> {
    if key in m && m[key].IntValue? then Some(m[key].i) else None
  }

  function TextAt(m: map<SettingKey, SettingValue>, key: SettingKey): Option<string> {
    if key in m && m[key].TextValue? then Some(m[key].s) else None
  }

  function ListAt(m: map<SettingKey, SettingValue>, key: SettingKey): Option<seq<string>> {
    if key in m && m[key].ListValue? then Some(m[key].items) else None
  }

  /** Reads a settings dictionary back: `None` when an attribute is missing or has the wrong kind. */
  function FromDict(m: map<SettingKey, SettingValue>): Option<Settings> {
    var a1 := BoolAt(m, BrowserHeadless);
    var a2 := IntAt(m, BrowserTimeout);
    var a3 := TextAt(m, BaseUrl);
    var a4 := IntAt(m, MaxHousesPerPage);
    var a5 := IntAt(m, MaxTotalHouses);
    var a6 := IntAt(m, MaxPages);
    var a7 := IntAt(m, CrawlDelay);
    var a8 := IntAt(m, PageLoadDelay);
    var a9 := TextAt(m, CsvFilename);
    var a10 := TextAt(m, CsvEncoding);
    var a11 := BoolAt(m, AppendMode);
    var a12 := TextAt(m, LogLevel);
    var a13 := BoolAt(m, ShowProgress);
    var a14 := TextAt(m, LogFilename);
    var a15 := BoolAt(m, EnableAutoVerification);
    var a16 := IntAt(m, MaxRetryTimes);
    var a17 := IntAt(m, RetryDelay);
    var a18 := BoolAt(m, EnableStealthMode);
    var a19 := ListAt(m, ProxyList);
    var a20 := ListAt(m, TargetRegions);
    var a21 := BoolAt(m, ValidateData);
    var a22 := IntAt(m, MinPrice);
    var a23 := IntAt(m, MaxPrice);
    var a24 := IntAt(m, MinArea);
    var a25 := IntAt(m, MaxArea);
    var a26 := BoolAt(m, EnableDuplicateCheck);
    var a27 := TextAt(m, DuplicateCsvFile);
    var a28 := BoolAt(m, EnableVerificationLog);
    var a29 := TextAt(m, VerificationLogFile);
    if a1.Some? && a2.Some? && a3.Some? && a4.Some? && a5.Some? && a6.Some? && a7.Some? && a8.Some?
      && a9.Some? && a10.Some? && a11.Some? && a12.Some? && a13.Some? && a14.Some? && a15.Some?
      && a16.Some? && a17.Some? && a18.Some? && a19.Some? && a20.Some? && a21.Some? && a22.Some?
      && a23.Some? && a24.Some? && a25.Some? && a26.Some? && a27.Some? && a28.Some? && a29.Some?
    then
      Some(Settings(
        a1.value, a2.value, a3.value, a4.value, a5.value, a6.value, a7.value, a8.value, a9.value,
        a10.value, a11.value, a12.value, a13.value, a14.value, a15.value, a16.value, a17.value,
        a18.value, a19.value, a20.value, a21.value, a22.value, a23.value, a24.value, a25.value,
        a26.value, a27.value, a28.value, a29.value))
    else None
  }

  // Steps of `GetDictRoundTrip`: the read-back of `get_dict`, a few attributes at a time.

  lemma GetDictFlags1(s: Settings)
    ensures BoolAt(GetDict(s), BrowserHeadless) == Some(s.browserHeadless)
    ensures BoolAt(GetDict(s), AppendMode) == Some(s.appendMode)
    ensures BoolAt(GetDict(s), ShowProgress) == Some(s.showProgress)
    ensures BoolAt(GetDict(s), EnableAutoVerification) == Some(s.enableAutoVerification)
  {
  }

  lemma GetDictFlags2(s: Settings)
    ensures BoolAt(GetDict(s), EnableStealthMode) == Some(s.enableStealthMode)
    ensures BoolAt(GetDict(s), ValidateData) == Some(s.validateData)
    ensures BoolAt(GetDict(s), EnableDuplicateCheck) == Some(s.enableDuplicateCheck)
    ensures BoolAt(GetDict(s), EnableVerificationLog) == Some(s.enableVerificationLog)
  {
  }

  lemma GetDictNumbers1(s: Settings)
    ensures IntAt(GetDict(s), BrowserTimeout) == Some(s.browserTimeout)
    ensures IntAt(GetDict(s), MaxHousesPerPage) == Some(s.maxHousesPerPage)
    ensures IntAt(GetDict(s), MaxTotalHouses) == Some(s.maxTotalHouses)
    ensures IntAt(GetDict(s), MaxPages) == Some(s.maxPages)
  {
  }

  lemma GetDictNumbers2(s: Settings)
    ensures IntAt(GetDict(s), CrawlDelay) == Some(s.crawlDelay)
    ensures IntAt(GetDict(s), PageLoadDelay) == Some(s.pageLoadDelay)
    ensures IntAt(GetDict(s), MaxRetryTimes) == Some(s.maxRetryTimes)
    ensures IntAt(GetDict(s), RetryDelay) == Some(s.retryDelay)
  {
  }

  lemma GetDictNumbers3(s: Settings)
    ensures IntAt(GetDict(s), MinPrice) == Some(s.minPrice)
    ensures IntAt(GetDict(s), MaxPrice) == Some(s.maxPrice)
    ensures IntAt(GetDict(s), MinArea) == Some(s.minArea)
    ensures IntAt(GetDict(s), MaxArea) == Some(s.maxArea)
  {
  }

  lemma GetDictTexts1(s: Settings)
    ensures TextAt(GetDict(s), BaseUrl) == Some(s.baseUrl)
    ensures TextAt(GetDict(s), CsvFilename) == Some(s.csvFilename)
    ensures TextAt(GetDict(s), CsvEncoding) == Some(s.csvEncoding)
    ensures TextAt(GetDict(s), LogLevel) == Some(s.logLevel)
  {
  }

  lemma GetDictTexts2(s: Settings)
    ensures TextAt(GetDict(s), LogFilename) == Some(s.logFilename)
    ensures TextAt(GetDict(s), DuplicateCsvFile) == Some(s.duplicateCsvFile)
    ensures TextAt(GetDict(s), VerificationLogFile) == Some(s.verificationLogFile)
  {
  }

  lemma GetDictLists(s: Settings)
    ensures ListAt(GetDict(s), ProxyList) == Some(s.proxyList)
    ensures ListAt(GetDict(s), TargetRegions) == Some(s.targetRegions)
  {
  }

  /**
   * `get_dict` returns exactly the loaded attributes: every attribute has its key, and reading the
   * dictionary back gives the settings it was built from.
   */
  lemma GetDictRoundTrip(s: Settings)
    ensures forall k: SettingKey :: k in GetDict(s)
    ensures FromDict(GetDict(s)) == Some(s)
  {
    GetDictFlags1(s);
    GetDictFlags2(s);
    GetDictNumbers1(s);
    GetDictNumbers2(s);
    GetDictNumbers3(s);
    GetDictTexts1(s);
    GetDictTexts2(s);
    GetDictLists(s);
  }
}
