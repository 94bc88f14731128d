/**
 * data_extractor.py: the checks the crawler applies to one extracted listing.
 *
 * The browser-side JavaScript that reads the page is not modelled; what it hands back is a
 * record mapping the CSV column names to strings. `validate_data` reads two of them, the rent
 * (`价格`) and the floor area (`房屋面积`), as the first number found in each, and checks them
 * against the configured inclusive ranges; `extract_data` drops a record that fails.
 */
module DataExtraction {

  import opened Common
  import opened Text
  import opened Utils

  /** A listing as the extraction script returns it: column name to text. */
  type Record = map<string, string>

  /** The CSV columns, in the order of the output file. */
  const CsvFields: seq<string> := [
    "房源编号", "标题", "租赁方式", "是否官方核验", "是否安选", "价格", "押金", "房屋面积",
    "户型", "小区", "详情链接", "楼层", "朝向", "装修", "联系方式", "个人姓名", "公司名称",
    "经纪人信息", "房源概况", "房屋设施", "卧室设施", "公共设施", "更新时间", "爬取时间"
  ]

  const PriceField := "价格"
  const AreaField := "房屋面积"

  /** `min_price`, `max_price`, `min_area` and `max_area` from the configuration. */
  datatype Bounds = Bounds(minPrice: int, maxPrice: int, minArea: int, maxArea: int)

  /** `record.get(field, '')`. */
  function FieldOf(record: Record, field: string): string {
    if field in record then record[field] else ""
  }

  // ---------------------------------------------------------------------------
  // The first number in a string

  /** The index of the first ASCII digit of `s`, or `|s|` when there is none. */
  function FirstDigit(s: string): (k: nat)
    ensures k <= |s|
    ensures forall i :: 0 <= i < k ==> !IsDigit(s[i])
    ensures k < |s| ==> IsDigit(s[k])
  {
    if s == [] || IsDigit(s[0]) then 0 else 1 + FirstDigit(s[1..])
  }

  /** How many digits `s` starts with. */
  function DigitRun(s: string): (n: nat)
    ensures n <= |s|
    ensures forall i :: 0 <= i < n ==> IsDigit(s[i])
    ensures n < |s| ==> !IsDigit(s[n])
  {
    if s != [] && IsDigit(s[0]) then 1 + DigitRun(s[1..]) else 0
  }

  /** The match of `re.search(r'(\d+)', s)`: the leftmost maximal run of digits, if any. */
  function FirstNumber(s: string): (r: Option<string>)
    ensures r.None? <==> forall i :: 0 <= i < |s| ==> !IsDigit(s[i])
    ensures r.Some? ==> r.value != [] && AllDigits(r.value)
  {
    var k := FirstDigit(s);
    if k == |s| then None
    else
      var t := s[k..];
      Some(t[..DigitRun(t)])
  }

  /** A decimal number `whole[.fraction]` as a pair of digit strings (`fraction` may be empty). */
  datatype Decimal = Decimal(whole: string, fraction: string)

  /**
   * The match of `re.search(r'(\d+(?:\.\d+)?)', s)`: the leftmost maximal run of digits,
   * followed by a point and a further run of digits when a digit follows the point.
   */
  function FirstDecimal(s: string): (r: Option<Decimal>)
    ensures r.None? <==> forall i :: 0 <= i < |s| ==> !IsDigit(s[i])
    ensures r.Some? ==> r.value.whole != [] && AllDigits(r.value.whole) && AllDigits(r.value.fraction)
  {
    var k := FirstDigit(s);
    if k == |s| then None
    else
      var t := s[k..];
      var n := DigitRun(t);
      var rest := t[n..];
      if |rest| >= 2 && rest[0] == '.' && IsDigit(rest[1]) then
        var f := rest[1..];
        Some(Decimal(t[..n], f[..DigitRun(f)]))
      else Some(Decimal(t[..n], []))
  }

  function Pow10(n: nat): (p: nat)
    ensures p >= 1
  {
    if n == 0 then 1 else 10 * Pow10(n - 1)
  }

  /** `float(match)`, exactly: the whole part plus the fraction digits over a power of ten. */
  function DecimalValue(d: Decimal): real
    requires AllDigits(d.whole) && AllDigits(d.fraction)
  {
    DigitsValue(d.whole) as real + DigitsValue(d.fraction) as real / Pow10(|d.fraction|) as real
  }

  /** The price that `validate_data` reads: commas removed, then the first run of digits. */
  function PriceOf(priceStr: string): Option<nat> {
    match FirstNumber(Without(priceStr, ','))
    case None => None
    case Some(ds) => Some(DigitsValue(ds))
  }

  /** The area that `validate_data` reads: the first `digits[.digits]` number. */
  function AreaOf(areaStr: string): Option<real> {
    match FirstDecimal(areaStr)
    case None => None
    case Some(d) => Some(DecimalValue(d))
  }

  // ---------------------------------------------------------------------------
  // validate_data

  /** An empty price passes; any other price must hold a number within the inclusive range. */
  predicate PriceAccepted(priceStr: string, b: Bounds)
    ensures priceStr == [] ==> PriceAccepted(priceStr, b)
    ensures b.maxPrice < b.minPrice && PriceAccepted(priceStr, b) ==> priceStr == []
  {
    priceStr == [] || (PriceOf(priceStr).Some? && b.minPrice <= PriceOf(priceStr).value <= b.maxPrice)
  }

  /** An empty area passes; any other area must hold a number within the inclusive range. */
  predicate AreaAccepted(areaStr: string, b: Bounds)
    ensures areaStr == [] ==> AreaAccepted(areaStr, b)
    ensures b.maxArea < b.minArea && AreaAccepted(areaStr, b) ==> areaStr == []
  {
    areaStr == [] ||
    (AreaOf(areaStr).Some? && b.minArea as real <= AreaOf(areaStr).value <= b.maxArea as real)
  }

  /**
   * `validate_data`: the price is checked first and an out-of-range or unreadable price returns
   * at once; then the area. The chain of early returns accepts exactly the records whose price
   * and area are both acceptable. No step can raise here, so the handler's `False` never arises.
   */
  function ValidateData(record: Record, b: Bounds): (ok: bool)
    ensures ok <==> PriceAccepted(FieldOf(record, PriceField), b) && AreaAccepted(FieldOf(record, AreaField), b)
  {
    var priceStr := FieldOf(record, PriceField);
    if priceStr != [] && PriceOf(priceStr).None? then false
    else if priceStr != [] && (PriceOf(priceStr).value < b.minPrice || PriceOf(priceStr).value > b.maxPrice) then false
    else
      var areaStr := FieldOf(record, AreaField);
      if areaStr != [] && AreaOf(areaStr).None? then false
      else if areaStr != [] && (AreaOf(areaStr).value < b.minArea as real || AreaOf(areaStr).value > b.maxArea as real) then false
      else true
  }

  // ---------------------------------------------------------------------------
  // extract_data

  /**
   * `extract_data` after the script has run: a raised script yields `None` (the handler's
   * default); otherwise the record is returned as it is unless validation is on and rejects it.
   */
  function ExtractData(evaluated: Outcome<Record>, validate: bool, b: Bounds): (r: Option<Record>)
    ensures r.Some? <==> evaluated.Returned? && (!validate || ValidateData(evaluated.value, b))
    ensures r.Some? ==> r.value == evaluated.value
  {
    match evaluated
    case Raised(_) => None
    case Returned(record) => if validate && !ValidateData(record, b) then None else Some(record)
  }

  /** The fields with data: `v and v.strip()` holds exactly when the stripped value is not empty. */
  function NonEmptyFields(record: Record): (m: Record)
    ensures forall k :: k in m <==> k in record && Strip(record[k]) != []
    ensures forall k :: k in m ==> m[k] == record[k]
  {
    map k | k in record && Strip(record[k]) != [] :: record[k]
  }

  /** The names of the fields without data (`not v or not v.strip()`). */
  function EmptyFields(record: Record): (s: set<string>)
    ensures forall k :: k in s <==> k in record && Strip(record[k]) == []
  {
    set k | k in record && Strip(record[k]) == []
  }

  // ---------------------------------------------------------------------------
  // Properties

  /** A record with no price and no area (absent or empty) passes validation. */
  lemma NoPriceNoAreaPasses(record: Record, b: Bounds)
    requires FieldOf(record, PriceField) == [] && FieldOf(record, AreaField) == []
    ensures ValidateData(record, b)
  {
  }

  /** The first digit of a text that starts with a digit after a digit-free prefix. */
  lemma FirstDigitAfter(pre: string, t: string)
    requires forall i :: 0 <= i < |pre| ==> !IsDigit(pre[i])
    requires t != [] && IsDigit(t[0])
    ensures FirstDigit(pre + t) == |pre|
    ensures (pre + t)[|pre|..] == t
  {
    var s := pre + t;
    assert IsDigit(s[|pre|]);
  }

  /** A run of digits followed by a non-digit is exactly as long as the run. */
  lemma DigitRunOf(ds: string, post: string)
    requires AllDigits(ds)
    requires post == [] || !IsDigit(post[0])
    ensures DigitRun(ds + post) == |ds|
    ensures (ds + post)[..|ds|] == ds && (ds + post)[|ds|..] == post
  {
  }

  /**
   * The number found is the first one: after a digit-free prefix, a maximal run of digits is
   * what `FirstNumber` returns.
   */
  lemma FirstNumberOf(pre: string, ds: string, post: string)
    requires forall i :: 0 <= i < |pre| ==> !IsDigit(pre[i])
    requires ds != [] && AllDigits(ds)
    requires post == [] || !IsDigit(post[0])
    ensures FirstNumber(pre + ds + post) == Some(ds)
  {
    assert pre + ds + post == pre + (ds + post);
    FirstDigitAfter(pre, ds + post);
    DigitRunOf(ds, post);
  }

  /**
   * The price of a text whose first number is `ds` (no commas around it) is `int(ds)`: the
   * characterisation of the price pattern on the comma-free text.
   */
  lemma PriceOfText(pre: string, ds: string, post: string)
    requires forall i :: 0 <= i < |pre| ==> !IsDigit(pre[i])
    requires ds != [] && AllDigits(ds)
    requires post == [] || !IsDigit(post[0])
    requires ',' !in pre && ',' !in post
    ensures PriceOf(pre + ds + post) == Some(DigitsValue(ds))
  {
    WithoutAbsent(pre + ds + post, ',');
    FirstNumberOf(pre, ds, post);
  }

  /** A thousands separator does not split the price: the digits on both sides form one number. */
  lemma PriceIgnoresCommas(a: string, c: string)
    ensures PriceOf(a + "," + c) == PriceOf(a + c)
  {
    var tail := [','] + c;
    assert a + "," + c == a + tail;
    WithoutAppend(a, tail, ',');
    assert tail[0] == ',' && tail[1..] == c;
    assert Without(tail, ',') == Without(c, ',');
    WithoutAppend(a, c, ',');
  }

  /** Appending a digit shifts the value by one decimal place. */
  lemma DigitsValueAppend(ds: string, d: char)
    requires AllDigits(ds) && IsDigit(d)
    ensures AllDigits(ds + [d]) && DigitsValue(ds + [d]) == DigitsValue(ds) * 10 + DigitValue(d)
  {
    assert (ds + [d])[..|ds|] == ds;
  }

  /** "1200" spells 1200. */
  lemma ValueOf1200()
    ensures AllDigits("1200") && DigitsValue("1200") == 1200
  {
    DigitsValueAppend([], '1');
    assert [] + ['1'] == "1";
    DigitsValueAppend("1", '2');
    assert "1" + ['2'] == "12";
    DigitsValueAppend("12", '0');
    assert "12" + ['0'] == "120";
    DigitsValueAppend("120", '0');
    assert "120" + ['0'] == "1200";
  }

  /** The listing format of the site: "1,200元/月" is read as 1200. */
  lemma PriceOfMonthlyRent()
    ensures PriceOf("1,200元/月") == Some(1200)
  {
    assert "1,200元/月" == "1" + "," + "200元/月";
    PriceIgnoresCommas("1", "200元/月");
    assert "1" + "200元/月" == [] + "1200" + "元/月";
    ValueOf1200();
    PriceOfText([], "1200", "元/月");
  }

  /** A price with text but no digit anywhere cannot be read, and the record is rejected. */
  lemma PriceWithoutDigitsRejected(record: Record, b: Bounds)
    requires FieldOf(record, PriceField) != []
    requires forall i :: 0 <= i < |FieldOf(record, PriceField)| ==> !IsDigit(FieldOf(record, PriceField)[i])
    ensures PriceOf(FieldOf(record, PriceField)).None?
    ensures !ValidateData(record, b)
  {
    var p := FieldOf(record, PriceField);
    var w := Without(p, ',');
    forall i | 0 <= i < |w|
      ensures !IsDigit(w[i])
    {
      assert w[i] in p;
    }
  }

  /** An area with text but no digit anywhere cannot be read, and the record is rejected. */
  lemma AreaWithoutDigitsRejected(record: Record, b: Bounds)
    requires FieldOf(record, AreaField) != []
    requires forall i :: 0 <= i < |FieldOf(record, AreaField)| ==> !IsDigit(FieldOf(record, AreaField)[i])
    ensures AreaOf(FieldOf(record, AreaField)).None?
    ensures !ValidateData(record, b)
  {
  }

  /** The price is checked first: a bad price rejects the record whatever its area says. */
  lemma BadPriceRejectsAnyArea(record: Record, b: Bounds, area: string)
    requires !PriceAccepted(FieldOf(record, PriceField), b)
    ensures !ValidateData(record[AreaField := area], b)
  {
    assert FieldOf(record[AreaField := area], PriceField) == FieldOf(record, PriceField);
  }

  /** With an acceptable price, the area alone decides. */
  lemma GoodPriceAreaDecides(record: Record, b: Bounds)
    requires PriceAccepted(FieldOf(record, PriceField), b)
    ensures ValidateData(record, b) <==> AreaAccepted(FieldOf(record, AreaField), b)
  {
  }

  /** A digit-free prefix is skipped: the first number starts where the digits do. */
  lemma FirstDecimalSkipsPrefix(pre: string, t: string)
    requires forall i :: 0 <= i < |pre| ==> !IsDigit(pre[i])
    requires t != [] && IsDigit(t[0])
    ensures FirstDecimal(pre + t) == FirstDecimal(t)
  {
    FirstDigitAfter(pre, t);
    assert FirstDigit(t) == 0 && t[0..] == t;
  }

  /** The first `digits.digits` number after a digit-free prefix is the area's decimal. */
  lemma FirstDecimalWithFraction(pre: string, ws: string, fs: string, post: string)
    requires forall i :: 0 <= i < |pre| ==> !IsDigit(pre[i])
    requires ws != [] && AllDigits(ws) && fs != [] && AllDigits(fs)
    requires post == [] || !IsDigit(post[0])
    ensures FirstDecimal(pre + ws + "." + fs + post) == Some(Decimal(ws, fs))
  {
    var rest := ['.'] + (fs + post);
    var t := ws + rest;
    assert pre + ws + "." + fs + post == pre + t;
    FirstDecimalSkipsPrefix(pre, t);
    DigitRunOf(ws, rest);
    DigitRunOf(fs, post);
    assert rest[1..] == fs + post;
  }

  /** Digits followed by anything but a point and a digit: the area is a whole number. */
  lemma FirstDecimalWhole(pre: string, ws: string, post: string)
    requires forall i :: 0 <= i < |pre| ==> !IsDigit(pre[i])
    requires ws != [] && AllDigits(ws)
    requires post == [] || !IsDigit(post[0])
    requires !(|post| >= 2 && post[0] == '.' && IsDigit(post[1]))
    ensures FirstDecimal(pre + ws + post) == Some(Decimal(ws, []))
  {
    assert pre + ws + post == pre + (ws + post);
    FirstDecimalSkipsPrefix(pre, ws + post);
    DigitRunOf(ws, post);
  }

  /** Such an area reads as the whole number its digits spell. */
  lemma AreaOfWhole(pre: string, ws: string, post: string)
    requires forall i :: 0 <= i < |pre| ==> !IsDigit(pre[i])
    requires ws != [] && AllDigits(ws)
    requires post == [] || !IsDigit(post[0])
    requires !(|post| >= 2 && post[0] == '.' && IsDigit(post[1]))
    ensures AreaOf(pre + ws + post) == Some(DigitsValue(ws) as real)
  {
    FirstDecimalWhole(pre, ws, post);
    var d := Decimal(ws, []);
    assert DigitsValue(d.fraction) == 0 && Pow10(|d.fraction|) == 1;
    assert DecimalValue(d) == DigitsValue(ws) as real;
  }

  /** A digit string is below the power of ten of its length. */
  lemma {:induction false} DigitsValueBelow(ds: string)
    requires AllDigits(ds)
    ensures DigitsValue(ds) < Pow10(|ds|)
  {
    if ds != [] {
      DigitsValueBelow(ds[..|ds| - 1]);
    }
  }

  lemma FractionBelowOne(x: real, y: real)
    requires 0.0 <= x < y
    ensures 0.0 <= x / y < 1.0
  {
  }

  /** A decimal lies between its whole part and the next whole number: the fraction is below one. */
  lemma DecimalBetween(d: Decimal)
    requires AllDigits(d.whole) && AllDigits(d.fraction)
    ensures DigitsValue(d.whole) as real <= DecimalValue(d) < DigitsValue(d.whole) as real + 1.0
  {
    DigitsValueBelow(d.fraction);
    FractionBelowOne(DigitsValue(d.fraction) as real, Pow10(|d.fraction|) as real);
  }

  /** "89" point "5" is 89.5. */
  lemma ValueOf89Point5()
    ensures AllDigits("89") && AllDigits("5") && DecimalValue(Decimal("89", "5")) == 89.5
  {
    DigitsValueAppend([], '8');
    assert [] + ['8'] == "8";
    DigitsValueAppend("8", '9');
    assert "8" + ['9'] == "89";
    DigitsValueAppend([], '5');
    assert [] + ['5'] == "5";
    assert Pow10(|"5"|) == 10;
  }

  /** The area "89.5㎡" is read as 89.5, so it passes a range of 1 to 1000. */
  lemma AreaOfFloorSpace()
    ensures AreaOf("89.5㎡") == Some(89.5)
    ensures AreaAccepted("89.5㎡", Bounds(100, 50000, 1, 1000))
  {
    assert "89.5㎡" == [] + "89" + "." + "5" + "㎡";
    FirstDecimalWithFraction([], "89", "5", "㎡");
    ValueOf89Point5();
  }

  /** The non-empty and the empty fields partition the record's keys. */
  lemma FieldsPartition(record: Record)
    ensures NonEmptyFields(record).Keys !! EmptyFields(record)
    ensures NonEmptyFields(record).Keys + EmptyFields(record) == record.Keys
    ensures |NonEmptyFields(record)| + |EmptyFields(record)| == |record|
  {
    var full := NonEmptyFields(record).Keys;
    var empty := EmptyFields(record);
    assert full * empty == {};
    assert full + empty == record.Keys;
    assert |full + empty| + |full * empty| == |full| + |empty|;
  }
}
