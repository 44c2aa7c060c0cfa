/**
 * The record types of the tax pipeline and the field checks its validating constructors
 * perform. A constraint on a field (a rate between 0 and 1, a non-negative bracket minimum,
 * a calendar date) is a subset type, and the constructor that may reject a record is a
 * function returning an Option.
 */
module Schemas {
  import opened Wrappers
  import opened Json
  import opened Strings

  // ---------------------------------------------------------------- tax types

  /** The closed set of tax categories; each member's value is its own name. */
  datatype TaxType =
    VAT | INCOME | CORPORATE | SALES | WITHHOLDING | CUSTOMS | EXCISE | PROPERTY | PAYROLL | OTHER

  function Value(t: TaxType): string {
    match t
    case VAT => "VAT"
    case INCOME => "INCOME"
    case CORPORATE => "CORPORATE"
    case SALES => "SALES"
    case WITHHOLDING => "WITHHOLDING"
    case CUSTOMS => "CUSTOMS"
    case EXCISE => "EXCISE"
    case PROPERTY => "PROPERTY"
    case PAYROLL => "PAYROLL"
    case OTHER => "OTHER"
  }

  const AllTaxTypes: seq<TaxType> :=
    [VAT, INCOME, CORPORATE, SALES, WITHHOLDING, CUSTOMS, EXCISE, PROPERTY, PAYROLL, OTHER]

  /** `TaxType(s)`: the member whose value is exactly s, or None (ValueError). */
  function FromValue(s: string): (r: Option<TaxType>)
    ensures forall t :: r == Some(t) <==> Value(t) == s
  {
    if s == "VAT" then Some(VAT)
    else if s == "INCOME" then Some(INCOME)
    else if s == "CORPORATE" then Some(CORPORATE)
    else if s == "SALES" then Some(SALES)
    else if s == "WITHHOLDING" then Some(WITHHOLDING)
    else if s == "CUSTOMS" then Some(CUSTOMS)
    else if s == "EXCISE" then Some(EXCISE)
    else if s == "PROPERTY" then Some(PROPERTY)
    else if s == "PAYROLL" then Some(PAYROLL)
    else if s == "OTHER" then Some(OTHER)
    else None
  }

  /** Exactly ten members, all listed once, with pairwise different values made only of
      capitals and underscores. */
  lemma TaxTypeIsClosed()
    ensures |AllTaxTypes| == 10
    ensures forall t: TaxType :: t in AllTaxTypes
    ensures forall i, j :: 0 <= i < j < |AllTaxTypes| ==> Value(AllTaxTypes[i]) != Value(AllTaxTypes[j])
    ensures forall t: TaxType :: |Value(t)| > 0 && IsUpperWord(Value(t))
  {
    forall t: TaxType ensures t in AllTaxTypes {
      match t
      case VAT =>
      case INCOME =>
      case CORPORATE =>
      case SALES =>
      case WITHHOLDING =>
      case CUSTOMS =>
      case EXCISE =>
      case PROPERTY =>
      case PAYROLL =>
      case OTHER =>
    }
    forall i, j | 0 <= i < j < |AllTaxTypes| ensures Value(AllTaxTypes[i]) != Value(AllTaxTypes[j]) {
      var r := FromValue(Value(AllTaxTypes[i]));
    }
    forall t: TaxType ensures |Value(t)| > 0 && IsUpperWord(Value(t)) {
      ValueIsUpperWord(t);
    }
  }

  lemma ValueIsUpperWord(t: TaxType)
    ensures |Value(t)| > 0 && IsUpperWord(Value(t))
  {
    match t
    case VAT =>
    case INCOME =>
    case CORPORATE =>
    case SALES =>
    case WITHHOLDING =>
    case CUSTOMS =>
    case EXCISE =>
    case PROPERTY =>
    case PAYROLL =>
    case OTHER =>
  }

  // ---------------------------------------------------------------- dates

  /** A calendar date of the proleptic Gregorian calendar, as Python's `date` holds it. */
  datatype Date = Date(year: int, month: int, day: int)

  predicate IsLeapYear(y: int) {
    y % 4 == 0 && (y % 100 != 0 || y % 400 == 0)
  }

  function DaysInMonth(y: int, m: int): int
    requires 1 <= m <= 12
  {
    if m == 2 then (if IsLeapYear(y) then 29 else 28)
    else if m == 4 || m == 6 || m == 9 || m == 11 then 30
    else 31
  }

  predicate ValidDate(d: Date) {
    1 <= d.year <= 9999 && 1 <= d.month <= 12 && 1 <= d.day <= DaysInMonth(d.year, d.month)
  }

  type CalendarDate = d: Date | ValidDate(d) witness Date(1, 1, 1)

  function Pow10(w: nat): nat {
    if w == 0 then 1 else 10 * Pow10(w - 1)
  }

  /** n written with exactly w decimal digits, zero-padded on the left. */
  function FixedDigits(n: nat, w: nat): (s: string)
    ensures |s| == w && forall i :: 0 <= i < w ==> '0' <= s[i] <= '9'
  {
    if w == 0 then "" else FixedDigits(n / 10, w - 1) + [Digit(n % 10)]
  }

  predicate AllDigits(s: string) {
    forall i :: 0 <= i < |s| ==> '0' <= s[i] <= '9'
  }

  lemma {:induction false} FixedDigitsValue(n: nat, w: nat)
    requires n < Pow10(w)
    ensures DecimalValue(FixedDigits(n, w)) == n
  {
    if w > 0 {
      FixedDigitsValue(n / 10, w - 1);
      var s := FixedDigits(n, w);
      assert s[..|s| - 1] == FixedDigits(n / 10, w - 1);
    }
  }

  lemma {:induction false} DecimalValueBound(s: string)
    requires AllDigits(s)
    ensures DecimalValue(s) < Pow10(|s|)
  {
    if |s| > 0 {
      var p := s[..|s| - 1];
      assert AllDigits(p) by { forall i | 0 <= i < |p| ensures '0' <= p[i] <= '9' { assert p[i] == s[i]; } }
      DecimalValueBound(p);
    }
  }

  lemma {:induction false} FixedDigitsOfValue(s: string)
    requires AllDigits(s)
    ensures FixedDigits(DecimalValue(s), |s|) == s
  {
    if |s| > 0 {
      var p := s[..|s| - 1];
      assert AllDigits(p) by { forall i | 0 <= i < |p| ensures '0' <= p[i] <= '9' { assert p[i] == s[i]; } }
      FixedDigitsOfValue(p);
      var n := DecimalValue(s);
      var d := s[|s| - 1] as int - '0' as int;
      assert n / 10 == DecimalValue(p) && n % 10 == d;
      assert Digit(d) == s[|s| - 1];
      assert s == p + [s[|s| - 1]];
    }
  }

  /** `d.isoformat()`: YYYY-MM-DD. */
  function FormatIso(d: CalendarDate): (s: string)
    ensures |s| == 10 && s[4] == '-' && s[7] == '-'
  {
    FixedDigits(d.year, 4) + "-" + FixedDigits(d.month, 2) + "-" + FixedDigits(d.day, 2)
  }

  /** `date.fromisoformat(s)` for the extended calendar form YYYY-MM-DD; None is ValueError. */
  function ParseIsoDate(s: string): (r: Option<CalendarDate>)
    ensures r.Some? ==> |s| == 10
  {
    if |s| == 10 && s[4] == '-' && s[7] == '-' && AllDigits(s[..4]) && AllDigits(s[5..7])
       && AllDigits(s[8..])
    then
      var d := Date(DecimalValue(s[..4]), DecimalValue(s[5..7]), DecimalValue(s[8..]));
      if ValidDate(d) then Some(d) else None
    else None
  }

  lemma FormatIsoParts(d: CalendarDate)
    ensures var s := FormatIso(d);
      s[..4] == FixedDigits(d.year, 4) && s[5..7] == FixedDigits(d.month, 2) &&
      s[8..] == FixedDigits(d.day, 2)
  {
  }

  /** Every calendar date survives formatting and parsing. */
  lemma ParseFormatIso(d: CalendarDate)
    ensures ParseIsoDate(FormatIso(d)) == Some(d)
  {
    FormatIsoParts(d);
    assert Pow10(4) == 10000 && Pow10(2) == 100;
    FixedDigitsValue(d.year, 4);
    FixedDigitsValue(d.month, 2);
    FixedDigitsValue(d.day, 2);
  }

  /** A string that parses is exactly the formatted form of its date: no other spelling
      of a date is accepted. */
  lemma FormatParseIso(s: string)
    requires ParseIsoDate(s).Some?
    ensures FormatIso(ParseIsoDate(s).value) == s
  {
    var d := ParseIsoDate(s).value;
    FixedDigitsOfValue(s[..4]);
    FixedDigitsOfValue(s[5..7]);
    FixedDigitsOfValue(s[8..]);
    assert s == s[..4] + "-" + s[5..7] + "-" + s[8..];
  }

  // ---------------------------------------------------------------- entity records

  datatype TaxRateFields = TaxRateFields(
    name: string, rate: real, description: Option<string>,
    conditions: seq<string>, exemptions: seq<string>)

  /** A rate, as a decimal fraction between 0 and 1 inclusive. */
  type TaxRate = r: TaxRateFields | 0.0 <= r.rate <= 1.0
    witness TaxRateFields("", 0.0, None, [], [])

  /** The validating constructor: out-of-range rates are rejected. */
  function NewTaxRate(f: TaxRateFields): (r: Option<TaxRate>)
    ensures r.Some? <==> 0.0 <= f.rate <= 1.0
    ensures r.Some? ==> r.value == f
  {
    if 0.0 <= f.rate <= 1.0 then Some(f) else None
  }

  /** A bracket of a progressive tax; an absent maximum means unbounded. */
  datatype TaxBracketFields = TaxBracketFields(
    minAmount: real, maxAmount: Option<real>, rate: real, fixedAmount: Option<real>)

  type TaxBracket = b: TaxBracketFields | 0.0 <= b.minAmount && 0.0 <= b.rate <= 1.0
    witness TaxBracketFields(0.0, None, 0.0, None)

  function NewTaxBracket(f: TaxBracketFields): (r: Option<TaxBracket>)
    ensures r.Some? <==> 0.0 <= f.minAmount && 0.0 <= f.rate <= 1.0
    ensures r.Some? ==> r.value == f
  {
    if 0.0 <= f.minAmount && 0.0 <= f.rate <= 1.0 then Some(f) else None
  }

  datatype TaxThreshold = TaxThreshold(
    name: string, amount: real, currency: string, description: Option<string>,
    effectiveDate: Option<CalendarDate>)

  /** The currency a threshold carries when none is given. */
  const DefaultCurrency := "USD"

  datatype TaxDeadline = TaxDeadline(
    name: string, deadlineType: string, frequency: string, dayOfPeriod: Option<int>,
    description: Option<string>)

  datatype TaxRule = TaxRule(
    id: string, name: string, description: string, taxType: TaxType, conditions: seq<string>,
    rate: Option<real>, brackets: Option<seq<TaxBracket>>, effectiveDate: Option<CalendarDate>,
    expiryDate: Option<CalendarDate>, sourceReference: Option<string>)

  /** Everything extracted from one document (or merged from several chunks). */
  datatype ExtractedEntities = ExtractedEntities(
    taxTypes: seq<TaxType>, rates: seq<TaxRate>, brackets: seq<TaxBracket>,
    thresholds: seq<TaxThreshold>, deadlines: seq<TaxDeadline>, rules: seq<TaxRule>,
    rawExtractions: map<string, Json>)

  /** `ExtractedEntities()` with every field defaulted. */
  function NoEntities(): (e: ExtractedEntities)
    ensures e.taxTypes == [] && e.rates == [] && e.brackets == [] && e.thresholds == []
    ensures e.deadlines == [] && e.rules == [] && e.rawExtractions == map[]
  {
    ExtractedEntities([], [], [], [], [], [], map[])
  }

  // ---------------------------------------------------------------- output records

  datatype JsonConfig = JsonConfig(
    version: string, country: string, countryName: string, taxType: TaxType,
    effectiveDate: Option<CalendarDate>, currency: string, rules: seq<Json>, metadata: Json)

  datatype SqlMigration = SqlMigration(
    migrationName: string, upScript: string, downScript: string, tablesAffected: seq<string>,
    description: string)

  datatype PolicyDefinition = PolicyDefinition(
    policyName: string, version: string, description: string, rules: seq<Json>, metadata: Json)

  datatype GeneratedCode = GeneratedCode(
    language: string, filename: string, code: string, description: string,
    dependencies: seq<string>)

  /** The confidence score of a processing result, between 0 and 1 inclusive. */
  type Confidence = c: real | 0.0 <= c <= 1.0

  function NewConfidence(c: real): (r: Option<Confidence>)
    ensures r.Some? <==> 0.0 <= c <= 1.0
    ensures r.Some? ==> r.value == c
  {
    if 0.0 <= c <= 1.0 then Some(c) else None
  }

  // ---------------------------------------------------------------- field checks

  /** A `str` field: only a string is accepted. */
  function AsStr(v: Json): (r: Option<string>)
    ensures r.Some? <==> v.JStr?
    ensures r.Some? ==> r.value == v.s
  {
    if v.JStr? then Some(v.s) else None
  }

  /** An `Optional[str]` field: null or a string. */
  function AsOptStr(v: Json): (r: Option<Option<string>>)
    ensures r.Some? <==> v.JNull? || v.JStr?
    ensures r == Some(None) <==> v.JNull?
    ensures v.JStr? ==> r == Some(Some(v.s))
  {
    match v
    case JNull => Some(None)
    case JStr(s) => Some(Some(s))
    case _ => None
  }

  /** The strings of a list of Json values, when every one of them is a string. */
  function StrItems(items: seq<Json>): (r: Option<seq<string>>)
    ensures r.Some? <==> forall i :: 0 <= i < |items| ==> items[i].JStr?
    ensures r.Some? ==> |r.value| == |items| && forall i :: 0 <= i < |items| ==> r.value[i] == items[i].s
  {
    if |items| == 0 then Some([])
    else
      match StrItems(items[..|items| - 1])
      case None => None
      case Some(p) =>
        if items[|items| - 1].JStr? then Some(p + [items[|items| - 1].s]) else None
  }

  /** A `List[str]` field: a list whose items are all strings. */
  function AsStrList(v: Json): (r: Option<seq<string>>)
    ensures r.Some? <==> v.JArr? && forall i :: 0 <= i < |v.items| ==> v.items[i].JStr?
  {
    if v.JArr? then StrItems(v.items) else None
  }

  /** An `Optional[float]` field: null, a number, a boolean (as 1 or 0), or a string that
      `numeral` reads as a number. */
  function AsOptFloat(v: Json, numeral: string -> Option<real>): (r: Option<Option<real>>)
    ensures r == Some(None) <==> v.JNull?
    ensures v.JNum? ==> r == Some(Some(v.n))
    ensures (v.JArr? || v.JObj?) ==> r.None?
  {
    match v
    case JNull => Some(None)
    case JNum(n) => Some(Some(n))
    case JBool(b) => Some(Some(if b then 1.0 else 0.0))
    case JStr(s) => (match numeral(s) case Some(x) => Some(Some(x)) case None => None)
    case _ => None
  }

  /** An `Optional[int]` field: null, a whole number or a boolean (as 1 or 0). */
  function AsOptInt(v: Json): (r: Option<Option<int>>)
    ensures r == Some(None) <==> v.JNull?
    ensures v.JNum? ==> (r.Some? <==> v.n == v.n.Floor as real)
    ensures forall k: int :: r == Some(Some(k)) ==> v.JBool? || v == JNum(k as real)
  {
    match v
    case JNull => Some(None)
    case JNum(n) => if n == n.Floor as real then Some(Some(n.Floor)) else None
    case JBool(b) => Some(Some(if b then 1 else 0))
    case _ => None
  }

  /** A `List[Dict[str, Any]]` field: a list of objects. */
  function AsObjectList(v: Json): (r: Option<seq<Json>>)
    ensures r.Some? <==> v.JArr? && forall i :: 0 <= i < |v.items| ==> v.items[i].JObj?
    ensures r.Some? ==> r.value == v.items
  {
    if v.JArr? && forall i :: 0 <= i < |v.items| ==> v.items[i].JObj? then Some(v.items) else None
  }

  /** A `Dict[str, Any]` field: an object. */
  function AsObject(v: Json): (r: Option<Json>)
    ensures r.Some? <==> v.JObj?
    ensures r.Some? ==> r.value == v
  {
    if v.JObj? then Some(v) else None
  }
}
