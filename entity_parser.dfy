/**
 * Turning the model's reply (a Json value) into typed entities, as the entity extractor's
 * response parser does. Each rate, bracket, threshold, deadline and rule is built on its
 * own; a record whose construction raises is skipped and the others are kept. A missing
 * field takes a fixed default. Python's `float(str)` is the parameter `numeral`: a string
 * it maps to None is one that `float` rejects.
 */
module EntityParser {
  import opened Wrappers
  import opened Seqs
  import opened Json
  import opened Strings
  import opened Schemas

  // ---------------------------------------------------------------- tax types

  /** `TaxType(s.upper())`, with OTHER when no member has that value. */
  function ParseTaxType(s: string): (t: TaxType)
    ensures t != OTHER ==> Value(t) == Upper(s)
  {
    match FromValue(Upper(s))
    case Some(t) => t
    case None => OTHER
  }

  /** A string whose upper-case form is a member's value denotes that member. */
  lemma ParseTaxTypeExact(s: string, t: TaxType)
    requires Upper(s) == Value(t)
    ensures ParseTaxType(s) == t
  {
  }

  /** A member's own value, in upper or lower case, denotes that member. */
  lemma ParseTaxTypeOfValue(t: TaxType)
    ensures ParseTaxType(Value(t)) == t
    ensures ParseTaxType(Lower(Value(t))) == t
  {
    TaxTypeIsClosed();
    UpperOfUpperWord(Value(t));
  }

  /** No stripping: a value with whitespace before or after it is not recognised. */
  lemma ParseTaxTypeDoesNotStrip(s: string, c: char)
    requires IsSpace(c)
    ensures ParseTaxType(s + [c]) == OTHER
    ensures ParseTaxType([c] + s) == OTHER
  {
    TaxTypeIsClosed();
    UpperOfSpace(c);
    UpperAppend(s, [c]);
    UpperAppend([c], s);
    forall t ensures Value(t) != Upper(s + [c]) && Value(t) != Upper([c] + s) {
      var v := Value(t);
      assert IsUpperWordChar(v[|v| - 1]) && IsUpperWordChar(v[0]);
    }
  }

  /** The value "vat " (with a trailing space) is not VAT. */
  lemma TrailingSpaceVatIsOther()
    ensures ParseTaxType("vat ") == OTHER
  {
    ParseTaxTypeDoesNotStrip("vat", ' ');
    assert "vat" + [' '] == "vat ";
  }

  /** f applied to every entry, when all entries are strings; None at the first that is not. */
  function MapStrings<T>(items: seq<Json>, f: string -> T): (r: Option<seq<T>>) {
    if |items| == 0 then Some([])
    else
      var last := items[|items| - 1];
      match MapStrings(items[..|items| - 1], f)
      case None => None
      case Some(p) => if last.JStr? then Some(p + [f(last.s)]) else None
  }

  lemma {:induction false} MapStringsDefined<T>(items: seq<Json>, f: string -> T)
    ensures MapStrings(items, f).Some? <==> forall i :: 0 <= i < |items| ==> items[i].JStr?
  {
    if |items| > 0 {
      var prefix := items[..|items| - 1];
      MapStringsDefined(prefix, f);
      assert forall i :: 0 <= i < |prefix| ==> items[i] == prefix[i];
    }
  }

  lemma {:induction false} MapStringsValues<T>(items: seq<Json>, f: string -> T)
    requires MapStrings(items, f).Some?
    ensures var ts := MapStrings(items, f).value;
      |ts| == |items| && forall i :: 0 <= i < |items| ==> items[i].JStr? && ts[i] == f(items[i].s)
  {
    if |items| > 0 {
      var prefix, last := items[..|items| - 1], items[|items| - 1];
      MapStringsValues(prefix, f);
      var ts := MapStrings(prefix, f).value + [f(last.s)];
      assert MapStrings(items, f) == Some(ts);
      forall i | 0 <= i < |items| ensures items[i].JStr? && ts[i] == f(items[i].s) {
        if i < |prefix| { assert items[i] == prefix[i]; }
      }
    }
  }

  /** The tax-type entries: each string yields exactly one tax type; a non-string entry
      raises (its `upper` is an AttributeError, which the parser does not catch). */
  function ParseTaxTypes(items: seq<Json>): (r: Option<seq<TaxType>>) {
    MapStrings(items, ParseTaxType)
  }

  /** The entries parse exactly when all are strings, and then the i-th tax type is the
      one the i-th string denotes. */
  lemma ParseTaxTypesPointwise(items: seq<Json>)
    ensures ParseTaxTypes(items).Some? <==> forall i :: 0 <= i < |items| ==> items[i].JStr?
    ensures ParseTaxTypes(items).Some? ==>
      var ts := ParseTaxTypes(items).value;
      |ts| == |items| && forall i :: 0 <= i < |items| ==> ts[i] == ParseTaxType(items[i].s)
  {
    MapStringsDefined(items, ParseTaxType);
    if ParseTaxTypes(items).Some? { MapStringsValues(items, ParseTaxType); }
  }

  // ---------------------------------------------------------------- scalar conversions

  /** Python's `float(x)`: a number, a boolean, or a string `numeral` accepts; anything
      else raises. */
  function PyFloat(v: Json, numeral: string -> Option<real>): (r: Option<real>)
    ensures v.JNum? ==> r == Some(v.n)
    ensures v.JBool? ==> r == Some(if v.b then 1.0 else 0.0)
    ensures v.JStr? ==> r == numeral(v.s)
    ensures (v.JNull? || v.JArr? || v.JObj?) ==> r.None?
  {
    match v
    case JNum(n) => Some(n)
    case JBool(b) => Some(if b then 1.0 else 0.0)
    case JStr(s) => numeral(s)
    case _ => None
  }

  /** The one exception the date parser lets escape: `lower` on a truthy non-string. */
  datatype Raised = AttributeError

  /**
   * The date parser: a falsy value, any case of "null", and a string that is not an ISO
   * date all give None; an ISO date string gives its date. Only a truthy value that is not a
   * string raises, and then with an AttributeError, never a ValueError.
   */
  function ParseDate(v: Json): (r: Result<Option<CalendarDate>, Raised>)
    ensures r.Failure? <==> Truthy(v) && !v.JStr?
  {
    if !Truthy(v) then Success(None)
    else if !v.JStr? then Failure(AttributeError)
    else if Lower(v.s) == "null" then Success(None)
    else Success(ParseIsoDate(v.s))
  }

  /** On a string the date parser never raises, and it yields a date exactly when the string
      is the ISO form of that date. */
  lemma ParseDateOfString(s: string)
    ensures ParseDate(JStr(s)).Success?
    ensures forall d: CalendarDate :: ParseDate(JStr(s)) == Success(Some(d)) <==> s == FormatIso(d)
  {
    forall d: CalendarDate ensures ParseDate(JStr(s)) == Success(Some(d)) <==> s == FormatIso(d) {
      if s == FormatIso(d) {
        ParseFormatIso(d);
        assert Lower(s)[4] == '-';
      }
      if ParseDate(JStr(s)) == Success(Some(d)) {
        FormatParseIso(s);
      }
    }
  }

  /** Absent, empty and "null" in any letter case all mean no date. */
  lemma ParseDateNoDate(v: Json)
    requires v.JNull? || v == JStr("") || (v.JStr? && Lower(v.s) == "null")
    ensures ParseDate(v) == Success(None)
  {
  }

  // ---------------------------------------------------------------- records

  function ParseRate(item: Json, numeral: string -> Option<real>): (r: Option<TaxRate>)
    ensures !item.JObj? ==> r.None?
    ensures r.Some? ==> Some(r.value.name) == AsStr(Get(item.fields, "name", JStr("unknown")))
    ensures r.Some? ==> Some(r.value.rate) == PyFloat(Get(item.fields, "rate", JNum(0.0)), numeral)
  {
    if !item.JObj? then None
    else
      var f := item.fields;
      var name :- AsStr(Get(f, "name", JStr("unknown")));
      var rate :- PyFloat(Get(f, "rate", JNum(0.0)), numeral);
      var description :- AsOptStr(Get(f, "description", JNull));
      var conditions :- AsStrList(Get(f, "conditions", JArr([])));
      var exemptions :- AsStrList(Get(f, "exemptions", JArr([])));
      NewTaxRate(TaxRateFields(name, rate, description, conditions, exemptions))
  }

  function ParseBracket(item: Json, numeral: string -> Option<real>): (r: Option<TaxBracket>)
    ensures !item.JObj? ==> r.None?
    ensures r.Some? ==>
      Some(r.value.minAmount) == PyFloat(Get(item.fields, "min_amount", JNum(0.0)), numeral)
    ensures r.Some? ==> Some(r.value.rate) == PyFloat(Get(item.fields, "rate", JNum(0.0)), numeral)
  {
    if !item.JObj? then None
    else
      var f := item.fields;
      var minAmount :- PyFloat(Get(f, "min_amount", JNum(0.0)), numeral);
      var maxAmount :- AsOptFloat(Get(f, "max_amount", JNull), numeral);
      var rate :- PyFloat(Get(f, "rate", JNum(0.0)), numeral);
      var fixedAmount :- AsOptFloat(Get(f, "fixed_amount", JNull), numeral);
      NewTaxBracket(TaxBracketFields(minAmount, maxAmount, rate, fixedAmount))
  }

  function ParseThreshold(item: Json, numeral: string -> Option<real>): (r: Option<TaxThreshold>)
    ensures !item.JObj? ==> r.None?
    ensures r.Some? ==> Some(r.value.currency) == AsStr(Get(item.fields, "currency", JStr("USD")))
    ensures r.Some? ==> Success(r.value.effectiveDate) == ParseDate(Get(item.fields, "effective_date", JNull))
  {
    if !item.JObj? then None
    else
      var f := item.fields;
      var name :- AsStr(Get(f, "name", JStr("unknown")));
      var amount :- PyFloat(Get(f, "amount", JNum(0.0)), numeral);
      var currency :- AsStr(Get(f, "currency", JStr(DefaultCurrency)));
      var description :- AsOptStr(Get(f, "description", JNull));
      var effectiveDate :- ParseDate(Get(f, "effective_date", JNull)).ToOption();
      Some(TaxThreshold(name, amount, currency, description, effectiveDate))
  }

  function ParseDeadline(item: Json): (r: Option<TaxDeadline>)
    ensures !item.JObj? ==> r.None?
    ensures r.Some? ==> Some(r.value.deadlineType) == AsStr(Get(item.fields, "deadline_type", JStr("filing")))
    ensures r.Some? ==> Some(r.value.frequency) == AsStr(Get(item.fields, "frequency", JStr("annually")))
  {
    if !item.JObj? then None
    else
      var f := item.fields;
      var name :- AsStr(Get(f, "name", JStr("unknown")));
      var deadlineType :- AsStr(Get(f, "deadline_type", JStr("filing")));
      var frequency :- AsStr(Get(f, "frequency", JStr("annually")));
      var dayOfPeriod :- AsOptInt(Get(f, "day_of_period", JNull));
      var description :- AsOptStr(Get(f, "description", JNull));
      Some(TaxDeadline(name, deadlineType, frequency, dayOfPeriod, description))
  }

  /** The id a rule without one receives, when `accepted` rules were kept before it. */
  function SyntheticRuleId(accepted: nat): string {
    "rule_" + NatToString(accepted)
  }

  /** Rules built at different counts get different synthetic ids. */
  lemma SyntheticRuleIdsDiffer(a: nat, b: nat)
    requires a != b
    ensures SyntheticRuleId(a) != SyntheticRuleId(b)
  {
    if SyntheticRuleId(a) == SyntheticRuleId(b) {
      assert SyntheticRuleId(a)[5..] == NatToString(a);
      assert SyntheticRuleId(b)[5..] == NatToString(b);
      NatToStringInjective(a, b);
    }
  }

  /** One rule, `accepted` being the number of rules kept so far. A non-string tax type
      makes the rule fail; an unknown one becomes OTHER; brackets are never parsed. */
  function ParseRule(item: Json, accepted: nat, numeral: string -> Option<real>): (r: Option<TaxRule>)
    ensures !item.JObj? ==> r.None?
    ensures r.Some? ==> Some(r.value.id) == AsStr(Get(item.fields, "id", JStr(SyntheticRuleId(accepted))))
    ensures r.Some? ==>
      var tt := Get(item.fields, "tax_type", JStr("OTHER"));
      tt.JStr? && r.value.taxType == ParseTaxType(tt.s)
    ensures r.Some? ==> r.value.brackets.None?
  {
    if !item.JObj? then None
    else
      var f := item.fields;
      var taxTypeValue := Get(f, "tax_type", JStr("OTHER"));
      if !taxTypeValue.JStr? then None
      else
        var taxType := ParseTaxType(taxTypeValue.s);
        var id :- AsStr(Get(f, "id", JStr(SyntheticRuleId(accepted))));
        var name :- AsStr(Get(f, "name", JStr("unknown")));
        var description :- AsStr(Get(f, "description", JStr("")));
        var conditions :- AsStrList(Get(f, "conditions", JArr([])));
        var rate :- AsOptFloat(Get(f, "rate", JNull), numeral);
        var effectiveDate :- ParseDate(Get(f, "effective_date", JNull)).ToOption();
        var expiryDate :- ParseDate(Get(f, "expiry_date", JNull)).ToOption();
        var sourceReference :- AsOptStr(Get(f, "source_reference", JNull));
        Some(TaxRule(id, name, description, taxType, conditions, rate, None, effectiveDate,
                     expiryDate, sourceReference))
  }

  /** The per-item parsers, as values for the collecting loop. */
  function RateParser(numeral: string -> Option<real>): Json -> Option<TaxRate> {
    item => ParseRate(item, numeral)
  }

  function BracketParser(numeral: string -> Option<real>): Json -> Option<TaxBracket> {
    item => ParseBracket(item, numeral)
  }

  function ThresholdParser(numeral: string -> Option<real>): Json -> Option<TaxThreshold> {
    item => ParseThreshold(item, numeral)
  }

  function DeadlineParser(): Json -> Option<TaxDeadline> {
    item => ParseDeadline(item)
  }

  /** The rules list: each rule is parsed with the count of rules accepted before it. */
  function ParseRules(items: seq<Json>, numeral: string -> Option<real>): (rs: seq<TaxRule>)
    ensures |rs| <= |items|
  {
    if |items| == 0 then []
    else
      var p := ParseRules(items[..|items| - 1], numeral);
      match ParseRule(items[|items| - 1], |p|, numeral)
      case Some(r) => p + [r]
      case None => p
  }

  lemma ParseRulesSnoc(items: seq<Json>, item: Json, numeral: string -> Option<real>)
    ensures var p := ParseRules(items, numeral);
      ParseRules(items + [item], numeral) ==
        match ParseRule(item, |p|, numeral) case Some(r) => p + [r] case None => p
  {
    assert (items + [item])[..|items|] == items;
  }

  lemma ParseRulesStep(items: seq<Json>, i: nat, numeral: string -> Option<real>)
    requires i < |items|
    ensures var p := ParseRules(items[..i], numeral);
      ParseRules(items[..i + 1], numeral) ==
        match ParseRule(items[i], |p|, numeral) case Some(r) => p + [r] case None => p
  {
    assert items[..i + 1] == items[..i] + [items[i]];
    ParseRulesSnoc(items[..i], items[i], numeral);
  }

  /** A rule without an id, appended after others, is named after the number of rules
      accepted before it, not after its position. */
  lemma DefaultRuleIdCountsAccepted(items: seq<Json>, numeral: string -> Option<real>)
    ensures var p := ParseRules(items, numeral);
      ParseRules(items + [JObj([])], numeral) ==
        p + [TaxRule(SyntheticRuleId(|p|), "unknown", "", OTHER, [], None, None, None, None, None)]
  {
    ParseRulesSnoc(items, JObj([]), numeral);
    ParseTaxTypeOfValue(OTHER);
  }

  /** A rule that fails does not change the rules before it, nor the count the next
      synthetic id is taken from. */
  lemma FailedRuleIsSkipped(items: seq<Json>, item: Json, numeral: string -> Option<real>)
    requires ParseRule(item, |ParseRules(items, numeral)|, numeral).None?
    ensures ParseRules(items + [item], numeral) == ParseRules(items, numeral)
  {
    ParseRulesSnoc(items, item, numeral);
  }

  // ---------------------------------------------------------------- the whole response

  /** Why parsing the whole response raises (these errors are not caught). */
  datatype ResponseError =
    | NotAnObject              // `response.get` on something that is not a dict
    | NotIterable(key: string) // iterating a category value that is not a list, string or dict
    | TaxTypeNotAString        // `upper` on a tax-type entry that is not a string

  /** The entries of a category: `response.get(key, [])`, iterated. */
  function CategoryItems(fields: seq<(string, Json)>, key: string): (r: Result<seq<Json>, ResponseError>)
    ensures key !in KeySet(fields, FieldKey) ==> r == Success([])
    ensures r.Failure? ==> r.error == NotIterable(key)
  {
    match Iterate(Get(fields, key, JArr([])))
    case Some(items) => Success(items)
    case None => Failure(NotIterable(key))
  }

  /** The extras every parsed entity set carries. */
  function RawExtractions(fields: seq<(string, Json)>): (m: map<string, Json>)
    ensures m.Keys == {"summary", "confidence_score", "warnings"}
  {
    map["summary" := Get(fields, "summary", JStr("")),
        "confidence_score" := Get(fields, "confidence_score", JNum(0.0)),
        "warnings" := Get(fields, "warnings", JArr([]))]
  }

  /** The parsed entities of a response, or the error that escapes. */
  function ExtractionFrom(response: Json, numeral: string -> Option<real>): (r: Result<ExtractedEntities, ResponseError>)
    ensures !response.JObj? ==> r == Failure(NotAnObject)
    ensures r.Success? ==> r.value.rawExtractions.Keys == {"summary", "confidence_score", "warnings"}
  {
    if !response.JObj? then Failure(NotAnObject)
    else
      var f := response.fields;
      var taxTypeItems :- CategoryItems(f, "tax_types");
      var taxTypes :- match ParseTaxTypes(taxTypeItems)
        case Some(ts) => Success(ts)
        case None => Failure(TaxTypeNotAString);
      var rateItems :- CategoryItems(f, "rates");
      var bracketItems :- CategoryItems(f, "brackets");
      var thresholdItems :- CategoryItems(f, "thresholds");
      var deadlineItems :- CategoryItems(f, "deadlines");
      var ruleItems :- CategoryItems(f, "rules");
      Success(ExtractedEntities(
        taxTypes,
        FilterMap(rateItems, RateParser(numeral)),
        FilterMap(bracketItems, BracketParser(numeral)),
        FilterMap(thresholdItems, ThresholdParser(numeral)),
        FilterMap(deadlineItems, DeadlineParser()),
        ParseRules(ruleItems, numeral),
        RawExtractions(f)))
  }

  /** An empty reply object gives no entities and the default extras. */
  lemma EmptyResponseDefaults(numeral: string -> Option<real>)
    ensures ExtractionFrom(JObj([]), numeral) == Success(ExtractedEntities(
      [], [], [], [], [], [],
      map["summary" := JStr(""), "confidence_score" := JNum(0.0), "warnings" := JArr([])]))
  {
  }

  /** Missing fields take their defaults: the rate 0 named "unknown", the bracket from 0 at
      rate 0, the threshold of 0 USD named "unknown", the annual filing deadline "unknown". */
  lemma RecordDefaults(numeral: string -> Option<real>)
    ensures ParseRate(JObj([]), numeral) == Some(TaxRateFields("unknown", 0.0, None, [], []))
    ensures ParseBracket(JObj([]), numeral) == Some(TaxBracketFields(0.0, None, 0.0, None))
    ensures ParseThreshold(JObj([]), numeral) == Some(TaxThreshold("unknown", 0.0, "USD", None, None))
    ensures ParseDeadline(JObj([])) == Some(TaxDeadline("unknown", "filing", "annually", None, None))
  {
  }

  /** A rate entry is kept exactly when every field converts (name a string, rate read by
      `float`, description null or a string, conditions and exemptions lists of strings) and
      the rate lies in [0, 1]; the kept record holds those conversions, an absent field at its
      default. */
  lemma RateKept(f: seq<(string, Json)>, numeral: string -> Option<real>)
    ensures var name := Get(f, "name", JStr("unknown"));
      var rate := PyFloat(Get(f, "rate", JNum(0.0)), numeral);
      var description := Get(f, "description", JNull);
      var conditions := AsStrList(Get(f, "conditions", JArr([])));
      var exemptions := AsStrList(Get(f, "exemptions", JArr([])));
      var r := ParseRate(JObj(f), numeral);
      (r.Some? <==> name.JStr? && rate.Some? && (description.JNull? || description.JStr?) &&
                    conditions.Some? && exemptions.Some? && 0.0 <= rate.value <= 1.0) &&
      (r.Some? ==> r.value == TaxRateFields(name.s, rate.value, AsOptStr(description).value,
                                            conditions.value, exemptions.value))
  {
  }

  /** A bracket entry is kept exactly when every field converts and the minimum is not
      negative and the rate lies in [0, 1]; the kept bracket holds those conversions. */
  lemma BracketKept(f: seq<(string, Json)>, numeral: string -> Option<real>)
    ensures var minAmount := PyFloat(Get(f, "min_amount", JNum(0.0)), numeral);
      var maxAmount := AsOptFloat(Get(f, "max_amount", JNull), numeral);
      var rate := PyFloat(Get(f, "rate", JNum(0.0)), numeral);
      var fixedAmount := AsOptFloat(Get(f, "fixed_amount", JNull), numeral);
      var r := ParseBracket(JObj(f), numeral);
      (r.Some? <==> minAmount.Some? && maxAmount.Some? && rate.Some? && fixedAmount.Some? &&
                    0.0 <= minAmount.value && 0.0 <= rate.value <= 1.0) &&
      (r.Some? ==> r.value == TaxBracketFields(minAmount.value, maxAmount.value, rate.value,
                                               fixedAmount.value))
  {
  }

  /** A threshold entry is kept exactly when every field converts (name and currency
      strings, amount read by `float`, description null or a string, the effective date not
      raising); the kept threshold holds those conversions. */
  lemma ThresholdKept(f: seq<(string, Json)>, numeral: string -> Option<real>)
    ensures var name := Get(f, "name", JStr("unknown"));
      var amount := PyFloat(Get(f, "amount", JNum(0.0)), numeral);
      var currency := Get(f, "currency", JStr("USD"));
      var description := Get(f, "description", JNull);
      var effectiveDate := ParseDate(Get(f, "effective_date", JNull));
      var r := ParseThreshold(JObj(f), numeral);
      (r.Some? <==> name.JStr? && amount.Some? && currency.JStr? &&
                    (description.JNull? || description.JStr?) && effectiveDate.Success?) &&
      (r.Some? ==> r.value == TaxThreshold(name.s, amount.value, currency.s,
                                           AsOptStr(description).value, effectiveDate.value))
  {
  }

  /** A deadline entry is kept exactly when every field converts (name, type and frequency
      strings, the day a whole number or null, description null or a string). */
  lemma DeadlineKept(f: seq<(string, Json)>)
    ensures var name := Get(f, "name", JStr("unknown"));
      var deadlineType := Get(f, "deadline_type", JStr("filing"));
      var frequency := Get(f, "frequency", JStr("annually"));
      var dayOfPeriod := AsOptInt(Get(f, "day_of_period", JNull));
      var description := Get(f, "description", JNull);
      var r := ParseDeadline(JObj(f));
      (r.Some? <==> name.JStr? && deadlineType.JStr? && frequency.JStr? && dayOfPeriod.Some? &&
                    (description.JNull? || description.JStr?)) &&
      (r.Some? ==> r.value == TaxDeadline(name.s, deadlineType.s, frequency.s, dayOfPeriod.value,
                                          AsOptStr(description).value))
  {
  }

  /** A rule entry is kept exactly when its tax type, id, name and description are strings,
      its conditions a list of strings, its rate null or read as a float, its dates do not
      raise, and its source reference is null or a string; the kept rule holds those
      conversions and never carries brackets. */
  lemma RuleKept(f: seq<(string, Json)>, accepted: nat, numeral: string -> Option<real>)
    ensures var taxType := Get(f, "tax_type", JStr("OTHER"));
      var id := Get(f, "id", JStr(SyntheticRuleId(accepted)));
      var name := Get(f, "name", JStr("unknown"));
      var description := Get(f, "description", JStr(""));
      var conditions := AsStrList(Get(f, "conditions", JArr([])));
      var rate := AsOptFloat(Get(f, "rate", JNull), numeral);
      var effectiveDate := ParseDate(Get(f, "effective_date", JNull));
      var expiryDate := ParseDate(Get(f, "expiry_date", JNull));
      var sourceReference := Get(f, "source_reference", JNull);
      var r := ParseRule(JObj(f), accepted, numeral);
      (r.Some? <==> taxType.JStr? && id.JStr? && name.JStr? && description.JStr? &&
                    conditions.Some? && rate.Some? && effectiveDate.Success? && expiryDate.Success? &&
                    (sourceReference.JNull? || sourceReference.JStr?)) &&
      (r.Some? ==> r.value == TaxRule(id.s, name.s, description.s, ParseTaxType(taxType.s),
                                      conditions.value, rate.value, None, effectiveDate.value,
                                      expiryDate.value, AsOptStr(sourceReference).value))
  {
  }

  /** A rate outside [0, 1] is rejected by the record constructor, so the record is
      dropped; inside it the record is kept. */
  lemma RateRangeDecides(name: string, x: real, numeral: string -> Option<real>)
    ensures var item := JObj([("name", JStr(name)), ("rate", JNum(x))]);
      ParseRate(item, numeral).Some? <==> 0.0 <= x <= 1.0
  {
    var fields := [("name", JStr(name)), ("rate", JNum(x))];
    assert fields[..1] == [("name", JStr(name))];
    assert Get(fields, "rate", JNum(0.0)) == JNum(x);
    assert Get(fields, "name", JStr("unknown")) == JStr(name);
    assert "name" != "rate";
    assert Get(fields, "description", JNull) == JNull;
    assert Get(fields, "conditions", JArr([])) == JArr([]);
    assert Get(fields, "exemptions", JArr([])) == JArr([]);
  }

  /** Records are dropped one by one: the records parsed from two runs of items are those of
      the first run followed by those of the second. */
  lemma RecordsDroppedIndependently(xs: seq<Json>, ys: seq<Json>, numeral: string -> Option<real>)
    ensures FilterMap(xs + ys, RateParser(numeral)) ==
      FilterMap(xs, RateParser(numeral)) + FilterMap(ys, RateParser(numeral))
    ensures FilterMap(xs + ys, BracketParser(numeral)) ==
      FilterMap(xs, BracketParser(numeral)) + FilterMap(ys, BracketParser(numeral))
    ensures FilterMap(xs + ys, ThresholdParser(numeral)) ==
      FilterMap(xs, ThresholdParser(numeral)) + FilterMap(ys, ThresholdParser(numeral))
    ensures FilterMap(xs + ys, DeadlineParser()) ==
      FilterMap(xs, DeadlineParser()) + FilterMap(ys, DeadlineParser())
  {
    FilterMapAppend(xs, ys, RateParser(numeral));
    FilterMapAppend(xs, ys, BracketParser(numeral));
    FilterMapAppend(xs, ys, ThresholdParser(numeral));
    FilterMapAppend(xs, ys, DeadlineParser());
  }

  // ---------------------------------------------------------------- the parsing loops

  /** `for item in items: try: out.append(parse(item)) except Exception: skip`. */
  method CollectParsed<B>(items: seq<Json>, parse: Json -> Option<B>) returns (out: seq<B>)
    ensures out == FilterMap(items, parse)
  {
    out := [];
    for i := 0 to |items|
      invariant out == FilterMap(items[..i], parse)
    {
      assert items[..i + 1][..i] == items[..i];
      match parse(items[i]) {
        case Some(x) => out := out + [x];
        case None =>
      }
    }
    assert items[..|items|] == items;
  }

  method CollectTaxTypes(items: seq<Json>) returns (r: Option<seq<TaxType>>)
    ensures r == ParseTaxTypes(items)
  {
    var taxTypes := [];
    for i := 0 to |items|
      invariant ParseTaxTypes(items[..i]) == Some(taxTypes)
    {
      assert items[..i + 1][..i] == items[..i];
      if !items[i].JStr? {
        ParseTaxTypesPointwise(items);
        return None;
      }
      taxTypes := taxTypes + [ParseTaxType(items[i].s)];
    }
    assert items[..|items|] == items;
    r := Some(taxTypes);
  }

  method CollectRules(items: seq<Json>, numeral: string -> Option<real>) returns (rules: seq<TaxRule>)
    ensures rules == ParseRules(items, numeral)
  {
    rules := [];
    for i := 0 to |items|
      invariant rules == ParseRules(items[..i], numeral)
    {
      ParseRulesStep(items, i, numeral);
      var r := ParseRule(items[i], |rules|, numeral);
      if r.Some? {
        rules := rules + [r.value];
      }
    }
    assert items[..|items|] == items;
  }

  /** The response parser: the category loops in the source's order. */
  method ParseExtractionResponse(response: Json, numeral: string -> Option<real>)
    returns (r: Result<ExtractedEntities, ResponseError>)
    ensures r == ExtractionFrom(response, numeral)
  {
    if !response.JObj? {
      return Failure(NotAnObject);
    }
    var f := response.fields;
    var taxTypeItems :- CategoryItems(f, "tax_types");
    var taxTypes := CollectTaxTypes(taxTypeItems);
    if taxTypes.None? {
      return Failure(TaxTypeNotAString);
    }
    var rateItems :- CategoryItems(f, "rates");
    var rates := CollectParsed(rateItems, RateParser(numeral));
    var bracketItems :- CategoryItems(f, "brackets");
    var brackets := CollectParsed(bracketItems, BracketParser(numeral));
    var thresholdItems :- CategoryItems(f, "thresholds");
    var thresholds := CollectParsed(thresholdItems, ThresholdParser(numeral));
    var deadlineItems :- CategoryItems(f, "deadlines");
    var deadlines := CollectParsed(deadlineItems, DeadlineParser());
    var ruleItems :- CategoryItems(f, "rules");
    var rules := CollectRules(ruleItems, numeral);
    r := Success(ExtractedEntities(taxTypes.value, rates, brackets, thresholds, deadlines, rules,
                                   RawExtractions(f)));
  }
}
