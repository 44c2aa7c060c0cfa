/**
 * Sanity checks over an entity set. Four checks, whose warnings come in this order: each
 * rate above 50% or below 0; each bracket whose maximum is below its minimum (by position);
 * each rule with an empty description; and a single warning when two rates share a name.
 */
module EntityValidator {
  import opened Wrappers
  import opened Seqs
  import opened Strings
  import opened Schemas
  import opened EntityMerger

  datatype Warning =
    | HighRate(name: string, rate: real)
    | NegativeRate(name: string, rate: real)
    | InvalidBracketRange(position: nat)
    | MissingDescription(ruleId: string)
    | DuplicateRateNames

  /** The threshold above which a rate is reported as unusually high. */
  const HighRateLimit: real := 0.5

  /** The text of a warning; `floatRepr` is Python's `str` of a float. */
  function Message(w: Warning, floatRepr: real -> string): string {
    match w
    case HighRate(name, rate) => "Unusually high rate detected: " + name + " = " + floatRepr(rate * 100.0) + "%"
    case NegativeRate(name, rate) => "Negative rate detected: " + name + " = " + floatRepr(rate * 100.0) + "%"
    case InvalidBracketRange(i) => "Invalid bracket range at position " + NatToString(i)
    case MissingDescription(id) => "Rule '" + id + "' missing description"
    case DuplicateRateNames => "Duplicate rate names detected"
  }

  // ---------------------------------------------------------------- the checks, as functions

  function RateWarningsOf(r: TaxRate): seq<Warning> {
    (if r.rate > HighRateLimit then [HighRate(r.name, r.rate)] else []) +
    (if r.rate < 0.0 then [NegativeRate(r.name, r.rate)] else [])
  }

  /** The bracket test as the check is written: a maximum of zero is falsy and skips it. */
  predicate InvertedAsWritten(b: TaxBracket) {
    b.maxAmount.Some? && b.maxAmount.value != 0.0 && b.minAmount > b.maxAmount.value
  }

  /** The bracket test as intended: any present maximum below the minimum. */
  predicate Inverted(b: TaxBracket) {
    b.maxAmount.Some? && b.minAmount > b.maxAmount.value
  }

  /** The positions of the brackets the test rejects, as warnings in order. */
  function BracketWarnings(bs: seq<TaxBracket>, inverted: TaxBracket -> bool): seq<Warning> {
    if |bs| == 0 then []
    else
      BracketWarnings(bs[..|bs| - 1], inverted) +
        (if inverted(bs[|bs| - 1]) then [InvalidBracketRange(|bs| - 1)] else [])
  }

  function RuleWarning(r: TaxRule): Option<Warning> {
    if r.description == "" then Some(MissingDescription(r.id)) else None
  }

  /** All the warnings for e, with the bracket test given. */
  function WarningsWith(e: ExtractedEntities, inverted: TaxBracket -> bool): seq<Warning> {
    FlatMap(e.rates, RateWarningsOf) + BracketWarnings(e.brackets, inverted) +
      FilterMap(e.rules, RuleWarning) +
      (if |KeySet(e.rates, RateName)| != |e.rates| then [DuplicateRateNames] else [])
  }

  /** The warnings the program produces. */
  function WarningsAsWritten(e: ExtractedEntities): seq<Warning> { WarningsWith(e, InvertedAsWritten) }

  /** The warnings with the corrected bracket test, as a reference. */
  function Warnings(e: ExtractedEntities): seq<Warning> { WarningsWith(e, Inverted) }

  // ---------------------------------------------------------------- the checks, as loops

  /** The validation loops, with the bracket test as written. */
  method ValidateEntities(e: ExtractedEntities) returns (warnings: seq<Warning>)
    ensures warnings == WarningsAsWritten(e)
  {
    var rateWarnings := CheckRates(e.rates);
    var bracketWarnings := CheckBrackets(e.brackets);
    var ruleWarnings := CheckRules(e.rules);
    warnings := rateWarnings + bracketWarnings + ruleWarnings;
    if |KeySet(e.rates, RateName)| != |e.rates| {
      warnings := warnings + [DuplicateRateNames];
    }
  }

  /** The rate loop: a high and a negative test per rate. */
  method CheckRates(rates: seq<TaxRate>) returns (warnings: seq<Warning>)
    ensures warnings == FlatMap(rates, RateWarningsOf)
  {
    warnings := [];
    for i := 0 to |rates|
      invariant warnings == FlatMap(rates[..i], RateWarningsOf)
    {
      FlatMapPrefix(rates, i, RateWarningsOf);
      var rate := rates[i];
      if rate.rate > HighRateLimit {
        warnings := warnings + [HighRate(rate.name, rate.rate)];
      }
      if rate.rate < 0.0 {
        warnings := warnings + [NegativeRate(rate.name, rate.rate)];
      }
    }
    assert rates[..|rates|] == rates;
  }

  /** The bracket loop, by position; a maximum of zero is falsy and skips the test. */
  method CheckBrackets(brackets: seq<TaxBracket>) returns (warnings: seq<Warning>)
    ensures warnings == BracketWarnings(brackets, InvertedAsWritten)
  {
    warnings := [];
    for i := 0 to |brackets|
      invariant warnings == BracketWarnings(brackets[..i], InvertedAsWritten)
    {
      BracketWarningsPrefix(brackets, i, InvertedAsWritten);
      var bracket := brackets[i];
      if bracket.maxAmount.Some? && bracket.maxAmount.value != 0.0 && bracket.minAmount > bracket.maxAmount.value {
        warnings := warnings + [InvalidBracketRange(i)];
      }
    }
    assert brackets[..|brackets|] == brackets;
  }

  /** The rule loop: an empty description is reported by the rule's id. */
  method CheckRules(rules: seq<TaxRule>) returns (warnings: seq<Warning>)
    ensures warnings == FilterMap(rules, RuleWarning)
  {
    warnings := [];
    for i := 0 to |rules|
      invariant warnings == FilterMap(rules[..i], RuleWarning)
    {
      FilterMapPrefix(rules, i, RuleWarning);
      if rules[i].description == "" {
        warnings := warnings + [MissingDescription(rules[i].id)];
      }
    }
    assert rules[..|rules|] == rules;
  }

  lemma BracketWarningsPrefix(bs: seq<TaxBracket>, i: nat, inverted: TaxBracket -> bool)
    requires i < |bs|
    ensures BracketWarnings(bs[..i + 1], inverted) ==
      BracketWarnings(bs[..i], inverted) + (if inverted(bs[i]) then [InvalidBracketRange(i)] else [])
  {
    assert bs[..i + 1][..i] == bs[..i];
  }

  // ---------------------------------------------------------------- what each check reports

  lemma {:induction false} RateWarningsMembers(rates: seq<TaxRate>, w: Warning)
    ensures w in FlatMap(rates, RateWarningsOf) <==>
      exists i :: 0 <= i < |rates| && w in RateWarningsOf(rates[i])
  {
    if |rates| > 0 {
      var p := rates[..|rates| - 1];
      RateWarningsMembers(p, w);
      if exists i :: 0 <= i < |rates| && w in RateWarningsOf(rates[i]) {
        var i :| 0 <= i < |rates| && w in RateWarningsOf(rates[i]);
        if i < |p| { assert rates[i] == p[i]; }
      }
      forall i | 0 <= i < |p| ensures p[i] == rates[i] { }
    }
  }

  lemma {:induction false} BracketWarningsMembers(bs: seq<TaxBracket>, inverted: TaxBracket -> bool, i: nat)
    ensures InvalidBracketRange(i) in BracketWarnings(bs, inverted) <==> i < |bs| && inverted(bs[i])
  {
    if |bs| > 0 {
      var p := bs[..|bs| - 1];
      BracketWarningsMembers(p, inverted, i);
      if i < |p| { assert bs[i] == p[i]; }
    }
  }

  lemma {:induction false} BracketWarningsOnly(bs: seq<TaxBracket>, inverted: TaxBracket -> bool)
    ensures forall w :: w in BracketWarnings(bs, inverted) ==> w.InvalidBracketRange?
  {
    if |bs| > 0 { BracketWarningsOnly(bs[..|bs| - 1], inverted); }
  }

  lemma RuleWarningsOnly(rules: seq<TaxRule>, w: Warning)
    requires w in FilterMap(rules, RuleWarning)
    ensures w.MissingDescription?
  {
    FilterMapMembers(rules, RuleWarning, w);
  }

  /** A rate is reported as high exactly when some rate of that name and value exceeds 50%. */
  lemma HighRateReported(e: ExtractedEntities, name: string, rate: real)
    ensures HighRate(name, rate) in WarningsAsWritten(e) <==>
      rate > HighRateLimit && exists i :: 0 <= i < |e.rates| && e.rates[i].name == name && e.rates[i].rate == rate
  {
    var w := HighRate(name, rate);
    RateWarningsMembers(e.rates, w);
    BracketWarningsOnly(e.brackets, InvertedAsWritten);
    if w in FilterMap(e.rules, RuleWarning) { RuleWarningsOnly(e.rules, w); }
  }

  /** No negative-rate warning is ever produced: a rate below zero is rejected when the rate
      is constructed. */
  lemma NoNegativeRateWarnings(e: ExtractedEntities, name: string, rate: real)
    ensures NegativeRate(name, rate) !in WarningsAsWritten(e)
  {
    var w := NegativeRate(name, rate);
    RateWarningsMembers(e.rates, w);
    BracketWarningsOnly(e.brackets, InvertedAsWritten);
    if w in FilterMap(e.rules, RuleWarning) { RuleWarningsOnly(e.rules, w); }
  }

  /** As written, position i is reported exactly when bracket i has a maximum that is
      present, not zero, and below its minimum. */
  lemma InvalidBracketReportedAsWritten(e: ExtractedEntities, i: nat)
    ensures InvalidBracketRange(i) in WarningsAsWritten(e) <==>
      i < |e.brackets| && e.brackets[i].maxAmount.Some? && e.brackets[i].maxAmount.value != 0.0 &&
      e.brackets[i].minAmount > e.brackets[i].maxAmount.value
  {
    var w := InvalidBracketRange(i);
    RateWarningsMembers(e.rates, w);
    BracketWarningsMembers(e.brackets, InvertedAsWritten, i);
    if w in FilterMap(e.rules, RuleWarning) { RuleWarningsOnly(e.rules, w); }
  }

  /** With the corrected test, position i is reported exactly when bracket i has a maximum
      below its minimum. */
  lemma InvalidBracketReported(e: ExtractedEntities, i: nat)
    ensures InvalidBracketRange(i) in Warnings(e) <==>
      i < |e.brackets| && e.brackets[i].maxAmount.Some? &&
      e.brackets[i].minAmount > e.brackets[i].maxAmount.value
  {
    var w := InvalidBracketRange(i);
    RateWarningsMembers(e.rates, w);
    BracketWarningsMembers(e.brackets, Inverted, i);
    if w in FilterMap(e.rules, RuleWarning) { RuleWarningsOnly(e.rules, w); }
  }

  /** A rule is reported exactly when some rule with that id has an empty description. */
  lemma MissingDescriptionReported(e: ExtractedEntities, id: string)
    ensures MissingDescription(id) in WarningsAsWritten(e) <==>
      exists i :: 0 <= i < |e.rules| && e.rules[i].id == id && e.rules[i].description == ""
  {
    var w := MissingDescription(id);
    RateWarningsMembers(e.rates, w);
    BracketWarningsOnly(e.brackets, InvertedAsWritten);
    FilterMapMembers(e.rules, RuleWarning, w);
  }

  /** The duplicate warning appears exactly when two rates share a name, and then once. */
  lemma DuplicateReported(e: ExtractedEntities)
    ensures DuplicateRateNames in WarningsAsWritten(e) <==> !DistinctKeys(e.rates, RateName)
  {
    var w := DuplicateRateNames;
    DistinctKeysBySize(e.rates, RateName);
    RateWarningsMembers(e.rates, w);
    BracketWarningsOnly(e.brackets, InvertedAsWritten);
    if w in FilterMap(e.rules, RuleWarning) { RuleWarningsOnly(e.rules, w); }
  }

  /** A merged entity set never has duplicate rate names. */
  lemma MergedHasNoDuplicateWarning(es: seq<ExtractedEntities>)
    ensures DuplicateRateNames !in WarningsAsWritten(Merged(es))
  {
    DuplicateReported(Merged(es));
  }

  // ---------------------------------------------------------------- the falsy maximum

  /** As written, a bracket with minimum 1000 and maximum 0 is inverted but not reported. */
  lemma ZeroMaximumNotReported()
    ensures var b: TaxBracket := TaxBracketFields(1000.0, Some(0.0), 0.1, None);
      Inverted(b) && InvalidBracketRange(0) !in BracketWarnings([b], InvertedAsWritten)
  {
    var b: TaxBracket := TaxBracketFields(1000.0, Some(0.0), 0.1, None);
    BracketWarningsMembers([b], InvertedAsWritten, 0);
  }

  /** The two tests differ only on a zero maximum. */
  lemma AsWrittenDiffersOnlyAtZero(b: TaxBracket)
    ensures InvertedAsWritten(b) != Inverted(b) <==> b.maxAmount == Some(0.0) && b.minAmount > 0.0
  {
  }

  /** Without a bracket whose maximum is zero and whose minimum is positive, the program's
      warnings are the corrected ones. */
  lemma {:induction false} BracketWarningsAgree(bs: seq<TaxBracket>)
    requires forall i :: 0 <= i < |bs| ==> !(bs[i].maxAmount == Some(0.0) && bs[i].minAmount > 0.0)
    ensures BracketWarnings(bs, InvertedAsWritten) == BracketWarnings(bs, Inverted)
  {
    if |bs| > 0 {
      var p := bs[..|bs| - 1];
      assert forall i :: 0 <= i < |p| ==> p[i] == bs[i];
      BracketWarningsAgree(p);
      AsWrittenDiffersOnlyAtZero(bs[|bs| - 1]);
    }
  }

  lemma WarningsAgreeWithoutZeroMaximum(e: ExtractedEntities)
    requires forall i :: 0 <= i < |e.brackets| ==>
      !(e.brackets[i].maxAmount == Some(0.0) && e.brackets[i].minAmount > 0.0)
    ensures WarningsAsWritten(e) == Warnings(e)
  {
    BracketWarningsAgree(e.brackets);
  }

  // ---------------------------------------------------------------- messages

  /** Apart from the two rate warnings, whose text depends on float formatting, a warning can
      be read back from its message: different warnings have different texts. */
  lemma MessagesIdentify(w1: Warning, w2: Warning, floatRepr: real -> string)
    requires w1.InvalidBracketRange? || w1.MissingDescription? || w1.DuplicateRateNames?
    requires w2.InvalidBracketRange? || w2.MissingDescription? || w2.DuplicateRateNames?
    ensures Message(w1, floatRepr) == Message(w2, floatRepr) <==> w1 == w2
  {
    var m1, m2 := Message(w1, floatRepr), Message(w2, floatRepr);
    if w1 != w2 {
      if w1.InvalidBracketRange? && w2.InvalidBracketRange? {
        var pre := "Invalid bracket range at position ";
        DecimalRoundTrip(w1.position);
        DecimalRoundTrip(w2.position);
        assert m1[|pre|..] == NatToString(w1.position) && m2[|pre|..] == NatToString(w2.position);
      } else if w1.MissingDescription? && w2.MissingDescription? {
        var tail := "' missing description";
        assert m1[6..|m1| - |tail|] == w1.ruleId && m2[6..|m2| - |tail|] == w2.ruleId;
      } else {
        assert m1[0] != m2[0];
      }
    }
  }
}
