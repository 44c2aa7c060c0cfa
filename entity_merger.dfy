/**
 * Merging the entity sets of several chunks into one. Tax types, rates, thresholds,
 * deadlines and rules are deduplicated by a key, first occurrence winning, with the
 * seen-key sets carried across chunks; brackets are concatenated; and in the extras map the
 * first value for a key wins, except that a later list is appended to an earlier list.
 */
module EntityMerger {
  import opened Wrappers
  import opened Seqs
  import opened Json
  import opened Schemas

  // ---------------------------------------------------------------- keys and projections

  function TaxTypeKey(t: TaxType): TaxType { t }
  function RateName(r: TaxRate): string { r.name }
  function ThresholdName(t: TaxThreshold): string { t.name }
  function DeadlineName(d: TaxDeadline): string { d.name }
  function RuleId(r: TaxRule): string { r.id }

  function TaxTypesOf(e: ExtractedEntities): seq<TaxType> { e.taxTypes }
  function RatesOf(e: ExtractedEntities): seq<TaxRate> { e.rates }
  function BracketsOf(e: ExtractedEntities): seq<TaxBracket> { e.brackets }
  function ThresholdsOf(e: ExtractedEntities): seq<TaxThreshold> { e.thresholds }
  function DeadlinesOf(e: ExtractedEntities): seq<TaxDeadline> { e.deadlines }
  function RulesOf(e: ExtractedEntities): seq<TaxRule> { e.rules }

  // ---------------------------------------------------------------- the extras map

  /** A later extra for a key already present: list onto list is appended, anything else
      leaves the earlier value. */
  function Combine(earlier: Json, later: Json): (v: Json)
    ensures earlier.JArr? && later.JArr? ==> v == JArr(earlier.items + later.items)
    ensures !(earlier.JArr? && later.JArr?) ==> v == earlier
  {
    if earlier.JArr? && later.JArr? then JArr(earlier.items + later.items) else earlier
  }

  /** The extras map after one more entity set's extras are absorbed. */
  function AbsorbExtras(acc: map<string, Json>, extras: map<string, Json>): (m: map<string, Json>)
    ensures m.Keys == acc.Keys + extras.Keys
  {
    AbsorbSome(acc, extras, extras.Keys)
  }

  /** The keys in `done` of extras absorbed into acc: what the extras loop has built so far. */
  function AbsorbSome(acc: map<string, Json>, extras: map<string, Json>, done: set<string>): (m: map<string, Json>)
    requires done <= extras.Keys
    ensures m.Keys == acc.Keys + done
  {
    map k | k in acc.Keys + done ::
      if k in acc && k in done then Combine(acc[k], extras[k])
      else if k in acc then acc[k]
      else extras[k]
  }

  /** The extras map after one key k with value v is absorbed. */
  function Absorb1(m: map<string, Json>, k: string, v: Json): map<string, Json> {
    m[k := if k in m then Combine(m[k], v) else v]
  }

  lemma AbsorbStep(acc: map<string, Json>, extras: map<string, Json>, done: set<string>, k: string)
    requires done <= extras.Keys && k in extras && k !in done
    ensures AbsorbSome(acc, extras, done + {k}) == Absorb1(AbsorbSome(acc, extras, done), k, extras[k])
  {
  }

  function MergedExtras(es: seq<ExtractedEntities>): map<string, Json> {
    if |es| == 0 then map[] else AbsorbExtras(MergedExtras(es[..|es| - 1]), es[|es| - 1].rawExtractions)
  }

  // ---------------------------------------------------------------- the merge

  /** The merge of the entity sets, by category. */
  function Merged(es: seq<ExtractedEntities>): ExtractedEntities {
    ExtractedEntities(
      KeepFirst(FlatMap(es, TaxTypesOf), TaxTypeKey),
      KeepFirst(FlatMap(es, RatesOf), RateName),
      FlatMap(es, BracketsOf),
      KeepFirst(FlatMap(es, ThresholdsOf), ThresholdName),
      KeepFirst(FlatMap(es, DeadlinesOf), DeadlineName),
      KeepFirst(FlatMap(es, RulesOf), RuleId),
      MergedExtras(es))
  }

  /** One category's inner loop: append each item whose key is unseen, and mark it seen. */
  method AppendUnseen<T, K(==)>(kept: seq<T>, seen: set<K>, items: seq<T>, key: T -> K, ghost before: seq<T>)
    returns (kept': seq<T>, seen': set<K>)
    requires kept == KeepFirst(before, key) && seen == KeySet(before, key)
    ensures kept' == KeepFirst(before + items, key) && seen' == KeySet(before + items, key)
  {
    kept', seen' := kept, seen;
    assert before + items[..0] == before;
    for j := 0 to |items|
      invariant kept' == KeepFirst(before + items[..j], key)
      invariant seen' == KeySet(before + items[..j], key)
    {
      UnseenStep(before, items, j, key);
      if key(items[j]) !in seen' {
        kept' := kept' + [items[j]];
        seen' := seen' + {key(items[j])};
      }
    }
    assert items[..|items|] == items;
  }

  /** What one more item does to the kept items and the seen keys. */
  lemma UnseenStep<T, K>(before: seq<T>, items: seq<T>, j: nat, key: T -> K)
    requires j < |items|
    ensures var xs, x := before + items[..j], items[j];
      KeepFirst(before + items[..j + 1], key) ==
        (if key(x) in KeySet(xs, key) then KeepFirst(xs, key) else KeepFirst(xs, key) + [x]) &&
      KeySet(before + items[..j + 1], key) == KeySet(xs, key) + {key(x)}
  {
    var xs, x := before + items[..j], items[j];
    assert before + items[..j + 1] == xs + [x];
    KeepFirstSnoc(xs, x, key);
    KeySetSnoc(xs, x, key);
  }

  /** One key of the extras loop: a new key is added; a list onto a list is appended. */
  method AbsorbKey(out: map<string, Json>, k: string, v: Json) returns (out': map<string, Json>)
    ensures out' == Absorb1(out, k, v)
  {
    if k !in out {
      out' := out[k := v];
    } else if v.JArr? && out[k].JArr? {
      out' := out[k := JArr(out[k].items + v.items)];
    } else {
      out' := out;
      assert out[k := out[k]] == out;
    }
  }

  /** The extras loop: every key of `extras`, in whatever order, is absorbed into `acc`. */
  method AbsorbExtrasLoop(acc: map<string, Json>, extras: map<string, Json>) returns (out: map<string, Json>)
    ensures out == AbsorbExtras(acc, extras)
  {
    out := acc;
    var todo := extras.Keys;
    AbsorbNone(acc, extras);
    while todo != {}
      invariant todo <= extras.Keys
      invariant out == AbsorbSome(acc, extras, extras.Keys - todo)
      decreases todo
    {
      var k :| k in todo;
      AbsorbStep(acc, extras, extras.Keys - todo, k);
      out := AbsorbKey(out, k, extras[k]);
      MoveToDone(extras.Keys, todo, k);
      todo := todo - {k};
    }
  }

  lemma AbsorbNone(acc: map<string, Json>, extras: map<string, Json>)
    ensures AbsorbSome(acc, extras, extras.Keys - extras.Keys) == acc
  {
    assert extras.Keys - extras.Keys == {};
  }

  lemma MoveToDone(keys: set<string>, todo: set<string>, k: string)
    requires k in todo && todo <= keys
    ensures keys - todo + {k} == keys - (todo - {k})
  {
  }

  lemma FlatMapSnoc<A, B>(xs: seq<A>, x: A, f: A -> seq<B>)
    ensures FlatMap(xs + [x], f) == FlatMap(xs, f) + f(x)
  {
    assert (xs + [x])[..|xs|] == xs;
  }

  /** The five seen-key sets the merge loop carries across chunks. */
  datatype Seen = Seen(taxTypes: set<TaxType>, rateNames: set<string>, thresholdNames: set<string>,
                       deadlineNames: set<string>, ruleIds: set<string>)

  /** The keys seen after merging es. */
  function SeenOf(es: seq<ExtractedEntities>): Seen {
    Seen(KeySet(FlatMap(es, TaxTypesOf), TaxTypeKey), KeySet(FlatMap(es, RatesOf), RateName),
         KeySet(FlatMap(es, ThresholdsOf), ThresholdName), KeySet(FlatMap(es, DeadlinesOf), DeadlineName),
         KeySet(FlatMap(es, RulesOf), RuleId))
  }

  /** The body of the merge loop for one entity set e, after the sets `prefix`. */
  method MergeStep(m: ExtractedEntities, seen: Seen, e: ExtractedEntities, ghost prefix: seq<ExtractedEntities>)
    returns (m': ExtractedEntities, seen': Seen)
    requires m == Merged(prefix) && seen == SeenOf(prefix)
    ensures m' == Merged(prefix + [e]) && seen' == SeenOf(prefix + [e])
  {
    var es := prefix + [e];
    assert es[..|es| - 1] == prefix && es[|es| - 1] == e;
    FlatMapSnoc(prefix, e, TaxTypesOf);
    FlatMapSnoc(prefix, e, RatesOf);
    FlatMapSnoc(prefix, e, ThresholdsOf);
    FlatMapSnoc(prefix, e, DeadlinesOf);
    FlatMapSnoc(prefix, e, RulesOf);
    var taxTypes, seenTaxTypes :=
      AppendUnseen(m.taxTypes, seen.taxTypes, e.taxTypes, TaxTypeKey, FlatMap(prefix, TaxTypesOf));
    var rates, seenRateNames :=
      AppendUnseen(m.rates, seen.rateNames, e.rates, RateName, FlatMap(prefix, RatesOf));
    var brackets := m.brackets + e.brackets;
    var thresholds, seenThresholdNames :=
      AppendUnseen(m.thresholds, seen.thresholdNames, e.thresholds, ThresholdName, FlatMap(prefix, ThresholdsOf));
    var deadlines, seenDeadlineNames :=
      AppendUnseen(m.deadlines, seen.deadlineNames, e.deadlines, DeadlineName, FlatMap(prefix, DeadlinesOf));
    var rules, seenRuleIds :=
      AppendUnseen(m.rules, seen.ruleIds, e.rules, RuleId, FlatMap(prefix, RulesOf));
    var extras := AbsorbExtrasLoop(m.rawExtractions, e.rawExtractions);
    m' := ExtractedEntities(taxTypes, rates, brackets, thresholds, deadlines, rules, extras);
    seen' := Seen(seenTaxTypes, seenRateNames, seenThresholdNames, seenDeadlineNames, seenRuleIds);
  }

  /** The merge loop over the entity sets. */
  method MergeEntities(es: seq<ExtractedEntities>) returns (merged: ExtractedEntities)
    ensures merged == Merged(es)
  {
    merged := NoEntities();
    var seen := Seen({}, {}, {}, {}, {});
    for i := 0 to |es|
      invariant merged == Merged(es[..i]) && seen == SeenOf(es[..i])
    {
      assert es[..i + 1] == es[..i] + [es[i]];
      merged, seen := MergeStep(merged, seen, es[i], es[..i]);
    }
    assert es[..|es|] == es;
  }

  // ---------------------------------------------------------------- properties

  /** Merging nothing gives empty lists and an empty extras map. */
  lemma MergeOfNone()
    ensures Merged([]) == NoEntities()
  {
  }

  /** Every rate name appears exactly once in the merge, the rate kept for a name is the
      first rate with that name, and the kept rates are in first-seen order. */
  lemma MergedRatesFirstWins(es: seq<ExtractedEntities>)
    ensures KeySet(Merged(es).rates, RateName) == KeySet(FlatMap(es, RatesOf), RateName)
    ensures DistinctKeys(Merged(es).rates, RateName)
    ensures var all, m := FlatMap(es, RatesOf), Merged(es).rates;
      forall j :: 0 <= j < |m| ==> m[j] == all[FirstIndex(all, RateName, RateName(m[j]))]
    ensures var all, m := FlatMap(es, RatesOf), Merged(es).rates;
      forall j1, j2 :: 0 <= j1 < j2 < |m| ==>
        FirstIndex(all, RateName, RateName(m[j1])) < FirstIndex(all, RateName, RateName(m[j2]))
  {
    var all, m := FlatMap(es, RatesOf), Merged(es).rates;
    assert m == KeepFirst(all, RateName);
    KeepFirstIsFirstSeen(all, RateName);
    forall j | 0 <= j < |m| ensures m[j] == all[FirstIndex(all, RateName, RateName(m[j]))] {
      assert KeepFirst(all, RateName)[j] == m[j];
    }
    forall j1, j2 | 0 <= j1 < j2 < |m|
      ensures FirstIndex(all, RateName, RateName(m[j1])) < FirstIndex(all, RateName, RateName(m[j2]))
    {
      assert KeepFirst(all, RateName)[j1] == m[j1] && KeepFirst(all, RateName)[j2] == m[j2];
    }
  }

  /** As for rates: each tax type once, in first-seen order across the chunks. */
  lemma MergedTaxTypesFirstSeen(es: seq<ExtractedEntities>)
    ensures var all, m := FlatMap(es, TaxTypesOf), Merged(es).taxTypes;
      (forall t :: t in m <==> t in all) &&
      (forall j1, j2 :: 0 <= j1 < j2 < |m| ==> m[j1] != m[j2]) &&
      (forall j1, j2 :: 0 <= j1 < j2 < |m| ==>
        FirstIndex(all, TaxTypeKey, m[j1]) < FirstIndex(all, TaxTypeKey, m[j2]))
  {
    var all, m := FlatMap(es, TaxTypesOf), Merged(es).taxTypes;
    assert m == KeepFirst(all, TaxTypeKey);
    KeepFirstByValue(all, TaxTypeKey);
    KeepFirstIsFirstSeen(all, TaxTypeKey);
  }

  /** Deduplicating by the value itself keeps exactly the values present, each once. */
  lemma KeepFirstByValue<T>(xs: seq<T>, key: T -> T)
    requires forall t :: key(t) == t
    ensures var m := KeepFirst(xs, key);
      (forall t :: t in m <==> t in xs) && forall j1, j2 :: 0 <= j1 < j2 < |m| ==> m[j1] != m[j2]
  {
    var m := KeepFirst(xs, key);
    forall t ensures t in m <==> t in xs {
      if t in m {
        var j :| 0 <= j < |m| && m[j] == t;
        assert key(m[j]) in KeySet(m, key);
        var i := FirstIndex(xs, key, t);
      }
      if t in xs {
        var i :| 0 <= i < |xs| && xs[i] == t;
        assert key(xs[i]) in KeySet(xs, key);
        var j := FirstIndex(m, key, t);
      }
    }
    forall j1, j2 | 0 <= j1 < j2 < |m| ensures m[j1] != m[j2] {
      assert key(m[j1]) != key(m[j2]);
    }
  }

  /** The first threshold, deadline and rule per key win. */
  lemma MergedByKeyFirstWins(es: seq<ExtractedEntities>)
    ensures var all, m := FlatMap(es, ThresholdsOf), Merged(es).thresholds;
      forall j :: 0 <= j < |m| ==> m[j] == all[FirstIndex(all, ThresholdName, ThresholdName(m[j]))]
    ensures var all, m := FlatMap(es, DeadlinesOf), Merged(es).deadlines;
      forall j :: 0 <= j < |m| ==> m[j] == all[FirstIndex(all, DeadlineName, DeadlineName(m[j]))]
    ensures var all, m := FlatMap(es, RulesOf), Merged(es).rules;
      forall j :: 0 <= j < |m| ==> m[j] == all[FirstIndex(all, RuleId, RuleId(m[j]))]
  {
    var ts, ds, rs := FlatMap(es, ThresholdsOf), FlatMap(es, DeadlinesOf), FlatMap(es, RulesOf);
    var m := Merged(es);
    KeepFirstIsFirstSeen(ts, ThresholdName);
    KeepFirstIsFirstSeen(ds, DeadlineName);
    KeepFirstIsFirstSeen(rs, RuleId);
    forall j | 0 <= j < |m.thresholds|
      ensures m.thresholds[j] == ts[FirstIndex(ts, ThresholdName, ThresholdName(m.thresholds[j]))]
    {
      assert KeepFirst(ts, ThresholdName)[j] == m.thresholds[j];
    }
    forall j | 0 <= j < |m.deadlines|
      ensures m.deadlines[j] == ds[FirstIndex(ds, DeadlineName, DeadlineName(m.deadlines[j]))]
    {
      assert KeepFirst(ds, DeadlineName)[j] == m.deadlines[j];
    }
    forall j | 0 <= j < |m.rules| ensures m.rules[j] == rs[FirstIndex(rs, RuleId, RuleId(m.rules[j]))] {
      assert KeepFirst(rs, RuleId)[j] == m.rules[j];
    }
  }

  /** Brackets are never deduplicated: the merge holds all of them, in order. */
  lemma MergedBracketsAll(es: seq<ExtractedEntities>, es': seq<ExtractedEntities>)
    ensures |Merged(es).brackets| == SumLengths(es, BracketsOf)
    ensures Merged(es + es').brackets == Merged(es).brackets + Merged(es').brackets
  {
    FlatMapLength(es, BracketsOf);
    FlatMapAppend(es, es', BracketsOf);
  }

  lemma AbsorbIntoEmpty(m: map<string, Json>)
    ensures AbsorbExtras(map[], m) == m
  {
  }

  lemma FlatMapSingle<A, B>(x: A, f: A -> seq<B>)
    ensures FlatMap([x], f) == f(x)
  {
    assert [x][..0] == [];
  }

  /** One entity set with no repeated tax type, rate name, threshold name, deadline name or
      rule id merges to itself. */
  lemma MergeOfOne(a: ExtractedEntities)
    requires DistinctKeys(a.taxTypes, TaxTypeKey) && DistinctKeys(a.rates, RateName)
    requires DistinctKeys(a.thresholds, ThresholdName) && DistinctKeys(a.deadlines, DeadlineName)
    requires DistinctKeys(a.rules, RuleId)
    ensures Merged([a]) == a
  {
    FlatMapSingle(a, TaxTypesOf);
    FlatMapSingle(a, RatesOf);
    FlatMapSingle(a, BracketsOf);
    FlatMapSingle(a, ThresholdsOf);
    FlatMapSingle(a, DeadlinesOf);
    FlatMapSingle(a, RulesOf);
    KeepFirstOfDistinct(a.taxTypes, TaxTypeKey);
    KeepFirstOfDistinct(a.rates, RateName);
    KeepFirstOfDistinct(a.thresholds, ThresholdName);
    KeepFirstOfDistinct(a.deadlines, DeadlineName);
    KeepFirstOfDistinct(a.rules, RuleId);
    assert [a][..0] == [];
    AbsorbIntoEmpty(a.rawExtractions);
    assert MergedExtras([a]) == a.rawExtractions;
  }

  /** One deduplicated category of MergeIsIncremental. */
  lemma CategoryIncremental<T, K>(es: seq<ExtractedEntities>, es': seq<ExtractedEntities>,
                                  f: ExtractedEntities -> seq<T>, key: T -> K)
    requires f(Merged(es)) == KeepFirst(FlatMap(es, f), key)
    ensures KeepFirst(FlatMap([Merged(es)] + es', f), key) == KeepFirst(FlatMap(es + es', f), key)
  {
    FlatMapAppend([Merged(es)], es', f);
    FlatMapSingle(Merged(es), f);
    FlatMapAppend(es, es', f);
    KeepFirstNested(FlatMap(es, f), FlatMap(es', f), key);
  }

  /** Merging is incremental: merging a merge with further sets equals merging them all. */
  lemma MergeIsIncremental(es: seq<ExtractedEntities>, es': seq<ExtractedEntities>)
    ensures Merged([Merged(es)] + es') == Merged(es + es')
  {
    var m := Merged(es);
    CategoryIncremental(es, es', TaxTypesOf, TaxTypeKey);
    CategoryIncremental(es, es', RatesOf, RateName);
    CategoryIncremental(es, es', ThresholdsOf, ThresholdName);
    CategoryIncremental(es, es', DeadlinesOf, DeadlineName);
    CategoryIncremental(es, es', RulesOf, RuleId);
    FlatMapAppend([m], es', BracketsOf);
    FlatMapSingle(m, BracketsOf);
    FlatMapAppend(es, es', BracketsOf);
    MergedExtrasIncremental(es, m, es');
  }

  /** The extras half of MergeIsIncremental, for any set m whose extras are those of es. */
  lemma {:induction false} MergedExtrasIncremental(es: seq<ExtractedEntities>, m: ExtractedEntities,
                                                   es': seq<ExtractedEntities>)
    requires m.rawExtractions == MergedExtras(es)
    ensures MergedExtras([m] + es') == MergedExtras(es + es')
  {
    if |es'| == 0 {
      assert [m] + es' == [m] && es + es' == es;
      MergedExtrasSnoc([], m);
      AbsorbIntoEmpty(MergedExtras(es));
    } else {
      var p, e := es'[..|es'| - 1], es'[|es'| - 1];
      MergedExtrasIncremental(es, m, p);
      assert [m] + es' == ([m] + p) + [e];
      assert es + es' == (es + p) + [e];
      MergedExtrasSnoc([m] + p, e);
      MergedExtrasSnoc(es + p, e);
    }
  }

  lemma MergedExtrasSnoc(es: seq<ExtractedEntities>, e: ExtractedEntities)
    ensures MergedExtras(es + [e]) == AbsorbExtras(MergedExtras(es), e.rawExtractions)
  {
    assert (es + [e])[..|es|] == es;
  }

  // ---------------------------------------------------------------- extras, key by key

  /** Index of the first entity set whose extras hold key k, if any. */
  function FirstHolder(es: seq<ExtractedEntities>, k: string): (r: Option<nat>)
    ensures r.None? ==> forall j :: 0 <= j < |es| ==> k !in es[j].rawExtractions
    ensures r.Some? ==> (r.value < |es| && k in es[r.value].rawExtractions &&
      forall j :: 0 <= j < r.value ==> k !in es[j].rawExtractions)
  {
    if |es| == 0 then None
    else
      var p := es[..|es| - 1];
      match FirstHolder(p, k)
      case Some(i) => assert es[i] == p[i]; Some(i)
      case None =>
        assert forall j :: 0 <= j < |p| ==> es[j] == p[j];
        if k in es[|es| - 1].rawExtractions then Some(|es| - 1) else None
  }

  /** The list items every entity set holds under key k. */
  function ListItems(es: seq<ExtractedEntities>, k: string): seq<Json> {
    if |es| == 0 then []
    else
      var e := es[|es| - 1];
      ListItems(es[..|es| - 1], k) + ItemsUnder(e, k)
  }

  function ItemsUnder(e: ExtractedEntities, k: string): seq<Json> {
    if k in e.rawExtractions && e.rawExtractions[k].JArr? then e.rawExtractions[k].items else []
  }

  /** The merged extra for k, stated directly: absent when no set has k; otherwise the first
      value, to which, when it is a list, the items of every later list are appended in order. */
  function ExtraFor(es: seq<ExtractedEntities>, k: string): Option<Json> {
    match FirstHolder(es, k)
    case None => None
    case Some(i) => Some(ExtraFrom(es, k, i))
  }

  /** The merged extra for k when set i is the first to hold it. */
  function ExtraFrom(es: seq<ExtractedEntities>, k: string, i: nat): Json
    requires i < |es| && k in es[i].rawExtractions
  {
    var first := es[i].rawExtractions[k];
    if first.JArr? then JArr(first.items + ListItems(es[i + 1..], k)) else first
  }

  lemma FirstHolderSnoc(p: seq<ExtractedEntities>, e: ExtractedEntities, k: string)
    ensures FirstHolder(p + [e], k) ==
      match FirstHolder(p, k)
      case Some(i) => Some(i)
      case None => if k in e.rawExtractions then Some(|p|) else None
  {
    assert (p + [e])[..|p|] == p;
  }

  lemma ListItemsSnoc(es: seq<ExtractedEntities>, e: ExtractedEntities, k: string)
    ensures ListItems(es + [e], k) == ListItems(es, k) + ItemsUnder(e, k)
  {
    assert (es + [e])[..|es|] == es;
  }

  /** Adding one more set, stated on ExtraFor: the step the extras loop takes for key k. */
  lemma ExtraForSnoc(p: seq<ExtractedEntities>, e: ExtractedEntities, k: string)
    ensures ExtraFor(p + [e], k) ==
      match ExtraFor(p, k)
      case None => if k in e.rawExtractions then Some(e.rawExtractions[k]) else None
      case Some(v) => Some(if k in e.rawExtractions then Combine(v, e.rawExtractions[k]) else v)
  {
    FirstHolderSnoc(p, e, k);
    if FirstHolder(p, k).None? {
      ExtraForFirstHolder(p, e, k);
    } else {
      ExtraForLaterHolder(p, e, k, FirstHolder(p, k).value);
    }
  }

  lemma ExtraForFirstHolder(p: seq<ExtractedEntities>, e: ExtractedEntities, k: string)
    requires FirstHolder(p, k).None?
    ensures ExtraFor(p + [e], k) == if k in e.rawExtractions then Some(e.rawExtractions[k]) else None
  {
    var es := p + [e];
    FirstHolderSnoc(p, e, k);
    if k in e.rawExtractions {
      assert es[|p|] == e && es[|p| + 1..] == [];
      var v := e.rawExtractions[k];
      assert v.JArr? ==> v.items + [] == v.items;
    }
  }

  lemma ExtraForLaterHolder(p: seq<ExtractedEntities>, e: ExtractedEntities, k: string, i: nat)
    requires FirstHolder(p, k) == Some(i)
    ensures var v := ExtraFor(p, k).value;
      ExtraFor(p + [e], k) == Some(if k in e.rawExtractions then Combine(v, e.rawExtractions[k]) else v)
  {
    FirstHolderSnoc(p, e, k);
    ExtraFromSnoc(p, e, k, i);
  }

  lemma ExtraFromSnoc(p: seq<ExtractedEntities>, e: ExtractedEntities, k: string, i: nat)
    requires i < |p| && k in p[i].rawExtractions
    ensures var v := ExtraFrom(p, k, i);
      ExtraFrom(p + [e], k, i) == if k in e.rawExtractions then Combine(v, e.rawExtractions[k]) else v
  {
    var es := p + [e];
    assert es[i] == p[i];
    assert es[i + 1..] == p[i + 1..] + [e];
    ListItemsSnoc(p[i + 1..], e, k);
    CombineTail(p[i].rawExtractions[k], ListItems(p[i + 1..], k),
      if k in e.rawExtractions then Some(e.rawExtractions[k]) else None);
  }

  /** Appending one more list's items to a merged value is combining with that list. */
  lemma CombineTail(first: Json, later: seq<Json>, x: Option<Json>)
    ensures var v := if first.JArr? then JArr(first.items + later) else first;
      var added := if x.Some? && x.value.JArr? then x.value.items else [];
      (if first.JArr? then JArr(first.items + (later + added)) else first) ==
        (if x.Some? then Combine(v, x.value) else v)
  {
    if first.JArr? {
      var added := if x.Some? && x.value.JArr? then x.value.items else [];
      assert first.items + (later + added) == (first.items + later) + added;
      assert (first.items + later) + [] == first.items + later;
    }
  }

  /** The merged extras agree, key by key, with the direct statement. */
  lemma {:induction false} MergedExtrasPerKey(es: seq<ExtractedEntities>, k: string)
    ensures (k in MergedExtras(es)) == ExtraFor(es, k).Some?
    ensures k in MergedExtras(es) ==> MergedExtras(es)[k] == ExtraFor(es, k).value
  {
    if |es| > 0 {
      var p, e := es[..|es| - 1], es[|es| - 1];
      assert es == p + [e];
      MergedExtrasPerKey(p, k);
      ExtraForSnoc(p, e, k);
    }
  }

  /** When the first set has key k (as every parsed set has "summary", "confidence_score" and
      "warnings"), the merged value is the first set's value, extended by later lists when it
      is itself a list. */
  lemma FirstSetExtrasWin(es: seq<ExtractedEntities>, k: string)
    requires |es| > 0 && k in es[0].rawExtractions
    ensures k in MergedExtras(es)
    ensures var first := es[0].rawExtractions[k];
      MergedExtras(es)[k] == if first.JArr? then JArr(first.items + ListItems(es[1..], k)) else first
  {
    MergedExtrasPerKey(es, k);
    assert FirstHolder(es, k) == Some(0);
    assert ExtraFor(es, k) == Some(ExtraFrom(es, k, 0));
  }
}
