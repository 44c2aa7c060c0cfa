/**
 * The response mappers of the output generator: each turns the model's reply, already parsed
 * into a dict, into an output record, taking every missing field from a fixed default. A field
 * of the wrong type makes the record's validation fail. The clock readings the defaults use
 * are parameters.
 */
module OutputGenerator {
  import opened Wrappers
  import opened Seqs
  import opened Strings
  import opened Json
  import opened Schemas

  datatype OutputError =
    | NotADict        // the reply is not a dict, so it has no `get`
    | ValidationError // a field does not have its declared type

  /** `response.get(key, default)` for a `str` field. */
  function StrField(fields: seq<(string, Json)>, key: string, default: string): (r: Option<string>)
    ensures key !in KeySet(fields, FieldKey) ==> r == Some(default)
    ensures key in KeySet(fields, FieldKey) ==>
      (r.Some? <==> Lookup(fields, key).value.JStr?) && (r.Some? ==> r.value == Lookup(fields, key).value.s)
  {
    AsStr(Get(fields, key, JStr(default)))
  }

  /** `response.get(key, default)` for a `List[str]` field. */
  function StrListField(fields: seq<(string, Json)>, key: string, default: seq<string>): (r: Option<seq<string>>)
    ensures key !in KeySet(fields, FieldKey) ==> r == Some(default)
    ensures key in KeySet(fields, FieldKey) ==> r == AsStrList(Lookup(fields, key).value)
  {
    if key in KeySet(fields, FieldKey) then AsStrList(Lookup(fields, key).value) else Some(default)
  }

  /** `response.get(key, default)` for a `List[Dict[str, Any]]` field. */
  function ObjectListField(fields: seq<(string, Json)>, key: string, default: seq<Json>): (r: Option<seq<Json>>)
    ensures key !in KeySet(fields, FieldKey) ==> r == Some(default)
    ensures key in KeySet(fields, FieldKey) ==> r == AsObjectList(Lookup(fields, key).value)
  {
    if key in KeySet(fields, FieldKey) then AsObjectList(Lookup(fields, key).value) else Some(default)
  }

  /** `response.get(key, default)` for a `Dict[str, Any]` field. */
  function ObjectField(fields: seq<(string, Json)>, key: string, default: Json): (r: Option<Json>)
    requires default.JObj?
    ensures key !in KeySet(fields, FieldKey) ==> r == Some(default)
    ensures key in KeySet(fields, FieldKey) ==> r == AsObject(Lookup(fields, key).value)
  {
    AsObject(Get(fields, key, default))
  }

  // ---------------------------------------------------------------- _parse_json_config

  /** The first extracted tax type, VAT when there is none. */
  function ConfigTaxType(e: ExtractedEntities): TaxType {
    if |e.taxTypes| > 0 then e.taxTypes[0] else VAT
  }

  /** `_parse_json_config`; `generatedAt` is the ISO timestamp of the metadata default. */
  function ParseJsonConfig(response: Json, country: string, countryName: string, e: ExtractedEntities,
                           generatedAt: string): (r: Result<JsonConfig, OutputError>)
    ensures r.Success? ==>
      (r.value.country == country && r.value.countryName == countryName &&
       r.value.effectiveDate.None? && r.value.taxType == ConfigTaxType(e))
    ensures !response.JObj? ==> r == Failure(NotADict)
    ensures response.JObj? ==>
      var f := response.fields;
      var version, currency := StrField(f, "version", "1.0"), StrField(f, "currency", "USD");
      var rules := ObjectListField(f, "rules", []);
      var metadata := ObjectField(f, "metadata", JObj([("generated_at", JStr(generatedAt))]));
      (r.Success? <==> version.Some? && currency.Some? && rules.Some? && metadata.Some?) &&
      (r.Failure? ==> r.error == ValidationError) &&
      (r.Success? ==> r.value.version == version.value && r.value.currency == currency.value &&
                      r.value.rules == rules.value && r.value.metadata == metadata.value)
  {
    if !response.JObj? then Failure(NotADict)
    else
      var f := response.fields;
      match (StrField(f, "version", "1.0"), StrField(f, "currency", "USD"), ObjectListField(f, "rules", []),
             ObjectField(f, "metadata", JObj([("generated_at", JStr(generatedAt))])))
      case (Some(version), Some(currency), Some(rules), Some(metadata)) =>
        Success(JsonConfig(version, country, countryName, ConfigTaxType(e), None, currency, rules, metadata))
      case _ => Failure(ValidationError)
  }

  /** An empty reply gives version 1.0, USD, no rules and a generated-at stamp; country,
      country name, tax type and effective date never come from the reply. */
  lemma JsonConfigDefaults(country: string, countryName: string, e: ExtractedEntities, at: string)
    ensures ParseJsonConfig(JObj([]), country, countryName, e, at) ==
      Success(JsonConfig("1.0", country, countryName, ConfigTaxType(e), None, "USD", [],
                         JObj([("generated_at", JStr(at))])))
  {
  }

  /** The tax type is the first extracted one, and VAT exactly when none was extracted or the
      first was VAT. */
  lemma ConfigTaxTypeIsFirst(e: ExtractedEntities)
    ensures ConfigTaxType(e) == VAT <==> |e.taxTypes| == 0 || e.taxTypes[0] == VAT
    ensures |e.taxTypes| > 0 ==> ConfigTaxType(e) in e.taxTypes
  {
  }

  /** A reply carrying a string version and currency, a list of dicts as rules and a dict as
      metadata is accepted, and all four are taken over as they are. */
  lemma JsonConfigTakesReply(fields: seq<(string, Json)>, country: string, countryName: string,
                             e: ExtractedEntities, at: string, version: string, currency: string,
                             rules: seq<Json>, metadata: seq<(string, Json)>)
    requires Lookup(fields, "version") == Some(JStr(version))
    requires Lookup(fields, "currency") == Some(JStr(currency))
    requires Lookup(fields, "rules") == Some(JArr(rules)) && forall i :: 0 <= i < |rules| ==> rules[i].JObj?
    requires Lookup(fields, "metadata") == Some(JObj(metadata))
    ensures ParseJsonConfig(JObj(fields), country, countryName, e, at) ==
      Success(JsonConfig(version, country, countryName, ConfigTaxType(e), None, currency, rules, JObj(metadata)))
  {
  }

  /** A version that is not a string fails validation. */
  lemma JsonConfigRejectsBadVersion(fields: seq<(string, Json)>, country: string, countryName: string,
                                    e: ExtractedEntities, at: string)
    requires Lookup(fields, "version").Some? && !Lookup(fields, "version").value.JStr?
    ensures ParseJsonConfig(JObj(fields), country, countryName, e, at) == Failure(ValidationError)
  {
  }

  // ---------------------------------------------------------------- _parse_sql_migration

  /** `_parse_sql_migration`; `timestamp` is the `%Y%m%d%H%M%S` reading of the clock. */
  function ParseSqlMigration(response: Json, timestamp: string): (r: Result<SqlMigration, OutputError>)
    ensures !response.JObj? ==> r == Failure(NotADict)
    ensures response.JObj? ==>
      var f := response.fields;
      var name := StrField(f, "migration_name", "migration_" + timestamp);
      var up := StrField(f, "up_script", "-- No migration generated");
      var down := StrField(f, "down_script", "-- No rollback generated");
      var tables := StrListField(f, "tables_affected", []);
      var description := StrField(f, "description", "Auto-generated migration");
      (r.Success? <==> name.Some? && up.Some? && down.Some? && tables.Some? && description.Some?) &&
      (r.Failure? ==> r.error == ValidationError) &&
      (r.Success? ==> r.value == SqlMigration(name.value, up.value, down.value, tables.value, description.value))
  {
    if !response.JObj? then Failure(NotADict)
    else
      var f := response.fields;
      match (StrField(f, "migration_name", "migration_" + timestamp),
             StrField(f, "up_script", "-- No migration generated"),
             StrField(f, "down_script", "-- No rollback generated"),
             StrListField(f, "tables_affected", []),
             StrField(f, "description", "Auto-generated migration"))
      case (Some(name), Some(up), Some(down), Some(tables), Some(description)) =>
        Success(SqlMigration(name, up, down, tables, description))
      case _ => Failure(ValidationError)
  }

  lemma SqlMigrationDefaults(timestamp: string)
    ensures ParseSqlMigration(JObj([]), timestamp) ==
      Success(SqlMigration("migration_" + timestamp, "-- No migration generated", "-- No rollback generated",
                           [], "Auto-generated migration"))
  {
  }

  /** The migration is accepted exactly when every field the reply carries has its type. */
  lemma SqlMigrationAccepted(fields: seq<(string, Json)>, timestamp: string)
    ensures ParseSqlMigration(JObj(fields), timestamp).Success? <==>
      StrField(fields, "migration_name", "").Some? && StrField(fields, "up_script", "").Some? &&
      StrField(fields, "down_script", "").Some? && StrListField(fields, "tables_affected", []).Some? &&
      StrField(fields, "description", "").Some?
  {
  }

  // ---------------------------------------------------------------- _parse_policy_definition

  function ParsePolicyDefinition(response: Json): (r: Result<PolicyDefinition, OutputError>)
    ensures !response.JObj? ==> r == Failure(NotADict)
    ensures response.JObj? ==>
      var f := response.fields;
      var name, version := StrField(f, "policy_name", "tax_policy"), StrField(f, "version", "1.0");
      var description := StrField(f, "description", "Auto-generated policy");
      var rules, metadata := ObjectListField(f, "rules", []), ObjectField(f, "metadata", JObj([]));
      (r.Success? <==> name.Some? && version.Some? && description.Some? && rules.Some? && metadata.Some?) &&
      (r.Failure? ==> r.error == ValidationError) &&
      (r.Success? ==> r.value == PolicyDefinition(name.value, version.value, description.value, rules.value,
                                                  metadata.value))
  {
    if !response.JObj? then Failure(NotADict)
    else
      var f := response.fields;
      match (StrField(f, "policy_name", "tax_policy"), StrField(f, "version", "1.0"),
             StrField(f, "description", "Auto-generated policy"), ObjectListField(f, "rules", []),
             ObjectField(f, "metadata", JObj([])))
      case (Some(name), Some(version), Some(description), Some(rules), Some(metadata)) =>
        Success(PolicyDefinition(name, version, description, rules, metadata))
      case _ => Failure(ValidationError)
  }

  lemma PolicyDefinitionDefaults()
    ensures ParsePolicyDefinition(JObj([])) ==
      Success(PolicyDefinition("tax_policy", "1.0", "Auto-generated policy", [], JObj([])))
  {
  }

  /** Rules are accepted only as a list of dicts. */
  lemma PolicyRulesMustBeDicts(fields: seq<(string, Json)>)
    requires ParsePolicyDefinition(JObj(fields)).Success?
    ensures var rules := ParsePolicyDefinition(JObj(fields)).value.rules;
      forall i :: 0 <= i < |rules| ==> rules[i].JObj?
    ensures "rules" in KeySet(fields, FieldKey) ==>
      ParsePolicyDefinition(JObj(fields)).value.rules == Lookup(fields, "rules").value.items
  {
  }

  // ---------------------------------------------------------------- _parse_generated_code

  /** The default file name for a country's calculator. */
  function DefaultFilename(country: string): string { "tax_calculator_" + Lower(country) + ".py" }

  function ParseGeneratedCode(response: Json, country: string): (r: Result<GeneratedCode, OutputError>)
    ensures r.Success? ==> r.value.language == "python"
    ensures !response.JObj? ==> r == Failure(NotADict)
    ensures response.JObj? ==>
      var f := response.fields;
      var filename := StrField(f, "filename", DefaultFilename(country));
      var code := StrField(f, "code", "# No code generated");
      var description := StrField(f, "description", "Auto-generated tax calculator");
      var dependencies := StrListField(f, "dependencies", []);
      (r.Success? <==> filename.Some? && code.Some? && description.Some? && dependencies.Some?) &&
      (r.Failure? ==> r.error == ValidationError) &&
      (r.Success? ==> r.value == GeneratedCode("python", filename.value, code.value, description.value,
                                               dependencies.value))
  {
    if !response.JObj? then Failure(NotADict)
    else
      var f := response.fields;
      match (StrField(f, "filename", DefaultFilename(country)), StrField(f, "code", "# No code generated"),
             StrField(f, "description", "Auto-generated tax calculator"), StrListField(f, "dependencies", []))
      case (Some(filename), Some(code), Some(description), Some(dependencies)) =>
        Success(GeneratedCode("python", filename, code, description, dependencies))
      case _ => Failure(ValidationError)
  }

  lemma GeneratedCodeDefaults(country: string)
    ensures ParseGeneratedCode(JObj([]), country) ==
      Success(GeneratedCode("python", DefaultFilename(country), "# No code generated",
                            "Auto-generated tax calculator", []))
  {
  }

  /** A "language" key in the reply is ignored: adding one changes nothing. */
  lemma LanguageAlwaysPython(fields: seq<(string, Json)>, country: string, language: Json)
    ensures ParseGeneratedCode(JObj(fields + [("language", language)]), country) ==
      ParseGeneratedCode(JObj(fields), country)
  {
    var longer := fields + [("language", language)];
    forall key | key != "language"
      ensures (key in KeySet(longer, FieldKey) <==> key in KeySet(fields, FieldKey))
      ensures Lookup(longer, key) == Lookup(fields, key)
    {
      KeySetSnoc(fields, ("language", language), FieldKey);
      assert longer[..|fields|] == fields;
    }
  }

  /** The default file name is the same for a country code in any case. */
  lemma DefaultFilenameIgnoresCase(country: string)
    ensures DefaultFilename(country) == DefaultFilename(Lower(country))
  {
    assert Lower(Lower(country)) == Lower(country);
  }
}
