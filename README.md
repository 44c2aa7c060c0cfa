# Tax-code translator: a Dafny model of its deterministic core

The tax-code translator turns a tax or compliance document into machine-readable artefacts:
a JSON configuration, SQL migrations, a rules-engine policy and Python code. A language model
does the reading. Around that model the service does deterministic work, and that work is
modelled and proved here:

- **Document intake** (`DocumentParser`). The file-extension gate and the metadata of
  `parse`, the text clean-up `clean_text`, and the marker-word language guess
  `detect_language`.
- **AI client helpers** (`AiProcessor`):
  - `chunk_text`, with its token loop and its character-slicing fallback;
  - the `estimate_tokens` fallback;
  - JSON recovery: `_extract_json` and `process_with_json_response`;
  - the country-name table;
  - the keyword dispatch of the mock client.
- **Entity handling** (`EntityParser`, `EntityMerger`, `EntityValidator`, `EntityExtractor`):
  - parsing the model's reply into typed tax records, dropping each bad record on its own;
  - the date parser;
  - the merge of per-chunk results;
  - the validation warnings;
  - the chunk loop of `extract_from_chunks`.
- **Data model** (`Schemas`). The tax-type enumeration and the record types. The constructor
  constraints are subset-style checks: a rate must lie in [0, 1] and a bracket minimum must be
  non-negative.
- **Output mappers** (`OutputGenerator`). From the model's reply to the output records, with
  every missing field taking its default.

Supporting modules:
- `Wrappers` provides `Option` and `Result`.
- `Json` is the Python value `json.loads` returns. A dict is a list of key/value pairs with
  dict semantics: a lookup sees the last pair with a key, and iteration visits each key once,
  at its first position.
- `Strings` models the Python string operations the code uses: `strip`, `split`, `join`,
  `lower`, `upper` and `in`.
- `Seqs` provides first-occurrence deduplication, flat-map and filter-map, with their lemmas.

Several things are parameters of the model, because they are library calls or clocks:
- the language-model call (`extract` in `EntityExtractor`);
- `json.loads` (`parse`);
- the tokenizer (`Tokenizer`, or `None` when tiktoken is unavailable);
- Python's `float(str)` (`numeral`) and `str(float)` (`floatRepr`);
- the document decoders (`Decoders`);
- the `utcnow()` timestamps (`generatedAt`, `timestamp`).

Where the code works step by step, the model has loops as methods. Each method is proved
equal to a specification function, and the properties are proved about that function. The
methods are:
- the category loops of the response parser;
- the per-chunk merge loop and its nested append loops;
- the set loop over the extras map;
- the warning loops;
- the chunk loop;
- the token and slicing loops of `chunk_text`;
- the candidate loop of `_extract_json`;
- the score loop of `detect_language`.

Behaviour of the code worth noting, which the model keeps:
- **Tax types are not stripped.** A tax type is only upper-cased, so `"vat "` becomes OTHER
  (`EntityParser.TrailingSpaceVatIsOther`).
- **JSON recovery takes one greedy span.** The regular expression yields one candidate, from
  the first `{` to the last `}` after it. Balanced spans are not scanned
  (`AiProcessor.MatchIsWidestSpan`).
- **Out-of-range rates are dropped, not warned about.** Such a rate fails record construction,
  so it never reaches the validator (`EntityParser.RateRangeDecides`,
  `EntityValidator.NoNegativeRateWarnings`).
- **Only top-level rates are validated.** The validator checks `entities.rates`; rule rates
  are not checked.
- **The bracket check tests the maximum for truthiness.** A maximum of zero is never flagged.
  The validation loop keeps that test (`EntityValidator.CheckBrackets`); the corrected test is
  a separate reference definition (see Findings).

The mock client tests "extract" first. The system prompts for the JSON config, the SQL
migration and the code all contain the word "extract" (backend/prompts/templates.py lines 94,
138 and 214), so the mock answers all three with its extraction payload
(`AiProcessor.ExtractWinsOverOthers`).

## Model

| member | source | states |
|---|---|---|
| Schemas.FromValue | backend/models/schemas.py:11-22 | The enum lookup by value returns member t exactly when t's value is the given string; for any other string it fails. |
| Schemas.TaxTypeIsClosed | backend/models/schemas.py:11-22 | There are exactly ten tax types; the table lists every one; their values are pairwise distinct; each value is a non-empty upper-case word. |
| Schemas.NewTaxRate | backend/models/schemas.py:63-69 | A rate record can be built exactly when 0 <= rate <= 1, and then it holds the given fields unchanged. |
| Schemas.NewTaxBracket | backend/models/schemas.py:72-77 | A bracket can be built exactly when min_amount >= 0 and 0 <= rate <= 1; an absent maximum is allowed (unbounded). |
| Schemas.NoEntities | backend/models/schemas.py:112-120 | The default entity set has all six lists empty and an empty extras map. |
| Schemas.NewConfidence | backend/models/schemas.py:184 | A confidence score is accepted exactly when it lies in [0, 1]. |
| Schemas.AsStrList | backend/models/schemas.py:68-69 | A `List[str]` field accepts exactly a list all of whose items are strings. |
| Schemas.AsOptFloat | backend/models/schemas.py:75-77 | An `Optional[float]` field gives None exactly for null, keeps a number as it is, and rejects lists and dicts. |
| Schemas.AsOptInt | backend/models/schemas.py:94 | An `Optional[int]` field maps null to None; it accepts a number exactly when the number is integral; any integer it yields comes from that number or from a boolean. |
| Schemas.AsObjectList | backend/models/schemas.py:133 | A `List[Dict]` field accepts exactly a list of dicts, and keeps it as it is. |
| Schemas.FormatIso | backend/services/entity_extractor.py:212 | A calendar date renders as ten characters with dashes at positions 4 and 7. |
| Schemas.ParseFormatIso | backend/services/entity_extractor.py:212 | Parsing the YYYY-MM-DD rendering of any calendar date gives that date back. |
| Schemas.FormatParseIso | backend/services/entity_extractor.py:212 | Every string the date parser accepts is the canonical rendering of the date it yields, so only the ten-character form is accepted. |
| EntityParser.ParseTaxType | backend/services/entity_extractor.py:92-96 | A result other than OTHER is the member whose value is the upper-cased string. |
| EntityParser.ParseTaxTypeExact | backend/services/entity_extractor.py:92 | A string whose upper-case form is a member's value yields that member. |
| EntityParser.ParseTaxTypeOfValue | backend/services/entity_extractor.py:92 | Every member's value, and also its lower-case form, yields that member back. |
| EntityParser.ParseTaxTypeDoesNotStrip | backend/services/entity_extractor.py:92 | Adding any whitespace character before or after a string makes it OTHER. |
| EntityParser.TrailingSpaceVatIsOther | backend/services/entity_extractor.py:92 | "vat " yields OTHER, not VAT. |
| EntityParser.ParseTaxTypesPointwise | backend/services/entity_extractor.py:89-96 | The tax-type list parses exactly when every entry is a string (otherwise `upper` raises and is not caught); it then has one entry per raw entry, each the parse of that entry. |
| EntityParser.CollectTaxTypes | backend/services/entity_extractor.py:89-96 | The tax-type loop returns the pointwise parse, or nothing when an entry is not a string. |
| EntityParser.PyFloat | backend/services/entity_extractor.py:104 | `float()` keeps a number, maps booleans to 1.0 or 0.0, and reads a string with the numeral reader; it fails on null, lists and dicts. |
| EntityParser.ParseDate | backend/services/entity_extractor.py:198-215 | The date parser raises only for a truthy value that is not a string (`lower` is missing); every string and every falsy value yields a date or None. |
| EntityParser.ParseDateOfString | backend/services/entity_extractor.py:208-215 | On a string the date parser never raises, and it returns date d exactly when the string is d's YYYY-MM-DD form. |
| EntityParser.ParseDateNoDate | backend/services/entity_extractor.py:208-209 | Null, the empty string and "null" in any case give None. |
| EntityParser.ParseRate | backend/services/entity_extractor.py:99-111 | A non-dict entry is dropped; an accepted rate has the name field (default "unknown") and the `float()` of the rate field (default 0). |
| EntityParser.RateKept | backend/services/entity_extractor.py:99-111 | A dict entry is kept exactly when the name is a string, the rate converts with `float()` and lies in [0, 1], the description is null or a string, and conditions and exemptions are lists of strings; the kept rate holds those values, an absent field at its default. |
| EntityParser.ParseBracket | backend/services/entity_extractor.py:113-125 | A non-dict entry is dropped; an accepted bracket has the `float()` of min_amount and of rate (default 0 each). |
| EntityParser.BracketKept | backend/services/entity_extractor.py:113-125 | A dict entry is kept exactly when min_amount and rate convert with `float()`, max_amount and fixed_amount are null or convert, min_amount >= 0 and rate is in [0, 1]; the kept bracket holds those four values. |
| EntityParser.ParseThreshold | backend/services/entity_extractor.py:127-140 | A non-dict entry is dropped; an accepted threshold has the currency field (default "USD") and the date parse of effective_date. |
| EntityParser.ThresholdKept | backend/services/entity_extractor.py:127-140 | A dict entry is kept exactly when name (default "unknown") and currency (default "USD") are strings, amount (default 0) converts with `float()`, the description is null or a string and the date parser does not raise; the kept threshold holds those values. |
| EntityParser.ParseDeadline | backend/services/entity_extractor.py:142-155 | A non-dict entry is dropped; an accepted deadline has deadline_type (default "filing") and frequency (default "annually"). |
| EntityParser.DeadlineKept | backend/services/entity_extractor.py:142-155 | A dict entry is kept exactly when name (default "unknown"), deadline_type and frequency are strings, day_of_period is null or a whole number, and the description is null or a string; the kept deadline holds those values. |
| EntityParser.ParseRule | backend/services/entity_extractor.py:157-182 | A non-dict entry is dropped; an accepted rule has the id field (default `rule_k`, k the rules accepted so far); its tax type is the parse of a string tax_type (default "OTHER"); its brackets are None. |
| EntityParser.RuleKept | backend/services/entity_extractor.py:157-182 | A dict entry is kept exactly when tax_type, id, name (default "unknown") and description (default "") are strings, conditions is a list of strings, the rate is null or converts, neither date raises and source_reference is null or a string; the kept rule holds those values, its tax type parsed and no brackets. |
| EntityParser.SyntheticRuleIdsDiffer | backend/services/entity_extractor.py:169 | Different counts give different synthetic rule ids. |
| EntityParser.ParseRulesSnoc | backend/services/entity_extractor.py:157-182 | Each rule entry is parsed with the number of rules accepted before it; it is appended when accepted and skipped otherwise. |
| EntityParser.DefaultRuleIdCountsAccepted | backend/services/entity_extractor.py:169 | An empty rule dict appended after any entries becomes `rule_k`, where k counts accepted rules, not raw positions, with every other field at its default. |
| EntityParser.FailedRuleIsSkipped | backend/services/entity_extractor.py:181-182 | A rule entry that fails leaves the parsed rules unchanged. |
| EntityParser.CategoryItems | backend/services/entity_extractor.py:100 | A missing category is an empty list; the only error is a category value that cannot be iterated. |
| EntityParser.RawExtractions | backend/services/entity_extractor.py:191-195 | The extras of a parsed set always have exactly the keys summary, confidence_score and warnings. |
| EntityParser.ExtractionFrom | backend/services/entity_extractor.py:78-196 | A reply that is not a dict is an error; a parsed set always carries exactly the three extras keys. |
| EntityParser.EmptyResponseDefaults | backend/services/entity_extractor.py:184-196 | An empty reply gives no records and the extras "", 0.0 and []. |
| EntityParser.RecordDefaults | backend/services/entity_extractor.py:99-155 | An empty dict yields a rate, bracket, threshold and deadline with every field at its default. |
| EntityParser.RateRangeDecides | backend/services/entity_extractor.py:102-111 | A rate entry with a numeric rate x is kept exactly when 0 <= x <= 1. |
| EntityParser.RecordsDroppedIndependently | backend/services/entity_extractor.py:99-155 | The parsed rates, brackets, thresholds and deadlines of a concatenation are the concatenation of the parts: each record is kept or dropped on its own. |
| EntityParser.CollectParsed | backend/services/entity_extractor.py:99-155 | Each category's try/skip loop yields the entries that parse, in order. |
| EntityParser.CollectRules | backend/services/entity_extractor.py:157-182 | The rule loop yields the rule-list specification, with the synthetic ids counting accepted rules. |
| EntityParser.ParseExtractionResponse | backend/services/entity_extractor.py:78-196 | The whole reply parse (the loops in source order) yields the specification's entity set or its error. |
| EntityMerger.Combine | backend/services/entity_extractor.py:319-321 | A later extra for a present key appends list to list and otherwise leaves the earlier value. |
| EntityMerger.AbsorbExtras | backend/services/entity_extractor.py:316-321 | Absorbing a chunk's extras gives exactly the union of both key sets. |
| EntityMerger.AbsorbExtrasLoop | backend/services/entity_extractor.py:316-321 | The loop over a chunk's extras produces the absorbed map, whatever order it visits the keys in. |
| EntityMerger.AppendUnseen | backend/services/entity_extractor.py:283-313 | The append-if-unseen loop leaves the first-occurrence deduplication of everything so far, and the set of keys seen so far. |
| EntityMerger.MergeStep | backend/services/entity_extractor.py:281-321 | One chunk's pass takes the merge of a prefix, with its seen sets, to the merge of the prefix plus that chunk. |
| EntityMerger.MergeEntities | backend/services/entity_extractor.py:255-323 | The merge loop yields the merge specification of the whole list. |
| EntityMerger.MergeOfNone | backend/services/entity_extractor.py:265-273 | Merging no chunks gives the empty entity set. |
| EntityMerger.MergedTaxTypesFirstSeen | backend/services/entity_extractor.py:283-286 | The merged tax types are exactly those of all chunks, each once, in order of first appearance. |
| EntityMerger.MergedRatesFirstWins | backend/services/entity_extractor.py:289-292 | The merged rates cover exactly the rate names of all chunks, once each; each kept rate is the first rate with its name; the kept rates are in first-seen order. |
| EntityMerger.MergedByKeyFirstWins | backend/services/entity_extractor.py:297-313 | Each merged threshold, deadline (by name) and rule (by id) is the first record with its key across all chunks. |
| EntityMerger.MergedBracketsAll | backend/services/entity_extractor.py:295 | Merged brackets are all brackets in order: their count is the sum of the inputs', and the merge of a concatenation concatenates. |
| EntityMerger.MergeOfOne | backend/services/entity_extractor.py:265-323 | Merging a single set with no repeated tax type, name or id reproduces it. |
| EntityMerger.MergeIsIncremental | backend/services/entity_extractor.py:281-321 | Merging the merge of a prefix with the remaining chunks equals merging all chunks. |
| EntityMerger.MergedExtrasIncremental | backend/services/entity_extractor.py:316-321 | The extras merge can start from any set whose extras are the merged extras of a prefix. |
| EntityMerger.FirstHolder | backend/services/entity_extractor.py:316-318 | Names the first chunk holding a key, with no earlier chunk holding it, or reports that no chunk holds it. |
| EntityMerger.ExtraForSnoc | backend/services/entity_extractor.py:316-321 | Adding a chunk changes a key's merged extra exactly as the loop body does: it is set when absent and combined when present. |
| EntityMerger.MergedExtrasPerKey | backend/services/entity_extractor.py:316-321 | A key is in the merged extras exactly when some chunk has it. Its value is the first holder's value. When that value is a list, the list items of every later chunk's list under the key are appended, in order. |
| EntityMerger.FirstSetExtrasWin | backend/services/entity_extractor.py:191-195 | Every key of the first chunk's extras (summary, confidence_score, warnings) keeps the first chunk's value, with later lists appended when that value is a list. |
| EntityValidator.ValidateEntities | backend/services/entity_extractor.py:335-359 | The validation loops yield, in order: the rate warnings, the bracket warnings with the truthiness test of line 346, the rule warnings, then the duplicate-name warning. |
| EntityValidator.CheckRates | backend/services/entity_extractor.py:338-342 | Per rate in order: a high-rate warning if above 0.5, then a negative-rate warning if below 0. |
| EntityValidator.CheckBrackets | backend/services/entity_extractor.py:345-347 | One warning for each position whose maximum is present, non-zero and below the minimum, in order. |
| EntityValidator.CheckRules | backend/services/entity_extractor.py:350-352 | One warning for each rule with an empty description, in order. |
| EntityValidator.HighRateReported | backend/services/entity_extractor.py:339-340 | A high-rate warning for (name, rate) appears exactly when some rate record has that name and rate, and the rate exceeds 0.5. |
| EntityValidator.NoNegativeRateWarnings | backend/services/entity_extractor.py:341-342 | No negative-rate warning is ever produced, since rate records are constrained to [0, 1]. |
| EntityValidator.InvalidBracketReported | backend/services/entity_extractor.py:345-347 | With the corrected test, a warning for position i appears exactly when bracket i has a maximum and its minimum exceeds it. |
| EntityValidator.InvalidBracketReportedAsWritten | backend/services/entity_extractor.py:345-347 | As the program runs, a warning for position i appears exactly when bracket i has a present, non-zero maximum below its minimum. |
| EntityValidator.MissingDescriptionReported | backend/services/entity_extractor.py:350-352 | A missing-description warning for an id appears exactly when some rule with that id has an empty description. |
| EntityValidator.DuplicateReported | backend/services/entity_extractor.py:355-357 | The duplicate warning appears exactly when two rates share a name. |
| EntityValidator.MergedHasNoDuplicateWarning | backend/services/entity_extractor.py:289-292 | A merged entity set never gets the duplicate-name warning. |
| EntityValidator.BracketWarningsMembers | backend/services/entity_extractor.py:345-347 | For any bracket test, a warning for position i appears exactly when bracket i exists and fails the test. |
| EntityValidator.ZeroMaximumNotReported | backend/services/entity_extractor.py:346 | As written, a bracket with minimum 1000 and maximum 0 is inverted but gets no warning. |
| EntityValidator.AsWrittenDiffersOnlyAtZero | backend/services/entity_extractor.py:346 | The written and the corrected bracket tests disagree exactly on a maximum of 0 with a positive minimum. |
| EntityValidator.WarningsAgreeWithoutZeroMaximum | backend/services/entity_extractor.py:335-359 | When no bracket has a zero maximum and a positive minimum, the program's warnings equal those of the corrected test. |
| EntityValidator.MessagesIdentify | backend/services/entity_extractor.py:347-357 | The bracket, rule and duplicate warning texts determine the warning: equal texts mean equal warnings. |
| EntityExtractor.ExtractFirst | backend/services/entity_extractor.py:239-248 | After k chunks without error there is exactly one result per chunk. |
| EntityExtractor.ExtractFromChunks | backend/services/entity_extractor.py:217-253 | The chunk loop gives the merge of the per-chunk entities and the list of raw replies, or the first chunk's error. |
| EntityExtractor.ChunkContextsDiffer | backend/services/entity_extractor.py:240 | Different chunks get different context strings. |
| EntityExtractor.FailurePersists | backend/services/entity_extractor.py:239-248 | Once a chunk's extraction raises, later chunks leave that outcome unchanged. |
| EntityExtractor.FirstChunksExtracted | backend/services/entity_extractor.py:239-248 | If the first k chunks succeed, the results are exactly their replies, in order. |
| EntityExtractor.FirstFailureEnds | backend/services/entity_extractor.py:239-248 | The outcome is the error of the first chunk that fails. |
| EntityExtractor.AllChunksExtracted | backend/services/entity_extractor.py:239-253 | When every chunk succeeds, there is one raw reply per chunk, each that chunk's reply, and the merged brackets number the sum over chunks. |
| AiProcessor.GetCountryName | backend/services/ai_processor.py:95-97 | The name of the upper-cased code when it is in the table; the code unchanged otherwise. |
| AiProcessor.CountryCodesAreUpper | backend/services/ai_processor.py:27-70 | Every code in the table is two upper-case letters. |
| AiProcessor.KnownCodeAnyCase | backend/services/ai_processor.py:95-97 | A known code finds its country in upper or lower case. |
| AiProcessor.UnknownCodeUnchanged | backend/services/ai_processor.py:97 | An unknown code comes back as given, not upper-cased. |
| AiProcessor.EstimateTokens | backend/services/ai_processor.py:222-228 | The tokenizer's count when there is one; otherwise the length divided by 4, rounded down. |
| AiProcessor.ChunkTokens | backend/services/ai_processor.py:246-262 | The token loop produces the token-chunk specification. |
| AiProcessor.TokenChunksAreSlices | backend/services/ai_processor.py:241-262 | With a budget of at least one token, the chunks are the fixed-width slices of the tokens. Each holds 1 to max_tokens tokens, all but the last hold exactly max_tokens, and together they are the tokens in order. |
| AiProcessor.TokenChunksAreChunking | backend/services/ai_processor.py:241-262 | With a budget of at least one, the token chunks satisfy the chunking property. |
| AiProcessor.TokenChunksWithoutBudget | backend/services/ai_processor.py:250-254 | With a budget below one, every token opens a new chunk and the first chunk closed is empty. |
| AiProcessor.SlicesFlatten | backend/services/ai_processor.py:269-270 | The slices concatenate to the input. |
| AiProcessor.SlicesWidths | backend/services/ai_processor.py:269-270 | Every slice is non-empty and at most w long; all but the last are exactly w; their number is ceil(len/w). |
| AiProcessor.ChunkingIsSlices | backend/services/ai_processor.py:269-270 | Any chunking of the input with width w is the slicing: the chunking is unique. |
| AiProcessor.SliceText | backend/services/ai_processor.py:266-272 | The slicing loop produces the slices of width w. |
| AiProcessor.ChunkTextMethod | backend/services/ai_processor.py:241-272 | `chunk_text` produces the decoded token chunks when a tokenizer exists and the character slices otherwise. |
| AiProcessor.FallbackChunks | backend/services/ai_processor.py:264-272 | Without a tokenizer and with max_tokens >= 1, the chunks are a chunking of the text with width 4·max_tokens, ceil(len/w) of them, and none exactly when the text is empty. |
| AiProcessor.Matches | backend/services/ai_processor.py:200-201 | The greedy pattern yields at most one match. |
| AiProcessor.MatchIsWidestSpan | backend/services/ai_processor.py:200-201 | There is no match exactly when no `}` follows any `{`. A match is the span from a `{` to a `}` that contains every such pair, that is from the first `{` to the last `}`. |
| AiProcessor.FirstParsing | backend/services/ai_processor.py:203-210 | The candidate loop returns a candidate that parses, and nothing exactly when none parses. |
| AiProcessor.ExtractJson | backend/services/ai_processor.py:197-210 | `_extract_json` returns the first parsing match. |
| AiProcessor.ExtractJsonCandidate | backend/services/ai_processor.py:197-210 | `_extract_json` returns the single greedy span when it parses, and None otherwise. |
| AiProcessor.ProcessWithJsonResponse | backend/services/ai_processor.py:174-185 | A reply that parses is returned as parsed; otherwise the call succeeds exactly when the recovered span parses. |
| AiProcessor.RecoveredReply | backend/services/ai_processor.py:176-185 | For a reply that does not parse, success means the greedy span parses, and the result is that parse. |
| AiProcessor.MockIsFirstMatch | backend/services/ai_processor.py:333-344 | The mock answers with the first keyword, in the order extract, json config, sql, policy, code, that occurs in the lower-cased prompt. It gives the plain message when none occurs. |
| AiProcessor.ExtractWinsOverOthers | backend/services/ai_processor.py:333-334 | Any prompt that contains "extract" gets the extraction payload. |
| DocumentParser.ReplaceCr | backend/services/document_parser.py:201 | After the line-ending rewrite no `\r` is left, and only newlines are introduced. |
| DocumentParser.CollapseBlanks | backend/services/document_parser.py:204 | Runs of spaces and tabs become one space: no tab, no double space, nothing new but spaces. |
| DocumentParser.StripEach | backend/services/document_parser.py:208 | Every line is stripped, and the number of lines is unchanged. |
| DocumentParser.ReplaceCrLfKeepsText | backend/services/document_parser.py:201 | The CRLF rewrite keeps the non-whitespace characters. |
| DocumentParser.CollapseBlanksKeepsText | backend/services/document_parser.py:204 | Collapsing blanks keeps the non-whitespace characters. |
| DocumentParser.CollapseNewlinesKeepsText | backend/services/document_parser.py:205 | Collapsing newline runs keeps the non-whitespace characters. |
| DocumentParser.StripLinesKeepsText | backend/services/document_parser.py:208-209 | Stripping and re-joining lines keeps the non-whitespace characters. |
| DocumentParser.CleanTextNoCrOrTab | backend/services/document_parser.py:200-211 | The cleaned text contains no `\r` and no tab. |
| DocumentParser.CleanTextNoDoubleSpace | backend/services/document_parser.py:204-211 | The cleaned text never has two consecutive spaces. |
| DocumentParser.CleanTextLinesTrimmed | backend/services/document_parser.py:208-211 | No line of the cleaned text starts or ends with whitespace, and neither does the whole text. |
| DocumentParser.CleanTextKeepsText | backend/services/document_parser.py:200-211 | Cleaning only removes or replaces whitespace: the non-whitespace characters are unchanged, in order. |
| DocumentParser.Score | backend/services/document_parser.py:239 | A language's score is at most its number of markers, and 0 exactly when none of its markers is a word of the text. |
| DocumentParser.FirstMax | backend/services/document_parser.py:243 | `max` picks a highest score, and the first of equal highest scores. |
| DocumentParser.ScoreLanguages | backend/services/document_parser.py:237-240 | The score loop fills one score per language, in table order. |
| DocumentParser.MaxScore | backend/services/document_parser.py:243 | The maximum loop returns the position `max` picks. |
| DocumentParser.DetectLanguage | backend/services/document_parser.py:234-244 | Language detection over any marker table: the first highest-scoring language, or "en" when that score is 0. |
| DocumentParser.LanguageIsKnown | backend/services/document_parser.py:225-244 | With the marker table as written and with the corrected one, the guess is always one of en, pt, es, de, fr, it. |
| DocumentParser.LanguageFromTable | backend/services/document_parser.py:234-244 | For any marker table, the guess is "en" or a language the table names. |
| DocumentParser.NoMarkerWith | backend/services/document_parser.py:244 | With no marker among the text's lower-cased words, the guess is "en". |
| DocumentParser.EnglishWins | backend/services/document_parser.py:243-244 | English is the guess exactly when no language scores more than English. |
| DocumentParser.OtherLanguageWins | backend/services/document_parser.py:243-244 | Another language k wins exactly when it scores, beats every earlier language and is not beaten by a later one: ties go to table order. |
| DocumentParser.OnlyScoringRowWins | backend/services/document_parser.py:243-244 | When only one language scores, it is the guess. |
| DocumentParser.MisspelledMarkersNeverMatch | backend/services/document_parser.py:227-230 | As written, the markers "alÃ­quota" and "impÃ´t" are never a word of any lower-cased text. |
| DocumentParser.AccentedWordsMissedAsWritten | backend/services/document_parser.py:227-230 | As written, the text "alíquota" and the text "impôt" are each guessed as English. |
| DocumentParser.PortugueseAccentDetected | backend/services/document_parser.py:227 | With the marker spelled correctly, "alíquota" is guessed as Portuguese. |
| DocumentParser.FrenchAccentDetected | backend/services/document_parser.py:230 | With the marker spelled correctly, "impôt" is guessed as French. |
| DocumentParser.Suffix | backend/services/document_parser.py:58 | A non-empty suffix is a dot and at least one more character, a proper tail of the final path component with no later dot; it is empty exactly when that component ends with a dot or has no dot after its first character. |
| DocumentParser.ParseDocument | backend/services/document_parser.py:58-81 | `parse` rejects an unsupported extension; otherwise it decodes and merges the decoder's metadata into the base entries. |
| DocumentParser.UnsupportedBeforeDecoding | backend/services/document_parser.py:58-61 | An unsupported lower-cased suffix is rejected whatever the decoders do; that rejection happens exactly for such suffixes. |
| DocumentParser.MetadataRecordsFile | backend/services/document_parser.py:63-80 | A parsed document's metadata has the five base keys plus the decoder's keys. The decoder's entries win. Otherwise filename, extension and byte size are recorded. |
| DocumentParser.UpperCaseExtensionAccepted | backend/services/document_parser.py:58 | "report.PDF" has the extension ".pdf". |
| DocumentParser.LastSuffixOnly | backend/services/document_parser.py:58 | "rates.tar.gz" has extension ".gz": only the last suffix counts. |
| DocumentParser.DotFileRefused | backend/services/document_parser.py:58-61 | ".txt" has no suffix and is rejected. |
| OutputGenerator.ParseJsonConfig | backend/services/output_generator.py:51-67 | A config always has the caller's country and country name, no effective date, and the first extracted tax type; a non-dict reply is an error; a dict reply is accepted exactly when version, currency, rules and metadata each have their type, and then they are the reply's values where present and "1.0", "USD", [] and the generated_at metadata otherwise. |
| OutputGenerator.ConfigTaxTypeIsFirst | backend/services/output_generator.py:55-57 | The config's tax type is VAT exactly when there are no tax types or the first is VAT; otherwise it is an extracted one. |
| OutputGenerator.JsonConfigDefaults | backend/services/output_generator.py:59-66 | An empty reply gives version "1.0", currency "USD", no rules and a generated_at timestamp. |
| OutputGenerator.JsonConfigTakesReply | backend/services/output_generator.py:59-64 | A reply with a string version and currency, a list of dicts as rules and a dict as metadata gives a config carrying exactly those. |
| OutputGenerator.JsonConfigRejectsBadVersion | backend/services/output_generator.py:59 | A version that is not a string fails validation. |
| OutputGenerator.ParseSqlMigration | backend/services/output_generator.py:82-90 | A non-dict reply is an error; a dict reply is accepted exactly when the five fields have their types, and the migration holds the reply's values where present and the defaults otherwise. |
| OutputGenerator.SqlMigrationDefaults | backend/services/output_generator.py:85-89 | An empty reply gives the timestamped name and the default scripts, tables and description. |
| OutputGenerator.SqlMigrationAccepted | backend/services/output_generator.py:84-90 | A migration is built exactly when every present field has its declared type. |
| OutputGenerator.ParsePolicyDefinition | backend/services/output_generator.py:105-113 | A non-dict reply is an error; a dict reply is accepted exactly when name, version, description, rules and metadata have their types, and the policy holds the reply's values where present and the defaults otherwise. |
| OutputGenerator.PolicyDefinitionDefaults | backend/services/output_generator.py:108-112 | An empty reply gives "tax_policy", "1.0", "Auto-generated policy", no rules and empty metadata. |
| OutputGenerator.PolicyRulesMustBeDicts | backend/services/output_generator.py:111 | An accepted policy's rules are all dicts, and are the reply's rules when it has them. |
| OutputGenerator.ParseGeneratedCode | backend/services/output_generator.py:128-136 | Generated code is always labelled python; a non-dict reply is an error; a dict reply is accepted exactly when filename, code, description and dependencies have their types, and the record holds the reply's values where present and the defaults otherwise. |
| OutputGenerator.GeneratedCodeDefaults | backend/services/output_generator.py:131-135 | An empty reply gives `tax_calculator_<country>.py` and the default code, description and dependencies. |
| OutputGenerator.LanguageAlwaysPython | backend/services/output_generator.py:128-136 | Adding a language field to the reply changes nothing in the result. |
| OutputGenerator.DefaultFilenameIgnoresCase | backend/services/output_generator.py:132 | The default filename depends only on the lower-cased country. |

## Left out

- **Transport and retry.** The model call, its retry policy, and the availability and
  health checks (backend/services/ai_processor.py:99-146, 274-312) are network I/O. The model call is the
  `extract` parameter, and the reply text is an argument.
- **Concurrency.** `async`/`await` is gone: the chunk loop is sequential, exactly as awaited
  in the source.
- **Parsing, tokenising and decoding libraries.** `json.loads`, tiktoken's
  `encode`/`decode`/`encoding_for_model` and the PDF, Word and text decoders are parameters.
  The choice between tokenizer and fallback is whether a tokenizer is passed.
- **Environment and logging.** Environment variables, the `os.environ` update in the client's
  constructor and all logging are not modelled.
- **Outside the parser path.** backend/main.py (routing, uploads, the chunking decision,
  timing) and the prompt templates are not part of this model. The prompts matter only for
  the mock's keyword dispatch.
- **The mock's payloads.** These canned fixtures are named, but not spelled out.
- **Clock readings.** The `utcnow()` defaults of the output mappers are parameters.
- EntityValidator.Message: the float text of `rate*100` is a `floatRepr` parameter. The
  texts of the two rate warnings are not proved to determine the warning.
- Schemas.AsOptInt: pydantic's lax coercion of strings is left out. A numeric string in an
  optional int field fails the record here, while pydantic accepts it.
- Schemas.AsOptFloat: the same coercions are read through the `numeral` parameter. Booleans
  and strings `numeral` reads are accepted, but the contract states only the null, number,
  list and dict cases.
- EntityParser.ParseDate: any `fromisoformat` error collapses to None. So do Python 3.11's
  extra accepted formats (basic `YYYYMMDD`, week dates); only extended `YYYY-MM-DD` dates
  parse.
- EntityParser.ParseRate: the function's own contract states only the name and rate of an
  accepted record. Which entries are kept, and with which fields, is stated by
  `EntityParser.RateKept`.
- EntityParser.ParseBracket: its own contract states only min_amount and rate; acceptance and
  the other fields are stated by `EntityParser.BracketKept`.
- EntityParser.ParseThreshold: its own contract states only currency and effective date;
  acceptance, the name default and the amount are stated by `EntityParser.ThresholdKept`.
- EntityParser.ParseDeadline: its own contract states only deadline_type and frequency;
  acceptance, the name default and day_of_period are stated by `EntityParser.DeadlineKept`.
- EntityParser.ParseRule: its own contract states only the id, tax type and brackets;
  acceptance and the name and description defaults are stated by `EntityParser.RuleKept`.
- **Non-finite floats.** Amounts and rates are reals, so `inf` and `nan` cannot be
  represented. Python's `float("inf")` and the JSON values `Infinity` and `NaN` reach pydantic
  in the source, which accepts an infinite threshold amount or bracket minimum; here
  `numeral` yields None for them and such a record is dropped.
- EntityMerger.MergeEntities: the extras lists are values. The source extends the first
  chunk's own list in place, so the raw reply of chunk 1 also shows the appended items; that
  aliasing is not captured.
- OutputGenerator.ParseSqlMigration: pydantic validation errors are a single
  `ValidationError`. Which field failed is not recorded.
- Strings.Lower: Python's case mapping is modelled for ASCII, Latin-1 and a few other
  characters. These include `ß` upper-casing to "SS", `ÿ` to `Ÿ`, and the Latin ligatures.
  Other scripts are left unchanged.
- DocumentParser.CleanTextLinesTrimmed: nothing is claimed about runs of three or more
  newlines, or about idempotence. Neither holds for `clean_text`, because whitespace-only
  lines are removed after the newline collapse.

## Findings

| source | as written | input that shows it | evidently intended | confidence | as-written member | corrected member |
|---|---|---|---|---|---|---|
| backend/services/entity_extractor.py:346 | `if bracket.max_amount and bracket.min_amount > bracket.max_amount` treats a maximum of 0 as absent | a bracket with min_amount 1000 and max_amount 0 | every bracket whose present maximum is below its minimum is reported | not executed; medium (a zero maximum may be a sloppy "no limit") | EntityValidator.ZeroMaximumNotReported | EntityValidator.InvalidBracketReported |
| backend/services/document_parser.py:227-230 | the markers "alÃ­quota" and "impÃ´t" are the Latin-1 reading of the UTF-8 bytes of "alíquota" and "impôt"; they contain `Ã`, which a lower-cased text never does | the text "alíquota" (or "impôt") | the accented words count for Portuguese and French | not executed; high | DocumentParser.AccentedWordsMissedAsWritten | DocumentParser.PortugueseAccentDetected |
