/**
 * The deterministic parts of the model client: the country-name table, the token estimate,
 * chunking a text to a token budget, recovering a JSON object from a chatty reply, the
 * parse-recover-raise cascade around a reply, and the keyword dispatch of the mock client.
 * The model transport, the JSON parser and the tokenizer are parameters.
 */
module AiProcessor {
  import opened Wrappers
  import opened Seqs
  import opened Strings
  import opened Json

  // ---------------------------------------------------------------- country names

  const CountryNames: map<string, string> := map[
    "US" := "United States", "BR" := "Brazil", "DE" := "Germany", "FR" := "France",
    "GB" := "United Kingdom", "IT" := "Italy", "ES" := "Spain", "PT" := "Portugal",
    "NL" := "Netherlands", "BE" := "Belgium", "AT" := "Austria", "CH" := "Switzerland",
    "PL" := "Poland", "CZ" := "Czech Republic", "SE" := "Sweden", "NO" := "Norway",
    "DK" := "Denmark", "FI" := "Finland", "IE" := "Ireland", "AU" := "Australia",
    "NZ" := "New Zealand", "CA" := "Canada", "MX" := "Mexico", "AR" := "Argentina",
    "CL" := "Chile", "CO" := "Colombia", "PE" := "Peru", "JP" := "Japan",
    "KR" := "South Korea", "CN" := "China", "IN" := "India", "SG" := "Singapore",
    "HK" := "Hong Kong", "AE" := "United Arab Emirates", "SA" := "Saudi Arabia",
    "ZA" := "South Africa", "NG" := "Nigeria", "EG" := "Egypt", "IL" := "Israel",
    "TR" := "Turkey", "RU" := "Russia", "UA" := "Ukraine"]

  /** The name for a country code in any case; an unknown code comes back as given. */
  function GetCountryName(code: string): (name: string)
    ensures Upper(code) in CountryNames ==> name == CountryNames[Upper(code)]
    ensures Upper(code) !in CountryNames ==> name == code
  {
    if Upper(code) in CountryNames then CountryNames[Upper(code)] else code
  }

  /** Every code in the table is two capital letters. */
  lemma CountryCodesAreUpper(code: string)
    requires code in CountryNames
    ensures |code| == 2 && IsUpperWord(code)
  {
    assert |code| == 2 && IsUpperWordChar(code[0]) && IsUpperWordChar(code[1]);
  }

  /** A code in the table, in upper or lower case, maps to its name. */
  lemma KnownCodeAnyCase(code: string)
    requires code in CountryNames
    ensures GetCountryName(code) == CountryNames[code]
    ensures GetCountryName(Lower(code)) == CountryNames[code]
  {
    CountryCodesAreUpper(code);
    UpperOfUpperWord(code);
  }

  /** An unknown code is returned as it was given, not upper-cased. */
  lemma UnknownCodeUnchanged()
    ensures GetCountryName("xx") == "xx"
  {
    assert Upper("xx") == "XX" by {
      assert "xx" == "x" + "x";
      UpperAppend("x", "x");
      UpperSingle('x');
      assert UpperChar('x') == "X";
    }
    assert "XX" !in CountryNames;
  }

  // ---------------------------------------------------------------- token estimate

  /** The tokenizer, when one is available for the configured model. */
  datatype Tokenizer<!Token> = Tokenizer(encode: string -> seq<Token>, decode: seq<Token> -> string)

  /** The token count: the tokenizer's, else one token per four characters, rounded down. */
  function EstimateTokens<Token>(text: string, tokenizer: Option<Tokenizer<Token>>): (n: nat)
    ensures tokenizer.Some? ==> n == |tokenizer.value.encode(text)|
    ensures tokenizer.None? ==> 4 * n <= |text| < 4 * n + 4
  {
    match tokenizer
    case Some(t) => |t.encode(text)|
    case None => |text| / 4
  }

  // ---------------------------------------------------------------- fixed-width slicing

  /** xs cut into consecutive pieces of width w, the last one possibly shorter. */
  function Slices<T>(xs: seq<T>, w: nat): seq<seq<T>>
    requires w >= 1
    decreases |xs|
  {
    if |xs| == 0 then []
    else if |xs| <= w then [xs]
    else [xs[..w]] + Slices(xs[w..], w)
  }

  /** cs cuts xs into pieces of width at most w, every one but the last exactly w, none empty. */
  ghost predicate IsChunking<T>(cs: seq<seq<T>>, xs: seq<T>, w: nat) {
    Flatten(cs) == xs &&
    (forall i :: 0 <= i < |cs| ==> 1 <= |cs[i]| <= w) &&
    (forall i :: 0 <= i < |cs| - 1 ==> |cs[i]| == w)
  }

  lemma {:induction false} SlicesFlatten<T>(xs: seq<T>, w: nat)
    requires w >= 1
    ensures Flatten(Slices(xs, w)) == xs
    decreases |xs|
  {
    if |xs| == 0 {
    } else if |xs| <= w {
      FlattenCons(xs, []);
      assert [xs] + [] == [xs];
    } else {
      SlicesFlatten(xs[w..], w);
      FlattenCons(xs[..w], Slices(xs[w..], w));
      assert xs[..w] + xs[w..] == xs;
    }
  }

  lemma {:induction false} SlicesWidths<T>(xs: seq<T>, w: nat)
    requires w >= 1
    ensures forall i :: 0 <= i < |Slices(xs, w)| ==> 1 <= |Slices(xs, w)[i]| <= w
    ensures forall i :: 0 <= i < |Slices(xs, w)| - 1 ==> |Slices(xs, w)[i]| == w
    ensures w * (|Slices(xs, w)| - 1) < |xs| <= w * |Slices(xs, w)|
    decreases |xs|
  {
    if |xs| > w {
      var rest := Slices(xs[w..], w);
      SlicesWidths(xs[w..], w);
      var cs := [xs[..w]] + rest;
      assert Slices(xs, w) == cs;
      forall i | 0 <= i < |cs| ensures 1 <= |cs[i]| <= w && (i < |cs| - 1 ==> |cs[i]| == w) {
        if i > 0 { assert cs[i] == rest[i - 1]; }
      }
      assert w * |cs| == w + w * |rest|;
      assert w * (|cs| - 1) == w * |rest|;
    }
  }

  /** The slices of xs are a chunking of xs, and there are ceil(|xs| / w) of them. */
  lemma SlicesAreChunking<T>(xs: seq<T>, w: nat)
    requires w >= 1
    ensures IsChunking(Slices(xs, w), xs, w)
    ensures w * (|Slices(xs, w)| - 1) < |xs| <= w * |Slices(xs, w)|
  {
    SlicesFlatten(xs, w);
    SlicesWidths(xs, w);
  }

  /** The slicing is the only chunking: any chunking of xs to width w is Slices(xs, w). */
  lemma {:induction false} ChunkingIsSlices<T>(cs: seq<seq<T>>, xs: seq<T>, w: nat)
    requires w >= 1 && IsChunking(cs, xs, w)
    ensures cs == Slices(xs, w)
    decreases |cs|
  {
    if |cs| == 0 {
    } else {
      var c, rest := cs[0], cs[1..];
      assert cs == [c] + rest;
      FlattenCons(c, rest);
      if |rest| == 0 {
        assert Flatten(rest) == [];
        assert xs == c && 1 <= |c| <= w;
        assert Slices(xs, w) == [xs];
      } else {
        assert |c| == w;
        assert IsChunking(rest, Flatten(rest), w) by {
          forall i | 0 <= i < |rest| ensures 1 <= |rest[i]| <= w && (i < |rest| - 1 ==> |rest[i]| == w) {
            assert rest[i] == cs[i + 1];
          }
        }
        var r0, rr := rest[0], rest[1..];
        assert rest == [r0] + rr;
        FlattenCons(r0, rr);
        assert |Flatten(rest)| >= 1;
        assert xs[..w] == c && xs[w..] == Flatten(rest);
        ChunkingIsSlices(rest, Flatten(rest), w);
      }
    }
  }

  // ---------------------------------------------------------------- chunking on tokens

  /** The token loop's state: the closed chunks and the chunk being filled. */
  datatype ChunkState<T> = ChunkState(chunks: seq<seq<T>>, current: seq<T>)

  /** One token: it opens a new chunk when the current one would go over the budget. */
  function Step<T>(s: ChunkState<T>, t: T, maxTokens: int): ChunkState<T> {
    if |s.current| + 1 > maxTokens then ChunkState(s.chunks + [s.current], [t])
    else ChunkState(s.chunks, s.current + [t])
  }

  function Fold<T>(tokens: seq<T>, maxTokens: int): ChunkState<T> {
    if |tokens| == 0 then ChunkState([], [])
    else Step(Fold(tokens[..|tokens| - 1], maxTokens), tokens[|tokens| - 1], maxTokens)
  }

  /** The token chunks: the closed chunks and the last one if it is not empty. */
  function TokenChunks<T>(tokens: seq<T>, maxTokens: int): seq<seq<T>> {
    var s := Fold(tokens, maxTokens);
    s.chunks + (if |s.current| > 0 then [s.current] else [])
  }

  /** The token loop. */
  method ChunkTokens<T>(tokens: seq<T>, maxTokens: int) returns (chunks: seq<seq<T>>)
    ensures chunks == TokenChunks(tokens, maxTokens)
  {
    chunks := [];
    var currentChunk: seq<T> := [];
    var currentCount := 0;
    for i := 0 to |tokens|
      invariant Fold(tokens[..i], maxTokens) == ChunkState(chunks, currentChunk)
      invariant currentCount == |currentChunk|
    {
      assert tokens[..i + 1][..i] == tokens[..i];
      if currentCount + 1 > maxTokens {
        chunks := chunks + [currentChunk];
        currentChunk := [tokens[i]];
        currentCount := 1;
      } else {
        currentChunk := currentChunk + [tokens[i]];
        currentCount := currentCount + 1;
      }
    }
    assert tokens[..|tokens|] == tokens;
    if |currentChunk| > 0 {
      chunks := chunks + [currentChunk];
    }
  }

  /** With a budget of at least one, the loop's state after `tokens`: full closed chunks, and a
      current chunk of 1..maxTokens tokens once any token is seen, together the tokens in order. */
  ghost predicate FoldShaped<T>(s: ChunkState<T>, tokens: seq<T>, maxTokens: int) {
    Flatten(s.chunks) + s.current == tokens &&
    (forall i :: 0 <= i < |s.chunks| ==> |s.chunks[i]| == maxTokens) &&
    (|tokens| == 0 ==> s.current == []) &&
    (|tokens| > 0 ==> 1 <= |s.current| <= maxTokens)
  }

  lemma StepShaped<T>(s: ChunkState<T>, p: seq<T>, t: T, maxTokens: int)
    requires maxTokens >= 1 && FoldShaped(s, p, maxTokens)
    ensures FoldShaped(Step(s, t, maxTokens), p + [t], maxTokens)
  {
    if |s.current| + 1 > maxTokens {
      FlattenSnoc(s.chunks, s.current);
      assert |s.current| == maxTokens;
      var s' := Step(s, t, maxTokens);
      forall i | 0 <= i < |s'.chunks| ensures |s'.chunks[i]| == maxTokens {
        if i < |s.chunks| { assert s'.chunks[i] == s.chunks[i]; }
      }
    }
  }

  lemma {:induction false} FoldShape<T>(tokens: seq<T>, maxTokens: int)
    requires maxTokens >= 1
    ensures FoldShaped(Fold(tokens, maxTokens), tokens, maxTokens)
  {
    if |tokens| > 0 {
      var p, t := tokens[..|tokens| - 1], tokens[|tokens| - 1];
      FoldShape(p, maxTokens);
      assert tokens == p + [t];
      StepShaped(Fold(p, maxTokens), p, t, maxTokens);
    }
  }

  /** With a budget of at least one, the token loop cuts the tokens into fixed-width slices:
      every chunk holds 1..maxTokens tokens, all but the last exactly maxTokens, and the chunks
      together are the tokens in order. */
  lemma TokenChunksAreSlices<T>(tokens: seq<T>, maxTokens: int)
    requires maxTokens >= 1
    ensures TokenChunks(tokens, maxTokens) == Slices(tokens, maxTokens)
    ensures IsChunking(TokenChunks(tokens, maxTokens), tokens, maxTokens)
  {
    TokenChunksAreChunking(tokens, maxTokens);
    ChunkingIsSlices(TokenChunks(tokens, maxTokens), tokens, maxTokens);
  }

  lemma TokenChunksAreChunking<T>(tokens: seq<T>, maxTokens: int)
    requires maxTokens >= 1
    ensures IsChunking(TokenChunks(tokens, maxTokens), tokens, maxTokens)
  {
    FoldShape(tokens, maxTokens);
    var s := Fold(tokens, maxTokens);
    if |s.current| > 0 {
      ClosingChunking(s.chunks, s.current, tokens, maxTokens);
    } else {
      assert s.chunks == [];
    }
  }

  /** Full chunks followed by a last chunk of 1..maxTokens tokens are a chunking. */
  lemma ClosingChunking<T>(chunks: seq<seq<T>>, current: seq<T>, tokens: seq<T>, maxTokens: int)
    requires maxTokens >= 1 && Flatten(chunks) + current == tokens && 1 <= |current| <= maxTokens
    requires forall i :: 0 <= i < |chunks| ==> |chunks[i]| == maxTokens
    ensures IsChunking(chunks + [current], tokens, maxTokens)
  {
    var cs := chunks + [current];
    FlattenSnoc(chunks, current);
    forall i | 0 <= i < |cs| ensures 1 <= |cs[i]| <= maxTokens && (i < |cs| - 1 ==> |cs[i]| == maxTokens) {
      if i < |chunks| { assert cs[i] == chunks[i]; }
    }
  }

  /** With a budget below one, the first token closes an empty chunk and every token then
      stands alone. */
  lemma {:induction false} TokenChunksWithoutBudget<T>(tokens: seq<T>, maxTokens: int)
    requires maxTokens < 1 && |tokens| > 0
    ensures var s := Fold(tokens, maxTokens);
      s.current == [tokens[|tokens| - 1]] &&
      |s.chunks| == |tokens| && s.chunks[0] == [] &&
      forall i :: 1 <= i < |tokens| ==> s.chunks[i] == [tokens[i - 1]]
  {
    var p := tokens[..|tokens| - 1];
    if |p| > 0 {
      TokenChunksWithoutBudget(p, maxTokens);
      var s := Fold(p, maxTokens);
      forall i | 1 <= i < |tokens| - 1 ensures (s.chunks + [s.current])[i] == [tokens[i - 1]] {
        assert p[i - 1] == tokens[i - 1];
      }
    }
  }

  // ---------------------------------------------------------------- chunking on characters

  /** The fallback loop: `text[i:i + w]` for i in range(0, len(text), w), with w >= 1. */
  method SliceText(text: string, w: nat) returns (chunks: seq<string>)
    requires w >= 1
    ensures chunks == Slices(text, w)
  {
    chunks := [];
    var i := 0;
    while i < |text|
      invariant 0 <= i <= |text| + w
      invariant i < |text| ==> chunks + Slices(text[i..], w) == Slices(text, w)
      invariant i >= |text| ==> chunks == Slices(text, w)
      decreases |text| - i
    {
      var end := if i + w < |text| then i + w else |text|;
      chunks := chunks + [text[i..end]];
      if i + w < |text| {
        assert text[i..][..w] == text[i..end];
        assert text[i..][w..] == text[i + w..];
      } else {
        assert text[i..end] == text[i..];
      }
      i := i + w;
    }
    if |text| == 0 { assert chunks == []; }
  }

  datatype ChunkError = ZeroStep

  /** `chunk_text`: with a tokenizer, the decoded token chunks; without one, slices of
      maxTokens * 4 characters. A width of zero makes `range` raise; a negative width gives an
      empty range. */
  function ChunkText<Token>(text: string, maxTokens: int, tokenizer: Option<Tokenizer<Token>>): Result<seq<string>, ChunkError> {
    match tokenizer
    case Some(t) =>
      var cs := TokenChunks(t.encode(text), maxTokens);
      Success(seq(|cs|, i requires 0 <= i < |cs| => t.decode(cs[i])))
    case None =>
      var w := maxTokens * 4;
      if w == 0 then Failure(ZeroStep)
      else if w < 0 then Success([])
      else Success(Slices(text, w))
  }

  method ChunkTextMethod<Token>(text: string, maxTokens: int, tokenizer: Option<Tokenizer<Token>>)
    returns (r: Result<seq<string>, ChunkError>)
    ensures r == ChunkText(text, maxTokens, tokenizer)
  {
    if tokenizer.Some? {
      var t := tokenizer.value;
      var cs := ChunkTokens(t.encode(text), maxTokens);
      r := Success(seq(|cs|, i requires 0 <= i < |cs| => t.decode(cs[i])));
    } else {
      var charLimit := maxTokens * 4;
      if charLimit == 0 {
        r := Failure(ZeroStep);
      } else if charLimit < 0 {
        r := Success([]);
      } else {
        var chunks := SliceText(text, charLimit);
        r := Success(chunks);
      }
    }
  }

  /** Without a tokenizer and with a budget of at least one, the text is cut into
      ceil(len / w) slices (the fewest slices of width w that hold the text) of w = maxTokens * 4 characters, all but the last exactly w long,
      none empty, which together are the text; an empty text gives no chunks. */
  lemma FallbackChunks(text: string, maxTokens: int)
    requires maxTokens >= 1
    ensures var w := maxTokens * 4; var r := ChunkText<int>(text, maxTokens, None);
      r.Success? && IsChunking(r.value, text, w) && w * (|r.value| - 1) < |text| <= w * |r.value| &&
      (|text| == 0 <==> r.value == [])
  {
    var w := maxTokens * 4;
    SlicesAreChunking(text, w);
    if Slices(text, w) == [] { assert Flatten<char>([]) == []; }
  }

  // ---------------------------------------------------------------- JSON recovery

  /** The matches of the greedy pattern `\{[\s\S]*\}`: from the first `{` to the last `}` after
      it. Matching resumes after that `}`, where no `}` is left, so there is at most one. */
  function Matches(text: string): (ms: seq<string>)
    ensures |ms| <= 1
  {
    match (FirstIndexOf(text, '{'), LastIndexOf(text, '}'))
    case (Some(i), Some(j)) => if i < j then [text[i..j + 1]] else []
    case _ => []
  }

  /** The one match is the widest span from a `{` to a later `}`; there is none exactly when no
      `{` has a `}` after it. */
  lemma MatchIsWidestSpan(text: string)
    ensures Matches(text) == [] <==>
      forall a, b :: 0 <= a < b < |text| && text[a] == '{' ==> text[b] != '}'
    ensures |Matches(text)| == 1 ==>
      exists i, j ::
        0 <= i < j < |text| && Matches(text)[0] == text[i..j + 1] && text[i] == '{' && text[j] == '}' &&
        (forall a, b :: 0 <= a < b < |text| && text[a] == '{' && text[b] == '}' ==> i <= a && b <= j)
  {
    var fi, la := FirstIndexOf(text, '{'), LastIndexOf(text, '}');
    if fi.Some? && la.Some? && fi.value < la.value {
      assert text[fi.value] == '{' && text[la.value] == '}';
    }
  }

  /** The first match that parses. */
  function FirstParsing(ms: seq<string>, parse: string -> Option<Json>): (r: Option<string>)
    ensures r.Some? ==> r.value in ms && parse(r.value).Some?
    ensures r.None? <==> forall i :: 0 <= i < |ms| ==> parse(ms[i]).None?
  {
    if |ms| == 0 then None else if parse(ms[0]).Some? then Some(ms[0]) else FirstParsing(ms[1..], parse)
  }

  /** `_extract_json`: the loop over the matches, returning the first that parses. */
  method ExtractJson(text: string, parse: string -> Option<Json>) returns (r: Option<string>)
    ensures r == FirstParsing(Matches(text), parse)
  {
    var matches := Matches(text);
    for k := 0 to |matches|
      invariant FirstParsing(matches, parse) == FirstParsing(matches[k..], parse)
    {
      assert matches[k..][0] == matches[k] && matches[k..][1..] == matches[k + 1..];
      if parse(matches[k]).Some? {
        return Some(matches[k]);
      }
    }
    assert matches[|matches|..] == [];
    r := None;
  }

  /** The recovered object is the first-`{`-to-last-`}` span when that parses, else nothing. */
  lemma ExtractJsonCandidate(text: string, parse: string -> Option<Json>)
    ensures FirstParsing(Matches(text), parse) ==
      if |Matches(text)| == 1 && parse(Matches(text)[0]).Some? then Some(Matches(text)[0]) else None
  {
  }

  // ---------------------------------------------------------------- the reply cascade

  datatype ReplyError = InvalidJsonResponse

  /** `process_with_json_response` for a reply: its parse, else the parse of the recovered
      object, else an error. */
  function ProcessWithJsonResponse(reply: string, parse: string -> Option<Json>): (r: Result<Json, ReplyError>)
    ensures parse(reply).Some? ==> r == Success(parse(reply).value)
    ensures parse(reply).None? ==> (r.Success? <==> FirstParsing(Matches(reply), parse).Some?)
  {
    match parse(reply)
    case Some(v) => Success(v)
    case None =>
      match FirstParsing(Matches(reply), parse)
      case Some(cleaned) => if |cleaned| > 0 then Success(parse(cleaned).value) else Failure(InvalidJsonResponse)
      case None => Failure(InvalidJsonResponse)
  }

  /** A reply that does not parse succeeds exactly when its widest brace span parses, and then
      yields that span's value. */
  lemma RecoveredReply(reply: string, parse: string -> Option<Json>)
    requires parse(reply).None?
    ensures var r := ProcessWithJsonResponse(reply, parse);
      r.Success? <==> (|Matches(reply)| == 1 && parse(Matches(reply)[0]).Some?)
    ensures var r := ProcessWithJsonResponse(reply, parse);
      r.Success? ==> Some(r.value) == parse(Matches(reply)[0])
  {
    ExtractJsonCandidate(reply, parse);
    var ms := Matches(reply);
    if |ms| == 1 {
      var fi, la := FirstIndexOf(reply, '{'), LastIndexOf(reply, '}');
      assert fi.Some? && la.Some? && fi.value < la.value;
      assert |ms[0]| >= 2;
    }
  }

  // ---------------------------------------------------------------- the mock client

  /** What the mock answers with: one of its canned payloads, or `{"message": "Mock response"}`. */
  datatype MockReply = MockExtraction | MockJsonConfig | MockSqlMigration | MockPolicy | MockCode | MockMessage

  /** The keyword tests, in the order they run, and the answer each selects. */
  const MockKeywords: seq<(string, MockReply)> := [
    ("extract", MockExtraction), ("json config", MockJsonConfig), ("sql", MockSqlMigration),
    ("policy", MockPolicy), ("code", MockCode)]

  /** The mock `process`: the first keyword found in the lower-cased system prompt decides. */
  function MockProcess(systemPrompt: string): MockReply {
    var p := Lower(systemPrompt);
    if Contains(p, "extract") then MockExtraction
    else if Contains(p, "json config") then MockJsonConfig
    else if Contains(p, "sql") then MockSqlMigration
    else if Contains(p, "policy") then MockPolicy
    else if Contains(p, "code") then MockCode
    else MockMessage
  }

  /** The table read as a first-match scan. */
  function FirstKeyword(p: string, table: seq<(string, MockReply)>): MockReply {
    if |table| == 0 then MockMessage
    else if Contains(p, table[0].0) then table[0].1
    else FirstKeyword(p, table[1..])
  }

  /** The mock answers with the reply of the first keyword in table order that occurs in the
      lower-cased prompt, and with the plain message when none does. */
  lemma MockIsFirstMatch(systemPrompt: string)
    ensures MockProcess(systemPrompt) == FirstKeyword(Lower(systemPrompt), MockKeywords)
    ensures MockProcess(systemPrompt) == MockMessage <==>
      forall i :: 0 <= i < |MockKeywords| ==> !Contains(Lower(systemPrompt), MockKeywords[i].0)
  {
    var p := Lower(systemPrompt);
    var t0 := MockKeywords;
    var t1, t2, t3, t4 := t0[1..], t0[2..], t0[3..], t0[4..];
    assert t1[1..] == t2 && t2[1..] == t3 && t3[1..] == t4 && t4[1..] == [];
    assert FirstKeyword(p, t4) == if Contains(p, "code") then MockCode else MockMessage;
    assert FirstKeyword(p, t3) == if Contains(p, "policy") then MockPolicy else FirstKeyword(p, t4);
    assert FirstKeyword(p, t2) == if Contains(p, "sql") then MockSqlMigration else FirstKeyword(p, t3);
    assert FirstKeyword(p, t1) == if Contains(p, "json config") then MockJsonConfig else FirstKeyword(p, t2);
  }

  /** A prompt that mentions extraction gets the extraction payload, even when it also asks for
      a JSON config, SQL, a policy or code. */
  lemma ExtractWinsOverOthers(head: string, tail: string)
    ensures MockProcess(head + "extract" + tail) == MockExtraction
  {
    LowerAppend(head + "extract", tail);
    LowerAppend(head, "extract");
    assert Lower("extract") == "extract";
    ContainsInfix(Lower(head), "extract", Lower(tail));
  }
}
