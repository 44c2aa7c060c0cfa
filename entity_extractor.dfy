/**
 * Extraction over a chunked document: each chunk is extracted in order with a context naming
 * its position, and the per-chunk entity sets are merged. A single-chunk extraction (prompt,
 * model call and response parsing) is a parameter here; it may fail, and the first failure
 * ends the whole run.
 */
module EntityExtractor {
  import opened Wrappers
  import opened Seqs
  import opened Strings
  import opened Json
  import opened Schemas
  import opened EntityMerger

  /** The arguments one chunk's extraction receives. */
  datatype ExtractRequest = ExtractRequest(documentText: string, country: string, language: string, context: string)

  /** One chunk's outcome: its entities and the raw response, or the error it raised. */
  type Extract = ExtractRequest -> Result<(ExtractedEntities, Json), string>

  /** The context of chunk i (from 0) of n: the caller's context (or nothing), then the position. */
  function ChunkContext(context: Option<string>, i: nat, n: nat): string {
    (context.GetOr("") + " [Chunk ") + NatToString(i + 1) + (" of " + NatToString(n) + "]")
  }

  function Request(chunks: seq<string>, country: string, language: string, context: Option<string>, i: nat): ExtractRequest
    requires i < |chunks|
  {
    ExtractRequest(chunks[i], country, language, ChunkContext(context, i, |chunks|))
  }

  /** The outcomes of the first k chunks, in order, up to the first failure. */
  function ExtractFirst(chunks: seq<string>, country: string, language: string, context: Option<string>,
                        extract: Extract, k: nat): (r: Result<seq<(ExtractedEntities, Json)>, string>)
    requires k <= |chunks|
    ensures r.Success? ==> |r.value| == k
  {
    if k == 0 then Success([])
    else
      var earlier :- ExtractFirst(chunks, country, language, context, extract, k - 1);
      var one :- extract(Request(chunks, country, language, context, k - 1));
      Success(earlier + [one])
  }

  function Entities(results: seq<(ExtractedEntities, Json)>): seq<ExtractedEntities> {
    seq(|results|, i requires 0 <= i < |results| => results[i].0)
  }

  function Responses(results: seq<(ExtractedEntities, Json)>): seq<Json> {
    seq(|results|, i requires 0 <= i < |results| => results[i].1)
  }

  /** The merged entities and the list of raw responses, or the first error. */
  function ChunkedExtraction(chunks: seq<string>, country: string, language: string, context: Option<string>,
                             extract: Extract): Result<(ExtractedEntities, seq<Json>), string>
  {
    var results :- ExtractFirst(chunks, country, language, context, extract, |chunks|);
    Success((Merged(Entities(results)), Responses(results)))
  }

  /** The chunk loop. */
  method ExtractFromChunks(chunks: seq<string>, country: string, language: string, context: Option<string>,
                           extract: Extract) returns (r: Result<(ExtractedEntities, seq<Json>), string>)
    ensures r == ChunkedExtraction(chunks, country, language, context, extract)
  {
    var allEntities: seq<ExtractedEntities> := [];
    var allResponses: seq<Json> := [];
    ghost var results: seq<(ExtractedEntities, Json)> := [];
    for i := 0 to |chunks|
      invariant ExtractFirst(chunks, country, language, context, extract, i) == Success(results)
      invariant allEntities == Entities(results) && allResponses == Responses(results)
    {
      var outcome := extract(ExtractRequest(chunks[i], country, language, ChunkContext(context, i, |chunks|)));
      if outcome.Failure? {
        FailurePersists(chunks, country, language, context, extract, i + 1, |chunks|);
        return Failure(outcome.error);
      }
      ExtractStep(chunks, country, language, context, extract, i, results);
      var (entities, response) := outcome.value;
      PairsSnoc(results, (entities, response));
      allEntities := allEntities + [entities];
      allResponses := allResponses + [response];
      results := results + [(entities, response)];
    }
    var merged := MergeEntities(allEntities);
    r := Success((merged, allResponses));
  }

  lemma ExtractStep(chunks: seq<string>, country: string, language: string, context: Option<string>,
                    extract: Extract, i: nat, results: seq<(ExtractedEntities, Json)>)
    requires i < |chunks| && ExtractFirst(chunks, country, language, context, extract, i) == Success(results)
    requires extract(Request(chunks, country, language, context, i)).Success?
    ensures ExtractFirst(chunks, country, language, context, extract, i + 1) ==
      Success(results + [extract(Request(chunks, country, language, context, i)).value])
  {
  }

  lemma PairsSnoc(results: seq<(ExtractedEntities, Json)>, x: (ExtractedEntities, Json))
    ensures Entities(results + [x]) == Entities(results) + [x.0]
    ensures Responses(results + [x]) == Responses(results) + [x.1]
  {
    assert Entities(results + [x]) == Entities(results) + [x.0];
    assert Responses(results + [x]) == Responses(results) + [x.1];
  }

  // ---------------------------------------------------------------- properties

  lemma AroundDiffers<T>(p: seq<T>, x: seq<T>, y: seq<T>, q: seq<T>)
    requires x != y
    ensures p + x + q != p + y + q
  {
    if |x| == |y| {
      assert (p + x + q)[|p|..|p| + |x|] == (p + x)[|p|..] == x;
      assert (p + y + q)[|p|..|p| + |y|] == (p + y)[|p|..] == y;
    } else {
      assert |p + x + q| != |p + y + q|;
    }
  }

  /** Different chunks of one document get different contexts. */
  lemma ChunkContextsDiffer(context: Option<string>, i: nat, j: nat, n: nat)
    requires i != j
    ensures ChunkContext(context, i, n) != ChunkContext(context, j, n)
  {
    DecimalRoundTrip(i + 1);
    DecimalRoundTrip(j + 1);
    AroundDiffers(context.GetOr("") + " [Chunk ", NatToString(i + 1), NatToString(j + 1), " of " + NatToString(n) + "]");
  }

  /** Once a chunk has failed, later chunks change nothing. */
  lemma {:induction false} FailurePersists(chunks: seq<string>, country: string, language: string,
                                           context: Option<string>, extract: Extract, k: nat, k': nat)
    requires k <= k' <= |chunks|
    requires ExtractFirst(chunks, country, language, context, extract, k).Failure?
    ensures ExtractFirst(chunks, country, language, context, extract, k') ==
      ExtractFirst(chunks, country, language, context, extract, k)
  {
    if k' > k {
      FailurePersists(chunks, country, language, context, extract, k, k' - 1);
    }
  }

  /** When every chunk is extracted, the merge sees the chunks' entity sets in chunk order,
      and one response per chunk is returned in the same order. */
  lemma AllChunksExtracted(chunks: seq<string>, country: string, language: string, context: Option<string>,
                           extract: Extract)
    requires forall i :: 0 <= i < |chunks| ==> extract(Request(chunks, country, language, context, i)).Success?
    ensures var r := ChunkedExtraction(chunks, country, language, context, extract);
      r.Success? && |r.value.1| == |chunks| &&
      (forall i :: 0 <= i < |chunks| ==>
        r.value.1[i] == extract(Request(chunks, country, language, context, i)).value.1) &&
      |r.value.0.brackets| == SumLengths(Entities(ExtractFirst(chunks, country, language, context, extract, |chunks|).value), BracketsOf)
  {
    FirstChunksExtracted(chunks, country, language, context, extract, |chunks|);
    var results := ExtractFirst(chunks, country, language, context, extract, |chunks|).value;
    MergedBracketsAll(Entities(results), []);
  }

  lemma {:induction false} FirstChunksExtracted(chunks: seq<string>, country: string, language: string,
                                                context: Option<string>, extract: Extract, k: nat)
    requires k <= |chunks|
    requires forall i :: 0 <= i < k ==> extract(Request(chunks, country, language, context, i)).Success?
    ensures var r := ExtractFirst(chunks, country, language, context, extract, k);
      r.Success? && forall i :: 0 <= i < k ==> r.value[i] == extract(Request(chunks, country, language, context, i)).value
  {
    if k > 0 {
      FirstChunksExtracted(chunks, country, language, context, extract, k - 1);
    }
  }

  /** The first chunk whose extraction fails ends the run with its error. */
  lemma {:induction false} FirstFailureEnds(chunks: seq<string>, country: string, language: string,
                                            context: Option<string>, extract: Extract, j: nat, k: nat)
    requires j < k <= |chunks|
    requires forall i :: 0 <= i < j ==> extract(Request(chunks, country, language, context, i)).Success?
    requires extract(Request(chunks, country, language, context, j)).Failure?
    ensures ExtractFirst(chunks, country, language, context, extract, k) ==
      Failure(extract(Request(chunks, country, language, context, j)).error)
  {
    if k - 1 == j {
      FirstChunksExtracted(chunks, country, language, context, extract, j);
    } else {
      FirstFailureEnds(chunks, country, language, context, extract, j, k - 1);
    }
  }
}
