/** `CFDCaseExtractor` (src/pdf_chunk_ask_question.py): turning the pages of a paper
    into cleaned, filtered chunks held with their vector index, and answering a
    question from the chunks closest to it while logging failed and empty requests.
    The PDF reader, the text splitter, the sentence embedder, the FAISS search, the
    token counter and the language model are foreign; they are parameters here. */
module PdfChunk {
  import opened Wrappers
  import opened PyStrings
  import opened SeqUtil
  import opened TextCleaning

  // ---------------------------------------------------------------------------
  // Pages and the crop filter.

  /** A layout object on a PDF page (a character, a line, ...): its box, in points. */
  datatype LayoutObject = LayoutObject(x0: real, top: real, x1: real, bottom: real)

  datatype Page = Page(width: real, height: real, objects: seq<LayoutObject>)

  /** Width of the border dropped on every side (header, footer and margins). */
  const Margin: real := 50.0

  predicate InsideMargins(page: Page, obj: LayoutObject) {
    obj.x0 >= Margin && obj.top >= Margin && obj.x1 <= page.width - Margin && obj.bottom <= page.height - Margin
  }

  /** `page.filter(crop_filter)`: the objects lying within the margins, in page order. */
  function CroppedObjects(page: Page): (r: seq<LayoutObject>)
    ensures IsSubsequence(r, page.objects)
    ensures forall k :: 0 <= k < |r| ==>
      r[k].x0 >= 50.0 && r[k].top >= 50.0 && r[k].x1 <= page.width - 50.0 && r[k].bottom <= page.height - 50.0
    ensures forall k :: 0 <= k < |page.objects| && page.objects[k] !in r ==>
      !(page.objects[k].x0 >= 50.0 && page.objects[k].top >= 50.0 &&
        page.objects[k].x1 <= page.width - 50.0 && page.objects[k].bottom <= page.height - 50.0)
    ensures forall o :: multiset(r)[o] == if InsideMargins(page, o) then multiset(page.objects)[o] else 0
  {
    var keep := (obj: LayoutObject) => InsideMargins(page, obj);
    FilterIsSubsequence(page.objects, keep);
    FilterCounts(page.objects, keep);
    Filter(page.objects, keep)
  }

  /** The cleaned text of the page at index `i`, which is page number `i + 1`;
      `extract` stands for pdfplumber's layout text extraction. */
  function CleanPageAt(page: Page, i: nat, extract: seq<LayoutObject> -> string): string {
    CleanText(extract(CroppedObjects(page)), i + 1)
  }

  function PageCleaner(extract: seq<LayoutObject> -> string): (Page, nat) -> string {
    (page: Page, i: nat) => CleanPageAt(page, i, extract)
  }

  /** The non-empty results of `f` on the first `n` elements (each with its index), in order. */
  function NonEmptyResults<T>(xs: seq<T>, n: nat, f: (T, nat) -> string): seq<string>
    requires n <= |xs|
  {
    if n == 0 then []
    else
      var c := f(xs[n - 1], n - 1);
      NonEmptyResults(xs, n - 1, f) + (if c != "" then [c] else [])
  }

  /** The non-empty results are the results at some increasing indices, and every index
      left out gives "". */
  lemma {:induction false} NonEmptyResultsKept<T>(xs: seq<T>, n: nat, f: (T, nat) -> string) returns (kept: seq<nat>)
    requires n <= |xs|
    ensures |kept| == |NonEmptyResults(xs, n, f)|
    ensures forall k :: 0 <= k < |kept| ==> kept[k] < n && NonEmptyResults(xs, n, f)[k] == f(xs[kept[k]], kept[k])
    ensures forall k, l :: 0 <= k < l < |kept| ==> kept[k] < kept[l]
    ensures forall j :: 0 <= j < n && j !in kept ==> f(xs[j], j) == ""
  {
    if n == 0 {
      kept := [];
    } else {
      var prev := NonEmptyResultsKept(xs, n - 1, f);
      var m := n - 1;
      var c := f(xs[m], m);
      if c != "" {
        kept := prev + [m];
        WitnessesAdd(xs, m, f, NonEmptyResults(xs, m, f), prev);
        assert NonEmptyResults(xs, n, f) == NonEmptyResults(xs, m, f) + [c];
      } else {
        kept := prev;
        WitnessesSkip(xs, m, f, NonEmptyResults(xs, m, f), prev);
        assert NonEmptyResults(xs, n, f) == NonEmptyResults(xs, m, f);
      }
    }
  }

  /** `kept` lists, in increasing order, the indices below `n` whose results make up
      `r`, and every other index below `n` gives "". */
  predicate Witnesses<T>(xs: seq<T>, n: nat, f: (T, nat) -> string, r: seq<string>, kept: seq<nat>)
    requires n <= |xs|
  {
    && |kept| == |r|
    && (forall k :: 0 <= k < |kept| ==> kept[k] < n && r[k] == f(xs[kept[k]], kept[k]))
    && (forall k, l :: 0 <= k < l < |kept| ==> kept[k] < kept[l])
    && (forall j :: 0 <= j < n && j !in kept ==> f(xs[j], j) == "")
  }

  lemma {:induction false} WitnessesAdd<T>(xs: seq<T>, m: nat, f: (T, nat) -> string, r: seq<string>, kept: seq<nat>)
    requires m < |xs| && Witnesses(xs, m, f, r, kept)
    ensures Witnesses(xs, m + 1, f, r + [f(xs[m], m)], kept + [m])
  {
    var kept' := kept + [m];
    assert forall k :: 0 <= k < |kept| ==> kept'[k] == kept[k];
    assert forall j :: 0 <= j < m && j !in kept' ==> j !in kept;
  }

  lemma {:induction false} WitnessesSkip<T>(xs: seq<T>, m: nat, f: (T, nat) -> string, r: seq<string>, kept: seq<nat>)
    requires m < |xs| && Witnesses(xs, m, f, r, kept) && f(xs[m], m) == ""
    ensures Witnesses(xs, m + 1, f, r, kept)
  {
  }

  lemma {:induction false} NonEmptyResultsNonEmpty<T>(xs: seq<T>, n: nat, f: (T, nat) -> string)
    requires n <= |xs|
    ensures |NonEmptyResults(xs, n, f)| <= n
    ensures forall k :: 0 <= k < |NonEmptyResults(xs, n, f)| ==> NonEmptyResults(xs, n, f)[k] != ""
  {
    if n > 0 {
      NonEmptyResultsNonEmpty(xs, n - 1, f);
    }
  }

  /** The text blocks `process_pdf` collects: the non-empty cleaned pages, in page order. */
  function CleanedBlocks(pages: seq<Page>, extract: seq<LayoutObject> -> string): seq<string> {
    NonEmptyResults(pages, |pages|, PageCleaner(extract))
  }

  /** The loop of `process_pdf` over `enumerate(pdf.pages)`: compute `f` on every
      element with its index and append the non-empty results. */
  method CollectNonEmpty<T>(xs: seq<T>, f: (T, nat) -> string) returns (blocks: seq<string>)
    ensures blocks == NonEmptyResults(xs, |xs|, f)
  {
    blocks := [];
    var i := 0;
    while i < |xs|
      invariant 0 <= i <= |xs|
      invariant blocks == NonEmptyResults(xs, i, f)
    {
      var cleaned := f(xs[i], i);
      if cleaned != "" {
        blocks := blocks + [cleaned];
      }
      i := i + 1;
    }
  }

  // ---------------------------------------------------------------------------
  // Chunks and retrieval.

  /** Chunks longer than 50 characters once trimmed are the ones kept. */
  predicate Significant(chunk: string) {
    |Strip(chunk)| > 50
  }

  /** `[chunk for chunk in chunks if len(chunk.strip()) > 50]`. */
  function SignificantChunks(chunks: seq<string>): (r: seq<string>)
    ensures IsSubsequence(r, chunks)
    ensures forall k :: 0 <= k < |r| ==> |Strip(r[k])| > 50
    ensures forall k :: 0 <= k < |chunks| && |Strip(chunks[k])| > 50 ==> chunks[k] in r
    ensures forall c :: multiset(r)[c] == if |Strip(c)| > 50 then multiset(chunks)[c] else 0
  {
    FilterIsSubsequence(chunks, Significant);
    FilterCounts(chunks, Significant);
    Filter(chunks, Significant)
  }

  /** One search result: a row id of the index and its (squared L2) distance. */
  datatype Hit = Hit(id: int, distance: real)

  /** A flat L2 index holding one vector per chunk. */
  datatype FlatIndex = FlatIndex(vectors: seq<seq<real>>)

  /** Python's `xs[id]` on a list: negative ids count from the end. */
  predicate ValidListIndex(id: int, n: nat) {
    -(n as int) <= id < n
  }

  function PyIndex(xs: seq<string>, id: int): string
    requires ValidListIndex(id, |xs|)
  {
    if id < 0 then xs[|xs| + id] else xs[id]
  }

  const ListIndexError: string := "list index out of range"

  /** `[self.chunks[i] for i, d in zip(ids, distances) if d < threshold]`: the chunks of
      the hits closer than the threshold, in result order; an id that is not a valid
      list index raises `IndexError`. */
  function RelevantChunks(hits: seq<Hit>, chunks: seq<string>, threshold: real): (r: Result<seq<string>, string>)
    ensures r.Ok? ==> |r.value| <= |hits|
    ensures r.Ok? ==> forall k :: 0 <= k < |r.value| ==> r.value[k] in chunks
    ensures r.Err? <==> exists k :: 0 <= k < |hits| && hits[k].distance < threshold && !ValidListIndex(hits[k].id, |chunks|)
    ensures r.Err? ==> r.error == ListIndexError
  {
    if hits == [] then Ok([])
    else
      var rest := RelevantChunks(hits[1..], chunks, threshold);
      assert forall k :: 1 <= k < |hits| ==> hits[k] == hits[1..][k - 1];
      if hits[0].distance >= threshold then rest
      else if !ValidListIndex(hits[0].id, |chunks|) then Err(ListIndexError)
      else if rest.Err? then rest
      else Ok([PyIndex(chunks, hits[0].id)] + rest.value)
  }

  /** The hits closer than the threshold, in result order. */
  function CloseHits(hits: seq<Hit>, threshold: real): seq<Hit> {
    if hits == [] then []
    else if hits[0].distance < threshold then [hits[0]] + CloseHits(hits[1..], threshold)
    else CloseHits(hits[1..], threshold)
  }

  /** When no lookup fails, the relevant chunks are exactly the chunks named by the close
      hits, one for one and in order. */
  lemma {:induction false} RelevantChunksOfCloseHits(hits: seq<Hit>, chunks: seq<string>, threshold: real)
    requires RelevantChunks(hits, chunks, threshold).Ok?
    ensures var close := CloseHits(hits, threshold);
      var r := RelevantChunks(hits, chunks, threshold).value;
      |r| == |close| &&
      forall k :: 0 <= k < |r| ==> ValidListIndex(close[k].id, |chunks|) && r[k] == PyIndex(chunks, close[k].id)
  {
    if hits != [] {
      RelevantChunksOfCloseHits(hits[1..], chunks, threshold);
      if hits[0].distance < threshold {
        var c, r := CloseHits(hits[1..], threshold), RelevantChunks(hits[1..], chunks, threshold).value;
        var x := PyIndex(chunks, hits[0].id);
        assert forall k :: 1 <= k <= |r| ==> ([x] + r)[k] == r[k - 1] && ([hits[0]] + c)[k] == c[k - 1];
      }
    }
  }

  /** Raising the distance threshold never removes a relevant chunk, and a failing lookup
      keeps failing. */
  lemma {:induction false} RelevantChunksMonotone(hits: seq<Hit>, chunks: seq<string>, lower: real, higher: real)
    requires lower <= higher
    ensures RelevantChunks(hits, chunks, lower).Err? ==> RelevantChunks(hits, chunks, higher).Err?
    ensures RelevantChunks(hits, chunks, lower).Ok? && RelevantChunks(hits, chunks, higher).Ok? ==>
      IsSubsequence(RelevantChunks(hits, chunks, lower).value, RelevantChunks(hits, chunks, higher).value)
  {
    if hits != [] {
      RelevantChunksMonotone(hits[1..], chunks, lower, higher);
      var lo, hi := RelevantChunks(hits[1..], chunks, lower), RelevantChunks(hits[1..], chunks, higher);
      if lo.Ok? && hi.Ok? && hits[0].distance < higher && ValidListIndex(hits[0].id, |chunks|) {
        var x := PyIndex(chunks, hits[0].id);
        if hits[0].distance < lower {
          assert ([x] + lo.value)[1..] == lo.value;
          assert ([x] + hi.value)[1..] == hi.value;
        } else {
          SubsequenceOfTail(lo.value, hi.value, x);
        }
      }
    }
  }

  /** `sum(self._count_tokens(chunk) for chunk in chunks)`: the generator stops at the
      first chunk whose count raises. */
  function SumTokens(chunks: seq<string>, countTokens: string -> Result<nat, string>): (r: Result<nat, string>)
    ensures r.Err? <==> exists k :: 0 <= k < |chunks| && countTokens(chunks[k]).Err?
  {
    if chunks == [] then Ok(0)
    else
      var rest := SumTokens(chunks[1..], countTokens);
      assert forall k :: 1 <= k < |chunks| ==> chunks[k] == chunks[1..][k - 1];
      match countTokens(chunks[0])
      case Err(e) => Err(e)
      case Ok(n) => if rest.Err? then rest else Ok(n + rest.value)
  }

  const PromptIntro: string :=
    "You are a CFD expert assistant. Extract technical parameters from research papers and structure answers in markdown tables.\n"
    + "            Analyze these CFD paper excerpts:\n"
    + "            [[[ "
  const PromptMiddle: string := " ]]]\n            Extract specific details about: [[[ "
  const PromptEnd: string := " ]]] \n            "

  /** The question put to the language model; `render` stands for Python's `repr` of
      the list of chunks. */
  function Prompt(relevant: seq<string>, question: string, render: seq<string> -> string): string {
    PromptIntro + render(relevant) + PromptMiddle + question + PromptEnd
  }

  // ---------------------------------------------------------------------------
  // Request log.

  datatype RequestEntry = RequestEntry(
    timestamp: string,
    question: string,
    promptTokens: nat,
    completionTokens: nat,
    totalTokens: nat,
    status: string,
    error: Option<string>,
    contextTokens: Option<nat>)

  /** The record a request starts with. */
  function NewEntry(timestamp: string, question: string): RequestEntry {
    RequestEntry(timestamp, question, 0, 0, 0, "success", None, None)
  }

  /** `request_entry.update({"status": "failed", "error": str(e)})`. */
  function Failed(entry: RequestEntry, message: string): (r: RequestEntry)
    ensures r.status == "failed" && r.error == Some(message)
    ensures r.(status := entry.status, error := entry.error) == entry
  {
    entry.(status := "failed", error := Some(message))
  }

  const NoIndexMessage: string := "Please process PDF document using process_pdf first"
  const NoRelevantMessage: string := "No relevant CFD configuration information found"
  const EmptyEmbeddingsMessage: string := "tuple index out of range"

  function ProcessingError(message: string): string {
    "Processing error: " + message
  }

  /** The foreign services a query uses: the sentence embedder, the FAISS search (the
      hits of the `k` nearest rows), the token counter, Python's `repr` of a list of
      chunks, and the language model (with or without conversation context). Each
      service that can raise gives an `Err` with the exception's message. */
  datatype Services = Services(
    embedQuery: string -> Result<seq<real>, string>,
    search: (FlatIndex, seq<real>, nat) -> Result<seq<Hit>, string>,
    countTokens: string -> Result<nat, string>,
    render: seq<string> -> string,
    ask: (bool, string) -> Result<string, string>)

  /** The chunks retrieved for a question: embed it, search the index, and look up the
      close hits; the first of these steps that raises gives the error. */
  function Retrieve(index: FlatIndex, chunks: seq<string>, question: string, topK: nat, threshold: real,
                    services: Services): (r: Result<seq<string>, string>)
    ensures services.embedQuery(question).Err? ==> r == Err(services.embedQuery(question).error)
    ensures services.embedQuery(question).Ok? ==>
      var hits := services.search(index, services.embedQuery(question).value, topK);
      (hits.Err? ==> r == Err(hits.error)) &&
      (hits.Ok? ==> r == RelevantChunks(hits.value, chunks, threshold))
  {
    match services.embedQuery(question)
    case Err(e) => Err(e)
    case Ok(embedding) =>
      match services.search(index, embedding, topK)
      case Err(e) => Err(e)
      case Ok(hits) => RelevantChunks(hits, chunks, threshold)
  }

  /** What a query produces: the reply, whether the model was asked, and the entries
      appended to the request log. */
  datatype QueryOutcome = QueryOutcome(reply: string, asked: bool, logged: seq<RequestEntry>)

  /** The outcome of `query_case_setup` on a given index and chunk list. Every raised
      exception ends in the `except` branch, which logs the entry as failed. */
  function Query(index: Option<FlatIndex>, chunks: seq<string>, question: string, topK: nat, context: bool,
                 threshold: real, timestamp: string, services: Services): (r: QueryOutcome)
    ensures |r.logged| <= 1
    ensures forall k :: 0 <= k < |r.logged| ==>
      (r.logged[k].status == "failed" || r.logged[k].status == "empty") &&
      r.logged[k].timestamp == timestamp && r.logged[k].question == question
    ensures r.logged == [] ==> r.asked
    ensures r.asked <==>
      index.Some? && Retrieve(index.value, chunks, question, topK, threshold, services).Ok? &&
      Retrieve(index.value, chunks, question, topK, threshold, services).value != [] &&
      SumTokens(Retrieve(index.value, chunks, question, topK, threshold, services).value, services.countTokens).Ok?
  {
    var entry := NewEntry(timestamp, question);
    if index.None? then QueryOutcome(ProcessingError(NoIndexMessage), false, [Failed(entry, NoIndexMessage)])
    else
      match Retrieve(index.value, chunks, question, topK, threshold, services)
      case Err(e) => QueryOutcome(ProcessingError(e), false, [Failed(entry, e)])
      case Ok(rel) =>
        match SumTokens(rel, services.countTokens)
        case Err(e) => QueryOutcome(ProcessingError(e), false, [Failed(entry, e)])
        case Ok(n) =>
          var counted := entry.(contextTokens := Some(n));
          if rel == [] then QueryOutcome(NoRelevantMessage, false, [counted.(status := "empty")])
          else
            match services.ask(context, Prompt(rel, question, services.render))
            case Ok(answer) => QueryOutcome(answer, true, [])
            case Err(e) => QueryOutcome(ProcessingError(e), true, [Failed(counted, e)])
  }

  /** Without an index nothing is retrieved or asked, and the failure is logged without
      a context-token count. */
  lemma {:induction false} QueryWithoutIndex(chunks: seq<string>, question: string, topK: nat, context: bool,
                          threshold: real, timestamp: string, services: Services)
    ensures var r := Query(None, chunks, question, topK, context, threshold, timestamp, services);
      !r.asked && r.reply == ProcessingError(NoIndexMessage) &&
      r.logged == [Failed(NewEntry(timestamp, question), NoIndexMessage)]
  {
  }

  /** A failure while embedding, searching or looking up chunks is logged as one failed
      entry carrying the message and no context-token count, and the reply reports it. */
  lemma {:induction false} QueryRetrievalFailed(index: FlatIndex, chunks: seq<string>, question: string, topK: nat,
                          context: bool, threshold: real, timestamp: string, services: Services)
    requires Retrieve(index, chunks, question, topK, threshold, services).Err?
    ensures var e := Retrieve(index, chunks, question, topK, threshold, services).error;
      var r := Query(Some(index), chunks, question, topK, context, threshold, timestamp, services);
      !r.asked && r.reply == ProcessingError(e) && r.logged == [Failed(NewEntry(timestamp, question), e)]
  {
  }

  /** A token-count failure after retrieval is logged the same way: the context-token
      count was never stored. */
  lemma {:induction false} QueryCountFailed(index: FlatIndex, chunks: seq<string>, question: string, topK: nat,
                          context: bool, threshold: real, timestamp: string, services: Services)
    requires var rel := Retrieve(index, chunks, question, topK, threshold, services);
      rel.Ok? && SumTokens(rel.value, services.countTokens).Err?
    ensures var rel := Retrieve(index, chunks, question, topK, threshold, services).value;
      var e := SumTokens(rel, services.countTokens).error;
      var r := Query(Some(index), chunks, question, topK, context, threshold, timestamp, services);
      !r.asked && r.reply == ProcessingError(e) && r.logged == [Failed(NewEntry(timestamp, question), e)]
  {
  }

  /** A request is logged as empty exactly when an index exists and retrieval succeeds
      with no chunk; then the reply is the fixed message, the context-token count is
      zero and there is no error. */
  lemma {:induction false} QueryEmptyEntry(index: Option<FlatIndex>, chunks: seq<string>, question: string, topK: nat, context: bool,
                        threshold: real, timestamp: string, services: Services)
    ensures var r := Query(index, chunks, question, topK, context, threshold, timestamp, services);
      (r.logged != [] && r.logged[0].status == "empty") <==>
      (index.Some? && Retrieve(index.value, chunks, question, topK, threshold, services) == Ok([]))
    ensures var r := Query(index, chunks, question, topK, context, threshold, timestamp, services);
      index.Some? && Retrieve(index.value, chunks, question, topK, threshold, services) == Ok([]) ==>
      !r.asked && r.reply == NoRelevantMessage &&
      r.logged == [NewEntry(timestamp, question).(status := "empty", contextTokens := Some(0))]
  {
  }

  /** Once chunks were retrieved and counted, a request goes unlogged exactly when the
      model answers, and then the reply is the answer. */
  lemma {:induction false} QueryAnswered(index: FlatIndex, chunks: seq<string>, question: string, topK: nat, context: bool,
                      threshold: real, timestamp: string, services: Services)
    requires var rel := Retrieve(index, chunks, question, topK, threshold, services);
      rel.Ok? && rel.value != [] && SumTokens(rel.value, services.countTokens).Ok?
    ensures var rel := Retrieve(index, chunks, question, topK, threshold, services).value;
      var answer := services.ask(context, Prompt(rel, question, services.render));
      var r := Query(Some(index), chunks, question, topK, context, threshold, timestamp, services);
      (r.logged == [] <==> answer.Ok?) &&
      (answer.Ok? ==> r.reply == answer.value) &&
      (answer.Err? ==>
        (r.reply == ProcessingError(answer.error) && r.logged[0].error == Some(answer.error) &&
         r.logged[0].contextTokens == Some(SumTokens(rel, services.countTokens).value)))
  {
  }

  class CFDCaseExtractor {
    var chunks: seq<string>
    var index: Option<FlatIndex>
    var tokenUsage: seq<RequestEntry>

    /** Only failed and empty requests are ever logged; a successful one never is. */
    predicate Valid()
      reads this
    {
      forall k :: 0 <= k < |tokenUsage| ==> tokenUsage[k].status == "failed" || tokenUsage[k].status == "empty"
    }

    constructor()
      ensures chunks == [] && index == None && tokenUsage == []
      ensures Valid()
    {
      chunks := [];
      index := None;
      tokenUsage := [];
    }

    /** The second half of `process_pdf`: split the joined text blocks into chunks, keep
        the significant ones and build the index of their embeddings. An embedder that
        raises, or an embedding array without a second dimension (no chunk), ends the
        call after `chunks` has been overwritten and with the previous index in place. */
    method IndexText(blocks: seq<string>,
                      split: string -> seq<string>, embed: seq<string> -> Result<seq<seq<real>>, string>)
      returns (error: Option<string>)
      requires Valid()
      modifies this
      ensures Valid()
      ensures chunks == SignificantChunks(split(Join(blocks, "\n")))
      ensures tokenUsage == old(tokenUsage)
      ensures embed(chunks).Err? ==> index == old(index) && error == Some(embed(chunks).error)
      ensures embed(chunks).Ok? && chunks == [] ==> index == old(index) && error == Some(EmptyEmbeddingsMessage)
      ensures embed(chunks).Ok? && chunks != [] ==> index == Some(FlatIndex(embed(chunks).value)) && error == None
    {
      chunks := split(Join(blocks, "\n"));
      chunks := SignificantChunks(chunks);
      var embeddings := embed(chunks);
      if embeddings.Err? {
        error := Some(embeddings.error);
        return;
      }
      if chunks == [] {
        error := Some(EmptyEmbeddingsMessage);
        return;
      }
      index := Some(FlatIndex(embeddings.value));
      error := None;
    }

    /** `process_pdf`: clean the pages, split their text into chunks with `split`, keep the
        significant chunks and index their embeddings; it fails as `IndexText` does. */
    method ProcessPdf(pages: seq<Page>, extract: seq<LayoutObject> -> string,
                      split: string -> seq<string>, embed: seq<string> -> Result<seq<seq<real>>, string>)
      returns (error: Option<string>)
      requires Valid()
      modifies this
      ensures Valid()
      ensures chunks == SignificantChunks(split(Join(CleanedBlocks(pages, extract), "\n")))
      ensures tokenUsage == old(tokenUsage)
      ensures embed(chunks).Err? ==> index == old(index) && error == Some(embed(chunks).error)
      ensures embed(chunks).Ok? && chunks == [] ==> index == old(index) && error == Some(EmptyEmbeddingsMessage)
      ensures embed(chunks).Ok? && chunks != [] ==> index == Some(FlatIndex(embed(chunks).value)) && error == None
    {
      var blocks := CollectNonEmpty(pages, PageCleaner(extract));
      error := IndexText(blocks, split, embed);
    }

    /** `query_case_setup`: retrieve, log, and ask; `asked` tells whether the language
        model was called. */
    method QueryCaseSetup(question: string, topK: nat, context: bool, threshold: real, timestamp: string,
                          services: Services)
      returns (reply: string, asked: bool)
      requires Valid()
      modifies this
      ensures Valid()
      ensures chunks == old(chunks) && index == old(index)
      ensures var outcome := Query(old(index), old(chunks), question, topK, context, threshold, timestamp, services);
        reply == outcome.reply && asked == outcome.asked && tokenUsage == old(tokenUsage) + outcome.logged
    {
      var entry := NewEntry(timestamp, question);
      asked := false;
      if index.None? {
        entry := Failed(entry, NoIndexMessage);
        tokenUsage := tokenUsage + [entry];
        reply := ProcessingError(NoIndexMessage);
        return;
      }
      var queryEmbed := services.embedQuery(question);
      if queryEmbed.Err? {
        entry := Failed(entry, queryEmbed.error);
        tokenUsage := tokenUsage + [entry];
        reply := ProcessingError(queryEmbed.error);
        return;
      }
      var hits := services.search(index.value, queryEmbed.value, topK);
      if hits.Err? {
        entry := Failed(entry, hits.error);
        tokenUsage := tokenUsage + [entry];
        reply := ProcessingError(hits.error);
        return;
      }
      var relevant := RelevantChunks(hits.value, chunks, threshold);
      if relevant.Err? {
        entry := Failed(entry, relevant.error);
        tokenUsage := tokenUsage + [entry];
        reply := ProcessingError(relevant.error);
        return;
      }
      var rel := relevant.value;
      var contextTokens := SumTokens(rel, services.countTokens);
      if contextTokens.Err? {
        entry := Failed(entry, contextTokens.error);
        tokenUsage := tokenUsage + [entry];
        reply := ProcessingError(contextTokens.error);
        return;
      }
      entry := entry.(contextTokens := Some(contextTokens.value));
      if rel == [] {
        entry := entry.(status := "empty");
        tokenUsage := tokenUsage + [entry];
        reply := NoRelevantMessage;
        return;
      }
      var prompt := Prompt(rel, question, services.render);
      asked := true;
      var answer := services.ask(context, prompt);
      if answer.Err? {
        entry := Failed(entry, answer.error);
        tokenUsage := tokenUsage + [entry];
        reply := ProcessingError(answer.error);
        return;
      }
      reply := answer.value;
    }
  }
}
