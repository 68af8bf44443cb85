/** The draft engine: one question goes through embedding, retrieval of the user's most
    similar knowledge chunks, prompt assembly, completion, confidence scoring and status
    classification; citations and the answer are then written to the store. */
module Draft {
  import opened Common
  import opened Store
  import opened Embedding

  /** A retrieved chunk: the embedding row it comes from, its text and its similarity
      (one minus the cosine distance). */
  datatype SimilarChunk = SimilarChunk(embeddingId: Id, chunkContent: string, similarityScore: real)

  /** The external services. `embed` is the embedding model (it may fail, and may return a
      vector of any length; a response without values is the empty vector); `rank` is the
      user's stored chunks ordered by cosine distance to a vector, nearest first;
      `complete` is the text of the language model's answer to a prompt. */
  datatype Services = Services(
    embed: string -> Result<seq<real>>,
    rank: (UserId, seq<real>) -> Result<seq<SimilarChunk>>,
    complete: string -> Result<string>)

  /** What the draft needs of the project. */
  datatype DraftSettings = DraftSettings(userId: UserId, reviewThreshold: real, autoApprove: bool)

  datatype DraftResult = DraftResult(
    answer: string,
    confidence: real,
    status: QuestionStatus,
    chunks: seq<SimilarChunk>)

  /** Number of chunks retrieved per question. */
  const TopK: nat := 4

  /** Longest citation snippet. */
  const SnippetLength: nat := 200

  const NoContextAnswer := "Not enough information"

  /** The result of a draft that found no context at all. */
  const NoContextDraft := DraftResult(NoContextAnswer, 0.0, NeedsReview, [])

  // ---------------------------------------------------------------------------
  // Steps of the pipeline
  // ---------------------------------------------------------------------------

  /** `generateQuestionEmbedding`: the provider's vector fitted to the column width; an
      empty vector is an error. */
  function GenerateQuestionEmbedding(embed: string -> Result<seq<real>>, text: string): (r: Result<seq<real>>)
    ensures r.Ok? <==> embed(text).Ok? && embed(text).value != []
    ensures embed(text).Err? ==> r == embed(text)
    ensures embed(text).Ok? && embed(text).value == [] ==> r == Err(Failure("Empty embedding returned"))
    ensures r.Ok? ==> |r.value| == Dimension
    ensures r.Ok? ==> forall i :: 0 <= i < |embed(text).value| && i < Dimension ==> r.value[i] == embed(text).value[i]
  {
    match embed(text)
    case Err(e) => Err(e)
    case Ok(v) =>
      if v == [] then Err(Failure("Empty embedding returned"))
      else
        Ok(NormalizeDimension(v))
  }

  /** `searchSimilarChunks`: the `topK` nearest of the user's chunks (`LIMIT topK`). */
  function SearchSimilarChunks(
    rank: (UserId, seq<real>) -> Result<seq<SimilarChunk>>, userId: UserId, v: seq<real>, topK: nat)
    : (r: Result<seq<SimilarChunk>>)
    ensures r.Ok? <==> rank(userId, v).Ok?
    ensures r.Err? ==> r == rank(userId, v)
    ensures r.Ok? ==> |r.value| <= topK && |r.value| <= |rank(userId, v).value| && r.value == rank(userId, v).value[..|r.value|]
    ensures r.Ok? && |r.value| < topK ==> r.value == rank(userId, v).value
  {
    match rank(userId, v)
    case Err(e) => Err(e)
    case Ok(all) => Ok(if |all| <= topK then all else all[..topK])
  }

  /** `calculateConfidence`: `max(0, min(1, x))`. */
  function CalculateConfidence(x: real): (c: real)
    ensures 0.0 <= c <= 1.0
    ensures 0.0 <= x <= 1.0 ==> c == x
    ensures x < 0.0 ==> c == 0.0
    ensures x > 1.0 ==> c == 1.0
  {
    var m := if 1.0 < x then 1.0 else x;
    if 0.0 < m then m else 0.0
  }

  /** Clamping never reverses the order of two scores. */
  lemma CalculateConfidenceMonotonic(x: real, y: real)
    requires x <= y
    ensures CalculateConfidence(x) <= CalculateConfidence(y)
  {
  }

  /** `determineStatus`: below the threshold a human must review; otherwise the project's
      auto-approve flag decides between APPROVED and DRAFTED. */
  function DetermineStatus(confidence: real, reviewThreshold: real, autoApprove: bool): (s: QuestionStatus)
    ensures s == NeedsReview || s == Approved || s == Drafted
    ensures s == NeedsReview <==> confidence < reviewThreshold
    ensures s == Approved <==> reviewThreshold <= confidence && autoApprove
    ensures s == Drafted <==> reviewThreshold <= confidence && !autoApprove
  {
    if confidence < reviewThreshold then NeedsReview
    else if autoApprove then Approved
    else Drafted
  }

  /** Raising the confidence can only move a question out of review, never into it. */
  lemma DetermineStatusMonotonic(c: real, c': real, threshold: real, autoApprove: bool)
    requires c <= c'
    requires DetermineStatus(c, threshold, autoApprove) != NeedsReview
    ensures DetermineStatus(c', threshold, autoApprove) == DetermineStatus(c, threshold, autoApprove)
  {
  }

  // ---------------------------------------------------------------------------
  // Prompt
  // ---------------------------------------------------------------------------

  const SystemPrompt: string :=
    "You are answering security questionnaires for a B2B company. \n"
    + "Your task is to provide accurate, concise answers based ONLY on the provided context.\n"
    + "If the context does not contain enough information to answer the question, respond with \"Not enough information\".\n"
    + "Do not use any external knowledge or make assumptions beyond what is provided in the context."

  const PromptEnd := "\n\n## Answer:"

  /** The citation marker `[n] ` that numbers the chunks from one. */
  function Marker(n: nat): string {
    "[" + Decimal(n) + "] "
  }

  /** Chunk `i` of the retrieval order, numbered `i + 1`. */
  function ContextParts(chunks: seq<SimilarChunk>): (parts: seq<string>)
    ensures |parts| == |chunks|
    ensures forall i :: 0 <= i < |chunks| ==> parts[i] == Marker(i + 1) + chunks[i].chunkContent
  {
    seq(|chunks|, i requires 0 <= i < |chunks| => Marker(i + 1) + chunks[i].chunkContent)
  }

  /** `buildPrompt`: the system text, the numbered context and the question, ending with
      the answer heading. */
  function BuildPrompt(question: string, chunks: seq<SimilarChunk>): (p: string)
    ensures StartsWith(p, SystemPrompt + "\n\n## Context:\n")
    ensures EndsWith(p, "\n\n## Question:\n" + question + PromptEnd)
    ensures p == SystemPrompt + "\n\n## Context:\n" + Join(ContextParts(chunks), "\n\n")
                 + "\n\n## Question:\n" + question + PromptEnd
  {
    var context := Join(ContextParts(chunks), "\n\n");
    var head := SystemPrompt + "\n\n## Context:\n";
    var tail := "\n\n## Question:\n" + question + PromptEnd;
    FramedBy(head, context, tail);
    head + context + tail
  }

  /** A text built as `head + middle + tail` starts with the head and ends with the tail. */
  lemma FramedBy(head: string, middle: string, tail: string)
    ensures StartsWith(head + middle + tail, head) && EndsWith(head + middle + tail, tail)
  {
    var p := head + middle + tail;
    assert p[..|head|] == head;
    assert p[|p| - |tail|..] == tail;
  }

  /** An occurrence inside a string is an occurrence inside anything built around it. */
  lemma OccursWithin(a: string, m: string, b: string, needle: string, k: int)
    requires OccursAt(m, needle, k)
    ensures OccursAt(a + m + b, needle, |a| + k)
  {
    assert (a + m + b)[|a| + k..|a| + k + |needle|] == m[k..k + |needle|];
  }

  /** Every part is found in the joined text. */
  lemma {:induction false} JoinContainsEach(parts: seq<string>, sep: string, i: nat)
    requires i < |parts|
    ensures Contains(Join(parts, sep), parts[i])
  {
    var j := Join(parts, sep);
    if i == 0 {
      assert OccursAt(j, parts[0], 0);
    } else {
      JoinContainsEach(parts[1..], sep, i - 1);
      var rest := Join(parts[1..], sep);
      var k :| 0 <= k <= |rest| - |parts[i]| && OccursAt(rest, parts[i], k);
      OccursWithin(parts[0] + sep, rest, [], parts[i], k);
      assert parts[0] + sep + rest + [] == j;
    }
  }

  /** The prompt carries every retrieved chunk behind its number. */
  lemma PromptCitesEveryChunk(question: string, chunks: seq<SimilarChunk>, i: nat)
    requires i < |chunks|
    ensures Contains(BuildPrompt(question, chunks), Marker(i + 1) + chunks[i].chunkContent)
  {
    var parts := ContextParts(chunks);
    var context := Join(parts, "\n\n");
    JoinContainsEach(parts, "\n\n", i);
    var k :| 0 <= k <= |context| - |parts[i]| && OccursAt(context, parts[i], k);
    OccursWithin(SystemPrompt + "\n\n## Context:\n", context, "\n\n## Question:\n" + question + PromptEnd, parts[i], k);
  }

  /** Neighbouring chunks follow each other in the prompt in retrieval order, behind
      their numbers and separated by a blank line. */
  lemma PromptListsChunksInOrder(question: string, chunks: seq<SimilarChunk>, i: nat)
    requires i + 1 < |chunks|
    ensures Contains(BuildPrompt(question, chunks),
                     Marker(i + 1) + chunks[i].chunkContent + "\n\n" + Marker(i + 2) + chunks[i + 1].chunkContent)
  {
    var parts := ContextParts(chunks);
    var context := Join(parts, "\n\n");
    var pair := parts[i] + "\n\n" + parts[i + 1];
    assert pair == Marker(i + 1) + chunks[i].chunkContent + "\n\n" + Marker(i + 2) + chunks[i + 1].chunkContent;
    JoinContainsNeighbours(parts, "\n\n", i);
    var k :| 0 <= k <= |context| - |pair| && OccursAt(context, pair, k);
    OccursWithin(SystemPrompt + "\n\n## Context:\n", context, "\n\n## Question:\n" + question + PromptEnd, pair, k);
  }

  /** Two neighbouring parts are found in the joined text with the separator between them. */
  lemma {:induction false} JoinContainsNeighbours(parts: seq<string>, sep: string, i: nat)
    requires i + 1 < |parts|
    ensures Contains(Join(parts, sep), parts[i] + sep + parts[i + 1])
  {
    var j := Join(parts, sep);
    var tail := parts[1..];
    var rest := Join(tail, sep);
    assert j == parts[0] + sep + rest;
    if i == 0 {
      assert StartsWith(rest, tail[0]);
      assert OccursAt(j, parts[0] + sep + parts[1], 0) by {
        assert j[..|parts[0] + sep + parts[1]|] == parts[0] + sep + rest[..|parts[1]|];
      }
    } else {
      JoinContainsNeighbours(tail, sep, i - 1);
      assert tail[i - 1] == parts[i] && tail[i] == parts[i + 1];
      var needle := parts[i] + sep + parts[i + 1];
      var k :| 0 <= k <= |rest| - |needle| && OccursAt(rest, needle, k);
      OccursWithin(parts[0] + sep, rest, [], needle, k);
      assert parts[0] + sep + rest + [] == j;
    }
  }

  /** `generateAnswer`: the trimmed completion; blank output is an error. */
  function GenerateAnswer(complete: string -> Result<string>, prompt: string): (r: Result<string>)
    ensures complete(prompt).Err? ==> r == complete(prompt)
    ensures complete(prompt).Ok? && AllSpace(complete(prompt).value) ==>
              r == Err(Failure("Empty response from LLM"))
    ensures r.Ok? <==> complete(prompt).Ok? && !AllSpace(complete(prompt).value)
    ensures r.Ok? ==> r.value == Trim(complete(prompt).value) && r.value != [] && IsTrimmed(r.value)
  {
    match complete(prompt)
    case Err(e) => Err(e)
    case Ok(text) =>
      TrimEmptyIffAllSpace(text);
      if text == [] || Trim(text) == [] then Err(Failure("Empty response from LLM"))
      else Ok(Trim(text))
  }

  // ---------------------------------------------------------------------------
  // Citations
  // ---------------------------------------------------------------------------

  /** `substring(0, 200)`. */
  function Snippet(s: string): (r: string)
    ensures |r| <= SnippetLength && |r| <= |s| && r == s[..|r|]
    ensures |s| <= SnippetLength ==> r == s
    ensures |s| > SnippetLength ==> |r| == SnippetLength
  {
    if |s| <= SnippetLength then s else s[..SnippetLength]
  }

  /** The citation rows of one draft: one per chunk, in retrieval order. */
  function MakeCitations(chunks: seq<SimilarChunk>): (cs: seq<Citation>)
    ensures |cs| == |chunks|
    ensures forall i :: 0 <= i < |chunks| ==>
              && cs[i].embeddingId == chunks[i].embeddingId
              && cs[i].score == chunks[i].similarityScore
              && cs[i].snippet == Snippet(chunks[i].chunkContent)
  {
    seq(|chunks|, i requires 0 <= i < |chunks| =>
      Citation(chunks[i].embeddingId, chunks[i].similarityScore, Snippet(chunks[i].chunkContent)))
  }

  /** `saveCitations`: the question's earlier citations are all replaced by the new ones. */
  method SaveCitations(db: Db, questionId: Id, chunks: seq<SimilarChunk>)
    requires db.Valid()
    modifies db`citations
    ensures db.Valid()
    ensures db.citations == old(db.citations)[questionId := MakeCitations(chunks)]
  {
    var kept := map id | id in db.citations && id != questionId :: db.citations[id];
    db.citations := kept;
    db.citations := db.citations[questionId := MakeCitations(chunks)];
  }

  // ---------------------------------------------------------------------------
  // One question
  // ---------------------------------------------------------------------------

  /** The result of drafting one question, or the error that aborts it. */
  function DraftOutcome(sv: Services, questionText: string, settings: DraftSettings): (r: Result<DraftResult>)
    ensures sv.embed(questionText).Err? ==> r == Err(sv.embed(questionText).error)
    ensures r.Ok? ==> |r.value.chunks| <= TopK
    ensures r.Ok? ==> 0.0 <= r.value.confidence <= 1.0
    ensures r.Ok? ==> r.value.status == NeedsReview || r.value.status == Approved || r.value.status == Drafted
    ensures r.Ok? && r.value.chunks == [] ==> r.value == NoContextDraft
    ensures r.Ok? && r.value.chunks != [] ==>
              && r.value.confidence == CalculateConfidence(r.value.chunks[0].similarityScore)
              && r.value.status == DetermineStatus(r.value.confidence, settings.reviewThreshold, settings.autoApprove)
              && r.value.answer != [] && IsTrimmed(r.value.answer)
              && sv.complete(BuildPrompt(questionText, r.value.chunks)).Ok?
              && r.value.answer == Trim(sv.complete(BuildPrompt(questionText, r.value.chunks)).value)
  {
    match GenerateQuestionEmbedding(sv.embed, questionText)
    case Err(e) => Err(e)
    case Ok(v) =>
      match SearchSimilarChunks(sv.rank, settings.userId, v, TopK)
      case Err(e) => Err(e)
      case Ok(chunks) =>
        if chunks == [] then Ok(NoContextDraft)
        else
          match GenerateAnswer(sv.complete, BuildPrompt(questionText, chunks))
          case Err(e) => Err(e)
          case Ok(answer) =>
            var confidence := CalculateConfidence(chunks[0].similarityScore);
            Ok(DraftResult(answer, confidence,
              DetermineStatus(confidence, settings.reviewThreshold, settings.autoApprove), chunks))
  }

  /** The draft follows the retrieval: the embedding's error, else the search's error;
      when the search finds nothing, the no-context draft; otherwise the answer to the
      prompt built from exactly the retrieved chunks, scored by the first of them, or
      the answer's error. */
  lemma DraftFollowsRetrieval(sv: Services, questionText: string, settings: DraftSettings)
    ensures var r := DraftOutcome(sv, questionText, settings);
            var e := GenerateQuestionEmbedding(sv.embed, questionText);
            && (e.Err? ==> r == Err(e.error))
            && (e.Ok? ==>
                  var s := SearchSimilarChunks(sv.rank, settings.userId, e.value, TopK);
                  && (s.Err? ==> r == Err(s.error))
                  && (s.Ok? && s.value == [] ==> r == Ok(NoContextDraft))
                  && (s.Ok? && s.value != [] ==>
                        var a := GenerateAnswer(sv.complete, BuildPrompt(questionText, s.value));
                        && (r.Ok? <==> a.Ok?)
                        && (a.Err? ==> r == Err(a.error))
                        && (r.Ok? ==> r.value.chunks == s.value && r.value.answer == a.value
                                      && r.value.confidence == CalculateConfidence(s.value[0].similarityScore))))
  {
  }

  /** Once the question is embedded, the draft has context exactly when the ranking of
      the user's chunks is non-empty, and then it cites the first `TopK` of them. */
  lemma DraftContextIsRanking(sv: Services, questionText: string, settings: DraftSettings)
    requires GenerateQuestionEmbedding(sv.embed, questionText).Ok?
    ensures var r := DraftOutcome(sv, questionText, settings);
            var ranked := sv.rank(settings.userId, GenerateQuestionEmbedding(sv.embed, questionText).value);
            && (ranked.Err? ==> r == Err(ranked.error))
            && (ranked.Ok? && ranked.value == [] ==> r == Ok(NoContextDraft))
            && (r.Ok? && ranked.value != [] ==>
                  r.value.chunks != [] && r.value.chunks == ranked.value[..|r.value.chunks|]
                  && |r.value.chunks| == (if |ranked.value| < TopK then |ranked.value| else TopK))
  {
    DraftFollowsRetrieval(sv, questionText, settings);
  }

  /** The question rows after a draft: only a draft with context writes the answer, the
      confidence and the status. */
  function QuestionsAfterDraft(qs: map<Id, QuestionItem>, id: Id, r: Result<DraftResult>): map<Id, QuestionItem>
    requires id in qs
  {
    if r.Ok? && r.value.chunks != [] then
      qs[id := qs[id].(aiAnswer := Some(r.value.answer), confidenceScore := Some(r.value.confidence),
                       status := r.value.status)]
    else qs
  }

  /** The citations after a draft: only a draft with context replaces them. */
  function CitationsAfterDraft(cs: map<Id, seq<Citation>>, id: Id, r: Result<DraftResult>): map<Id, seq<Citation>> {
    if r.Ok? && r.value.chunks != [] then cs[id := MakeCitations(r.value.chunks)] else cs
  }

  /** The question-row update at the end of a draft with context. */
  method UpdateDraftedQuestion(db: Db, questionId: Id, d: DraftResult)
    requires db.Valid() && questionId in db.questions
    modifies db`questions
    ensures db.Valid()
    ensures db.questions == old(db.questions)[questionId := old(db.questions)[questionId].(
              aiAnswer := Some(d.answer), confidenceScore := Some(d.confidence), status := d.status)]
  {
    db.questions := db.questions[questionId := db.questions[questionId].(
      aiAnswer := Some(d.answer), confidenceScore := Some(d.confidence), status := d.status)];
  }

  /** The steps of `processQuestion` before anything is written: embed the question,
      retrieve context, stop with the no-context draft when there is none, otherwise
      prompt, answer, score and classify. */
  method ComputeDraft(sv: Services, questionText: string, settings: DraftSettings) returns (r: Result<DraftResult>)
    ensures r == DraftOutcome(sv, questionText, settings)
  {
    var embedding := GenerateQuestionEmbedding(sv.embed, questionText);
    if embedding.Err? {
      return Err(embedding.error);
    }
    var search := SearchSimilarChunks(sv.rank, settings.userId, embedding.value, TopK);
    if search.Err? {
      return Err(search.error);
    }
    var chunks := search.value;
    if |chunks| == 0 {
      return Ok(NoContextDraft);
    }
    var prompt := BuildPrompt(questionText, chunks);
    var answer := GenerateAnswer(sv.complete, prompt);
    if answer.Err? {
      return Err(answer.error);
    }
    var confidence := CalculateConfidence(chunks[0].similarityScore);
    var status := DetermineStatus(confidence, settings.reviewThreshold, settings.autoApprove);
    r := Ok(DraftResult(answer.value, confidence, status, chunks));
  }

  /** `processQuestion`. The steps run in order; an error in any of them aborts before
      anything is written, and so does an empty retrieval. Otherwise citations are saved,
      then the question row is updated. */
  method ProcessQuestion(db: Db, sv: Services, questionId: Id, questionText: string, settings: DraftSettings)
    returns (r: Result<DraftResult>)
    requires db.Valid() && questionId in db.questions
    modifies db`citations, db`questions
    ensures db.Valid()
    ensures r == DraftOutcome(sv, questionText, settings)
    ensures db.questions == QuestionsAfterDraft(old(db.questions), questionId, r)
    ensures db.citations == CitationsAfterDraft(old(db.citations), questionId, r)
  {
    r := ComputeDraft(sv, questionText, settings);
    WriteDraft(db, questionId, r);
  }

  /** The writes that end a draft: a draft with context saves its citations, then
      updates the question row; any other outcome writes nothing. */
  method WriteDraft(db: Db, questionId: Id, r: Result<DraftResult>)
    requires db.Valid() && questionId in db.questions
    modifies db`citations, db`questions
    ensures db.Valid()
    ensures db.questions == QuestionsAfterDraft(old(db.questions), questionId, r)
    ensures db.citations == CitationsAfterDraft(old(db.citations), questionId, r)
  {
    if r.Ok? && r.value.chunks != [] {
      SaveCitations(db, questionId, r.value.chunks);
      UpdateDraftedQuestion(db, questionId, r.value);
    }
  }

  /** A draft that found no context reports NEEDS_REVIEW but leaves the question's stored
      status as it was. */
  lemma NoContextLeavesRowAlone(qs: map<Id, QuestionItem>, id: Id, sv: Services, text: string, settings: DraftSettings)
    requires id in qs
    requires DraftOutcome(sv, text, settings) == Ok(NoContextDraft)
    ensures QuestionsAfterDraft(qs, id, DraftOutcome(sv, text, settings))[id].status == qs[id].status
  {
  }
}
