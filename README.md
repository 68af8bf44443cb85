# Questionnaire drafting backend: a Dafny model

This project models the deterministic rules of a backend that answers security
questionnaires with retrieval-augmented generation. It proves properties of those rules.

- **Projects and review.** Creating a project from spreadsheet rows. Counting its
  questions per status. The human review workflow over the question status machine,
  with its append-only audit log. The export gate, and the export with its final answers.
- **Draft engine.** For one question: embed it, retrieve the user's top 4 chunks and
  build the numbered prompt. Then trim the model's answer, clamp the confidence,
  classify the status, and write the citations and the question row.
- **Draft batch job.** Runs every PENDING question of a project in row order. A failing
  question is marked FAILED and the run goes on. Five counters summarise the run.
- **Knowledge-base ingestion.** Splits a markdown guide at its `## ` headings and removes
  `***` separator lines. Gives each concept a filename, from a fixed table or a slug. Each
  concept becomes its own markdown document, whose chunks are embedded and stored. The
  store keeps one document per (user, content hash) and replaces its rows on re-ingest.
- **Command line and upload card.** The feed script's argument parser and defaults. The
  web card's `.xlsx` check, and its extraction of `(rowIndex, text)` pairs from a sheet.

The relational store is the class `Store.Db`. Its tables are maps: projects, questions,
citations per question, documents, and embedding rows per document. Review events are a
`seq` that is only appended to. Fresh ids come from a counter.

The outside services are function-typed parameters:
- the embedding model, which may fail or return a vector of any length;
- the nearest-neighbour query over the user's chunks;
- the language model;
- the recursive text splitter with its token counter;
- SHA-256;
- file reading;
- the spreadsheet reader;
- the project-creation request of the web client.

`Embedding.NormalizeDimension` is the one definition of the 1536-wide pad-or-truncate
rule. The draft engine and ingestion both use it; the source has two copies.

Confidence and similarity scores are `real`. JavaScript's `trim` and `\s` are modelled
with the full ECMAScript whitespace set. `toLowerCase` is modelled for ASCII letters.
`parseInt` is modelled with `None` standing for NaN.

The source leaves a zero-retrieval draft unwritten. The model proves what follows from
that (`Draft.NoContextLeavesRowAlone`, `DraftProcessor.FinalStatus`,
`DraftProcessor.NoContextQuestionExportsEmpty`):
- the batch counts the question under `needsReview`, but the stored question stays
  PENDING with no answer;
- so it does not hold the export gate closed;
- and it is exported with an empty final answer.

## Model

| member | source | states |
|---|---|---|
| `Embedding.NormalizeDimension` | apps/api/src/projects/draft.service.ts:53-67 | the result always has 1536 entries; a shorter vector is kept as a prefix followed by zeros, a longer one is cut to its first 1536 entries, one of exactly 1536 is returned unchanged |
| `Embedding.NormalizeDimensionIdempotent` | apps/api/src/knowledge-base/knowledge-base.service.ts:292-308 | normalising an already normalised vector changes nothing, so the ingestion copy of the rule and the draft copy agree on stored vectors |
| `Store.OrderByRowIndex` | apps/api/src/projects/projects.service.ts:478-481 | the ids listed are exactly the given questions, each once, in ascending rowIndex |
| `Projects.NormalizeQuestions` | apps/api/src/projects/projects.service.ts:51-62 | every kept row has a positive row index and trimmed, non-empty text; no more rows come out than went in |
| `Projects.NormalizeQuestionsKeeps` | apps/api/src/projects/projects.service.ts:52-62 | a row comes through (normalised) if and only if its row index is finite and positive and its trimmed text is non-empty |
| `Projects.NormalizeQuestionsAppend` | apps/api/src/projects/projects.service.ts:52-62 | the kept rows stay in input order: normalising a concatenation is the concatenation of the normalised parts |
| `Projects.NormalizeAllKept` | apps/api/src/projects/projects.service.ts:52-62 | when every row passes the filter, the output has one normalised row per input row, in place |
| `Projects.InsertQuestions` | apps/api/src/projects/projects.service.ts:64-71 | one new PENDING question per normalised row, in order, under fresh increasing ids; existing questions are untouched |
| `Projects.CreateFromQuestions` | apps/api/src/projects/projects.service.ts:39-79 | the new project ends PROCESSING under a fresh id with the original name or "questionnaire"; it holds exactly the kept rows as PENDING questions; `createdQuestions` is their number |
| `Projects.GroupByStatus` | apps/api/src/projects/projects.service.ts:159-163 | a status has a group row exactly when some question of the project has it, and the row holds that status's count |
| `Projects.FillCounts` | apps/api/src/projects/projects.service.ts:165-179 | every one of the seven statuses is present, with its grouped count or 0 |
| `Projects.SumCounts` | apps/api/src/projects/projects.service.ts:181-185 | the total is the sum of the seven counts |
| `Projects.CountsAddUp` | apps/api/src/projects/projects.service.ts:165-185 | adding the per-status counts counts each question of the project exactly once |
| `Projects.GetProjectDetails` | apps/api/src/projects/projects.service.ts:140-193 | NotFound, then Forbidden; otherwise all seven statuses with their exact counts, and `totalQuestions` equal to the number of questions of the project |
| `Projects.ReviewOutcome` | apps/api/src/projects/projects.service.ts:336-390 | the checks run in order (missing question, foreign owner, not NEEDS_REVIEW, EDIT_APPROVE without an answer, APPROVE with a missing or blank AI answer) and the first failing one decides the error; success happens exactly when all pass; APPROVE and EDIT_APPROVE give APPROVED and REJECT gives REJECTED; the AI answer is never changed; only EDIT_APPROVE sets humanAnswer |
| `Projects.StoredNotes` | apps/api/src/projects/projects.service.ts:405 | an empty note is stored as absent, any other note as given |
| `Projects.SubmitReview` | apps/api/src/projects/projects.service.ts:323-431 | on any failed check the store is unchanged and the error is returned; on success the question row becomes the outcome row, exactly one review event (question, reviewing user, action, notes) is appended, and the response carries the stored status |
| `Projects.StoreReview` | apps/api/src/projects/projects.service.ts:393-407 | the question row is replaced and one event appended, nothing else |
| `Projects.ReviewIsFinal` | apps/api/src/projects/projects.service.ts:345-350 | after a successful review, any further review of the same question fails |
| `Projects.WhitespaceAnswersDiffer` | apps/api/src/projects/projects.service.ts:352-363 | EDIT_APPROVE accepts a whitespace-only answer, while APPROVE refuses a whitespace-only AI answer |
| `Projects.NeedsReviewCount` | apps/api/src/projects/projects.service.ts:448-457 | the NEEDS_REVIEW count is positive exactly when some question of the project is in NEEDS_REVIEW |
| `Projects.CheckReviewGate` | apps/api/src/projects/projects.service.ts:433-458 | NotFound, then Forbidden; otherwise true exactly when some question of the project needs review |
| `Projects.ValidateProjectReadyForExport` | apps/api/src/projects/projects.service.ts:503-515 | a Conflict exactly when some question of the project needs review |
| `Projects.FinalAnswer` | apps/api/src/projects/projects.service.ts:483-488 | the human answer when present, else the AI answer when present, else the empty string |
| `Projects.ReviewedAnswerIsExported` | apps/api/src/projects/projects.service.ts:369-384 | after EDIT_APPROVE the exported answer is the human's non-empty text; after APPROVE of an unedited question it is the AI answer, which is not blank |
| `Projects.ExportProject` | apps/api/src/projects/projects.service.ts:460-496 | NotFound, then Forbidden, then Conflict while a question needs review; success exactly otherwise, with one item per question of the project in ascending rowIndex, each carrying row, text and final answer |
| `Draft.GenerateQuestionEmbedding` | apps/api/src/projects/draft.service.ts:39-74 | a provider error is passed on, an empty vector is an error, otherwise the vector fitted to 1536 entries with the provider's values in front |
| `Draft.SearchSimilarChunks` | apps/api/src/projects/draft.service.ts:79-119 | a ranking error is passed on; otherwise the first topK chunks of the store's ranking, in its order, or all of them when there are fewer |
| `Draft.CalculateConfidence` | apps/api/src/projects/draft.service.ts:180-186 | the result lies in [0, 1], equals the score when it is already there, and is 0 below and 1 above |
| `Draft.CalculateConfidenceMonotonic` | apps/api/src/projects/draft.service.ts:180-186 | clamping keeps the order of two scores |
| `Draft.DetermineStatus` | apps/api/src/projects/draft.service.ts:191-203 | NEEDS_REVIEW exactly when the confidence is below the threshold, APPROVED exactly when it is not and auto-approve is on, DRAFTED exactly otherwise; no other status |
| `Draft.DetermineStatusMonotonic` | apps/api/src/projects/draft.service.ts:191-203 | a question that clears the threshold keeps its status when the confidence rises |
| `Draft.ContextParts` | apps/api/src/projects/draft.service.ts:132-134 | one part per chunk; part i is `[i+1] ` followed by the text of chunk i |
| `Draft.BuildPrompt` | apps/api/src/projects/draft.service.ts:124-149 | the prompt is the system text, `## Context:`, the context parts joined by blank lines, `## Question:`, the question and `## Answer:`, in that order; so it starts with the system text and ends with `## Answer:` |
| `Draft.PromptListsChunksInOrder` | apps/api/src/projects/draft.service.ts:132-145 | for every two neighbouring chunks, the prompt holds `[i+1] ` and chunk i, a blank line, then `[i+2] ` and chunk i+1: the context lists the chunks in retrieval order |
| `Draft.JoinContainsNeighbours` | apps/api/src/projects/draft.service.ts:135 | a joined text holds every part followed by the separator and the next part |
| `Draft.PromptCitesEveryChunk` | apps/api/src/projects/draft.service.ts:131-146 | every retrieved chunk occurs in the prompt behind its number |
| `Draft.GenerateAnswer` | apps/api/src/projects/draft.service.ts:154-175 | empty or whitespace-only output is an error; otherwise the trimmed text, which is non-empty |
| `Draft.Snippet` | apps/api/src/projects/draft.service.ts:225 | the first min(200, length) characters of the chunk |
| `Draft.MakeCitations` | apps/api/src/projects/draft.service.ts:221-226 | one citation per chunk, in order, with the chunk's id, its similarity as score and its snippet |
| `Draft.SaveCitations` | apps/api/src/projects/draft.service.ts:208-237 | the question's earlier citations are all replaced by exactly the new ones; other questions' citations are untouched |
| `Draft.DraftOutcome` | apps/api/src/projects/draft.service.ts:242-337 | with no chunks the result is ("Not enough information", 0, NEEDS_REVIEW, []); otherwise at most 4 chunks, the confidence is the clamped top similarity, the status is classified from it, and the answer is the trimmed completion of the prompt built from those chunks |
| `Draft.DraftFollowsRetrieval` | apps/api/src/projects/draft.service.ts:261-304 | a failed embedding or search gives that error; no chunks gives ("Not enough information", 0, NEEDS_REVIEW, []); otherwise the draft succeeds exactly when the completion of the prompt built from the found chunks does, its chunks are the found chunks, its answer is the completion and its confidence comes from the first chunk's score |
| `Draft.DraftContextIsRanking` | apps/api/src/projects/draft.service.ts:261-283 | the chunks a draft cites are the first min(4, n) of the n chunks the store ranks for the question's embedding, in that order; an empty ranking gives the no-context draft and a failed one its error |
| `Draft.ComputeDraft` | apps/api/src/projects/draft.service.ts:261-304 | the sequence of embed, search, short-circuit, prompt, answer, confidence and status computes exactly the draft outcome |
| `Draft.UpdateDraftedQuestion` | apps/api/src/projects/draft.service.ts:309-318 | only the question's answer, confidence and status change |
| `Draft.WriteDraft` | apps/api/src/projects/draft.service.ts:306-318 | a draft with chunks saves its citations and then updates the question; any other outcome writes nothing |
| `Draft.ProcessQuestion` | apps/api/src/projects/draft.service.ts:242-337 | returns the draft outcome; the question row and citations change only for a successful draft with chunks; nothing else in the store changes |
| `Draft.NoContextLeavesRowAlone` | apps/api/src/projects/draft.service.ts:274-283 | a draft without chunks leaves the stored status as it was |
| `DraftProcessor.Process` | apps/api/src/projects/draft.processor.ts:24-168 | a missing or foreign project fails before anything is written; otherwise the project's PENDING questions are attempted in ascending rowIndex, all counters are 0 when there are none, and the counters, question rows and citations are those of that ordered run |
| `DraftProcessor.MarkFailed` | apps/api/src/projects/draft.processor.ts:129-136 | only the question's status changes, to FAILED |
| `DraftProcessor.AttemptQuestion` | apps/api/src/projects/draft.processor.ts:85-143 | the question is drafted once; when the draft fails it is marked FAILED if that update goes through, and the run is not aborted |
| `DraftProcessor.CountResult` | apps/api/src/projects/draft.processor.ts:103-137 | a success increments `processed` and the counter of its status; a failure increments `failed` only when the FAILED update went through |
| `DraftProcessor.RunDrafts` | apps/api/src/projects/draft.processor.ts:73-144 | after the loop, the counters, questions and citations equal the fold of the attempts over the pending list |
| `DraftProcessor.TallyBalanced` | apps/api/src/projects/draft.processor.ts:103-116 | drafted + needsReview + approved = processed |
| `DraftProcessor.TallyBounded` | apps/api/src/projects/draft.processor.ts:80-144 | processed + failed is at most the number of pending questions, and equal to it when every FAILED update succeeds |
| `DraftProcessor.RunLeavesOthers` | apps/api/src/projects/draft.processor.ts:80-144 | a question outside the pending list is never written |
| `DraftProcessor.RunRowIsOwnAttempt` | apps/api/src/projects/draft.processor.ts:80-144 | each pending question ends as its own attempt left it, whatever happens to the others |
| `DraftProcessor.FinalStatus` | apps/api/src/projects/draft.processor.ts:85-143 | each attempted question ends with its drafted status, or FAILED when its draft failed and the mark went through, or PENDING otherwise |
| `DraftProcessor.NoContextQuestionExportsEmpty` | apps/api/src/projects/draft.service.ts:274-283 | an unanswered question whose draft finds no context stays PENDING and exports with an empty answer |
| `DraftProcessor.OrderIsDistinct` | apps/api/src/projects/draft.processor.ts:49-55 | the ordered pending list has no repeats, so every pending question is attempted exactly once |
| `Concepts.HeadingMatch` | apps/api/src/knowledge-base/knowledge-base.service.ts:88 | a heading matches exactly at a line start with `##` and a whitespace character, and takes the whole run of whitespace after it |
| `Concepts.SectionSpans` | apps/api/src/knowledge-base/knowledge-base.service.ts:88 | the sections cover the text from its start to its end, in order |
| `Concepts.SectionSpansAtHeadings` | apps/api/src/knowledge-base/knowledge-base.service.ts:88 | each section but the last is followed by a heading match, the next section starts where it ends, and no heading starts inside a section |
| `Concepts.SectionsWithoutHeadings` | apps/api/src/knowledge-base/knowledge-base.service.ts:88 | text without headings is one section, itself |
| `Concepts.RemoveRules` | apps/api/src/knowledge-base/knowledge-base.service.ts:96 | removing separator lines deletes only asterisks: every other character is kept, and the text never grows |
| `Concepts.RemoveRulesOfLines` | apps/api/src/knowledge-base/knowledge-base.service.ts:96 | on text made of lines without line terminators, each line of exactly `***` becomes empty and every other line is kept, in order, with the line breaks between them |
| `Concepts.RemoveRulesFromNoRules` | apps/api/src/knowledge-base/knowledge-base.service.ts:96 | text without a `***` line is unchanged |
| `Concepts.TableFilename` | apps/api/src/knowledge-base/knowledge-base.service.ts:49-62 | a title found in the table maps to a `.md` file name with a non-empty stem |
| `Concepts.CollapseRuns` | apps/api/src/knowledge-base/knowledge-base.service.ts:105 | the result is empty exactly when the input is, and starts with `_` exactly when the input starts outside `[a-z0-9]` |
| `Concepts.CollapseRunsSlugShaped` | apps/api/src/knowledge-base/knowledge-base.service.ts:105 | the result holds only `[a-z0-9]` and `_`, with no two underscores in a row |
| `Concepts.CollapseRunsKeepsAlnums` | apps/api/src/knowledge-base/knowledge-base.service.ts:105 | every letter and digit is kept, in order |
| `Concepts.CollapseRunsAround` | apps/api/src/knowledge-base/knowledge-base.service.ts:105 | a whole run of characters outside `[a-z0-9]` becomes exactly one `_`, and the text on either side of it is collapsed on its own |
| `Concepts.StripEdges` | apps/api/src/knowledge-base/knowledge-base.service.ts:106 | no underscore is left at either end; the input is the result with at most one `_` added at each end, so the letters and digits are kept |
| `Concepts.Slug` | apps/api/src/knowledge-base/knowledge-base.service.ts:103-106 | the slug holds the lower-cased title's letters and digits, in order, separated by single underscores, with none at either end; the collapsed title is the slug with at most one `_` added at each end |
| `Concepts.SlugIdempotent` | apps/api/src/knowledge-base/knowledge-base.service.ts:103-106 | the slug of a slug is itself |
| `Concepts.Filename` | apps/api/src/knowledge-base/knowledge-base.service.ts:100-106 | the table's entry when the title has one, else the slug followed by `.md` |
| `Concepts.SectionConcept` | apps/api/src/knowledge-base/knowledge-base.service.ts:90-112 | a concept has a one-line trimmed title, non-empty trimmed content and the title's filename |
| `Concepts.TitleOnlySection` | apps/api/src/knowledge-base/knowledge-base.service.ts:91-98 | a section that is only a title line gives no concept |
| `Concepts.SectionConceptOfLines` | apps/api/src/knowledge-base/knowledge-base.service.ts:91-112 | for a section made of a title line and a body, the title is the trimmed line, the content is the trimmed body with its `***` lines emptied, trimmed again, and there is no concept exactly when that content is empty |
| `Concepts.SectionStepIsSectionConcept` | apps/api/src/knowledge-base/knowledge-base.service.ts:88-98 | skipping blank sections first changes nothing: a blank section gives no concept anyway |
| `Concepts.SectionStep` | apps/api/src/knowledge-base/knowledge-base.service.ts:88-98 | whatever a section yields, after blank sections are skipped, is well formed |
| `Concepts.ConceptsWellFormed` | apps/api/src/knowledge-base/knowledge-base.service.ts:83-117 | every parsed concept is well formed |
| `Concepts.ConceptsOfAppend` | apps/api/src/knowledge-base/knowledge-base.service.ts:90-113 | concepts keep the order of their sections |
| `Concepts.CollectSteps` | apps/api/src/knowledge-base/knowledge-base.service.ts:90-113 | the loop collects what each item yields, in order |
| `Concepts.ParseMarkdownText` | apps/api/src/knowledge-base/knowledge-base.service.ts:83-117 | the concepts of the sections at the headings, in order, each well formed |
| `Concepts.UnwrapWrap` | apps/api/src/knowledge-base/knowledge-base.service.ts:129 | a concept's document reads back as its title and content |
| `Concepts.CreateConceptMarkdowns` | apps/api/src/knowledge-base/knowledge-base.service.ts:125-138 | one document per concept, in order, under its filename, holding `# title`, a blank line and the content, from which title and content read back |
| `KnowledgeBase.ChunkOverlap` | apps/api/src/knowledge-base/knowledge-base.service.ts:159 | the overlap is a tenth of the chunk size, rounded down |
| `KnowledgeBase.SplitIntoChunks` | apps/api/src/knowledge-base/knowledge-base.service.ts:140-172 | the splitter's pieces in order, split with that overlap and each tagged with the document's filename |
| `KnowledgeBase.EmbedChunk` | apps/api/src/knowledge-base/knowledge-base.service.ts:180-198 | a provider error or an empty vector fails; otherwise the vector paired with its chunk |
| `KnowledgeBase.EmbedAll` | apps/api/src/knowledge-base/knowledge-base.service.ts:174-214 | success exactly when every chunk embeds, with one result per chunk in order; otherwise the error of the first failing chunk |
| `KnowledgeBase.GenerateEmbeddings` | apps/api/src/knowledge-base/knowledge-base.service.ts:174-214 | the loop computes exactly the all-or-nothing embedding of the chunks |
| `KnowledgeBase.InsertEmbedding` | apps/api/src/knowledge-base/knowledge-base.service.ts:310-323 | one row is appended to the document, with a fresh id, the chunk text and the vector fitted to 1536 |
| `KnowledgeBase.InsertEmbeddings` | apps/api/src/knowledge-base/knowledge-base.service.ts:286-324 | the emptied document ends with one row per chunk, in order, with the chunk text and a 1536-wide vector |
| `KnowledgeBase.FindDocument` | apps/api/src/knowledge-base/knowledge-base.service.ts:255-261 | finds the user's document with the hash when there is one, and reports none only when there is none |
| `KnowledgeBase.KeysUniqueAfterCreate` | apps/api/src/knowledge-base/knowledge-base.service.ts:273-282 | creating a document only when its key is absent keeps (user, hash) unique |
| `KnowledgeBase.OpenDocument` | apps/api/src/knowledge-base/knowledge-base.service.ts:255-284 | an existing document with the key is reused with its rows deleted; otherwise a new document is created; either way the key is now stored |
| `KnowledgeBase.SaveToDatabase` | apps/api/src/knowledge-base/knowledge-base.service.ts:232-327 | a count mismatch fails before the store is touched; otherwise the document keyed by (user, hash of the joined chunk texts) is reused or created and holds exactly one 1536-wide row per chunk, in order |
| `KnowledgeBase.EffectiveChunkSize` | apps/api/src/knowledge-base/knowledge-base.service.ts:444 | an absent or zero chunk size means 384; any other is kept |
| `KnowledgeBase.FeedDocument` | apps/api/src/knowledge-base/knowledge-base.service.ts:466-486 | one concept document is chunked, embedded and saved, and its chunk count is reported twice; an embedding failure writes nothing; otherwise the document keyed by (user, hash of the chunk texts) is reused or created and holds exactly one 1536-wide row per chunk, in order, and no other document's rows change |
| `KnowledgeBase.FedOnFailure` | apps/api/src/knowledge-base/knowledge-base.service.ts:497-503 | the feed fails with the first failing concept's error |
| `KnowledgeBase.FeedStep` | apps/api/src/knowledge-base/knowledge-base.service.ts:466-486 | after a successful iteration every concept so far has embedded, is stored under the user's key with its rows, and has been added to the chunk total; a failed iteration writes nothing |
| `KnowledgeBase.FeedConcepts` | apps/api/src/knowledge-base/knowledge-base.service.ts:459-496 | success exactly when every concept embeds; then `documentsCreated` is the number of concepts, both totals are the sum of the chunk counts, every concept is stored under the user's key, and each such document holds one row per chunk (text and fitted vector, in order) of the last concept saved under that key; otherwise the error of the first failing concept, with every concept before it stored in the same way; documents are only ever added |
| `KnowledgeBase.PrefixStep` | apps/api/src/knowledge-base/knowledge-base.service.ts:468-477 | adding a concept whose chunks embed adds its chunk count to the total |
| `KnowledgeBase.RowsStoredStep` | apps/api/src/knowledge-base/knowledge-base.service.ts:480-485 | saving a concept into the document with its key, touching no other document's rows, keeps every earlier key's rows and adds its own |
| `KnowledgeBase.StoredAfterSave` | apps/api/src/knowledge-base/knowledge-base.service.ts:466-486 | after concept `i` is saved, every concept up to it is stored under its key, with its rows |
| `KnowledgeBase.LastWithKeyExists` | apps/api/src/knowledge-base/knowledge-base.service.ts:466-486 | among the concepts sharing a key there is a last one to be saved |
| `KnowledgeBase.RowsOfEveryConcept` | apps/api/src/knowledge-base/knowledge-base.service.ts:466-486 | after a feed, each concept's document holds the rows of a concept saved at or after it under the same key |
| `KnowledgeBase.ConceptRowsOfTexts` | apps/api/src/knowledge-base/knowledge-base.service.ts:232-327 | the stored rows depend only on the chunk texts, so two concepts with the same chunk texts have the same rows |
| `KnowledgeBase.FeedKnowledgeBase` | apps/api/src/knowledge-base/knowledge-base.service.ts:439-504 | a source with a newline or without path separators is parsed as text, any other is read as a file first (its error is passed on and nothing is written); then the parsed concepts are fed with the defaulted chunk size, with the outcome and stored rows `FeedConcepts` states |
| `FeedCli.FlagOf` | apps/api/src/knowledge-base/scripts/feed-knowledge-base.ts:23-28 | the long and short spellings of the three flags, and nothing else, are flags |
| `FeedCli.At` | apps/api/src/knowledge-base/scripts/feed-knowledge-base.ts:24 | an index past the end reads as undefined |
| `FeedCli.ParseChunkSize` | apps/api/src/knowledge-base/scripts/feed-knowledge-base.ts:28 | an undefined value parses to NaN, any other value by `parseInt` |
| `FeedCli.Set` | apps/api/src/knowledge-base/scripts/feed-knowledge-base.ts:23-29 | a flag sets its own field and no other |
| `FeedCli.ParseArgs` | apps/api/src/knowledge-base/scripts/feed-knowledge-base.ts:17-33 | the loop computes the left-to-right reading of the arguments |
| `FeedCli.RunAppend` | apps/api/src/knowledge-base/scripts/feed-knowledge-base.ts:21-31 | arguments are read left to right: a complete prefix is read first, then the rest |
| `FeedCli.RunKeepsUnmentioned` | apps/api/src/knowledge-base/scripts/feed-knowledge-base.ts:21-31 | arguments that never spell a flag leave its field alone |
| `FeedCli.LastOccurrenceWins` | apps/api/src/knowledge-base/scripts/feed-knowledge-base.ts:21-31 | when a flag repeats, its last value wins |
| `FeedCli.IgnoresUnknown` | apps/api/src/knowledge-base/scripts/feed-knowledge-base.ts:21-31 | an argument that is no flag is ignored |
| `FeedCli.ValueIsConsumed` | apps/api/src/knowledge-base/scripts/feed-knowledge-base.ts:24-28 | a flag's value is taken as it stands, even when it spells a flag, and reading resumes after it |
| `FeedCli.TrailingFlagIsUndefined` | apps/api/src/knowledge-base/scripts/feed-knowledge-base.ts:24-28 | a flag in last position sets its field to undefined |
| `FeedCli.SourcePath` | apps/api/src/knowledge-base/scripts/feed-knowledge-base.ts:46-48 | an unset or empty source falls back to the default guide path |
| `FeedCli.ChunkSize` | apps/api/src/knowledge-base/scripts/feed-knowledge-base.ts:49 | an unset, NaN or zero chunk size becomes 384; any other is kept |
| `FeedCli.ChunkSizeAgreesWithFeed` | apps/api/src/knowledge-base/knowledge-base.service.ts:444 | the script's default and the service's default agree |
| `FeedCli.FeedFromCommandLine` | apps/api/src/knowledge-base/scripts/feed-knowledge-base.ts:35-86 | without a user id the exit status is 1 and nothing is fed; otherwise the source (or the default guide) is fed with the defaulted chunk size, and the exit status is 0 exactly when the feed succeeds |
| `UploadQuestionnaire.FindFirst` | apps/web/components/projects/upload-questionnaire-card.tsx:48-50 | the first position whose element matches, or none when none does |
| `UploadQuestionnaire.QuestionColumn` | apps/web/components/projects/upload-questionnaire-card.tsx:47-51 | the first trimmed header cell that mentions "question" in any case, else column 0 |
| `UploadQuestionnaire.ColumnTexts` | apps/web/components/projects/upload-questionnaire-card.tsx:47-57 | one entry per row: the trimmed cell of the question column chosen from the first row |
| `UploadQuestionnaire.TrimmedColumnAt` | apps/web/components/projects/upload-questionnaire-card.tsx:55-57 | entry i is row i's cell in the column, trimmed, or the empty string past the row's end |
| `UploadQuestionnaire.ExtractedStep` | apps/web/components/projects/upload-questionnaire-card.tsx:54-63 | reading one more row keeps the extraction faithful, increasing and complete |
| `UploadQuestionnaire.ParseRows` | apps/web/components/projects/upload-questionnaire-card.tsx:42-65 | an empty sheet gives no questions; otherwise there is exactly one question per non-blank data row, numbered i+1 (so at least 2) and in strictly increasing row order; each carries that row's trimmed text and the header row is never emitted |
| `UploadQuestionnaire.ExtractedUnique` | apps/web/components/projects/upload-questionnaire-card.tsx:53-63 | the extraction of a sheet is unique, so the loop's result is determined by the sheet |
| `UploadQuestionnaire.ExtractedTrimmed` | apps/web/components/projects/upload-questionnaire-card.tsx:56-62 | every extracted question has row index at least 2 and trimmed, non-empty text |
| `UploadQuestionnaire.RequestOf` | apps/web/components/projects/upload-questionnaire-card.tsx:144-151 | the request carries the file name and one row per question |
| `UploadQuestionnaire.UploadCard.HandleFile` | apps/web/components/projects/upload-questionnaire-card.tsx:86-114 | no file clears the card; a name not ending in `.xlsx` (any case) clears it and shows the error; an unreadable sheet clears it and shows the reader's message; otherwise the card holds the file name and the extracted questions |
| `UploadQuestionnaire.UploadCard.HandleCreateProject` | apps/web/components/projects/upload-questionnaire-card.tsx:138-160 | nothing is sent without a token, with an empty token or with no questions, so a request never has an empty list; success clears the card; failure keeps it and shows the message |
| `UploadQuestionnaire.ServerKeepsEveryQuestion` | apps/web/components/projects/upload-questionnaire-card.tsx:144-151 | the server's filter keeps every question the card sends, unchanged and in order |

## Left out

- The embedding and completion models, the nearest-neighbour SQL query, the LangChain
  splitter with its tokenizer, SHA-256, `crypto.randomUUID`, file reading and the
  spreadsheet reader are foreign code. They are function-typed parameters. Ids come from
  a counter in the store.
- The store's own writes do not fail in the model, with one exception: the FAILED update
  of the batch job, whose success is a parameter. So a draft that fails after saving its
  citations, or a project creation that fails half way, is not modelled.
- Concurrency is not modelled: the find-then-create race in `saveToDatabase`, the
  rate-limit delays, the job queue's progress reports, retries and backoff, and the
  health-check timeout.
- Timestamps (`createdAt`, `updatedAt`, `generatedAt`) are not modelled.
- Controllers, module wiring, the knowledge-base job processor, the other listing
  endpoints, the start-draft-job endpoint, DTO validation and environment validation
  are not modelled.
- The React rendering and the web client's fetch wrappers and token storage are not
  modelled. The card's loading flags and the order in which overlapping file reads
  finish are not modelled either.
- Scores are `real`; IEEE rounding, NaN and infinite similarities are not modelled.
- `Projects.NormalizeQuestions` covers only integer row indexes. `Number(...)` can give a
  finite fraction such as 2.5, which the source keeps and the database column then
  refuses.
- `Concepts.Filename` looks the title up in a table of ten exact titles. The source reads
  a plain object, so a title naming an inherited object property (such as `toString`)
  would pick up that property. This case is not modelled.
- `Common.Lower` folds only ASCII letters; the non-ASCII mappings of `toLowerCase` are
  not modelled.
- The DRAFTED status has no transition out of it in the source, and the model invents
  none. The EXPORTED status is never written by the code in this model.
- `Draft.Snippet` counts characters (Unicode scalar values). `substring(0, 200)` counts
  UTF-16 code units, so for text outside the Basic Multilingual Plane the source cuts
  earlier, and it can split a surrogate pair.
- `Store.RowLess` breaks ties between equal row indexes by the smaller id. The database
  leaves the order of such rows to itself, so this tie-break is a choice of the model.
- `FeedCli.SourcePath` takes the default guide's full path as a parameter, because the
  working directory that `path.join` starts from is not part of this model.
