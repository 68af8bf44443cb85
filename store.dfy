/** The relational store the services read and write: the status enumerations, one
    datatype per row kind and an in-memory database whose tables are maps. */
module Store {
  import opened Common

  type Id = nat
  type UserId = string

  /** Width of the `vector(1536)` column that holds every stored embedding. */
  const Dimension: nat := 1536

  datatype QuestionStatus =
    | Pending
    | Drafted
    | NeedsReview
    | Approved
    | Rejected
    | Failed
    | Exported

  /** Every question status, in the order the counts object lists them. */
  const AllStatuses: seq<QuestionStatus> :=
    [Pending, Drafted, NeedsReview, Approved, Rejected, Failed, Exported]

  function StatusName(s: QuestionStatus): string {
    match s
    case Pending => "PENDING"
    case Drafted => "DRAFTED"
    case NeedsReview => "NEEDS_REVIEW"
    case Approved => "APPROVED"
    case Rejected => "REJECTED"
    case Failed => "FAILED"
    case Exported => "EXPORTED"
  }

  datatype ProjectStatus = Queued | Processing | Completed | Aborted

  datatype ReviewAction = Approve | EditApprove | Reject

  datatype Project = Project(
    userId: UserId,
    originalFilePath: string,
    status: ProjectStatus,
    reviewThreshold: real,
    autoApprove: bool)

  datatype QuestionItem = QuestionItem(
    projectId: Id,
    rowIndex: int,
    questionText: string,
    aiAnswer: Option<string>,
    humanAnswer: Option<string>,
    confidenceScore: Option<real>,
    status: QuestionStatus)

  datatype Citation = Citation(embeddingId: Id, score: real, snippet: string)

  datatype ReviewEvent = ReviewEvent(
    questionItemId: Id,
    reviewerId: UserId,
    action: ReviewAction,
    notes: Option<string>)

  datatype Document = Document(userId: UserId, filename: string, contentHash: string)

  datatype EmbeddingRow = EmbeddingRow(id: Id, chunkContent: string, vector: seq<real>)

  /** The database. Citations are kept per question and embedding rows per document;
      review events are an append-only log. Fresh ids come from a counter. */
  class Db {
    var projects: map<Id, Project>
    var questions: map<Id, QuestionItem>
    var citations: map<Id, seq<Citation>>
    var reviewEvents: seq<ReviewEvent>
    var documents: map<Id, Document>
    var embeddings: map<Id, seq<EmbeddingRow>>
    var nextId: nat

    /** Ids are below the counter, every question belongs to a stored project, every
        embedding row to a stored document and has the column's width, and no two
        documents of one user share a content hash. */
    ghost predicate Valid()
      reads this
    {
      && (forall id :: id in projects ==> id < nextId)
      && (forall id :: id in questions ==> id < nextId && questions[id].projectId in projects)
      && (forall id :: id in documents ==> id < nextId)
      && (forall id :: id in embeddings ==> id in documents && RowsWellFormed(embeddings[id], nextId))
      && DocumentKeysUnique(documents)
    }

    constructor ()
      ensures Valid()
      ensures projects == map[] && questions == map[] && citations == map[]
      ensures reviewEvents == [] && documents == map[] && embeddings == map[]
    {
      projects, questions, citations := map[], map[], map[];
      reviewEvents, documents, embeddings := [], map[], map[];
      nextId := 0;
    }

    /** A fresh identifier: no stored row has it. */
    method NewId() returns (id: Id)
      requires Valid()
      modifies this`nextId
      ensures Valid()
      ensures id == old(nextId) && nextId == id + 1
      ensures questions == old(questions) && projects == old(projects)
      ensures id !in projects && id !in questions && id !in documents
    {
      id := nextId;
      nextId := nextId + 1;
    }
  }

  predicate RowsWellFormed(rows: seq<EmbeddingRow>, bound: nat) {
    forall k :: 0 <= k < |rows| ==> rows[k].id < bound && |rows[k].vector| == Dimension
  }

  lemma RowsWellFormedMonotonic(rows: seq<EmbeddingRow>, bound: nat, bound': nat)
    requires RowsWellFormed(rows, bound) && bound <= bound'
    ensures RowsWellFormed(rows, bound')
  {
  }

  predicate DocumentKeysUnique(documents: map<Id, Document>) {
    forall a, b :: a in documents && b in documents && a != b ==>
      documents[a].userId != documents[b].userId
      || documents[a].contentHash != documents[b].contentHash
  }

  // ---------------------------------------------------------------------------
  // Queries
  // ---------------------------------------------------------------------------

  /** The questions of one project. */
  function ProjectQuestions(qs: map<Id, QuestionItem>, projectId: Id): set<Id> {
    set id | id in qs && qs[id].projectId == projectId
  }

  /** The questions of one project that have one status. */
  function WithStatus(qs: map<Id, QuestionItem>, projectId: Id, s: QuestionStatus): set<Id> {
    set id | id in qs && qs[id].projectId == projectId && qs[id].status == s
  }

  /** Order by `rowIndex` ascending; the database breaks ties by a rule of its own,
      modelled here as the smaller id first. */
  predicate RowLess(qs: map<Id, QuestionItem>, a: Id, b: Id)
    requires a in qs && b in qs
  {
    qs[a].rowIndex < qs[b].rowIndex || (qs[a].rowIndex == qs[b].rowIndex && a < b)
  }

  /** `ids` lists exactly the members of `s`, each once, in ascending `rowIndex`. */
  predicate OrderedEnumeration(qs: map<Id, QuestionItem>, s: set<Id>, ids: seq<Id>)
    requires s <= qs.Keys
  {
    && (forall i :: 0 <= i < |ids| ==> ids[i] in s)
    && (forall id :: id in s ==> id in ids)
    && (forall i, j :: 0 <= i < j < |ids| ==> RowLess(qs, ids[i], ids[j]))
  }

  /** The first question of `s` in row order. */
  method FirstByRowIndex(qs: map<Id, QuestionItem>, s: set<Id>) returns (m: Id)
    requires s != {} && s <= qs.Keys
    ensures m in s
    ensures forall x :: x in s && x != m ==> RowLess(qs, m, x)
  {
    m :| m in s;
    var rest := s - {m};
    while rest != {}
      invariant rest <= s && m in s && m !in rest
      invariant forall x :: x in s && x !in rest && x != m ==> RowLess(qs, m, x)
      decreases |rest|
    {
      var x :| x in rest;
      if RowLess(qs, x, m) {
        m := x;
      }
      rest := rest - {x};
    }
  }

  /** `findMany({where, orderBy: {rowIndex: 'asc'}})`: the ids of `s` in row order. */
  method OrderByRowIndex(qs: map<Id, QuestionItem>, s: set<Id>) returns (ids: seq<Id>)
    requires s <= qs.Keys
    ensures OrderedEnumeration(qs, s, ids)
    ensures |ids| == |s|
  {
    ids := [];
    var rest := s;
    while rest != {}
      invariant rest <= s
      invariant forall i :: 0 <= i < |ids| ==> ids[i] in s && ids[i] !in rest
      invariant forall id :: id in s ==> id in rest || id in ids
      invariant forall i, j :: 0 <= i < j < |ids| ==> RowLess(qs, ids[i], ids[j])
      invariant forall i, x :: 0 <= i < |ids| && x in rest ==> RowLess(qs, ids[i], x)
      invariant |ids| + |rest| == |s|
      decreases |rest|
    {
      var m := FirstByRowIndex(qs, rest);
      ids := ids + [m];
      rest := rest - {m};
    }
  }
}
