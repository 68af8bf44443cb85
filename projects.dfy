/** The projects service: creating a project from questionnaire rows, the per-status
    counts of a project, the human review workflow with its audit log, and the export
    gate with the export itself. */
module Projects {
  import opened Common
  import opened Store

  // ---------------------------------------------------------------------------
  // Project creation
  // ---------------------------------------------------------------------------

  /** `Number(q.rowIndex)` as far as the filter cares: a finite integer or not finite
      (NaN, an infinity). */
  datatype RowNumber = Finite(value: int) | NotFinite

  datatype QuestionInput = QuestionInput(rowIndex: RowNumber, questionText: Option<string>)

  datatype CreateProjectRequest = CreateProjectRequest(
    originalName: Option<string>,
    questions: seq<QuestionInput>)

  datatype NewQuestion = NewQuestion(rowIndex: int, questionText: string)

  datatype CreateProjectResponse = CreateProjectResponse(projectId: Id, createdQuestions: nat)

  /** The filter of `createFromQuestions`: a finite positive row number and a question
      text that is not blank (a missing text counts as the empty one). */
  predicate Keeps(x: QuestionInput) {
    x.rowIndex.Finite? && x.rowIndex.value > 0 && Trim(x.questionText.GetOr("")) != []
  }

  function Normalized(x: QuestionInput): NewQuestion
    requires Keeps(x)
  {
    NewQuestion(x.rowIndex.value, Trim(x.questionText.GetOr("")))
  }

  /** The normalise-then-filter chain over the request's rows. */
  function NormalizeQuestions(xs: seq<QuestionInput>): (items: seq<NewQuestion>)
    ensures |items| <= |xs|
    ensures forall i :: 0 <= i < |items| ==>
              items[i].rowIndex > 0 && items[i].questionText != [] && IsTrimmed(items[i].questionText)
  {
    if xs == [] then [] else NormalizeOne(xs[0]) + NormalizeQuestions(xs[1..])
  }

  /** What one row contributes: its normalised form when it is kept, else nothing. */
  function NormalizeOne(x: QuestionInput): seq<NewQuestion> {
    if Keeps(x) then [Normalized(x)] else []
  }

  /** Exactly the kept rows come through, normalised. */
  lemma {:induction false} NormalizeQuestionsKeeps(xs: seq<QuestionInput>)
    ensures forall x :: x in xs && Keeps(x) ==> Normalized(x) in NormalizeQuestions(xs)
    ensures forall it :: it in NormalizeQuestions(xs) ==> exists x :: x in xs && Keeps(x) && Normalized(x) == it
  {
    if xs != [] {
      NormalizeQuestionsKeeps(xs[1..]);
      assert forall x :: x in xs ==> x == xs[0] || x in xs[1..];
    }
  }

  /** The kept rows stay in input order: normalising a concatenation normalises each part. */
  lemma {:induction false} NormalizeQuestionsAppend(a: seq<QuestionInput>, b: seq<QuestionInput>)
    ensures NormalizeQuestions(a + b) == NormalizeQuestions(a) + NormalizeQuestions(b)
  {
    if a == [] {
      assert a + b == b;
    } else {
      var head := NormalizeOne(a[0]);
      assert (a + b)[0] == a[0];
      assert (a + b)[1..] == a[1..] + b;
      NormalizeQuestionsAppend(a[1..], b);
      calc {
        NormalizeQuestions(a + b);
        head + NormalizeQuestions(a[1..] + b);
        head + (NormalizeQuestions(a[1..]) + NormalizeQuestions(b));
        (head + NormalizeQuestions(a[1..])) + NormalizeQuestions(b);
      }
    }
  }

  /** When every row passes the filter, each comes through normalised, in place. */
  lemma {:induction false} NormalizeAllKept(xs: seq<QuestionInput>)
    requires forall k :: 0 <= k < |xs| ==> Keeps(xs[k])
    ensures |NormalizeQuestions(xs)| == |xs|
    ensures forall k :: 0 <= k < |xs| ==> NormalizeQuestions(xs)[k] == Normalized(xs[k])
  {
    if xs != [] {
      var tail := xs[1..];
      assert forall k :: 0 <= k < |tail| ==> tail[k] == xs[k + 1];
      NormalizeAllKept(tail);
      var rest := NormalizeQuestions(tail);
      var items := NormalizeQuestions(xs);
      assert NormalizeOne(xs[0]) == [Normalized(xs[0])];
      assert items == [Normalized(xs[0])] + rest;
      forall k | 0 < k < |xs|
        ensures items[k] == Normalized(xs[k])
      {
        assert items[k] == rest[k - 1];
      }
    }
  }

  function NewRow(projectId: Id, it: NewQuestion): QuestionItem {
    QuestionItem(projectId, it.rowIndex, it.questionText, None, None, None, Pending)
  }

  /** One `createMany` row: a PENDING question of the project under a fresh id. */
  method InsertQuestion(db: Db, projectId: Id, it: NewQuestion) returns (id: Id)
    requires db.Valid() && projectId in db.projects
    modifies db`nextId, db`questions
    ensures db.Valid()
    ensures id == old(db.nextId) && db.nextId == id + 1 && id !in old(db.questions)
    ensures db.questions == old(db.questions)[id := NewRow(projectId, it)]
    ensures db.projects == old(db.projects)
    ensures db.citations == old(db.citations) && db.reviewEvents == old(db.reviewEvents)
    ensures db.documents == old(db.documents) && db.embeddings == old(db.embeddings)
  {
    id := db.NewId();
    db.questions := db.questions[id := NewRow(projectId, it)];
  }

  /** `createMany` over the normalised rows: one PENDING question per row, in order,
      under increasing fresh ids. */
  method InsertQuestions(db: Db, projectId: Id, items: seq<NewQuestion>) returns (created: seq<Id>)
    requires db.Valid() && projectId in db.projects
    modifies db`nextId, db`questions
    ensures db.Valid()
    ensures |created| == |items|
    ensures forall k :: 0 <= k < |created| ==> created[k] == old(db.nextId) + k
    ensures forall k :: 0 <= k < |created| ==>
              created[k] !in old(db.questions)
              && created[k] in db.questions
              && db.questions[created[k]] == NewRow(projectId, items[k])
    ensures forall id :: id in db.questions <==> id in old(db.questions) || id in created
    ensures forall id :: id in old(db.questions) ==> db.questions[id] == old(db.questions)[id]
    ensures db.projects == old(db.projects)
    ensures db.citations == old(db.citations) && db.reviewEvents == old(db.reviewEvents)
    ensures db.documents == old(db.documents) && db.embeddings == old(db.embeddings)
  {
    created := [];
    var i := 0;
    while i < |items|
      invariant 0 <= i <= |items| && |created| == i
      invariant db.Valid() && db.nextId == old(db.nextId) + i
      invariant forall k :: 0 <= k < i ==> created[k] == old(db.nextId) + k
      invariant forall k :: 0 <= k < i ==>
                  created[k] !in old(db.questions)
                  && created[k] in db.questions
                  && db.questions[created[k]] == NewRow(projectId, items[k])
      invariant forall id :: id in db.questions <==> id in old(db.questions) || id in created
      invariant forall id :: id in old(db.questions) ==> db.questions[id] == old(db.questions)[id]
    {
      var id := InsertQuestion(db, projectId, items[i]);
      created := created + [id];
      i := i + 1;
    }
  }

  /** Creates the project (QUEUED), one PENDING question per kept row, then moves the
      project to PROCESSING. The review threshold and auto-approve flag are the schema's
      column defaults, which are parameters here. */
  method CreateFromQuestions(
    db: Db, userId: UserId, body: CreateProjectRequest, reviewThreshold: real, autoApprove: bool)
    returns (r: CreateProjectResponse, ghost created: seq<Id>)
    requires db.Valid()
    modifies db`nextId, db`questions, db`projects
    ensures db.Valid()
    ensures r.createdQuestions == |NormalizeQuestions(body.questions)| == |created|
    ensures r.projectId !in old(db.projects)
    ensures db.projects == old(db.projects)[r.projectId :=
              Project(userId, body.originalName.GetOr("questionnaire"), Processing, reviewThreshold, autoApprove)]
    ensures forall k :: 0 <= k < |created| ==>
              created[k] !in old(db.questions)
              && created[k] in db.questions
              && db.questions[created[k]] == NewRow(r.projectId, NormalizeQuestions(body.questions)[k])
    ensures forall k, l :: 0 <= k < l < |created| ==> created[k] < created[l]
    ensures forall id :: id in db.questions <==> id in old(db.questions) || id in created
    ensures forall id :: id in old(db.questions) ==> db.questions[id] == old(db.questions)[id]
    ensures db.citations == old(db.citations) && db.reviewEvents == old(db.reviewEvents)
    ensures db.documents == old(db.documents) && db.embeddings == old(db.embeddings)
  {
    var pid := db.NewId();
    var name := body.originalName.GetOr("questionnaire");
    PutProject(db, pid, Project(userId, name, Queued, reviewThreshold, autoApprove));
    var items := NormalizeQuestions(body.questions);
    created := InsertQuestions(db, pid, items);
    PutProject(db, pid, Project(userId, name, Processing, reviewThreshold, autoApprove));
    r := CreateProjectResponse(pid, |items|);
  }

  /** Writes a project row under an id already handed out. */
  method PutProject(db: Db, pid: Id, p: Project)
    requires db.Valid() && pid < db.nextId
    modifies db`projects
    ensures db.Valid()
    ensures db.projects == old(db.projects)[pid := p]
    ensures db.questions == old(db.questions) && db.nextId == old(db.nextId)
  {
    db.projects := db.projects[pid := p];
  }

  // ---------------------------------------------------------------------------
  // Project details
  // ---------------------------------------------------------------------------

  datatype ProjectDetails = ProjectDetails(
    id: Id,
    status: ProjectStatus,
    counts: map<QuestionStatus, nat>,
    totalQuestions: nat)

  /** What `groupBy(['status'])` returns for one project: a row for each status that
      occurs, with its count. */
  function GroupByStatus(qs: map<Id, QuestionItem>, projectId: Id): (rows: map<QuestionStatus, nat>)
    ensures forall s :: s in rows <==> |WithStatus(qs, projectId, s)| > 0
    ensures forall s :: s in rows ==> rows[s] == |WithStatus(qs, projectId, s)|
  {
    map s | s in AllStatuses && |WithStatus(qs, projectId, s)| > 0 :: |WithStatus(qs, projectId, s)|
  }

  /** The position of a status in `AllStatuses`. */
  function StatusIndex(s: QuestionStatus): (k: nat)
    ensures k < |AllStatuses| && AllStatuses[k] == s
  {
    match s
    case Pending => 0
    case Drafted => 1
    case NeedsReview => 2
    case Approved => 3
    case Rejected => 4
    case Failed => 5
    case Exported => 6
  }

  /** The sum of the counts of the first `k` statuses, accumulated left to right as
      `reduce` does over the counts object. */
  function Total(counts: map<QuestionStatus, nat>, k: nat): nat
    requires k <= |AllStatuses|
    requires forall s :: s in counts
  {
    if k == 0 then 0 else Total(counts, k - 1) + counts[AllStatuses[k - 1]]
  }

  /** The questions of the project whose status is among the first `k`. */
  function StatusesBelow(qs: map<Id, QuestionItem>, projectId: Id, k: nat): set<Id> {
    set id | id in qs && qs[id].projectId == projectId && StatusIndex(qs[id].status) < k
  }

  /** Counting each status separately and adding up counts every question of the project
      exactly once. */
  lemma {:induction false} CountsAddUp(
    qs: map<Id, QuestionItem>, projectId: Id, counts: map<QuestionStatus, nat>, k: nat)
    requires k <= |AllStatuses|
    requires forall s :: s in counts && counts[s] == |WithStatus(qs, projectId, s)|
    ensures Total(counts, k) == |StatusesBelow(qs, projectId, k)|
  {
    if k > 0 {
      CountsAddUp(qs, projectId, counts, k - 1);
      StatusesBelowStep(qs, projectId, k);
    }
  }

  /** The questions below status `k` are those below `k - 1` and, apart from them, those
      with status number `k - 1`. */
  lemma StatusesBelowStep(qs: map<Id, QuestionItem>, projectId: Id, k: nat)
    requires 0 < k <= |AllStatuses|
    ensures var before := StatusesBelow(qs, projectId, k - 1);
            var these := WithStatus(qs, projectId, AllStatuses[k - 1]);
            StatusesBelow(qs, projectId, k) == before + these && before !! these
  {
    var s := AllStatuses[k - 1];
    assert StatusIndex(s) == k - 1;
    forall id | id in WithStatus(qs, projectId, s)
      ensures StatusIndex(qs[id].status) == k - 1
    {
    }
  }

  /** Every status starts at zero; each grouped row overwrites its status's count. */
  method FillCounts(rows: map<QuestionStatus, nat>) returns (counts: map<QuestionStatus, nat>)
    ensures forall s :: s in counts && counts[s] == (if s in rows then rows[s] else 0)
  {
    counts := map[
      Pending := 0, Drafted := 0, NeedsReview := 0, Approved := 0,
      Rejected := 0, Failed := 0, Exported := 0];
    forall s ensures s in counts && counts[s] == 0 {
      match s
      case Pending =>
      case Drafted =>
      case NeedsReview =>
      case Approved =>
      case Rejected =>
      case Failed =>
      case Exported =>
    }
    var todo := rows.Keys;
    while todo != {}
      invariant todo <= rows.Keys
      invariant forall s :: s in counts && counts[s] == (if s in rows && s !in todo then rows[s] else 0)
      decreases |todo|
    {
      var s :| s in todo;
      counts := counts[s := rows[s]];
      todo := todo - {s};
    }
  }

  /** `Object.values(counts).reduce((sum, count) => sum + count, 0)`. */
  method SumCounts(counts: map<QuestionStatus, nat>) returns (total: nat)
    requires forall s :: s in counts
    ensures total == Total(counts, |AllStatuses|)
  {
    total := 0;
    for k := 0 to |AllStatuses|
      invariant total == Total(counts, k)
    {
      total := total + counts[AllStatuses[k]];
    }
  }

  /** `getProjectDetails`: NotFound, then Forbidden, then every status with its count
      (zero for the absent ones) and the number of questions. */
  method GetProjectDetails(db: Db, userId: UserId, projectId: Id) returns (r: Result<ProjectDetails>)
    requires db.Valid()
    ensures projectId !in db.projects ==> r == Err(NotFound("Project not found"))
    ensures projectId in db.projects && db.projects[projectId].userId != userId ==>
              r == Err(Forbidden("You do not have access to this project"))
    ensures projectId in db.projects && db.projects[projectId].userId == userId ==>
              && r.Ok?
              && r.value.id == projectId
              && r.value.status == db.projects[projectId].status
              && (forall s :: s in r.value.counts && r.value.counts[s] == |WithStatus(db.questions, projectId, s)|)
              && r.value.totalQuestions == |ProjectQuestions(db.questions, projectId)|
  {
    if projectId !in db.projects {
      return Err(NotFound("Project not found"));
    }
    var project := db.projects[projectId];
    if project.userId != userId {
      return Err(Forbidden("You do not have access to this project"));
    }
    var rows := GroupByStatus(db.questions, projectId);
    var counts := FillCounts(rows);
    var total := SumCounts(counts);
    CountsAddUp(db.questions, projectId, counts, |AllStatuses|);
    assert StatusesBelow(db.questions, projectId, |AllStatuses|) == ProjectQuestions(db.questions, projectId);
    r := Ok(ProjectDetails(projectId, project.status, counts, total));
  }

  // ---------------------------------------------------------------------------
  // Review workflow
  // ---------------------------------------------------------------------------

  datatype ReviewResponse = ReviewResponse(
    questionId: Id,
    status: QuestionStatus,
    action: ReviewAction,
    message: string)

  predicate OwnersKnown(qs: map<Id, QuestionItem>, projects: map<Id, Project>) {
    forall id :: id in qs ==> qs[id].projectId in projects
  }

  /** JavaScript `!humanAnswer`: absent or the empty string. A whitespace-only answer is
      not falsy. */
  predicate Falsy(s: Option<string>) {
    s.None? || s.value == []
  }

  /** The aiAnswer test of APPROVE: absent, or blank once trimmed. */
  predicate MissingAnswer(s: Option<string>) {
    s.None? || Trim(s.value) == []
  }

  function NotInReviewMessage(s: QuestionStatus): string {
    "Question is not in NEEDS_REVIEW status. Current status: " + StatusName(s)
  }

  const EditNeedsAnswerMessage := "humanAnswer is required for EDIT_APPROVE action"
  const ApproveNeedsAnswerMessage := "Cannot APPROVE: aiAnswer is missing"

  /** The row `submitReview` writes, or the error of the first of its checks that fails.
      Checks, in order: the question exists, its project belongs to the user, it is in
      NEEDS_REVIEW, EDIT_APPROVE brings a non-empty answer, APPROVE has a non-blank AI
      answer to approve. */
  function ReviewOutcome(
    qs: map<Id, QuestionItem>, projects: map<Id, Project>, userId: UserId,
    questionId: Id, action: ReviewAction, humanAnswer: Option<string>)
    : (r: Result<QuestionItem>)
    requires OwnersKnown(qs, projects)
    ensures questionId !in qs ==> r == Err(NotFound("Question not found"))
    ensures questionId in qs ==>
              var q := qs[questionId];
              var owner := projects[q.projectId].userId;
              && (owner != userId ==> r == Err(Forbidden("You do not have access to this question")))
              && (owner == userId && q.status != NeedsReview ==>
                    r == Err(BadRequest(NotInReviewMessage(q.status))))
              && (owner == userId && q.status == NeedsReview && action == EditApprove && Falsy(humanAnswer) ==>
                    r == Err(BadRequest(EditNeedsAnswerMessage)))
              && (owner == userId && q.status == NeedsReview && action == Approve && MissingAnswer(q.aiAnswer) ==>
                    r == Err(BadRequest(ApproveNeedsAnswerMessage)))
    ensures r.Ok? <==>
              && questionId in qs
              && projects[qs[questionId].projectId].userId == userId
              && qs[questionId].status == NeedsReview
              && !(action == EditApprove && Falsy(humanAnswer))
              && !(action == Approve && MissingAnswer(qs[questionId].aiAnswer))
    ensures r.Ok? ==>
              var q := qs[questionId];
              && r.value.status == (if action == Reject then Rejected else Approved)
              && r.value.humanAnswer == (if action == EditApprove then humanAnswer else q.humanAnswer)
              && r.value.aiAnswer == q.aiAnswer
              && r.value.confidenceScore == q.confidenceScore
              && r.value.projectId == q.projectId
              && r.value.rowIndex == q.rowIndex
              && r.value.questionText == q.questionText
  {
    if questionId !in qs then Err(NotFound("Question not found"))
    else
      var q := qs[questionId];
      if projects[q.projectId].userId != userId then
        Err(Forbidden("You do not have access to this question"))
      else if q.status != NeedsReview then Err(BadRequest(NotInReviewMessage(q.status)))
      else if action == EditApprove && Falsy(humanAnswer) then Err(BadRequest(EditNeedsAnswerMessage))
      else if action == Approve && MissingAnswer(q.aiAnswer) then Err(BadRequest(ApproveNeedsAnswerMessage))
      else
        match action
        case Approve => Ok(q.(status := Approved))
        case EditApprove => Ok(q.(status := Approved, humanAnswer := humanAnswer))
        case Reject => Ok(q.(status := Rejected))
  }

  function ReviewMessage(action: ReviewAction): string {
    match action
    case Approve => "Question approved successfully"
    case EditApprove => "Question edited and approved successfully"
    case Reject => "Question rejected successfully"
  }

  /** `notes || null`: an empty note is stored as absent. */
  function StoredNotes(notes: Option<string>): (n: Option<string>)
    ensures n.Some? <==> notes.Some? && notes.value != []
    ensures n.Some? ==> n == notes
  {
    if notes.Some? && notes.value != [] then notes else None
  }

  /** `submitReview`: on any failed check nothing is written; otherwise the question row
      is updated and exactly one review event is appended. */
  method SubmitReview(
    db: Db, userId: UserId, questionId: Id, action: ReviewAction,
    humanAnswer: Option<string>, notes: Option<string>)
    returns (r: Result<ReviewResponse>)
    requires db.Valid()
    modifies db`questions, db`reviewEvents
    ensures db.Valid()
    ensures var outcome := ReviewOutcome(old(db.questions), old(db.projects), userId, questionId, action, humanAnswer);
            outcome.Err? ==> r == Err(outcome.error) && unchanged(db)
    ensures var outcome := ReviewOutcome(old(db.questions), old(db.projects), userId, questionId, action, humanAnswer);
            outcome.Ok? ==>
              && r == Ok(ReviewResponse(questionId, outcome.value.status, action, ReviewMessage(action)))
              && db.questions == old(db.questions)[questionId := outcome.value]
              && db.reviewEvents == old(db.reviewEvents) + [ReviewEvent(questionId, userId, action, StoredNotes(notes))]
  {
    var outcome := ReviewOutcome(db.questions, db.projects, userId, questionId, action, humanAnswer);
    match outcome
    case Err(e) =>
      r := Err(e);
    case Ok(row) =>
      StoreReview(db, questionId, row, ReviewEvent(questionId, userId, action, StoredNotes(notes)));
      r := Ok(ReviewResponse(questionId, row.status, action, ReviewMessage(action)));
  }

  /** The write of a successful review: the question row is replaced by one of the same
      project and the event is appended; nothing else changes. */
  method StoreReview(db: Db, questionId: Id, row: QuestionItem, event: ReviewEvent)
    requires db.Valid() && questionId in db.questions
    requires row.projectId == db.questions[questionId].projectId
    modifies db`questions, db`reviewEvents
    ensures db.Valid()
    ensures db.questions == old(db.questions)[questionId := row]
    ensures db.reviewEvents == old(db.reviewEvents) + [event]
  {
    db.questions := db.questions[questionId := row];
    db.reviewEvents := db.reviewEvents + [event];
  }

  /** A review is final: once it succeeded, any further review of that question fails
      with the NEEDS_REVIEW error. */
  lemma ReviewIsFinal(
    qs: map<Id, QuestionItem>, projects: map<Id, Project>, userId: UserId, questionId: Id,
    action: ReviewAction, humanAnswer: Option<string>,
    userId': UserId, action': ReviewAction, humanAnswer': Option<string>)
    requires OwnersKnown(qs, projects)
    requires ReviewOutcome(qs, projects, userId, questionId, action, humanAnswer).Ok?
    ensures var row := ReviewOutcome(qs, projects, userId, questionId, action, humanAnswer).value;
            OwnersKnown(qs[questionId := row], projects)
            && ReviewOutcome(qs[questionId := row], projects, userId', questionId, action', humanAnswer').Err?
  {
  }

  /** EDIT_APPROVE accepts a whitespace-only answer, while APPROVE refuses a
      whitespace-only AI answer: the first test does not trim, the second does. */
  lemma WhitespaceAnswersDiffer(
    qs: map<Id, QuestionItem>, projects: map<Id, Project>, userId: UserId, questionId: Id)
    requires OwnersKnown(qs, projects)
    requires questionId in qs && qs[questionId].status == NeedsReview
    requires projects[qs[questionId].projectId].userId == userId
    requires qs[questionId].aiAnswer == Some(" ")
    ensures ReviewOutcome(qs, projects, userId, questionId, EditApprove, Some(" ")).Ok?
    ensures ReviewOutcome(qs, projects, userId, questionId, Approve, None) == Err(BadRequest(ApproveNeedsAnswerMessage))
  {
    assert Trim(" ") == [] by {
      assert TrimStart(" ") == [];
    }
    assert !Falsy(Some(" ")) && MissingAnswer(Some(" "));
  }

  // ---------------------------------------------------------------------------
  // Review gate and export
  // ---------------------------------------------------------------------------

  /** Some question of the project still waits for a human decision. */
  predicate HasNeedsReview(qs: map<Id, QuestionItem>, projectId: Id) {
    exists id :: id in qs && qs[id].projectId == projectId && qs[id].status == NeedsReview
  }

  lemma NeedsReviewCount(qs: map<Id, QuestionItem>, projectId: Id)
    ensures |WithStatus(qs, projectId, NeedsReview)| > 0 <==> HasNeedsReview(qs, projectId)
  {
    if HasNeedsReview(qs, projectId) {
      var id :| id in qs && qs[id].projectId == projectId && qs[id].status == NeedsReview;
      assert id in WithStatus(qs, projectId, NeedsReview);
    } else {
      assert WithStatus(qs, projectId, NeedsReview) == {};
    }
  }

  /** `checkReviewGate`: NotFound, then Forbidden, then whether the gate is closed. */
  method CheckReviewGate(db: Db, userId: UserId, projectId: Id) returns (r: Result<bool>)
    requires db.Valid()
    ensures projectId !in db.projects ==> r == Err(NotFound("Project not found"))
    ensures projectId in db.projects && db.projects[projectId].userId != userId ==>
              r == Err(Forbidden("You do not have access to this project"))
    ensures projectId in db.projects && db.projects[projectId].userId == userId ==>
              r == Ok(HasNeedsReview(db.questions, projectId))
  {
    if projectId !in db.projects {
      return Err(NotFound("Project not found"));
    }
    if db.projects[projectId].userId != userId {
      return Err(Forbidden("You do not have access to this project"));
    }
    var needsReviewCount := |WithStatus(db.questions, projectId, NeedsReview)|;
    NeedsReviewCount(db.questions, projectId);
    r := Ok(needsReviewCount > 0);
  }

  const ExportConflictMessage := "Project has questions that need review; complete review before export"

  /** `validateProjectReadyForExport`: a conflict exactly when a question needs review. */
  method ValidateProjectReadyForExport(db: Db, projectId: Id) returns (r: Result<()>)
    ensures HasNeedsReview(db.questions, projectId) ==> r == Err(Conflict(ExportConflictMessage))
    ensures !HasNeedsReview(db.questions, projectId) ==> r == Ok(())
  {
    var needsReviewCount := |WithStatus(db.questions, projectId, NeedsReview)|;
    NeedsReviewCount(db.questions, projectId);
    if needsReviewCount > 0 {
      return Err(Conflict(ExportConflictMessage));
    }
    r := Ok(());
  }

  datatype ExportItem = ExportItem(rowIndex: int, questionText: string, finalAnswer: string)

  datatype ExportResponse = ExportResponse(projectId: Id, projectName: string, items: seq<ExportItem>)

  /** `humanAnswer ?? aiAnswer ?? ''`: the human answer wins over the AI's. */
  function FinalAnswer(q: QuestionItem): (a: string)
    ensures q.humanAnswer.Some? ==> a == q.humanAnswer.value
    ensures q.humanAnswer.None? && q.aiAnswer.Some? ==> a == q.aiAnswer.value
    ensures q.humanAnswer.None? && q.aiAnswer.None? ==> a == ""
  {
    q.humanAnswer.GetOr(q.aiAnswer.GetOr(""))
  }

  function ExportItemOf(q: QuestionItem): ExportItem {
    ExportItem(q.rowIndex, q.questionText, FinalAnswer(q))
  }

  /** What a successful review puts in the export: the edited text after EDIT_APPROVE,
      and after APPROVE of a never-edited question its (non-blank) AI answer. */
  lemma ReviewedAnswerIsExported(
    qs: map<Id, QuestionItem>, projects: map<Id, Project>, userId: UserId,
    questionId: Id, action: ReviewAction, humanAnswer: Option<string>)
    requires OwnersKnown(qs, projects)
    requires ReviewOutcome(qs, projects, userId, questionId, action, humanAnswer).Ok?
    ensures var row := ReviewOutcome(qs, projects, userId, questionId, action, humanAnswer).value;
            && (action == EditApprove ==> FinalAnswer(row) == humanAnswer.value != [])
            && (action == Approve && qs[questionId].humanAnswer.None? ==>
                  FinalAnswer(row) == qs[questionId].aiAnswer.value && Trim(FinalAnswer(row)) != [])
  {
  }

  /** `exportProject`: NotFound, Forbidden, then the review gate (Conflict); otherwise one
      item per question of the project in row order. The ghost `order` names the
      questions behind the items. */
  method ExportProject(db: Db, userId: UserId, projectId: Id)
    returns (r: Result<ExportResponse>, ghost order: seq<Id>)
    requires db.Valid()
    ensures projectId !in db.projects ==> r == Err(NotFound("Project not found"))
    ensures projectId in db.projects && db.projects[projectId].userId != userId ==>
              r == Err(Forbidden("You do not have access to this project"))
    ensures projectId in db.projects && db.projects[projectId].userId == userId
            && HasNeedsReview(db.questions, projectId) ==>
              r == Err(Conflict(ExportConflictMessage))
    ensures r.Ok? <==>
              projectId in db.projects && db.projects[projectId].userId == userId
              && !HasNeedsReview(db.questions, projectId)
    ensures r.Ok? ==>
              && r.value.projectId == projectId
              && r.value.projectName == db.projects[projectId].originalFilePath
              && OrderedEnumeration(db.questions, ProjectQuestions(db.questions, projectId), order)
              && |r.value.items| == |order| == |ProjectQuestions(db.questions, projectId)|
              && (forall i :: 0 <= i < |order| ==> r.value.items[i] == ExportItemOf(db.questions[order[i]]))
              && (forall i :: 0 <= i < |order| ==> db.questions[order[i]].status != NeedsReview)
  {
    order := [];
    if projectId !in db.projects {
      return Err(NotFound("Project not found")), [];
    }
    var project := db.projects[projectId];
    if project.userId != userId {
      return Err(Forbidden("You do not have access to this project")), [];
    }
    var ready := ValidateProjectReadyForExport(db, projectId);
    if ready.Err? {
      return Err(ready.error), [];
    }
    var ids := OrderByRowIndex(db.questions, ProjectQuestions(db.questions, projectId));
    var qs := db.questions;
    var items := seq(|ids|, i requires 0 <= i < |ids| => ExportItemOf(qs[ids[i]]));
    order := ids;
    r := Ok(ExportResponse(projectId, project.originalFilePath, items));
  }
}
