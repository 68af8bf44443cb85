/** The draft job: every PENDING question of a project, in row order, goes through the
    draft engine; a question whose draft fails is marked FAILED and the batch goes on.
    Five counters summarise the run. */
module DraftProcessor {
  import opened Common
  import opened Store
  import opened Draft
  import Projects

  datatype DraftJob = DraftJob(projectId: Id, userId: UserId)

  datatype Counters = Counters(processed: nat, drafted: nat, needsReview: nat, approved: nat, failed: nat)

  const NoCounts := Counters(0, 0, 0, 0, 0)

  function SettingsOf(p: Project): DraftSettings {
    DraftSettings(p.userId, p.reviewThreshold, p.autoApprove)
  }

  /** The draft of one question, as the job sees it: the engine applied to the text the
      question had when the job listed it. */
  function Attempt(sv: Services, settings: DraftSettings, snapshot: map<Id, QuestionItem>, id: Id): Result<DraftResult>
    requires id in snapshot
  {
    DraftOutcome(sv, snapshot[id].questionText, settings)
  }

  /** How one attempt moves the counters. `marked` says whether the FAILED update of a
      failed attempt went through. */
  function Count(c: Counters, outcome: Result<DraftResult>, marked: bool): Counters {
    if outcome.Ok? then
      var c' := c.(processed := c.processed + 1);
      match outcome.value.status
      case Drafted => c'.(drafted := c'.drafted + 1)
      case NeedsReview => c'.(needsReview := c'.needsReview + 1)
      case Approved => c'.(approved := c'.approved + 1)
      case _ => c'
    else if marked then c.(failed := c.failed + 1)
    else c
  }

  predicate AllListed(snapshot: map<Id, QuestionItem>, ids: seq<Id>) {
    forall i :: 0 <= i < |ids| ==> ids[i] in snapshot
  }

  predicate Distinct(ids: seq<Id>) {
    forall i, j :: 0 <= i < j < |ids| ==> ids[i] != ids[j]
  }

  /** The counters after attempting `ids` in order. */
  function Tally(
    sv: Services, settings: DraftSettings, markFailed: Id -> bool, snapshot: map<Id, QuestionItem>, ids: seq<Id>)
    : Counters
    requires AllListed(snapshot, ids)
  {
    if ids == [] then NoCounts
    else
      var last := ids[|ids| - 1];
      Count(Tally(sv, settings, markFailed, snapshot, ids[..|ids| - 1]),
            Attempt(sv, settings, snapshot, last), markFailed(last))
  }

  /** The question rows after one attempt: the draft's own write, or the FAILED mark. */
  function AfterAttempt(qs: map<Id, QuestionItem>, id: Id, outcome: Result<DraftResult>, marked: bool)
    : map<Id, QuestionItem>
    requires id in qs
  {
    if outcome.Err? then
      if marked then qs[id := qs[id].(status := Failed)] else qs
    else QuestionsAfterDraft(qs, id, outcome)
  }

  /** The question rows after attempting `ids` in order. */
  function QuestionsAfterRun(
    sv: Services, settings: DraftSettings, markFailed: Id -> bool, snapshot: map<Id, QuestionItem>, ids: seq<Id>)
    : (qs: map<Id, QuestionItem>)
    requires AllListed(snapshot, ids)
    ensures forall id :: id in qs <==> id in snapshot
  {
    if ids == [] then snapshot
    else
      var last := ids[|ids| - 1];
      AfterAttempt(QuestionsAfterRun(sv, settings, markFailed, snapshot, ids[..|ids| - 1]), last,
                   Attempt(sv, settings, snapshot, last), markFailed(last))
  }

  /** The citations after attempting `ids` in order. */
  function CitationsAfterRun(
    cs: map<Id, seq<Citation>>, sv: Services, settings: DraftSettings, snapshot: map<Id, QuestionItem>, ids: seq<Id>)
    : map<Id, seq<Citation>>
    requires AllListed(snapshot, ids)
  {
    if ids == [] then cs
    else
      var last := ids[|ids| - 1];
      CitationsAfterDraft(CitationsAfterRun(cs, sv, settings, snapshot, ids[..|ids| - 1]), last,
                          Attempt(sv, settings, snapshot, last))
  }

  /** `process`. A missing project or a foreign one aborts the job before any question is
      touched. Otherwise the PENDING questions of the project are attempted once each, in
      row order, and the counters of that run are returned. */
  method Process(db: Db, sv: Services, markFailed: Id -> bool, job: DraftJob)
    returns (r: Result<Counters>, ghost order: seq<Id>)
    requires db.Valid()
    modifies db
    ensures db.Valid()
    ensures job.projectId !in old(db.projects) ==>
              r == Err(Failure("Project " + Decimal(job.projectId) + " not found")) && unchanged(db)
    ensures job.projectId in old(db.projects) && old(db.projects)[job.projectId].userId != job.userId ==>
              && r == Err(Failure("Project " + Decimal(job.projectId) + " does not belong to user " + job.userId))
              && unchanged(db)
    ensures r.Ok? <==> job.projectId in old(db.projects) && old(db.projects)[job.projectId].userId == job.userId
    ensures r.Ok? ==>
              var settings := SettingsOf(old(db.projects)[job.projectId]);
              var pending := WithStatus(old(db.questions), job.projectId, Pending);
              && OrderedEnumeration(old(db.questions), pending, order)
              && AllListed(old(db.questions), order)
              && (pending == {} ==> r.value == NoCounts)
              && r.value == Tally(sv, settings, markFailed, old(db.questions), order)
              && db.questions == QuestionsAfterRun(sv, settings, markFailed, old(db.questions), order)
              && db.citations == CitationsAfterRun(old(db.citations), sv, settings, old(db.questions), order)
              && db.projects == old(db.projects) && db.reviewEvents == old(db.reviewEvents)
              && db.documents == old(db.documents) && db.embeddings == old(db.embeddings)
  {
    order := [];
    if job.projectId !in db.projects {
      return Err(Failure("Project " + Decimal(job.projectId) + " not found")), [];
    }
    var project := db.projects[job.projectId];
    if project.userId != job.userId {
      return Err(Failure("Project " + Decimal(job.projectId) + " does not belong to user " + job.userId)), [];
    }
    var settings := SettingsOf(project);
    var snapshot := db.questions;
    var pending := OrderByRowIndex(snapshot, WithStatus(snapshot, job.projectId, Pending));
    order := pending;
    if |pending| == 0 {
      return Ok(NoCounts), order;
    }

    var counts := RunDrafts(db, sv, markFailed, settings, snapshot, pending);
    r := Ok(counts);
  }

  /** One more attempt extends each of the three folds by one step. */
  lemma RunStep(
    sv: Services, settings: DraftSettings, markFailed: Id -> bool, snapshot: map<Id, QuestionItem>,
    cs: map<Id, seq<Citation>>, ids: seq<Id>, i: nat)
    requires AllListed(snapshot, ids) && i < |ids|
    ensures var out := Attempt(sv, settings, snapshot, ids[i]);
            && Tally(sv, settings, markFailed, snapshot, ids[..i + 1])
               == Count(Tally(sv, settings, markFailed, snapshot, ids[..i]), out, markFailed(ids[i]))
            && QuestionsAfterRun(sv, settings, markFailed, snapshot, ids[..i + 1])
               == AfterAttempt(QuestionsAfterRun(sv, settings, markFailed, snapshot, ids[..i]), ids[i], out, markFailed(ids[i]))
            && CitationsAfterRun(cs, sv, settings, snapshot, ids[..i + 1])
               == CitationsAfterDraft(CitationsAfterRun(cs, sv, settings, snapshot, ids[..i]), ids[i], out)
  {
    assert ids[..i + 1][..i] == ids[..i];
  }

  /** The FAILED mark of a question whose draft threw. */
  method MarkFailed(db: Db, id: Id)
    requires db.Valid() && id in db.questions
    modifies db`questions
    ensures db.Valid()
    ensures db.questions == old(db.questions)[id := old(db.questions)[id].(status := Failed)]
  {
    db.questions := db.questions[id := db.questions[id].(status := Failed)];
  }

  /** The body of the loop of `process` for one question: the draft, and when it throws
      the FAILED mark, whose success `marked` reports. */
  method AttemptQuestion(
    db: Db, sv: Services, markFailed: Id -> bool, settings: DraftSettings,
    snapshot: map<Id, QuestionItem>, id: Id)
    returns (result: Result<DraftResult>, marked: bool)
    requires db.Valid() && id in db.questions && id in snapshot
    modifies db
    ensures db.Valid()
    ensures result == Attempt(sv, settings, snapshot, id)
    ensures marked == (result.Err? && markFailed(id))
    ensures db.questions == AfterAttempt(old(db.questions), id, result, markFailed(id))
    ensures db.citations == CitationsAfterDraft(old(db.citations), id, result)
    ensures db.projects == old(db.projects) && db.reviewEvents == old(db.reviewEvents)
    ensures db.documents == old(db.documents) && db.embeddings == old(db.embeddings)
  {
    result := ProcessQuestion(db, sv, id, snapshot[id].questionText, settings);
    marked := false;
    if result.Err? && markFailed(id) {
      MarkFailed(db, id);
      marked := true;
    }
  }

  /** `processed++` and the status switch after a successful draft; `failed++` after a
      FAILED mark that went through. */
  method CountResult(
    processed: nat, drafted: nat, needsReview: nat, approved: nat, failed: nat,
    result: Result<DraftResult>, marked: bool)
    returns (processed': nat, drafted': nat, needsReview': nat, approved': nat, failed': nat)
    requires result.Ok? ==> !marked
    ensures Counters(processed', drafted', needsReview', approved', failed')
            == Count(Counters(processed, drafted, needsReview, approved, failed), result, marked)
  {
    processed', drafted', needsReview', approved', failed' := processed, drafted, needsReview, approved, failed;
    if result.Ok? {
      processed' := processed' + 1;
      match result.value.status
      case Drafted => drafted' := drafted' + 1;
      case NeedsReview => needsReview' := needsReview' + 1;
      case Approved => approved' := approved' + 1;
      case _ =>
    } else if marked {
      failed' := failed' + 1;
    }
  }

  /** The loop of `process` over the listed PENDING questions. */
  method RunDrafts(
    db: Db, sv: Services, markFailed: Id -> bool, settings: DraftSettings,
    snapshot: map<Id, QuestionItem>, pending: seq<Id>)
    returns (counts: Counters)
    requires db.Valid() && db.questions == snapshot && AllListed(snapshot, pending)
    modifies db
    ensures db.Valid()
    ensures counts == Tally(sv, settings, markFailed, snapshot, pending)
    ensures db.questions == QuestionsAfterRun(sv, settings, markFailed, snapshot, pending)
    ensures db.citations == CitationsAfterRun(old(db.citations), sv, settings, snapshot, pending)
    ensures db.projects == old(db.projects) && db.reviewEvents == old(db.reviewEvents)
    ensures db.documents == old(db.documents) && db.embeddings == old(db.embeddings)
  {
    var processed, drafted, needsReview, approved, failed := 0, 0, 0, 0, 0;
    for i := 0 to |pending|
      invariant db.Valid()
      invariant Counters(processed, drafted, needsReview, approved, failed)
                == Tally(sv, settings, markFailed, snapshot, pending[..i])
      invariant db.questions == QuestionsAfterRun(sv, settings, markFailed, snapshot, pending[..i])
      invariant db.citations == CitationsAfterRun(old(db.citations), sv, settings, snapshot, pending[..i])
      invariant db.projects == old(db.projects) && db.reviewEvents == old(db.reviewEvents)
      invariant db.documents == old(db.documents) && db.embeddings == old(db.embeddings)
    {
      var id := pending[i];
      RunStep(sv, settings, markFailed, snapshot, old(db.citations), pending, i);
      var result, marked := AttemptQuestion(db, sv, markFailed, settings, snapshot, id);
      processed, drafted, needsReview, approved, failed :=
        CountResult(processed, drafted, needsReview, approved, failed, result, marked);
    }
    assert pending[..|pending|] == pending;
    counts := Counters(processed, drafted, needsReview, approved, failed);
  }

  // ---------------------------------------------------------------------------
  // What a run amounts to
  // ---------------------------------------------------------------------------

  /** Every successful draft lands in exactly one of the three status counters. */
  lemma {:induction false} TallyBalanced(
    sv: Services, settings: DraftSettings, markFailed: Id -> bool, snapshot: map<Id, QuestionItem>, ids: seq<Id>)
    requires AllListed(snapshot, ids)
    ensures var c := Tally(sv, settings, markFailed, snapshot, ids);
            c.processed == c.drafted + c.needsReview + c.approved
  {
    if ids != [] {
      var init, last := ids[..|ids| - 1], ids[|ids| - 1];
      TallyBalanced(sv, settings, markFailed, snapshot, init);
      CountStep(Tally(sv, settings, markFailed, snapshot, init), Attempt(sv, settings, snapshot, last), markFailed(last));
    }
  }

  /** Each question is counted at most once, and exactly once when every FAILED update
      succeeds. */
  lemma {:induction false} TallyBounded(
    sv: Services, settings: DraftSettings, markFailed: Id -> bool, snapshot: map<Id, QuestionItem>, ids: seq<Id>)
    requires AllListed(snapshot, ids)
    ensures var c := Tally(sv, settings, markFailed, snapshot, ids);
            && c.processed + c.failed <= |ids|
            && ((forall i :: 0 <= i < |ids| ==> markFailed(ids[i])) ==> c.processed + c.failed == |ids|)
  {
    if ids != [] {
      var init, last := ids[..|ids| - 1], ids[|ids| - 1];
      assert forall i :: 0 <= i < |init| ==> init[i] == ids[i];
      TallyBounded(sv, settings, markFailed, snapshot, init);
      CountStep(Tally(sv, settings, markFailed, snapshot, init), Attempt(sv, settings, snapshot, last), markFailed(last));
    }
  }

  /** What one attempt adds to the counters. */
  lemma CountStep(c: Counters, outcome: Result<DraftResult>, marked: bool)
    requires outcome.Ok? ==> outcome.value.status in {Drafted, NeedsReview, Approved}
    ensures var c' := Count(c, outcome, marked);
            && c'.processed - c.processed
               == (c'.drafted - c.drafted) + (c'.needsReview - c.needsReview) + (c'.approved - c.approved)
            && c'.processed + c'.failed == c.processed + c.failed + (if outcome.Ok? || marked then 1 else 0)
  {
  }

  /** A question outside the run is never written. */
  lemma {:induction false} RunLeavesOthers(
    sv: Services, settings: DraftSettings, markFailed: Id -> bool, snapshot: map<Id, QuestionItem>, ids: seq<Id>, id: Id)
    requires AllListed(snapshot, ids)
    requires id in snapshot && forall i :: 0 <= i < |ids| ==> ids[i] != id
    ensures QuestionsAfterRun(sv, settings, markFailed, snapshot, ids)[id] == snapshot[id]
  {
    if ids != [] {
      var before, last := ids[..|ids| - 1], ids[|ids| - 1];
      forall k | 0 <= k < |before| ensures before[k] != id {
        assert before[k] == ids[k];
      }
      RunLeavesOthers(sv, settings, markFailed, snapshot, before, id);
      AfterAttemptElsewhere(QuestionsAfterRun(sv, settings, markFailed, snapshot, before), last,
                            Attempt(sv, settings, snapshot, last), markFailed(last), id);
    }
  }

  /** Each question of the run ends as its own attempt left it: later attempts touch
      other rows only. */
  lemma {:induction false} RunRowIsOwnAttempt(
    sv: Services, settings: DraftSettings, markFailed: Id -> bool, snapshot: map<Id, QuestionItem>, ids: seq<Id>, i: nat)
    requires AllListed(snapshot, ids) && Distinct(ids) && i < |ids|
    ensures var id := ids[i];
            QuestionsAfterRun(sv, settings, markFailed, snapshot, ids)[id]
            == AfterAttempt(snapshot, id, Attempt(sv, settings, snapshot, id), markFailed(id))[id]
  {
    var n := |ids| - 1;
    if i == n {
      RunLastRowIsOwnAttempt(sv, settings, markFailed, snapshot, ids);
    } else {
      var before, last := ids[..n], ids[n];
      var prior := QuestionsAfterRun(sv, settings, markFailed, snapshot, before);
      assert QuestionsAfterRun(sv, settings, markFailed, snapshot, ids)
          == AfterAttempt(prior, last, Attempt(sv, settings, snapshot, last), markFailed(last));
      RunRowIsOwnAttempt(sv, settings, markFailed, snapshot, before, i);
      assert before[i] == ids[i];
      AfterAttemptElsewhere(prior, last, Attempt(sv, settings, snapshot, last), markFailed(last), ids[i]);
    }
  }

  /** The last question of the run ends as its own attempt left it. */
  lemma RunLastRowIsOwnAttempt(
    sv: Services, settings: DraftSettings, markFailed: Id -> bool, snapshot: map<Id, QuestionItem>, ids: seq<Id>)
    requires AllListed(snapshot, ids) && Distinct(ids) && ids != []
    ensures var id := ids[|ids| - 1];
            QuestionsAfterRun(sv, settings, markFailed, snapshot, ids)[id]
            == AfterAttempt(snapshot, id, Attempt(sv, settings, snapshot, id), markFailed(id))[id]
  {
    var n := |ids| - 1;
    var before, last := ids[..n], ids[n];
    var prior := QuestionsAfterRun(sv, settings, markFailed, snapshot, before);
    assert QuestionsAfterRun(sv, settings, markFailed, snapshot, ids)
        == AfterAttempt(prior, last, Attempt(sv, settings, snapshot, last), markFailed(last));
    forall k | 0 <= k < |before| ensures before[k] != last {
      assert before[k] == ids[k];
    }
    RunLeavesOthers(sv, settings, markFailed, snapshot, before, last);
    AfterAttemptOwnRow(prior, snapshot, last, Attempt(sv, settings, snapshot, last), markFailed(last));
  }

  /** An attempt writes its own row only. */
  lemma AfterAttemptElsewhere(qs: map<Id, QuestionItem>, id: Id, outcome: Result<DraftResult>, marked: bool, other: Id)
    requires id in qs && other in qs && other != id
    ensures AfterAttempt(qs, id, outcome, marked)[other] == qs[other]
  {
  }

  /** What an attempt leaves in its own row depends only on that row. */
  lemma AfterAttemptOwnRow(qs: map<Id, QuestionItem>, qs': map<Id, QuestionItem>, id: Id,
                           outcome: Result<DraftResult>, marked: bool)
    requires id in qs && id in qs' && qs[id] == qs'[id]
    ensures AfterAttempt(qs, id, outcome, marked)[id] == AfterAttempt(qs', id, outcome, marked)[id]
  {
  }

  /** The stored status of each attempted PENDING question after the run: the drafted
      status when the draft found context, FAILED when the draft failed and the mark went
      through, and PENDING otherwise (including a draft without context, which the
      counters report as NEEDS_REVIEW). */
  lemma FinalStatus(
    sv: Services, settings: DraftSettings, markFailed: Id -> bool, snapshot: map<Id, QuestionItem>, ids: seq<Id>, i: nat)
    requires AllListed(snapshot, ids) && Distinct(ids) && i < |ids|
    requires snapshot[ids[i]].status == Pending
    ensures var out := Attempt(sv, settings, snapshot, ids[i]);
            var st := QuestionsAfterRun(sv, settings, markFailed, snapshot, ids)[ids[i]].status;
            && (out.Ok? && out.value.chunks != [] ==> st == out.value.status)
            && (out.Ok? && out.value.chunks == [] ==> st == Pending)
            && (out.Err? ==> st == (if markFailed(ids[i]) then Failed else Pending))
  {
    RunRowIsOwnAttempt(sv, settings, markFailed, snapshot, ids, i);
  }

  /** A PENDING question without answers whose draft finds no context comes out of the
      run as it went in: still PENDING, so it does not hold the export gate closed, and
      exported with an empty final answer. */
  lemma NoContextQuestionExportsEmpty(
    sv: Services, settings: DraftSettings, markFailed: Id -> bool, snapshot: map<Id, QuestionItem>, ids: seq<Id>, i: nat)
    requires AllListed(snapshot, ids) && Distinct(ids) && i < |ids|
    requires snapshot[ids[i]].status == Pending
    requires snapshot[ids[i]].aiAnswer.None? && snapshot[ids[i]].humanAnswer.None?
    requires Attempt(sv, settings, snapshot, ids[i]) == Ok(NoContextDraft)
    ensures var q := QuestionsAfterRun(sv, settings, markFailed, snapshot, ids)[ids[i]];
            q.status == Pending && Projects.FinalAnswer(q) == ""
  {
    RunRowIsOwnAttempt(sv, settings, markFailed, snapshot, ids, i);
  }

  /** The job's order lists each question once. */
  lemma OrderIsDistinct(qs: map<Id, QuestionItem>, s: set<Id>, ids: seq<Id>)
    requires s <= qs.Keys && OrderedEnumeration(qs, s, ids)
    ensures Distinct(ids)
  {
    forall i, j | 0 <= i < j < |ids|
      ensures ids[i] != ids[j]
    {
      assert RowLess(qs, ids[i], ids[j]);
    }
  }
}
