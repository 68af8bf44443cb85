/** The questionnaire upload card of the web client: it accepts only `.xlsx` files, reads
    the question column of the first sheet into numbered questions, and sends them to
    the server to create a project. */
module UploadQuestionnaire {
  import opened Common
  import Projects

  datatype ParsedQuestion = ParsedQuestion(rowIndex: int, questionText: string)

  /** The first sheet as rows of cells, the header row first. */
  type Grid = seq<seq<string>>

  /** A file the user picked: its name and what reading its first sheet gives (the
      reader's and the workbook parser's failures carry their message). */
  datatype SelectedFile = SelectedFile(name: string, sheet: Result<Grid>)

  const NotXlsxMessage: string := "Please select an .xlsx file"

  // ---------------------------------------------------------------------------
  // Reading the rows
  // ---------------------------------------------------------------------------

  /** `row?.[k]`: a missing cell reads as the empty string. */
  function Cell(row: seq<string>, k: nat): string {
    if k < |row| then row[k] else ""
  }

  /** `/question/i` on a trimmed header cell. */
  predicate IsQuestionHeader(h: string) {
    Contains(Lower(Trim(h)), "question")
  }

  /** `findIndex` from position `j` on: the first position whose element satisfies `p`. */
  function FindFirst<T>(xs: seq<T>, p: T -> bool, j: nat): (r: Option<nat>)
    requires j <= |xs|
    ensures r.Some? ==> j <= r.value < |xs| && p(xs[r.value])
    ensures r.Some? ==> forall k :: j <= k < r.value ==> !p(xs[k])
    ensures r.None? ==> forall k :: j <= k < |xs| ==> !p(xs[k])
    decreases |xs| - j
  {
    if j == |xs| then None
    else if p(xs[j]) then Some(j)
    else FindFirst(xs, p, j + 1)
  }

  /** The question column: the first header cell that mentions "question" in any case,
      else the first column. */
  function QuestionColumn(header: seq<string>): (k: nat)
    ensures (exists j :: 0 <= j < |header| && IsQuestionHeader(header[j])) ==>
              k < |header| && IsQuestionHeader(header[k])
              && forall j :: 0 <= j < k ==> !IsQuestionHeader(header[j])
    ensures (forall j :: 0 <= j < |header| ==> !IsQuestionHeader(header[j])) ==> k == 0
  {
    match FindFirst(header, IsQuestionHeader, 0)
    case Some(k) => k
    case None => 0
  }

  /** The trimmed cell of every row in the question column (the header's included); an
      empty grid has no header, and no texts. */
  function ColumnTexts(rows: Grid): (texts: seq<string>)
    ensures |texts| == |rows|
    ensures forall i :: 0 <= i < |rows| ==> texts[i] == Trim(Cell(rows[i], QuestionColumn(rows[0])))
  {
    if rows == [] then []
    else
      var texts := TrimmedColumn(rows, QuestionColumn(rows[0]));
      assert forall i :: 0 <= i < |rows| ==> texts[i] == Trim(Cell(rows[i], QuestionColumn(rows[0]))) by {
        forall i | 0 <= i < |rows| { TrimmedColumnAt(rows, QuestionColumn(rows[0]), i); }
      }
      texts
  }

  /** The trimmed cells of one column, row by row. */
  function TrimmedColumn(rows: Grid, column: nat): (texts: seq<string>)
    ensures |texts| == |rows|
  {
    MapSeq(row => Trim(Cell(row, column)), rows)
  }

  lemma TrimmedColumnAt(rows: Grid, column: nat, i: nat)
    requires i < |rows|
    ensures TrimmedColumn(rows, column)[i] == Trim(Cell(rows[i], column))
  {
    MapSeqAt(row => Trim(Cell(row, column)), rows, i);
  }

  /** `questions` is what a column yields: one question for every row after the header
      whose text is not blank, numbered by its spreadsheet row (the header is row 1),
      in row order, carrying the text. */
  ghost predicate Extracted(texts: seq<string>, questions: seq<ParsedQuestion>) {
    ExtractedUpTo(texts, questions, |texts|)
  }

  /** `Extracted`, for the rows before row `n` (counted from 0). */
  ghost predicate ExtractedUpTo(texts: seq<string>, questions: seq<ParsedQuestion>, n: nat)
    requires n <= |texts|
  {
    Faithful(texts, questions, n) && Increasing(questions) && Complete(texts, questions, n)
  }

  /** Each question comes from a non-blank row after the header and before row `n`, and
      carries that row's text. */
  ghost predicate Faithful(texts: seq<string>, questions: seq<ParsedQuestion>, n: nat)
    requires n <= |texts|
  {
    forall k :: 0 <= k < |questions| ==>
      2 <= questions[k].rowIndex <= n
      && questions[k].questionText == texts[questions[k].rowIndex - 1]
      && questions[k].questionText != []
  }

  /** The questions are in row order. */
  ghost predicate Increasing(questions: seq<ParsedQuestion>) {
    forall k, l :: 0 <= k < l < |questions| ==> questions[k].rowIndex < questions[l].rowIndex
  }

  /** Every non-blank row after the header and before row `n` has its question. */
  ghost predicate Complete(texts: seq<string>, questions: seq<ParsedQuestion>, n: nat)
    requires n <= |texts|
  {
    forall i {:trigger Listed(questions, i)} :: 1 <= i < n && texts[i] != [] ==> Listed(questions, i)
  }

  /** Reading row `n` extends what the rows before it yield. */
  lemma ExtractedStep(texts: seq<string>, questions: seq<ParsedQuestion>, n: nat)
    requires 1 <= n < |texts| && ExtractedUpTo(texts, questions, n)
    ensures texts[n] == [] ==> ExtractedUpTo(texts, questions, n + 1)
    ensures texts[n] != [] ==> ExtractedUpTo(texts, questions + [ParsedQuestion(n + 1, texts[n])], n + 1)
  {
    var after := questions + [ParsedQuestion(n + 1, texts[n])];
    FaithfulStep(texts, questions, n);
    if texts[n] != [] {
      IncreasingStep(questions, n, texts[n]);
      CompleteStep(texts, questions, n);
    } else {
      assert Complete(texts, questions, n + 1);
    }
  }

  lemma FaithfulStep(texts: seq<string>, questions: seq<ParsedQuestion>, n: nat)
    requires n < |texts| && Faithful(texts, questions, n)
    ensures Faithful(texts, questions, n + 1)
    ensures texts[n] != [] && n >= 1 ==> Faithful(texts, questions + [ParsedQuestion(n + 1, texts[n])], n + 1)
  {
  }

  lemma IncreasingStep(questions: seq<ParsedQuestion>, n: nat, text: string)
    requires Increasing(questions)
    requires forall k :: 0 <= k < |questions| ==> questions[k].rowIndex <= n
    ensures Increasing(questions + [ParsedQuestion(n + 1, text)])
  {
  }

  lemma CompleteStep(texts: seq<string>, questions: seq<ParsedQuestion>, n: nat)
    requires n < |texts| && Complete(texts, questions, n)
    ensures Complete(texts, questions + [ParsedQuestion(n + 1, texts[n])], n + 1)
  {
    var after := questions + [ParsedQuestion(n + 1, texts[n])];
    assert after[|after| - 1].rowIndex == n + 1;
    assert Listed(after, n);
    forall j | 1 <= j < n && texts[j] != []
      ensures Listed(after, j)
    {
      assert Listed(questions, j);
      var k :| 0 <= k < |questions| && questions[k].rowIndex == j + 1;
      assert after[k] == questions[k];
    }
  }

  /** Row `i` of the sheet (counted from 0) has a question in the list. */
  ghost predicate Listed(questions: seq<ParsedQuestion>, i: int) {
    exists k :: 0 <= k < |questions| && questions[k].rowIndex == i + 1
  }

  /** The row loop of `parseXlsxToQuestions`. */
  method ParseRows(rows: Grid) returns (questions: seq<ParsedQuestion>)
    ensures Extracted(ColumnTexts(rows), questions)
    ensures rows == [] ==> questions == []
  {
    questions := [];
    if rows == [] {
      return;
    }
    ghost var texts := ColumnTexts(rows);
    var column := QuestionColumn(rows[0]);
    for i := 1 to |rows|
      invariant ExtractedUpTo(texts, questions, i)
    {
      var questionText := Trim(Cell(rows[i], column));
      TrimmedColumnAt(rows, column, i);
      ExtractedStep(texts, questions, i);
      if questionText != [] {
        questions := questions + [ParsedQuestion(i + 1, questionText)];
      }
    }
  }

  /** The list a column yields is the only one that fits `Extracted`. */
  lemma {:induction false} ExtractedUnique(rows: seq<string>, a: seq<ParsedQuestion>, b: seq<ParsedQuestion>)
    requires Extracted(rows, a) && Extracted(rows, b)
    ensures a == b
  {
    forall k | 0 <= k < |a| && k < |b|
      ensures a[k] == b[k]
    {
      ExtractedAt(rows, a, b, k);
    }
    if |a| < |b| {
      ExtractedAt(rows, b, a, |a|);
    } else if |b| < |a| {
      ExtractedAt(rows, a, b, |b|);
    }
  }

  /** Two extractions of one column agree at every position the first one has. */
  lemma {:induction false} ExtractedAt(rows: seq<string>, a: seq<ParsedQuestion>, b: seq<ParsedQuestion>, k: nat)
    requires Extracted(rows, a) && Extracted(rows, b) && k < |a|
    ensures k < |b| && a[k] == b[k]
    decreases k
  {
    if k > 0 {
      ExtractedAt(rows, a, b, k - 1);
    }
    var i := a[k].rowIndex - 1;
    assert Listed(b, i);
    var m :| 0 <= m < |b| && b[m].rowIndex == i + 1;
    if m < k {
      assert false;
    }
    var j := b[k].rowIndex - 1;
    assert Listed(a, j);
    var m' :| 0 <= m' < |a| && a[m'].rowIndex == j + 1;
    if m' < k {
      assert false;
    }
    assert a[k].rowIndex == b[k].rowIndex;
  }

  /** A question as the card holds it: after the header row, with trimmed, non-blank text. */
  predicate Sendable(q: ParsedQuestion) {
    q.rowIndex >= 2 && q.questionText != [] && Trim(q.questionText) == q.questionText
  }

  /** Every extracted question sits after the header and carries trimmed, non-blank text. */
  lemma ExtractedTrimmed(rows: Grid, questions: seq<ParsedQuestion>)
    requires Extracted(ColumnTexts(rows), questions)
    ensures forall k :: 0 <= k < |questions| ==> Sendable(questions[k])
  {
    forall k | 0 <= k < |questions|
      ensures Sendable(questions[k])
    {
      var i := questions[k].rowIndex - 1;
      TrimmedColumnAt(rows, QuestionColumn(rows[0]), i);
      TrimIdempotent(Cell(rows[i], QuestionColumn(rows[0])));
    }
  }

  // ---------------------------------------------------------------------------
  // The card
  // ---------------------------------------------------------------------------

  /** The request the card sends: every question with its row number and text, under
      the file's name. */
  function RequestOf(fileName: Option<string>, questions: seq<ParsedQuestion>): (req: Projects.CreateProjectRequest)
    ensures req.originalName == fileName && |req.questions| == |questions|
  {
    Projects.CreateProjectRequest(
      fileName,
      seq(|questions|, k requires 0 <= k < |questions| =>
        Projects.QuestionInput(Projects.Finite(questions[k].rowIndex), Some(questions[k].questionText))))
  }

  /** The state of the upload card: the chosen file's name, the questions read from it
      and the message shown. */
  class UploadCard {
    var fileName: Option<string>
    var questions: seq<ParsedQuestion>
    var error: Option<string>

    /** The questions held are numbered from row 2 on and carry trimmed, non-blank text. */
    ghost predicate Valid()
      reads this
    {
      forall k :: 0 <= k < |questions| ==> Sendable(questions[k])
    }

    constructor ()
      ensures Valid() && fileName == None && questions == [] && error == None
    {
      fileName, questions, error := None, [], None;
    }

    /** `handleFile`: no file or a file not named `.xlsx` (in any case) clears the card;
        a sheet that cannot be read clears it and shows the reader's message; otherwise
        the card holds the file's name and the questions of its first sheet. */
    method HandleFile(file: Option<SelectedFile>)
      requires Valid()
      modifies this
      ensures Valid()
      ensures file.None? ==> error == None && fileName == None && questions == []
      ensures file.Some? && !EndsWith(Lower(file.value.name), ".xlsx") ==>
                error == Some(NotXlsxMessage) && fileName == None && questions == []
      ensures file.Some? && EndsWith(Lower(file.value.name), ".xlsx") && file.value.sheet.Err? ==>
                error == Some(file.value.sheet.error.message) && fileName == None && questions == []
      ensures file.Some? && EndsWith(Lower(file.value.name), ".xlsx") && file.value.sheet.Ok? ==>
                error == None && fileName == Some(file.value.name)
                && Extracted(ColumnTexts(file.value.sheet.value), questions)
    {
      error := None;
      if file.None? {
        fileName := None;
        questions := [];
        return;
      }
      var f := file.value;
      if !EndsWith(Lower(f.name), ".xlsx") {
        error := Some(NotXlsxMessage);
        fileName := None;
        questions := [];
        return;
      }
      if f.sheet.Err? {
        error := Some(f.sheet.error.message);
        fileName := None;
        questions := [];
        return;
      }
      var qs := ParseRows(f.sheet.value);
      ExtractedTrimmed(f.sheet.value, qs);
      fileName := Some(f.name);
      questions := qs;
    }

    /** `handleCreateProject`: without a session token (or with an empty one) or with no
        questions nothing is sent; otherwise the questions are sent under the file's
        name, and a success clears the card while a failure shows its message. */
    method HandleCreateProject(token: Option<string>, create: Projects.CreateProjectRequest -> Result<()>)
      returns (sent: Option<Projects.CreateProjectRequest>)
      requires Valid()
      modifies this
      ensures Valid()
      ensures token.None? || token.value == [] || old(questions) == [] ==>
                sent == None && fileName == old(fileName) && questions == old(questions) && error == old(error)
      ensures token.Some? && token.value != [] && old(questions) != [] ==>
                && sent == Some(RequestOf(old(fileName), old(questions)))
                && (create(sent.value).Ok? ==> fileName == None && questions == [] && error == None)
                && (create(sent.value).Err? ==>
                      fileName == old(fileName) && questions == old(questions)
                      && error == Some(create(sent.value).error.message))
      ensures sent.Some? ==> sent.value.questions != []
    {
      if token.None? || token.value == [] || questions == [] {
        return None;
      }
      error := None;
      var request := RequestOf(fileName, questions);
      sent := Some(request);
      var response := create(request);
      if response.Ok? {
        fileName := None;
        questions := [];
      } else {
        error := Some(response.error.message);
      }
    }
  }

  /** The server keeps every question the card sends, unchanged and in order: each has
      a positive row number and trimmed, non-blank text. */
  lemma ServerKeepsEveryQuestion(fileName: Option<string>, qs: seq<ParsedQuestion>)
    requires forall k :: 0 <= k < |qs| ==> Sendable(qs[k])
    ensures var items := Projects.NormalizeQuestions(RequestOf(fileName, qs).questions);
            && |items| == |qs|
            && forall k :: 0 <= k < |qs| ==> items[k] == Projects.NewQuestion(qs[k].rowIndex, qs[k].questionText)
  {
    var xs := RequestOf(fileName, qs).questions;
    forall k | 0 <= k < |xs|
      ensures Projects.Keeps(xs[k])
      ensures Projects.Normalized(xs[k]) == Projects.NewQuestion(qs[k].rowIndex, qs[k].questionText)
    {
      KeepsSentQuestion(xs[k], qs[k]);
    }
    Projects.NormalizeAllKept(xs);
  }

  /** A question the card sends passes the server's filter unchanged. */
  lemma KeepsSentQuestion(x: Projects.QuestionInput, q: ParsedQuestion)
    requires x == Projects.QuestionInput(Projects.Finite(q.rowIndex), Some(q.questionText))
    requires Sendable(q)
    ensures Projects.Keeps(x) && Projects.Normalized(x) == Projects.NewQuestion(q.rowIndex, q.questionText)
  {
  }
}
