/** The quiz engine of the quiz route: a student starts an attempt on one
    module (subtopic) of a class, then submits answers, which are scored and
    folded into the module's progress. */
module Quiz {
  import opened Types
  import opened Data

  /** One submitted answer; `selectedOptionId` is absent when the question
      was left unanswered. */
  datatype Answer = Answer(questionId: string, selectedOptionId: Option<string>)

  /** An option as a student sees it while taking the quiz: it has no
      `isCorrect`, so a started quiz cannot reveal the answer key. */
  datatype PublicOption = PublicOption(id: string, text: string)

  datatype PublicQuestion = PublicQuestion(question: Question, options: seq<PublicOption>)

  /** The body of a successful start. */
  datatype Started = Started(attemptId: string, questions: seq<PublicQuestion>)

  /** A question with its full options, answer key included, for review. */
  datatype ReviewQuestion = ReviewQuestion(question: Question, options: seq<OptionRow>)

  /** The body of a successful submission. */
  datatype Submitted = Submitted(
    score: real, correct: nat, total: nat,
    questions: seq<ReviewQuestion>, answers: seq<AnswerRecord>)

  // ---------------------------------------------------------------------
  // Starting an attempt
  // ---------------------------------------------------------------------

  /** The options of a question restricted to `id` and `text`. */
  function PublicOptions(options: seq<OptionRow>): (r: seq<PublicOption>)
    ensures |r| == |options|
    ensures forall i :: 0 <= i < |r| ==> r[i] == PublicOption(options[i].id, options[i].text)
  {
    seq(|options|, i requires 0 <= i < |options| => PublicOption(options[i].id, options[i].text))
  }

  /** Each question with its options stripped of the answer key, in the
      order of `questions`. */
  function PublicQuestions(questions: seq<Question>, options: seq<OptionRow>): (r: seq<PublicQuestion>)
    ensures |r| == |questions|
    ensures forall i :: 0 <= i < |r| ==>
      r[i].question == questions[i] && r[i].options == PublicOptions(OptionsOf(options, questions[i].id))
  {
    seq(|questions|, i requires 0 <= i < |questions| =>
      PublicQuestion(questions[i], PublicOptions(OptionsOf(options, questions[i].id))))
  }

  /** A class-topic row exists for (class, topic) and is published. */
  predicate IsPublished(classTopics: map<(string, string), bool>, classId: string, topicId: string)
  {
    (classId, topicId) in classTopics && classTopics[(classId, topicId)]
  }

  /** What a start goes on with once every guard has passed. */
  datatype StartPlan = StartPlan(studentId: string, questions: seq<Question>)

  /** The guard chain of a start, in the order the route checks it: the
      session's role, the student row, the body fields, the enrolment, the
      subtopic, its topic's publication for the class, and the presence of
      questions. */
  function StartCheck(db: Store, session: Option<Session>, classId: string, subtopicId: string): (r: Check<StartPlan>)
    reads db
    ensures !HasRole(session, Student) ==> r == Reject(401, "Unauthorized")
    ensures r.Pass? <==>
      && HasRole(session, Student)
      && UserId(session) in db.students
      && classId != "" && subtopicId != ""
      && (classId, db.students[UserId(session)]) in db.enrollments
      && subtopicId in db.subtopics
      && IsPublished(db.classTopics, classId, db.subtopics[subtopicId])
      && QuestionsOf(db.questions, subtopicId) != []
    ensures r.Pass? ==>
      && r.value.studentId == db.students[UserId(session)]
      && r.value.questions == QuestionsOf(db.questions, subtopicId)
    ensures r.Reject? ==> r.status in {400, 401, 403, 404}
    ensures HasRole(session, Student) && UserId(session) !in db.students ==>
      r == Reject(404, "Student not found")
    ensures HasRole(session, Student) && UserId(session) in db.students ==>
      var studentId := db.students[UserId(session)];
      && (classId == "" || subtopicId == "" ==> r == Reject(400, "classId and subtopicId required"))
      && (classId != "" && subtopicId != "" ==>
        && ((classId, studentId) !in db.enrollments ==> r == Reject(403, "Not enrolled in this class"))
        && ((classId, studentId) in db.enrollments ==>
          && (subtopicId !in db.subtopics ==> r == Reject(404, "Subtopic not found"))
          && (subtopicId in db.subtopics && !IsPublished(db.classTopics, classId, db.subtopics[subtopicId]) ==>
                r == Reject(403, "This module is not yet available."))
          && (subtopicId in db.subtopics && IsPublished(db.classTopics, classId, db.subtopics[subtopicId])
              && QuestionsOf(db.questions, subtopicId) == [] ==>
                r == Reject(404, "No questions available for this module."))))
  {
    if !HasRole(session, Student) then Reject(401, "Unauthorized")
    else if UserId(session) !in db.students then Reject(404, "Student not found")
    else if classId == "" || subtopicId == "" then Reject(400, "classId and subtopicId required")
    else
      var studentId := db.students[UserId(session)];
      if (classId, studentId) !in db.enrollments then Reject(403, "Not enrolled in this class")
      else if subtopicId !in db.subtopics then Reject(404, "Subtopic not found")
      else if !IsPublished(db.classTopics, classId, db.subtopics[subtopicId]) then
        Reject(403, "This module is not yet available.")
      else
        var questions := QuestionsOf(db.questions, subtopicId);
        if questions == [] then Reject(404, "No questions available for this module.")
        else Pass(StartPlan(studentId, questions))
  }

  /** The progress `upsert` of a start: the status becomes IN_PROGRESS
      whatever it was, COMPLETED included, and a best score is kept. */
  function StartProgress(existing: Option<Progress>): (p: Progress)
    ensures p.status == InProgress
    ensures existing.Some? ==> p.bestScore == existing.value.bestScore
    ensures existing.None? ==> p.bestScore.None?
  {
    match existing
    case None => Progress(InProgress, None)
    case Some(e) => e.(status := InProgress)
  }

  /** POST /api/quiz. `newAttemptId` is the id the store generates for the
      new attempt. A rejected start writes nothing; an accepted one adds one
      unscored attempt, sets the module's progress to IN_PROGRESS and returns
      the subtopic's questions, oldest first, without their answer key. */
  method Start(db: Store, session: Option<Session>, classId: string, subtopicId: string, newAttemptId: string)
    returns (r: Reply<Started>)
    requires db.Valid()
    requires newAttemptId !in db.attempts
    modifies db`attempts, db`progress
    ensures db.Valid()
    ensures var c := old(StartCheck(db, session, classId, subtopicId));
      c.Reject? ==> r == Fail(c.status, c.error) && unchanged(db)
    ensures var c := old(StartCheck(db, session, classId, subtopicId));
      c.Pass? ==>
        var key := ProgressKey(c.value.studentId, classId, subtopicId);
        && r == Ok(200, Started(newAttemptId, PublicQuestions(c.value.questions, db.options)))
        && db.attempts == old(db.attempts)[newAttemptId := Attempt(c.value.studentId, classId, subtopicId, None, None)]
        && db.progress == old(db.progress)[key := StartProgress(Lookup(old(db.progress), key))]
  {
    if !HasRole(session, Student) {
      return Fail(401, "Unauthorized");
    }
    var userId := UserId(session);
    if userId !in db.students {
      return Fail(404, "Student not found");
    }
    var studentId := db.students[userId];
    if classId == "" || subtopicId == "" {
      return Fail(400, "classId and subtopicId required");
    }
    if (classId, studentId) !in db.enrollments {
      return Fail(403, "Not enrolled in this class");
    }
    if subtopicId !in db.subtopics {
      return Fail(404, "Subtopic not found");
    }
    if !IsPublished(db.classTopics, classId, db.subtopics[subtopicId]) {
      return Fail(403, "This module is not yet available.");
    }
    var questions := QuestionsOf(db.questions, subtopicId);
    if |questions| == 0 {
      return Fail(404, "No questions available for this module.");
    }
    db.attempts := db.attempts[newAttemptId := Attempt(studentId, classId, subtopicId, None, None)];
    var key := ProgressKey(studentId, classId, subtopicId);
    db.progress := db.progress[key := StartProgress(Lookup(db.progress, key))];
    r := Ok(200, Started(newAttemptId, PublicQuestions(questions, db.options)));
  }

  // ---------------------------------------------------------------------
  // Submitting an attempt
  // ---------------------------------------------------------------------

  /** What a submission goes on with once every guard has passed. */
  datatype SubmitPlan = SubmitPlan(attempt: Attempt, answers: seq<Answer>)

  /** The guard chain of a submission: the session's role, the student row,
      the body fields, and an attempt that exists and belongs to the student.
      Whether the attempt was already completed plays no part. */
  function SubmitCheck(db: Store, session: Option<Session>, attemptId: string, answers: Option<seq<Answer>>): (r: Check<SubmitPlan>)
    reads db
    ensures !HasRole(session, Student) ==> r == Reject(401, "Unauthorized")
    ensures r.Pass? <==>
      && HasRole(session, Student)
      && UserId(session) in db.students
      && attemptId != "" && answers.Some?
      && attemptId in db.attempts
      && db.attempts[attemptId].studentId == db.students[UserId(session)]
    ensures r.Pass? ==> r.value.attempt == db.attempts[attemptId] && r.value.answers == answers.value
    ensures r.Reject? ==> r.status in {400, 401, 404}
    ensures HasRole(session, Student) && UserId(session) !in db.students ==>
      r == Reject(404, "Student not found")
    ensures HasRole(session, Student) && UserId(session) in db.students ==>
      && (attemptId == "" || answers.None? ==> r == Reject(400, "attemptId and answers required"))
      && (attemptId != "" && answers.Some?
          && (attemptId !in db.attempts || db.attempts[attemptId].studentId != db.students[UserId(session)]) ==>
            r == Reject(404, "Attempt not found"))
  {
    if !HasRole(session, Student) then Reject(401, "Unauthorized")
    else if UserId(session) !in db.students then Reject(404, "Student not found")
    else if attemptId == "" || answers.None? then Reject(400, "attemptId and answers required")
    else if attemptId !in db.attempts || db.attempts[attemptId].studentId != db.students[UserId(session)] then
      Reject(404, "Attempt not found")
    else Pass(SubmitPlan(db.attempts[attemptId], answers.value))
  }

  /** Whether an answer is marked correct: it names an option (a non-empty
      id) and the option with that id exists and is correct; when option ids
      are distinct, naming an existing correct option is also enough. The
      option is looked up by id alone, whichever question it belongs to. */
  function AnswerIsCorrect(options: seq<OptionRow>, a: Answer): (b: bool)
    ensures a.selectedOptionId.None? || a.selectedOptionId.value == "" ==> !b
    ensures b ==> exists o :: o in options && o.id == a.selectedOptionId.value && o.isCorrect
    ensures a.selectedOptionId.Some? && (forall o :: o in options ==> o.id != a.selectedOptionId.value) ==> !b
    ensures DistinctBy(options, OptionKey) ==>
      (b <==> a.selectedOptionId.Some? && a.selectedOptionId.value != ""
              && exists o :: o in options && o.id == a.selectedOptionId.value && o.isCorrect)
  {
    if a.selectedOptionId.Some? && a.selectedOptionId.value != "" then
      var option := FindOption(options, a.selectedOptionId.value);
      option.Some? && option.value.isCorrect
    else false
  }

  /** The answer record stored for one submitted answer. */
  function RecordFor(options: seq<OptionRow>, attemptId: string, a: Answer): (rec: AnswerRecord)
  {
    AnswerRecord(attemptId, a.questionId, a.selectedOptionId, AnswerIsCorrect(options, a))
  }

  /** One record per submitted answer, in the order of the answers. */
  function Records(options: seq<OptionRow>, attemptId: string, answers: seq<Answer>): (rs: seq<AnswerRecord>)
    ensures |rs| == |answers|
    ensures forall i :: 0 <= i < |rs| ==>
      && rs[i].quizAttemptId == attemptId
      && rs[i].questionId == answers[i].questionId
      && rs[i].selectedOptionId == answers[i].selectedOptionId
      && rs[i].isCorrect == AnswerIsCorrect(options, answers[i])
  {
    seq(|answers|, i requires 0 <= i < |answers| => RecordFor(options, attemptId, answers[i]))
  }

  /** The number of records marked correct. */
  function CountCorrect(rs: seq<AnswerRecord>): (n: nat)
    ensures n <= |rs|
    ensures n == |rs| <==> forall i :: 0 <= i < |rs| ==> rs[i].isCorrect
    ensures n == 0 <==> forall i :: 0 <= i < |rs| ==> !rs[i].isCorrect
  {
    if rs == [] then 0
    else CountCorrect(rs[..|rs| - 1]) + (if rs[|rs| - 1].isCorrect then 1 else 0)
  }

  /** The scoring loop of a submission: counts the correct answers and
      builds one answer record per answer, in order. */
  method Grade(options: seq<OptionRow>, attemptId: string, answers: seq<Answer>)
    returns (correct: nat, records: seq<AnswerRecord>)
    ensures records == Records(options, attemptId, answers)
    ensures correct == CountCorrect(records)
    ensures correct <= |answers|
  {
    correct := 0;
    records := [];
    for i := 0 to |answers|
      invariant |records| == i
      invariant forall k :: 0 <= k < i ==> records[k] == RecordFor(options, attemptId, answers[k])
      invariant correct == CountCorrect(records)
    {
      var ans := answers[i];
      var option: Option<OptionRow> := None;
      if ans.selectedOptionId.Some? && ans.selectedOptionId.value != "" {
        option := FindOption(options, ans.selectedOptionId.value);
      }
      var isCorrect := option.Some? && option.value.isCorrect;
      if isCorrect {
        correct := correct + 1;
      }
      records := records + [AnswerRecord(attemptId, ans.questionId, ans.selectedOptionId, isCorrect)];
      assert records[..|records| - 1] == records[..i];
    }
  }

  /** The score of a submission: the percentage of correct answers, and 0
      when no answer was submitted. */
  function Score(correct: nat, total: nat): (s: real)
    ensures correct <= total ==> 0.0 <= s <= 100.0
    ensures total == 0 ==> s == 0.0
    ensures total > 0 ==> s * (total as real) == (correct as real) * 100.0
  {
    if total > 0 then (correct as real) / (total as real) * 100.0 else 0.0
  }

  function Max(a: real, b: real): real
  {
    if a >= b then a else b
  }

  /** The progress `upsert` of a submission: the status becomes COMPLETED and
      the best score is the larger of the new score and the old best (0 when
      the row has none); a new row takes the score itself. */
  function SubmitProgress(existing: Option<Progress>, score: real): (p: Progress)
    ensures p.status == Completed && p.bestScore.Some?
    ensures score <= p.bestScore.value
    ensures existing.Some? && existing.value.bestScore.Some? ==>
      existing.value.bestScore.value <= p.bestScore.value
    ensures 0.0 <= score ==>
      p.bestScore.value == score || (existing.Some? && existing.value.bestScore == p.bestScore)
  {
    match existing
    case None => Progress(Completed, Some(score))
    case Some(e) => Progress(Completed, Some(Max(score, if e.bestScore.Some? then e.bestScore.value else 0.0)))
  }

  /** The questions answered, each with its full options, for review: every
      question some answer names, once, and no other. */
  function ReviewQuestions(questions: seq<Question>, options: seq<OptionRow>, answers: seq<Answer>): (r: seq<ReviewQuestion>)
    ensures forall i :: 0 <= i < |r| ==>
      r[i].question in questions
      && (exists a :: a in answers && a.questionId == r[i].question.id)
      && r[i].options == OptionsOf(options, r[i].question.id)
    ensures forall q, a :: q in questions && a in answers && a.questionId == q.id ==>
      exists i :: 0 <= i < |r| && r[i].question == q
    ensures DistinctBy(questions, QuestionKey) ==>
      forall i, j :: 0 <= i < j < |r| ==> r[i].question.id != r[j].question.id
  {
    var ids := set a | a in answers :: a.questionId;
    var p := (q: Question) => q.id in ids;
    var answered := Filter(questions, p);
    var r := seq(|answered|, i requires 0 <= i < |answered| =>
      ReviewQuestion(answered[i], OptionsOf(options, answered[i].id)));
    assert forall i :: 0 <= i < |r| ==> r[i].question == answered[i];
    assert forall j :: 0 <= j < |questions| && questions[j].id in ids ==> questions[j] in answered;
    if DistinctBy(questions, QuestionKey) then
      FilterDistinct(questions, p, QuestionKey);
      r
    else r
  }

  /** PATCH /api/quiz. `now` is the completion time. A rejected submission
      writes nothing; an accepted one appends one answer record per answer,
      stores the score and completion time on the attempt, and marks the
      module COMPLETED with a best score that never goes down. */
  method Submit(db: Store, session: Option<Session>, attemptId: string, answers: Option<seq<Answer>>, now: int)
    returns (r: Reply<Submitted>)
    requires db.Valid()
    modifies db`answers, db`attempts, db`progress
    ensures db.Valid()
    ensures var c := old(SubmitCheck(db, session, attemptId, answers));
      c.Reject? ==> r == Fail(c.status, c.error) && unchanged(db)
    ensures var c := old(SubmitCheck(db, session, attemptId, answers));
      c.Pass? ==>
        var a := c.value.attempt;
        var records := Records(db.options, attemptId, c.value.answers);
        var correct := CountCorrect(records);
        var score := Score(correct, |c.value.answers|);
        var key := ProgressKey(a.studentId, a.classId, a.subtopicId);
        && db.answers == old(db.answers) + records
        && db.attempts == old(db.attempts)[attemptId := a.(score := Some(score), completedAt := Some(now))]
        && db.progress == old(db.progress)[key := SubmitProgress(Lookup(old(db.progress), key), score)]
        && r == Ok(200, Submitted(score, correct, |c.value.answers|,
                                  ReviewQuestions(db.questions, db.options, c.value.answers), records))
    ensures forall k :: k in old(db.progress) && old(db.progress)[k].bestScore.Some? ==>
      k in db.progress && db.progress[k].bestScore.Some?
      && old(db.progress)[k].bestScore.value <= db.progress[k].bestScore.value
  {
    if !HasRole(session, Student) {
      return Fail(401, "Unauthorized");
    }
    var userId := UserId(session);
    if userId !in db.students {
      return Fail(404, "Student not found");
    }
    var studentId := db.students[userId];
    if attemptId == "" || answers.None? {
      return Fail(400, "attemptId and answers required");
    }
    if attemptId !in db.attempts || db.attempts[attemptId].studentId != studentId {
      return Fail(404, "Attempt not found");
    }
    var given := answers.value;

    var correct, records := Grade(db.options, attemptId, given);
    var score := Score(correct, |given|);
    Finalise(db, attemptId, records, score, now);
    r := Ok(200, Submitted(score, correct, |given|, ReviewQuestions(db.questions, db.options, given), records));
  }

  /** The writes of an accepted submission: the answer records are appended,
      the attempt gets its score and completion time, and its module's
      progress is upserted, all keeping the store's constraints. */
  method Finalise(db: Store, attemptId: string, records: seq<AnswerRecord>, score: real, now: int)
    requires db.Valid()
    requires attemptId in db.attempts
    modifies db`answers, db`attempts, db`progress
    ensures db.Valid()
    ensures var a := old(db.attempts[attemptId]);
      var key := ProgressKey(a.studentId, a.classId, a.subtopicId);
      && db.answers == old(db.answers) + records
      && db.attempts == old(db.attempts)[attemptId := a.(score := Some(score), completedAt := Some(now))]
      && db.progress == old(db.progress)[key := SubmitProgress(Lookup(old(db.progress), key), score)]
  {
    var attempt := db.attempts[attemptId];
    db.answers := db.answers + records;
    ghost var before := db.attempts;
    db.attempts := db.attempts[attemptId := attempt.(score := Some(score), completedAt := Some(now))];
    var key := ProgressKey(attempt.studentId, attempt.classId, attempt.subtopicId);
    db.progress := db.progress[key := SubmitProgress(Lookup(db.progress, key), score)];
    ScoresStayCovered(before, old(db.progress), attemptId, score, now, key);
  }

  /** Finalising one attempt with `score` and raising its module's best score
      as a submission does keeps every scored attempt covered. */
  lemma ScoresStayCovered(attempts: map<string, Attempt>, progress: map<ProgressKey, Progress>,
                          attemptId: string, score: real, now: int, key: ProgressKey)
    requires BestScoresCover(attempts, progress)
    requires attemptId in attempts
    requires key == ProgressKey(attempts[attemptId].studentId, attempts[attemptId].classId, attempts[attemptId].subtopicId)
    ensures BestScoresCover(
      attempts[attemptId := attempts[attemptId].(score := Some(score), completedAt := Some(now))],
      progress[key := SubmitProgress(Lookup(progress, key), score)])
  {
  }

  // ---------------------------------------------------------------------
  // Progress across attempts
  // ---------------------------------------------------------------------

  /** What a student does on one module: start an attempt, or submit one
      that earned `score`. */
  datatype Step = Begin | Finish(score: real)

  /** The module's progress row after `steps`, each applied as the start and
      submit handlers apply it, starting from no row. */
  function Replay(steps: seq<Step>): Option<Progress>
  {
    if steps == [] then None
    else
      var before := Replay(steps[..|steps| - 1]);
      match steps[|steps| - 1]
      case Begin => Some(StartProgress(before))
      case Finish(s) => Some(SubmitProgress(before, s))
  }

  /** The scores of the submissions among `steps`, in order. */
  function ScoresOf(steps: seq<Step>): seq<real>
  {
    if steps == [] then []
    else ScoresOf(steps[..|steps| - 1]) + (if steps[|steps| - 1].Finish? then [steps[|steps| - 1].score] else [])
  }

  function MaxOf(xs: seq<real>): real
    requires xs != []
  {
    if |xs| == 1 then xs[0] else Max(MaxOf(xs[..|xs| - 1]), xs[|xs| - 1])
  }

  /** Over any sequence of starts and submissions on a module, the best
      score is the highest score submitted (none before the first
      submission), and the status is that of the last step: a start after a
      completion puts the module back to IN_PROGRESS. */
  lemma {:induction false} ReplayBestScore(steps: seq<Step>)
    requires forall i :: 0 <= i < |steps| && steps[i].Finish? ==> 0.0 <= steps[i].score
    ensures ScoresOf(steps) == [] ==> Replay(steps).None? || Replay(steps).value.bestScore.None?
    ensures ScoresOf(steps) != [] ==>
      Replay(steps).Some? && Replay(steps).value.bestScore == Some(MaxOf(ScoresOf(steps)))
    ensures steps != [] ==>
      Replay(steps).Some? &&
      Replay(steps).value.status == (if steps[|steps| - 1].Begin? then InProgress else Completed)
  {
    if steps != [] {
      var init := steps[..|steps| - 1];
      ReplayBestScore(init);
      var xs := ScoresOf(init);
      if steps[|steps| - 1].Finish? {
        var ys := ScoresOf(steps);
        assert ys == xs + [steps[|steps| - 1].score];
        if xs != [] {
          assert ys[..|ys| - 1] == xs;
        }
      } else {
        assert ScoresOf(steps) == xs;
      }
    }
  }

  /** An answer to one question that selects the correct option of another
      question is marked correct: the option is looked up by its id alone,
      without checking that it belongs to the answered question. */
  lemma OptionOfAnotherQuestionCounts()
    ensures AnswerIsCorrect([OptionRow("o1", "q1", "4", true)], Answer("q2", Some("o1")))
  {
  }

  /** The worked example of a module: a first submission with one of two
      answers correct scores 50 and completes the module; a retake starts it
      again, and two correct answers raise the best score to 100. */
  lemma RetakeRaisesBestScore()
    ensures Score(1, 2) == 50.0 && Score(2, 2) == 100.0
    ensures Replay([Begin, Finish(50.0)]) == Some(Progress(Completed, Some(50.0)))
    ensures Replay([Begin, Finish(50.0), Begin]) == Some(Progress(InProgress, Some(50.0)))
    ensures Replay([Begin, Finish(50.0), Begin, Finish(100.0)]) == Some(Progress(Completed, Some(100.0)))
  {
    assert [Begin, Finish(50.0), Begin, Finish(100.0)][..3] == [Begin, Finish(50.0), Begin];
    assert [Begin, Finish(50.0), Begin][..2] == [Begin, Finish(50.0)];
    assert [Begin, Finish(50.0)][..1] == [Begin];
    assert [Begin][..0] == [];
  }
}
