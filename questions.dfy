/** The question bank route: listing questions by optional filters, and the
    teacher-only creation, editing and deletion of a question with its
    options. */
module Questions {
  import opened Types
  import opened Text
  import opened Data

  /** An option as a request body gives it. */
  datatype OptionInput = OptionInput(text: string, isCorrect: bool)

  /** A question with its options, as the route returns it. */
  datatype QuestionView = QuestionView(question: Question, options: seq<OptionRow>)

  /** A question's options obey the rule a quiz relies on: at least two
      options, at least one of them correct. */
  predicate WellFormedOptions(options: seq<OptionRow>)
  {
    |options| >= 2 && exists i :: 0 <= i < |options| && options[i].isCorrect
  }

  // ---------------------------------------------------------------------
  // GET: listing
  // ---------------------------------------------------------------------

  /** The `where` record of a listing: one constraint per query parameter
      that was supplied. */
  datatype QuestionFilter = QuestionFilter(
    topicId: Option<string>, subtopicId: Option<string>, difficultyLevel: Option<string>)

  predicate Matches(f: QuestionFilter, q: Question)
  {
    && (f.topicId.Some? ==> q.topicId == f.topicId.value)
    && (f.subtopicId.Some? ==> q.subtopicId == f.subtopicId.value)
    && (f.difficultyLevel.Some? ==> q.difficultyLevel == f.difficultyLevel.value)
  }

  /** Builds the `where` record from the query parameters; an absent or empty
      parameter adds no field. The filter constrains exactly the parameters
      supplied. */
  function BuildFilter(topicId: string, subtopicId: string, difficulty: string): (f: QuestionFilter)
    ensures forall q :: Matches(f, q) <==>
      && (topicId == "" || q.topicId == topicId)
      && (subtopicId == "" || q.subtopicId == subtopicId)
      && (difficulty == "" || q.difficultyLevel == difficulty)
    ensures topicId == "" && subtopicId == "" && difficulty == "" ==> forall q :: Matches(f, q)
  {
    QuestionFilter(
      if topicId != "" then Some(topicId) else None,
      if subtopicId != "" then Some(subtopicId) else None,
      if difficulty != "" then Some(difficulty) else None)
  }

  /** Each question with its options, in the order of `questions`. */
  function Views(questions: seq<Question>, options: seq<OptionRow>): (r: seq<QuestionView>)
    ensures |r| == |questions|
    ensures forall i :: 0 <= i < |r| ==> r[i] == QuestionView(questions[i], OptionsOf(options, questions[i].id))
  {
    seq(|questions|, i requires 0 <= i < |questions| => QuestionView(questions[i], OptionsOf(options, questions[i].id)))
  }

  /** The questions of a listing, in its order. */
  function Listed(views: seq<QuestionView>): (qs: seq<Question>)
    ensures |qs| == |views|
    ensures forall i :: 0 <= i < |views| ==> qs[i] == views[i].question
  {
    seq(|views|, i requires 0 <= i < |views| => views[i].question)
  }

  /** GET /api/questions: any signed-in user; the questions that satisfy
      every supplied parameter, oldest first and each once, with their
      options. */
  function List(db: Store, session: Option<Session>, topicId: string, subtopicId: string, difficulty: string)
    : (r: Reply<seq<QuestionView>>)
    reads db
    ensures r.Fail? <==> !HasUser(session)
    ensures r.Fail? ==> r == Fail(401, "Unauthorized")
    ensures r.Ok? ==> r.status == 200 && |r.body| <= |db.questions|
    ensures r.Ok? ==> forall i :: 0 <= i < |r.body| ==>
      && r.body[i].question in db.questions
      && (topicId == "" || r.body[i].question.topicId == topicId)
      && (subtopicId == "" || r.body[i].question.subtopicId == subtopicId)
      && (difficulty == "" || r.body[i].question.difficultyLevel == difficulty)
      && r.body[i].options == OptionsOf(db.options, r.body[i].question.id)
    ensures r.Ok? ==> forall q :: q in db.questions && Matches(BuildFilter(topicId, subtopicId, difficulty), q) ==>
      exists i :: 0 <= i < |r.body| && r.body[i].question == q
    ensures r.Ok? ==> Subsequence(Listed(r.body), db.questions)
    ensures r.Ok? && DistinctBy(db.questions, QuestionKey) ==> DistinctBy(Listed(r.body), QuestionKey)
  {
    if !HasUser(session) then Fail(401, "Unauthorized")
    else
      var where := BuildFilter(topicId, subtopicId, difficulty);
      var p := (q: Question) => Matches(where, q);
      var selected := Filter(db.questions, p);
      var views := Views(selected, db.options);
      assert Listed(views) == selected;
      if DistinctBy(db.questions, QuestionKey) then
        FilterDistinct(db.questions, p, QuestionKey);
        Ok(200, views)
      else Ok(200, views)
  }

  // ---------------------------------------------------------------------
  // POST: creation
  // ---------------------------------------------------------------------

  /** Some option is marked correct (`options.some(o => o.isCorrect)`). */
  predicate SomeCorrect(options: seq<OptionInput>)
  {
    exists i :: 0 <= i < |options| && options[i].isCorrect
  }

  /** The validation of a new question, in the route's order: a text that is
      not blank, a topic and a subtopic; then at least two options; then at
      least one correct option. */
  function CheckNewQuestion(text: string, topicId: string, subtopicId: string, options: Option<seq<OptionInput>>)
    : (r: Check<()>)
    ensures r.Pass? <==>
      !AllSpace(text) && topicId != "" && subtopicId != ""
      && options.Some? && |options.value| >= 2 && SomeCorrect(options.value)
    ensures AllSpace(text) || topicId == "" || subtopicId == "" ==>
      r == Reject(400, "text, topicId, and subtopicId are required.")
    ensures !AllSpace(text) && topicId != "" && subtopicId != "" && (options.None? || |options.value| < 2) ==>
      r == Reject(400, "At least 2 options are required.")
    ensures !AllSpace(text) && topicId != "" && subtopicId != "" && options.Some? && |options.value| >= 2
            && !SomeCorrect(options.value) ==>
      r == Reject(400, "At least one option must be marked as correct.")
    ensures r.Reject? ==> r.status == 400
  {
    TrimEmptyIffBlank(text);
    if Trim(text) == "" || topicId == "" || subtopicId == "" then
      Reject(400, "text, topicId, and subtopicId are required.")
    else if options.None? || |options.value| < 2 then Reject(400, "At least 2 options are required.")
    else if !SomeCorrect(options.value) then Reject(400, "At least one option must be marked as correct.")
    else Pass(())
  }

  /** The option rows created for `questionId` from `inputs`, with the ids
      the store generates: trimmed text, `isCorrect` as given, in the order
      given. */
  function NewOptionRows(questionId: string, ids: seq<string>, inputs: seq<OptionInput>): (rows: seq<OptionRow>)
    requires |ids| == |inputs|
    ensures |rows| == |inputs|
    ensures forall i :: 0 <= i < |rows| ==>
      rows[i] == OptionRow(ids[i], questionId, Trim(inputs[i].text), inputs[i].isCorrect)
  {
    seq(|inputs|, i requires 0 <= i < |inputs| =>
      OptionRow(ids[i], questionId, Trim(inputs[i].text), inputs[i].isCorrect))
  }

  /** Options that pass the creation checks make a well-formed option set,
      and every row belongs to the new question. */
  lemma CreatedOptionsWellFormed(text: string, topicId: string, subtopicId: string,
                                 inputs: seq<OptionInput>, questionId: string, ids: seq<string>)
    requires |ids| == |inputs|
    requires CheckNewQuestion(text, topicId, subtopicId, Some(inputs)).Pass?
    ensures WellFormedOptions(NewOptionRows(questionId, ids, inputs))
    ensures OptionsOf(NewOptionRows(questionId, ids, inputs), questionId) == NewOptionRows(questionId, ids, inputs)
  {
    var rows := NewOptionRows(questionId, ids, inputs);
    var k :| 0 <= k < |inputs| && inputs[k].isCorrect;
    assert rows[k].isCorrect;
    FilterAll(rows, (o: OptionRow) => o.questionId == questionId);
  }

  /** Ids the store may give to new option rows: distinct, and unused. */
  predicate FreshOptionIds(options: seq<OptionRow>, ids: seq<string>)
  {
    && (forall i, j :: 0 <= i < j < |ids| ==> ids[i] != ids[j])
    && (forall i, j :: 0 <= i < |options| && 0 <= j < |ids| ==> options[i].id != ids[j])
  }

  /** The new rows keep the option ids of the table distinct. */
  lemma NewRowsKeepIdsDistinct(options: seq<OptionRow>, questionId: string, ids: seq<string>, inputs: seq<OptionInput>)
    requires |ids| == |inputs|
    requires DistinctBy(options, OptionKey)
    requires FreshOptionIds(options, ids)
    ensures DistinctBy(options + NewOptionRows(questionId, ids, inputs), OptionKey)
  {
    AppendDistinct(options, NewOptionRows(questionId, ids, inputs), OptionKey);
  }

  /** POST /api/questions. `newId` and `newOptionIds` are the ids the store
      generates. Only a teacher may create; the creation checks come next;
      an accepted question is appended with its trimmed text, its difficulty
      (BEGINNER when none is given), its author's teacher row (when there is
      one) and its options. */
  method Create(db: Store, session: Option<Session>, text: string, topicId: string, subtopicId: string,
                difficultyLevel: string, options: Option<seq<OptionInput>>,
                newId: string, newOptionIds: seq<string>)
    returns (r: Reply<QuestionView>)
    requires db.Valid()
    requires forall i :: 0 <= i < |db.questions| ==> db.questions[i].id != newId
    requires options.Some? ==> |newOptionIds| == |options.value| && FreshOptionIds(db.options, newOptionIds)
    modifies db`questions, db`options
    ensures db.Valid()
    ensures !HasRole(session, Teacher) ==> r == Fail(401, "Unauthorized") && unchanged(db)
    ensures var c := CheckNewQuestion(text, topicId, subtopicId, options);
      HasRole(session, Teacher) && c.Reject? ==> r == Fail(c.status, c.error) && unchanged(db)
    ensures HasRole(session, Teacher) && CheckNewQuestion(text, topicId, subtopicId, options).Pass? ==>
      var q := Question(newId, Trim(text), topicId, subtopicId,
                        if difficultyLevel == "" then Beginner else difficultyLevel,
                        Lookup(old(db.teachers), UserId(session)));
      var rows := NewOptionRows(newId, newOptionIds, options.value);
      && WellFormedOptions(rows)
      && db.questions == old(db.questions) + [q]
      && db.options == old(db.options) + rows
      && r == Ok(201, QuestionView(q, rows))
  {
    if !HasRole(session, Teacher) {
      return Fail(401, "Unauthorized");
    }
    var teacher := Lookup(db.teachers, UserId(session));
    TrimEmptyIffBlank(text);
    if Trim(text) == "" || topicId == "" || subtopicId == "" {
      return Fail(400, "text, topicId, and subtopicId are required.");
    }
    if options.None? || |options.value| < 2 {
      return Fail(400, "At least 2 options are required.");
    }
    if !SomeCorrect(options.value) {
      return Fail(400, "At least one option must be marked as correct.");
    }
    var q := Question(newId, Trim(text), topicId, subtopicId,
                      if difficultyLevel == "" then Beginner else difficultyLevel,
                      if teacher.Some? then Some(teacher.value) else None);
    var rows := NewOptionRows(newId, newOptionIds, options.value);
    CreatedOptionsWellFormed(text, topicId, subtopicId, options.value, newId, newOptionIds);
    NewRowsKeepIdsDistinct(db.options, newId, newOptionIds, options.value);
    AppendDistinct(db.questions, [q], QuestionKey);
    Rewrite(db, db.questions + [q], db.options + rows);
    r := Ok(201, QuestionView(q, rows));
  }

  /** The writes of the question bank: the question and option tables are
      replaced, and only they, keeping the store's constraints when the new
      tables keep their ids distinct. */
  method Rewrite(db: Store, questions: seq<Question>, options: seq<OptionRow>)
    requires db.Valid()
    requires DistinctBy(questions, QuestionKey) && DistinctBy(options, OptionKey)
    modifies db`questions, db`options
    ensures db.Valid()
    ensures db.questions == questions && db.options == options
  {
    db.questions := questions;
    db.options := options;
  }

  // ---------------------------------------------------------------------
  // PATCH: editing
  // ---------------------------------------------------------------------

  /** The position of the question with id `id`, if any. */
  function IndexOf(questions: seq<Question>, id: string): (r: Option<nat>)
    ensures r.Some? ==> r.value < |questions| && questions[r.value].id == id
    ensures r.None? ==> forall i :: 0 <= i < |questions| ==> questions[i].id != id
  {
    if questions == [] then None
    else if questions[0].id == id then Some(0)
    else
      var k := IndexOf(questions[1..], id);
      if k.Some? then Some(k.value + 1) else None
  }

  /** The question's fields after an edit: a supplied text is trimmed and
      stored, a supplied difficulty is stored, absent ones are kept. */
  function Edited(q: Question, text: Option<string>, difficultyLevel: Option<string>): (e: Question)
    ensures e.id == q.id && e.topicId == q.topicId && e.subtopicId == q.subtopicId && e.createdById == q.createdById
    ensures e.text == (if text.Some? then Trim(text.value) else q.text)
    ensures e.difficultyLevel == (if difficultyLevel.Some? then difficultyLevel.value else q.difficultyLevel)
  {
    q.(text := if text.Some? then Trim(text.value) else q.text,
       difficultyLevel := if difficultyLevel.Some? then difficultyLevel.value else q.difficultyLevel)
  }

  /** Replacing the options of `id` with `rows` (all of `id`) leaves `id`
      with exactly `rows` and every other question with its own options. */
  lemma ReplaceOptions(options: seq<OptionRow>, id: string, rows: seq<OptionRow>)
    requires forall i :: 0 <= i < |rows| ==> rows[i].questionId == id
    ensures OptionsOf(OptionsNotOf(options, id) + rows, id) == rows
    ensures forall other :: other != id ==>
      OptionsOf(OptionsNotOf(options, id) + rows, other) == OptionsOf(options, other)
  {
    var kept := OptionsNotOf(options, id);
    FilterConcat(kept, rows, (o: OptionRow) => o.questionId == id);
    FilterNone(kept, (o: OptionRow) => o.questionId == id);
    FilterAll(rows, (o: OptionRow) => o.questionId == id);
    forall other | other != id
      ensures OptionsOf(kept + rows, other) == OptionsOf(options, other)
    {
      FilterConcat(kept, rows, (o: OptionRow) => o.questionId == other);
      FilterNone(rows, (o: OptionRow) => o.questionId == other);
      FilterFilter(options, (o: OptionRow) => o.questionId == other, (o: OptionRow) => o.questionId != id,
                   (o: OptionRow) => o.questionId == other);
    }
  }

  /** PATCH /api/questions. Only a teacher may edit; a missing id is a bad
      request; an id with no question makes the store's update throw, which
      surfaces as a server error. Otherwise the text and difficulty are
      updated, and a supplied option list replaces the question's options
      wholesale, without the creation checks: after the edit the question
      has exactly the supplied options, whatever their number or
      correctness. Other questions keep their options. */
  method Update(db: Store, session: Option<Session>, id: string, text: Option<string>,
                difficultyLevel: Option<string>, options: Option<seq<OptionInput>>, newOptionIds: seq<string>)
    returns (r: Reply<QuestionView>)
    requires db.Valid()
    requires options.Some? ==> |newOptionIds| == |options.value| && FreshOptionIds(db.options, newOptionIds)
    modifies db`questions, db`options
    ensures db.Valid()
    ensures !HasRole(session, Teacher) ==> r == Fail(401, "Unauthorized") && unchanged(db)
    ensures HasRole(session, Teacher) && id == "" ==> r == Fail(400, "Question id required.") && unchanged(db)
    ensures HasRole(session, Teacher) && id != "" && IndexOf(old(db.questions), id).None? ==>
      r == Fail(500, "Internal Server Error") && unchanged(db)
    ensures HasRole(session, Teacher) && id != "" && IndexOf(old(db.questions), id).Some? ==>
      var k := IndexOf(old(db.questions), id).value;
      var q := Edited(old(db.questions)[k], text, difficultyLevel);
      && db.questions == old(db.questions)[k := q]
      && OptionsOf(db.options, id) ==
           (if options.Some? then NewOptionRows(id, newOptionIds, options.value) else OptionsOf(old(db.options), id))
      && (forall other :: other != id ==> OptionsOf(db.options, other) == OptionsOf(old(db.options), other))
      && r == Ok(200, QuestionView(q, OptionsOf(db.options, id)))
  {
    if !HasRole(session, Teacher) {
      return Fail(401, "Unauthorized");
    }
    if id == "" {
      return Fail(400, "Question id required.");
    }
    var k := IndexOf(db.questions, id);
    if k.None? {
      return Fail(500, "Internal Server Error");
    }
    var q := Edited(db.questions[k.value], text, difficultyLevel);
    assert forall i :: 0 <= i < |db.questions| ==> db.questions[k.value := q][i].id == db.questions[i].id;
    var newOptions := db.options;
    if options.Some? {
      var rows := NewOptionRows(id, newOptionIds, options.value);
      var kept := OptionsNotOf(db.options, id);
      ReplaceOptions(db.options, id, rows);
      FilterDistinct(db.options, (o: OptionRow) => o.questionId != id, OptionKey);
      AppendDistinct(kept, rows, OptionKey);
      newOptions := kept + rows;
    }
    Rewrite(db, db.questions[k.value := q], newOptions);
    r := Ok(200, QuestionView(q, OptionsOf(db.options, id)));
  }

  /** The creation checks are not applied on edit: an edit may leave a
      question with a single option, none of them correct, which creation
      would have refused. */
  lemma EditSkipsOptionRules()
    ensures var inputs := [OptionInput("Only", false)];
      && CheckNewQuestion("Q", "t", "s", Some(inputs)).Reject?
      && !WellFormedOptions(NewOptionRows("q", ["o"], inputs))
  {
  }

  // ---------------------------------------------------------------------
  // DELETE
  // ---------------------------------------------------------------------

  /** The question table without the question `id`. */
  function QuestionsNotWithId(questions: seq<Question>, id: string): (r: seq<Question>)
    ensures forall q :: q in r <==> q in questions && q.id != id
    ensures Subsequence(r, questions)
    ensures DistinctBy(questions, QuestionKey) ==> DistinctBy(r, QuestionKey)
  {
    var p := (q: Question) => q.id != id;
    if DistinctBy(questions, QuestionKey) then FilterDistinct(questions, p, QuestionKey); Filter(questions, p)
    else Filter(questions, p)
  }

  /** DELETE /api/questions. Only a teacher may delete; an id with no
      question makes the store's delete throw, which surfaces as a server
      error; otherwise the question and, by cascade, its options are
      removed. */
  method Delete(db: Store, session: Option<Session>, id: string) returns (r: Reply<bool>)
    requires db.Valid()
    modifies db`questions, db`options
    ensures db.Valid()
    ensures !HasRole(session, Teacher) ==> r == Fail(401, "Unauthorized") && unchanged(db)
    ensures HasRole(session, Teacher) && IndexOf(old(db.questions), id).None? ==>
      r == Fail(500, "Internal Server Error") && unchanged(db)
    ensures HasRole(session, Teacher) && IndexOf(old(db.questions), id).Some? ==>
      && db.questions == QuestionsNotWithId(old(db.questions), id)
      && db.options == OptionsNotOf(old(db.options), id)
      && r == Ok(200, true)
  {
    if !HasRole(session, Teacher) {
      return Fail(401, "Unauthorized");
    }
    var k := IndexOf(db.questions, id);
    if k.None? {
      return Fail(500, "Internal Server Error");
    }
    FilterDistinct(db.options, (o: OptionRow) => o.questionId != id, OptionKey);
    Rewrite(db, QuestionsNotWithId(db.questions, id), OptionsNotOf(db.options, id));
    r := Ok(200, true);
  }
}
