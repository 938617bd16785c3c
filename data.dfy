/** The relational store the handlers read and write: one row datatype per
    table, and a `Store` object holding every table the core touches.
    Tables whose order the handlers depend on (questions, options, answers)
    are sequences in creation order, which is the order of their `createdAt`
    column. */
module Data {
  import opened Types

  datatype User = User(
    email: string, username: string, hashedPassword: string,
    firstName: string, lastName: string, role: Role)

  datatype ClassRow = ClassRow(name: string, teacherId: string)

  datatype Question = Question(
    id: string, text: string, topicId: string, subtopicId: string,
    difficultyLevel: string, createdById: Option<string>)

  datatype OptionRow = OptionRow(id: string, questionId: string, text: string, isCorrect: bool)

  /** An attempt is in progress while `score` and `completedAt` are unset. */
  datatype Attempt = Attempt(
    studentId: string, classId: string, subtopicId: string,
    score: Option<real>, completedAt: Option<int>)

  datatype AnswerRecord = AnswerRecord(
    quizAttemptId: string, questionId: string, selectedOptionId: Option<string>, isCorrect: bool)

  /** Module progress is unique per (student, class, subtopic). */
  datatype ProgressKey = ProgressKey(studentId: string, classId: string, subtopicId: string)

  datatype Progress = Progress(status: ProgressStatus, bestScore: Option<real>)

  datatype Invitation = Invitation(
    id: string, token: string, classId: string,
    expiresAt: Option<int>, maxUses: Option<int>, usedCount: nat, active: bool)

  /** `r` is `s` with some elements left out, the rest kept in their order. */
  predicate Subsequence<T(==)>(r: seq<T>, s: seq<T>)
    decreases |s|
  {
    if s == [] then r == []
    else (r != [] && r[0] == s[0] && Subsequence(r[1..], s[1..])) || Subsequence(r, s[1..])
  }

  /** The position in `s` that position `i` of a subsequence `r` comes from. */
  lemma {:induction false} SubsequenceSource<T>(r: seq<T>, s: seq<T>, i: nat) returns (m: nat)
    requires Subsequence(r, s) && i < |r|
    ensures i <= m < |s| && r[i] == s[m]
    decreases |s|
  {
    if r != [] && r[0] == s[0] && Subsequence(r[1..], s[1..]) {
      if i == 0 {
        m := 0;
      } else {
        var m' := SubsequenceSource(r[1..], s[1..], i - 1);
        m := m' + 1;
      }
    } else {
      var m' := SubsequenceSource(r, s[1..], i);
      m := m' + 1;
    }
  }

  /** The positions in `s` that positions `i < j` of a subsequence `r` come
      from, in the same order. */
  lemma {:induction false} SubsequenceSources<T>(r: seq<T>, s: seq<T>, i: nat, j: nat) returns (k: nat, l: nat)
    requires Subsequence(r, s) && i < j < |r|
    ensures k < l < |s| && r[i] == s[k] && r[j] == s[l]
    decreases |s|
  {
    if r != [] && r[0] == s[0] && Subsequence(r[1..], s[1..]) {
      if i == 0 {
        var l' := SubsequenceSource(r[1..], s[1..], j - 1);
        k, l := 0, l' + 1;
      } else {
        var k', l' := SubsequenceSources(r[1..], s[1..], i - 1, j - 1);
        k, l := k' + 1, l' + 1;
      }
    } else {
      var k', l' := SubsequenceSources(r, s[1..], i, j);
      k, l := k' + 1, l' + 1;
    }
  }

  /** A subsequence lists its elements in their order in the original: of
      two positions of `r`, the earlier comes from an earlier position of
      `s`. */
  lemma SubsequenceOrder<T>(r: seq<T>, s: seq<T>)
    requires Subsequence(r, s)
    ensures forall i, j :: 0 <= i < j < |r| ==>
      exists k, l :: 0 <= k < l < |s| && r[i] == s[k] && r[j] == s[l]
  {
    forall i, j | 0 <= i < j < |r|
      ensures exists k, l :: 0 <= k < l < |s| && r[i] == s[k] && r[j] == s[l]
    {
      var k, l := SubsequenceSources(r, s, i, j);
    }
  }

  /** A subsequence of a table whose keys are distinct has distinct keys. */
  lemma SubsequenceDistinct<T>(r: seq<T>, s: seq<T>, key: T -> string)
    requires Subsequence(r, s)
    requires DistinctBy(s, key)
    ensures DistinctBy(r, key)
  {
    forall i, j | 0 <= i < j < |r|
      ensures key(r[i]) != key(r[j])
    {
      var k, l := SubsequenceSources(r, s, i, j);
    }
  }

  /** The elements of `s` that satisfy `p`, in their order in `s`: a
      `findMany` with a `where` clause over a table kept in creation order. */
  function Filter<T>(s: seq<T>, p: T -> bool): (r: seq<T>)
    ensures |r| <= |s|
    ensures forall i :: 0 <= i < |r| ==> r[i] in s && p(r[i])
    ensures forall i :: 0 <= i < |s| && p(s[i]) ==> s[i] in r
    ensures Subsequence(r, s)
  {
    if s == [] then [] else
      var rest := Filter(s[1..], p);
      if p(s[0]) then
        assert ([s[0]] + rest)[1..] == rest;
        [s[0]] + rest
      else rest
  }

  /** Filtering keeps order: the part taken from a prefix comes before the
      part taken from what follows it. */
  lemma {:induction false} FilterConcat<T>(a: seq<T>, b: seq<T>, p: T -> bool)
    ensures Filter(a + b, p) == Filter(a, p) + Filter(b, p)
  {
    if a != [] {
      assert (a + b)[0] == a[0];
      assert (a + b)[1..] == a[1..] + b;
      FilterConcat(a[1..], b, p);
    } else {
      assert a + b == b;
    }
  }

  /** Filtering with `p` a table already filtered with `q` keeps the rows
      that satisfy both. */
  lemma {:induction false} FilterFilter<T>(s: seq<T>, p: T -> bool, q: T -> bool, pq: T -> bool)
    requires forall x :: pq(x) == (p(x) && q(x))
    ensures Filter(Filter(s, q), p) == Filter(s, pq)
  {
    if s != [] {
      FilterFilter(s[1..], p, q, pq);
      if q(s[0]) {
        assert Filter(s, q) == [s[0]] + Filter(s[1..], q);
        assert Filter(s, q)[0] == s[0];
        assert Filter(s, q)[1..] == Filter(s[1..], q);
      } else {
        assert Filter(s, q) == Filter(s[1..], q);
      }
    }
  }

  /** Filtering keeps every row when every row satisfies `p`... */
  lemma {:induction false} FilterAll<T>(s: seq<T>, p: T -> bool)
    requires forall i :: 0 <= i < |s| ==> p(s[i])
    ensures Filter(s, p) == s
  {
    if s != [] {
      FilterAll(s[1..], p);
    }
  }

  /** ...and none when no row does. */
  lemma {:induction false} FilterNone<T>(s: seq<T>, p: T -> bool)
    requires forall i :: 0 <= i < |s| ==> !p(s[i])
    ensures Filter(s, p) == []
  {
    if s != [] {
      FilterNone(s[1..], p);
    }
  }

  /** No two rows of `s` share a key. */
  predicate DistinctBy<T>(s: seq<T>, key: T -> string)
  {
    forall i, j :: 0 <= i < j < |s| ==> key(s[i]) != key(s[j])
  }

  /** Deleting rows keeps keys distinct. */
  lemma FilterDistinct<T>(s: seq<T>, p: T -> bool, key: T -> string)
    requires DistinctBy(s, key)
    ensures DistinctBy(Filter(s, p), key)
  {
    SubsequenceDistinct(Filter(s, p), s, key);
  }

  /** Appending rows with fresh, distinct keys keeps keys distinct. */
  lemma AppendDistinct<T>(a: seq<T>, b: seq<T>, key: T -> string)
    requires DistinctBy(a, key) && DistinctBy(b, key)
    requires forall i, j :: 0 <= i < |a| && 0 <= j < |b| ==> key(a[i]) != key(b[j])
    ensures DistinctBy(a + b, key)
  {
    var c := a + b;
    forall i, j | 0 <= i < j < |c|
      ensures key(c[i]) != key(c[j])
    {
      if j < |a| {
        assert c[i] == a[i] && c[j] == a[j];
      } else if i < |a| {
        assert c[i] == a[i] && c[j] == b[j - |a|];
      } else {
        assert c[i] == b[i - |a|] && c[j] == b[j - |a|];
      }
    }
  }

  function QuestionKey(q: Question): string { q.id }
  function OptionKey(o: OptionRow): string { o.id }

  /** The questions of one subtopic, oldest first: in their order in the
      table, each once when the table has distinct ids. */
  function QuestionsOf(questions: seq<Question>, subtopicId: string): (r: seq<Question>)
    ensures forall q :: q in r <==> q in questions && q.subtopicId == subtopicId
    ensures Subsequence(r, questions)
    ensures DistinctBy(questions, QuestionKey) ==> DistinctBy(r, QuestionKey)
  {
    var p := (q: Question) => q.subtopicId == subtopicId;
    if DistinctBy(questions, QuestionKey) then FilterDistinct(questions, p, QuestionKey); Filter(questions, p)
    else Filter(questions, p)
  }

  /** The options of one question, in creation order. */
  function OptionsOf(options: seq<OptionRow>, questionId: string): (r: seq<OptionRow>)
    ensures forall o :: o in r <==> o in options && o.questionId == questionId
  {
    Filter(options, (o: OptionRow) => o.questionId == questionId)
  }

  /** The options table without the options of one question. */
  function OptionsNotOf(options: seq<OptionRow>, questionId: string): (r: seq<OptionRow>)
    ensures forall o :: o in r <==> o in options && o.questionId != questionId
    ensures Subsequence(r, options)
  {
    Filter(options, (o: OptionRow) => o.questionId != questionId)
  }

  /** `option.findUnique({ where: { id } })`: the row with that id, if any. */
  function FindOption(options: seq<OptionRow>, id: string): (r: Option<OptionRow>)
    ensures r.Some? ==> r.value in options && r.value.id == id
    ensures r.None? ==> forall o :: o in options ==> o.id != id
    ensures DistinctBy(options, OptionKey) ==> forall o :: o in options && o.id == id ==> r == Some(o)
  {
    if options == [] then None
    else if options[0].id == id then
      assert DistinctBy(options, OptionKey) ==> forall j :: 0 < j < |options| ==> options[j].id != id by {
        if DistinctBy(options, OptionKey) {
          forall j | 0 < j < |options| ensures options[j].id != id {
            assert OptionKey(options[0]) != OptionKey(options[j]);
          }
        }
      }
      Some(options[0])
    else
      assert DistinctBy(options, OptionKey) ==> DistinctBy(options[1..], OptionKey) by {
        if DistinctBy(options, OptionKey) {
          forall i, j | 0 <= i < j < |options[1..]|
            ensures OptionKey(options[1..][i]) != OptionKey(options[1..][j])
          {
            assert options[1..][i] == options[i + 1] && options[1..][j] == options[j + 1];
          }
        }
      }
      FindOption(options[1..], id)
  }

  /** `findUnique` on a keyed table. */
  function Lookup<K, V>(m: map<K, V>, k: K): (r: Option<V>)
    ensures r.Some? <==> k in m
    ensures r.Some? ==> r.value == m[k]
  {
    if k in m then Some(m[k]) else None
  }

  /** The unique constraints on `User.email` and `User.username`. */
  predicate UniqueLogins(users: map<string, User>)
  {
    forall a, b :: a in users && b in users && a != b ==>
      users[a].email != users[b].email && users[a].username != users[b].username
  }

  /** The unique constraint on the user of a teacher or student row, read
      from the user's side: no two users share one row. */
  predicate OneRowPerUser(rows: map<string, string>)
  {
    forall a, b :: a in rows && b in rows && a != b ==> rows[a] != rows[b]
  }

  /** The foreign key `Class.teacherId`: every class is taught by an
      existing teacher row. */
  predicate ClassesHaveTeachers(teachers: map<string, string>, classes: map<string, ClassRow>)
  {
    forall c :: c in classes ==> classes[c].teacherId in teachers.Values
  }

  /** The unique constraint on `Invitation.token`. */
  predicate UniqueTokens(invitations: map<string, Invitation>)
  {
    forall a, b :: a in invitations && b in invitations && a != b ==>
      invitations[a].token != invitations[b].token
  }

  /** Every scored attempt is covered by its module's best score. */
  predicate BestScoresCover(attempts: map<string, Attempt>, progress: map<ProgressKey, Progress>)
  {
    forall id :: id in attempts && attempts[id].score.Some? ==>
      var a := attempts[id];
      var k := ProgressKey(a.studentId, a.classId, a.subtopicId);
      k in progress && progress[k].bestScore.Some? && a.score.value <= progress[k].bestScore.value
  }

  /** The tables of the application. Teacher and student rows are keyed by
      their user's id and hold their own id; a subtopic row holds its topic;
      a class-topic row, keyed by (class, topic), holds its `published` flag;
      an enrolment is a (class, student) pair. */
  class Store {
    var users: map<string, User>
    var teachers: map<string, string>
    var students: map<string, string>
    var classes: map<string, ClassRow>
    var subtopics: map<string, string>
    var classTopics: map<(string, string), bool>
    var enrollments: set<(string, string)>
    var questions: seq<Question>
    var options: seq<OptionRow>
    var attempts: map<string, Attempt>
    var answers: seq<AnswerRecord>
    var progress: map<ProgressKey, Progress>
    var invitations: map<string, Invitation>

    /** The constraints on users, their teacher and student rows, and
        classes: unique logins, one teacher or student row per user, and
        classes taught by existing teachers. */
    ghost predicate Accounts()
      reads this`users, this`teachers, this`students, this`classes
    {
      && UniqueLogins(users)
      && OneRowPerUser(teachers)
      && OneRowPerUser(students)
      && ClassesHaveTeachers(teachers, classes)
    }

    /** The store's integrity constraints that the handlers rely on or
        keep: unique logins, one teacher or student row per user, classes
        taught by existing teachers, unique question and option ids, unique
        invitation tokens, and best scores that cover every scored attempt. */
    ghost predicate Valid()
      reads this
    {
      && Accounts()
      && DistinctBy(questions, QuestionKey)
      && DistinctBy(options, OptionKey)
      && BestScoresCover(attempts, progress)
      && UniqueTokens(invitations)
    }

    constructor ()
      ensures Valid()
      ensures users == map[] && teachers == map[] && students == map[] && classes == map[]
      ensures subtopics == map[] && classTopics == map[] && enrollments == {}
      ensures questions == [] && options == [] && attempts == map[] && answers == []
      ensures progress == map[] && invitations == map[]
    {
      users, teachers, students, classes := map[], map[], map[], map[];
      subtopics, classTopics, enrollments := map[], map[], {};
      questions, options, attempts, answers := [], [], map[], [];
      progress, invitations := map[], map[];
    }
  }
}
