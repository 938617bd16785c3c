# Adaptive learning web app: quiz, question bank, registration, invitations, route guard

This project models, in Dafny, the server-side core of an adaptive learning
web application where teachers build classes, topics and multiple-choice
questions, and students enrolled by invitation take quizzes per module
(subtopic) and accumulate progress.

What is modelled:

- **Quiz route** (`quiz.dfy`, module `Quiz`): starting an attempt and
  submitting it.
  - A start runs through its guard chain, creates an unscored attempt,
    sets the module's progress to IN_PROGRESS, and returns the questions
    without their answer key.
  - A submission runs through its own guards, then the scoring loop
    (`Grade`, a method with loop invariants). It appends the answer
    records, stores score and completion time on the attempt, and marks the
    module COMPLETED with a best score that never goes down.
  - Across any sequence of starts and submissions, the best score equals
    the highest score submitted (`ReplayBestScore`).
- **Question bank route** (`questions.dfy`, module `Questions`):
  - Filtered listing.
  - Creation with its validation: text not blank, topic and subtopic given,
    at least two options, at least one correct.
  - Editing, where a supplied option list replaces the question's options
    wholesale with none of the creation checks.
  - Deletion, cascading to the question's options.
- **Teacher registration** (`register.dfy`, module `Register`): the ordered
  validation cascade 503, 403, 400, 400, 409, 409. The stored user has its
  email and username lower-cased, role TEACHER, and a teacher row.
- **Invitation creation** (`invitations.dfy`, module `Invitations`): the
  401, 400 and 404 guards, the expiry time, the use limit, and the
  shareable URL.
- **Route guard** (`middleware.dfy`, module `Middleware`): public paths,
  the login redirect with its callback, and the role areas.

The database is a `class Store` (`data.dfy`, module `Data`). It has one field
per table, and its invariant `Valid()` holds the unique constraints, the
rule that no two users share a teacher or student row, the rule that every
class is taught by an existing teacher row, and "every scored attempt is
covered by its module's best score". Each route
handler that writes is a module-level method that takes the store as a
parameter and modifies only the tables it writes; the read-only listing
(GET /api/questions) is the function `Questions.List`, which reads the
store.
Each guard chain is also stated as a pure function (`StartCheck`,
`SubmitCheck`, `CheckNewQuestion`, `CheckRegistration`), which the method is
proved against.

The following become parameters of the handlers:

- the authenticated session;
- the request body: a text field that the source only tests for
  truthiness is a string, with an absent field given as `""`; a field whose
  absence the source tells apart from the empty text (the edit's `text` and
  `difficultyLevel`, where `""` is stored but an absent field keeps the old
  value) or that is not text (answers, options, day counts, use limits) is
  an `Option`, with an absent field given as `None`;
- the current time in milliseconds;
- environment variables (`""` when unset);
- the password hash;
- the ids and tokens the database generates.

Shared pieces:

- `types.dfy` (`Types`): the session, the reply shape `Ok(status, body)` or
  `Fail(status, error)`, and JavaScript truthiness for numbers.
- `text.dfy` (`Text`): JavaScript `trim` over the ECMAScript white-space
  and line-terminator set, and ASCII `toLowerCase`.

## Model

| member | source | states |
|---|---|---|
| Quiz.StartCheck | src/app/api/quiz/route.ts:7-46 | a start is accepted iff the session is a student's, the student row exists, both ids are given, the student is enrolled, the subtopic exists, its topic is published for the class, and it has questions; each failing guard, taken in that order, gives its own status and message (401, 404 no student, 400, 403 not enrolled, 404 no subtopic, 403 unpublished, 404 no questions); an accepted plan carries the student's id and exactly the subtopic's questions, oldest first |
| Quiz.PublicQuestions | src/app/api/quiz/route.ts:38-42 | one entry per question in order, each with exactly its own options reduced to id and text (no answer key) |
| Quiz.StartProgress | src/app/api/quiz/route.ts:54-58 | the progress upsert of a start sets IN_PROGRESS (even after COMPLETED), keeps an existing best score, and creates a row with none |
| Quiz.Start | src/app/api/quiz/route.ts:6-61 | a rejected start returns the check's status and error and writes nothing; an accepted one adds exactly one unscored attempt for the student, upserts the module's progress, keeps the store invariant and returns the attempt id with the public questions |
| Quiz.SubmitCheck | src/app/api/quiz/route.ts:65-82 | a submission is accepted iff the session is a student's, the student row exists, attemptId and answers are given, and the attempt exists and belongs to that student, completed or not; each failing guard, in that order, gives its own status and message (401, 404 no student, 400, 404 attempt not found) |
| Quiz.AnswerIsCorrect | src/app/api/quiz/route.ts:89-92 | with distinct option ids, an answer is correct iff it names a non-empty option id of an existing correct option; no selection or an unknown id is incorrect |
| Quiz.Records | src/app/api/quiz/route.ts:95-100 | one record per answer, in order, carrying the attempt id, question id, selection (`null` when absent) and correctness |
| Quiz.CountCorrect | src/app/api/quiz/route.ts:85-93 | the count is at most the number of records, equals it iff all are correct, and is 0 iff none is |
| Quiz.Grade | src/app/api/quiz/route.ts:85-101 | the scoring loop produces exactly `Records` of the answers and a count equal to `CountCorrect` of them, at most the number of answers |
| Quiz.Score | src/app/api/quiz/route.ts:105 | the score lies in [0, 100], is 0 for no answers, and score × total = correct × 100 otherwise |
| Quiz.SubmitProgress | src/app/api/quiz/route.ts:113-130 | the status becomes COMPLETED; the best score is at least the new score and at least the old best, and, for a score that is not negative, equals one of them |
| Quiz.ReviewQuestions | src/app/api/quiz/route.ts:132-136 | the review lists exactly the stored questions that some answer names, each once when ids are distinct, each with all its options including the answer key |
| Quiz.Submit | src/app/api/quiz/route.ts:64-145 | a rejected submission writes nothing; an accepted one appends the graded records, stores the score and completion time on the attempt, upserts progress, returns score, count, total, review and records, and never lowers any module's best score |
| Quiz.ScoresStayCovered | src/app/api/quiz/route.ts:107-130 | finalising an attempt and raising its module's best score keeps every scored attempt at or below its module's best score |
| Quiz.ReplayBestScore | src/app/api/quiz/route.ts:54-58 | over any sequence of starts and submissions, the best score is the maximum score submitted (none before the first submission) and the status is that of the last step |
| Quiz.RetakeRaisesBestScore | src/app/api/quiz/route.ts:105-130 | a 1-of-2 submission scores 50 and completes the module; a retake reopens it; a 2-of-2 retake raises the best score to 100 |
| Quiz.OptionOfAnotherQuestionCounts | src/app/api/quiz/route.ts:89-92 | an answer to one question that selects the correct option of another question is marked correct |
| Data.QuestionsOf | src/app/api/quiz/route.ts:38-41 | the listed questions are exactly the stored questions of the subtopic, in table (creation) order, each once when ids are distinct |
| Data.Filter | src/app/api/questions/route.ts:19-27 | a `findMany` with a `where` keeps exactly the rows that satisfy it, as a subsequence of the table (creation order kept) |
| Data.SubsequenceOrder | src/app/api/questions/route.ts:26 | of two listed rows, the earlier comes from an earlier row of the table |
| Data.FindOption | src/app/api/quiz/route.ts:90 | the lookup by id finds a stored option with that id, or reports that none exists; with distinct ids it finds the one option with that id |
| Questions.BuildFilter | src/app/api/questions/route.ts:14-17 | the filter constrains exactly the parameters that were supplied and not empty; with none supplied it matches every question |
| Questions.List | src/app/api/questions/route.ts:5-29 | 401 iff there is no signed-in user; otherwise every listed question is stored, meets each supplied parameter and carries exactly its own options, and every stored matching question is listed; the listing is in table (creation) order, each question once when ids are distinct |
| Questions.CheckNewQuestion | src/app/api/questions/route.ts:40-48 | a new question is accepted iff its text is not blank, topic and subtopic are given, and there are at least two options with at least one correct; each failing check, in that order, gives its own 400 message (required fields, at least 2 options, at least one correct) |
| Questions.NewOptionRows | src/app/api/questions/route.ts:57 | one option row per input in order, with trimmed text and the given correctness, attached to the question |
| Questions.CreatedOptionsWellFormed | src/app/api/questions/route.ts:43-57 | options that pass the creation checks yield at least two rows, one of them correct, all belonging to the new question |
| Questions.NewRowsKeepIdsDistinct | src/app/api/questions/route.ts:50-58 | appending rows with fresh distinct ids keeps option ids unique |
| Questions.Create | src/app/api/questions/route.ts:31-62 | 401 for non-teachers and the check's 400 otherwise, writing nothing; an accepted question is appended with trimmed text, difficulty defaulting to BEGINNER and the author's teacher row (when one exists), its well-formed options are appended, and 201 is returned |
| Questions.IndexOf | src/app/api/questions/route.ts:73-74 | the position found holds the question with that id; none means no question has it |
| Questions.Edited | src/app/api/questions/route.ts:73-79 | an edit replaces only the supplied text (trimmed) and the supplied difficulty and keeps every other field |
| Questions.ReplaceOptions | src/app/api/questions/route.ts:81-91 | after deleting a question's options and appending new rows, that question has exactly the new rows and every other question keeps its options |
| Questions.Update | src/app/api/questions/route.ts:64-95 | 401, then 400 for a missing id, then 500 when no question has the id, writing nothing; otherwise only that question is edited in place, its options become exactly the supplied ones (kept when none are supplied), other questions' options are unchanged, and the invariant holds |
| Questions.EditSkipsOptionRules | src/app/api/questions/route.ts:81-91 | an edit can store a single incorrect option, which creation refuses |
| Questions.QuestionsNotWithId | src/app/api/questions/route.ts:104 | the remaining questions are exactly those with another id, in their table (creation) order, and ids stay distinct |
| Data.OptionsNotOf | src/app/api/questions/route.ts:104 | the cascade leaves exactly the options of other questions, in their table order |
| Questions.Delete | src/app/api/questions/route.ts:97-106 | 401 for non-teachers and 500 for an unknown id, writing nothing; otherwise the question and all its options are removed and 200 is returned |
| Register.CheckRegistration | src/app/api/auth/register/route.ts:12-49 | the cascade in order: 503 when no signup code is configured, 403 for a wrong code, 400 "All fields are required." for a missing field, 400 "Password must be at least 8 characters." for a short password; 409 for email iff the earlier checks pass and the lower-cased email is taken; 409 for username iff in addition the email is free and the lower-cased username is taken; accepted iff all hold |
| Register.Register | src/app/api/auth/register/route.ts:5-65 | a rejected registration writes nothing; an accepted one adds exactly one user, a teacher with lower-cased email and username, plus a teacher row with a new id that no user or class refers to yet, keeps logins unique and returns 201 |
| Register.CaseVariantEmailConflicts | src/app/api/auth/register/route.ts:37-42 | after a registration, a second form whose email differs only in letter case is refused with "Email already in use." |
| Register.RegistrationKeepsLoginsUnique | src/app/api/auth/register/route.ts:37-63 | an accepted registration keeps emails and usernames unique |
| Register.NewTeacherRowKeepsAccounts | src/app/api/auth/register/route.ts:61 | the new teacher row keeps one row per user and every class taught by an existing teacher row |
| Text.TrimEmptyIffBlank | src/app/api/questions/route.ts:40 | a text trims to empty iff it consists of white space only |
| Text.TrimShape | src/app/api/questions/route.ts:52 | `trim` keeps a contiguous part of the text, cut only at white space, that neither starts nor ends with white space |
| Text.Lower | src/app/api/auth/register/route.ts:38 | lower-casing keeps the length and maps every character through the ASCII lower-case mapping |
| Text.LowerOfCaseVariants | src/app/api/auth/register/route.ts:38 | two texts equal up to letter case lower-case to the same text |
| Invitations.ExpiresAt | src/app/api/invitations/route.ts:19-21 | an expiry is stored iff the day count is given and not 0, and it lies exactly days × 86400000 ms after now (in the future iff days > 0) |
| Invitations.StoredMaxUses | src/app/api/invitations/route.ts:27 | a use limit is stored iff given and not 0, and it is the given value |
| Invitations.InviteUrl | src/app/api/invitations/route.ts:31-34 | the link is the configured URL, or http://localhost:3000 when unset, followed by "/invite/" and the token |
| Invitations.InvitePageIsPublic | src/middleware.ts:11 | the page an invitation link points to is served without a session |
| Invitations.OwnershipBypassAsWritten | src/app/api/invitations/route.ts:15-17 | as written, a user without a teacher row finds a class taught by another teacher |
| Invitations.NewTeacherOwnsNoClass | src/app/api/auth/register/route.ts:61 | a user given a teacher row with a new id owns no class, and every other user owns exactly the classes they owned before |
| Invitations.OwnsClassOnlyForItsTeacher | src/app/api/invitations/route.ts:15-17 | the corrected lookup finds nothing the written one does not, agrees with it whenever the user has a teacher row, and finds nothing for a user without one |
| Invitations.Create | src/app/api/invitations/route.ts:5-36 | 401 for non-teachers, 400 without a class id, 404 unless the user's teacher row owns the class (the corrected lookup, see Findings), each writing nothing; otherwise exactly one active, unused invitation is stored with the computed expiry and limit, tokens stay unique, and 201 is returned with the link |
| Middleware.Route | src/middleware.ts:4-39 | public paths pass; without a session a non-public path goes to login with itself as callback; with a session there is never a login redirect; a request passes iff it is public or neither role guard bars it; a role redirect goes to /student from the teacher area and to /teacher from the student area |
| Middleware.PublicIgnoresSession | src/middleware.ts:9-19 | a public path passes whatever the session |
| Middleware.InvitationCreationNeedsSession | src/middleware.ts:15-26 | the bare /api/invitations path needs a session, while paths below /api/invitations/ do not |
| Middleware.RoleRedirectSettles | src/middleware.ts:28-36 | for a session with a user, the page a role redirect leads to is let through |
| Middleware.RoleRedirectCyclesWithoutUser | src/middleware.ts:28-36 | a session without a user is sent from /teacher to /student and from /student back to /teacher |
| Middleware.CallbackAfterLogin | src/middleware.ts:21-26 | the page a login redirect remembers is never sent back to login once a session exists |

## Left out

- The invitation consumption endpoint, the class and topic routes, the pages, the seeds and the configuration are not part of this model. Nor is the database schema (prisma/schema.prisma), which is not shown; the model assumes that it cascades the deletion of a question to its options, that a user has at most one teacher and one student row (the singular `teacher` relation that register/route.ts:61 creates), and that a class's teacher is an existing teacher row.
- Concurrency and transactions: each handler runs atomically on the store, so there is no race between a check and a write (for example two registrations with the same email).
- Authentication, password hashing (bcrypt with cost 12), the clock, environment variables and id/token generation are parameters; the handlers require the generated ids and tokens to be fresh (a new user id, a teacher id no user holds, unused attempt, question, option and invitation ids, an unused token).
- Quiz.Score: computed exactly over `real`. The source uses IEEE double arithmetic, so `correct / total * 100` may differ from the exact percentage by rounding.
- Invitations.ExpiresAt: the day count is an integer. The source applies `Number(...)`, so fractional or textual counts, `NaN`, and an expiry beyond the `Date` range are not modelled.
- Invitations.StoredMaxUses: an integer as well; a non-numeric limit that `Number` turns into `NaN` is not modelled.
- Text.Lower: lower-cases ASCII letters only. JavaScript's `toLowerCase` maps all of Unicode, including characters whose lower-case form has a different length.
- Register.CheckRegistration: the password length counts code points. JavaScript's `length` counts UTF-16 units, so a password with characters outside the Basic Multilingual Plane may pass with fewer than 8 characters.
- Request bodies of the wrong type are not modelled (an `answers` that is not an array, an option without text, JSON that does not parse). Nor is the catch-all 500 of registration.
- The 500 "Internal Server Error" of question edit and delete stands for the exception an update or delete on a missing row raises. Foreign-key failures are not modelled: a question with an unknown topic, or answers that name unknown questions.
- Quiz.Submit: appends records on every submission. A resubmitted attempt keeps its earlier records alongside the new ones, as the source does; the records' row ids and the attempt's relation to them are not modelled.
- Quiz.ReviewQuestions: returns the questions in table order. The source's `findMany` with `in` promises no particular order.
- Listings are in table order, which stands for `createdAt` order; ties in `createdAt` are not modelled.
- Invitations.Create: uses the corrected ownership lookup. As written, a TEACHER session whose user has no teacher row finds any class with the given id and gets 201; the model answers 404 and stores nothing (see Findings).
- Questions.List: a listed question carries its options but not the `topic` and `subtopic` rows the source includes with it.
- Questions.Create: the returned question carries its options but not the `topic` and `subtopic` rows the source includes with it.
- Options are listed in table (creation) order wherever a question comes with its options (Quiz.PublicQuestions, Quiz.ReviewQuestions, Questions.List, Questions.Create, Questions.Update). The source's nested `options` includes have no `orderBy`, so this order is an assumption of the model.
- Middleware.Route: the route `matcher` is not modelled. Paths under `_next/static`, `_next/image`, `favicon.ico` and `public` never reach the guard in the source; the model applies the guard to every path.
- Questions.Delete: the model does not decide what happens to answer records that refer to a deleted question. Depending on the schema, which is not shown, the source either fails the delete (a 500) or deletes those answers too; the model removes only the question and its options.

## Findings

| source | as written | input that shows it | evidently intended | confidence | as-written member | corrected member |
|---|---|---|---|---|---|---|
| src/app/api/invitations/route.ts:15-17 | the class lookup filters on `teacherId: teacher?.id`; when the user has no teacher row this is `undefined`, the store drops the filter, and any class with the id is found | a TEACHER session whose user has no teacher row, creating an invitation for class "c1" taught by teacher "t1" | 404 "Class not found" unless the user's own teacher row owns the class | low (every user created through registration or seeding has a teacher row), not executed | Invitations.OwnershipBypassAsWritten | Invitations.OwnsClassOnlyForItsTeacher |
