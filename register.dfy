/** Teacher registration: a server-side signup code gates the endpoint,
    the fields are validated in a fixed order, email and username must be
    free whatever their case, and the teacher is stored with both
    lower-cased. Students cannot register here. */
module Register {
  import opened Types
  import opened Text
  import opened Data

  /** The request body; an absent field is the empty text. */
  datatype RegisterForm = RegisterForm(
    firstName: string, lastName: string, username: string,
    email: string, password: string, teacherToken: string)

  predicate FieldsPresent(form: RegisterForm)
  {
    form.firstName != "" && form.lastName != "" && form.username != ""
    && form.email != "" && form.password != ""
  }

  /** Some user already has this (stored) email. */
  predicate EmailTaken(users: map<string, User>, email: string)
  {
    exists u :: u in users && users[u].email == email
  }

  /** Some user already has this (stored) username. */
  predicate UsernameTaken(users: map<string, User>, username: string)
  {
    exists u :: u in users && users[u].username == username
  }

  /** The checks that come before the uniqueness lookups. */
  predicate FormAccepted(expectedToken: string, form: RegisterForm)
  {
    expectedToken != "" && form.teacherToken == expectedToken
    && FieldsPresent(form) && |form.password| >= 8
  }

  /** The validation cascade, in the route's order: signup configured, code
      matches, fields present, password long enough, email free, username
      free (both compared lower-cased). */
  function CheckRegistration(expectedToken: string, users: map<string, User>, form: RegisterForm): (r: Check<()>)
    ensures expectedToken == "" ==>
      r == Reject(503, "Teacher registration is not configured on this server.")
    ensures expectedToken != "" && form.teacherToken != expectedToken ==>
      r == Reject(403, "Invalid teacher registration code.")
    ensures expectedToken != "" && form.teacherToken == expectedToken && !FieldsPresent(form) ==>
      r == Reject(400, "All fields are required.")
    ensures expectedToken != "" && form.teacherToken == expectedToken && FieldsPresent(form) && |form.password| < 8 ==>
      r == Reject(400, "Password must be at least 8 characters.")
    ensures r.Reject? && r.status == 400 ==> !FieldsPresent(form) || |form.password| < 8
    ensures r == Reject(409, "Email already in use.") <==>
      FormAccepted(expectedToken, form) && EmailTaken(users, Lower(form.email))
    ensures r == Reject(409, "Username already taken.") <==>
      FormAccepted(expectedToken, form) && !EmailTaken(users, Lower(form.email))
      && UsernameTaken(users, Lower(form.username))
    ensures r.Pass? <==>
      FormAccepted(expectedToken, form)
      && !EmailTaken(users, Lower(form.email)) && !UsernameTaken(users, Lower(form.username))
  {
    if expectedToken == "" then
      Reject(503, "Teacher registration is not configured on this server.")
    else if form.teacherToken == "" || form.teacherToken != expectedToken then
      Reject(403, "Invalid teacher registration code.")
    else if !FieldsPresent(form) then Reject(400, "All fields are required.")
    else if |form.password| < 8 then Reject(400, "Password must be at least 8 characters.")
    else if EmailTaken(users, Lower(form.email)) then Reject(409, "Email already in use.")
    else if UsernameTaken(users, Lower(form.username)) then Reject(409, "Username already taken.")
    else Pass(())
  }

  /** The user row a registration stores: email and username lower-cased,
      role TEACHER. */
  function NewTeacherUser(form: RegisterForm, hashedPassword: string): (u: User)
  {
    User(Lower(form.email), Lower(form.username), hashedPassword, form.firstName, form.lastName, Teacher)
  }

  /** POST /api/auth/register. `expectedToken` is the configured signup code
      ("" when unset), `hashedPassword` the password's hash, and the two ids
      those the store generates. A rejected request adds no user; an accepted
      one adds exactly one, a teacher, with its teacher row. */
  method Register(db: Store, expectedToken: string, form: RegisterForm, hashedPassword: string,
                  newUserId: string, newTeacherId: string)
    returns (r: Reply<bool>)
    requires db.Valid()
    requires newUserId !in db.users && newUserId !in db.teachers
    requires forall u :: u in db.teachers ==> db.teachers[u] != newTeacherId
    modifies db`users, db`teachers
    ensures db.Valid()
    ensures var c := old(CheckRegistration(expectedToken, db.users, form));
      c.Reject? ==> r == Fail(c.status, c.error) && unchanged(db)
    ensures old(CheckRegistration(expectedToken, db.users, form)).Pass? ==>
      && db.users == old(db.users)[newUserId := NewTeacherUser(form, hashedPassword)]
      && |db.users| == |old(db.users)| + 1
      && db.users[newUserId].role == Teacher
      && db.teachers == old(db.teachers)[newUserId := newTeacherId]
      && r == Ok(201, true)
  {
    if expectedToken == "" {
      return Fail(503, "Teacher registration is not configured on this server.");
    }
    if form.teacherToken == "" || form.teacherToken != expectedToken {
      return Fail(403, "Invalid teacher registration code.");
    }
    if !FieldsPresent(form) {
      return Fail(400, "All fields are required.");
    }
    if |form.password| < 8 {
      return Fail(400, "Password must be at least 8 characters.");
    }
    if EmailTaken(db.users, Lower(form.email)) {
      return Fail(409, "Email already in use.");
    }
    if UsernameTaken(db.users, Lower(form.username)) {
      return Fail(409, "Username already taken.");
    }
    RegistrationKeepsLoginsUnique(expectedToken, db.users, form, hashedPassword, newUserId);
    NewTeacherRowKeepsAccounts(db.teachers, db.classes, newUserId, newTeacherId);
    db.users := db.users[newUserId := NewTeacherUser(form, hashedPassword)];
    db.teachers := db.teachers[newUserId := newTeacherId];
    r := Ok(201, true);
  }

  /** Once a teacher has registered, a second registration whose email
      differs from the first only in the case of its letters is refused as a
      duplicate, provided it gets past the earlier checks. */
  lemma {:induction false} CaseVariantEmailConflicts(
    expectedToken: string, users: map<string, User>, form: RegisterForm, hashedPassword: string,
    newUserId: string, again: RegisterForm)
    requires CheckRegistration(expectedToken, users, form).Pass?
    requires FormAccepted(expectedToken, again)
    requires |again.email| == |form.email|
    requires forall i :: 0 <= i < |form.email| ==> LowerChar(again.email[i]) == LowerChar(form.email[i])
    ensures CheckRegistration(expectedToken, users[newUserId := NewTeacherUser(form, hashedPassword)], again)
            == Reject(409, "Email already in use.")
  {
    var after := users[newUserId := NewTeacherUser(form, hashedPassword)];
    LowerOfCaseVariants(again.email, form.email);
    assert after[newUserId].email == Lower(again.email);
    assert EmailTaken(after, Lower(again.email));
  }

  /** Registering keeps emails and usernames unique. */
  lemma RegistrationKeepsLoginsUnique(expectedToken: string, users: map<string, User>, form: RegisterForm,
                                      hashedPassword: string, newUserId: string)
    requires UniqueLogins(users)
    requires newUserId !in users
    requires CheckRegistration(expectedToken, users, form).Pass?
    ensures UniqueLogins(users[newUserId := NewTeacherUser(form, hashedPassword)])
  {
  }

  /** Adding the teacher row of a new user, with a new id, keeps one row per
      user and every class taught by an existing teacher row. */
  lemma NewTeacherRowKeepsAccounts(teachers: map<string, string>, classes: map<string, ClassRow>,
                                   userId: string, teacherId: string)
    requires OneRowPerUser(teachers) && ClassesHaveTeachers(teachers, classes)
    requires userId !in teachers
    requires forall u :: u in teachers ==> teachers[u] != teacherId
    ensures OneRowPerUser(teachers[userId := teacherId])
    ensures ClassesHaveTeachers(teachers[userId := teacherId], classes)
  {
    var after := teachers[userId := teacherId];
    forall c | c in classes ensures classes[c].teacherId in after.Values {
      var u :| u in teachers && teachers[u] == classes[c].teacherId;
      assert after[u] == classes[c].teacherId;
    }
  }
}
