/** Shared vocabulary of the application: the string enums of the type
    constants file, the session handed over by the identity provider, and
    the shapes of a handler's reply. */
module Types {

  datatype Option<+T> = None | Some(value: T)

  /** Roles a user can hold; a session carries the role of its user. */
  datatype Role = Teacher | Student

  /** Status of a student's work on one module (subtopic) of a class. */
  datatype ProgressStatus = NotStarted | InProgress | Completed

  /** Difficulty levels are stored as plain strings (the store keeps them
      as text), so only the names are fixed here. */
  const Beginner: string := "BEGINNER"
  const Intermediate: string := "INTERMEDIATE"
  const Advanced: string := "ADVANCED"

  /** The user part of a session. */
  datatype SessionUser = SessionUser(id: string, role: Role)

  /** A session as the identity provider supplies it; its `user` may be absent. */
  datatype Session = Session(user: Option<SessionUser>)

  /** `session?.user` is present. */
  predicate HasUser(session: Option<Session>)
  {
    session.Some? && session.value.user.Some?
  }

  /** `session?.user` is present and its role is `role`. */
  predicate HasRole(session: Option<Session>, role: Role)
  {
    HasUser(session) && session.value.user.value.role == role
  }

  /** The id of the session's user. */
  function UserId(session: Option<Session>): string
    requires HasUser(session)
  {
    session.value.user.value.id
  }

  /** What a handler answers: a JSON body with a status, or an error message
      with a status. */
  datatype Reply<+T> = Ok(status: nat, body: T) | Fail(status: nat, error: string)

  /** Outcome of a guard chain: the value the handler goes on with, or the
      rejection it answers with. */
  datatype Check<+T> = Pass(value: T) | Reject(status: nat, error: string)

  /** A JavaScript number field of a request body: absent, or a value.
      JavaScript treats an absent field and 0 alike as false. */
  predicate Truthy(n: Option<int>)
  {
    n.Some? && n.value != 0
  }
}
