/** Values shared by every route handler: optional values, the three
    outcomes a handler can produce, and the session object that
    next-auth hands to a handler. */
module Common {
  import opened Options
  import opened Numerals

  /** What a route handler answers: a JSON body with status 200, the
      401 "No autorizado" answer, or the 500 "Error interno del servidor"
      answer produced by the handler's catch block. */
  datatype Response<+T> = Ok(body: T) | Unauthorized | InternalError

  const MAESTRO: string := "maestro"

  /** `24 * 60 * 60 * 1000`, one day in milliseconds. */
  const MS_PER_DAY: int := 24 * 60 * 60 * 1000

  /** The `session.user` fields a handler reads. The session callback copies
      them from the token, where they may be undefined (None). */
  datatype SessionUser = SessionUser(
    id: Option<string>,
    name: Option<string>,
    email: Option<string>,
    role: Option<string>,
    avatar: Option<string>)

  datatype Session = Session(user: SessionUser)

  /** `session && session.user.role === 'maestro'` */
  predicate IsMaestro(session: Option<Session>)
  {
    session.Some? && session.value.user.role == Some(MAESTRO)
  }

  /** `parseInt(session.user.id)`; None stands for NaN (also when the id is
      undefined, since `parseInt(undefined)` is NaN). */
  function SessionUserId(s: Session): Option<int>
  {
    match s.user.id
    case None => None
    case Some(text) => ParseInt(text)
  }

  /** A session whose id was produced from a numeric user id parses back
      to that id. */
  lemma SessionUserIdOfDecimal(s: Session, n: nat)
    requires s.user.id == Some(DecimalString(n))
    ensures SessionUserId(s) == Some(n)
  {
    ParseDecimalString(n);
  }
}
