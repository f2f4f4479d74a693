/** app/page.tsx: where the site root sends a visitor. */
module RootPage {
  import opened Options
  import opened Common

  const LOGIN: string := "/login"
  const ASISTENCIA: string := "/asistencia"
  const HOME: string := "/home"

  /** The redirect target: the login page without a session, the attendance
      page for a teacher, the home page for every other role. */
  function RootRedirect(session: Option<Session>): (target: string)
    ensures target == LOGIN <==> session.None?
    ensures target == ASISTENCIA <==> IsMaestro(session)
    ensures target == HOME <==> session.Some? && !IsMaestro(session)
    ensures target in {LOGIN, ASISTENCIA, HOME}
  {
    if session.None? then LOGIN
    else if IsMaestro(session) then ASISTENCIA
    else HOME
  }
}
