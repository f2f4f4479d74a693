/** app/api/estudiantes/route.ts: a tutor's children, each with the share
    of classes attended over the last thirty days and the five most recent
    pautas. */
module EstudiantesRoute {
  import opened Options
  import opened Common
  import opened Seqs
  import opened Store
  import PautasRoute

  const PRESENTE: string := "presente"
  const WINDOW_DAYS: nat := 30
  const PAUTAS_SHOWN: nat := 5

  /** One entry of the response. */
  datatype EstudianteStats = EstudianteStats(
    id: int,
    nombre: string,
    apellido: string,
    foto: string,
    especialidad: string,
    nivel: string,
    puntos: int,
    asistencia: nat,
    pautas: seq<Pauta>)

  /** A positive factor common to both sides of a strict inequality cancels. */
  lemma MulCancelLt(d: int, a: int, b: int)
    requires d > 0 && d * a < d * b
    ensures a < b
  {
    assert d * b - d * a == d * (b - a);
  }

  /** The quotient of Euclidean division, bracketed. */
  lemma DivBracket(x: int, d: int)
    requires d > 0
    ensures d * (x / d) <= x < d * (x / d + 1)
  {
    assert x == d * (x / d) + x % d;
  }

  /** `Math.round(presentes / total * 100)`, or 0 with no records, in exact
      arithmetic: the integer nearest to the percentage, halves rounded up. */
  function Percentage(presentes: nat, total: nat): (r: nat)
    requires presentes <= total
    ensures r <= 100
    ensures total == 0 ==> r == 0
    ensures total > 0 ==> 2 * total * r <= 200 * presentes + total < 2 * total * (r + 1)
  {
    if total > 0 then
      var x := 200 * presentes + total;
      var r := x / (2 * total);
      DivBracket(x, 2 * total);
      assert 2 * total * r < 2 * total * 101;
      MulCancelLt(2 * total, r, 101);
      r
    else 0
  }

  /** The rounding characterization has exactly one solution. */
  lemma PercentageUnique(presentes: nat, total: nat, r: int)
    requires 0 < total && presentes <= total
    requires 2 * total * r <= 200 * presentes + total < 2 * total * (r + 1)
    ensures r == Percentage(presentes, total)
  {
    var q := Percentage(presentes, total);
    MulCancelLt(2 * total, r, q + 1);
    MulCancelLt(2 * total, q, r + 1);
  }

  /** Attending every class gives 100, attending none gives 0. */
  lemma PercentageExtremes(total: nat)
    requires total > 0
    ensures Percentage(total, total) == 100
    ensures Percentage(0, total) == 0
  {
    PercentageUnique(total, total, 100);
    PercentageUnique(0, total, 0);
  }

  /** More classes attended never lowers the percentage. */
  lemma PercentageMonotone(p: nat, q: nat, total: nat)
    requires p <= q <= total
    ensures Percentage(p, total) <= Percentage(q, total)
  {
    if total > 0 {
      MulCancelLt(2 * total, Percentage(p, total), Percentage(q, total) + 1);
    }
  }

  /** Start of the attendance window: thirty days before `now`. */
  function WindowStart(now: int): int
  {
    now - WINDOW_DAYS * MS_PER_DAY
  }

  /** The included `asistencias` of one student: those dated at or after
      the window start. */
  function RecentAsistencias(asistencias: seq<Asistencia>, estudianteId: int, now: int): (r: seq<Asistencia>)
    ensures |r| <= |asistencias|
    ensures forall a :: a in r <==> a in asistencias && a.estudianteId == estudianteId && a.fecha >= WindowStart(now)
  {
    Filter(asistencias, (a: Asistencia) => a.estudianteId == estudianteId && a.fecha >= WindowStart(now))
  }

  /** A record of another student, or one older than the window, does not
      change a student's window. */
  lemma RecentIgnoresOthers(asistencias: seq<Asistencia>, x: Asistencia, estudianteId: int, now: int)
    requires x.estudianteId != estudianteId || x.fecha < WindowStart(now)
    ensures RecentAsistencias(asistencias + [x], estudianteId, now) == RecentAsistencias(asistencias, estudianteId, now)
  {
    var p := (a: Asistencia) => a.estudianteId == estudianteId && a.fecha >= WindowStart(now);
    FilterAppend(asistencias, [x], p);
    assert Filter([x], p) == [];
  }

  /** `asistencias.filter(a => a.estado === 'presente')` */
  function Presentes(s: seq<Asistencia>): (r: seq<Asistencia>)
    ensures |r| <= |s|
    ensures forall a :: a in r <==> a in s && a.estado == PRESENTE
  {
    Filter(s, (a: Asistencia) => a.estado == PRESENTE)
  }

  /** The attendance figure of a list of records: the share marked present,
      as the nearest whole percentage, 0 for an empty list. */
  function AttendancePercentage(s: seq<Asistencia>): (r: nat)
    ensures r <= 100
    ensures s == [] ==> r == 0
    ensures s != [] ==> 2 * |s| * r <= 200 * |Presentes(s)| + |s| < 2 * |s| * (r + 1)
  {
    Percentage(|Presentes(s)|, |s|)
  }

  /** All present gives 100; none present gives 0. */
  lemma AttendanceExtremes(s: seq<Asistencia>)
    requires s != []
    ensures (forall i :: 0 <= i < |s| ==> s[i].estado == PRESENTE) ==> AttendancePercentage(s) == 100
    ensures (forall i :: 0 <= i < |s| ==> s[i].estado != PRESENTE) ==> AttendancePercentage(s) == 0
  {
    PercentageExtremes(|s|);
    FilterKeepsAll(s, (a: Asistencia) => a.estado == PRESENTE);
    if forall i :: 0 <= i < |s| ==> s[i].estado != PRESENTE {
      if Presentes(s) != [] {
        var a := Presentes(s)[0];
        assert a in s;
      }
    }
  }

  /** The pautas of one student. */
  function PautasOf(pautas: seq<Pauta>, estudianteId: int): (r: seq<Pauta>)
    ensures forall p :: p in r <==> p in pautas && p.estudianteId == estudianteId
  {
    Filter(pautas, (p: Pauta) => p.estudianteId == estudianteId)
  }

  /** One entry: the stored fields, the attendance figure over the window
      and the five newest pautas. */
  function StatsFor(e: Estudiante, asistencias: seq<Asistencia>, pautas: seq<Pauta>, now: int): (st: EstudianteStats)
    ensures st.id == e.id && st.nombre == e.nombre && st.apellido == e.apellido && st.foto == e.foto
    ensures st.especialidad == e.especialidad && st.nivel == e.nivel && st.puntos == e.puntos
    ensures st.asistencia <= 100
    ensures var w := RecentAsistencias(asistencias, e.id, now);
      && (w == [] ==> st.asistencia == 0)
      && (w != [] ==> 2 * |w| * st.asistencia <= 200 * |Presentes(w)| + |w| < 2 * |w| * (st.asistencia + 1))
  {
    EstudianteStats(e.id, e.nombre, e.apellido, e.foto, e.especialidad, e.nivel, e.puntos,
      AttendancePercentage(RecentAsistencias(asistencias, e.id, now)),
      PautasRoute.Recent(PautasOf(pautas, e.id), PAUTAS_SHOWN))
  }

  /** A record of another student, or one older than the window, leaves the
      student's entry as it was. */
  lemma StatsIgnoreOthers(e: Estudiante, asistencias: seq<Asistencia>, pautas: seq<Pauta>, x: Asistencia, now: int)
    requires x.estudianteId != e.id || x.fecha < WindowStart(now)
    ensures StatsFor(e, asistencias + [x], pautas, now) == StatsFor(e, asistencias, pautas, now)
  {
    RecentIgnoresOthers(asistencias, x, e.id, now);
  }

  /** A student with records in the window, all of them 'presente', shows
      100; a student none of whose records in the window is 'presente'
      (or who has none) shows 0. */
  lemma StatsAttendanceExtremes(e: Estudiante, asistencias: seq<Asistencia>, pautas: seq<Pauta>, now: int)
    ensures (exists a :: a in asistencias && a.estudianteId == e.id && a.fecha >= WindowStart(now))
      && (forall a :: a in asistencias && a.estudianteId == e.id && a.fecha >= WindowStart(now) ==> a.estado == PRESENTE)
      ==> StatsFor(e, asistencias, pautas, now).asistencia == 100
    ensures (forall a :: a in asistencias && a.estudianteId == e.id && a.fecha >= WindowStart(now) ==> a.estado != PRESENTE)
      ==> StatsFor(e, asistencias, pautas, now).asistencia == 0
  {
    var w := RecentAsistencias(asistencias, e.id, now);
    if w != [] {
      AttendanceExtremes(w);
      assert forall i :: 0 <= i < |w| ==> w[i] in w;
    }
  }

  /** The recent pautas of one student are pautas of that student. */
  lemma RecentOfOwn(pautas: seq<Pauta>, estudianteId: int)
    ensures forall p :: p in PautasRoute.Recent(PautasOf(pautas, estudianteId), PAUTAS_SHOWN) ==>
      p in pautas && p.estudianteId == estudianteId
  {
    var own := PautasOf(pautas, estudianteId);
    var shown := PautasRoute.Recent(own, PAUTAS_SHOWN);
    forall p | p in shown
      ensures p in pautas && p.estudianteId == estudianteId
    {
      assert p in multiset(shown);
      assert p in multiset(own);
    }
  }

  /** The pautas shown with a student: at most five, all of that student,
      newest first, and none newer left out. */
  lemma StatsPautas(e: Estudiante, asistencias: seq<Asistencia>, pautas: seq<Pauta>, now: int)
    ensures var shown := StatsFor(e, asistencias, pautas, now).pautas;
      && |shown| <= PAUTAS_SHOWN
      && (forall p :: p in shown ==> p in pautas && p.estudianteId == e.id)
      && (forall i, j :: 0 <= i < j < |shown| ==> shown[i].fecha >= shown[j].fecha)
      && (forall x, y :: x in multiset(PautasOf(pautas, e.id)) - multiset(shown) && y in shown ==> y.fecha >= x.fecha)
  {
    var own := PautasOf(pautas, e.id);
    assert StatsFor(e, asistencias, pautas, now).pautas == PautasRoute.Recent(own, PAUTAS_SHOWN);
    RecentOfOwn(pautas, e.id);
    PautasRoute.RecentAreNewest(own, PAUTAS_SHOWN);
  }

  /** `where: { tutorId }`: the students of one tutor. */
  function ChildrenOf(estudiantes: seq<Estudiante>, tutorId: int): (r: seq<Estudiante>)
    ensures forall e :: e in r <==> e in estudiantes && e.tutorId == tutorId
  {
    Filter(estudiantes, (e: Estudiante) => e.tutorId == tutorId)
  }

  /** `estudiantes.map(...)` */
  function AllStats(children: seq<Estudiante>, asistencias: seq<Asistencia>, pautas: seq<Pauta>, now: int): (r: seq<EstudianteStats>)
    ensures |r| == |children|
    ensures forall i :: 0 <= i < |children| ==> r[i] == StatsFor(children[i], asistencias, pautas, now)
  {
    if children == [] then []
    else [StatsFor(children[0], asistencias, pautas, now)] + AllStats(children[1..], asistencias, pautas, now)
  }

  /** GET /api/estudiantes: one entry per student of the signed-in tutor, in
      table order. A non-numeric session id makes the query fail (500). */
  function Get(session: Option<Session>, estudiantes: seq<Estudiante>, asistencias: seq<Asistencia>,
               pautas: seq<Pauta>, now: int): (resp: Response<seq<EstudianteStats>>)
    ensures session.None? <==> resp == Unauthorized
    ensures resp == InternalError <==> session.Some? && SessionUserId(session.value).None?
    ensures resp.Ok? ==> var children := ChildrenOf(estudiantes, SessionUserId(session.value).value);
      && |resp.body| == |children|
      && forall i :: 0 <= i < |children| ==> resp.body[i] == StatsFor(children[i], asistencias, pautas, now)
  {
    if session.None? then Unauthorized
    else if SessionUserId(session.value).None? then InternalError
    else Ok(AllStats(ChildrenOf(estudiantes, SessionUserId(session.value).value), asistencias, pautas, now))
  }

  /** A tutor never sees a student of another tutor. */
  lemma GetShowsOnlyOwnChildren(session: Option<Session>, estudiantes: seq<Estudiante>, asistencias: seq<Asistencia>,
                                pautas: seq<Pauta>, now: int, other: Estudiante)
    requires DistinctIds(estudiantes, EstudianteKey)
    requires other in estudiantes
    requires session.Some? && SessionUserId(session.value).Some?
    requires other.tutorId != SessionUserId(session.value).value
    ensures forall st :: st in Get(session, estudiantes, asistencias, pautas, now).body ==> st.id != other.id
  {
    var tutorId := SessionUserId(session.value).value;
    var children := ChildrenOf(estudiantes, tutorId);
    var body := Get(session, estudiantes, asistencias, pautas, now).body;
    forall st | st in body
      ensures st.id != other.id
    {
      var k :| 0 <= k < |body| && body[k] == st;
      var c := children[k];
      assert c in children;
      var a :| 0 <= a < |estudiantes| && estudiantes[a] == c;
      var b :| 0 <= b < |estudiantes| && estudiantes[b] == other;
      assert a != b;
      DistinctRows(estudiantes, EstudianteKey, a, b);
    }
  }
}
