/** app/api/asistencias/route.ts: a teacher records a student's attendance
    in a class for today, at most once per student, class and day (a repeat
    submission corrects the stored state); GET lists the class roster with
    each student's record for one day. */
module AsistenciasRoute {
  import opened Options
  import opened Common
  import opened Seqs
  import opened Store

  /** The JSON body of a POST. */
  datatype AsistenciaInput = AsistenciaInput(estudianteId: int, estado: string, clase: string)

  /** One entry of the GET answer. */
  datatype RosterRow = RosterRow(
    id: int,
    nombre: string,
    apellido: string,
    foto: string,
    especialidad: string,
    nivel: string,
    asistencia: Option<Asistencia>)

  const DEFAULT_CLASE: string := "Ballet Intermedio - Grupo A"

  /** A record of this student in this class dated in [lo, hi). */
  predicate OnDay(a: Asistencia, estudianteId: int, clase: string, lo: int, hi: int)
  {
    a.estudianteId == estudianteId && a.clase == clase && lo <= a.fecha < hi
  }

  /** The `where` clause of both handlers' attendance queries. */
  function OnDayFilter(estudianteId: int, clase: string, lo: int, hi: int): Asistencia -> bool
  {
    (a: Asistencia) => OnDay(a, estudianteId, clase, lo, hi)
  }

  /** `asistencia.findFirst` over the [lo, hi) window. */
  function FindOnDay(s: seq<Asistencia>, estudianteId: int, clase: string, lo: int, hi: int): (r: Option<nat>)
    ensures r.Some? ==> r.value < |s| && OnDay(s[r.value], estudianteId, clase, lo, hi)
    ensures r.Some? ==> forall j :: 0 <= j < r.value ==> !OnDay(s[j], estudianteId, clase, lo, hi)
    ensures r.None? ==> forall j :: 0 <= j < |s| ==> !OnDay(s[j], estudianteId, clase, lo, hi)
  {
    FirstIndex(s, OnDayFilter(estudianteId, clase, lo, hi))
  }

  /** How many records the table holds for one student, class and window. */
  function CountOnDay(s: seq<Asistencia>, estudianteId: int, clase: string, lo: int, hi: int): nat
  {
    if s == [] then 0
    else (if OnDay(s[0], estudianteId, clase, lo, hi) then 1 else 0)
         + CountOnDay(s[1..], estudianteId, clase, lo, hi)
  }

  /** The search finds nothing exactly when the count is zero. */
  lemma {:induction false} CountZeroIffNotFound(s: seq<Asistencia>, estudianteId: int, clase: string, lo: int, hi: int)
    ensures CountOnDay(s, estudianteId, clase, lo, hi) == 0 <==> FindOnDay(s, estudianteId, clase, lo, hi).None?
  {
    if s != [] {
      CountZeroIffNotFound(s[1..], estudianteId, clase, lo, hi);
      if FindOnDay(s, estudianteId, clase, lo, hi).None? {
        assert forall j :: 0 <= j < |s[1..]| ==> !OnDay(s[1..][j], estudianteId, clase, lo, hi) by {
          forall j | 0 <= j < |s[1..]| ensures !OnDay(s[1..][j], estudianteId, clase, lo, hi) {
            assert s[1..][j] == s[j + 1];
          }
        }
      } else if !OnDay(s[0], estudianteId, clase, lo, hi) {
        var k := FindOnDay(s, estudianteId, clase, lo, hi).value;
        assert s[1..][k - 1] == s[k];
      }
    }
  }

  /** Changing the state of a record does not change the count. */
  lemma {:induction false} CountAfterUpdate(s: seq<Asistencia>, i: nat, estado: string, estudianteId: int, clase: string, lo: int, hi: int)
    requires i < |s|
    ensures CountOnDay(s[i := s[i].(estado := estado)], estudianteId, clase, lo, hi) == CountOnDay(s, estudianteId, clase, lo, hi)
  {
    var t := s[i := s[i].(estado := estado)];
    if i == 0 {
      assert t[1..] == s[1..];
    } else {
      assert t[1..] == s[1..][i - 1 := s[1..][i - 1].(estado := estado)];
      CountAfterUpdate(s[1..], i - 1, estado, estudianteId, clase, lo, hi);
    }
  }

  /** Appending a record adds one to the count when it falls in the window. */
  lemma {:induction false} CountAfterAppend(s: seq<Asistencia>, x: Asistencia, estudianteId: int, clase: string, lo: int, hi: int)
    ensures CountOnDay(s + [x], estudianteId, clase, lo, hi) ==
      CountOnDay(s, estudianteId, clase, lo, hi) + (if OnDay(x, estudianteId, clase, lo, hi) then 1 else 0)
  {
    if s == [] {
      assert [x][1..] == [];
    } else {
      assert (s + [x])[1..] == s[1..] + [x];
      CountAfterAppend(s[1..], x, estudianteId, clase, lo, hi);
    }
  }

  /** The state table after a successful POST, as a function of the table
      before: the first record of today is updated in place, or a new
      record dated `now` is appended. */
  function Upsert(s: seq<Asistencia>, nextId: int, input: AsistenciaInput, maestroId: int,
                  now: int, today: int, tomorrow: int): (r: seq<Asistencia>)
    ensures FindOnDay(s, input.estudianteId, input.clase, today, tomorrow).Some? ==> |r| == |s|
    ensures FindOnDay(s, input.estudianteId, input.clase, today, tomorrow).None? ==> |r| == |s| + 1
  {
    match FindOnDay(s, input.estudianteId, input.clase, today, tomorrow)
    case Some(i) => s[i := s[i].(estado := input.estado)]
    case None => s + [Asistencia(nextId, now, input.estado, input.clase, input.estudianteId, maestroId)]
  }

  /** At most one record per student, class and day: when `now` lies in
      today's window, a POST leaves exactly one record for the submitted
      student and class if there was none, and as many as before otherwise. */
  lemma UpsertCount(s: seq<Asistencia>, nextId: int, input: AsistenciaInput, maestroId: int,
                    now: int, today: int, tomorrow: int)
    requires today <= now < tomorrow
    ensures var before := CountOnDay(s, input.estudianteId, input.clase, today, tomorrow);
      CountOnDay(Upsert(s, nextId, input, maestroId, now, today, tomorrow), input.estudianteId, input.clase, today, tomorrow)
      == if before == 0 then 1 else before
  {
    CountZeroIffNotFound(s, input.estudianteId, input.clase, today, tomorrow);
    match FindOnDay(s, input.estudianteId, input.clase, today, tomorrow)
    case Some(i) =>
      CountAfterUpdate(s, i, input.estado, input.estudianteId, input.clase, today, tomorrow);
    case None =>
      CountAfterAppend(s, Asistencia(nextId, now, input.estado, input.clase, input.estudianteId, maestroId),
                       input.estudianteId, input.clase, today, tomorrow);
  }

  /** Only the matched record changes, and only in `estado`; when nothing
      matched, the old records keep their places and the new one is last. */
  lemma UpsertTouchesOneRecord(s: seq<Asistencia>, nextId: int, input: AsistenciaInput, maestroId: int,
                               now: int, today: int, tomorrow: int)
    ensures var r := Upsert(s, nextId, input, maestroId, now, today, tomorrow);
      match FindOnDay(s, input.estudianteId, input.clase, today, tomorrow)
      case Some(i) =>
        && r[i] == s[i].(estado := input.estado)
        && forall j :: 0 <= j < |s| && j != i ==> r[j] == s[j]
      case None =>
        && r[..|s|] == s
        && r[|s|] == Asistencia(nextId, now, input.estado, input.clase, input.estudianteId, maestroId)
  {
  }

  /** `asistencia.update`: set the state of the record at `i`. */
  method UpdateEstado(db: Db, i: nat, estado: string) returns (updated: Asistencia)
    requires db.Valid()
    requires i < |db.asistencias|
    modifies db`asistencias
    ensures db.Valid()
    ensures updated == old(db.asistencias)[i].(estado := estado)
    ensures db.asistencias == old(db.asistencias)[i := updated]
  {
    updated := db.asistencias[i].(estado := estado);
    ReplaceSameKey(db.asistencias, AsistenciaKey, i, updated);
    db.asistencias := db.asistencias[i := updated];
    assert db.Valid();
  }

  /** `asistencia.create`: append a record with the next id, dated `now`. */
  method CreateAsistencia(db: Db, input: AsistenciaInput, maestroId: int, now: int) returns (created: Asistencia)
    requires db.Valid()
    modifies db`asistencias, db`nextAsistenciaId
    ensures db.Valid()
    ensures created == Asistencia(old(db.nextAsistenciaId), now, input.estado, input.clase, input.estudianteId, maestroId)
    ensures db.asistencias == old(db.asistencias) + [created]
    ensures db.nextAsistenciaId == old(db.nextAsistenciaId) + 1
  {
    created := Asistencia(db.nextAsistenciaId, now, input.estado, input.clase, input.estudianteId, maestroId);
    AppendFresh(db.asistencias, AsistenciaKey, db.nextAsistenciaId, created);
    db.asistencias, db.nextAsistenciaId := db.asistencias + [created], db.nextAsistenciaId + 1;
  }

  /** POST /api/asistencias. Only a teacher may record attendance. Creating
      a record needs a numeric session id and an existing student (else
      Prisma throws and the answer is 500); updating one needs neither. */
  method Post(db: Db, session: Option<Session>, input: AsistenciaInput, now: int, today: int, tomorrow: int)
    returns (resp: Response<Asistencia>)
    requires db.Valid()
    modifies db`asistencias, db`nextAsistenciaId
    ensures db.Valid()
    ensures resp == Unauthorized <==> !IsMaestro(session)
    ensures resp.Ok? <==>
      IsMaestro(session) &&
      (FindOnDay(old(db.asistencias), input.estudianteId, input.clase, today, tomorrow).Some? ||
       (SessionUserId(session.value).Some? && IndexOfEstudiante(db.estudiantes, input.estudianteId).Some?))
    ensures !resp.Ok? ==> unchanged(db)
    ensures resp.Ok? && FindOnDay(old(db.asistencias), input.estudianteId, input.clase, today, tomorrow).Some? ==>
      var i := FindOnDay(old(db.asistencias), input.estudianteId, input.clase, today, tomorrow).value;
      && db.asistencias == old(db.asistencias)[i := old(db.asistencias)[i].(estado := input.estado)]
      && db.nextAsistenciaId == old(db.nextAsistenciaId)
      && resp.body == db.asistencias[i]
    ensures resp.Ok? && FindOnDay(old(db.asistencias), input.estudianteId, input.clase, today, tomorrow).None? ==>
      && db.asistencias == Upsert(old(db.asistencias), old(db.nextAsistenciaId), input,
                                  SessionUserId(session.value).value, now, today, tomorrow)
      && db.nextAsistenciaId == old(db.nextAsistenciaId) + 1
      && resp.body == Asistencia(old(db.nextAsistenciaId), now, input.estado, input.clase, input.estudianteId,
                                 SessionUserId(session.value).value)
      && resp.body == db.asistencias[|db.asistencias| - 1]
    ensures resp.Ok? && today <= now < tomorrow ==>
      var before := CountOnDay(old(db.asistencias), input.estudianteId, input.clase, today, tomorrow);
      CountOnDay(db.asistencias, input.estudianteId, input.clase, today, tomorrow) == if before == 0 then 1 else before
  {
    if !IsMaestro(session) {
      return Unauthorized;
    }
    var existing := FindOnDay(db.asistencias, input.estudianteId, input.clase, today, tomorrow);
    if existing.Some? {
      var i := existing.value;
      CountZeroIffNotFound(db.asistencias, input.estudianteId, input.clase, today, tomorrow);
      CountAfterUpdate(db.asistencias, i, input.estado, input.estudianteId, input.clase, today, tomorrow);
      var updated := UpdateEstado(db, i, input.estado);
      assert db.asistencias[i] == updated;
      return Ok(updated);
    }
    var maestroId := SessionUserId(session.value);
    if maestroId.None? || IndexOfEstudiante(db.estudiantes, input.estudianteId).None? {
      return InternalError;
    }
    if today <= now < tomorrow {
      UpsertCount(db.asistencias, db.nextAsistenciaId, input, maestroId.value, now, today, tomorrow);
    }
    var created := CreateAsistencia(db, input, maestroId.value, now);
    assert db.asistencias[|db.asistencias| - 1] == created;
    resp := Ok(created);
  }

  predicate IsBalletIntermedio(e: Estudiante)
  {
    e.especialidad == "Ballet" && e.nivel == "Intermedio"
  }

  /** `searchParams.get('clase') || 'Ballet Intermedio - Grupo A'`: a missing
      or empty parameter falls back to the default class. */
  function ClaseOrDefault(param: Option<string>): (clase: string)
    ensures param.Some? && param.value != "" ==> clase == param.value
    ensures param.None? || param.value == "" ==> clase == DEFAULT_CLASE
  {
    if param.Some? && param.value != "" then param.value else DEFAULT_CLASE
  }

  /** One roster entry: the student with the first record of the class in
      [dayStart, dayStart + 24h), or null. */
  function RowFor(e: Estudiante, asistencias: seq<Asistencia>, clase: string, dayStart: int): (row: RosterRow)
    ensures row.id == e.id && row.nombre == e.nombre && row.apellido == e.apellido && row.foto == e.foto
    ensures row.especialidad == e.especialidad && row.nivel == e.nivel
  {
    var found := FindOnDay(asistencias, e.id, clase, dayStart, dayStart + MS_PER_DAY);
    RosterRow(e.id, e.nombre, e.apellido, e.foto, e.especialidad, e.nivel,
              if found.Some? then Some(asistencias[found.value]) else None)
  }

  /** A roster entry carries a record exactly when the student has one in
      the class that day, and then it is the first such record. */
  lemma RowAttendanceIsFirst(e: Estudiante, asistencias: seq<Asistencia>, clase: string, dayStart: int)
    ensures var row := RowFor(e, asistencias, clase, dayStart);
      && (row.asistencia.None? <==>
          forall j :: 0 <= j < |asistencias| ==> !OnDay(asistencias[j], e.id, clase, dayStart, dayStart + MS_PER_DAY))
      && (row.asistencia.Some? ==>
          exists j :: 0 <= j < |asistencias| && asistencias[j] == row.asistencia.value
            && OnDay(asistencias[j], e.id, clase, dayStart, dayStart + MS_PER_DAY)
            && forall k :: 0 <= k < j ==> !OnDay(asistencias[k], e.id, clase, dayStart, dayStart + MS_PER_DAY))
  {
    var found := FindOnDay(asistencias, e.id, clase, dayStart, dayStart + MS_PER_DAY);
    if found.Some? {
      var j := found.value;
      assert asistencias[j] == RowFor(e, asistencias, clase, dayStart).asistencia.value;
    }
  }

  /** The entry's record is `est.asistencias[0] || null`: the head of the
      included records of that class and day, or null when there are none. */
  lemma RowIsHeadOfIncluded(e: Estudiante, asistencias: seq<Asistencia>, clase: string, dayStart: int)
    ensures var row := RowFor(e, asistencias, clase, dayStart);
      var included := Filter(asistencias, OnDayFilter(e.id, clase, dayStart, dayStart + MS_PER_DAY));
      && (row.asistencia.None? <==> included == [])
      && (row.asistencia.Some? ==> row.asistencia.value == included[0])
  {
    FirstOfFilter(asistencias, OnDayFilter(e.id, clase, dayStart, dayStart + MS_PER_DAY));
  }

  /** `estudiantes.map(...)` over the roster. */
  function Rows(roster: seq<Estudiante>, asistencias: seq<Asistencia>, clase: string, dayStart: int): (rows: seq<RosterRow>)
    ensures |rows| == |roster|
    ensures forall i :: 0 <= i < |rows| ==> rows[i] == RowFor(roster[i], asistencias, clase, dayStart)
  {
    if roster == [] then []
    else [RowFor(roster[0], asistencias, clase, dayStart)] + Rows(roster[1..], asistencias, clase, dayStart)
  }

  /** GET /api/asistencias: for any signed-in user, every Ballet/Intermedio
      student (whatever class is asked for) with that class's record on the
      requested day; `dayStart` defaults to `todayUtc`, the UTC midnight of
      the current date. */
  function Get(session: Option<Session>, estudiantes: seq<Estudiante>, asistencias: seq<Asistencia>,
               claseParam: Option<string>, fechaParam: Option<int>, todayUtc: int): (resp: Response<seq<RosterRow>>)
    ensures session.None? <==> resp == Unauthorized
    ensures resp.Ok? ==> |resp.body| == |Filter(estudiantes, IsBalletIntermedio)|
    ensures resp.Ok? ==> forall i :: 0 <= i < |resp.body| ==>
      resp.body[i].especialidad == "Ballet" && resp.body[i].nivel == "Intermedio"
    ensures resp.Ok? ==> forall i :: 0 <= i < |resp.body| ==>
      resp.body[i] == RowFor(Filter(estudiantes, IsBalletIntermedio)[i], asistencias, ClaseOrDefault(claseParam),
                             if fechaParam.Some? then fechaParam.value else todayUtc)
  {
    if session.None? then Unauthorized
    else
      var dayStart := if fechaParam.Some? then fechaParam.value else todayUtc;
      Ok(Rows(Filter(estudiantes, IsBalletIntermedio), asistencias, ClaseOrDefault(claseParam), dayStart))
  }
}
