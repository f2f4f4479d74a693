/** app/api/pautas/route.ts: a teacher submits an evaluation ("pauta") of
    one student; the evaluation is stored and the student earns points.
    GET lists the most recent evaluations. */
module PautasRoute {
  import opened Options
  import opened Common
  import opened Seqs
  import opened Store

  /** The JSON body of a POST. */
  datatype PautaInput = PautaInput(
    estudianteId: int,
    uniforme: string,
    disciplina: int,
    participacion: int,
    progreso: string,
    comentarios: string)

  /** What a successful POST answers: the created pauta with its student as
      read when the pauta was created, and the points awarded. */
  datatype PautaCreated = PautaCreated(pauta: Pauta, estudiante: Estudiante, pointsAwarded: int)

  const RECENT_LIMIT: nat := 20

  // ---------------------------------------------------------------------
  // The point award

  function Bonus(holds: bool, points: nat): nat
  {
    if holds then points else 0
  }

  /** The four independent bonuses of an evaluation, in the order the
      handler tests them. */
  function Bonuses(e: PautaInput): (b: seq<nat>)
    ensures |b| == 4
    ensures b[0] in {0, 20} && (b[0] == 20 <==> e.disciplina == 5)
    ensures b[1] in {0, 15} && (b[1] == 15 <==> e.participacion >= 8)
    ensures b[2] in {0, 30} && (b[2] == 30 <==> e.progreso == "sobresaliente")
    ensures b[3] in {0, 5} && (b[3] == 5 <==> e.uniforme == "completo")
  {
    [ Bonus(e.disciplina == 5, 20),
      Bonus(e.participacion >= 8, 15),
      Bonus(e.progreso == "sobresaliente", 30),
      Bonus(e.uniforme == "completo", 5) ]
  }

  function Sum(s: seq<nat>): nat
  {
    if s == [] then 0 else s[0] + Sum(s[1..])
  }

  /** The award of an evaluation: the total of its bonuses, in closed form
      20, 15, 30 and 5 points for the four conditions. */
  function Award(e: PautaInput): (points: nat)
    ensures points ==
      (if e.disciplina == 5 then 20 else 0) +
      (if e.participacion >= 8 then 15 else 0) +
      (if e.progreso == "sobresaliente" then 30 else 0) +
      (if e.uniforme == "completo" then 5 else 0)
  {
    var b := Bonuses(e);
    assert Sum(b[3..]) == b[3] + Sum(b[4..]) && b[4..] == [];
    assert Sum(b[2..]) == b[2] + Sum(b[3..]) && b[2..][1..] == b[3..];
    assert Sum(b[1..]) == b[1] + Sum(b[2..]) && b[1..][1..] == b[2..];
    Sum(b)
  }

  /** `pointsToAdd`, accumulated by four `if`s as the handler does. */
  method PointsToAdd(e: PautaInput) returns (pointsToAdd: nat)
    ensures pointsToAdd == Award(e)
  {
    pointsToAdd := 0;
    if e.disciplina == 5 { pointsToAdd := pointsToAdd + 20; }
    if e.participacion >= 8 { pointsToAdd := pointsToAdd + 15; }
    if e.progreso == "sobresaliente" { pointsToAdd := pointsToAdd + 30; }
    if e.uniforme == "completo" { pointsToAdd := pointsToAdd + 5; }
  }

  /** The award lies in 0..70; it is 70 exactly when all four conditions
      hold and 0 exactly when none holds. */
  lemma AwardBounds(e: PautaInput)
    ensures 0 <= Award(e) <= 70
    ensures Award(e) == 70 <==>
      e.disciplina == 5 && e.participacion >= 8 && e.progreso == "sobresaliente" && e.uniforme == "completo"
    ensures Award(e) == 0 <==>
      e.disciplina != 5 && e.participacion < 8 && e.progreso != "sobresaliente" && e.uniforme != "completo"
  {
  }

  /** Four evaluations with their awards: everything, nothing, discipline
      alone, everything but discipline. */
  lemma AwardExamples()
    ensures Award(PautaInput(1, "completo", 5, 8, "sobresaliente", "")) == 70
    ensures Award(PautaInput(1, "incompleto", 3, 5, "esperado", "")) == 0
    ensures Award(PautaInput(1, "incompleto", 5, 4, "esperado", "")) == 20
    ensures Award(PautaInput(1, "completo", 4, 9, "sobresaliente", "")) == 50
  {
  }

  lemma {:induction false} SumAppend(a: seq<nat>, b: seq<nat>)
    ensures Sum(a + b) == Sum(a) + Sum(b)
  {
    if a == [] {
      assert a + b == b;
    } else {
      assert (a + b)[1..] == a[1..] + b;
      SumAppend(a[1..], b);
    }
  }

  /** Taking one term out of a sum. */
  lemma SumRemove(b: seq<nat>, k: nat)
    requires k < |b|
    ensures Sum(b) == b[k] + Sum(b[..k] + b[k + 1..])
  {
    var front, rest := b[..k], b[k + 1..];
    var tail := [b[k]] + rest;
    assert b == front + tail;
    assert tail[1..] == rest;
    calc {
      Sum(b);
      { SumAppend(front, tail); }
      Sum(front) + Sum(tail);
      Sum(front) + (b[k] + Sum(rest));
      { SumAppend(front, rest); }
      b[k] + Sum(front + rest);
    }
  }

  lemma MultisetRemove(b: seq<nat>, k: nat)
    requires k < |b|
    ensures multiset(b[..k] + b[k + 1..]) == multiset(b) - multiset{b[k]}
  {
    assert b == b[..k] + [b[k]] + b[k + 1..];
  }

  /** Summing does not depend on the order of the terms. */
  lemma {:induction false} SumPermutation(a: seq<nat>, b: seq<nat>)
    requires multiset(a) == multiset(b)
    ensures Sum(a) == Sum(b)
    decreases |a|
  {
    if a == [] {
      assert |b| == |multiset(b)| == 0;
    } else {
      assert a[0] in multiset(b) by { assert a[0] in multiset(a); }
      var k :| 0 <= k < |b| && b[k] == a[0];
      var rest := b[..k] + b[k + 1..];
      MultisetRemove(b, k);
      assert a == [a[0]] + a[1..];
      assert multiset(a[1..]) == multiset(rest);
      SumPermutation(a[1..], rest);
      SumRemove(b, k);
    }
  }

  /** The four conditions may be tested in any order: every arrangement of
      the bonuses adds up to the award. */
  lemma AwardOrderIndependent(e: PautaInput, arrangement: seq<nat>)
    requires multiset(arrangement) == multiset(Bonuses(e))
    ensures Sum(arrangement) == Award(e)
  {
    SumPermutation(arrangement, Bonuses(e));
  }

  // ---------------------------------------------------------------------
  // The increment of one student's points

  /** `estudiante.update({ where: { id }, data: { puntos: { increment: n } } })`
      as a function of the table. */
  function IncrementPuntos(s: seq<Estudiante>, id: int, n: int): (r: seq<Estudiante>)
    ensures |r| == |s|
    ensures forall i :: 0 <= i < |s| ==> r[i].id == s[i].id
  {
    if s == [] then []
    else [if s[0].id == id then s[0].(puntos := s[0].puntos + n) else s[0]]
         + IncrementPuntos(s[1..], id, n)
  }

  lemma {:induction false} IncrementPuntosAt(s: seq<Estudiante>, id: int, n: int, i: nat)
    requires i < |s|
    ensures IncrementPuntos(s, id, n)[i] ==
      if s[i].id == id then s[i].(puntos := s[i].puntos + n) else s[i]
  {
    if i > 0 {
      IncrementPuntosAt(s[1..], id, n, i - 1);
    }
  }

  /** Only the student with the given id changes, and only in `puntos`,
      which grows by exactly `n`. */
  lemma IncrementOnlyTarget(s: seq<Estudiante>, id: int, n: int)
    ensures |IncrementPuntos(s, id, n)| == |s|
    ensures forall i :: 0 <= i < |s| && s[i].id != id ==> IncrementPuntos(s, id, n)[i] == s[i]
    ensures forall i :: 0 <= i < |s| && s[i].id == id ==>
      IncrementPuntos(s, id, n)[i] == s[i].(puntos := s[i].puntos + n)
  {
    forall i | 0 <= i < |s| {
      IncrementPuntosAt(s, id, n, i);
    }
  }

  /** A zero award changes nothing, so skipping the update is harmless. */
  lemma {:induction false} IncrementByZero(s: seq<Estudiante>, id: int)
    ensures IncrementPuntos(s, id, 0) == s
  {
    if s != [] {
      IncrementByZero(s[1..], id);
    }
  }

  /** Applying two increments adds them up: the update is not idempotent. */
  lemma {:induction false} IncrementTwice(s: seq<Estudiante>, id: int, a: int, b: int)
    ensures IncrementPuntos(IncrementPuntos(s, id, a), id, b) == IncrementPuntos(s, id, a + b)
  {
    if s != [] {
      IncrementTwice(s[1..], id, a, b);
    }
  }

  function TotalPuntos(s: seq<Estudiante>): int
  {
    if s == [] then 0 else s[0].puntos + TotalPuntos(s[1..])
  }

  lemma {:induction false} IncrementAbsent(s: seq<Estudiante>, id: int, n: int)
    requires forall i :: 0 <= i < |s| ==> s[i].id != id
    ensures IncrementPuntos(s, id, n) == s
  {
    if s != [] {
      IncrementAbsent(s[1..], id, n);
    }
  }

  /** When the student exists, the points held by all students together
      grow by exactly `n`. */
  lemma {:induction false} IncrementTotal(s: seq<Estudiante>, id: int, n: int)
    requires DistinctIds(s, EstudianteKey)
    requires exists i :: 0 <= i < |s| && s[i].id == id
    ensures TotalPuntos(IncrementPuntos(s, id, n)) == TotalPuntos(s) + n
  {
    if s[0].id == id {
      forall i | 0 <= i < |s[1..]|
        ensures s[1..][i].id != id
      {
        assert EstudianteKey(s[0]) != EstudianteKey(s[i + 1]);
      }
      IncrementAbsent(s[1..], id, n);
    } else {
      var j :| 0 <= j < |s| && s[j].id == id;
      assert s[1..][j - 1].id == id;
      assert DistinctIds(s[1..], EstudianteKey) by {
        forall i, k | 0 <= i < k < |s[1..]|
          ensures EstudianteKey(s[1..][i]) != EstudianteKey(s[1..][k])
        {
          assert EstudianteKey(s[i + 1]) != EstudianteKey(s[k + 1]);
        }
      }
      IncrementTotal(s[1..], id, n);
    }
  }

  /** The in-place update of the row at `i` is the update by id, because
      ids are distinct. */
  lemma UpdateRowIsIncrement(s: seq<Estudiante>, i: nat, n: int)
    requires DistinctIds(s, EstudianteKey)
    requires i < |s|
    ensures s[i := s[i].(puntos := s[i].puntos + n)] == IncrementPuntos(s, s[i].id, n)
  {
    var r := s[i := s[i].(puntos := s[i].puntos + n)];
    IncrementOnlyTarget(s, s[i].id, n);
    forall j | 0 <= j < |s|
      ensures r[j] == IncrementPuntos(s, s[i].id, n)[j]
    {
      if j != i {
        DistinctRows(s, EstudianteKey, i, j);
      }
    }
  }

  // ---------------------------------------------------------------------
  // The handlers

  /** The row `pauta.create` stores. */
  function NewPauta(id: int, fecha: int, body: PautaInput, maestroId: int): (p: Pauta)
    ensures p.id == id && p.estudianteId == body.estudianteId && p.maestroId == maestroId
  {
    Pauta(id, fecha, body.uniforme, body.disciplina, body.participacion,
          body.progreso, body.comentarios, body.estudianteId, maestroId)
  }

  /** `pauta.create`: the new row takes the next id. */
  method CreatePauta(db: Db, body: PautaInput, maestroId: int, now: int) returns (pauta: Pauta)
    requires db.Valid()
    modifies db`pautas, db`nextPautaId
    ensures db.Valid()
    ensures pauta == NewPauta(old(db.nextPautaId), now, body, maestroId)
    ensures db.pautas == old(db.pautas) + [pauta]
    ensures db.nextPautaId == old(db.nextPautaId) + 1
  {
    pauta := NewPauta(db.nextPautaId, now, body, maestroId);
    AppendFresh(db.pautas, PautaKey, db.nextPautaId, pauta);
    db.pautas, db.nextPautaId := db.pautas + [pauta], db.nextPautaId + 1;
  }

  /** `estudiante.update` with `increment: n`, applied in place to the row
      at `i`. */
  method UpdatePuntos(db: Db, i: nat, id: int, n: int)
    requires db.Valid()
    requires i < |db.estudiantes| && db.estudiantes[i].id == id
    modifies db`estudiantes
    ensures db.Valid()
    ensures db.estudiantes == IncrementPuntos(old(db.estudiantes), id, n)
  {
    var s := db.estudiantes;
    var updated := s[i].(puntos := s[i].puntos + n);
    UpdateRowIsIncrement(s, i, n);
    ReplaceSameKey(s, EstudianteKey, i, updated);
    db.estudiantes := s[i := updated];
    assert db.Valid();
  }

  /** The award step: compute `pointsToAdd` and, when it is positive,
      increment the student's points by it. */
  method AwardPoints(db: Db, i: nat, body: PautaInput) returns (pointsToAdd: nat)
    requires db.Valid()
    requires i < |db.estudiantes| && db.estudiantes[i].id == body.estudianteId
    modifies db`estudiantes
    ensures db.Valid()
    ensures pointsToAdd == Award(body)
    ensures db.estudiantes == IncrementPuntos(old(db.estudiantes), body.estudianteId, Award(body))
  {
    pointsToAdd := PointsToAdd(body);
    if pointsToAdd > 0 {
      UpdatePuntos(db, i, body.estudianteId, pointsToAdd);
    } else {
      IncrementByZero(db.estudiantes, body.estudianteId);
    }
  }

  /** POST /api/pautas. Only a teacher may submit. The pauta is created first
      (its foreign key needs an existing student and `parseInt` of the session
      id must be a number, else Prisma throws and the answer is 500), then the
      student's points are incremented by the award when it is positive. */
  method Post(db: Db, session: Option<Session>, body: PautaInput, now: int)
    returns (resp: Response<PautaCreated>)
    requires db.Valid()
    modifies db`estudiantes, db`pautas, db`nextPautaId
    ensures db.Valid()
    ensures resp == Unauthorized <==> !IsMaestro(session)
    ensures resp.Ok? <==>
      IsMaestro(session) && SessionUserId(session.value).Some?
      && IndexOfEstudiante(old(db.estudiantes), body.estudianteId).Some?
    ensures !resp.Ok? ==> unchanged(db)
    ensures resp.Ok? ==>
      && db.pautas == old(db.pautas) + [NewPauta(old(db.nextPautaId), now, body, SessionUserId(session.value).value)]
      && db.nextPautaId == old(db.nextPautaId) + 1
    ensures resp.Ok? ==> db.estudiantes == IncrementPuntos(old(db.estudiantes), body.estudianteId, Award(body))
    ensures resp.Ok? ==> resp.body == PautaCreated(
      db.pautas[|db.pautas| - 1],
      old(db.estudiantes)[IndexOfEstudiante(old(db.estudiantes), body.estudianteId).value],
      Award(body))
  {
    if !IsMaestro(session) {
      return Unauthorized;
    }
    var maestroId := SessionUserId(session.value);
    var index := IndexOfEstudiante(db.estudiantes, body.estudianteId);
    if maestroId.None? || index.None? {
      return InternalError;
    }
    var i := index.value;
    var student := db.estudiantes[i];
    var pauta := CreatePauta(db, body, maestroId.value, now);
    var pointsToAdd := AwardPoints(db, i, body);
    resp := Ok(PautaCreated(pauta, student, pointsToAdd));
  }

  function ByFechaDesc(p: Pauta): int
  {
    -p.fecha
  }

  /** `orderBy: { fecha: 'desc' }, take: n`: min(n, |pautas|) of the stored
      pautas, newest first. */
  function Recent(pautas: seq<Pauta>, n: nat): (r: seq<Pauta>)
    ensures |r| == if |pautas| < n then |pautas| else n
    ensures multiset(r) <= multiset(pautas)
    ensures forall i, j :: 0 <= i < j < |r| ==> r[i].fecha >= r[j].fecha
  {
    TakeOfSorted(pautas, ByFechaDesc, n);
    Take(SortBy(pautas, ByFechaDesc), n)
  }

  /** No pauta left out of the recent list is newer than one in it. */
  lemma RecentAreNewest(pautas: seq<Pauta>, n: nat)
    ensures forall x, y :: x in multiset(pautas) - multiset(Recent(pautas, n)) && y in Recent(pautas, n) ==>
      y.fecha >= x.fecha
  {
    var r := Recent(pautas, n);
    TakeSortedIsSmallest(pautas, ByFechaDesc, n);
    forall x, y | x in multiset(pautas) - multiset(r) && y in r
      ensures y.fecha >= x.fecha
    {
      assert ByFechaDesc(y) <= ByFechaDesc(x);
    }
  }

  /** GET /api/pautas: any signed-in user gets the 20 newest pautas. */
  function Get(session: Option<Session>, pautas: seq<Pauta>): (resp: Response<seq<Pauta>>)
    ensures session.None? <==> resp == Unauthorized
    ensures resp.Ok? ==> |resp.body| == if |pautas| < RECENT_LIMIT then |pautas| else RECENT_LIMIT
    ensures resp.Ok? ==> multiset(resp.body) <= multiset(pautas)
    ensures resp.Ok? ==> forall i, j :: 0 <= i < j < |resp.body| ==> resp.body[i].fecha >= resp.body[j].fecha
  {
    if session.None? then Unauthorized
    else Ok(Recent(pautas, RECENT_LIMIT))
  }
}
