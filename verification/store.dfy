/** The rows of the four tables the core reads and writes, and an
    in-memory database standing for the Prisma client. Dates are
    millisecond timestamps; ids are the tables' autoincrement keys. */
module Store {
  import opened Options
  import opened Seqs

  datatype Estudiante = Estudiante(
    id: int,
    nombre: string,
    apellido: string,
    foto: string,
    especialidad: string,
    nivel: string,
    puntos: int,
    tutorId: int)

  datatype Asistencia = Asistencia(
    id: int,
    fecha: int,
    estado: string,
    clase: string,
    estudianteId: int,
    maestroId: int)

  datatype Pago = Pago(
    id: int,
    concepto: string,
    monto: int,
    fechaVenc: int,
    estado: string,
    tutorId: int,
    estudianteNombre: string)

  datatype Pauta = Pauta(
    id: int,
    fecha: int,
    uniforme: string,
    disciplina: int,
    participacion: int,
    progreso: string,
    comentarios: string,
    estudianteId: int,
    maestroId: int)

  function EstudianteKey(e: Estudiante): int { e.id }
  function AsistenciaKey(a: Asistencia): int { a.id }
  function PagoKey(p: Pago): int { p.id }
  function PautaKey(p: Pauta): int { p.id }

  /** A primary key: no two rows share an id. */
  ghost predicate DistinctIds<T>(s: seq<T>, key: T -> int)
  {
    forall i, j :: 0 <= i < j < |s| ==> key(s[i]) != key(s[j])
  }

  /** Every id is below the next autoincrement value. */
  ghost predicate IdsBelow<T>(s: seq<T>, key: T -> int, bound: int)
  {
    forall i :: 0 <= i < |s| ==> key(s[i]) < bound
  }

  /** Position of the row with the given id: `findUnique({ where: { id } })`. */
  function IndexOfEstudiante(s: seq<Estudiante>, id: int): (r: Option<nat>)
    ensures r.Some? ==> r.value < |s| && s[r.value].id == id
    ensures r.None? ==> forall j :: 0 <= j < |s| ==> s[j].id != id
  {
    FirstIndex(s, (e: Estudiante) => e.id == id)
  }

  function IndexOfPago(s: seq<Pago>, id: int): (r: Option<nat>)
    ensures r.Some? ==> r.value < |s| && s[r.value].id == id
    ensures r.None? ==> forall j :: 0 <= j < |s| ==> s[j].id != id
  {
    FirstIndex(s, (p: Pago) => p.id == id)
  }

  /** With distinct ids, two different rows never share an id. */
  lemma DistinctRows<T>(s: seq<T>, key: T -> int, i: nat, j: nat)
    requires DistinctIds(s, key)
    requires i < |s| && j < |s| && i != j
    ensures key(s[i]) != key(s[j])
  {
    if j < i {
      assert key(s[j]) != key(s[i]);
    }
  }

  /** Appending a row keyed by the next autoincrement value keeps the key
      primary and advances the counter. */
  lemma AppendFresh<T>(s: seq<T>, key: T -> int, bound: int, x: T)
    requires DistinctIds(s, key) && IdsBelow(s, key, bound)
    requires key(x) == bound
    ensures DistinctIds(s + [x], key) && IdsBelow(s + [x], key, bound + 1)
  {
    var t := s + [x];
    forall i, j | 0 <= i < j < |t|
      ensures key(t[i]) != key(t[j])
    {
      if j < |s| {
        assert t[i] == s[i] && t[j] == s[j];
      } else {
        assert t[i] == s[i] && key(s[i]) < bound;
      }
    }
  }

  /** Replacing a row by one with the same key keeps the key primary. */
  lemma ReplaceSameKey<T>(s: seq<T>, key: T -> int, i: nat, x: T)
    requires DistinctIds(s, key)
    requires i < |s| && key(x) == key(s[i])
    ensures DistinctIds(s[i := x], key)
    ensures forall bound :: IdsBelow(s, key, bound) ==> IdsBelow(s[i := x], key, bound)
  {
    var t := s[i := x];
    forall a, b | 0 <= a < b < |t|
      ensures key(t[a]) != key(t[b])
    {
      assert key(t[a]) == key(s[a]) && key(t[b]) == key(s[b]);
    }
    forall bound | IdsBelow(s, key, bound)
      ensures IdsBelow(t, key, bound)
    {
      forall a | 0 <= a < |t|
        ensures key(t[a]) < bound
      {
        assert key(t[a]) == key(s[a]);
      }
    }
  }

  class Db {
    var estudiantes: seq<Estudiante>
    var asistencias: seq<Asistencia>
    var pagos: seq<Pago>
    var pautas: seq<Pauta>
    var nextAsistenciaId: int
    var nextPautaId: int

    ghost predicate Valid()
      reads this
    {
      && DistinctIds(estudiantes, EstudianteKey)
      && DistinctIds(asistencias, AsistenciaKey)
      && DistinctIds(pagos, PagoKey)
      && DistinctIds(pautas, PautaKey)
      && IdsBelow(asistencias, AsistenciaKey, nextAsistenciaId)
      && IdsBelow(pautas, PautaKey, nextPautaId)
    }

    /** An empty database whose autoincrement counters start at 1. */
    constructor ()
      ensures Valid()
      ensures estudiantes == [] && asistencias == [] && pagos == [] && pautas == []
      ensures nextAsistenciaId == 1 && nextPautaId == 1
    {
      estudiantes, asistencias, pagos, pautas := [], [], [], [];
      nextAsistenciaId, nextPautaId := 1, 1;
    }
  }
}
