/** app/api/pagos/route.ts: a tutor's payments with their status as of now
    (an unpaid payment past its due date reads as overdue), and the action
    that records a payment as paid. */
module PagosRoute {
  import opened Options
  import opened Common
  import opened Seqs
  import opened Store

  const PAGADO: string := "pagado"
  const VENCIDO: string := "vencido"

  /** The status a payment is shown with at time `now`: a paid payment is
      shown as stored; an unpaid one whose due date is strictly before now is
      shown as overdue; any other is shown as stored. */
  function WithStatus(p: Pago, now: int): (q: Pago)
    ensures q == p.(estado := q.estado)
    ensures q.estado == PAGADO <==> p.estado == PAGADO
    ensures q.estado == VENCIDO <==> p.estado == VENCIDO || (p.estado != PAGADO && p.fechaVenc < now)
    ensures p.estado == PAGADO || now <= p.fechaVenc ==> q == p
  {
    if p.estado == PAGADO then p
    else if p.fechaVenc < now then p.(estado := VENCIDO)
    else p
  }

  /** Deriving the status twice is deriving it once. */
  lemma WithStatusIdempotent(p: Pago, now: int)
    ensures WithStatus(WithStatus(p, now), now) == WithStatus(p, now)
  {
  }

  /** Once overdue, a payment stays overdue as time passes. */
  lemma OverdueStaysOverdue(p: Pago, now: int, later: int)
    requires now <= later
    requires WithStatus(p, now).estado == VENCIDO
    ensures WithStatus(p, later).estado == VENCIDO
  {
  }

  /** `pagos.map(...)`: each payment with its status at `now`, in order. */
  function WithStatuses(s: seq<Pago>, now: int): (r: seq<Pago>)
    ensures |r| == |s|
    ensures forall i :: 0 <= i < |s| ==> r[i] == WithStatus(s[i], now)
  {
    if s == [] then [] else [WithStatus(s[0], now)] + WithStatuses(s[1..], now)
  }

  /** `where: { tutorId }`: the payments one tutor owes. */
  function OwnedBy(pagos: seq<Pago>, tutorId: int): (r: seq<Pago>)
    ensures forall p :: p in r <==> p in pagos && p.tutorId == tutorId
  {
    Filter(pagos, (p: Pago) => p.tutorId == tutorId)
  }

  function ByFechaVenc(p: Pago): int
  {
    p.fechaVenc
  }

  /** The owned payments by ascending due date, with their status at `now`,
      are all of that tutor. */
  lemma SortedOwned(pagos: seq<Pago>, tutorId: int, now: int)
    ensures forall i :: 0 <= i < |OwnedBy(pagos, tutorId)| ==>
      WithStatuses(SortBy(OwnedBy(pagos, tutorId), ByFechaVenc), now)[i].tutorId == tutorId
  {
    var owned := OwnedBy(pagos, tutorId);
    var sorted := SortBy(owned, ByFechaVenc);
    var r := WithStatuses(sorted, now);
    forall i | 0 <= i < |r|
      ensures r[i].tutorId == tutorId
    {
      assert sorted[i] in multiset(owned) by { assert sorted[i] in multiset(sorted); }
      assert r[i] == WithStatus(sorted[i], now);
    }
  }

  /** The list a tutor is shown: as many entries as the tutor owes, all of
      that tutor, by ascending due date, each with its status at `now`. */
  function Statement(pagos: seq<Pago>, tutorId: int, now: int): (r: seq<Pago>)
    ensures |r| == |OwnedBy(pagos, tutorId)|
    ensures forall i :: 0 <= i < |r| ==> r[i].tutorId == tutorId
    ensures forall i, j :: 0 <= i < j < |r| ==> r[i].fechaVenc <= r[j].fechaVenc
  {
    SortedOwned(pagos, tutorId, now);
    WithStatuses(SortBy(OwnedBy(pagos, tutorId), ByFechaVenc), now)
  }

  /** Every payment the tutor owes is listed, with its status at `now`. */
  lemma StatementComplete(pagos: seq<Pago>, tutorId: int, now: int, p: Pago)
    requires p in pagos && p.tutorId == tutorId
    ensures WithStatus(p, now) in Statement(pagos, tutorId, now)
  {
    var sorted := SortBy(OwnedBy(pagos, tutorId), ByFechaVenc);
    assert p in multiset(sorted);
    var k :| 0 <= k < |sorted| && sorted[k] == p;
    assert Statement(pagos, tutorId, now)[k] == WithStatus(p, now);
  }

  /** Every listed entry is one of the tutor's payments with its status at
      `now`; `source` is that payment. */
  lemma StatementSound(pagos: seq<Pago>, tutorId: int, now: int, k: nat) returns (source: Pago)
    requires k < |Statement(pagos, tutorId, now)|
    ensures source in pagos && source.tutorId == tutorId
    ensures Statement(pagos, tutorId, now)[k] == WithStatus(source, now)
  {
    var sorted := SortBy(OwnedBy(pagos, tutorId), ByFechaVenc);
    source := sorted[k];
    assert source in multiset(sorted);
  }

  /** GET /api/pagos: the signed-in user's statement. A non-numeric session
      id makes the query fail (500). */
  function Get(session: Option<Session>, pagos: seq<Pago>, now: int): (resp: Response<seq<Pago>>)
    ensures session.None? <==> resp == Unauthorized
    ensures resp == InternalError <==> session.Some? && SessionUserId(session.value).None?
    ensures resp.Ok? ==> resp.body == Statement(pagos, SessionUserId(session.value).value, now)
  {
    if session.None? then Unauthorized
    else if SessionUserId(session.value).None? then InternalError
    else Ok(Statement(pagos, SessionUserId(session.value).value, now))
  }

  /** `pago.update({ where: { id }, data: { estado: 'pagado' } })` as a
      function of the table. */
  function MarkPaid(s: seq<Pago>, id: int): (r: seq<Pago>)
    ensures |r| == |s|
    ensures forall i :: 0 <= i < |s| ==> r[i] == if s[i].id == id then s[i].(estado := PAGADO) else s[i]
  {
    if s == [] then [] else [if s[0].id == id then s[0].(estado := PAGADO) else s[0]] + MarkPaid(s[1..], id)
  }

  /** Paying twice is paying once. */
  lemma {:induction false} MarkPaidIdempotent(s: seq<Pago>, id: int)
    ensures MarkPaid(MarkPaid(s, id), id) == MarkPaid(s, id)
  {
    if s != [] {
      MarkPaidIdempotent(s[1..], id);
      assert MarkPaid(s, id)[1..] == MarkPaid(s[1..], id);
    }
  }

  /** A paid payment is shown as paid at any time, and every other payment
      is shown exactly as before the action. */
  lemma PaidIsShownPaid(s: seq<Pago>, id: int, now: int)
    ensures forall i :: 0 <= i < |s| && s[i].id == id ==> WithStatus(MarkPaid(s, id)[i], now).estado == PAGADO
    ensures forall i :: 0 <= i < |s| && s[i].id != id ==> WithStatus(MarkPaid(s, id)[i], now) == WithStatus(s[i], now)
  {
  }

  /** The in-place update of the row at `i` is the update by id, because
      ids are distinct. */
  lemma UpdateRowIsMarkPaid(s: seq<Pago>, i: nat)
    requires DistinctIds(s, PagoKey)
    requires i < |s|
    ensures s[i := s[i].(estado := PAGADO)] == MarkPaid(s, s[i].id)
  {
    var r := s[i := s[i].(estado := PAGADO)];
    var m := MarkPaid(s, s[i].id);
    forall j | 0 <= j < |s|
      ensures r[j] == m[j]
    {
      if j != i {
        DistinctRows(s, PagoKey, i, j);
      }
    }
    assert r == m;
  }

  /** POST /api/pagos: any signed-in user may mark any payment, by id, as
      paid; there is no ownership check. An unknown id makes the update throw
      (500). */
  method Post(db: Db, session: Option<Session>, pagoId: int) returns (resp: Response<Pago>)
    requires db.Valid()
    modifies db`pagos
    ensures db.Valid()
    ensures resp == Unauthorized <==> session.None?
    ensures resp.Ok? <==> session.Some? && IndexOfPago(old(db.pagos), pagoId).Some?
    ensures !resp.Ok? ==> unchanged(db)
    ensures resp.Ok? ==>
      && db.pagos == MarkPaid(old(db.pagos), pagoId)
      && resp.body == old(db.pagos)[IndexOfPago(old(db.pagos), pagoId).value].(estado := PAGADO)
  {
    if session.None? {
      return Unauthorized;
    }
    var index := IndexOfPago(db.pagos, pagoId);
    if index.None? {
      return InternalError;
    }
    var i := index.value;
    var paid := db.pagos[i].(estado := PAGADO);
    UpdateRowIsMarkPaid(db.pagos, i);
    ReplaceSameKey(db.pagos, PagoKey, i, paid);
    db.pagos := db.pagos[i := paid];
    assert db.Valid();
    resp := Ok(paid);
  }
}
