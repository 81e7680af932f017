/** The reservation invariant over the slot and booking tables, and what the
    delete cascades do to it. */
module Invariants {
  import opened Models

  /** The bookings that reference slot s. */
  function ReservasDe(agendamentos: map<BookingId, Agendamento>, s: SlotId): set<BookingId> {
    set b | b in agendamentos && agendamentos[b].horario == s
  }

  /** An open slot has no booking. */
  ghost predicate AbertosSemReserva(t: Tables) {
    forall s :: s in t.horarios && t.horarios[s].disponivel ==> ReservasDe(t.agendamentos, s) == {}
  }

  /** A reserved slot has a booking. */
  ghost predicate ReservadosComReserva(t: Tables) {
    forall s :: s in t.horarios && !t.horarios[s].disponivel ==> ReservasDe(t.agendamentos, s) != {}
  }

  /** No two bookings share a slot. */
  ghost predicate ReservaUnica(t: Tables) {
    forall b1, b2 :: b1 in t.agendamentos && b2 in t.agendamentos && t.agendamentos[b1].horario == t.agendamentos[b2].horario
      ==> b1 == b2
  }

  /** The reservation invariant: a slot is either open with no booking, or
      reserved with exactly one (see ExatamenteUmaReserva). */
  ghost predicate Consistent(t: Tables) {
    AbertosSemReserva(t) && ReservadosComReserva(t) && ReservaUnica(t)
  }

  /** Every booking's professional owns the booking's slot. */
  ghost predicate ProfissionaisCoincidem(t: Tables) {
    forall b :: b in t.agendamentos && t.agendamentos[b].horario in t.horarios ==>
      t.agendamentos[b].profissional == t.horarios[t.agendamentos[b].horario].profissional
  }

  /** Every booking is for the service of its slot. */
  ghost predicate ServicosCoincidem(t: Tables) {
    forall b :: b in t.agendamentos && t.agendamentos[b].horario in t.horarios ==>
      t.agendamentos[b].servico == t.horarios[t.agendamentos[b].horario].servico
  }

  lemma {:induction false} UnicaComoConjunto(t: Tables, b: BookingId)
    requires ReservaUnica(t) && b in t.agendamentos
    ensures ReservasDe(t.agendamentos, t.agendamentos[b].horario) == {b}
  {
  }

  /** The invariant in counting form: an open slot is referenced by no booking,
      a reserved one by exactly one. */
  lemma {:induction false} ExatamenteUmaReserva(t: Tables, s: SlotId)
    requires Consistent(t) && s in t.horarios
    ensures |ReservasDe(t.agendamentos, s)| == if t.horarios[s].disponivel then 0 else 1
  {
    if !t.horarios[s].disponivel {
      var b :| b in ReservasDe(t.agendamentos, s);
      UnicaComoConjunto(t, b);
    }
  }

  /** Deleting a slot keeps the invariant: only the bookings of that slot go. */
  lemma {:induction false} ExcluirHorarioPreservaConsistencia(t: Tables, h: SlotId)
    requires Consistent(t)
    ensures Consistent(ExcluirHorarioCascata(t, h))
  {
    var r := ExcluirHorarioCascata(t, h);
    forall k | k in r.horarios
      ensures ReservasDe(r.agendamentos, k) == ReservasDe(t.agendamentos, k)
    {
    }
  }

  /** Deleting a service keeps the invariant as long as every booking is for the
      service of its slot: then no booking of the service sits on a slot of
      another service. */
  lemma {:induction false} ExcluirServicoPreservaConsistencia(t: Tables, s: ServiceId)
    requires Consistent(t) && ServicosCoincidem(t)
    ensures Consistent(ExcluirServicoCascata(t, s))
  {
    var r := ExcluirServicoCascata(t, s);
    forall k | k in r.horarios
      ensures ReservasDe(r.agendamentos, k) == ReservasDe(t.agendamentos, k)
    {
      assert t.horarios[k].servico != s;
    }
  }

  /** A database where the booking of slot 0 is for service 1 while the slot
      belongs to service 0, as reserving lets happen. */
  function ServicoTrocado(): (t: Tables)
    ensures WellFormed(t) && Consistent(t)
  {
    var t := Tables(
      map[1 := "prof", 2 := "cliente"],
      map[],
      map[0 := Servico(1, "Corte", None, 5000, 30), 1 := Servico(1, "Barba", None, 3000, 20)],
      map[0 := Horario(1, 0, 10, "09", false)],
      map[0 := Agendamento(2, 1, 1, 0, 0)],
      2, 1, 1);
    assert ReservasDe(t.agendamentos, 0) == {0};
    t
  }

  /** Without that agreement, deleting a service can remove the booking of a slot
      of another service and leave that slot reserved with no booking. */
  lemma ExcluirServicoPodeDeixarHorarioPreso()
    ensures !ReservadosComReserva(ExcluirServicoCascata(ServicoTrocado(), 1))
  {
    var r := ExcluirServicoCascata(ServicoTrocado(), 1);
    assert 0 in r.horarios && !r.horarios[0].disponivel;
    assert ReservasDe(r.agendamentos, 0) == {};
  }

  /** Deleting a user keeps referential integrity: no foreign key is left dangling. */
  lemma {:induction false} ExcluirUsuarioPreservaIntegridade(t: Tables, u: UserId)
    requires WellFormed(t)
    ensures WellFormed(ExcluirUsuarioCascata(t, u))
  {
    var r := ExcluirUsuarioCascata(t, u);
    var servs := ServicosDoUsuario(t, u);
    forall h | h in r.horarios
      ensures r.horarios[h].servico in r.servicos && r.horarios[h].profissional in r.users
    {
      assert h !in HorariosDoUsuario(t, u);
    }
    forall b | b in r.agendamentos
      ensures ReservaValida(r.agendamentos[b], r.users.Keys, r.servicos.Keys, r.horarios.Keys)
    {
      var a := t.agendamentos[b];
      assert Sobrevive(a, u, servs, HorariosDoUsuario(t, u));
      assert a.servico !in servs;
    }
  }

  /** Deleting a user keeps open slots unbooked and bookings unique. */
  lemma {:induction false} ExcluirUsuarioPreservaAbertosEUnica(t: Tables, u: UserId)
    requires AbertosSemReserva(t) && ReservaUnica(t)
    ensures AbertosSemReserva(ExcluirUsuarioCascata(t, u)) && ReservaUnica(ExcluirUsuarioCascata(t, u))
  {
    var r := ExcluirUsuarioCascata(t, u);
    forall k | k in r.horarios
      ensures ReservasDe(r.agendamentos, k) <= ReservasDe(t.agendamentos, k)
    {
    }
  }

  /** A database with one reserved slot, booked by client 2. */
  function UmaReserva(): (t: Tables)
    ensures WellFormed(t) && Consistent(t)
  {
    var t := Tables(
      map[1 := "prof", 2 := "cliente"],
      map[],
      map[0 := Servico(1, "Corte", None, 5000, 30)],
      map[0 := Horario(1, 0, 10, "09", false)],
      map[0 := Agendamento(2, 1, 0, 0, 0)],
      1, 1, 1);
    assert ReservasDe(t.agendamentos, 0) == {0};
    t
  }

  /** But deleting a client removes their booking and leaves its slot reserved
      with no booking: the slot is never offered again. */
  lemma ExcluirClienteDeixaHorarioPreso()
    ensures !ReservadosComReserva(ExcluirUsuarioCascata(UmaReserva(), 2))
  {
    var r := ExcluirUsuarioCascata(UmaReserva(), 2);
    assert 0 in r.horarios && !r.horarios[0].disponivel;
    assert ReservasDe(r.agendamentos, 0) == {};
  }
}
