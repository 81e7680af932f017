/** The database as mutable state, the way the request handlers use it: one
    map per table, rows read, flags and references assigned in place, rows
    inserted under the next primary key. Each handler is a method whose new
    state and outcome are the ones the matching function of `Views` gives, so
    every property proved there about the function holds of the method. */
module Persistence {
  import opened Models
  import opened Invariants
  import Views

  class Store {
    var users: map<UserId, string>
    var perfis: map<UserId, Perfil>
    var servicos: map<ServiceId, Servico>
    var horarios: map<SlotId, Horario>
    var agendamentos: map<BookingId, Agendamento>
    var proximoServico: nat
    var proximoHorario: nat
    var proximoAgendamento: nat

    /** The current contents of every table. */
    function Tabelas(): Tables
      reads this
    {
      Tables(users, perfis, servicos, horarios, agendamentos, proximoServico, proximoHorario, proximoAgendamento)
    }

    ghost predicate Valid()
      reads this
    {
      WellFormed(Tabelas())
    }

    constructor (t: Tables)
      requires WellFormed(t)
      ensures Valid() && Tabelas() == t
    {
      users := t.users;
      perfis := t.perfis;
      servicos := t.servicos;
      horarios := t.horarios;
      agendamentos := t.agendamentos;
      proximoServico := t.proximoServico;
      proximoHorario := t.proximoHorario;
      proximoAgendamento := t.proximoAgendamento;
    }

    /** Batch creation of slots: one insert per non-empty time of the list. */
    method CadastrarHorario(caller: UserId, post: bool, data: Option<Date>, servicoId: Option<ServiceId>, selecionados: string)
      returns (outcome: Views.Outcome)
      requires Valid()
      modifies this
      ensures Valid()
      ensures Views.Step(Tabelas(), outcome) == Views.CadastrarHorario(old(Tabelas()), caller, post, data, servicoId, selecionados)
      ensures Consistent(old(Tabelas())) ==> Consistent(Tabelas())
    {
      ghost var antes := Tabelas();
      ghost var esperado := Views.CadastrarHorario(antes, caller, post, data, servicoId, selecionados);
      if caller !in perfis {
        return Views.NoProfile;
      }
      if !perfis[caller].isProfissional {
        return Views.Forbidden;
      }
      if !post {
        return Views.Shown;
      }
      if servicoId.None? {
        return Views.Invalid;
      }
      if servicoId.value !in servicos {
        return Views.NoSuchRow;
      }
      var pecas := Views.Split(selecionados, ',');
      if data.None? || |pecas| == 0 {
        return Views.Invalid;
      }
      InserirHorarios(caller, servicoId.value, data.value, pecas);
      assert Tabelas() == esperado.tables;
      Views.CadastrarHorarioPreserva(antes, caller, post, data, servicoId, selecionados);
      return Views.Done;
    }

    /** The loop of batch creation: one insert, under the next key, per
        non-empty time of the list, in order. */
    method InserirHorarios(caller: UserId, servico: ServiceId, dia: Date, pecas: seq<Time>)
      modifies this
      ensures Tabelas() == Views.InserirHorarios(old(Tabelas()), caller, servico, dia, Views.NaoVazios(pecas))
    {
      ghost var antes := Tabelas();
      ghost var feitas: seq<Time> := [];
      var i := 0;
      assert Views.NovosHorarios(proximoHorario, caller, servico, dia, feitas) == map[];
      assert Tabelas() == Views.InserirHorarios(antes, caller, servico, dia, feitas);
      while i < |pecas|
        invariant 0 <= i <= |pecas|
        invariant feitas == Views.NaoVazios(pecas[..i])
        invariant Tabelas() == Views.InserirHorarios(antes, caller, servico, dia, feitas)
      {
        var hora := pecas[i];
        assert pecas[..i + 1] == pecas[..i] + [hora];
        Views.NaoVaziosMaisUm(pecas[..i], hora);
        if hora != "" {
          Views.InserirHorariosMaisUm(antes, caller, servico, dia, feitas, hora);
          AcrescentarHorario(Horario(caller, servico, dia, hora));
          feitas := feitas + [hora];
        }
        i := i + 1;
      }
      assert pecas[..|pecas|] == pecas;
    }

    /** Reserving: flag the first matching open slot as taken and insert the booking. */
    method AgendarServico(caller: UserId, post: bool, servicoId: Option<ServiceId>, profissionalId: Option<UserId>,
                          data: Option<Date>, hora: Time, agora: Timestamp)
      returns (outcome: Views.Outcome)
      requires Valid()
      modifies this
      ensures Valid()
      ensures Views.Step(Tabelas(), outcome) ==
        Views.AgendarServico(old(Tabelas()), caller, post, servicoId, profissionalId, data, hora, agora)
      ensures Consistent(old(Tabelas())) ==> Consistent(Tabelas())
      ensures ProfissionaisCoincidem(old(Tabelas())) ==> ProfissionaisCoincidem(Tabelas())
    {
      ghost var antes := Tabelas();
      ghost var esperado := Views.AgendarServico(antes, caller, post, servicoId, profissionalId, data, hora, agora);
      if caller !in perfis {
        return Views.NoProfile;
      }
      if perfis[caller].isProfissional {
        return Views.Forbidden;
      }
      if !post {
        return Views.Shown;
      }
      if servicoId.None? || profissionalId.None? || data.None? || hora == "" {
        return Views.Invalid;
      }
      if servicoId.value !in servicos || profissionalId.value !in users {
        return Views.NoSuchRow;
      }
      var livre := Views.PrimeiroLivre(Tabelas(), profissionalId.value, data.value, hora);
      if livre.None? {
        return Views.Unavailable;
      }
      var h := livre.value;
      FecharHorario(h);
      agendamentos := agendamentos[proximoAgendamento := Agendamento(caller, profissionalId.value, servicoId.value, h, agora)];
      proximoAgendamento := proximoAgendamento + 1;
      assert Tabelas() == esperado.tables;
      Views.AgendarServicoPreserva(antes, caller, post, servicoId, profissionalId, data, hora, agora);
      return Views.Done;
    }

    /** Cancelling: reopen the booking's slot and delete the booking. */
    method CancelarAgendamento(caller: UserId, post: bool, id: BookingId) returns (outcome: Views.Outcome)
      requires Valid()
      modifies this
      ensures Valid()
      ensures Views.Step(Tabelas(), outcome) == Views.CancelarAgendamento(old(Tabelas()), caller, post, id)
      ensures Consistent(old(Tabelas())) ==> Consistent(Tabelas())
      ensures ProfissionaisCoincidem(old(Tabelas())) ==> ProfissionaisCoincidem(Tabelas())
    {
      ghost var antes := Tabelas();
      ghost var esperado := Views.CancelarAgendamento(antes, caller, post, id);
      if id !in agendamentos {
        return Views.NotFound;
      }
      var a := agendamentos[id];
      if caller != a.cliente && caller != a.profissional {
        return Views.Forbidden;
      }
      if !post {
        return Views.Shown;
      }
      AbrirHorario(a.horario);
      agendamentos := agendamentos - {id};
      assert Tabelas() == esperado.tables;
      Views.CancelarAgendamentoPreserva(antes, caller, post, id);
      return Views.Done;
    }

    /** Rescheduling: reopen the old slot, then rebind the booking to the first
        matching open slot and flag it taken, if there is one. */
    method EditarAgendamento(caller: UserId, post: bool, id: BookingId, novaData: Option<Date>, novaHora: Time)
      returns (outcome: Views.Outcome)
      requires Valid()
      modifies this
      ensures Valid()
      ensures Views.Step(Tabelas(), outcome) == Views.EditarAgendamento(old(Tabelas()), caller, post, id, novaData, novaHora)
      ensures outcome != Views.Unavailable && Consistent(old(Tabelas())) ==> Consistent(Tabelas())
      ensures outcome == Views.Unavailable && Consistent(old(Tabelas())) ==>
        ReservadosComReserva(Tabelas()) && ReservaUnica(Tabelas()) && !AbertosSemReserva(Tabelas())
      ensures ProfissionaisCoincidem(old(Tabelas())) ==> ProfissionaisCoincidem(Tabelas())
    {
      ghost var antes := Tabelas();
      ghost var esperado := Views.EditarAgendamento(antes, caller, post, id, novaData, novaHora);
      if id !in agendamentos || agendamentos[id].profissional != caller {
        return Views.NotFound;
      }
      if !post {
        return Views.Shown;
      }
      if novaData.None? || novaHora == "" {
        return Views.Invalid;
      }
      var a := agendamentos[id];
      AbrirHorario(a.horario);
      var novo := Views.PrimeiroLivre(Tabelas(), caller, novaData.value, novaHora);
      if novo.None? {
        assert Tabelas() == esperado.tables;
        Views.EditarAgendamentoPreserva(antes, caller, post, id, novaData, novaHora);
        if Consistent(antes) {
          Views.EditarAgendamentoFalhoLiberaHorarioOcupado(antes, caller, post, id, novaData, novaHora);
        }
        return Views.Unavailable;
      }
      var h := novo.value;
      agendamentos := agendamentos[id := a.(horario := h)];
      FecharHorario(h);
      assert Tabelas() == esperado.tables;
      Views.EditarAgendamentoPreserva(antes, caller, post, id, novaData, novaHora);
      return Views.Done;
    }

    /** Inserts one slot under the next key. */
    method AcrescentarHorario(h: Horario)
      modifies this
      ensures Tabelas() == old(Tabelas()).(horarios := old(horarios)[old(proximoHorario) := h], proximoHorario := old(proximoHorario) + 1)
    {
      horarios := horarios[proximoHorario := h];
      proximoHorario := proximoHorario + 1;
    }

    /** Flags slot s open. */
    method AbrirHorario(s: SlotId)
      requires s in horarios
      modifies this
      ensures Tabelas() == Views.Liberar(old(Tabelas()), s)
    {
      horarios := horarios[s := horarios[s].(disponivel := true)];
    }

    /** Flags slot s reserved. */
    method FecharHorario(s: SlotId)
      requires s in horarios
      modifies this
      ensures Tabelas() == Views.Ocupar(old(Tabelas()), s)
    {
      horarios := horarios[s := horarios[s].(disponivel := false)];
    }

    /** Editing a slot: overwrite its date and time. */
    method EditarHorario(caller: UserId, post: bool, id: SlotId, novaData: Option<Date>, novaHora: Time)
      returns (outcome: Views.Outcome)
      requires Valid()
      modifies this
      ensures Valid()
      ensures Views.Step(Tabelas(), outcome) == Views.EditarHorario(old(Tabelas()), caller, post, id, novaData, novaHora)
      ensures Consistent(old(Tabelas())) ==> Consistent(Tabelas())
    {
      ghost var antes := Tabelas();
      ghost var esperado := Views.EditarHorario(antes, caller, post, id, novaData, novaHora);
      if id !in horarios || horarios[id].profissional != caller {
        return Views.NotFound;
      }
      if !post {
        return Views.Shown;
      }
      if novaData.None? || novaHora == "" {
        return Views.Invalid;
      }
      horarios := horarios[id := horarios[id].(data := novaData.value, hora := novaHora)];
      assert Tabelas() == esperado.tables;
      Views.EditarHorarioPreserva(antes, caller, post, id, novaData, novaHora);
      return Views.Done;
    }

    /** Deleting a slot; the database cascade takes its bookings. */
    method ExcluirHorario(caller: UserId, post: bool, id: SlotId) returns (outcome: Views.Outcome)
      requires Valid()
      modifies this
      ensures Valid()
      ensures Views.Step(Tabelas(), outcome) == Views.ExcluirHorario(old(Tabelas()), caller, post, id)
      ensures Consistent(old(Tabelas())) ==> Consistent(Tabelas())
    {
      ghost var antes := Tabelas();
      ghost var esperado := Views.ExcluirHorario(antes, caller, post, id);
      if id !in horarios || horarios[id].profissional != caller {
        return Views.NotFound;
      }
      if !post {
        return Views.Shown;
      }
      var depois := ExcluirHorarioCascata(Tabelas(), id);
      horarios := depois.horarios;
      agendamentos := depois.agendamentos;
      assert Tabelas() == esperado.tables;
      if Consistent(antes) {
        ExcluirHorarioPreservaConsistencia(antes, id);
      }
      return Views.Done;
    }

    /** Creating a service: insert it for the caller and link it to their profile. */
    method CriarServico(caller: UserId, post: bool, form: Option<Views.DadosServico>) returns (outcome: Views.Outcome)
      requires Valid()
      modifies this
      ensures Valid()
      ensures Views.Step(Tabelas(), outcome) == Views.CriarServico(old(Tabelas()), caller, post, form)
      ensures Consistent(old(Tabelas())) ==> Consistent(Tabelas())
    {
      ghost var antes := Tabelas();
      ghost var esperado := Views.CriarServico(antes, caller, post, form);
      if caller !in perfis {
        return Views.NoProfile;
      }
      if !perfis[caller].isProfissional {
        return Views.Forbidden;
      }
      if !post {
        return Views.Shown;
      }
      if form.None? {
        return Views.Invalid;
      }
      var f := form.value;
      var s := proximoServico;
      servicos := servicos[s := Servico(caller, f.nome, f.descricao, f.preco, f.duracao)];
      proximoServico := proximoServico + 1;
      var perfil := perfis[caller];
      perfis := perfis[caller := perfil.(servicos := perfil.servicos + {s})];
      assert Tabelas() == esperado.tables;
      Views.CriarServicoPreserva(antes, caller, post, form);
      return Views.Done;
    }

    /** Editing a service: overwrite its fields and make sure the owner's profile links it. */
    method EditarServico(caller: UserId, post: bool, id: ServiceId, form: Option<Views.DadosServico>)
      returns (outcome: Views.Outcome)
      requires Valid()
      modifies this
      ensures Valid()
      ensures Views.Step(Tabelas(), outcome) == Views.EditarServico(old(Tabelas()), caller, post, id, form)
      ensures Consistent(old(Tabelas())) ==> Consistent(Tabelas())
    {
      ghost var antes := Tabelas();
      ghost var esperado := Views.EditarServico(antes, caller, post, id, form);
      if id !in servicos || servicos[id].profissional != caller {
        return Views.NotFound;
      }
      if caller !in perfis {
        return Views.NoProfile;
      }
      if !post {
        return Views.Shown;
      }
      if form.None? {
        return Views.Invalid;
      }
      var f := form.value;
      servicos := servicos[id := Servico(caller, f.nome, f.descricao, f.preco, f.duracao)];
      var perfil := perfis[caller];
      if id !in perfil.servicos {
        perfis := perfis[caller := perfil.(servicos := perfil.servicos + {id})];
      }
      assert perfil.servicos + {id} == perfil.servicos || id !in perfil.servicos;
      assert Tabelas() == esperado.tables;
      Views.EditarServicoPreserva(antes, caller, post, id, form);
      return Views.Done;
    }

    /** Deleting a service; the database cascade takes its slots and bookings. */
    method ExcluirServico(caller: UserId, post: bool, id: ServiceId) returns (outcome: Views.Outcome)
      requires Valid()
      modifies this
      ensures Valid()
      ensures Views.Step(Tabelas(), outcome) == Views.ExcluirServico(old(Tabelas()), caller, post, id)
      ensures Consistent(old(Tabelas())) && ServicosCoincidem(old(Tabelas())) ==> Consistent(Tabelas())
    {
      ghost var antes := Tabelas();
      ghost var esperado := Views.ExcluirServico(antes, caller, post, id);
      if id !in servicos || servicos[id].profissional != caller {
        return Views.NotFound;
      }
      if !post {
        return Views.Shown;
      }
      var depois := ExcluirServicoCascata(Tabelas(), id);
      perfis := depois.perfis;
      servicos := depois.servicos;
      horarios := depois.horarios;
      agendamentos := depois.agendamentos;
      assert Tabelas() == esperado.tables;
      Views.ExcluirServicoPreserva(antes, caller, post, id);
      return Views.Done;
    }
  }
}
