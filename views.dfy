/** The request handlers of the booking application as functions from the
    database before a request to the database after it and the request's
    outcome, together with the read-only lookups they and the pages use. The
    caller's identity and the request method are parameters; a form field that
    is missing or empty is `None` (or "" for a time). */
module Views {
  import opened Models
  import opened Invariants

  /** How a request ends. `Done`: the write happened; `Shown`: a page was
      rendered for a GET; `Invalid`: a required field was missing; `NotFound`: the
      row is absent or not the caller's (a 404); `Forbidden`: the role or
      participant guard refused; `Unavailable`: no open slot matched; `NoProfile`:
      the caller has no profile; `NoSuchRow`: a looked-up row does not exist (the
      lookup raises and the request fails). */
  datatype Outcome = Done | Shown | Invalid | NotFound | Forbidden | Unavailable | NoProfile | NoSuchRow

  datatype Step = Step(tables: Tables, outcome: Outcome)

  datatype Result<T> = Ok(value: T) | Err(outcome: Outcome)

  // ---------------------------------------------------------------------------
  // Splitting the submitted list of times on commas, as str.split does.

  function Split(s: string, sep: char): (r: seq<string>)
    ensures |r| >= 1
    ensures forall i :: 0 <= i < |r| ==> sep !in r[i]
  {
    if s == [] then [""]
    else
      var rest := Split(s[1..], sep);
      if s[0] == sep then [""] + rest
      else [[s[0]] + rest[0]] + rest[1..]
  }

  /** The inverse of Split: the pieces glued back with the separator. */
  function Join(parts: seq<string>, sep: char): string
    requires |parts| >= 1
  {
    if |parts| == 1 then parts[0] else parts[0] + [sep] + Join(parts[1..], sep)
  }

  lemma {:induction false} JoinSplit(s: string, sep: char)
    ensures Join(Split(s, sep), sep) == s
  {
    if s != [] {
      var rest := Split(s[1..], sep);
      JoinSplit(s[1..], sep);
      if s[0] == sep {
        assert s == [sep] + s[1..];
      } else {
        assert Split(s, sep)[1..] == rest[1..];
        if |rest| == 1 {
          assert s == [s[0]] + rest[0];
        } else {
          assert s == [s[0]] + (rest[0] + [sep] + Join(rest[1..], sep));
        }
      }
    }
  }

  /** Splitting a piece with no separator in front of a tail extends the first piece of the tail. */
  lemma {:induction false} SplitPrefix(p: string, tail: string, sep: char)
    requires sep !in p
    ensures Split(p + tail, sep) == [p + Split(tail, sep)[0]] + Split(tail, sep)[1..]
  {
    if p != [] {
      assert (p + tail)[1..] == p[1..] + tail;
      SplitPrefix(p[1..], tail, sep);
      assert [p[0]] + (p[1..] + Split(tail, sep)[0]) == p + Split(tail, sep)[0];
    } else {
      var r := Split(tail, sep);
      assert p + tail == tail;
      assert r == [r[0]] + r[1..];
      assert p + r[0] == r[0];
    }
  }

  lemma {:induction false} SplitJoin(parts: seq<string>, sep: char)
    requires |parts| >= 1
    requires forall i :: 0 <= i < |parts| ==> sep !in parts[i]
    ensures Split(Join(parts, sep), sep) == parts
  {
    if |parts| == 1 {
      SplitPrefix(parts[0], [], sep);
      assert parts[0] + [] == parts[0];
    } else {
      var rest := Join(parts[1..], sep);
      SplitJoin(parts[1..], sep);
      assert parts[0] + [sep] + rest == parts[0] + ([sep] + rest);
      SplitPrefix(parts[0], [sep] + rest, sep);
      assert ([sep] + rest)[1..] == rest;
      assert Split([sep] + rest, sep) == [""] + parts[1..];
      assert parts[0] + "" == parts[0];
    }
  }

  /** The non-empty pieces, in order. */
  function NaoVazios(ps: seq<string>): (r: seq<string>)
    ensures |r| <= |ps|
    ensures forall x :: x in r <==> x in ps && x != ""
  {
    if ps == [] then []
    else
      var init := ps[..|ps| - 1];
      assert ps == init + [ps[|ps| - 1]];
      NaoVazios(init) + (if ps[|ps| - 1] != "" then [ps[|ps| - 1]] else [])
  }

  /** The filter drops blank pieces only: every non-empty time keeps its
      multiplicity, so repeated times are not merged. */
  lemma {:induction false} NaoVaziosMultiplicidade(ps: seq<string>)
    ensures multiset(NaoVazios(ps)) == multiset(ps)["" := 0]
  {
    if ps != [] {
      var init := ps[..|ps| - 1];
      var x := ps[|ps| - 1];
      assert ps == init + [x];
      assert multiset(ps) == multiset(init) + multiset{x};
      NaoVaziosMultiplicidade(init);
    }
  }

  /** Filtering one more piece keeps it exactly when it is non-empty. */
  lemma {:induction false} NaoVaziosMaisUm(ps: seq<string>, x: string)
    ensures NaoVazios(ps + [x]) == NaoVazios(ps) + (if x != "" then [x] else [])
  {
    assert (ps + [x])[..|ps|] == ps;
  }

  // ---------------------------------------------------------------------------
  // Row updates shared by the handlers.

  /** The slots that batch creation inserts: one per time, with consecutive
      primary keys from base, all open. */
  function NovosHorarios(base: nat, p: UserId, s: ServiceId, d: Date, horas: seq<Time>): (m: map<SlotId, Horario>)
    ensures forall i :: i in m <==> base <= i < base + |horas|
    ensures forall i :: 0 <= i < |horas| ==> m[base + i] == Horario(p, s, d, horas[i], true)
  {
    if horas == [] then map[]
    else
      var n := |horas| - 1;
      NovosHorarios(base, p, s, d, horas[..n])[base + n := Horario(p, s, d, horas[n], true)]
  }

  /** Inserting one more time adds one slot under the next key. */
  lemma {:induction false} NovosHorariosMaisUm(base: nat, p: UserId, s: ServiceId, d: Date, horas: seq<Time>, x: Time)
    ensures NovosHorarios(base, p, s, d, horas + [x]) == NovosHorarios(base, p, s, d, horas)[base + |horas| := Horario(p, s, d, x, true)]
  {
    assert (horas + [x])[..|horas|] == horas;
  }

  /** Sets the flag of slot h to open. */
  function Liberar(t: Tables, h: SlotId): (r: Tables)
    requires h in t.horarios
    ensures r.horarios.Keys == t.horarios.Keys && r.horarios[h].disponivel
    ensures r == t.(horarios := r.horarios) && r.horarios[h] == t.horarios[h].(disponivel := true)
    ensures forall k :: k in t.horarios && k != h ==> r.horarios[k] == t.horarios[k]
  {
    t.(horarios := t.horarios[h := t.horarios[h].(disponivel := true)])
  }

  /** Sets the flag of slot h to reserved. */
  function Ocupar(t: Tables, h: SlotId): (r: Tables)
    requires h in t.horarios
    ensures r.horarios.Keys == t.horarios.Keys && !r.horarios[h].disponivel
    ensures r == t.(horarios := r.horarios) && r.horarios[h] == t.horarios[h].(disponivel := false)
    ensures forall k :: k in t.horarios && k != h ==> r.horarios[k] == t.horarios[k]
  {
    t.(horarios := t.horarios[h := t.horarios[h].(disponivel := false)])
  }

  // ---------------------------------------------------------------------------
  // Finding an open slot: `.filter(profissional=…, data=…, hora=…, disponivel=True).first()`,
  // which takes the matching row with the least primary key.

  predicate Aberto(t: Tables, h: SlotId, p: UserId, d: Date) {
    h in t.horarios && t.horarios[h].disponivel && t.horarios[h].profissional == p && t.horarios[h].data == d
  }

  predicate Livre(t: Tables, h: SlotId, p: UserId, d: Date, hora: Time) {
    Aberto(t, h, p, d) && t.horarios[h].hora == hora
  }

  function ProcurarLivre(t: Tables, p: UserId, d: Date, hora: Time, i: nat): (r: Option<SlotId>)
    ensures r.Some? ==> i <= r.value && Livre(t, r.value, p, d, hora)
    ensures r.Some? ==> forall j :: i <= j < r.value ==> !Livre(t, j, p, d, hora)
    ensures r.None? ==> forall j :: i <= j < t.proximoHorario ==> !Livre(t, j, p, d, hora)
    decreases t.proximoHorario - i
  {
    if i >= t.proximoHorario then None
    else if Livre(t, i, p, d, hora) then Some(i)
    else ProcurarLivre(t, p, d, hora, i + 1)
  }

  /** The open slot of professional p at date d and time hora with the least key. */
  function PrimeiroLivre(t: Tables, p: UserId, d: Date, hora: Time): (r: Option<SlotId>)
    ensures r.Some? ==> Livre(t, r.value, p, d, hora) && forall j :: 0 <= j < r.value ==> !Livre(t, j, p, d, hora)
    ensures WellFormed(t) && r.None? ==> forall j :: !Livre(t, j, p, d, hora)
  {
    ProcurarLivre(t, p, d, hora, 0)
  }

  // ---------------------------------------------------------------------------
  // Slots (professional).

  /** Inserting one open slot per time, for professional p, service s and
      date d, under the next slot keys. */
  function InserirHorarios(t: Tables, p: UserId, s: ServiceId, d: Date, horas: seq<Time>): (r: Tables)
    ensures r.proximoHorario == t.proximoHorario + |horas| && r.horarios.Keys >= t.horarios.Keys
  {
    t.(horarios := t.horarios + NovosHorarios(t.proximoHorario, p, s, d, horas),
       proximoHorario := t.proximoHorario + |horas|)
  }

  /** Inserting one more time: one more open slot under the next key. */
  lemma {:induction false} InserirHorariosMaisUm(t: Tables, p: UserId, s: ServiceId, d: Date, horas: seq<Time>, x: Time)
    ensures var r := InserirHorarios(t, p, s, d, horas);
      InserirHorarios(t, p, s, d, horas + [x]) ==
        r.(horarios := r.horarios[r.proximoHorario := Horario(p, s, d, x, true)], proximoHorario := r.proximoHorario + 1)
  {
    var novos := NovosHorarios(t.proximoHorario, p, s, d, horas);
    var k := t.proximoHorario + |horas|;
    var slot := Horario(p, s, d, x, true);
    NovosHorariosMaisUm(t.proximoHorario, p, s, d, horas, x);
    UniaoAtualizada(t.horarios, novos, k, slot);
  }

  lemma UniaoAtualizada<K, V>(a: map<K, V>, b: map<K, V>, k: K, v: V)
    ensures (a + b)[k := v] == a + b[k := v]
  {
  }

  /** The insertion adds exactly one open slot per time, in order, under fresh
      consecutive keys; no existing slot and no other table changes. */
  lemma {:induction false} InserirHorariosUmPorHora(t: Tables, p: UserId, s: ServiceId, d: Date, horas: seq<Time>)
    requires WellFormed(t)
    ensures var r := InserirHorarios(t, p, s, d, horas);
      var base := t.proximoHorario;
      && (forall h :: h in r.horarios <==> h in t.horarios || base <= h < base + |horas|)
      && (forall h :: h in t.horarios ==> r.horarios[h] == t.horarios[h])
      && (forall i :: 0 <= i < |horas| ==> r.horarios[base + i] == Horario(p, s, d, horas[i], true))
      && r == t.(horarios := r.horarios, proximoHorario := base + |horas|)
  {
    var base := t.proximoHorario;
    var novos := NovosHorarios(base, p, s, d, horas);
    var r := InserirHorarios(t, p, s, d, horas);
    forall h | h in t.horarios
      ensures r.horarios[h] == t.horarios[h]
    {
      assert h < base;
      assert h !in novos;
    }
    forall i | 0 <= i < |horas|
      ensures r.horarios[base + i] == Horario(p, s, d, horas[i], true)
    {
      assert base + i in novos;
      assert novos[base + i] == Horario(p, s, d, horas[i], true);
    }
    forall h
      ensures h in r.horarios <==> h in t.horarios || base <= h < base + |horas|
    {
      assert h in r.horarios <==> h in t.horarios || h in novos;
    }
  }

  /** The insertion keeps the database well formed when the owner and the service exist. */
  lemma {:induction false} InserirHorariosIntegridade(t: Tables, p: UserId, s: ServiceId, d: Date, horas: seq<Time>)
    requires WellFormed(t) && p in t.users && s in t.servicos
    ensures WellFormed(InserirHorarios(t, p, s, d, horas))
  {
    var r := InserirHorarios(t, p, s, d, horas);
    var base := t.proximoHorario;
    InserirHorariosUmPorHora(t, p, s, d, horas);
    forall k | k in r.horarios
      ensures k < r.proximoHorario && r.horarios[k].profissional in r.users && r.horarios[k].servico in r.servicos
    {
      if k !in t.horarios {
        var i := k - base;
        assert r.horarios[base + i] == Horario(p, s, d, horas[i], true);
      }
    }
    forall b | b in r.agendamentos
      ensures ReservaValida(r.agendamentos[b], r.users.Keys, r.servicos.Keys, r.horarios.Keys)
    {
      assert ReservaValida(t.agendamentos[b], t.users.Keys, t.servicos.Keys, t.horarios.Keys);
    }
  }

  /** The insertion keeps the reservation invariant: the new slots are open and
      no booking references them. */
  lemma {:induction false} InserirHorariosConsistencia(t: Tables, p: UserId, s: ServiceId, d: Date, horas: seq<Time>)
    requires WellFormed(t) && Consistent(t)
    ensures Consistent(InserirHorarios(t, p, s, d, horas))
  {
    var r := InserirHorarios(t, p, s, d, horas);
    var base := t.proximoHorario;
    InserirHorariosUmPorHora(t, p, s, d, horas);
    forall k | k in r.horarios && k !in t.horarios
      ensures r.horarios[k].disponivel && ReservasDe(t.agendamentos, k) == {}
    {
      var i := k - base;
      assert r.horarios[base + i] == Horario(p, s, d, horas[i], true);
      forall b | b in t.agendamentos
        ensures t.agendamentos[b].horario != k
      {
        assert ReservaValida(t.agendamentos[b], t.users.Keys, t.servicos.Keys, t.horarios.Keys);
      }
    }
  }

  lemma {:induction false} InserirHorariosProfissionais(t: Tables, p: UserId, s: ServiceId, d: Date, horas: seq<Time>)
    requires WellFormed(t) && ProfissionaisCoincidem(t)
    ensures ProfissionaisCoincidem(InserirHorarios(t, p, s, d, horas))
  {
    InserirHorariosUmPorHora(t, p, s, d, horas);
    forall b | b in t.agendamentos
      ensures t.agendamentos[b].horario in t.horarios
    {
      assert ReservaValida(t.agendamentos[b], t.users.Keys, t.servicos.Keys, t.horarios.Keys);
    }
  }

  /** Batch creation of slots: for a professional, one open slot per non-empty
      entry of the comma-separated list, for the chosen service and date. */
  function CadastrarHorario(t: Tables, caller: UserId, post: bool, data: Option<Date>,
                            servicoId: Option<ServiceId>, selecionados: string): (r: Step)
    requires WellFormed(t)
    ensures r.outcome != Done ==> r.tables == t
    ensures r.outcome == NoProfile <==> caller !in t.perfis
    ensures r.outcome == Forbidden <==> caller in t.perfis && !t.perfis[caller].isProfissional
    ensures r.outcome == Done <==>
      caller in t.perfis && t.perfis[caller].isProfissional && post &&
      servicoId.Some? && servicoId.value in t.servicos && data.Some?
    ensures r.outcome == Done ==>
      r.tables == InserirHorarios(t, caller, servicoId.value, data.value, NaoVazios(Split(selecionados, ',')))
  {
    if caller !in t.perfis then Step(t, NoProfile)
    else if !t.perfis[caller].isProfissional then Step(t, Forbidden)
    else if !post then Step(t, Shown)
    else if servicoId.None? then Step(t, Invalid)
    else if servicoId.value !in t.servicos then Step(t, NoSuchRow)
    else
      var pecas := Split(selecionados, ',');
      if data.None? || |pecas| == 0 then Step(t, Invalid)
      else Step(InserirHorarios(t, caller, servicoId.value, data.value, NaoVazios(pecas)), Done)
  }

  /** Batch creation keeps the database well formed and the reservation invariant. */
  lemma {:induction false} CadastrarHorarioPreserva(t: Tables, caller: UserId, post: bool, data: Option<Date>,
                                                    servicoId: Option<ServiceId>, selecionados: string)
    requires WellFormed(t)
    ensures var r := CadastrarHorario(t, caller, post, data, servicoId, selecionados).tables;
      WellFormed(r) && (Consistent(t) ==> Consistent(r)) && (ProfissionaisCoincidem(t) ==> ProfissionaisCoincidem(r))
  {
    if CadastrarHorario(t, caller, post, data, servicoId, selecionados).outcome == Done {
      var horas := NaoVazios(Split(selecionados, ','));
      InserirHorariosIntegridade(t, caller, servicoId.value, data.value, horas);
      if Consistent(t) {
        InserirHorariosConsistencia(t, caller, servicoId.value, data.value, horas);
      }
      if ProfissionaisCoincidem(t) {
        InserirHorariosProfissionais(t, caller, servicoId.value, data.value, horas);
      }
    }
  }

  /** "09,,09" gives the pieces "09", "" and "09", and the non-empty ones are "09" twice. */
  lemma HorasRepetidas()
    ensures NaoVazios(Split("09,,09", ',')) == ["09", "09"]
  {
    var ps := ["09", "", "09"];
    assert Join(ps, ',') == "09,,09" by {
      assert ps[1..] == ["", "09"];
      assert ps[1..][1..] == ["09"];
    }
    SplitJoin(ps, ',');
    assert ps[..2] == ["09", ""];
    assert ps[..2][..1] == ["09"];
    assert ps[..2][..1][..0] == [];
  }

  /** Batch creation does no deduplication: the same time twice gives two slots. */
  lemma CadastrarHorarioNaoDeduplica(t: Tables, caller: UserId, d: Date, s: ServiceId)
    requires WellFormed(t) && caller in t.perfis && t.perfis[caller].isProfissional && s in t.servicos
    ensures var r := CadastrarHorario(t, caller, true, Some(d), Some(s), "09,,09");
      && r.outcome == Done
      && t.proximoHorario in r.tables.horarios && t.proximoHorario + 1 in r.tables.horarios
      && r.tables.horarios[t.proximoHorario] == r.tables.horarios[t.proximoHorario + 1]
      && r.tables.horarios.Keys - t.horarios.Keys == {t.proximoHorario, t.proximoHorario + 1}
  {
    HorasRepetidas();
    var horas := ["09", "09"];
    var n := t.proximoHorario;
    InserirHorariosUmPorHora(t, caller, s, d, horas);
    var r := InserirHorarios(t, caller, s, d, horas);
    assert r.horarios[n + 0] == Horario(caller, s, d, horas[0], true);
    assert r.horarios[n + 1] == Horario(caller, s, d, horas[1], true);
    assert n !in t.horarios && n + 1 !in t.horarios;
    forall h
      ensures h in r.horarios.Keys - t.horarios.Keys <==> h == n || h == n + 1
    {
    }
    assert r.horarios.Keys - t.horarios.Keys == {n, n + 1};
  }

  /** Batch creation does not check who owns the service: a professional may add
      slots to another professional's service, and those slots are theirs. */
  lemma CadastrarHorarioAceitaServicoAlheio(t: Tables, caller: UserId, d: Date, s: ServiceId)
    requires WellFormed(t) && caller in t.perfis && t.perfis[caller].isProfissional
    requires s in t.servicos && t.servicos[s].profissional != caller
    ensures var r := CadastrarHorario(t, caller, true, Some(d), Some(s), "09");
      && r.outcome == Done
      && t.proximoHorario in r.tables.horarios
      && r.tables.horarios[t.proximoHorario].profissional != r.tables.servicos[s].profissional
  {
    SplitPrefix("09", "", ',');
    assert "09" + "" == "09";
    assert NaoVazios(["09"]) == ["09"] by {
      assert ["09"][..0] == [];
    }
    InserirHorariosUmPorHora(t, caller, s, d, ["09"]);
    assert InserirHorarios(t, caller, s, d, ["09"]).horarios[t.proximoHorario + 0] == Horario(caller, s, d, "09", true);
  }

  /** Editing a slot: an owned slot gets the new date and time; its flag is untouched. */
  function EditarHorario(t: Tables, caller: UserId, post: bool, id: SlotId,
                         novaData: Option<Date>, novaHora: Time): (r: Step)
    requires WellFormed(t)
    ensures r.outcome != Done ==> r.tables == t
    ensures r.outcome == NotFound <==> id !in t.horarios || t.horarios[id].profissional != caller
    ensures r.outcome == Done <==> r.outcome != NotFound && post && novaData.Some? && novaHora != ""
    ensures r.outcome == Done ==>
      && r.tables == t.(horarios := r.tables.horarios)
      && r.tables.horarios.Keys == t.horarios.Keys
      && r.tables.horarios[id] == t.horarios[id].(data := novaData.value, hora := novaHora)
      && (forall k :: k in t.horarios && k != id ==> r.tables.horarios[k] == t.horarios[k])
  {
    if id !in t.horarios || t.horarios[id].profissional != caller then Step(t, NotFound)
    else if !post then Step(t, Shown)
    else if novaData.None? || novaHora == "" then Step(t, Invalid)
    else Step(t.(horarios := t.horarios[id := t.horarios[id].(data := novaData.value, hora := novaHora)]), Done)
  }

  lemma {:induction false} EditarHorarioPreserva(t: Tables, caller: UserId, post: bool, id: SlotId,
                                                 novaData: Option<Date>, novaHora: Time)
    requires WellFormed(t)
    ensures var r := EditarHorario(t, caller, post, id, novaData, novaHora).tables;
      WellFormed(r) && (Consistent(t) ==> Consistent(r)) && (ProfissionaisCoincidem(t) ==> ProfissionaisCoincidem(r))
  {
    var st := EditarHorario(t, caller, post, id, novaData, novaHora);
    if st.outcome == Done {
      var r := st.tables;
      assert r == t.(horarios := r.horarios);
      assert r.horarios.Keys == t.horarios.Keys;
      forall k | k in r.horarios
        ensures r.horarios[k].disponivel == t.horarios[k].disponivel
        ensures r.horarios[k].profissional == t.horarios[k].profissional
        ensures r.horarios[k].servico == t.horarios[k].servico
      {
      }
    }
  }

  /** Deleting a slot: an owned slot is removed with no check for a booking; the
      database cascade removes the booking that references it. */
  function ExcluirHorario(t: Tables, caller: UserId, post: bool, id: SlotId): (r: Step)
    requires WellFormed(t)
    ensures r.outcome != Done ==> r.tables == t
    ensures r.outcome == NotFound <==> id !in t.horarios || t.horarios[id].profissional != caller
    ensures r.outcome == Done <==> r.outcome != NotFound && post
    ensures r.outcome == Done ==> r.tables == ExcluirHorarioCascata(t, id)
  {
    if id !in t.horarios || t.horarios[id].profissional != caller then Step(t, NotFound)
    else if !post then Step(t, Shown)
    else Step(ExcluirHorarioCascata(t, id), Done)
  }

  /** Deleting a reserved slot succeeds and takes its booking with it. */
  lemma ExcluirHorarioReservadoApagaReserva(t: Tables, caller: UserId, b: BookingId)
    requires WellFormed(t) && b in t.agendamentos
    requires t.horarios[t.agendamentos[b].horario].profissional == caller
    ensures var r := ExcluirHorario(t, caller, true, t.agendamentos[b].horario);
      r.outcome == Done && b !in r.tables.agendamentos
  {
  }

  // ---------------------------------------------------------------------------
  // Services (professional).

  /** The fields a valid service form carries. */
  datatype DadosServico = DadosServico(nome: string, descricao: Option<string>, preco: Cents, duracao: int)

  /** Creating a service: a professional's valid form becomes a new service
      owned by them and linked to their profile. `form` is None when the form
      does not validate. */
  function CriarServico(t: Tables, caller: UserId, post: bool, form: Option<DadosServico>): (r: Step)
    requires WellFormed(t)
    ensures r.outcome != Done ==> r.tables == t
    ensures r.outcome == Done <==>
      caller in t.perfis && t.perfis[caller].isProfissional && post && form.Some?
    ensures r.outcome == Done ==>
      var s := t.proximoServico;
      && r.tables.servicos == t.servicos[s := Servico(caller, form.value.nome, form.value.descricao, form.value.preco, form.value.duracao)]
      && r.tables.perfis == t.perfis[caller := t.perfis[caller].(servicos := t.perfis[caller].servicos + {s})]
      && r.tables == t.(servicos := r.tables.servicos, perfis := r.tables.perfis, proximoServico := t.proximoServico + 1)
  {
    if caller !in t.perfis then Step(t, NoProfile)
    else if !t.perfis[caller].isProfissional then Step(t, Forbidden)
    else if !post then Step(t, Shown)
    else if form.None? then Step(t, Invalid)
    else
      var s := t.proximoServico;
      var f := form.value;
      var perfil := t.perfis[caller];
      Step(t.(servicos := t.servicos[s := Servico(caller, f.nome, f.descricao, f.preco, f.duracao)],
              perfis := t.perfis[caller := perfil.(servicos := perfil.servicos + {s})],
              proximoServico := s + 1), Done)
  }

  /** Editing a service: only the owner finds it; a valid form overwrites its
      fields, and the service is linked to the owner's profile if it was not. */
  function EditarServico(t: Tables, caller: UserId, post: bool, id: ServiceId, form: Option<DadosServico>): (r: Step)
    requires WellFormed(t)
    ensures r.outcome != Done ==> r.tables == t
    ensures r.outcome == NotFound <==> id !in t.servicos || t.servicos[id].profissional != caller
    ensures r.outcome == NoProfile <==> r.outcome != NotFound && caller !in t.perfis
    ensures r.outcome == Done <==>
      id in t.servicos && t.servicos[id].profissional == caller && caller in t.perfis && post && form.Some?
    ensures r.outcome == Done ==>
      var f := form.value;
      && r.tables == t.(servicos := r.tables.servicos, perfis := r.tables.perfis)
      && r.tables.servicos == t.servicos[id := Servico(caller, f.nome, f.descricao, f.preco, f.duracao)]
      && r.tables.perfis == t.perfis[caller := t.perfis[caller].(servicos := t.perfis[caller].servicos + {id})]
  {
    if id !in t.servicos || t.servicos[id].profissional != caller then Step(t, NotFound)
    else if caller !in t.perfis then Step(t, NoProfile)
    else if !post then Step(t, Shown)
    else if form.None? then Step(t, Invalid)
    else
      var f := form.value;
      var perfil := t.perfis[caller];
      Step(t.(servicos := t.servicos[id := Servico(caller, f.nome, f.descricao, f.preco, f.duracao)],
              perfis := t.perfis[caller := perfil.(servicos := perfil.servicos + {id})]), Done)
  }

  /** Deleting a service: only the owner finds it; the database cascade removes
      its slots, their bookings, and the service's bookings. */
  function ExcluirServico(t: Tables, caller: UserId, post: bool, id: ServiceId): (r: Step)
    requires WellFormed(t)
    ensures r.outcome != Done ==> r.tables == t
    ensures r.outcome == NotFound <==> id !in t.servicos || t.servicos[id].profissional != caller
    ensures r.outcome == Done <==> r.outcome != NotFound && post
    ensures r.outcome == Done ==> r.tables == ExcluirServicoCascata(t, id)
  {
    if id !in t.servicos || t.servicos[id].profissional != caller then Step(t, NotFound)
    else if !post then Step(t, Shown)
    else Step(ExcluirServicoCascata(t, id), Done)
  }

  lemma {:induction false} CriarServicoPreserva(t: Tables, caller: UserId, post: bool, form: Option<DadosServico>)
    requires WellFormed(t)
    ensures var r := CriarServico(t, caller, post, form).tables;
      WellFormed(r) && (Consistent(t) ==> Consistent(r)) && (ServicosCoincidem(t) ==> ServicosCoincidem(r))
  {
    var r := CriarServico(t, caller, post, form).tables;
    forall k | k in t.horarios
      ensures ReservasDe(r.agendamentos, k) == ReservasDe(t.agendamentos, k)
    {
    }
  }

  lemma {:induction false} EditarServicoPreserva(t: Tables, caller: UserId, post: bool, id: ServiceId, form: Option<DadosServico>)
    requires WellFormed(t)
    ensures var r := EditarServico(t, caller, post, id, form).tables;
      WellFormed(r) && (Consistent(t) ==> Consistent(r)) && (ServicosCoincidem(t) ==> ServicosCoincidem(r))
  {
    var r := EditarServico(t, caller, post, id, form).tables;
    forall k | k in t.horarios
      ensures ReservasDe(r.agendamentos, k) == ReservasDe(t.agendamentos, k)
    {
    }
  }

  /** Deleting a service through the handler keeps the database well formed,
      and the reservation invariant when every booking is for its slot's service. */
  lemma {:induction false} ExcluirServicoPreserva(t: Tables, caller: UserId, post: bool, id: ServiceId)
    requires WellFormed(t)
    ensures var r := ExcluirServico(t, caller, post, id).tables;
      WellFormed(r) && (Consistent(t) && ServicosCoincidem(t) ==> Consistent(r))
  {
    if Consistent(t) && ServicosCoincidem(t) {
      ExcluirServicoPreservaConsistencia(t, id);
    }
  }

  // ---------------------------------------------------------------------------
  // Bookings.

  /** Reserving slot h for booking a: the slot is marked reserved and the
      booking stored under the next booking key. */
  function Reservar(t: Tables, h: SlotId, a: Agendamento): (r: Tables)
    requires h in t.horarios
    ensures r == t.(horarios := r.horarios, agendamentos := r.agendamentos, proximoAgendamento := t.proximoAgendamento + 1)
    ensures r.horarios.Keys == t.horarios.Keys && r.horarios[h] == t.horarios[h].(disponivel := false)
    ensures forall k :: k in t.horarios && k != h ==> r.horarios[k] == t.horarios[k]
    ensures r.agendamentos == t.agendamentos[t.proximoAgendamento := a]
  {
    Ocupar(t, h).(agendamentos := t.agendamentos[t.proximoAgendamento := a],
                  proximoAgendamento := t.proximoAgendamento + 1)
  }

  lemma {:induction false} ReservarPreservaIntegridade(t: Tables, h: SlotId, a: Agendamento)
    requires WellFormed(t) && h in t.horarios && ReservaValida(a, t.users.Keys, t.servicos.Keys, t.horarios.Keys)
    ensures WellFormed(Reservar(t, h, a))
  {
    var r := Reservar(t, h, a);
    forall b | b in r.agendamentos
      ensures b < r.proximoAgendamento && ReservaValida(r.agendamentos[b], r.users.Keys, r.servicos.Keys, r.horarios.Keys)
    {
    }
  }

  lemma {:induction false} ReservasAposReservar(t: Tables, h: SlotId, a: Agendamento, k: SlotId)
    requires h in t.horarios && t.proximoAgendamento !in t.agendamentos && a.horario == h
    ensures ReservasDe(Reservar(t, h, a).agendamentos, k) ==
      if k == h then ReservasDe(t.agendamentos, k) + {t.proximoAgendamento} else ReservasDe(t.agendamentos, k)
  {
  }

  /** Booking an open slot keeps the reservation invariant: the slot goes from
      no booking to exactly the new one. */
  lemma {:induction false} ReservarPreservaConsistencia(t: Tables, h: SlotId, a: Agendamento)
    requires Consistent(t) && t.proximoAgendamento !in t.agendamentos
    requires h in t.horarios && t.horarios[h].disponivel && a.horario == h
    ensures Consistent(Reservar(t, h, a))
  {
    var r := Reservar(t, h, a);
    var n := t.proximoAgendamento;
    assert ReservasDe(t.agendamentos, h) == {};
    forall b | b in t.agendamentos
      ensures t.agendamentos[b].horario != h
    {
      assert b !in ReservasDe(t.agendamentos, h);
    }
    forall k | k in r.horarios && r.horarios[k].disponivel
      ensures ReservasDe(r.agendamentos, k) == {}
    {
      ReservasAposReservar(t, h, a, k);
    }
    forall k | k in r.horarios && !r.horarios[k].disponivel
      ensures ReservasDe(r.agendamentos, k) != {}
    {
      ReservasAposReservar(t, h, a, k);
    }
    forall b1, b2 | b1 in r.agendamentos && b2 in r.agendamentos && r.agendamentos[b1].horario == r.agendamentos[b2].horario
      ensures b1 == b2
    {
    }
  }

  lemma {:induction false} ReservarPreservaProfissionais(t: Tables, h: SlotId, a: Agendamento)
    requires ProfissionaisCoincidem(t) && h in t.horarios && a.horario == h
    requires a.profissional == t.horarios[h].profissional
    ensures ProfissionaisCoincidem(Reservar(t, h, a))
  {
  }

  /** Reserving (clients only): with every field present, take the first open
      slot of the chosen professional at the date and time, mark it reserved and
      record a booking of it for the chosen service. */
  function AgendarServico(t: Tables, caller: UserId, post: bool, servicoId: Option<ServiceId>,
                          profissionalId: Option<UserId>, data: Option<Date>, hora: Time, agora: Timestamp): (r: Step)
    requires WellFormed(t)
    ensures r.outcome != Done ==> r.tables == t
    ensures r.outcome == NoProfile <==> caller !in t.perfis
    ensures r.outcome == Forbidden <==> caller in t.perfis && t.perfis[caller].isProfissional
    ensures r.outcome == Invalid <==>
      caller in t.perfis && !t.perfis[caller].isProfissional && post &&
      (servicoId.None? || profissionalId.None? || data.None? || hora == "")
    ensures r.outcome == NoSuchRow <==>
      caller in t.perfis && !t.perfis[caller].isProfissional && post &&
      servicoId.Some? && profissionalId.Some? && data.Some? && hora != "" &&
      (servicoId.value !in t.servicos || profissionalId.value !in t.users)
    ensures r.outcome == Unavailable <==>
      caller in t.perfis && !t.perfis[caller].isProfissional && post &&
      servicoId.Some? && profissionalId.Some? && data.Some? && hora != "" &&
      servicoId.value in t.servicos && profissionalId.value in t.users &&
      PrimeiroLivre(t, profissionalId.value, data.value, hora).None?
    ensures r.outcome == Unavailable ==>
      profissionalId.Some? && data.Some? &&
      forall h :: !Livre(t, h, profissionalId.value, data.value, hora)
    ensures r.outcome == Done <==>
      caller in t.perfis && !t.perfis[caller].isProfissional && post &&
      servicoId.Some? && profissionalId.Some? && data.Some? && hora != "" &&
      servicoId.value in t.servicos && profissionalId.value in t.users &&
      PrimeiroLivre(t, profissionalId.value, data.value, hora).Some?
    ensures r.outcome == Done ==>
      var h := PrimeiroLivre(t, profissionalId.value, data.value, hora).value;
      r.tables == Reservar(t, h, Agendamento(caller, profissionalId.value, servicoId.value, h, agora))
  {
    if caller !in t.perfis then Step(t, NoProfile)
    else if t.perfis[caller].isProfissional then Step(t, Forbidden)
    else if !post then Step(t, Shown)
    else if servicoId.None? || profissionalId.None? || data.None? || hora == "" then Step(t, Invalid)
    else if servicoId.value !in t.servicos || profissionalId.value !in t.users then Step(t, NoSuchRow)
    else
      match PrimeiroLivre(t, profissionalId.value, data.value, hora)
      case None => Step(t, Unavailable)
      case Some(h) => Step(Reservar(t, h, Agendamento(caller, profissionalId.value, servicoId.value, h, agora)), Done)
  }

  /** Reserving keeps the database well formed and the reservation invariant,
      and the new booking's professional owns the booked slot. */
  lemma {:induction false} AgendarServicoPreserva(t: Tables, caller: UserId, post: bool, servicoId: Option<ServiceId>,
                                                  profissionalId: Option<UserId>, data: Option<Date>, hora: Time, agora: Timestamp)
    requires WellFormed(t)
    ensures var r := AgendarServico(t, caller, post, servicoId, profissionalId, data, hora, agora).tables;
      && WellFormed(r)
      && (Consistent(t) ==> Consistent(r))
      && (ProfissionaisCoincidem(t) ==> ProfissionaisCoincidem(r))
  {
    var st := AgendarServico(t, caller, post, servicoId, profissionalId, data, hora, agora);
    if st.outcome == Done {
      var h := PrimeiroLivre(t, profissionalId.value, data.value, hora).value;
      var a := Agendamento(caller, profissionalId.value, servicoId.value, h, agora);
      ReservarPreservaIntegridade(t, h, a);
      if Consistent(t) {
        ReservarPreservaConsistencia(t, h, a);
      }
      if ProfissionaisCoincidem(t) {
        ReservarPreservaProfissionais(t, h, a);
      }
    }
  }

  /** Reserving does not compare the chosen service with the slot's: a booking
      can be for one service and hold a slot of another. */
  lemma AgendarServicoAceitaOutroServico(t: Tables, caller: UserId, s: ServiceId, p: UserId, d: Date, hora: Time, agora: Timestamp)
    requires WellFormed(t)
    requires AgendarServico(t, caller, true, Some(s), Some(p), Some(d), hora, agora).outcome == Done
    requires t.horarios[PrimeiroLivre(t, p, d, hora).value].servico != s
    ensures !ServicosCoincidem(AgendarServico(t, caller, true, Some(s), Some(p), Some(d), hora, agora).tables)
  {
    var r := AgendarServico(t, caller, true, Some(s), Some(p), Some(d), hora, agora).tables;
    var n := t.proximoAgendamento;
    assert n in r.agendamentos && r.agendamentos[n].horario in r.horarios;
  }

  /** Cancelling: only the booking's client or professional may; a POST reopens
      the booking's slot and deletes the booking. */
  function CancelarAgendamento(t: Tables, caller: UserId, post: bool, id: BookingId): (r: Step)
    requires WellFormed(t)
    ensures r.outcome != Done ==> r.tables == t
    ensures r.outcome == NotFound <==> id !in t.agendamentos
    ensures r.outcome == Forbidden <==>
      id in t.agendamentos && caller != t.agendamentos[id].cliente && caller != t.agendamentos[id].profissional
    ensures r.outcome == Done <==>
      id in t.agendamentos && (caller == t.agendamentos[id].cliente || caller == t.agendamentos[id].profissional) && post
    ensures r.outcome == Done ==>
      var s := t.agendamentos[id].horario;
      && r.tables == t.(horarios := r.tables.horarios, agendamentos := r.tables.agendamentos)
      && r.tables.agendamentos == t.agendamentos - {id}
      && r.tables.horarios.Keys == t.horarios.Keys
      && r.tables.horarios[s] == t.horarios[s].(disponivel := true)
      && (forall k :: k in t.horarios && k != s ==> r.tables.horarios[k] == t.horarios[k])
  {
    if id !in t.agendamentos then Step(t, NotFound)
    else
      var a := t.agendamentos[id];
      if caller != a.cliente && caller != a.profissional then Step(t, Forbidden)
      else if !post then Step(t, Shown)
      else Step(Liberar(t, a.horario).(agendamentos := t.agendamentos - {id}), Done)
  }

  lemma {:induction false} CancelarAgendamentoPreserva(t: Tables, caller: UserId, post: bool, id: BookingId)
    requires WellFormed(t)
    ensures var r := CancelarAgendamento(t, caller, post, id).tables;
      WellFormed(r) && (Consistent(t) ==> Consistent(r)) && (ProfissionaisCoincidem(t) ==> ProfissionaisCoincidem(r))
  {
    var st := CancelarAgendamento(t, caller, post, id);
    if st.outcome == Done {
      var r := st.tables;
      forall k | k in r.horarios
        ensures ReservasDe(r.agendamentos, k) == ReservasDe(t.agendamentos, k) - {id}
      {
      }
      if Consistent(t) {
        UnicaComoConjunto(t, id);
      }
      forall b | b in r.agendamentos && r.agendamentos[b].horario in r.horarios
        ensures r.horarios[r.agendamentos[b].horario].profissional == t.horarios[t.agendamentos[b].horario].profissional
      {
      }
    }
  }

  /** Moving booking id to slot h: its old slot is reopened, h is marked
      reserved, and the booking now references h. */
  function Mover(t: Tables, id: BookingId, h: SlotId): (r: Tables)
    requires id in t.agendamentos && t.agendamentos[id].horario in t.horarios && h in t.horarios
    ensures r == t.(horarios := r.horarios, agendamentos := r.agendamentos)
    ensures r.agendamentos == t.agendamentos[id := t.agendamentos[id].(horario := h)]
    ensures r.horarios.Keys == t.horarios.Keys && r.horarios[h] == t.horarios[h].(disponivel := false)
    ensures var velho := t.agendamentos[id].horario;
      velho != h ==> r.horarios[velho] == t.horarios[velho].(disponivel := true)
    ensures forall k :: k in t.horarios && k != h && k != t.agendamentos[id].horario ==> r.horarios[k] == t.horarios[k]
  {
    var a := t.agendamentos[id];
    Ocupar(Liberar(t, a.horario), h).(agendamentos := t.agendamentos[id := a.(horario := h)])
  }

  lemma {:induction false} MoverPreservaIntegridade(t: Tables, id: BookingId, h: SlotId)
    requires WellFormed(t) && id in t.agendamentos && h in t.horarios
    ensures WellFormed(Mover(t, id, h))
  {
    var r := Mover(t, id, h);
    assert r.horarios.Keys == t.horarios.Keys;
    forall k | k in r.horarios
      ensures r.horarios[k].profissional == t.horarios[k].profissional && r.horarios[k].servico == t.horarios[k].servico
    {
    }
    forall b | b in r.agendamentos
      ensures ReservaValida(r.agendamentos[b], r.users.Keys, r.servicos.Keys, r.horarios.Keys)
    {
      assert ReservaValida(t.agendamentos[b], t.users.Keys, t.servicos.Keys, t.horarios.Keys);
    }
  }

  /** Moving a booking to a slot of its own professional keeps every booking's
      professional the owner of its slot. */
  lemma {:induction false} MoverPreservaProfissionais(t: Tables, id: BookingId, h: SlotId)
    requires ProfissionaisCoincidem(t) && id in t.agendamentos && t.agendamentos[id].horario in t.horarios && h in t.horarios
    requires t.horarios[h].profissional == t.agendamentos[id].profissional
    ensures ProfissionaisCoincidem(Mover(t, id, h))
  {
    var r := Mover(t, id, h);
    forall k | k in r.horarios
      ensures r.horarios[k].profissional == t.horarios[k].profissional
    {
    }
  }

  lemma {:induction false} ReservasAposMover(t: Tables, id: BookingId, h: SlotId, k: SlotId)
    requires id in t.agendamentos && t.agendamentos[id].horario in t.horarios && h in t.horarios
    ensures ReservasDe(Mover(t, id, h).agendamentos, k) ==
      if k == h then ReservasDe(t.agendamentos, k) + {id} else ReservasDe(t.agendamentos, k) - {id}
  {
  }

  /** Moving a booking to its own slot or to an open one keeps the reservation
      invariant: the old slot loses its only booking and is open, the new one
      gains exactly this booking and is reserved. */
  lemma {:induction false} MoverPreservaConsistencia(t: Tables, id: BookingId, h: SlotId)
    requires Consistent(t) && id in t.agendamentos && t.agendamentos[id].horario in t.horarios && h in t.horarios
    requires h == t.agendamentos[id].horario || t.horarios[h].disponivel
    ensures Consistent(Mover(t, id, h))
  {
    var r := Mover(t, id, h);
    var velho := t.agendamentos[id].horario;
    UnicaComoConjunto(t, id);
    forall k | k in r.horarios && r.horarios[k].disponivel
      ensures ReservasDe(r.agendamentos, k) == {}
    {
      ReservasAposMover(t, id, h, k);
    }
    forall k | k in r.horarios && !r.horarios[k].disponivel
      ensures ReservasDe(r.agendamentos, k) != {}
    {
      ReservasAposMover(t, id, h, k);
    }
    ReservasAposMover(t, id, h, h);
    if h != velho {
      assert ReservasDe(t.agendamentos, h) == {};
    }
    assert ReservasDe(r.agendamentos, h) == {id};
    forall b | b in r.agendamentos && b != id
      ensures r.agendamentos[b].horario != h
    {
      assert b !in ReservasDe(r.agendamentos, h);
    }
    forall b1, b2 | b1 in r.agendamentos && b2 in r.agendamentos && r.agendamentos[b1].horario == r.agendamentos[b2].horario
      ensures b1 == b2
    {
    }
  }

  /** Rescheduling (the booking's professional only): reopen the booking's slot,
      then look for an open slot of the professional at the new date and time;
      if there is one, move the booking there and mark it reserved. */
  function EditarAgendamento(t: Tables, caller: UserId, post: bool, id: BookingId,
                             novaData: Option<Date>, novaHora: Time): (r: Step)
    requires WellFormed(t)
    ensures r.outcome != Done && r.outcome != Unavailable ==> r.tables == t
    ensures r.outcome == NotFound <==> id !in t.agendamentos || t.agendamentos[id].profissional != caller
    ensures r.outcome == Invalid <==> r.outcome != NotFound && post && (novaData.None? || novaHora == "")
    ensures r.outcome == Done <==>
      && id in t.agendamentos && t.agendamentos[id].profissional == caller
      && post && novaData.Some? && novaHora != ""
      && PrimeiroLivre(Liberar(t, t.agendamentos[id].horario), caller, novaData.value, novaHora).Some?
    ensures r.outcome == Unavailable <==>
      && id in t.agendamentos && t.agendamentos[id].profissional == caller
      && post && novaData.Some? && novaHora != ""
      && PrimeiroLivre(Liberar(t, t.agendamentos[id].horario), caller, novaData.value, novaHora).None?
    ensures r.outcome == Unavailable ==>
      && id in t.agendamentos && novaData.Some?
      && r.tables == Liberar(t, t.agendamentos[id].horario)
      && forall h :: !Livre(r.tables, h, caller, novaData.value, novaHora)
    ensures r.outcome == Done ==>
      && id in t.agendamentos && post && novaData.Some? && novaHora != ""
      && var liberada := Liberar(t, t.agendamentos[id].horario);
         var h := PrimeiroLivre(liberada, caller, novaData.value, novaHora);
         h.Some? && r.tables == Mover(t, id, h.value)
  {
    if id !in t.agendamentos || t.agendamentos[id].profissional != caller then Step(t, NotFound)
    else if !post then Step(t, Shown)
    else if novaData.None? || novaHora == "" then Step(t, Invalid)
    else
      var a := t.agendamentos[id];
      var liberada := Liberar(t, a.horario);
      match PrimeiroLivre(liberada, caller, novaData.value, novaHora)
      case None => Step(liberada, Unavailable)
      case Some(h) => Step(Mover(t, id, h), Done)
  }

  /** A successful reschedule keeps the database well formed and the
      reservation invariant, and the booking's professional still owns its slot. */
  lemma {:induction false} EditarAgendamentoPreserva(t: Tables, caller: UserId, post: bool, id: BookingId,
                                                     novaData: Option<Date>, novaHora: Time)
    requires WellFormed(t)
    ensures var r := EditarAgendamento(t, caller, post, id, novaData, novaHora);
      && WellFormed(r.tables)
      && (r.outcome != Unavailable && Consistent(t) ==> Consistent(r.tables))
      && (ProfissionaisCoincidem(t) ==> ProfissionaisCoincidem(r.tables))
  {
    var st := EditarAgendamento(t, caller, post, id, novaData, novaHora);
    if st.outcome == Done {
      var liberada := Liberar(t, t.agendamentos[id].horario);
      var h := PrimeiroLivre(liberada, caller, novaData.value, novaHora).value;
      MoverPreservaIntegridade(t, id, h);
      if Consistent(t) {
        MoverPreservaConsistencia(t, id, h);
      }
      if ProfissionaisCoincidem(t) {
        MoverPreservaProfissionais(t, id, h);
      }
    } else if st.outcome == Unavailable {
      var r := st.tables;
      forall b | b in r.agendamentos
        ensures b < r.proximoAgendamento && ReservaValida(r.agendamentos[b], r.users.Keys, r.servicos.Keys, r.horarios.Keys)
      {
      }
    }
  }

  /** A failed reschedule keeps only a weaker property: the booking still holds
      its old slot, which is now open. Every other slot keeps its state, no slot
      gains a second booking, and every reserved slot still has its booking; but
      an open slot is booked, so the invariant no longer holds. */
  lemma {:induction false} EditarAgendamentoFalhoLiberaHorarioOcupado(t: Tables, caller: UserId, post: bool, id: BookingId,
                                                                      novaData: Option<Date>, novaHora: Time)
    requires WellFormed(t) && Consistent(t)
    requires EditarAgendamento(t, caller, post, id, novaData, novaHora).outcome == Unavailable
    ensures var r := EditarAgendamento(t, caller, post, id, novaData, novaHora).tables;
      var s := t.agendamentos[id].horario;
      && r.agendamentos == t.agendamentos
      && r.horarios[s].disponivel && ReservasDe(r.agendamentos, s) == {id}
      && (forall k :: k in t.horarios && k != s ==> r.horarios[k] == t.horarios[k])
      && ReservadosComReserva(r) && ReservaUnica(r)
      && !AbertosSemReserva(r) && !Consistent(r)
  {
    var r := EditarAgendamento(t, caller, post, id, novaData, novaHora).tables;
    UnicaComoConjunto(t, id);
    forall k | k in r.horarios
      ensures ReservasDe(r.agendamentos, k) == ReservasDe(t.agendamentos, k)
    {
    }
  }

  /** A professional (1) with one service (0) and one slot on day 10 at "09",
      reserved by client 2; client 3 has no booking. */
  function AgendaComUmaReserva(): (t: Tables)
    ensures WellFormed(t) && Consistent(t)
  {
    var t := Tables(
      map[1 := "prof", 2 := "ana", 3 := "bia"],
      map[1 := Perfil("Prof", "", "", "", true, {0}), 2 := Perfil("Ana", "", "", ""), 3 := Perfil("Bia", "", "", "")],
      map[0 := Servico(1, "Corte", None, 5000, 30)],
      map[0 := Horario(1, 0, 10, "09", false)],
      map[0 := Agendamento(2, 1, 0, 0, 0)],
      1, 1, 1);
    assert ReservasDe(t.agendamentos, 0) == {0};
    t
  }

  /** Moving the booking of AgendaComUmaReserva to day 11 at "10" finds no slot:
      only the old slot is reopened. */
  lemma ReagendamentoSemHorario()
    ensures EditarAgendamento(AgendaComUmaReserva(), 1, true, 0, Some(11), "10") ==
      Step(Liberar(AgendaComUmaReserva(), 0), Unavailable)
  {
    var l := Liberar(AgendaComUmaReserva(), 0);
    assert ProcurarLivre(l, 1, 11, "10", 1) == None;
  }

  /** Reserving an open slot that a booking still references leaves two bookings on it. */
  lemma {:induction false} ReservaSobreHorarioReferenciado(t: Tables, caller: UserId, s: ServiceId, p: UserId, d: Date,
                                                           hora: Time, agora: Timestamp, b: BookingId)
    requires WellFormed(t)
    requires AgendarServico(t, caller, true, Some(s), Some(p), Some(d), hora, agora).outcome == Done
    requires b in t.agendamentos && Some(t.agendamentos[b].horario) == PrimeiroLivre(t, p, d, hora)
    ensures !ReservaUnica(AgendarServico(t, caller, true, Some(s), Some(p), Some(d), hora, agora).tables)
  {
    var r := AgendarServico(t, caller, true, Some(s), Some(p), Some(d), hora, agora).tables;
    var n := t.proximoAgendamento;
    assert b != n && b in r.agendamentos && n in r.agendamentos;
    assert r.agendamentos[b].horario == r.agendamentos[n].horario;
  }

  lemma {:induction false} LiberarPreservaIntegridade(t: Tables, h: SlotId)
    requires WellFormed(t) && h in t.horarios
    ensures WellFormed(Liberar(t, h))
  {
    var r := Liberar(t, h);
    forall b | b in r.agendamentos
      ensures ReservaValida(r.agendamentos[b], r.users.Keys, r.servicos.Keys, r.horarios.Keys)
    {
    }
  }

  /** In that state the reopened slot is bookable by another client, and the
      booking leaves two bookings on one slot. */
  lemma ReservaDoHorarioReaberto()
    ensures var l := Liberar(AgendaComUmaReserva(), 0);
      && WellFormed(l)
      && PrimeiroLivre(l, 1, 10, "09") == Some(0)
      && var r := AgendarServico(l, 3, true, Some(0), Some(1), Some(10), "09", 5);
         r.outcome == Done && !ReservaUnica(r.tables)
  {
    var t := AgendaComUmaReserva();
    LiberarPreservaIntegridade(t, 0);
    var l := Liberar(t, 0);
    assert Livre(l, 0, 1, 10, "09");
    assert PrimeiroLivre(l, 1, 10, "09") == Some(0);
    assert 3 in l.perfis && !l.perfis[3].isProfissional && 0 in l.servicos && 1 in l.users;
    ReservaSobreHorarioReferenciado(l, 3, 0, 1, 10, "09", 5, 0);
  }

  /** After the professional tries to move the booking to a time with no open
      slot, the old slot is listed as available again and a second client can
      book it: two bookings then hold the same slot. */
  lemma ReagendamentoFalhoPermiteReservaDupla()
    ensures var t := AgendaComUmaReserva();
      var r1 := EditarAgendamento(t, 1, true, 0, Some(11), "10");
      && r1.outcome == Unavailable
      && WellFormed(r1.tables)
      && "09" in BuscarHorariosDisponiveis(r1.tables, Some(1), Some(10))
      && var r2 := AgendarServico(r1.tables, 3, true, Some(0), Some(1), Some(10), "09", 5);
         r2.outcome == Done && !ReservaUnica(r2.tables)
  {
    ReagendamentoSemHorario();
    ReservaDoHorarioReaberto();
    BuscarHorariosConcordaComReserva(Liberar(AgendaComUmaReserva(), 0), 1, 10, "09");
  }

  // ---------------------------------------------------------------------------
  // Read-only lookups.

  /** The times of the open slots of professional p on date d with key below n, in key order. */
  function HorasLivresAte(t: Tables, p: UserId, d: Date, n: nat): (r: seq<Time>)
    ensures forall x :: x in r <==> exists j :: 0 <= j < n && Aberto(t, j, p, d) && t.horarios[j].hora == x
  {
    if n == 0 then []
    else
      var anteriores := HorasLivresAte(t, p, d, n - 1);
      if Aberto(t, n - 1, p, d) then anteriores + [t.horarios[n - 1].hora] else anteriores
  }

  /** The open-slot lookup: the times of the open slots of the professional on
      the date, or nothing when either parameter is missing. */
  function BuscarHorariosDisponiveis(t: Tables, profissionalId: Option<UserId>, data: Option<Date>): (r: seq<Time>)
    ensures profissionalId.None? || data.None? ==> r == []
    ensures profissionalId.Some? && data.Some? ==>
      forall x :: x in r ==> exists h :: Aberto(t, h, profissionalId.value, data.value) && t.horarios[h].hora == x
  {
    if profissionalId.None? || data.None? then []
    else HorasLivresAte(t, profissionalId.value, data.value, t.proximoHorario)
  }

  /** A time the lookup lists is one a reservation for it finds; one it does not list is not. */
  lemma {:induction false} BuscarHorariosConcordaComReserva(t: Tables, p: UserId, d: Date, hora: Time)
    requires WellFormed(t)
    ensures hora in BuscarHorariosDisponiveis(t, Some(p), Some(d)) <==> PrimeiroLivre(t, p, d, hora).Some?
  {
    if hora in BuscarHorariosDisponiveis(t, Some(p), Some(d)) {
      var h :| Aberto(t, h, p, d) && t.horarios[h].hora == hora;
      assert Livre(t, h, p, d, hora);
    }
  }

  /** Whether date d lies within the optional inclusive bounds. */
  predicate NoPeriodo(d: Date, inicio: Option<Date>, fim: Option<Date>) {
    (inicio.Some? ==> inicio.value <= d) && (fim.Some? ==> d <= fim.value)
  }

  /** The caller's open slots within the optional bounds. */
  function AbertosNoPeriodo(t: Tables, caller: UserId, inicio: Option<Date>, fim: Option<Date>): set<SlotId> {
    set h | h in t.horarios && t.horarios[h].disponivel && t.horarios[h].profissional == caller &&
            NoPeriodo(t.horarios[h].data, inicio, fim)
  }

  /** What the schedule pages list: the caller's bookings and a set of their open slots. */
  datatype Agenda = Agenda(agendamentos: set<BookingId>, horarios: set<SlotId>)

  /** The bookings whose professional is the caller. */
  function ReservasDoProfissional(t: Tables, caller: UserId): set<BookingId> {
    set b | b in t.agendamentos && t.agendamentos[b].profissional == caller
  }

  /** Slot filter of the schedule page (professionals only): the caller's
      bookings and open slots, each date bound applied on its own when given. */
  function FiltrarHorarios(t: Tables, caller: UserId, inicio: Option<Date>, fim: Option<Date>): (r: Result<Agenda>)
    ensures r.Err? <==> caller !in t.perfis || !t.perfis[caller].isProfissional
    ensures r.Ok? ==> r.value.horarios <= AbertosNoPeriodo(t, caller, None, None)
    ensures r.Ok? ==> r.value.agendamentos == ReservasDoProfissional(t, caller)
  {
    if caller !in t.perfis then Err(NoProfile)
    else if !t.perfis[caller].isProfissional then Err(Forbidden)
    else Ok(Agenda(ReservasDoProfissional(t, caller), AbertosNoPeriodo(t, caller, inicio, fim)))
  }

  /** The schedule page (professionals only): the caller's bookings and open
      slots, the slots restricted to the period only when both bounds are given. */
  function AgendaProfissional(t: Tables, caller: UserId, inicio: Option<Date>, fim: Option<Date>): (r: Result<Agenda>)
    ensures r.Err? <==> caller !in t.perfis || !t.perfis[caller].isProfissional
    ensures r.Ok? ==> r.value.horarios <= AbertosNoPeriodo(t, caller, None, None)
    ensures r.Ok? ==> r.value.agendamentos == ReservasDoProfissional(t, caller)
  {
    if caller !in t.perfis then Err(NoProfile)
    else if !t.perfis[caller].isProfissional then Err(Forbidden)
    else if inicio.Some? && fim.Some? then Ok(Agenda(ReservasDoProfissional(t, caller), AbertosNoPeriodo(t, caller, inicio, fim)))
    else Ok(Agenda(ReservasDoProfissional(t, caller), AbertosNoPeriodo(t, caller, None, None)))
  }

  /** The two bounds of the filter are independent: filtering by both is
      filtering by each and intersecting, and every listed slot is an open slot
      of the caller within the bounds. */
  lemma {:induction false} FiltrarHorariosLimitesIndependentes(t: Tables, caller: UserId, inicio: Option<Date>, fim: Option<Date>)
    requires caller in t.perfis && t.perfis[caller].isProfissional
    ensures FiltrarHorarios(t, caller, inicio, fim).value.horarios ==
      FiltrarHorarios(t, caller, inicio, None).value.horarios * FiltrarHorarios(t, caller, None, fim).value.horarios
    ensures forall h :: h in FiltrarHorarios(t, caller, inicio, fim).value.horarios <==>
      h in t.horarios && t.horarios[h].disponivel && t.horarios[h].profissional == caller &&
      NoPeriodo(t.horarios[h].data, inicio, fim)
  {
  }

  /** The schedule page honours a period only when both ends are given: then it
      agrees with the filter; with one end missing it ignores the other. */
  lemma {:induction false} AgendaIgnoraLimiteSozinho(t: Tables, caller: UserId, inicio: Option<Date>, fim: Option<Date>)
    requires caller in t.perfis && t.perfis[caller].isProfissional
    ensures inicio.Some? && fim.Some? ==> AgendaProfissional(t, caller, inicio, fim) == FiltrarHorarios(t, caller, inicio, fim)
    ensures inicio.None? || fim.None? ==> AgendaProfissional(t, caller, inicio, fim) == FiltrarHorarios(t, caller, None, None)
  {
  }

  /** The name shown for a professional: the full name, or the user name when it is blank. */
  function NomeExibido(t: Tables, u: UserId): (r: string)
    requires u in t.perfis && u in t.users
    ensures t.perfis[u].nomeCompleto != "" ==> r == t.perfis[u].nomeCompleto
    ensures t.perfis[u].nomeCompleto == "" ==> r == t.users[u]
    ensures r == "" ==> t.perfis[u].nomeCompleto == "" && t.users[u] == ""
  {
    if t.perfis[u].nomeCompleto != "" then t.perfis[u].nomeCompleto else t.users[u]
  }

  /** The professionals lookup: each professional whose profile offers the
      service, with the name to show; nothing when no service is given. */
  function BuscarProfissionais(t: Tables, servicoId: Option<ServiceId>): (r: map<UserId, string>)
    requires WellFormed(t)
    ensures servicoId.None? ==> r == map[]
    ensures servicoId.Some? ==> forall u :: u in r <==>
      u in t.perfis && t.perfis[u].isProfissional && servicoId.value in t.perfis[u].servicos
    ensures forall u :: u in r ==> r[u] == NomeExibido(t, u)
  {
    if servicoId.None? then map[]
    else map u | u in t.perfis && t.perfis[u].isProfissional && servicoId.value in t.perfis[u].servicos :: NomeExibido(t, u)
  }

  /** A professional who creates a service is listed for it afterwards, and once
      a service is deleted nobody is listed for it. */
  lemma {:induction false} BuscarProfissionaisAcompanhaServicos(t: Tables, caller: UserId, form: DadosServico, id: ServiceId)
    requires WellFormed(t)
    ensures var c := CriarServico(t, caller, true, Some(form));
      c.outcome == Done ==> caller in BuscarProfissionais(c.tables, Some(t.proximoServico))
    ensures var e := ExcluirServico(t, caller, true, id);
      e.outcome == Done ==> BuscarProfissionais(e.tables, Some(id)) == map[]
  {
    CriarServicoPreserva(t, caller, true, Some(form));
  }
}
