/** The record shapes of the booking application (services, slots, bookings and
    profiles), the whole database as one value, and the ORM's `on_delete=CASCADE`
    rules written out as explicit delete functions. */
module Models {

  datatype Option<T> = None | Some(value: T)

  type UserId = nat
  type ServiceId = nat
  type SlotId = nat
  type BookingId = nat

  /** A `DateField` value: an abstract, totally ordered day number. */
  type Date = int
  /** A `TimeField` value as the form submits it (for example "09"); "" is a blank field. */
  type Time = string
  /** The `auto_now_add` creation instant of a booking, supplied by the caller. */
  type Timestamp = int

  /** `DecimalField(max_digits=8, decimal_places=2)` as a count of cents: at most eight digits. */
  const PRICE_BOUND: int := 100_000_000
  type Cents = c: int | -PRICE_BOUND < c < PRICE_BOUND

  /** A profile, keyed in the database by its one-to-one user. A profile is a
      client unless flagged, and offers no service until one is linked. */
  datatype Perfil = Perfil(
    nomeCompleto: string,
    telefone: string,
    endereco: string,
    cpfCnpj: string,
    isProfissional: bool := false,
    servicos: set<ServiceId> := {})

  /** A service offered by one professional; the description may be null. */
  datatype Servico = Servico(
    profissional: UserId,
    nome: string,
    descricao: Option<string>,
    preco: Cents,
    duracao: int)

  /** An availability slot; a new slot is open unless said otherwise. */
  datatype Horario = Horario(
    profissional: UserId,
    servico: ServiceId,
    data: Date,
    hora: Time,
    disponivel: bool := true)

  /** A booking of one slot by one client. */
  datatype Agendamento = Agendamento(
    cliente: UserId,
    profissional: UserId,
    servico: ServiceId,
    horario: SlotId,
    criadoEm: Timestamp)

  /** The database: the user table (id to user name), the four application
      tables, and the next primary key of each auto-incremented table. */
  datatype Tables = Tables(
    users: map<UserId, string>,
    perfis: map<UserId, Perfil>,
    servicos: map<ServiceId, Servico>,
    horarios: map<SlotId, Horario>,
    agendamentos: map<BookingId, Agendamento>,
    proximoServico: nat,
    proximoHorario: nat,
    proximoAgendamento: nat)

  /** Referential integrity as the database keeps it: every foreign key names an
      existing row, and every primary key lies below its table's counter. Each
      table's part reads only that table and the key sets it refers to. */
  ghost predicate WellFormed(t: Tables) {
    && PerfisValidos(t.perfis, t.users.Keys, t.servicos.Keys)
    && ServicosValidos(t.servicos, t.users.Keys, t.proximoServico)
    && HorariosValidos(t.horarios, t.users.Keys, t.servicos.Keys, t.proximoHorario)
    && ReservasValidas(t.agendamentos, t.users.Keys, t.servicos.Keys, t.horarios.Keys, t.proximoAgendamento)
  }

  ghost predicate PerfisValidos(perfis: map<UserId, Perfil>, users: set<UserId>, servicos: set<ServiceId>) {
    forall u :: u in perfis ==> u in users && perfis[u].servicos <= servicos
  }

  ghost predicate ServicosValidos(servicos: map<ServiceId, Servico>, users: set<UserId>, proximo: nat) {
    forall s :: s in servicos ==> s < proximo && servicos[s].profissional in users
  }

  ghost predicate HorariosValidos(horarios: map<SlotId, Horario>, users: set<UserId>, servicos: set<ServiceId>, proximo: nat) {
    forall h :: h in horarios ==> h < proximo && horarios[h].profissional in users && horarios[h].servico in servicos
  }

  ghost predicate ReservasValidas(agendamentos: map<BookingId, Agendamento>, users: set<UserId>, servicos: set<ServiceId>,
                                  horarios: set<SlotId>, proximo: nat) {
    forall b :: b in agendamentos ==> b < proximo && ReservaValida(agendamentos[b], users, servicos, horarios)
  }

  ghost predicate ReservaValida(a: Agendamento, users: set<UserId>, servicos: set<ServiceId>, horarios: set<SlotId>) {
    a.cliente in users && a.profissional in users && a.servico in servicos && a.horario in horarios
  }

  /** The role word of a profile's display label. */
  function Papel(isProfissional: bool): string {
    if isProfissional then "Profissional" else "Cliente"
  }

  /** The display label of a profile: its full name followed by its role in
      parentheses; the role is read from the flag alone. */
  function Rotulo(p: Perfil): (r: string)
    ensures |p.nomeCompleto| < |r| && r[..|p.nomeCompleto|] == p.nomeCompleto
    ensures p.isProfissional <==> EndsWith(r, "(Profissional)")
    ensures !p.isProfissional <==> EndsWith(r, "(Cliente)")
  {
    var papel := "(" + Papel(p.isProfissional) + ")";
    var r := p.nomeCompleto + " " + papel;
    assert r[..|p.nomeCompleto|] == p.nomeCompleto;
    assert r[|r| - |papel|..] == papel;
    assert r[|r| - 2] == if p.isProfissional then 'l' else 'e';
    r
  }

  predicate EndsWith(s: string, suffix: string) {
    |suffix| <= |s| && s[|s| - |suffix|..] == suffix
  }

  /** Deleting a slot: the slot goes, and so does every booking that references it. */
  function ExcluirHorarioCascata(t: Tables, h: SlotId): (r: Tables)
    ensures r.horarios.Keys == t.horarios.Keys - {h}
    ensures forall k :: k in r.horarios ==> r.horarios[k] == t.horarios[k]
    ensures forall b :: b in r.agendamentos <==> b in t.agendamentos && t.agendamentos[b].horario != h
    ensures forall b :: b in r.agendamentos ==> r.agendamentos[b] == t.agendamentos[b]
    ensures r == t.(horarios := r.horarios, agendamentos := r.agendamentos)
    ensures WellFormed(t) ==> WellFormed(r)
  {
    t.(horarios := t.horarios - {h},
       agendamentos := map b | b in t.agendamentos && t.agendamentos[b].horario != h :: t.agendamentos[b])
  }

  /** The slots that belong to service s. */
  function HorariosDoServico(t: Tables, s: ServiceId): set<SlotId> {
    set h | h in t.horarios && t.horarios[h].servico == s
  }

  /** Deleting a service: the service goes, with every slot of it, every booking
      of it or of one of those slots, and its links from every profile. */
  function ExcluirServicoCascata(t: Tables, s: ServiceId): (r: Tables)
    ensures r.servicos.Keys == t.servicos.Keys - {s}
    ensures forall h :: h in r.horarios <==> h in t.horarios && t.horarios[h].servico != s
    ensures forall b :: b in r.agendamentos <==>
      b in t.agendamentos && t.agendamentos[b].servico != s && t.agendamentos[b].horario !in HorariosDoServico(t, s)
    ensures forall h :: h in r.horarios ==> r.horarios[h] == t.horarios[h]
    ensures forall b :: b in r.agendamentos ==> r.agendamentos[b] == t.agendamentos[b]
    ensures forall k :: k in r.servicos ==> r.servicos[k] == t.servicos[k]
    ensures r.perfis.Keys == t.perfis.Keys
    ensures forall u :: u in r.perfis ==> r.perfis[u] == t.perfis[u].(servicos := t.perfis[u].servicos - {s})
    ensures r.users == t.users
    ensures r.proximoServico == t.proximoServico && r.proximoHorario == t.proximoHorario
    ensures r.proximoAgendamento == t.proximoAgendamento
    ensures WellFormed(t) ==> WellFormed(r)
  {
    var slots := HorariosDoServico(t, s);
    t.(perfis := map u | u in t.perfis :: t.perfis[u].(servicos := t.perfis[u].servicos - {s}),
       servicos := t.servicos - {s},
       horarios := t.horarios - slots,
       agendamentos := map b | b in t.agendamentos && t.agendamentos[b].servico != s && t.agendamentos[b].horario !in slots
                          :: t.agendamentos[b])
  }

  /** The services owned by user u. */
  function ServicosDoUsuario(t: Tables, u: UserId): set<ServiceId> {
    set s | s in t.servicos && t.servicos[s].profissional == u
  }

  /** The slots removed along with user u: their own, and those of their services. */
  function HorariosDoUsuario(t: Tables, u: UserId): set<SlotId> {
    set h | h in t.horarios && (t.horarios[h].profissional == u || t.horarios[h].servico in ServicosDoUsuario(t, u))
  }

  /** Deleting a user: the user goes with their profile, their services, their
      slots (and the slots of their services), every booking where they are the
      client or the professional, every booking of a removed service or slot, and
      the links from other profiles to the removed services. */
  function ExcluirUsuarioCascata(t: Tables, u: UserId): (r: Tables)
    ensures r.users.Keys == t.users.Keys - {u} && r.perfis.Keys == t.perfis.Keys - {u}
    ensures forall v :: v in r.users ==> r.users[v] == t.users[v]
    ensures forall v :: v in r.perfis ==>
      r.perfis[v] == t.perfis[v].(servicos := t.perfis[v].servicos - ServicosDoUsuario(t, u))
    ensures forall s :: s in r.servicos <==> s in t.servicos && t.servicos[s].profissional != u
    ensures forall s :: s in r.servicos ==> r.servicos[s] == t.servicos[s]
    ensures forall h :: h in r.horarios <==> h in t.horarios && h !in HorariosDoUsuario(t, u)
    ensures forall h :: h in r.horarios ==> r.horarios[h] == t.horarios[h]
    ensures forall h :: h in r.horarios ==> r.horarios[h].profissional != u
    ensures forall b :: b in r.agendamentos <==>
      b in t.agendamentos && Sobrevive(t.agendamentos[b], u, ServicosDoUsuario(t, u), HorariosDoUsuario(t, u))
    ensures forall b :: b in r.agendamentos ==> r.agendamentos[b] == t.agendamentos[b]
    ensures forall b :: b in r.agendamentos ==> r.agendamentos[b].cliente != u && r.agendamentos[b].profissional != u
    ensures forall b :: b in t.agendamentos && b !in r.agendamentos ==>
      var a := t.agendamentos[b];
      a.cliente == u || a.profissional == u || a.servico in ServicosDoUsuario(t, u) || a.horario in HorariosDoUsuario(t, u)
    ensures r.proximoServico == t.proximoServico && r.proximoHorario == t.proximoHorario
    ensures r.proximoAgendamento == t.proximoAgendamento
  {
    var servs := ServicosDoUsuario(t, u);
    var slots := HorariosDoUsuario(t, u);
    t.(users := t.users - {u},
       perfis := map v | v in t.perfis && v != u :: t.perfis[v].(servicos := t.perfis[v].servicos - servs),
       servicos := t.servicos - servs,
       horarios := t.horarios - slots,
       agendamentos := map b | b in t.agendamentos && Sobrevive(t.agendamentos[b], u, servs, slots) :: t.agendamentos[b])
  }

  /** Whether a booking survives the deletion of user u with services servs and slots slots. */
  predicate Sobrevive(a: Agendamento, u: UserId, servs: set<ServiceId>, slots: set<SlotId>) {
    a.cliente != u && a.profissional != u && a.servico !in servs && a.horario !in slots
  }
}
