# Slot reservations of the `servicos` booking application, in Dafny

The `servicos` application lets professionals offer services and open time
slots for them, and lets clients book those slots. This project models its core:

- the four tables and their `on_delete=CASCADE` rules from `servicos/models.py`;
- the request handlers in `servicos/views.py` that read rows, check a role flag
  or an owner, and write rows.

The core is a state machine over slots. A slot is open (`disponivel`) or
reserved. Reserving, cancelling and rescheduling flip that flag and create,
delete or rebind bookings.

- `models.dfy` (module `Models`) holds the record shapes with their defaults.
  A slot is open when created, and a profile is a client unless flagged. It
  also holds the database as one value `Tables`: the user table, the four
  application tables, and the next primary key of each auto-incremented table.
  `WellFormed` states referential integrity. The three cascades are written
  out as delete functions: deleting a slot, a service or a user.
- `invariants.dfy` (module `Invariants`) states the reservation invariant
  `Consistent`. An open slot has no booking. A reserved slot has at least one
  booking. No two bookings share a slot. Together these mean a reserved slot
  has exactly one booking. The module also states what each cascade does to
  the invariant.
- `views.dfy` (module `Views`) gives each handler as a pure function. It takes
  the database before the request and returns the database after it, together
  with an `Outcome`: `Done`, `Shown` (a GET rendered a page), `Invalid`,
  `NotFound`, `Forbidden`, `Unavailable`, `NoProfile` or `NoSuchRow`. The
  read-only lookups are functions over the tables. Lemmas state what each
  handler promises, and where it falls short of the invariant.
- `store.dfy` (module `Persistence`) is the database as a mutable `Store`
  object with one map field per table. Each handler is a method. It checks the
  same guards in the same order, assigns the same fields, and inserts rows
  under the next key. Batch slot creation is a loop with one insert per
  non-empty time. Each method's postcondition says that its new state and
  outcome are exactly those of the matching `Views` function. So every lemma
  proved about the function holds for the method. Each method also states
  which invariant it keeps.

Modelling choices:

- The caller's identity and the request method are parameters (`caller`, `post`).
- A form field that is missing or empty is `None`. A time is the submitted
  string, and "" stands for a blank time.
- Dates are integers, ordered as the calendar is.
- `.first()` on an unordered query set takes the matching row with the least
  primary key.
- A lookup with `.objects.get` that finds no row raises an exception, so the
  request fails and writes nothing. The outcome is `NoSuchRow` (or `NoProfile`
  when the missing row is the caller's profile).
- The services a profile offers (`Perfil.servicos`) are a set of service
  keys inside the profile.

Two behaviours of the code worth noting:

- Deleting a slot that a booking references does not leave the booking
  dangling. The `Agendamento.horario` cascade (`servicos/models.py:50`) removes
  the booking with the slot.
- The slot that reserving takes is matched on professional, date and time, not
  on service. It is the matching open slot with the least key.

## Model

| member | source | states |
|---|---|---|
| `Models.Rotulo` | servicos/models.py:16-17 | The label starts with the full name. It ends in "(Profissional)" exactly when the profile is flagged professional, and in "(Cliente)" exactly when it is not. |
| `Models.ExcluirHorarioCascata` | servicos/models.py:50 | Deleting a slot removes that slot and exactly the bookings that reference it. Every other slot and booking is kept unchanged, and so are the other tables and the key counters. Referential integrity is kept. |
| `Models.ExcluirServicoCascata` | servicos/models.py:34-50 | Deleting a service removes exactly that service and the slots of that service. It removes exactly the bookings of the service or of one of those slots. Every profile keeps its data, minus the link to the service. Every surviving service, slot and booking is unchanged, and so are the users and the key counters. Referential integrity is kept. |
| `Models.ExcluirUsuarioCascata` | servicos/models.py:5-50 | Deleting a user removes exactly their user row, their profile and their services. It removes exactly their slots and the slots of their services, and exactly the bookings where they are client or professional or whose service or slot was removed. Every other profile keeps its data, minus the links to the removed services. Every surviving user, service, slot and booking is unchanged, and so are the key counters. |
| `Invariants.ExatamenteUmaReserva` | servicos/views.py:282-297 | Under the invariant, an open slot is referenced by zero bookings and a reserved slot by exactly one. |
| `Invariants.ExcluirHorarioPreservaConsistencia` | servicos/models.py:50 | Deleting a slot with its cascade keeps the reservation invariant. |
| `Invariants.ExcluirServicoPreservaConsistencia` | servicos/models.py:36-50 | Deleting a service keeps the reservation invariant when every booking is for its slot's service. |
| `Invariants.ExcluirServicoPodeDeixarHorarioPreso` | servicos/models.py:49 | Without that agreement, the cascade of a service can remove the booking of another service's slot. That slot is left reserved with no booking. |
| `Invariants.ExcluirUsuarioPreservaIntegridade` | servicos/models.py:5-50 | Deleting a user with all its cascades leaves no dangling foreign key. |
| `Invariants.ExcluirUsuarioPreservaAbertosEUnica` | servicos/models.py:46-50 | Deleting a user keeps open slots unbooked and keeps at most one booking per slot. |
| `Invariants.ExcluirClienteDeixaHorarioPreso` | servicos/models.py:47 | Deleting a client removes their booking but leaves its slot reserved with no booking, so that slot is never offered again. |
| `Views.Split` | servicos/views.py:217 | Splitting a string on commas gives at least one piece, and no piece contains a comma. With `Views.JoinSplit` and `Views.SplitJoin` this fixes the pieces exactly. |
| `Views.JoinSplit` | servicos/views.py:217 | Splitting the submitted list on commas loses nothing: joining the pieces gives the list back. |
| `Views.SplitJoin` | servicos/views.py:217 | Joining pieces that contain no comma and splitting again gives the same pieces. |
| `Views.NaoVazios` | servicos/views.py:226-227 | Exactly the non-empty pieces are kept, and there are never more of them than pieces. |
| `Views.NaoVaziosMultiplicidade` | servicos/views.py:226-234 | Only blank pieces are dropped: each non-empty time occurs in the result as often as in the list, so repeated times are not merged. |
| `Views.NovosHorarios` | servicos/views.py:226-234 | The new slots get exactly the consecutive keys from the next key on. The i-th one is an open slot of the caller, for the chosen service and date, at the i-th time. |
| `Views.PrimeiroLivre` | servicos/views.py:282-284 | The slot found is open, is the professional's, and matches the date and time. No matching open slot has a smaller key. When nothing is found, no slot matches. |
| `Views.InserirHorarios` | servicos/views.py:226-234 | Batch insertion advances the slot key counter by the number of times and keeps every existing slot key. Its exact content is stated by `Views.InserirHorariosUmPorHora`. |
| `Views.InserirHorariosUmPorHora` | servicos/views.py:225-234 | Batch insertion adds exactly one open slot per time, in order, under fresh consecutive keys. It changes no existing slot and no other table. |
| `Views.InserirHorariosIntegridade` | servicos/views.py:225-234 | Batch insertion for an existing owner and service keeps referential integrity. |
| `Views.InserirHorariosConsistencia` | servicos/views.py:225-234 | Batch insertion keeps the reservation invariant, since the new slots are open and unbooked. |
| `Views.InserirHorariosProfissionais` | servicos/views.py:225-234 | Batch insertion keeps every booking's professional the owner of its slot. |
| `Views.CadastrarHorario` | servicos/views.py:205-238 | A failed request writes nothing. `NoProfile` is returned exactly when the caller has no profile, and `Forbidden` exactly when the caller is a client. `Done` is returned exactly when a professional POSTs an existing service id and a date. Then the slot table gains one open slot per non-empty time of the list. |
| `Views.CadastrarHorarioPreserva` | servicos/views.py:205-238 | Batch creation keeps referential integrity, the reservation invariant, and the professional agreement. |
| `Views.HorasRepetidas` | servicos/views.py:217 | The list "09,,09" yields the non-empty times "09" and "09". |
| `Views.CadastrarHorarioNaoDeduplica` | servicos/views.py:225-234 | Submitting the same time twice creates two identical slots under two new keys. There is no deduplication. |
| `Views.CadastrarHorarioAceitaServicoAlheio` | servicos/views.py:223 | The service is looked up by id alone. A professional can add slots to another professional's service, and those slots belong to the caller. |
| `Views.EditarHorario` | servicos/views.py:535-552 | A slot that does not exist or is not the caller's gives `NotFound`. Every failure writes nothing. `Done` is returned exactly for an owner's POST with a date and a time. Then that slot gets the new date and time and keeps its professional, service and flag. Every other slot and every other table is unchanged. |
| `Views.EditarHorarioPreserva` | servicos/views.py:543-546 | Editing a slot keeps referential integrity, the reservation invariant, and the professional agreement. |
| `Views.ExcluirHorario` | servicos/views.py:554-563 | `NotFound` is returned exactly for a missing or foreign slot. `Done` is returned exactly for an owner's POST, and the result is the slot's delete cascade. Nothing else writes. |
| `Views.ExcluirHorarioReservadoApagaReserva` | servicos/views.py:556-559 | Deleting a booked slot is not refused, and its booking is removed along with it. |
| `Views.CriarServico` | servicos/views.py:137-162 | `Done` is returned exactly for a professional's POST of a valid form. Then the service is stored under the next key, owned by the caller, and linked to the caller's profile. The service key counter advances by one, and nothing else changes. Any other outcome writes nothing. |
| `Views.EditarServico` | servicos/views.py:168-187 | `NotFound` is returned exactly for a missing or foreign service, and `NoProfile` exactly for an owner without a profile. Failures write nothing. `Done` is returned exactly for an owner's POST of a valid form. Then the service holds the form's name, description, price and duration and stays the caller's. The caller's profile gains the link if it lacked it. Nothing else changes. |
| `Views.ExcluirServico` | servicos/views.py:191-199 | `NotFound` is returned exactly for a missing or foreign service. `Done` is returned exactly for an owner's POST, and the result is the service's delete cascade. |
| `Views.CriarServicoPreserva` | servicos/views.py:145-155 | Creating a service keeps referential integrity, the reservation invariant, and the service agreement. |
| `Views.EditarServicoPreserva` | servicos/views.py:173-180 | Editing a service keeps referential integrity, the reservation invariant, and the service agreement. |
| `Views.ExcluirServicoPreserva` | servicos/views.py:193-195 | Deleting a service keeps referential integrity. It keeps the invariant when bookings agree with their slots' services. |
| `Views.Ocupar` | servicos/views.py:288-289 | Marking a slot reserved changes only that slot's flag. Every other slot and every other table is unchanged. |
| `Views.Reservar` | servicos/views.py:288-297 | Reserving marks the slot reserved and changes nothing else about it or any other slot. It stores the booking under the next booking key and advances that counter by one. No other table changes. |
| `Views.ReservarPreservaIntegridade` | servicos/views.py:286-297 | Flagging an existing slot and storing a booking whose rows exist keeps referential integrity. |
| `Views.ReservasAposReservar` | servicos/views.py:286-297 | After reserving, the reserved slot's bookings are the old ones plus the new key. Every other slot keeps the bookings it had. |
| `Views.ReservarPreservaConsistencia` | servicos/views.py:286-297 | Reserving an open slot under a fresh booking key keeps the reservation invariant. |
| `Views.ReservarPreservaProfissionais` | servicos/views.py:286-297 | A booking whose professional owns the slot keeps the professional agreement. |
| `Views.AgendarServico` | servicos/views.py:257-302 | `NoProfile` is returned exactly when the caller has no profile, and `Forbidden` exactly for professionals. `Invalid` is returned exactly when a client POSTs with a field missing. `NoSuchRow` is returned exactly when the chosen service or professional does not exist. `Unavailable` is returned exactly when every guard passes and no matching open slot exists. `Done` is returned exactly when every guard passes and a matching open slot exists. Then the least-key such slot is marked reserved and one booking of it by the caller is added. Every outcome but `Done` writes nothing. |
| `Views.AgendarServicoPreserva` | servicos/views.py:282-297 | Reserving keeps referential integrity, the reservation invariant, and the professional agreement. |
| `Views.AgendarServicoAceitaOutroServico` | servicos/views.py:282-297 | When the slot found belongs to another service, the new booking's service differs from its slot's service. |
| `Views.CancelarAgendamento` | servicos/views.py:360-378 | `NotFound` is returned exactly for a missing booking, and `Forbidden` exactly for a caller who is neither client nor professional. `Done` is returned exactly for a participant's POST. Then the booking is removed and its slot is open, and every other slot and booking is unchanged. The freed slot keeps its other fields, and no other table changes. A GET writes nothing. |
| `Views.CancelarAgendamentoPreserva` | servicos/views.py:369-374 | Cancelling keeps referential integrity, the reservation invariant, and the professional agreement. |
| `Views.Mover` | servicos/views.py:390-409 | Moving a booking rebinds only that booking to the new slot and marks the new slot reserved. When the new slot differs from the old one, the old slot is open. Every other slot keeps its data, and no other table changes. |
| `Views.MoverPreservaIntegridade` | servicos/views.py:390-409 | Reopening a booking's slot and rebinding it to an existing slot keeps referential integrity. |
| `Views.MoverPreservaProfissionais` | servicos/views.py:394-409 | Rebinding to a slot of the booking's own professional keeps the professional agreement. |
| `Views.ReservasAposMover` | servicos/views.py:405-409 | After the move, the new slot gains the booking and every other slot loses it. |
| `Views.MoverPreservaConsistencia` | servicos/views.py:390-409 | Moving a booking to an open slot, or to its own slot, keeps the reservation invariant. |
| `Views.EditarAgendamento` | servicos/views.py:380-422 | `NotFound` is returned exactly when the booking is missing or not the caller's. `Invalid` is returned exactly for the owner's POST that lacks a date or a time. For the owner's POST with both, the search runs after the old slot is reopened. `Done` is returned exactly when it finds a slot, and the booking moves to the least-key matching open slot. `Unavailable` is returned exactly when it finds none, and the reopened old slot is then the only change. Any other outcome writes nothing. |
| `Views.EditarAgendamentoPreserva` | servicos/views.py:388-412 | Rescheduling keeps referential integrity and the professional agreement. A reschedule that does not end `Unavailable` keeps the reservation invariant. |
| `Views.EditarAgendamentoFalhoLiberaHorarioOcupado` | servicos/views.py:388-403 | A failed reschedule changes no booking. The old slot is open but still referenced by the booking, and every other slot is unchanged. Reserved slots keep their booking and no slot gains a second one, but the invariant no longer holds. |
| `Views.ReagendamentoSemHorario` | servicos/views.py:394-403 | In a concrete database, moving a booking to a time with no slot reopens the old slot and returns `Unavailable`. |
| `Views.ReservaSobreHorarioReferenciado` | servicos/views.py:282-297 | Reserving an open slot that a booking still references leaves two bookings on that slot. |
| `Views.Liberar` | servicos/views.py:371-372 | Reopening a slot changes only that slot's flag. Every other slot and every other table is unchanged. |
| `Views.LiberarPreservaIntegridade` | servicos/views.py:390-391 | Reopening a slot keeps referential integrity. |
| `Views.ReservaDoHorarioReaberto` | servicos/views.py:282-297 | In the concrete database, the reopened slot is the one a second client's reservation takes. |
| `Views.ReagendamentoFalhoPermiteReservaDupla` | servicos/views.py:388-403 | After a failed reschedule, the open-slot lookup lists the old time again. A second client's reservation then succeeds, and two bookings hold one slot. |
| `Views.HorasLivresAte` | servicos/views.py:347-351 | A time is listed exactly when some open slot of the professional on that date, below the key bound, has that time. |
| `Views.BuscarHorariosDisponiveis` | servicos/views.py:339-353 | The list is empty when the professional or the date is missing. Otherwise every listed time is the time of an open slot of the professional on that date. |
| `Views.BuscarHorariosConcordaComReserva` | servicos/views.py:347-353 | A time is listed by the lookup exactly when a reservation for it would find an open slot. |
| `Views.FiltrarHorarios` | servicos/views.py:567-596 | The result is refused exactly for callers without a professional profile. Otherwise it lists exactly the caller's bookings and only open slots of the caller. |
| `Views.FiltrarHorariosLimitesIndependentes` | servicos/views.py:583-586 | A slot is listed exactly when it is open, is the caller's, and lies within every bound that is given, both ends included. Filtering by both bounds is the intersection of filtering by each. |
| `Views.AgendaProfissional` | servicos/views.py:463-494 | The result is refused exactly for callers without a professional profile. Otherwise it lists exactly the caller's bookings and only open slots of the caller. |
| `Views.AgendaIgnoraLimiteSozinho` | servicos/views.py:484-486 | The schedule page applies the period only when both ends are given, and then agrees with the filter. With one end missing it lists every open slot of the caller. |
| `Views.NomeExibido` | servicos/views.py:328 | The shown name is the profile's full name when that is not blank, and the user name otherwise. |
| `Views.BuscarProfissionais` | servicos/views.py:313-332 | Nothing is returned without a service id. Otherwise it returns exactly the professionals whose profile offers the service, each with the name to show. |
| `Views.BuscarProfissionaisAcompanhaServicos` | servicos/views.py:145-155 | A professional who creates a service is then listed for it. After a service is deleted, nobody is listed for it. |
| `Persistence.Store.CadastrarHorario` | servicos/views.py:205-238 | The new state and outcome are those of `Views.CadastrarHorario`. The store stays well formed and the reservation invariant is kept. |
| `Persistence.Store.InserirHorarios` | servicos/views.py:225-234 | The loop leaves the tables as batch insertion of the non-empty times specifies. |
| `Persistence.Store.AcrescentarHorario` | servicos/views.py:228-234 | One slot is stored under the next slot key, and the key counter advances. Nothing else changes. |
| `Persistence.Store.AgendarServico` | servicos/views.py:257-302 | The new state and outcome are those of `Views.AgendarServico`. The store stays well formed, and the reservation invariant and the professional agreement are kept. |
| `Persistence.Store.FecharHorario` | servicos/views.py:288-289 | Only the slot's flag changes, to reserved. |
| `Persistence.Store.CancelarAgendamento` | servicos/views.py:360-378 | The new state and outcome are those of `Views.CancelarAgendamento`. The store stays well formed, and the invariant and the professional agreement are kept. |
| `Persistence.Store.AbrirHorario` | servicos/views.py:371-372 | Only the slot's flag changes, to open. |
| `Persistence.Store.EditarAgendamento` | servicos/views.py:380-422 | The new state and outcome are those of `Views.EditarAgendamento`. The invariant is kept unless the outcome is `Unavailable`, and then the weaker property of the failed path holds. |
| `Persistence.Store.EditarHorario` | servicos/views.py:535-552 | The new state and outcome are those of `Views.EditarHorario`. The store stays well formed and the invariant is kept. |
| `Persistence.Store.ExcluirHorario` | servicos/views.py:554-563 | The new state and outcome are those of `Views.ExcluirHorario`, the cascade included. The store stays well formed and the invariant is kept. |
| `Persistence.Store.CriarServico` | servicos/views.py:137-162 | The new state and outcome are those of `Views.CriarServico`. The store stays well formed and the invariant is kept. |
| `Persistence.Store.EditarServico` | servicos/views.py:168-187 | The new state and outcome are those of `Views.EditarServico`. The store stays well formed and the invariant is kept. |
| `Persistence.Store.ExcluirServico` | servicos/views.py:191-199 | The new state and outcome are those of `Views.ExcluirServico`, the cascade included. The store stays well formed. The invariant is kept when bookings agree with their slots' services. |

## Left out

- Login, logout and registration are not modelled. They are authentication, session and password-hashing calls into the framework; the caller's identity is a parameter.
- Dashboards, listing pages, template rendering, redirects and flash messages are not modelled. They only read and render. A rendered GET is the outcome `Shown`.
- The profile and password edit handlers are not modelled. They overwrite fields and call a foreign hashing routine.
- The URL tables, settings, forms and the `servicos_express` views are not modelled. Form validation is the framework's job, so a service form is either valid (`Some`) or not (`None`).
- Concurrent requests are not modelled. Each request is one atomic method call, so the race between two simultaneous reservations is out of scope.
- Date and time parsing (`parse_date`, `TimeField` conversion) is not modelled, and neither are the exceptions that malformed ids or dates raise. Dates arrive already parsed, or missing.
- Result order is not modelled. Query sets and JSON lists become sets or maps, except the open-slot lookup, which lists times in key order.
- `Servico.__str__`, `HorarioDisponivel.__str__` and `Agendamento.__str__` are not modelled. They only build display text.
- User deletion has no handler. Its cascade is modelled as the function `Models.ExcluirUsuarioCascata` with lemmas, not as a `Store` method.
- `criado_em` (auto_now_add) is a timestamp parameter of reserving, because the clock is outside the model.
- Views.BuscarHorariosDisponiveis: its own contract states only that every listed time is valid. That every open time is listed is stated by `Views.HorasLivresAte` and `Views.BuscarHorariosConcordaComReserva`.
- Views.FiltrarHorarios: its own contract bounds the listed slots from above. Their exact content is stated by `Views.FiltrarHorariosLimitesIndependentes`.
- Views.AgendaProfissional: its own contract bounds the listed slots from above. Their exact content is stated by `Views.AgendaIgnoraLimiteSozinho` together with the filter lemma.
- Views.ExcluirServicoPreserva: it keeps the reservation invariant only when every booking is for its slot's service. The code does not enforce that agreement, and `Invariants.ExcluirServicoPodeDeixarHorarioPreso` shows the invariant failing without it.
- Persistence.Store.ExcluirServico: it has the same condition on the invariant, for the same reason.
- Persistence.Store.EditarAgendamento: on `Unavailable` it keeps only the weaker property. The code reopens the old slot before searching and never undoes that.
- Views.EditarAgendamentoPreserva: it states the invariant only for outcomes other than `Unavailable`, for the same reason.
- Invariants.ExcluirUsuarioPreservaAbertosEUnica: it does not state that reserved slots keep a booking. Deleting a client breaks that (`Invariants.ExcluirClienteDeixaHorarioPreso`).
