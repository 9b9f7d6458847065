# lockstream projection engine, modelled in Dafny

lockstream is an event-sourced service for parcel lockers. Domain events are appended
to a log that only grows:

- a compartment is registered;
- a reservation is created;
- a parcel is deposited, then picked up;
- a reservation expires;
- a fault is reported, then cleared.

Each accepted event is projected onto four read-model tables: lockers, compartments,
reservations and faults. Each locker row carries three counters and a state hash; the
hash is SHA-256 of the canonical JSON of the locker's id and counters. The projection
can also be rebuilt by resetting the tables and replaying the whole log.

This project models the ingestion use case, the rebuild use case, the four entities,
the fault repository and the event store. It proves the properties the code promises.

Layout:

- `events.dfy`: the event, its seven type tags and the JSON kinds of payload values.
- `compartment.dfy`, `reservation.dfy`, `locker.dfy`, `fault_reported.dfy`: the entities.
  Each is a class with the source's fields and in-place transitions, and each is proved
  against a row value (`Row()`).
- `fault_repository.dfy`: the fault table, its `get` and `upsert`, and the active-fault
  summary.
- `event_store.dfy`: the append-only log: `append`, `_exists`, `load_all`,
  `load_by_locker`.
- `projection.dfy`: the specification. It holds the read model as four maps (`Tables`) and
  one function per handler returning `Result<Tables, Error>`. It also defines:
  - `Project`, handler dispatch;
  - `Execute`, deduplicate then project, over `Engine(log, tables)`;
  - `IngestAll`;
  - `Replay`, `Reset` and `Rebuild`, the rebuild use case.
- `ingest_event.dfy`: `IngestEventUseCase`. It keeps the locker, compartment and
  reservation tables as map fields and holds the fault repository and the event store as
  objects. Every handler is a method that loads entities, mutates them and writes them
  back. Each method is proved to write exactly what the specification function computes,
  and to write nothing when that function fails.
- `rebuild.dfy`: `RebuildLockerProjectionUseCase`. Its replay loop is proved to compute
  `Rebuild`.
- `invariants.dfy`, `engine_facts.dfy`, `replay_facts.dfy`, `schema.dfy`,
  `reservation_facts.dfy`, `fault_facts.dfy`: properties of the specification.
  - Table invariants: keys match rows, hashes are consistent, counters are non-negative,
    faults and reservation pointers resolve.
  - Idempotent resubmission.
  - Incremental ingestion equals a full rebuild.
  - The payload-error conditions.
  - Reservation lifecycle rules.
  - Severity-threshold degradation and the flags derived from active faults.
- `refusals.dfy`: each handler's rejection ladder: which check comes first, and which
  rejection is a ValidationError and which a DomainRuleViolation.
- `scenarios.dfy`: the two end-to-end walkthroughs of the service's behaviour, and
  re-registration.
- `findings.dfy`: the rebuild discrepancy listed under Findings.

Where the behaviour the repository documents (the endpoint docstring at
`lockstream/presentation/routers.py:32-40`, which answers every rejected event with 409 or
422, and the tests), or the behaviour one would expect of a reservation lifecycle, differs
from the code, the model follows the code:

- A missing or ill-typed payload key raises a plain `ValueError`, not a `ValidationError`
  (`lockstream/core/use_cases/ingest_event.py:88-102`). The HTTP layer maps only
  `ValidationError` and `DomainRuleViolation` (`lockstream/presentation/routers.py:41-46`).
- An unknown event type is also a `ValueError`.
- Nothing is rolled back when a handler raises after `add_if_absent` accepted the event.
  The event stays in the log, and the tables keep what the handler wrote before raising.
  Every rejection the model raises (ValueError, ValidationError, DomainRuleViolation) is
  decided before the handler's first write, so on those a failing handler writes nothing;
  `Projection.Execute` states this. The source can also fail after writing, on a database
  constraint or an integer too wide for the database; those failures are not modelled (see
  "Left out").
- On replay the first such event raises, and every later full rebuild stops there with the
  same error (`EngineFacts.FirstRaiseStopsRebuild`).
- PICKED_UP and EXPIRED are not final states. An expiry after a pickup turns the
  reservation EXPIRED and counts the locker's active reservations down a second time
  (`lockstream/core/use_cases/ingest_event.py:218-233`,
  `ReservationFacts.ExpiryAfterPickupDecrementsAgain`). A ReservationCreated that reuses the
  id of a finished reservation overwrites it as CREATED, because the upsert does not check
  whether the id exists (`lockstream/core/use_cases/ingest_event.py:143-150`,
  `ReservationFacts.FinishedReservationRecreated`).
- A fault below the severity threshold can degrade a compartment. Registering a compartment
  again overwrites it as healthy while its faults stay active
  (`lockstream/core/use_cases/ingest_event.py:107-121`). The next fault report recomputes
  the flags from every active fault (`lockstream/core/use_cases/ingest_event.py:257-271`),
  so with a severe fault still active a severity-1 report sets the compartment degraded and
  counts it a second time: L1 then counts two degraded compartments although C1 is its only
  one (`Scenarios.MildFaultDegradesAfterReregistration`). The documented promise that a
  fault below the threshold never degrades holds only while the flags are derived from the
  active faults, which only re-registration breaks (`FaultFacts.MildFaultNeverDegrades`,
  `FaultFacts.ExecuteKeepsFlagsDerived`).

## Model

| member | source | states |
|---|---|---|
| Events.ParseType | lockstream/infrastructure/models/models.py:47-54 | a tag is recognised only as the event type whose string value it is |
| Events.ParseTypeName | lockstream/core/entities/event.py:9-16 | every one of the seven type names is recognised as its own type, so the names are distinct |
| CompartmentEntity.TryAssign | lockstream/core/entities/compartment.py:14-19 | assignment succeeds iff the compartment is neither degraded nor reserved; a degraded compartment is refused with the degraded error first; success changes only the reservation pointer |
| CompartmentEntity.Compartment.constructor | lockstream/core/entities/compartment.py:6-12 | a new compartment is healthy, not faulty and without reservation |
| CompartmentEntity.Compartment.AssignReservation | lockstream/core/entities/compartment.py:14-19 | the entity changes as `TryAssign` says; on refusal it is unchanged and the refusal is returned |
| CompartmentEntity.Compartment.ClearReservation | lockstream/core/entities/compartment.py:21-22 | only the reservation pointer becomes empty |
| CompartmentEntity.Compartment.MarkFaulty | lockstream/core/entities/compartment.py:24-25 | only the faulty flag is set |
| CompartmentEntity.Compartment.MarkDegraded | lockstream/core/entities/compartment.py:27-28 | only the degraded flag is set |
| CompartmentEntity.Compartment.ClearDegraded | lockstream/core/entities/compartment.py:30-31 | only the degraded flag is cleared |
| ReservationEntity.Reservation.MarkDeposited | lockstream/core/entities/reservation.py:21-22 | only the status changes, to DEPOSITED, whatever it was |
| ReservationEntity.Reservation.MarkPickedUp | lockstream/core/entities/reservation.py:24-25 | only the status changes, to PICKED_UP |
| ReservationEntity.Reservation.MarkExpired | lockstream/core/entities/reservation.py:27-28 | only the status changes, to EXPIRED |
| LockerEntity.Rehash | lockstream/core/entities/locker.py:16-28 | the stored hash becomes the hash of the row's own id and counters; id and counters are unchanged |
| LockerEntity.RehashIgnoresPreviousHash | lockstream/core/entities/locker.py:20-27 | the new hash does not depend on the old one, and rehashing is idempotent |
| LockerEntity.Locker.constructor | lockstream/core/entities/locker.py:8-14 | a new locker has all counters at zero and an empty hash |
| LockerEntity.Locker.SetStateHash | lockstream/core/entities/locker.py:16-28 | stores and returns the hash of the current id and counters, changing nothing else |
| FaultEntity.TryClear | lockstream/core/entities/fault_reported.py:18-22 | clearing succeeds iff the fault is not yet cleared, records the clearing event, and keeps id, locker, compartment and severity |
| FaultEntity.ClearAtMostOnce | lockstream/core/entities/fault_reported.py:18-22 | a second clear is always refused, so the first clearing event id is never overwritten |
| FaultEntity.FaultReported.constructor | lockstream/core/entities/fault_reported.py:11-16 | a new fault is not cleared and has no clearing event |
| FaultEntity.FaultReported.Clear | lockstream/core/entities/fault_reported.py:18-22 | the entity changes as `TryClear` says; on refusal it is unchanged |
| FaultRepo.ActiveSummary | lockstream/infrastructure/repositories/fault_repository_impl.py:43-57 | the count is the number of uncleared faults of that locker and compartment; the flag holds iff one of them has severity at least 3; no active fault gives (0, false) |
| FaultRepo.FaultRepository.Get | lockstream/infrastructure/repositories/fault_repository_impl.py:15-27 | None exactly when no fault is stored under the id, else the stored row |
| FaultRepo.FaultRepository.Upsert | lockstream/infrastructure/repositories/fault_repository_impl.py:29-41 | every field of the row keyed by the fault's event id is overwritten, other rows are untouched |
| EventLog.ByLocker | lockstream/infrastructure/models/models.py:43-44 | the result is no longer than the log and holds only records of that locker |
| EventLog.ByLockerMembers | lockstream/infrastructure/models/models.py:43-44 | a record is in the result iff it is in the log and belongs to that locker |
| EventLog.ByLockerAppend | lockstream/infrastructure/models/models.py:43-44 | filtering commutes with appending, so the log's order is kept |
| EventLog.EventStore.Exists | lockstream/infrastructure/models/models.py:31-36 | true iff some record carries the id |
| EventLog.EventStore.Append | lockstream/infrastructure/models/models.py:23-29 | a new id is appended at the end and reported added; a known id leaves the log unchanged and reports not added; ids stay unique |
| EventLog.EventStore.LoadAll | lockstream/infrastructure/models/models.py:38-41 | returns every record in append order |
| Projection.RequireStr | lockstream/core/use_cases/ingest_event.py:88-95 | succeeds iff the key holds a non-empty string, returning it; otherwise a ValueError naming the key |
| Projection.RequireInt | lockstream/core/use_cases/ingest_event.py:97-102 | succeeds iff the key holds an integer, where a boolean is not one; otherwise a ValueError naming the key |
| Projection.Project | lockstream/core/use_cases/ingest_event.py:69-73 | definition: dispatch on the type tag, an unknown tag a ValueError; `IngestEvent.IngestEventUseCase.Project` is proved equal to it |
| Projection.OnCompartmentRegistered | lockstream/core/use_cases/ingest_event.py:107-121 | definition; the IngestEvent method of the same name is proved equal to it |
| Projection.OnReservationCreated | lockstream/core/use_cases/ingest_event.py:123-157 | definition; the IngestEvent method of the same name is proved equal to it |
| Projection.OnParcelDeposited | lockstream/core/use_cases/ingest_event.py:159-180 | definition; the IngestEvent method of the same name is proved equal to it |
| Projection.OnParcelPickedUp | lockstream/core/use_cases/ingest_event.py:182-215 | definition; the IngestEvent method of the same name is proved equal to it |
| Projection.OnReservationExpired | lockstream/core/use_cases/ingest_event.py:218-233 | definition; the IngestEvent method of the same name is proved equal to it |
| Projection.OnFaultReported | lockstream/core/use_cases/ingest_event.py:235-271 | definition; the IngestEvent method of the same name is proved equal to it |
| Projection.OnFaultCleared | lockstream/core/use_cases/ingest_event.py:273-312 | definition; the IngestEvent method of the same name is proved equal to it |
| Projection.IngestAll | lockstream/core/use_cases/ingest_event.py:61-67 | definition: `execute` applied to each submission in turn, one result per submission |
| Projection.Reset | lockstream/services/lockstream_service.py:140-147 | definition: the service's resetter empties lockers, compartments and reservations and keeps faults; the full resetter empties all four; `ResetProjection` is proved equal to it |
| Projection.Rebuild | lockstream/core/use_cases/rebuild_locker_projection.py:50-58 | definition: reset, then replay the log, returning the count or the first error; `RebuildLockerProjectionUseCase.Execute` is proved equal to it |
| Projection.Execute | lockstream/core/use_cases/ingest_event.py:61-67 | an already logged id changes nothing and reports not accepted; a new event is appended to the log; a failing projection leaves the tables as they were |
| Projection.Replay | lockstream/core/use_cases/rebuild_locker_projection.py:53-56 | replay stops at the first raising event; without error every event is replayed |
| IngestEvent.IngestEventUseCase.Execute | lockstream/core/use_cases/ingest_event.py:61-67 | the log, tables and result are exactly those of `Projection.Execute` |
| IngestEvent.IngestEventUseCase.Project | lockstream/core/use_cases/ingest_event.py:69-73 | dispatches on the type tag; the tables become `Projection.Project` of the old tables, and nothing is written on error |
| IngestEvent.IngestEventUseCase.GetOrCreateLocker | lockstream/core/use_cases/ingest_event.py:78-82 | returns a fresh entity holding the stored row, or a zeroed locker when none is stored |
| IngestEvent.IngestEventUseCase.UpsertLockerWithStateHash | lockstream/core/use_cases/ingest_event.py:84-86 | the locker table gets the rehashed row under its id |
| IngestEvent.IngestEventUseCase.OnCompartmentRegistered | lockstream/core/use_cases/ingest_event.py:107-121 | writes exactly `Projection.OnCompartmentRegistered`, nothing on error |
| IngestEvent.IngestEventUseCase.OnReservationCreated | lockstream/core/use_cases/ingest_event.py:123-157 | writes exactly `Projection.OnReservationCreated`, nothing on error |
| IngestEvent.IngestEventUseCase.RecordReservation | lockstream/core/use_cases/ingest_event.py:139-157 | the locker counts one more active reservation, the reservation is stored CREATED, and the compartment points at it |
| IngestEvent.IngestEventUseCase.PointCompartmentAt | lockstream/core/use_cases/ingest_event.py:152-157 | the stored compartment, or a fresh one when none is stored, is written back pointing at the reservation |
| IngestEvent.IngestEventUseCase.OnParcelDeposited | lockstream/core/use_cases/ingest_event.py:159-180 | writes exactly `Projection.OnParcelDeposited`, nothing on error |
| IngestEvent.IngestEventUseCase.OnParcelPickedUp | lockstream/core/use_cases/ingest_event.py:182-215 | writes exactly `Projection.OnParcelPickedUp`, nothing on error |
| IngestEvent.IngestEventUseCase.ReleaseCompartment | lockstream/core/use_cases/ingest_event.py:208-211 | the compartment's pointer is cleared only when it points at this reservation |
| IngestEvent.IngestEventUseCase.ReleaseLockerReservation | lockstream/core/use_cases/ingest_event.py:213-215 | the locker counts one active reservation fewer, floored at zero, and is rehashed |
| IngestEvent.IngestEventUseCase.OnReservationExpired | lockstream/core/use_cases/ingest_event.py:218-233 | writes exactly `Projection.OnReservationExpired` |
| IngestEvent.IngestEventUseCase.OnFaultReported | lockstream/core/use_cases/ingest_event.py:235-271 | writes exactly `Projection.OnFaultReported`, nothing on error |
| IngestEvent.IngestEventUseCase.WriteFaultAndRefresh | lockstream/core/use_cases/ingest_event.py:246-266 | the fault is upserted, the compartment's flags are recomputed from the new fault table and written back, and the flag it had before is returned |
| IngestEvent.IngestEventUseCase.CountDegraded | lockstream/core/use_cases/ingest_event.py:268-271 | the locker counts one more degraded compartment and is rehashed |
| IngestEvent.IngestEventUseCase.OnFaultCleared | lockstream/core/use_cases/ingest_event.py:273-312 | writes exactly `Projection.OnFaultCleared`, nothing on error |
| RebuildProjection.RebuildLockerProjectionUseCase.ResetProjection | lockstream/core/use_cases/rebuild_locker_projection.py:51 | the projector's tables become `Projection.Reset` of the old ones |
| IngestEvent.IngestEventUseCase.UncountDegraded | lockstream/core/use_cases/ingest_event.py:309-312 | the locker counts one degraded compartment fewer, floored at zero, and is rehashed |
| RebuildProjection.RebuildLockerProjectionUseCase.ReplayNext | lockstream/core/use_cases/rebuild_locker_projection.py:54-56 | projects the next event; on success the replayed prefix grows by one, on error the tables and the error are those of replaying the whole log |
| RebuildProjection.RebuildLockerProjectionUseCase.Execute | lockstream/core/use_cases/rebuild_locker_projection.py:50-58 | returns `Projection.Rebuild`, the replay count or the first error, and leaves the tables as the replay of the whole log from the reset tables |
| ReplayFacts.ReplayStopsAtError | lockstream/core/use_cases/rebuild_locker_projection.py:54-56 | once a prefix of the log raises, the rest of the log is not replayed |
| ReplayFacts.ReplayExtends | lockstream/core/use_cases/rebuild_locker_projection.py:54-56 | after a clean prefix, projecting the next event either extends the clean prefix or is where the whole replay stops |
| ReplayFacts.ReplayStep | lockstream/core/use_cases/rebuild_locker_projection.py:54-56 | replaying one more event projects it onto the tables so far |
| Invariants.PutLockerValid | lockstream/core/use_cases/ingest_event.py:84-86 | writing a locker with non-negative counters keeps the invariants |
| Invariants.RegisteredKeepsValid | lockstream/core/use_cases/ingest_event.py:107-121 | registration keeps keys, hashes, non-negative counters and pointers valid |
| Invariants.CreatedKeepsValid | lockstream/core/use_cases/ingest_event.py:123-157 | reservation creation keeps the invariants |
| Invariants.DepositedKeepsValid | lockstream/core/use_cases/ingest_event.py:159-180 | deposit keeps the invariants |
| Invariants.PickedUpKeepsValid | lockstream/core/use_cases/ingest_event.py:182-215 | pickup keeps the invariants; the counter never goes negative |
| Invariants.ExpiredKeepsValid | lockstream/core/use_cases/ingest_event.py:218-233 | expiry keeps the invariants |
| Invariants.ReportedKeepsValid | lockstream/core/use_cases/ingest_event.py:235-271 | a fault report keeps the invariants, and faults stay on registered compartments |
| Invariants.ClearedKeepsValid | lockstream/core/use_cases/ingest_event.py:273-312 | a fault clear keeps the invariants, and the degraded count never goes negative |
| Invariants.ProjectKeepsValid | lockstream/core/use_cases/ingest_event.py:69-73 | every successful projection keeps every table invariant |
| EngineFacts.ProjectFaultIds | lockstream/core/use_cases/ingest_event.py:246-255 | a projection adds no fault id other than the event's own |
| EngineFacts.ResubmissionIgnored | lockstream/tests/test_event_idempotency.py:53-71 | resubmitting an id, whatever the rest of the event, reports not accepted and leaves log and tables unchanged |
| EngineFacts.ExecuteKeepsValid | lockstream/core/use_cases/ingest_event.py:61-67 | ingestion keeps the log free of repeated ids, the tables valid and every fault id logged |
| EngineFacts.IngestAllKeepsValid | lockstream/core/use_cases/ingest_event.py:61-67 | the same for any sequence of submissions |
| EngineFacts.ExecuteKeepsReplay | lockstream/core/use_cases/ingest_event.py:61-67 | after a non-raising submission the tables are still the replay of the log |
| EngineFacts.IngestAllReplays | lockstream/core/use_cases/rebuild_locker_projection.py:50-58 | after submissions that raise nothing, the tables are the replay of the log |
| EngineFacts.FirstRaiseStopsRebuild | lockstream/core/use_cases/rebuild_locker_projection.py:50-58 | when a submission of a run from an empty store is the first to raise, every later full rebuild, however many events follow in the log, fails with that same error |
| EngineFacts.RebuildMatchesIngestion | lockstream/tests/test_identical_state_hash_between_projection_and_incremental_application.py:49-80 | a rebuild that resets every table reproduces the incrementally built tables, hashes included, and reports the whole log replayed |
| PayloadSchema.RequiredField | lockstream/core/use_cases/ingest_event.py:88-95 | a well-formed event's required string field is what `_require_str` returns |
| PayloadSchema.ValueErrorExactlyWhenMalformed | lockstream/core/use_cases/ingest_event.py:88-102 | a projection raises ValueError iff the event is malformed (unknown type, or a required key missing or ill-typed), and the error names such a key |
| PayloadSchema.MalformedIgnoresState | lockstream/core/use_cases/ingest_event.py:107-108 | a malformed event gives the same outcome on any tables |
| ReservationFacts.ProjectAdvancesStatuses | lockstream/core/use_cases/ingest_event.py:123-233 | no reservation is ever deleted, and one projection changes at most one status, by one of these moves: CREATED to DEPOSITED, DEPOSITED to PICKED_UP, any existing status to EXPIRED (PICKED_UP included), or any row, existing ones of every status included, (re)created as CREATED |
| ReservationFacts.FinishedReservationRecreated | lockstream/core/use_cases/ingest_event.py:143-150 | a ReservationCreated reusing the id of a PICKED_UP or EXPIRED reservation on a free, healthy compartment succeeds and makes the reservation CREATED again |
| ReservationFacts.SecondReservationRefused | lockstream/core/use_cases/ingest_event.py:134-137 | a reserved or degraded compartment refuses a reservation with a DomainRuleViolation; the degraded error wins |
| ReservationFacts.ReservedCompartmentRefusesNext | lockstream/core/use_cases/ingest_event.py:123-157 | after a successful reservation, a second one for the same compartment is refused |
| ReservationFacts.ReservationCreatedEffect | lockstream/core/use_cases/ingest_event.py:139-157 | the compartment points at the reservation, the reservation is CREATED, the locker counts one more and its hash is consistent |
| ReservationFacts.DepositNeedsReservation | lockstream/core/use_cases/ingest_event.py:162-164 | depositing for an unknown reservation is a ValidationError naming it |
| ReservationFacts.PickupNeedsDeposit | lockstream/core/use_cases/ingest_event.py:197-203 | picking up a reservation that is not DEPOSITED is a DomainRuleViolation: "is expired" for an EXPIRED one, and "not deposited", naming the status, for a CREATED or an already PICKED_UP one |
| ReservationFacts.PickupReleases | lockstream/core/use_cases/ingest_event.py:205-215 | after pickup the reservation is PICKED_UP; its compartment's pointer is cleared if it names the reservation and the row is otherwise unchanged; no other compartment changes; the locker counts one fewer, floored at zero |
| ReservationFacts.ExpiryTolerant | lockstream/core/use_cases/ingest_event.py:218-233 | expiry never raises on a well-formed event; a known reservation becomes EXPIRED, its compartment's pointer is cleared if it names it, and no other compartment changes; an unknown reservation changes no reservation or compartment; either way the counter is decremented, floored at zero |
| ReservationFacts.ExpiryAfterPickupDecrementsAgain | lockstream/core/use_cases/ingest_event.py:213-233 | an expiry after a pickup of the same reservation sets it EXPIRED and decrements the active count a second time |
| Refusals.RegisteredNeverRefuses | lockstream/core/use_cases/ingest_event.py:107-121 | a well-formed registration is always projected |
| Refusals.CreatedRefusals | lockstream/core/use_cases/ingest_event.py:123-137 | an unregistered compartment is a ValidationError; then a degraded compartment, then one already reserved, is a DomainRuleViolation; the event is projected iff the compartment is registered, healthy and free |
| Refusals.DepositRefusals | lockstream/core/use_cases/ingest_event.py:159-177 | an unknown reservation, then a payload compartment other than the reservation's, is a ValidationError; then a status other than CREATED is a DomainRuleViolation naming it; projected iff none applies |
| Refusals.PickupRefusals | lockstream/core/use_cases/ingest_event.py:182-203 | an unknown reservation, then a mismatching compartment, is a ValidationError; then EXPIRED, then CREATED or PICKED_UP, is a DomainRuleViolation; projected iff the reservation is DEPOSITED |
| Refusals.ExpiredNeverRefuses | lockstream/core/use_cases/ingest_event.py:218-233 | a well-formed expiry is always projected, whatever the tables hold |
| Refusals.ReportRefusals | lockstream/core/use_cases/ingest_event.py:235-244 | an unregistered compartment is a ValidationError, and a well-formed report is projected iff its compartment is registered |
| Refusals.ClearRefusals | lockstream/core/use_cases/ingest_event.py:273-294 | an unregistered compartment is a ValidationError; then an unknown fault, a fault of another compartment, and an already cleared fault are each a DomainRuleViolation, in that order; projected iff none applies |
| FaultFacts.SummaryUnaffected | lockstream/infrastructure/repositories/fault_repository_impl.py:43-57 | writing a fault inactive for a compartment leaves that compartment's summary unchanged |
| FaultFacts.MildFaultKeepsSeverity | lockstream/infrastructure/repositories/fault_repository_impl.py:43-57 | a new fault below severity 3 does not change whether a severe active fault exists |
| FaultFacts.MildFaultNeverDegrades | lockstream/tests/test_fault_severity_behavior.py:62-79 | when every compartment's flags were derived from its active faults before, a fault below the threshold leaves the degraded flag and every locker unchanged |
| FaultFacts.SevereFaultDegrades | lockstream/core/use_cases/ingest_event.py:257-271 | a fault of severity at least 3 marks the compartment degraded and faulty, and counts it degraded once |
| FaultFacts.ClearedDegradedIff | lockstream/core/use_cases/ingest_event.py:298-307 | after a clear, the compartment is degraded iff another active fault of severity at least 3 remains |
| FaultFacts.ClearDecrementsOnlyIfDegraded | lockstream/tests/test_fault_severity_behavior.py:115-179 | a clear decrements the degraded count, floored at zero, only when the compartment was degraded and no severe fault remains |
| FaultFacts.RegisteredKeepsFlags | lockstream/core/use_cases/ingest_event.py:107-121 | a first registration of a compartment keeps every flag derived from the active faults |
| FaultFacts.CreatedKeepsFlags | lockstream/core/use_cases/ingest_event.py:123-157 | a reservation leaves every flag and every fault as they were, so the flags stay derived from the active faults |
| FaultFacts.DepositedKeepsFlags | lockstream/core/use_cases/ingest_event.py:159-180 | a deposit keeps every flag derived from the active faults |
| FaultFacts.PickedUpKeepsFlags | lockstream/core/use_cases/ingest_event.py:182-215 | a pickup, which only clears a reservation pointer, keeps every flag derived from the active faults |
| FaultFacts.ExpiredKeepsFlags | lockstream/core/use_cases/ingest_event.py:218-233 | an expiry keeps every flag derived from the active faults |
| FaultFacts.ReportedKeepsFlags | lockstream/core/use_cases/ingest_event.py:235-271 | a new fault report keeps every flag derived from the active faults |
| FaultFacts.ClearedKeepsFlags | lockstream/core/use_cases/ingest_event.py:273-312 | a fault clear keeps every flag derived from the active faults |
| FaultFacts.ProjectKeepsFlagsDerived | lockstream/core/use_cases/ingest_event.py:69-73 | every projection other than re-registering an existing compartment keeps degraded equal to "some active fault of severity at least 3" |
| FaultFacts.ExecuteKeepsFlagsDerived | lockstream/core/use_cases/ingest_event.py:61-67 | the same holds across ingestion of any submission that does not re-register an existing compartment |
| Scenarios.ReservationWalkthrough | lockstream/tests/test_identical_state_hash_between_projection_and_incremental_application.py:49-60 | register, reserve, deposit and pick up end with the compartment free, the reservation PICKED_UP and the locker at one compartment and no active reservation |
| Scenarios.FaultWalkthrough | lockstream/tests/test_falut_cleared_integrity_ref.py:115-154 | from any tables without locker L1 and without faults, the empty ones included: a severity-3 fault degrades the compartment and the locker counts it; clearing it restores the compartment and the count returns to zero; a second clear is refused |
| Scenarios.ReregistrationResetsFlags | lockstream/core/use_cases/ingest_event.py:107-121 | from any tables without locker L1 and without faults, re-registering a compartment that has an active severe fault makes it read healthy while the fault stays active; the locker counts two compartments and still one degraded, and a later clear leaves that count at one |
| Scenarios.MildFaultDegradesAfterReregistration | lockstream/core/use_cases/ingest_event.py:257-271 | from any tables without locker L1 and without faults, after C1 is registered again while a severe fault is active for it, a severity-1 report sets C1 degraded and L1 counts two degraded compartments |
| Findings.SqlResetRebuildRaises | lockstream/services/lockstream_service.py:140-147 | with the service's reset, the rebuild of a concrete log raises, although incremental ingestion of that log raised nothing |

## Left out

- SHA-256 is not modelled. `LockerEntity.StateHash` is the canonical JSON text the source
  digests, and every property proved is an equality of hashes. The escaping `json.dumps`
  applies inside a locker id is not modelled.
- `occurred_at` is not modelled, because no handler reads it.
- I/O is not modelled: the JSONL file, SQL sessions, per-write commits and the HTTP layer.
  The tables are maps and the event log is a sequence.
- Concurrency and transactions are not modelled. The source commits each repository write
  separately; the model relies on every handler checking before it writes.
- Database constraints are not modelled, and their violations are not failures of the model.
  Every handler writes a locker row before the rows that refer to it, so the foreign keys
  hold. The uniqueness of `compartments.active_reservation_id` (models.py:94-99) can be
  broken: with R1 still CREATED on C1 and C1 pointing at it, a ReservationCreated for R1 on
  a free C2 makes the source commit L1's `active_reservations + 1` and R1's row on C2, then
  raise an IntegrityError at the compartment upsert (ingest_event.py:139-157), which the HTTP
  layer does not map; the event stays in the log. The model projects that event
  successfully and leaves both C1 and C2 pointing at R1.
- Integer width is not modelled. A severity outside the 64-bit range of the database's
  INTEGER column makes the source raise at the fault upsert (ingest_event.py:246-255); the
  model accepts any integer. The counters are unbounded integers too.
- The conversion of the wire string into `EventType` happens in the service, outside the
  core. The model takes the tag as a string, and an unrecognised tag is a ValueError, as the
  handler lookup raises one.
- Payload values are JSON kinds. Floats, lists and objects are collapsed into `Other`,
  which is never accepted where a string or an integer is required.
- Error messages are modelled as structured reasons, not as text.
- The repositories for lockers, compartments and reservations are plain map fields of the
  use case. Their `get` returns a fresh entity and their `upsert` overwrites by key, as the
  SQL implementations do.
- `load_by_locker` is modelled as the function `EventLog.ByLocker` (with
  `EventStore.LoadByLocker` reading it), because the source's query is a filter.
- FaultFacts.ProjectKeepsFlagsDerived: proved only for events that do not re-register an
  existing compartment, because re-registration resets the flags while faults stay active
  (`Scenarios.ReregistrationResetsFlags`).
- FaultFacts.ExecuteKeepsFlagsDerived: proved only for submissions that do not re-register
  an existing compartment, for the same reason; after such a submission the flags no longer
  agree with the active faults.
- FaultFacts.MildFaultNeverDegrades: proved only when every compartment's flags are derived
  from its active faults. After a re-registration that breaks this, a report below the
  threshold does set the compartment degraded and counts it
  (`Scenarios.MildFaultDegradesAfterReregistration`), so the documented promise does not
  hold of the source in that state.

## Findings

| source | as written | input that shows it | evidently intended | confidence | as-written member | corrected member |
|---|---|---|---|---|---|---|
| lockstream/services/lockstream_service.py:140-147 | the service's projection reset deletes compartments, reservations and lockers but keeps the faults table | log: register L1/C1, fault e2 (severity 1), reservation R1 on C1, fault e4 (severity 3). Ingested incrementally it raises nothing. On rebuild, the faults table still holds e2 and e4. Replaying e2 recomputes C1's flags from every active fault, the stale e4 included, so C1 turns degraded and replaying the reservation raises "Cannot assign reservation to a degraded compartment" | reset every projection table, faults included, so that a rebuild reproduces the incremental state, as the rebuild test expects | not executed | Findings.SqlResetRebuildRaises | EngineFacts.RebuildMatchesIngestion |
