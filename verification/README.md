# Rental catalog: repositories and domain services for Renters and Locations

This project is a Dafny model of the core of a small rental catalog, a NestJS application backed by TypeORM and Postgres. The catalog stores **Renters** (individuals or companies, each with a unique email) and **Locations** (cars or houses, each owned by one renter through `renterId`). The model covers the two layers that hold the catalog's rules:

- **Repositories** (`RenterRepository`, `LocationRepository`) run CRUD and finder operations over the tables.
- **Domain services** (`RenterService`, `LocationService`) add the business rules in front of them:
  - existence checks that yield `NotFound(entity, id)`;
  - the renter email rule, which yields `Conflict`;
  - the location type check, which yields `InvalidType`.

## Structure

- `common.dfy`:
  - `Common` holds the result types. `Stored` is a repository result: done, or failed with a storage error. `Outcome` is a service result: `Ok`, `NotFound`, `Conflict`, `InvalidType`, or a storage error passed on unchanged.
  - `Tables` lists the rows of a table in ascending id order.
- `renter.dfy`, `location.dfy` (`Renters`, `Locations`): the rows, the create and update payloads, the type enumerations and the partial-update rule. `Renters` also holds the email rule and its lemmas.
- `storage.dfy` (`Storage.Database`): one database object holds both tables (maps from id to row) and the two id sequences. Its `Valid()` states what the schema guarantees:
  - ids are positive, stored under themselves and below their sequence, so an id is never handed out twice;
  - emails are unique (`unique: true` on the column);
  - every location references an existing renter (the foreign key of the `@ManyToOne` relation).
- `renter_repository.dfy`, `location_repository.dfy`: each repository class holds the database object. Writes are methods that modify the database. Finders are functions that read it.
- `renter_service.dfy`, `location_service.dfy`: each service class holds its repository. Its methods follow the source's check-then-act steps.
- `scenario.dfy`: three client methods that create, query and delete renters and locations. They use only the contracts.

## Decisions

- **Storage constraints are storage errors.** In the source, the database enforces two rules, not the services.
  - A duplicate email makes the unique index reject the write (`UniqueViolation`).
  - A location whose renter is missing makes the foreign key reject the write (`ForeignKeyViolation`).
  - Deleting a renter that still owns locations is also refused. The relation declares no `onDelete`, so TypeORM's default `NO ACTION` applies.
  - The services do not catch these errors: they reach the caller unchanged.
- **Location create does not check the renter first.** The service has no renter-existence check: `location.service.ts:32-45` forwards the payload as it is. A missing renter therefore surfaces only as the storage error.
- **`renterId` can be changed.** No operation is meant to move a location to another owner, but the update path passes any supplied field through. So the model accepts `renterId` in an update, and the foreign key checks the new value.
- **Failed inserts still use up an id.** A Postgres sequence advances even when the insert then fails. So a failed repository create leaves the rows unchanged but moves the sequence on. A `Conflict` from the renter service happens before the repository is called, so it changes nothing.
- **Empty emails skip the update check.** `renter.service.ts:57` tests the new email for JavaScript truthiness, so an empty string skips the lookup. `RenterService.Update` proves that this is the only way the update can reach the unique index (`r.StorageFailure? ==> u.email == Some("")`). `Renters.EmptyEmailSkipsCheck` gives the input where only the index prevents a duplicate. The create payload's email validator rejects an empty string before the service runs, so this is recorded as a property, not as a defect.
- **Nullable columns can be cleared.** An update payload can set `phone`, `address` or `description` to null. For these fields `Some(None)` stands for an explicit null.

## Model

| member | source | states |
|---|---|---|
| Locations.ParseLocationType | src/modules/location/services/location.service.ts:83 | a string is accepted exactly when some location type has it as its value, and then it names that type |
| Locations.ParseValueRoundTrip | src/modules/location/services/location.service.ts:83-86 | reading back the value a location type is stored as gives the same type |
| Renters.NoChangesKeepRow | src/modules/renter/repositories/renter.repository.ts:30-33 | an update that supplies no field leaves the row as it was |
| Renters.PatchIdempotent | src/modules/renter/repositories/renter.repository.ts:30-33 | applying the same partial update twice gives the same row as applying it once |
| Renters.FullUpdateActsAsCreate | src/modules/renter/repositories/renter.repository.ts:25-33 | updating a row with every field supplied gives the row that creating with those fields stores, under the same id |
| Renters.InsertKeepsEmailsDistinct | src/modules/renter/services/renter.service.ts:34-40 | adding a renter whose email no row holds, under an unused id, keeps emails pairwise distinct |
| Renters.UpdateCheckKeepsEmailsDistinct | src/modules/renter/services/renter.service.ts:57-64 | if the update's email lookup passes or is skipped, and the email is not empty, no other renter holds the new email and emails stay pairwise distinct, even without the unique index |
| Renters.EmptyEmailSkipsCheck | src/modules/renter/services/renter.service.ts:57 | with distinct emails, an update to the empty email skips the lookup yet would duplicate another renter's empty email |
| Locations.NoChangesKeepRow | src/modules/location/repository/location.repository.ts:30-36 | an update that supplies no field leaves the row as it was |
| Locations.PatchIdempotent | src/modules/location/repository/location.repository.ts:30-36 | applying the same partial update twice gives the same row as applying it once |
| Locations.FullUpdateActsAsCreate | src/modules/location/repository/location.repository.ts:25-36 | updating a row with every field supplied gives the row that creating with those fields stores, under the same id |
| Locations.NewLocationAvailableByDefault | src/modules/location/entities/location.entity.ts:34-35 | a location created without isAvailable is available |
| Storage.Database.constructor | src/modules/renter/entity/renter.entity.ts:14-15 | a new database has empty tables and both id sequences at 1, and satisfies the schema invariant |
| RenterRepositories.RenterRepository.FindAll | src/modules/renter/repositories/renter.repository.ts:14-16 | every stored renter is listed, only stored renters are listed, and there are as many entries as rows |
| RenterRepositories.RenterRepository.FindById | src/modules/renter/repositories/renter.repository.ts:18-23 | the result is the renter stored under the id, whose id is the argument, and None (null) exactly when no row has that id |
| RenterRepositories.RenterRepository.Create | src/modules/renter/repositories/renter.repository.ts:25-28 | the sequence advances by one; a held email fails with the unique violation and leaves the rows unchanged; otherwise exactly one row is added, built from the payload under an id above every existing id, and returned; the locations table is untouched |
| RenterRepositories.RenterRepository.Update | src/modules/renter/repositories/renter.repository.ts:30-33 | an absent id yields None with nothing changed; an email held by another row fails with the unique violation, nothing changed; otherwise only row `id` changes, to the patched row, which is returned |
| RenterRepositories.RenterRepository.Delete | src/modules/renter/repositories/renter.repository.ts:35-38 | a renter owning locations fails with the foreign key violation, nothing changed; otherwise exactly key `id` is removed and the result is true exactly when it was present |
| RenterRepositories.RenterRepository.FindByEmail | src/modules/renter/repositories/renter.repository.ts:40-42 | the result is present exactly when some renter holds the email; it is a stored renter with exactly that email, and, emails being unique, the one such renter |
| RenterRepositories.RenterRepository.FindByType | src/modules/renter/repositories/renter.repository.ts:44-49 | exactly the stored renters whose type value equals the string, each once; a string naming no type matches nothing |
| RenterServices.RenterService.FindAll | src/modules/renter/services/renter.service.ts:15-18 | returns the repository's list unchanged |
| RenterServices.RenterService.FindById | src/modules/renter/services/renter.service.ts:20-29 | the stored renter when the id is present, otherwise NotFound("Renter", id) |
| RenterServices.RenterService.Create | src/modules/renter/services/renter.service.ts:31-47 | a held email yields Conflict with the database unchanged; otherwise the payload is stored under the next id and returned; a storage error never results |
| RenterServices.RenterService.Update | src/modules/renter/services/renter.service.ts:49-69 | an unknown id yields NotFound with nothing changed; a new, non-empty, different email that is held yields Conflict with nothing changed; otherwise only the supplied fields of row `id` change and the row is returned; the unique index can fire only for the empty email |
| RenterServices.RenterService.Delete | src/modules/renter/services/renter.service.ts:71-80 | an unknown id yields NotFound with nothing deleted; a renter still owning locations yields the foreign key storage error with nothing deleted; otherwise the row is removed and the result is true |
| RenterServices.RenterService.FindByType | src/modules/renter/services/renter.service.ts:82-85 | returns the repository's list for the unchecked string |
| LocationRepositories.LocationRepository.FindAll | src/modules/location/repository/location.repository.ts:14-16 | every stored location is listed, only stored locations are listed, and there are as many entries as rows |
| LocationRepositories.LocationRepository.FindById | src/modules/location/repository/location.repository.ts:18-23 | the result is the location stored under the id, whose id is the argument, and None (null) exactly when no row has that id |
| LocationRepositories.LocationRepository.Create | src/modules/location/repository/location.repository.ts:25-28 | the sequence advances by one; a missing renter fails with the foreign key violation and leaves the rows unchanged; otherwise exactly one row is added, built from the payload under an id above every existing id, and returned; the renters table is untouched |
| LocationRepositories.LocationRepository.Update | src/modules/location/repository/location.repository.ts:30-36 | an absent id yields None with nothing changed; a patched renterId naming no renter fails with the foreign key violation, nothing changed; otherwise only row `id` changes, to the patched row, which is returned |
| LocationRepositories.LocationRepository.Delete | src/modules/location/repository/location.repository.ts:38-41 | the result is true exactly when a row with the id existed, and exactly that key is removed; nothing changes otherwise |
| LocationRepositories.LocationRepository.FindByRenter | src/modules/location/repository/location.repository.ts:43-48 | exactly the stored locations whose renterId is the argument, each once; empty when the renter does not exist |
| LocationRepositories.LocationRepository.FindByType | src/modules/location/repository/location.repository.ts:50-55 | exactly the stored locations of the type, each once |
| LocationServices.LocationService.FindAll | src/modules/location/services/location.service.ts:16-19 | returns the repository's list unchanged |
| LocationServices.LocationService.FindById | src/modules/location/services/location.service.ts:21-30 | the stored location when the id is present, otherwise NotFound("Location", id) |
| LocationServices.LocationService.Create | src/modules/location/services/location.service.ts:32-45 | without checking the renter: a missing renter yields the foreign key storage error with the rows unchanged; otherwise the payload is stored under the next id and returned |
| LocationServices.LocationService.Update | src/modules/location/services/location.service.ts:47-63 | an unknown id yields NotFound with nothing changed; a patched renterId naming no renter yields the foreign key storage error; otherwise only row `id` changes, to the patched row, which is returned |
| LocationServices.LocationService.Delete | src/modules/location/services/location.service.ts:65-74 | an unknown id yields NotFound with nothing deleted; otherwise exactly that row is removed and the result is true |
| LocationServices.LocationService.FindByRenter | src/modules/location/services/location.service.ts:76-79 | returns the repository's list for the renter id unchanged |
| LocationServices.LocationService.FindByType | src/modules/location/services/location.service.ts:81-87 | a string that is not a location type yields InvalidType("Invalid location type: …") before the repository is read; otherwise the repository's list for that type, whose entries all have that type value |

## Left out

- Controllers, module wiring, bootstrap and database configuration: HTTP routing and dependency injection only.
- Logging: it writes to the console with timestamps and has no effect on results.
- DTO validation (length limits, email and phone formats, `price >= 0`): it runs before the services and its validators are outside the repository. The varchar length limits of the columns are not modelled either.
- `createdAt` and `updatedAt`: clock values.
- `price` is a decimal column; here it is an unbounded integer (cents), with no precision limit.
- The enum files are not part of this model. Their values (`individual`, `company`, `car`, `house`) come from the unit and end-to-end tests.
- Eager relation loading (`Renter.locations`, `Location.renter`): the rows carry only their stored columns.
- Result order: the queries have no `ORDER BY`, so Postgres promises no order. The model lists rows by ascending id. The contracts state membership and count, not order.
- Concurrency: each operation is atomic and runs alone. So the check-then-write race windows are not modelled. The second `NotFound` branch in the update services (a row that vanished between check and write) is kept in the code but cannot be reached.
- Storage failures other than the two schema constraints (lost connections, timeouts) are not modelled.
- An update payload that supplies no field at all is modelled as a write that changes nothing. TypeORM's own handling of an empty update is not modelled.
