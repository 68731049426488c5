/** The location domain service: existence checks and the type check in front of the repository. */
module LocationServices {
  import opened Common
  import opened Locations
  import opened Storage
  import opened LocationRepositories

  /** The entity name carried by the not-found error. */
  const LocationEntity := "Location"

  /** The message of the error raised for a string outside the location types. */
  function InvalidTypeMessage(t: string): string
  {
    "Invalid location type: " + t
  }

  class LocationService {
    const repo: LocationRepository

    constructor(repo: LocationRepository)
      ensures this.repo == repo
    {
      this.repo := repo;
    }

    /** Every location, as the repository lists them. */
    method FindAll() returns (r: seq<Location>)
      requires repo.db.Valid()
      ensures r == repo.FindAll()
    {
      r := repo.FindAll();
    }

    /** The location with this id, or NotFound("Location", id). */
    method FindById(id: int) returns (r: Outcome<Location>)
      requires repo.db.Valid()
      ensures id in repo.db.locations ==> r == Ok(repo.db.locations[id])
      ensures id !in repo.db.locations ==> r == NotFound(LocationEntity, id)
    {
      var location := repo.FindById(id);
      if location.None? {
        r := NotFound(LocationEntity, id);
        return;
      }
      r := Ok(location.value);
    }

    /** Hands the payload unchanged to the repository, without checking that its renter exists:
        the foreign key rejects a missing renter, and that storage error is passed on. */
    method Create(c: CreateLocation) returns (r: Outcome<Location>)
      requires repo.db.Valid()
      modifies repo.db
      ensures repo.db.Valid()
      ensures repo.db.locationSeq == old(repo.db.locationSeq) + 1
      ensures repo.db.renters == old(repo.db.renters) && repo.db.renterSeq == old(repo.db.renterSeq)
      ensures c.renterId !in old(repo.db.renters) ==>
                r == StorageFailure(ForeignKeyViolation) && repo.db.locations == old(repo.db.locations)
      ensures c.renterId in old(repo.db.renters) ==>
                && r == Ok(NewLocation(old(repo.db.locationSeq), c))
                && repo.db.locations == old(repo.db.locations)[r.value.id := r.value]
    {
      var created := repo.Create(c);
      match created
      case Done(location) => r := Ok(location);
      case Failed(e) => r := StorageFailure(e);  // logged, then rethrown unchanged
    }

    /** NotFound for an unknown id, with nothing written; otherwise the repository writes the
        supplied fields and the re-read row is returned. */
    method Update(id: int, u: UpdateLocation) returns (r: Outcome<Location>)
      requires repo.db.Valid()
      modifies repo.db
      ensures repo.db.Valid()
      ensures id !in old(repo.db.locations) ==> r == NotFound(LocationEntity, id) && unchanged(repo.db)
      ensures id in old(repo.db.locations) ==>
                var row := PatchLocation(old(repo.db.locations)[id], u);
                if row.renterId !in old(repo.db.renters)
                then r == StorageFailure(ForeignKeyViolation) && unchanged(repo.db)
                else
                  && r == Ok(row)
                  && repo.db.locations == old(repo.db.locations)[id := row]
                  && repo.db.locationSeq == old(repo.db.locationSeq)
                  && repo.db.renters == old(repo.db.renters)
                  && repo.db.renterSeq == old(repo.db.renterSeq)
    {
      var existing := repo.FindById(id);
      if existing.None? {
        r := NotFound(LocationEntity, id);
        return;
      }
      var updated := repo.Update(id, u);
      match updated
      case Failed(e) => r := StorageFailure(e);
      case Done(None) => r := NotFound(LocationEntity, id);
      case Done(Some(location)) => r := Ok(location);
    }

    /** NotFound for an unknown id, with nothing deleted; otherwise the repository's answer. */
    method Delete(id: int) returns (r: Outcome<bool>)
      requires repo.db.Valid()
      modifies repo.db
      ensures repo.db.Valid()
      ensures id !in old(repo.db.locations) ==> r == NotFound(LocationEntity, id) && unchanged(repo.db)
      ensures id in old(repo.db.locations) ==>
                && r == Ok(true)
                && repo.db.locations == old(repo.db.locations) - {id}
                && repo.db.locationSeq == old(repo.db.locationSeq)
                && repo.db.renters == old(repo.db.renters)
                && repo.db.renterSeq == old(repo.db.renterSeq)
    {
      var existing := repo.FindById(id);
      if existing.None? {
        r := NotFound(LocationEntity, id);
        return;
      }
      var deleted := repo.Delete(id);
      match deleted
      case Failed(e) => r := StorageFailure(e);
      case Done(b) => r := Ok(b);
    }

    /** The locations of a renter, as the repository lists them. */
    method FindByRenter(renterId: int) returns (r: seq<Location>)
      requires repo.db.Valid()
      ensures r == repo.FindByRenter(renterId)
    {
      r := repo.FindByRenter(renterId);
    }

    /** Rejects a string that is not one of the location types before touching the
        repository; otherwise the repository's list for that type. */
    method FindByType(t: string) returns (r: Outcome<seq<Location>>)
      requires repo.db.Valid()
      ensures ParseLocationType(t).None? ==> r == InvalidType(InvalidTypeMessage(t))
      ensures ParseLocationType(t).Some? ==> r == Ok(repo.FindByType(ParseLocationType(t).value))
      ensures r.Ok? ==> forall x :: x in r.value ==> LocationTypeValue(x.kind) == t
    {
      var kind := ParseLocationType(t);
      if kind.None? {
        r := InvalidType(InvalidTypeMessage(t));
        return;
      }
      r := Ok(repo.FindByType(kind.value));
    }
  }
}
