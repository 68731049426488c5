/** The renter domain service: existence checks and the email rule in front of the repository. */
module RenterServices {
  import opened Common
  import opened Renters
  import opened Storage
  import opened RenterRepositories
  import Locations

  /** The entity name carried by the not-found error. */
  const RenterEntity := "Renter"
  /** The message of the conflict raised when an email is already held. */
  const EmailTaken := "Renter with this email already exists"

  class RenterService {
    const repo: RenterRepository

    constructor(repo: RenterRepository)
      ensures this.repo == repo
    {
      this.repo := repo;
    }

    /** Every renter, as the repository lists them. */
    method FindAll() returns (r: seq<Renter>)
      requires repo.db.Valid()
      ensures r == repo.FindAll()
    {
      r := repo.FindAll();
    }

    /** The renter with this id, or NotFound("Renter", id). */
    method FindById(id: int) returns (r: Outcome<Renter>)
      requires repo.db.Valid()
      ensures id in repo.db.renters ==> r == Ok(repo.db.renters[id])
      ensures id !in repo.db.renters ==> r == NotFound(RenterEntity, id)
    {
      var renter := repo.FindById(id);
      if renter.None? {
        r := NotFound(RenterEntity, id);
        return;
      }
      r := Ok(renter.value);
    }

    /** Refuses an email some renter already holds, before anything is written; otherwise hands
        the payload unchanged to the repository and returns what it stored. */
    method Create(c: CreateRenter) returns (r: Outcome<Renter>)
      requires repo.db.Valid()
      modifies repo.db
      ensures repo.db.Valid()
      ensures EmailHeld(old(repo.db.renters), c.email) ==>
                r == Conflict(EmailTaken) && unchanged(repo.db)
      ensures !EmailHeld(old(repo.db.renters), c.email) ==>
                && r == Ok(NewRenter(old(repo.db.renterSeq), c))
                && repo.db.renters == old(repo.db.renters)[r.value.id := r.value]
                && repo.db.renterSeq == old(repo.db.renterSeq) + 1
                && repo.db.locations == old(repo.db.locations)
                && repo.db.locationSeq == old(repo.db.locationSeq)
      ensures !r.StorageFailure?
    {
      var existing := repo.FindByEmail(c.email);
      if existing.Some? {
        r := Conflict(EmailTaken);
        return;
      }
      var created := repo.Create(c);
      match created
      case Done(renter) => r := Ok(renter);
      case Failed(e) => r := StorageFailure(e);  // logged, then rethrown unchanged
    }

    /** NotFound for an unknown id before anything else; a Conflict, with nothing written, when
        a new, non-empty email differs from the current one and is already held; otherwise the
        repository writes the supplied fields and the re-read row is returned. */
    method Update(id: int, u: UpdateRenter) returns (r: Outcome<Renter>)
      requires repo.db.Valid()
      modifies repo.db
      ensures repo.db.Valid()
      ensures id !in old(repo.db.renters) ==> r == NotFound(RenterEntity, id) && unchanged(repo.db)
      ensures id in old(repo.db.renters) && ChecksEmail(old(repo.db.renters)[id], u)
              && EmailHeld(old(repo.db.renters), u.email.value) ==>
                r == Conflict(EmailTaken) && unchanged(repo.db)
      ensures id in old(repo.db.renters)
              && !(ChecksEmail(old(repo.db.renters)[id], u) && EmailHeld(old(repo.db.renters), u.email.value)) ==>
                var row := PatchRenter(old(repo.db.renters)[id], u);
                if EmailHeldByOther(old(repo.db.renters), row.email, id)
                then r == StorageFailure(UniqueViolation) && unchanged(repo.db)
                else
                  && r == Ok(row)
                  && repo.db.renters == old(repo.db.renters)[id := row]
                  && repo.db.renterSeq == old(repo.db.renterSeq)
                  && repo.db.locations == old(repo.db.locations)
                  && repo.db.locationSeq == old(repo.db.locationSeq)
      ensures r.StorageFailure? ==> u.email == Some("")
    {
      var existing := repo.FindById(id);
      if existing.None? {
        r := NotFound(RenterEntity, id);
        return;
      }
      if u.email.Some? && u.email.value != "" && u.email.value != existing.value.email {
        var holder := repo.FindByEmail(u.email.value);
        if holder.Some? {
          r := Conflict(EmailTaken);
          return;
        }
      }
      if u.email != Some("") {
        UpdateCheckKeepsEmailsDistinct(repo.db.renters, id, u);
      }
      var updated := repo.Update(id, u);
      match updated
      case Failed(e) => r := StorageFailure(e);
      case Done(None) => r := NotFound(RenterEntity, id);
      case Done(Some(renter)) => r := Ok(renter);
    }

    /** NotFound for an unknown id, with nothing deleted; otherwise the repository's answer. */
    method Delete(id: int) returns (r: Outcome<bool>)
      requires repo.db.Valid()
      modifies repo.db
      ensures repo.db.Valid()
      ensures id !in old(repo.db.renters) ==> r == NotFound(RenterEntity, id) && unchanged(repo.db)
      ensures id in old(repo.db.renters) && Locations.OwnedBy(old(repo.db.locations), id) != {} ==>
                r == StorageFailure(ForeignKeyViolation) && unchanged(repo.db)
      ensures id in old(repo.db.renters) && Locations.OwnedBy(old(repo.db.locations), id) == {} ==>
                && r == Ok(true)
                && repo.db.renters == old(repo.db.renters) - {id}
                && repo.db.renterSeq == old(repo.db.renterSeq)
                && repo.db.locations == old(repo.db.locations)
                && repo.db.locationSeq == old(repo.db.locationSeq)
    {
      var existing := repo.FindById(id);
      if existing.None? {
        r := NotFound(RenterEntity, id);
        return;
      }
      var deleted := repo.Delete(id);
      match deleted
      case Failed(e) => r := StorageFailure(e);
      case Done(b) => r := Ok(b);
    }

    /** The renters of the given type, as the repository lists them; the string is passed on
        without being checked against the enumeration. */
    method FindByType(t: string) returns (r: seq<Renter>)
      requires repo.db.Valid()
      ensures r == repo.FindByType(t)
    {
      r := repo.FindByType(t);
    }
  }
}
