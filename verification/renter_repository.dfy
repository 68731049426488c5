/** The renter repository: CRUD and finders over the renters table. */
module RenterRepositories {
  import opened Common
  import opened Renters
  import opened Storage
  import Tables
  import Locations

  class RenterRepository {
    const db: Database

    constructor(db: Database)
      ensures this.db == db
    {
      this.db := db;
    }

    /** Every stored renter, each once. */
    function FindAll(): (r: seq<Renter>)
      reads db
      requires db.Valid()
      ensures |r| == |db.renters|
      ensures forall id :: id in db.renters ==> db.renters[id] in r
      ensures forall x :: x in r ==> x.id in db.renters && db.renters[x.id] == x
    {
      Tables.Listing(db.renters, db.renters.Keys)
    }

    /** The renter stored under `id`, or None (null) when there is none. */
    function FindById(id: int): (r: Option<Renter>)
      reads db
      requires db.Valid()
      ensures r.Some? <==> id in db.renters
      ensures r.Some? ==> r.value.id == id && db.renters[id] == r.value
    {
      if id in db.renters then Some(db.renters[id]) else None
    }

    /** Inserts a row built from `c` under the next id of the sequence. The sequence value is
        consumed even when the insert then breaks the unique email index. */
    method Create(c: CreateRenter) returns (r: Stored<Renter>)
      requires db.Valid()
      modifies db
      ensures db.Valid()
      ensures db.renterSeq == old(db.renterSeq) + 1
      ensures db.locations == old(db.locations) && db.locationSeq == old(db.locationSeq)
      ensures EmailHeld(old(db.renters), c.email) ==>
                r == Failed(UniqueViolation) && db.renters == old(db.renters)
      ensures !EmailHeld(old(db.renters), c.email) ==>
                && r == Done(NewRenter(old(db.renterSeq), c))
                && db.renters == old(db.renters)[r.value.id := r.value]
      ensures r.Done? ==> forall k :: k in old(db.renters) ==> k < r.value.id
    {
      var id := db.renterSeq;
      db.renterSeq := id + 1;
      if exists k | k in db.renters :: db.renters[k].email == c.email {
        r := Failed(UniqueViolation);
        return;
      }
      var row := NewRenter(id, c);
      InsertKeepsEmailsDistinct(db.renters, row);
      db.renters := db.renters[id := row];
      r := Done(row);
    }

    /** Writes the supplied fields of row `id` and reads the row back: None (null) when no row
        has that id, in which case nothing is written. */
    method Update(id: int, u: UpdateRenter) returns (r: Stored<Option<Renter>>)
      requires db.Valid()
      modifies db
      ensures db.Valid()
      ensures db.renterSeq == old(db.renterSeq)
      ensures db.locations == old(db.locations) && db.locationSeq == old(db.locationSeq)
      ensures id !in old(db.renters) ==> r == Done(None) && unchanged(db)
      ensures id in old(db.renters) ==>
                var row := PatchRenter(old(db.renters)[id], u);
                if EmailHeldByOther(old(db.renters), row.email, id)
                then r == Failed(UniqueViolation) && unchanged(db)
                else r == Done(Some(row)) && db.renters == old(db.renters)[id := row]
    {
      if id in db.renters {
        var row := PatchRenter(db.renters[id], u);
        if exists k | k in db.renters :: k != id && db.renters[k].email == row.email {
          r := Failed(UniqueViolation);
          return;
        }
        db.renters := db.renters[id := row];
      }
      r := Done(FindById(id));
    }

    /** Deletes row `id`; true exactly when a row was removed. A renter that still owns
        locations cannot be removed: the foreign key of the locations table rejects it. */
    method Delete(id: int) returns (r: Stored<bool>)
      requires db.Valid()
      modifies db
      ensures db.Valid()
      ensures db.renterSeq == old(db.renterSeq)
      ensures db.locations == old(db.locations) && db.locationSeq == old(db.locationSeq)
      ensures id in old(db.renters) && Locations.OwnedBy(old(db.locations), id) != {} ==>
                r == Failed(ForeignKeyViolation) && unchanged(db)
      ensures !(id in old(db.renters) && Locations.OwnedBy(old(db.locations), id) != {}) ==>
                && r == Done(id in old(db.renters))
                && db.renters == old(db.renters) - {id}
      ensures id !in old(db.renters) ==> unchanged(db)
    {
      if id in db.renters && Locations.OwnedBy(db.locations, id) != {} {
        r := Failed(ForeignKeyViolation);
        return;
      }
      assert forall l :: l in db.locations && db.locations[l].renterId == id ==>
        l in Locations.OwnedBy(db.locations, id);
      var affected: Option<int> := Some(if id in db.renters then 1 else 0);
      assert id !in db.renters ==> db.renters - {id} == db.renters;
      db.renters := db.renters - {id};
      r := Done(affected.Some? && affected.value > 0);
    }

    /** A renter holding exactly this email, or None (null); there is at most one. */
    function FindByEmail(email: string): (r: Option<Renter>)
      reads db
      requires db.Valid()
      ensures r.Some? <==> EmailHeld(db.renters, email)
      ensures r.Some? ==> r.value.email == email && r.value.id in db.renters && db.renters[r.value.id] == r.value
      ensures forall id :: id in db.renters && db.renters[id].email == email ==> r == Some(db.renters[id])
    {
      var ids := set k | k in db.renters && db.renters[k].email == email;
      assert forall k :: k in db.renters && db.renters[k].email == email ==> k in ids;
      if ids == {} then None
      else
        var m := Tables.Least(ids);
        assert m in db.renters && db.renters[m].email == email;
        Some(db.renters[m])
    }

    /** The renters whose type is stored as the string `t`, each once; the string is not
        checked against the enumeration, so any other string matches no row. */
    function FindByType(t: string): (r: seq<Renter>)
      reads db
      requires db.Valid()
      ensures |r| == |OfRenterType(db.renters, t)|
      ensures forall id :: id in db.renters && RenterTypeValue(db.renters[id].kind) == t ==> db.renters[id] in r
      ensures forall x :: x in r ==> x.id in db.renters && db.renters[x.id] == x && RenterTypeValue(x.kind) == t
      ensures (forall k :: RenterTypeValue(k) != t) ==> r == []
    {
      Tables.Listing(db.renters, OfRenterType(db.renters, t))
    }
  }
}
