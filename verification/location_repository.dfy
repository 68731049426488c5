/** The location repository: CRUD and finders over the locations table. */
module LocationRepositories {
  import opened Common
  import opened Locations
  import opened Storage
  import Tables

  class LocationRepository {
    const db: Database

    constructor(db: Database)
      ensures this.db == db
    {
      this.db := db;
    }

    /** Every stored location, each once. */
    function FindAll(): (r: seq<Location>)
      reads db
      requires db.Valid()
      ensures |r| == |db.locations|
      ensures forall id :: id in db.locations ==> db.locations[id] in r
      ensures forall x :: x in r ==> x.id in db.locations && db.locations[x.id] == x
    {
      Tables.Listing(db.locations, db.locations.Keys)
    }

    /** The location stored under `id`, or None (null) when there is none. */
    function FindById(id: int): (r: Option<Location>)
      reads db
      requires db.Valid()
      ensures r.Some? <==> id in db.locations
      ensures r.Some? ==> r.value.id == id && db.locations[id] == r.value
    {
      if id in db.locations then Some(db.locations[id]) else None
    }

    /** Inserts a row built from `c` under the next id of the sequence. The sequence value is
        consumed even when the insert then breaks the foreign key to the renters table. */
    method Create(c: CreateLocation) returns (r: Stored<Location>)
      requires db.Valid()
      modifies db
      ensures db.Valid()
      ensures db.locationSeq == old(db.locationSeq) + 1
      ensures db.renters == old(db.renters) && db.renterSeq == old(db.renterSeq)
      ensures c.renterId !in old(db.renters) ==>
                r == Failed(ForeignKeyViolation) && db.locations == old(db.locations)
      ensures c.renterId in old(db.renters) ==>
                && r == Done(NewLocation(old(db.locationSeq), c))
                && db.locations == old(db.locations)[r.value.id := r.value]
      ensures r.Done? ==> forall k :: k in old(db.locations) ==> k < r.value.id
    {
      var id := db.locationSeq;
      db.locationSeq := id + 1;
      if c.renterId !in db.renters {
        r := Failed(ForeignKeyViolation);
        return;
      }
      var row := NewLocation(id, c);
      db.locations := db.locations[id := row];
      r := Done(row);
    }

    /** Writes the supplied fields of row `id` and reads the row back: None (null) when no row
        has that id, in which case nothing is written. */
    method Update(id: int, u: UpdateLocation) returns (r: Stored<Option<Location>>)
      requires db.Valid()
      modifies db
      ensures db.Valid()
      ensures db.locationSeq == old(db.locationSeq)
      ensures db.renters == old(db.renters) && db.renterSeq == old(db.renterSeq)
      ensures id !in old(db.locations) ==> r == Done(None) && unchanged(db)
      ensures id in old(db.locations) ==>
                var row := PatchLocation(old(db.locations)[id], u);
                if row.renterId !in old(db.renters)
                then r == Failed(ForeignKeyViolation) && unchanged(db)
                else r == Done(Some(row)) && db.locations == old(db.locations)[id := row]
    {
      if id in db.locations {
        var row := PatchLocation(db.locations[id], u);
        if row.renterId !in db.renters {
          r := Failed(ForeignKeyViolation);
          return;
        }
        db.locations := db.locations[id := row];
      }
      r := Done(FindById(id));
    }

    /** Deletes row `id`; true exactly when a row was removed. */
    method Delete(id: int) returns (r: Stored<bool>)
      requires db.Valid()
      modifies db
      ensures db.Valid()
      ensures db.locationSeq == old(db.locationSeq)
      ensures db.renters == old(db.renters) && db.renterSeq == old(db.renterSeq)
      ensures r == Done(id in old(db.locations))
      ensures db.locations == old(db.locations) - {id}
      ensures id !in old(db.locations) ==> unchanged(db)
    {
      var affected: Option<int> := Some(if id in db.locations then 1 else 0);
      assert id !in db.locations ==> db.locations - {id} == db.locations;
      db.locations := db.locations - {id};
      r := Done((if affected.Some? then affected.value else 0) > 0);
    }

    /** The locations whose renterId is `renterId`, each once; none when the renter owns
        none, and none when no such renter exists. */
    function FindByRenter(renterId: int): (r: seq<Location>)
      reads db
      requires db.Valid()
      ensures |r| == |OwnedBy(db.locations, renterId)|
      ensures forall id :: id in db.locations && db.locations[id].renterId == renterId ==> db.locations[id] in r
      ensures forall x :: x in r ==> x.id in db.locations && db.locations[x.id] == x && x.renterId == renterId
      ensures renterId !in db.renters ==> r == []
    {
      Tables.Listing(db.locations, OwnedBy(db.locations, renterId))
    }

    /** The locations of type `t`, each once. */
    function FindByType(t: LocationType): (r: seq<Location>)
      reads db
      requires db.Valid()
      ensures |r| == |OfLocationType(db.locations, t)|
      ensures forall id :: id in db.locations && db.locations[id].kind == t ==> db.locations[id] in r
      ensures forall x :: x in r ==> x.id in db.locations && db.locations[x.id] == x && x.kind == t
    {
      Tables.Listing(db.locations, OfLocationType(db.locations, t))
    }
  }
}
