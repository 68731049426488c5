/** The database behind both repositories: the renters and locations tables, the sequences that
    hand out their ids, and the constraints the schema declares. */
module Storage {
  import opened Renters
  import opened Locations

  class Database {
    /** The renters table, by primary key. */
    var renters: map<int, Renter>
    /** The next value of the renters id sequence. */
    var renterSeq: int
    /** The locations table, by primary key. */
    var locations: map<int, Location>
    /** The next value of the locations id sequence. */
    var locationSeq: int

    /** What the schema guarantees of every committed state: ids are positive, stored under
        themselves and below their sequence (so a new id is never one used before), emails are
        unique, and every location references an existing renter. */
    ghost predicate Valid()
      reads this
    {
      && 1 <= renterSeq
      && 1 <= locationSeq
      && (forall id :: id in renters ==> 1 <= id < renterSeq && renters[id].id == id)
      && (forall id :: id in locations ==> 1 <= id < locationSeq && locations[id].id == id)
      && DistinctEmails(renters)
      && (forall id :: id in locations ==> locations[id].renterId in renters)
    }

    /** An empty database; both sequences start at 1. */
    constructor()
      ensures Valid()
      ensures renters == map[] && locations == map[]
      ensures renterSeq == 1 && locationSeq == 1
    {
      renters := map[];
      renterSeq := 1;
      locations := map[];
      locationSeq := 1;
    }
  }
}
