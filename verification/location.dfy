/** The location entity: its row, the create and update payloads, and its type enumeration. */
module Locations {
  import opened Common

  /** The closed set of location types; a row stores one of them. */
  datatype LocationType = Car | House

  /** The string a location type is stored and queried as. */
  function LocationTypeValue(t: LocationType): string
  {
    match t
    case Car => "car"
    case House => "house"
  }

  /** Membership of a string among the values of the enumeration, and the member it names. */
  function ParseLocationType(s: string): (r: Option<LocationType>)
    ensures r.Some? <==> exists t :: LocationTypeValue(t) == s
    ensures r.Some? ==> LocationTypeValue(r.value) == s
  {
    if s == LocationTypeValue(Car) then Some(Car)
    else if s == LocationTypeValue(House) then Some(House)
    else None
  }

  /** Reading a type back from the string it is stored as gives the type. */
  lemma ParseValueRoundTrip(t: LocationType)
    ensures ParseLocationType(LocationTypeValue(t)) == Some(t)
  {
  }

  /** A row of the locations table (`type` is a reserved word here, so the field is `kind`).
      The price is a decimal column; here it is a number of cents. */
  datatype Location = Location(
    id: int,
    name: string,
    description: Option<string>,
    price: int,
    kind: LocationType,
    isAvailable: bool,
    renterId: int)

  /** The fields a caller supplies to create a location; isAvailable may be left out. */
  datatype CreateLocation = CreateLocation(
    name: string,
    description: Option<string>,
    price: int,
    kind: LocationType,
    isAvailable: Option<bool>,
    renterId: int)

  /** The fields a caller may supply to update a location: None means "not supplied";
      for the nullable description Some(None) stands for an explicit null. */
  datatype UpdateLocation = UpdateLocation(
    name: Option<string>,
    description: Option<Option<string>>,
    price: Option<int>,
    kind: Option<LocationType>,
    isAvailable: Option<bool>,
    renterId: Option<int>)

  const NoLocationChanges := UpdateLocation(None, None, None, None, None, None)

  /** The column default of isAvailable. */
  const AvailableByDefault := true

  /** The row the database stores for a create under the id it assigned. */
  function NewLocation(id: int, c: CreateLocation): Location
  {
    Location(id, c.name, c.description, c.price, c.kind,
             if c.isAvailable.Some? then c.isAvailable.value else AvailableByDefault,
             c.renterId)
  }

  /** The row after an update: every supplied field replaced, every other field kept. */
  function PatchLocation(row: Location, u: UpdateLocation): Location
  {
    Location(
      row.id,
      if u.name.Some? then u.name.value else row.name,
      if u.description.Some? then u.description.value else row.description,
      if u.price.Some? then u.price.value else row.price,
      if u.kind.Some? then u.kind.value else row.kind,
      if u.isAvailable.Some? then u.isAvailable.value else row.isAvailable,
      if u.renterId.Some? then u.renterId.value else row.renterId)
  }

  /** The update that supplies every field of a create payload (isAvailable at its default when left out). */
  function FullUpdate(c: CreateLocation): UpdateLocation
  {
    UpdateLocation(
      Some(c.name), Some(c.description), Some(c.price), Some(c.kind),
      Some(if c.isAvailable.Some? then c.isAvailable.value else AvailableByDefault),
      Some(c.renterId))
  }

  lemma NoChangesKeepRow(row: Location)
    ensures PatchLocation(row, NoLocationChanges) == row
  {
  }

  lemma PatchIdempotent(row: Location, u: UpdateLocation)
    ensures PatchLocation(PatchLocation(row, u), u) == PatchLocation(row, u)
  {
  }

  /** Updating any row with every field supplied gives the row a create with those fields stores. */
  lemma FullUpdateActsAsCreate(row: Location, c: CreateLocation)
    ensures PatchLocation(row, FullUpdate(c)) == NewLocation(row.id, c)
  {
  }

  /** A location left available unless the caller says otherwise. */
  lemma NewLocationAvailableByDefault(id: int, c: CreateLocation)
    requires c.isAvailable == None
    ensures NewLocation(id, c).isAvailable
  {
  }

  /** The ids of the locations a renter owns. */
  function OwnedBy(rows: map<int, Location>, renterId: int): set<int>
  {
    set id | id in rows && rows[id].renterId == renterId
  }

  /** The ids of the locations of one type. */
  function OfLocationType(rows: map<int, Location>, t: LocationType): set<int>
  {
    set id | id in rows && rows[id].kind == t
  }
}
