/** The renter entity: its row, the create and update payloads, and the email rule. */
module Renters {
  import opened Common

  /** The closed set of renter types; a row stores one of them. */
  datatype RenterType = Individual | Company

  /** The string a renter type is stored and queried as. */
  function RenterTypeValue(t: RenterType): string
  {
    match t
    case Individual => "individual"
    case Company => "company"
  }

  /** A row of the renters table (`type` is a reserved word here, so the field is `kind`). */
  datatype Renter = Renter(
    id: int,
    name: string,
    email: string,
    phone: Option<string>,
    kind: RenterType,
    address: Option<string>)

  /** The fields a caller supplies to create a renter. */
  datatype CreateRenter = CreateRenter(
    name: string,
    email: string,
    phone: Option<string>,
    kind: RenterType,
    address: Option<string>)

  /** The fields a caller may supply to update a renter: None means "not supplied";
      for the nullable columns Some(None) stands for an explicit null. */
  datatype UpdateRenter = UpdateRenter(
    name: Option<string>,
    email: Option<string>,
    phone: Option<Option<string>>,
    kind: Option<RenterType>,
    address: Option<Option<string>>)

  const NoRenterChanges := UpdateRenter(None, None, None, None, None)

  /** The row the database stores for a create under the id it assigned. */
  function NewRenter(id: int, c: CreateRenter): Renter
  {
    Renter(id, c.name, c.email, c.phone, c.kind, c.address)
  }

  /** The row after an update: every supplied field replaced, every other field kept. */
  function PatchRenter(row: Renter, u: UpdateRenter): Renter
  {
    Renter(
      row.id,
      if u.name.Some? then u.name.value else row.name,
      if u.email.Some? then u.email.value else row.email,
      if u.phone.Some? then u.phone.value else row.phone,
      if u.kind.Some? then u.kind.value else row.kind,
      if u.address.Some? then u.address.value else row.address)
  }

  /** The update that supplies every field of a create payload. */
  function FullUpdate(c: CreateRenter): UpdateRenter
  {
    UpdateRenter(Some(c.name), Some(c.email), Some(c.phone), Some(c.kind), Some(c.address))
  }

  lemma NoChangesKeepRow(row: Renter)
    ensures PatchRenter(row, NoRenterChanges) == row
  {
  }

  lemma PatchIdempotent(row: Renter, u: UpdateRenter)
    ensures PatchRenter(PatchRenter(row, u), u) == PatchRenter(row, u)
  {
  }

  /** Updating any row with every field supplied gives the row a create with those fields stores. */
  lemma FullUpdateActsAsCreate(row: Renter, c: CreateRenter)
    ensures PatchRenter(row, FullUpdate(c)) == NewRenter(row.id, c)
  {
  }

  /** The ids of the renters whose stored type is the string `t`. */
  function OfRenterType(rows: map<int, Renter>, t: string): set<int>
  {
    set id | id in rows && RenterTypeValue(rows[id].kind) == t
  }

  // ---- the email rule ----

  /** No two rows of the table share an email (the unique index on the column). */
  ghost predicate DistinctEmails(rows: map<int, Renter>)
  {
    forall a, b :: a in rows && b in rows && rows[a].email == rows[b].email ==> a == b
  }

  /** Some row other than `except` holds `email`. */
  ghost predicate EmailHeldByOther(rows: map<int, Renter>, email: string, except: int)
  {
    exists id :: id in rows && id != except && rows[id].email == email
  }

  /** Some row holds `email`. */
  ghost predicate EmailHeld(rows: map<int, Renter>, email: string)
  {
    exists id :: id in rows && rows[id].email == email
  }

  /** Whether the update service looks the new email up at all: only when one is supplied,
      it is a non-empty string (JavaScript truthiness) and it differs from the current one. */
  predicate ChecksEmail(current: Renter, u: UpdateRenter)
  {
    u.email.Some? && u.email.value != "" && u.email.value != current.email
  }

  /** Inserting a row whose email no row holds keeps emails distinct. */
  lemma InsertKeepsEmailsDistinct(rows: map<int, Renter>, row: Renter)
    requires DistinctEmails(rows)
    requires row.id !in rows
    requires !EmailHeld(rows, row.email)
    ensures DistinctEmails(rows[row.id := row])
  {
  }

  /** If the update service's email lookup passes (or is skipped), and the supplied email is
      not the empty string, the update keeps emails distinct: the service check alone guards the
      invariant, without the database's unique index. */
  lemma UpdateCheckKeepsEmailsDistinct(rows: map<int, Renter>, id: int, u: UpdateRenter)
    requires DistinctEmails(rows)
    requires id in rows
    requires ChecksEmail(rows[id], u) ==> !EmailHeld(rows, u.email.value)
    requires u.email != Some("")
    ensures !EmailHeldByOther(rows, PatchRenter(rows[id], u).email, id)
    ensures DistinctEmails(rows[id := PatchRenter(rows[id], u)])
  {
  }

  /** The empty email slips past the update service's lookup: two renters, one with the empty
      email; updating the other to the empty email passes the check yet would duplicate it. */
  lemma EmptyEmailSkipsCheck()
    ensures var rows := map[1 := Renter(1, "A", "", None, Individual, None),
                            2 := Renter(2, "B", "b@x.com", None, Company, None)];
            var u := NoRenterChanges.(email := Some(""));
            && DistinctEmails(rows)
            && !ChecksEmail(rows[2], u)
            && !DistinctEmails(rows[2 := PatchRenter(rows[2], u)])
  {
    var rows := map[1 := Renter(1, "A", "", None, Individual, None),
                     2 := Renter(2, "B", "b@x.com", None, Company, None)];
    var u := NoRenterChanges.(email := Some(""));
    var rows' := rows[2 := PatchRenter(rows[2], u)];
    assert rows'[1].email == rows'[2].email;
  }
}
