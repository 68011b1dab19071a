/** The `users` table declared in database.go: the record, its defaults, and the
    primary-key and unique constraints that decide whether the database accepts
    an insert or a save. */
module Users {
  import opened Common

  /** One row of `users`. `id` 0 is Go's zero value: "no id yet". */
  datatype User = User(
    id: nat,
    firstName: string,
    lastName: string,
    phoneNumber: string,
    email: string,
    registrationDate: Time,
    membershipLevel: string,
    pointsBalance: int,
    createdAt: Time)

  /** Column default of `membership_level`. */
  const DefaultMembershipLevel: string := "Bronze"

  /** Column default of `points_balance`. */
  const DefaultPointsBalance: int := 0

  /** The table's shape: every row is stored under its own, non-zero, primary key. */
  predicate IdsAreKeys(rows: map<nat, User>) {
    forall k :: k in rows ==> k > 0 && rows[k].id == k
  }

  /** `phone_number` is unique. */
  predicate PhonesUnique(rows: map<nat, User>) {
    forall j, k :: j in rows && k in rows && rows[j].phoneNumber == rows[k].phoneNumber ==> j == k
  }

  /** `email` is unique. */
  predicate EmailsUnique(rows: map<nat, User>) {
    forall j, k :: j in rows && k in rows && rows[j].email == rows[k].email ==> j == k
  }

  /** What the table's declared constraints guarantee of its contents. */
  predicate TableInvariant(rows: map<nat, User>) {
    IdsAreKeys(rows) && PhonesUnique(rows) && EmailsUnique(rows)
  }

  /** Some row other than `except` already holds `phone`. */
  predicate PhoneTaken(rows: map<nat, User>, phone: string, except: nat) {
    exists k :: k in rows && k != except && rows[k].phoneNumber == phone
  }

  /** Some row other than `except` already holds `email`. */
  predicate EmailTaken(rows: map<nat, User>, email: string, except: nat) {
    exists k :: k in rows && k != except && rows[k].email == email
  }

  /** The record that an insert with no explicit membership level stores:
      a column left at Go's zero value takes its declared default. */
  function WithDefaults(u: User): (r: User)
    ensures r.membershipLevel != ""
    ensures u.membershipLevel != "" ==> r == u
    ensures u.membershipLevel == "" ==> r == u.(membershipLevel := DefaultMembershipLevel)
  {
    // A zero `points_balance` and its default 0 coincide (`DefaultPointsBalance`),
    // so only the membership level can change.
    if u.membershipLevel == "" then u.(membershipLevel := DefaultMembershipLevel) else u
  }

  /** INSERT of row `u`, whose id has already been assigned (a zero id is
      replaced by the next sequence value before the row is written): refused
      exactly when it would repeat a primary key, a phone number or an email. */
  function Insert(rows: map<nat, User>, u: User): (r: Option<map<nat, User>>)
    requires u.id > 0
    ensures r.Some? <==> u.id !in rows && !PhoneTaken(rows, u.phoneNumber, u.id) && !EmailTaken(rows, u.email, u.id)
    ensures r.Some? ==> r.value == rows[u.id := u]
    ensures r.Some? && TableInvariant(rows) ==> TableInvariant(r.value)
  {
    if u.id in rows || PhoneTaken(rows, u.phoneNumber, u.id) || EmailTaken(rows, u.email, u.id) then None
    else Some(rows[u.id := u])
  }

  /** gorm's Save of `u`: an UPDATE of the row with `u`'s primary key, refused
      exactly when it would give that row a phone number or an email another row
      holds; when no row has that key, Save falls back to an INSERT. `u`
      carries a non-zero id, as every record read from the table does. */
  function Save(rows: map<nat, User>, u: User): (r: Option<map<nat, User>>)
    requires u.id > 0
    ensures u.id in rows ==> (r.Some? <==> !PhoneTaken(rows, u.phoneNumber, u.id) && !EmailTaken(rows, u.email, u.id))
    ensures u.id !in rows ==> r == Insert(rows, u)
    ensures r.Some? ==> r.value == rows[u.id := u]
    ensures r.Some? && TableInvariant(rows) ==> TableInvariant(r.value)
  {
    if u.id !in rows then Insert(rows, u)
    else if PhoneTaken(rows, u.phoneNumber, u.id) || EmailTaken(rows, u.email, u.id) then None
    else Some(rows[u.id := u])
  }

  /** A write that repeats another row's phone number fails, whichever of the
      two writes it is. */
  lemma DuplicatePhoneRejected(rows: map<nat, User>, u: User, k: nat)
    requires u.id > 0 && k in rows && k != u.id && rows[k].phoneNumber == u.phoneNumber
    ensures Insert(rows, u).None? && Save(rows, u).None?
  {
    assert PhoneTaken(rows, u.phoneNumber, u.id);
  }

  /** A write that repeats another row's email fails, whichever of the two
      writes it is. */
  lemma DuplicateEmailRejected(rows: map<nat, User>, u: User, k: nat)
    requires u.id > 0 && k in rows && k != u.id && rows[k].email == u.email
    ensures Insert(rows, u).None? && Save(rows, u).None?
  {
    assert EmailTaken(rows, u.email, u.id);
  }
}
