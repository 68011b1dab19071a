/** The five HTTP handlers of routes.go over the `users` table, which stands in
    for the process-wide gorm handle. A request body arrives already decoded
    (`None` when it is not valid JSON for a user), the path id already parsed,
    the clock as a value, and every database error other than a constraint
    violation or a missing row as a flag the caller sets. */
module Routes {
  import opened Common
  import opened Users

  /** The JSON a handler sends back. */
  datatype Body =
    | UserJson(user: User)
    | UserListJson(users: seq<User>)
    | ErrorJson(error: string)
    | MessageJson(message: string)

  /** A handler's reply: the HTTP status code and the body. */
  datatype Response = Response(status: nat, body: Body)

  const FetchUsersFailed: string := "Failed to fetch users"
  const UserNotFound: string := "User not found"
  const FetchUserFailed: string := "Failed to fetch user"
  const InvalidBody: string := "Invalid request body"
  const FieldsRequired: string := "First name, last name, phone number, and email are required"
  const CreateFailed: string := "Failed to create user"
  const UpdateFailed: string := "Failed to update user"
  const DeleteFailed: string := "Failed to delete user"
  const Deleted: string := "User deleted successfully"

  /** CreateUser's validator: the four fields a new user must supply. */
  predicate HasRequiredFields(u: User) {
    u.firstName != "" && u.lastName != "" && u.phoneNumber != "" && u.email != ""
  }

  /** What every row written through these handlers satisfies: the required
      fields present and a membership level set. */
  predicate Complete(u: User) {
    HasRequiredFields(u) && u.membershipLevel != ""
  }

  /** A text field of UpdateUser's merge: a non-empty supplied value replaces
      the stored one. */
  function MergeText(stored: string, supplied: string): (r: string)
    ensures supplied != "" ==> r == supplied
    ensures supplied == "" ==> r == stored
  {
    if supplied != "" then supplied else stored
  }

  /** UpdateUser's merge of request body `update` into the stored record. */
  function Merged(stored: User, update: User): (r: User)
    // the id, the registration date and the creation time are the stored ones
    ensures r.id == stored.id && r.registrationDate == stored.registrationDate && r.createdAt == stored.createdAt
    // each of the five text fields: the supplied value if non-empty, else the stored one
    ensures r.firstName == MergeText(stored.firstName, update.firstName)
    ensures r.lastName == MergeText(stored.lastName, update.lastName)
    ensures r.phoneNumber == MergeText(stored.phoneNumber, update.phoneNumber)
    ensures r.email == MergeText(stored.email, update.email)
    ensures r.membershipLevel == MergeText(stored.membershipLevel, update.membershipLevel)
    // the balance: the supplied one when it is not negative, so a 0 resets it
    ensures update.pointsBalance >= 0 ==> r.pointsBalance == update.pointsBalance
    ensures update.pointsBalance < 0 ==> r.pointsBalance == stored.pointsBalance
    // no negative balance unless one was already stored
    ensures stored.pointsBalance >= 0 ==> r.pointsBalance >= 0
    // a complete record stays complete
    ensures Complete(stored) ==> Complete(r)
  {
    stored.(
      firstName := MergeText(stored.firstName, update.firstName),
      lastName := MergeText(stored.lastName, update.lastName),
      phoneNumber := MergeText(stored.phoneNumber, update.phoneNumber),
      email := MergeText(stored.email, update.email),
      membershipLevel := MergeText(stored.membershipLevel, update.membershipLevel),
      pointsBalance := if update.pointsBalance >= 0 then update.pointsBalance else stored.pointsBalance)
  }

  /** Applying the same update twice gives what applying it once gives. */
  lemma MergeIdempotent(stored: User, update: User)
    ensures Merged(Merged(stored, update), update) == Merged(stored, update)
  {
  }

  /** A body whose text fields are all empty and whose balance is negative
      leaves the stored record as it is. */
  lemma MergeEmptyUpdateKeeps(stored: User, update: User)
    requires update.firstName == "" && update.lastName == "" && update.phoneNumber == ""
    requires update.email == "" && update.membershipLevel == "" && update.pointsBalance < 0
    ensures Merged(stored, update) == stored
  {
  }

  /** A body that leaves out `points_balance` decodes it as Go's zero value, so
      even an update of the name alone resets the stored balance to 0. */
  lemma MergeOmittedBalanceResets(stored: User, update: User)
    requires update.pointsBalance == 0
    ensures Merged(stored, update).pointsBalance == 0
  {
  }

  /** Sending the same PUT twice leaves the table as the first one left it:
      the second merge changes nothing and its save is accepted. */
  lemma UpdateTwiceSameTable(rows: map<nat, User>, id: nat, update: User)
    requires TableInvariant(rows) && id in rows
    requires Save(rows, Merged(rows[id], update)).Some?
    ensures var after := Save(rows, Merged(rows[id], update)).value;
            id in after && Save(after, Merged(after[id], update)) == Some(after)
  {
    var u := Merged(rows[id], update);
    var after := Save(rows, u).value;
    assert u.id == id && after == rows[id := u];
    MergeIdempotent(rows[id], update);
    assert Merged(after[id], update) == u;
    assert after[id := u] == after;
  }

  /** The record CreateUser hands to the database: the decoded body with the
      registration date set to the handler's clock reading `now`, the creation
      time set to gorm's own later reading `createdNow` when the body left it
      at zero, the next sequence value as id when the body gave none,
      and the column defaults applied. */
  function NewRecord(body: User, now: Time, createdNow: Time, nextId: nat): (r: User)
    ensures r.firstName == body.firstName && r.lastName == body.lastName
    ensures r.phoneNumber == body.phoneNumber && r.email == body.email
    ensures r.registrationDate == now
    ensures r.createdAt == if body.createdAt == ZeroTime then createdNow else body.createdAt
    ensures r.id == if body.id == 0 then nextId else body.id
    ensures r.membershipLevel == if body.membershipLevel == "" then DefaultMembershipLevel else body.membershipLevel
    ensures r.pointsBalance == body.pointsBalance
    ensures HasRequiredFields(body) ==> Complete(r)
  {
    WithDefaults(body.(
      id := if body.id == 0 then nextId else body.id,
      registrationDate := now,
      createdAt := if body.createdAt == ZeroTime then createdNow else body.createdAt))
  }

  /** The users in `rows` with an id below `n`, in ascending id order: a full
      scan of the table. */
  function Scan(rows: map<nat, User>, n: nat): (r: seq<User>)
    requires IdsAreKeys(rows)
    ensures forall i :: 0 <= i < |r| ==> r[i].id < n && r[i].id in rows && rows[r[i].id] == r[i]
    ensures forall i, j :: 0 <= i < j < |r| ==> r[i].id < r[j].id
    ensures forall k :: k in rows && k < n ==> rows[k] in r
  {
    if n == 0 then []
    else Scan(rows, n - 1) + (if n - 1 in rows then [rows[n - 1]] else [])
  }

  /** The `users` table and the id sequence of its primary key. The sequence
      only grows, so an id is never handed out twice. */
  class UserTable {
    var rows: map<nat, User>
    var nextId: nat

    /** The declared constraints, the sequence above every stored id, and
        every stored record complete. */
    ghost predicate Valid()
      reads this
    {
      && TableInvariant(rows)
      && nextId > 0
      && (forall k :: k in rows ==> k < nextId)
      && (forall k :: k in rows ==> Complete(rows[k]))
    }

    /** An empty table. */
    constructor ()
      ensures Valid() && rows == map[]
    {
      rows := map[];
      nextId := 1;
    }

    /** GET /users: every stored user, or 500 when the query fails. */
    method GetUsers(readFails: bool) returns (resp: Response)
      requires Valid()
      ensures readFails ==> resp == Response(500, ErrorJson(FetchUsersFailed))
      ensures !readFails ==> resp.status == 200 && resp.body.UserListJson?
      ensures !readFails ==> forall k :: k in rows ==> rows[k] in resp.body.users
      ensures !readFails ==> forall u :: u in resp.body.users ==> u.id in rows && rows[u.id] == u
      ensures !readFails ==> forall i, j :: 0 <= i < j < |resp.body.users| ==> resp.body.users[i].id < resp.body.users[j].id
    {
      if readFails {
        return Response(500, ErrorJson(FetchUsersFailed));
      }
      var users := Scan(rows, nextId);
      return Response(200, UserListJson(users));
    }

    /** GET /users/:id. */
    method GetUserByID(id: nat, readFails: bool) returns (resp: Response)
      ensures readFails ==> resp == Response(500, ErrorJson(FetchUserFailed))
      ensures !readFails && id !in rows ==> resp == Response(404, ErrorJson(UserNotFound))
      ensures !readFails && id in rows ==> resp == Response(200, UserJson(rows[id]))
    {
      if readFails {
        return Response(500, ErrorJson(FetchUserFailed));
      }
      if id !in rows {
        return Response(404, ErrorJson(UserNotFound));
      }
      return Response(200, UserJson(rows[id]));
    }

    /** POST /users. `now` is the handler's clock reading for the registration
        date; `createdNow` is the one gorm takes inside the insert for an unset
        creation time. */
    method CreateUser(body: Option<User>, now: Time, createdNow: Time, writeFails: bool) returns (resp: Response)
      requires Valid()
      requires now != ZeroTime && createdNow != ZeroTime  // clock readings are never Go's zero time
      modifies this
      ensures Valid()
      ensures body.None? ==>
        resp == Response(400, ErrorJson(InvalidBody)) && rows == old(rows) && nextId == old(nextId)
      ensures body.Some? && !HasRequiredFields(body.value) ==>
        resp == Response(400, ErrorJson(FieldsRequired)) && rows == old(rows) && nextId == old(nextId)
      ensures body.Some? && HasRequiredFields(body.value) ==>
        var u := NewRecord(body.value, now, createdNow, old(nextId));
        if !writeFails && Insert(old(rows), u).Some? then
          resp == Response(201, UserJson(u)) && rows == old(rows)[u.id := u]
          && nextId == if u.id < old(nextId) then old(nextId) else u.id + 1
        else
          resp == Response(500, ErrorJson(CreateFailed)) && rows == old(rows) && nextId == old(nextId)
    {
      if body.None? {
        return Response(400, ErrorJson(InvalidBody));
      }
      var user := body.value;
      if !HasRequiredFields(user) {
        return Response(400, ErrorJson(FieldsRequired));
      }
      user := NewRecord(user, now, createdNow, nextId);
      var inserted := Insert(rows, user);
      if writeFails || inserted.None? {
        return Response(500, ErrorJson(CreateFailed));
      }
      rows := inserted.value;
      if user.id >= nextId {
        nextId := user.id + 1;
      }
      return Response(201, UserJson(user));
    }

    /** PUT /users/:id: look the user up, merge the body into it field by
        field, and save it. */
    method UpdateUser(id: nat, body: Option<User>, readFails: bool, writeFails: bool) returns (resp: Response)
      requires Valid()
      modifies this
      ensures Valid() && nextId == old(nextId)
      ensures readFails ==>
        resp == Response(500, ErrorJson(FetchUserFailed)) && rows == old(rows)
      ensures !readFails && id !in old(rows) ==>
        resp == Response(404, ErrorJson(UserNotFound)) && rows == old(rows)
      ensures !readFails && id in old(rows) && body.None? ==>
        resp == Response(400, ErrorJson(InvalidBody)) && rows == old(rows)
      ensures !readFails && id in old(rows) && body.Some? ==>
        var u := Merged(old(rows)[id], body.value);
        if !writeFails && Save(old(rows), u).Some? then
          resp == Response(200, UserJson(u)) && rows == old(rows)[id := u]
        else
          resp == Response(500, ErrorJson(UpdateFailed)) && rows == old(rows)
    {
      if readFails {
        return Response(500, ErrorJson(FetchUserFailed));
      }
      if id !in rows {
        return Response(404, ErrorJson(UserNotFound));
      }
      var user := rows[id];
      if body.None? {
        return Response(400, ErrorJson(InvalidBody));
      }
      var updateData := body.value;
      if updateData.firstName != "" {
        user := user.(firstName := updateData.firstName);
      }
      if updateData.lastName != "" {
        user := user.(lastName := updateData.lastName);
      }
      if updateData.phoneNumber != "" {
        user := user.(phoneNumber := updateData.phoneNumber);
      }
      if updateData.email != "" {
        user := user.(email := updateData.email);
      }
      if updateData.membershipLevel != "" {
        user := user.(membershipLevel := updateData.membershipLevel);
      }
      if updateData.pointsBalance >= 0 {
        user := user.(pointsBalance := updateData.pointsBalance);
      }
      assert user == Merged(rows[id], updateData);
      var saved := Save(rows, user);
      if writeFails || saved.None? {
        return Response(500, ErrorJson(UpdateFailed));
      }
      rows := saved.value;
      return Response(200, UserJson(user));
    }

    /** DELETE /users/:id. */
    method DeleteUser(id: nat, readFails: bool, writeFails: bool) returns (resp: Response)
      requires Valid()
      modifies this
      ensures Valid() && nextId == old(nextId)
      ensures readFails ==>
        resp == Response(500, ErrorJson(FetchUserFailed)) && rows == old(rows)
      ensures !readFails && id !in old(rows) ==>
        resp == Response(404, ErrorJson(UserNotFound)) && rows == old(rows)
      ensures !readFails && id in old(rows) && writeFails ==>
        resp == Response(500, ErrorJson(DeleteFailed)) && rows == old(rows)
      ensures !readFails && id in old(rows) && !writeFails ==>
        resp == Response(200, MessageJson(Deleted))
        && rows.Keys == old(rows).Keys - {id}
        && forall k :: k in rows ==> rows[k] == old(rows)[k]
    {
      if readFails {
        return Response(500, ErrorJson(FetchUserFailed));
      }
      if id !in rows {
        return Response(404, ErrorJson(UserNotFound));
      }
      if writeFails {
        return Response(500, ErrorJson(DeleteFailed));
      }
      rows := rows - {id};
      return Response(200, MessageJson(Deleted));
    }
  }
}
