# Users API: a Dafny model

A model of a small user-records service written in Go with Fiber and gorm. It covers three things:

- the five HTTP handlers that list, read, create, update and delete users;
- the `users` table they write, with its primary key, its two unique columns and its two defaults;
- the `transfers` and `point_ledgers` tables. These are declared but no handler touches them. The model keeps the rows their check, unique and nullability constraints admit.

Files:

- `common.dfy` (module `Common`). An `Option` type for nullable columns, and an opaque `Time`. `ZeroTime` stands for Go's zero `time.Time`, which gorm treats as "unset".
- `users.dfy` (module `Users`, from database.go). The `User` record and the constants `Bronze` and `0`. The table invariant covers primary keys equal to stored ids and unique phone numbers and emails. `Insert` and `Save` are what the database decides for an INSERT and for gorm's Save. Both take a row whose id has already been assigned (non-zero). They are refused exactly when a constraint would be broken, and an accepted write keeps the invariant.
- `models.dfy` (module `Models`, from models.go). Closed enums `TransferStatus` and `LedgerEventType`, each with its column text (`Name`) and a parser that accepts exactly the admitted texts. The raw rows `Transfer` and `PointLedger` keep the status and event type as column text, so that a row the check constraint refuses can still be written down. The module also has the validity predicates, the table predicates and the insert functions.
- `routes.dfy` (module `Routes`, from routes.go). The class `UserTable` holds the table as a field `rows: map<nat, User>`, standing in for the global gorm handle. It also holds `nextId`, the primary key's sequence. The handlers are methods returning a `Response`, which pairs a status code with a JSON body. Beside the class are the specification functions: the required-field check, UpdateUser's field-by-field merge `Merged`, CreateUser's record `NewRecord`, and the table scan `Scan`.

Outside inputs reach the handlers as parameters:

- The decoded request body is an `Option<User>`. `None` means the body did not parse.
- The path id is a `nat`. A negative numeric id finds no row, which the model gives as any absent id (404).
- The clock comes in as two `Time` values, neither of them Go's zero time. `now` is the handler's `time.Now()`, which becomes the registration date. `createdNow` is gorm's own later reading inside the insert, which fills a creation time the body left unset.
- Any database error that is not a constraint violation or a missing row is a flag: `readFails` for the lookup or query, `writeFails` for the write.

Behaviour the model makes explicit:

- A decoded body that leaves out `points_balance` carries Go's zero value 0. UpdateUser overwrites the balance whenever the supplied value is `>= 0`, so an update that only changes a name also resets the balance to 0 (`MergeOmittedBalanceResets`).
- CreateUser stores whatever balance the body carries, negative ones included: no constraint forbids them. So the table has no "balance is non-negative" invariant. The merge only promises not to make a non-negative balance negative.
- UpdateUser looks the user up before it decodes the body. A missing id with a malformed body therefore answers 404, not 400.
- Nothing in the schema requires `from_user_id` and `to_user_id` to differ, or an idempotency key to be non-empty. `not null` on a Go string never fails, because the string is at worst `""`. The model follows the declarations: such rows pass the row checks, since `ValidTransferIff` names neither the user ids nor the key and `TransferOptionalColumnsFree` lets them take any value.
- Every record written through the handlers has its four required fields and a membership level. This is part of `UserTable.Valid`. CreateUser's check puts it in place, the column default supplies the level, and the merge never empties a field.
- The files do not build together as written. `User` is declared in both main.go and database.go. `Transfer` and `PointLedger` are declared in both database.go and models.go. routes.go calls `time.Now` without importing `time`. The model uses database.go's `User` and models.go's `Transfer` and `PointLedger`.

## Model

| member | source | states |
|---|---|---|
| `Users.WithDefaults` | database.go:18-19 | an insert that leaves `membership_level` empty stores "Bronze", and otherwise the record is stored as given, so a balance left at 0 is stored as its default 0; the stored level is never empty |
| `Users.TableInvariant` | database.go:12-16 | the users table: every row stored under its own non-zero primary key, no two rows with one phone number, no two rows with one email |
| `Users.Insert` | database.go:12-16 | an INSERT of a row with an assigned (non-zero) id is refused iff it repeats a primary key, a phone number or an email; an accepted one adds exactly that row and keeps the table invariant |
| `Users.Save` | database.go:12-16 | gorm's Save of a record with a non-zero id: for an existing row it is refused iff the new phone number or email belongs to another row; otherwise only that row changes and the invariant holds; for an absent key it is an INSERT |
| `Users.DuplicatePhoneRejected` | database.go:15 | an insert or a save that would repeat another row's phone number fails |
| `Users.DuplicateEmailRejected` | database.go:16 | an insert or a save that would repeat another row's email fails |
| `Models.ParseTransferStatus` | models.go:12 | a status text is accepted iff it is the name of one of pending, processing, completed, failed, cancelled, reversed |
| `Models.TransferStatusRoundTrip` | models.go:12 | reading back the column text of any status gives that status |
| `Models.StatusOf` | models.go:12 | a row the check constraint accepted has a typed status whose text is its column |
| `Models.ParseEventType` | models.go:26 | an event-type text is accepted iff it is the name of one of transfer_out, transfer_in, adjust, earn, redeem |
| `Models.EventTypeRoundTrip` | models.go:26 | reading back the column text of any event type gives that event type |
| `Models.EventTypeOf` | models.go:26 | a ledger row the check constraint accepted has a typed event type whose text is its column |
| `Models.ValidTransferIff` | models.go:11-12 | a transfer row is valid iff its amount is positive and its status is one of the six |
| `Models.ValidLedgerEntryIff` | models.go:26 | a ledger row is valid iff its event type is one of the five |
| `Models.ValidTransfer` | models.go:11-12 | the row checks of transfers: amount positive and status one of the six admitted texts |
| `Models.ValidLedgerEntry` | models.go:26 | the row check of point_ledgers: event type one of the five admitted texts |
| `Models.TransferOptionalColumnsFree` | models.go:9-18 | note, completed_at, fail_reason, the two user ids and the idempotency key's text never affect whether a transfer row passes the row checks |
| `Models.LedgerColumnsFree` | models.go:24-29 | change and balance_after may be any integers, and transfer_id, reference and metadata never affect a ledger row's validity |
| `Models.TransferTableValid` | models.go:8-14 | the transfers table: every row stored under its own non-zero primary key, every row meeting the amount and status checks, no two rows with one idempotency key |
| `Models.LedgerTableValid` | models.go:22-26 | the point_ledgers table: every row stored under its own non-zero primary key and meeting the event-type check |
| `Models.InsertTransfer` | models.go:8-14 | an INSERT into transfers of a row with an assigned (non-zero) id is refused iff it repeats a primary key or an idempotency key, has amount <= 0 or an unlisted status; an accepted one keeps the table valid |
| `Models.InsertLedgerEntry` | models.go:22-26 | an INSERT into point_ledgers of a row with an assigned (non-zero) id is refused iff it repeats a primary key or has an unlisted event type; an accepted one keeps the table valid |
| `Models.DuplicateKeyRejected` | models.go:14 | a second transfer with a stored idempotency key is never stored |
| `Models.NonPositiveAmountRejected` | models.go:11 | a transfer with amount <= 0 is never stored |
| `Routes.HasRequiredFields` | routes.go:47 | CreateUser's validator: a body passes iff its first name, last name, phone number and email are all non-empty |
| `Routes.UserTable.Valid` | routes.go:47-62 | what the handlers keep of the table: the declared constraints, the id sequence above every stored id, and every stored record with its four required fields and a membership level |
| `Routes.MergeText` | routes.go:88-101 | a merged text field is the supplied value when that is non-empty, and otherwise the stored one |
| `Routes.Merged` | routes.go:88-105 | the merge keeps id, registration date and creation time; each of the five text fields follows the non-empty rule; the balance takes the supplied value iff it is >= 0; a non-negative balance stays non-negative; a complete record stays complete |
| `Routes.MergeIdempotent` | routes.go:88-105 | merging the same body twice gives what merging it once gives |
| `Routes.MergeEmptyUpdateKeeps` | routes.go:88-105 | a body with every text field empty and a negative balance leaves the record unchanged |
| `Routes.MergeOmittedBalanceResets` | routes.go:103-105 | a body whose balance is 0, which is what an omitted balance decodes to, resets the balance to 0 |
| `Routes.UpdateTwiceSameTable` | routes.go:88-107 | repeating an accepted PUT with the same body is accepted again and leaves the table as the first one left it |
| `Routes.NewRecord` | routes.go:53-55 | the record CreateUser inserts keeps the body's fields, has the handler's clock reading as registration date and gorm's own reading inside the insert as creation time when the body left it unset, the next sequence id when none is given, and the column defaults; a body with the required fields gives a complete record |
| `Routes.Scan` | routes.go:9-10 | the scan lists each stored user below the bound exactly once, in ascending id order, and lists nothing else |
| `Routes.UserTable.GetUsers` | routes.go:8-17 | 500 when the query fails; otherwise 200 with every stored user, each once, in id order, and nothing else |
| `Routes.UserTable.GetUserByID` | routes.go:19-36 | 500 on a failed lookup; 404 "User not found" for an absent id; otherwise 200 with the stored record |
| `Routes.UserTable.CreateUser` | routes.go:38-63 | 400 and no change for an unreadable body or a missing first name, last name, phone number or email; 500 and no change when the insert fails; otherwise 201 with the stored record, which is the only change |
| `Routes.UserTable.UpdateUser` | routes.go:65-115 | 500 or 404 and no change when the lookup fails or the id is absent; 400 and no change for an unreadable body; otherwise the merged record is saved and returned with 200, or 500 and no change when the save fails |
| `Routes.UserTable.DeleteUser` | routes.go:117-143 | 500 or 404 and no change when the lookup fails or the id is absent; 500 and no change when the delete fails; otherwise 200 and exactly that user is removed, every other user unchanged |

## Left out

- Fiber plumbing: the route table, the CORS and logger middleware, the startup message and `app.Listen` (main.go:26-53). JSON decoding is also out: a body reaches the model already decoded or as `None`.
- The path parameter arrives as a parsed id. A path segment that `strconv.Atoi` rejects is not modelled: a non-numeric or fractional one, or one outside Go's 64-bit int. gorm passes such a segment on as a raw SQL condition, and one that sqlite reads as true selects the lowest-id row. GetUserByID would then answer with that row, UpdateUser would overwrite it and DeleteUser would delete it.
- `InitDatabase` (database.go:40-57): opening sqlite, the migrations and the `log.Fatal` paths.
- The stale `Transfer` and `PointLedger` declarations in database.go:24-36 and the duplicate `User` in main.go:13-24.
- `updated_at`: gorm rewrites it from the clock on every write, and no rule of the service reads it. It is not a field of the model's `User`.
- Integer width: ids and balances are unbounded. Go's `int` and `uint` are 64 bits wide, and a JSON number outside that range is a body parse error, which the model covers only as `None`.
- Users.Save: a Save of a record whose id is 0, which gorm turns into an INSERT under a fresh id, is outside its precondition. Every record UpdateUser saves was read from the table and so has a non-zero id.
- Models.InsertTransfer, Models.InsertLedgerEntry: the database's choice of a fresh id for a row written with id 0 is not modelled, since no code writes these tables. Both take a row whose id is already assigned.
- Concurrency: each handler runs as one step against the table.
- Row order in GetUsers: the model answers in ascending id, which is what a full scan of sqlite's rowid table yields. The query itself has no ORDER BY.
- The points-transfer engine, its state machine, ledger replay, reversal and cancellation: no code in the repository implements them, so they are not modelled. Only the table declarations are modelled.
