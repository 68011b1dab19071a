/** The `transfers` and `point_ledgers` tables declared in models.go. No code
    reads or writes them; what the declarations decide is which rows the
    database accepts: the check constraints on amount, status and event type,
    the unique idempotency key, and which columns may be NULL. */
module Models {
  import opened Common

  /** The six values the `status` check constraint admits. */
  datatype TransferStatus = Pending | Processing | Completed | Failed | Cancelled | Reversed {
    /** The column text of this status. */
    function Name(): string {
      match this
      case Pending => "pending"
      case Processing => "processing"
      case Completed => "completed"
      case Failed => "failed"
      case Cancelled => "cancelled"
      case Reversed => "reversed"
    }
  }

  /** The five values the `event_type` check constraint admits. */
  datatype LedgerEventType = TransferOut | TransferIn | Adjust | Earn | Redeem {
    /** The column text of this event type. */
    function Name(): string {
      match this
      case TransferOut => "transfer_out"
      case TransferIn => "transfer_in"
      case Adjust => "adjust"
      case Earn => "earn"
      case Redeem => "redeem"
    }
  }

  /** Reads a `status` column: `Some` exactly for the admitted texts. */
  function ParseTransferStatus(s: string): (r: Option<TransferStatus>)
    ensures r.Some? ==> r.value.Name() == s
    ensures r.None? ==> forall t: TransferStatus :: t.Name() != s
  {
    if s == "pending" then Some(Pending)
    else if s == "processing" then Some(Processing)
    else if s == "completed" then Some(Completed)
    else if s == "failed" then Some(Failed)
    else if s == "cancelled" then Some(Cancelled)
    else if s == "reversed" then Some(Reversed)
    else None
  }

  /** Reads an `event_type` column: `Some` exactly for the admitted texts. */
  function ParseEventType(s: string): (r: Option<LedgerEventType>)
    ensures r.Some? ==> r.value.Name() == s
    ensures r.None? ==> forall e: LedgerEventType :: e.Name() != s
  {
    if s == "transfer_out" then Some(TransferOut)
    else if s == "transfer_in" then Some(TransferIn)
    else if s == "adjust" then Some(Adjust)
    else if s == "earn" then Some(Earn)
    else if s == "redeem" then Some(Redeem)
    else None
  }

  /** Every status survives a write and a read of its column. */
  lemma TransferStatusRoundTrip(t: TransferStatus)
    ensures ParseTransferStatus(t.Name()) == Some(t)
  {
    match t
    case Pending =>
    case Processing =>
    case Completed =>
    case Failed =>
    case Cancelled =>
    case Reversed =>
  }

  /** Every event type survives a write and a read of its column. */
  lemma EventTypeRoundTrip(e: LedgerEventType)
    ensures ParseEventType(e.Name()) == Some(e)
  {
    match e
    case TransferOut =>
    case TransferIn =>
    case Adjust =>
    case Earn =>
    case Redeem =>
  }

  /** One row of `transfers`. `status` is kept as the column text so that a row
      the check constraint refuses can be written down; the nullable columns
      `note`, `completedAt` and `failReason` are options. */
  datatype Transfer = Transfer(
    id: nat,
    fromUserId: nat,
    toUserId: nat,
    amount: int,
    status: string,
    note: Option<string>,
    idempotencyKey: string,
    createdAt: Time,
    updatedAt: Time,
    completedAt: Option<Time>,
    failReason: Option<string>)

  /** One row of `point_ledgers`; `transferId`, `reference` and `metadata` are nullable. */
  datatype PointLedger = PointLedger(
    id: nat,
    userId: nat,
    change: int,
    balanceAfter: int,
    eventType: string,
    transferId: Option<nat>,
    reference: Option<string>,
    metadata: Option<string>,
    createdAt: Time)

  /** The row-level check constraints of `transfers`. */
  predicate ValidTransfer(t: Transfer) {
    t.amount > 0 && ParseTransferStatus(t.status).Some?
  }

  /** The row-level check constraint of `point_ledgers`. */
  predicate ValidLedgerEntry(e: PointLedger) {
    ParseEventType(e.eventType).Some?
  }

  /** The typed status of a row the check constraint accepted. */
  function StatusOf(t: Transfer): (r: TransferStatus)
    requires ValidTransfer(t)
    ensures r.Name() == t.status
  {
    ParseTransferStatus(t.status).value
  }

  /** The typed event type of a row the check constraint accepted. */
  function EventTypeOf(e: PointLedger): (r: LedgerEventType)
    requires ValidLedgerEntry(e)
    ensures r.Name() == e.eventType
  {
    ParseEventType(e.eventType).value
  }

  /** A transfer row is accepted exactly when its amount is positive and its
      status is one of the six admitted values. */
  lemma ValidTransferIff(t: Transfer)
    ensures ValidTransfer(t) <==> t.amount > 0 && exists s: TransferStatus :: s.Name() == t.status
  {
    if s: TransferStatus :| s.Name() == t.status {
      TransferStatusRoundTrip(s);
    }
  }

  /** A ledger row is accepted exactly when its event type is one of the five
      admitted values. */
  lemma ValidLedgerEntryIff(e: PointLedger)
    ensures ValidLedgerEntry(e) <==> exists x: LedgerEventType :: x.Name() == e.eventType
  {
    if x: LedgerEventType :| x.Name() == e.eventType {
      EventTypeRoundTrip(x);
    }
  }

  /** The nullable columns of a transfer, which users it names, and the text
      of its idempotency key never decide whether the row is accepted by the
      row checks: no check mentions them (in particular nothing requires the
      two users to differ or the key to be non-empty). */
  lemma TransferOptionalColumnsFree(t: Transfer, from: nat, to: nat, key: string, note: Option<string>,
                                    completedAt: Option<Time>, failReason: Option<string>)
    ensures ValidTransfer(t) <==>
            ValidTransfer(t.(fromUserId := from, toUserId := to, idempotencyKey := key, note := note,
                             completedAt := completedAt, failReason := failReason))
  {
  }

  /** `change` and `balance_after` may hold any integer, and the nullable
      columns are free: only the event type constrains a ledger row. */
  lemma LedgerColumnsFree(e: PointLedger, change: int, balanceAfter: int, transferId: Option<nat>,
                          reference: Option<string>, metadata: Option<string>)
    ensures ValidLedgerEntry(e) <==>
            ValidLedgerEntry(e.(change := change, balanceAfter := balanceAfter, transferId := transferId,
                                reference := reference, metadata := metadata))
  {
  }

  /** Some row other than `except` already holds idempotency key `key`. */
  predicate KeyTaken(rows: map<nat, Transfer>, key: string, except: nat) {
    exists k :: k in rows && k != except && rows[k].idempotencyKey == key
  }

  /** What the declarations of `transfers` guarantee of its contents: primary
      keys, the check constraints of every row, and unique idempotency keys. */
  predicate TransferTableValid(rows: map<nat, Transfer>) {
    && (forall k :: k in rows ==> k > 0 && rows[k].id == k && ValidTransfer(rows[k]))
    && (forall j, k :: j in rows && k in rows && rows[j].idempotencyKey == rows[k].idempotencyKey ==> j == k)
  }

  /** What the declarations of `point_ledgers` guarantee of its contents. */
  predicate LedgerTableValid(rows: map<nat, PointLedger>) {
    forall k :: k in rows ==> k > 0 && rows[k].id == k && ValidLedgerEntry(rows[k])
  }

  /** INSERT into `transfers` of a row whose id has been assigned: refused exactly when the row breaks a check
      constraint or repeats a primary key or an idempotency key. */
  function InsertTransfer(rows: map<nat, Transfer>, t: Transfer): (r: Option<map<nat, Transfer>>)
    requires t.id > 0
    ensures r.Some? <==> t.id !in rows && ValidTransfer(t) && !KeyTaken(rows, t.idempotencyKey, t.id)
    ensures r.Some? ==> r.value == rows[t.id := t]
    ensures r.Some? && TransferTableValid(rows) ==> TransferTableValid(r.value)
  {
    if t.id in rows || !ValidTransfer(t) || KeyTaken(rows, t.idempotencyKey, t.id) then None
    else Some(rows[t.id := t])
  }

  /** INSERT into `point_ledgers` of a row whose id has been assigned: refused exactly when the row breaks the
      check constraint or repeats a primary key. */
  function InsertLedgerEntry(rows: map<nat, PointLedger>, e: PointLedger): (r: Option<map<nat, PointLedger>>)
    requires e.id > 0
    ensures r.Some? <==> e.id !in rows && ValidLedgerEntry(e)
    ensures r.Some? ==> r.value == rows[e.id := e]
    ensures r.Some? && LedgerTableValid(rows) ==> LedgerTableValid(r.value)
  {
    if e.id in rows || !ValidLedgerEntry(e) then None else Some(rows[e.id := e])
  }

  /** No stored transfer can share its idempotency key with a new one: the
      second insert fails. */
  lemma DuplicateKeyRejected(rows: map<nat, Transfer>, t: Transfer, k: nat)
    requires t.id > 0 && k in rows && k != t.id && rows[k].idempotencyKey == t.idempotencyKey
    ensures InsertTransfer(rows, t).None?
  {
    assert KeyTaken(rows, t.idempotencyKey, t.id);
  }

  /** A transfer of a non-positive amount is never stored. */
  lemma NonPositiveAmountRejected(rows: map<nat, Transfer>, t: Transfer)
    requires t.id > 0 && t.amount <= 0
    ensures InsertTransfer(rows, t).None?
  {
  }
}
