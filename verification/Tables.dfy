/**
 The proxy's PostgreSQL tables as values, and what one transaction does to them.
 Every function named after a repository method gives the tables after the commit and
 the error the caller sees; on an error the tables are the ones before (rollback).
 */
module Tables {
  import opened Wrappers
  import opened Text

  type UserId = nat
  type DocId = string
  type AttemptId = string
  type EventId = string
  type Key = string
  type Time = int

  datatype Status = Queued | Processing | Completed | Failed | Cancelled

  predicate Terminal(s: Status) { s.Completed? || s.Failed? || s.Cancelled? }

  datatype Channel = Webhook | Sse

  datatype Account = Account(docQuota: int, docUsed: int, storageQuota: int, storageUsed: int, storageReserved: int)

  datatype Document = Document(
    user: UserId, status: Status, inputKey: Option<Key>, inputSize: int, contentType: string, mode: string,
    resultKey: Option<Key>, resultText: Option<string>, errorDetail: Option<string>, resultExpiresAt: Option<Time>,
    attempt: Option<AttemptId>, attemptCount: int, processingUntil: Option<Time>, terminalEvent: Option<EventId>,
    notification: Option<Channel>, createdAt: Time, updatedAt: Time)

  datatype ReservationState = Reserved | Consumed

  datatype Reservation = Reservation(
    user: UserId, size: int, state: ReservationState, documentId: Option<DocId>, expiresAt: Time)

  datatype Event = Event(user: UserId, document: DocId, eventType: string, channel: Channel)

  datatype Db = Db(
    accounts: map<UserId, Account>,
    docs: map<DocId, Document>,
    reservations: map<Key, Reservation>,
    events: map<EventId, Event>)

  datatype Error = NotFound | BadParamInput | InvalidURL | QuotaExceeded | StorageQuotaExceeded | Conflict | ConstraintViolation

  /** Outcome of one transaction. */
  datatype Tx = Tx(db: Db, error: Option<Error>)

  function Commit(db: Db): Tx { Tx(db, None) }
  function Rollback(db: Db, e: Error): Tx { Tx(db, Some(e)) }

  // ---------------------------------------------------------------- uploads

  function UploadPrefix(user: UserId): string { "uploads/" + Decimal(user) + "/" }

  predicate ReserveFits(a: Account, size: int) {
    a.storageQuota == 0 || a.storageUsed + a.storageReserved + size <= a.storageQuota
  }

  function ReserveUpload(db: Db, user: UserId, key: Key, size: int, expiresAt: Time): Tx {
    if user == 0 || key == "" || size <= 0 then Rollback(db, BadParamInput)
    else if user !in db.accounts then Rollback(db, NotFound)
    else
      var a := db.accounts[user];
      if !ReserveFits(a, size) then Rollback(db, StorageQuotaExceeded)
      else if key in db.reservations then Rollback(db, ConstraintViolation)
      else Commit(db.(accounts := db.accounts[user := a.(storageReserved := a.storageReserved + size)],
                      reservations := db.reservations[key := Reservation(user, size, Reserved, None, expiresAt)]))
  }

  predicate Releasable(db: Db, user: UserId, key: Key) {
    key in db.reservations && db.reservations[key].user == user && db.reservations[key].state == Reserved
  }

  /** SQL's GREATEST(0, x). */
  function Clamped(x: int): int { if x < 0 then 0 else x }

  function ReleaseUpload(db: Db, user: UserId, key: Key): Tx {
    if user !in db.accounts then Rollback(db, NotFound)
    else if !Releasable(db, user, key) then Commit(db)
    else
      var a := db.accounts[user];
      Commit(db.(accounts := db.accounts[user := a.(storageReserved := Clamped(a.storageReserved - db.reservations[key].size))],
                 reservations := db.reservations - {key}))
  }

  // ---------------------------------------------------------------- submission

  /** One prepared submission; the caller always inserts it as queued and without an attempt. */
  datatype NewDocument = NewDocument(
    id: DocId, user: UserId, inputKey: Key, inputSize: int, contentType: string, mode: string, notification: Option<Channel>)

  function QueuedRow(d: NewDocument, now: Time): Document {
    Document(d.user, Queued, Some(d.inputKey), d.inputSize, d.contentType, d.mode,
             None, None, None, None, None, 0, None, None, d.notification, now, now)
  }

  predicate OwnReservation(db: Db, user: UserId, key: Key) {
    key in db.reservations && db.reservations[key].user == user
  }

  predicate KeySeenBefore(docs: seq<NewDocument>, i: nat)
    requires i < |docs|
  {
    exists j | 0 <= j < i :: docs[j].inputKey == docs[i].inputKey
  }

  /** Why item `i` of a batch is refused, given the items before it. */
  function ItemProblem(db: Db, user: UserId, docs: seq<NewDocument>, i: nat, now: Time): Option<Error>
    requires i < |docs|
  {
    var d := docs[i];
    if d.user != user || d.inputSize <= 0 then Some(BadParamInput)
    else if KeySeenBefore(docs, i) then Some(InvalidURL)
    else if OwnReservation(db, user, d.inputKey) then
      var r := db.reservations[d.inputKey];
      if r.state != Reserved || now >= r.expiresAt || r.size != d.inputSize then Some(InvalidURL) else None
    else if HasPrefix(d.inputKey, UploadPrefix(user)) then Some(InvalidURL)
    else None
  }

  /** The problem of the first refused item among the first `n`. */
  function FirstProblem(db: Db, user: UserId, docs: seq<NewDocument>, n: nat, now: Time): Option<Error>
    requires n <= |docs|
  {
    if n == 0 then None
    else match FirstProblem(db, user, docs, n - 1, now)
      case Some(e) => Some(e)
      case None => ItemProblem(db, user, docs, n - 1, now)
  }

  function InputBytes(docs: seq<NewDocument>, n: nat): int
    requires n <= |docs|
  {
    if n == 0 then 0 else InputBytes(docs, n - 1) + docs[n - 1].inputSize
  }

  datatype Consumption = Consumption(key: Key, document: DocId, size: int)

  /** The reservations the first `n` items consume, in batch order. */
  function Consumptions(db: Db, user: UserId, docs: seq<NewDocument>, n: nat): seq<Consumption>
    requires n <= |docs|
  {
    if n == 0 then []
    else
      var before := Consumptions(db, user, docs, n - 1);
      var d := docs[n - 1];
      if OwnReservation(db, user, d.inputKey)
      then before + [Consumption(d.inputKey, d.id, db.reservations[d.inputKey].size)] else before
  }

  function ConsumedBytes(cs: seq<Consumption>): int {
    if cs == [] then 0 else ConsumedBytes(cs[..|cs| - 1]) + cs[|cs| - 1].size
  }

  predicate NewIds(table: map<DocId, Document>, docs: seq<NewDocument>) {
    && (forall i | 0 <= i < |docs| :: docs[i].id !in table)
    && (forall i, j | 0 <= i < j < |docs| :: docs[i].id != docs[j].id)
  }

  function InsertDocs(table: map<DocId, Document>, docs: seq<NewDocument>, n: nat, now: Time): map<DocId, Document>
    requires n <= |docs|
  {
    if n == 0 then table
    else InsertDocs(table, docs, n - 1, now)[docs[n - 1].id := QueuedRow(docs[n - 1], now)]
  }

  function ConsumeAll(table: map<Key, Reservation>, cs: seq<Consumption>): map<Key, Reservation> {
    if cs == [] then table
    else
      var before := ConsumeAll(table, cs[..|cs| - 1]);
      var c := cs[|cs| - 1];
      if c.key in before then before[c.key := before[c.key].(state := Consumed, documentId := Some(c.document))] else before
  }

  /** Whether CreateManyWithQuota refuses the batch, and with which error: checks in source order. */
  function SubmitError(db: Db, user: UserId, docs: seq<NewDocument>, now: Time): Option<Error> {
    if user !in db.accounts then Some(NotFound)
    else
      var a := db.accounts[user];
      if a.docQuota > 0 && a.docUsed + |docs| > a.docQuota then Some(QuotaExceeded)
      else if FirstProblem(db, user, docs, |docs|, now).Some? then FirstProblem(db, user, docs, |docs|, now)
      else
        var consumed := ConsumedBytes(Consumptions(db, user, docs, |docs|));
        if a.storageReserved - consumed < 0 then Some(Conflict)
        else if a.storageQuota > 0 && a.storageUsed + InputBytes(docs, |docs|) + (a.storageReserved - consumed) > a.storageQuota
        then Some(StorageQuotaExceeded)
        else if !NewIds(db.docs, docs) then Some(ConstraintViolation)
        else None
  }

  function CreateManyWithQuota(db: Db, user: UserId, docs: seq<NewDocument>, now: Time): Tx {
    match SubmitError(db, user, docs, now)
    case Some(e) => Rollback(db, e)
    case None =>
      var a := db.accounts[user];
      var cs := Consumptions(db, user, docs, |docs|);
      Commit(db.(accounts := db.accounts[user := a.(docUsed := a.docUsed + |docs|,
                                                    storageUsed := a.storageUsed + InputBytes(docs, |docs|),
                                                    storageReserved := a.storageReserved - ConsumedBytes(cs))],
                 docs := InsertDocs(db.docs, docs, |docs|, now),
                 reservations := ConsumeAll(db.reservations, cs)))
  }

  // ---------------------------------------------------------------- claiming

  /** The WHERE clauses of the four claim queries. */
  datatype ClaimQuery =
    | AnyDocument
    | ForText
    | WithinCapacity(availableUnits: int, imageJobUnits: int, pdfJobUnits: int)
    | ForWorker(availableUnits: int, imageJobUnits: int, pdfJobUnits: int, ocr: bool, scan: bool)

  const PDF := "application/pdf"

  function JobUnits(contentType: string, imageJobUnits: int, pdfJobUnits: int): int {
    if contentType == PDF then pdfJobUnits else imageJobUnits
  }

  predicate QueryMatches(q: ClaimQuery, d: Document) {
    match q
    case AnyDocument => true
    case ForText => d.contentType == PDF && d.mode in {"", "auto", "text"}
    case WithinCapacity(available, image, pdf) => JobUnits(d.contentType, image, pdf) <= available
    case ForWorker(available, image, pdf, ocr, scan) =>
      (if d.mode == "scan" then scan else ocr) && JobUnits(d.contentType, image, pdf) <= available
  }

  predicate ValidClaim(q: ClaimQuery, attempt: AttemptId, lease: int, maxAttempts: int) {
    && attempt != "" && lease > 0 && maxAttempts > 0
    && (q.WithinCapacity? || q.ForWorker? ==> q.availableUnits > 0 && q.imageJobUnits > 0 && q.pdfJobUnits > 0)
  }

  predicate LeaseExpired(d: Document, now: Time) {
    d.status == Processing && d.processingUntil.Some? && d.processingUntil.value <= now
  }

  predicate Reclaimable(d: Document, now: Time, maxAttempts: int) {
    LeaseExpired(d, now) && d.attemptCount < maxAttempts
  }

  predicate Exhausted(d: Document, now: Time, maxAttempts: int) {
    LeaseExpired(d, now) && d.attemptCount >= maxAttempts
  }

  /** ORDER BY processing_until */
  predicate LeaseFirst(a: Document, b: Document) {
    a.processingUntil.Some? && b.processingUntil.Some? ==> a.processingUntil.value <= b.processingUntil.value
  }

  predicate Claimable(q: ClaimQuery, d: Document, now: Time, maxAttempts: int) {
    (d.status == Queued || Reclaimable(d, now, maxAttempts)) && QueryMatches(q, d)
  }

  /** ORDER BY queued first, then created_at. */
  predicate ClaimedBefore(a: Document, b: Document) {
    if (a.status == Queued) != (b.status == Queued) then a.status == Queued else a.createdAt <= b.createdAt
  }

  predicate IsNext(db: Db, q: ClaimQuery, now: Time, maxAttempts: int, id: DocId) {
    && id in db.docs
    && Claimable(q, db.docs[id], now, maxAttempts)
    && forall other | other in db.docs && Claimable(q, db.docs[other], now, maxAttempts) ::
         ClaimedBefore(db.docs[id], db.docs[other])
  }

  function ClaimedRow(d: Document, attempt: AttemptId, until: Time, now: Time): Document {
    d.(status := Processing, attempt := Some(attempt), attemptCount := d.attemptCount + 1,
       processingUntil := Some(until), errorDetail := None, updatedAt := now)
  }

  function ClaimDocument(db: Db, id: DocId, attempt: AttemptId, until: Time, now: Time): Db
    requires id in db.docs
  {
    db.(docs := db.docs[id := ClaimedRow(db.docs[id], attempt, until, now)])
  }

  // ---------------------------------------------------------------- fenced attempt updates

  /** WHERE id=$1 AND status='processing' AND attempt_id=$2 */
  predicate Fenced(db: Db, id: DocId, attempt: AttemptId) {
    id in db.docs && db.docs[id].status == Processing && db.docs[id].attempt == Some(attempt)
  }

  function RequeuedRow(d: Document, now: Time): Document {
    d.(status := Queued, attempt := None, processingUntil := None, updatedAt := now)
  }

  function ReleasedRow(d: Document, now: Time): Document {
    RequeuedRow(d, now).(attemptCount := Clamped(d.attemptCount - 1))
  }

  function RequeueAttempt(db: Db, id: DocId, attempt: AttemptId, now: Time): Tx {
    if !Fenced(db, id, attempt) then Rollback(db, Conflict)
    else Commit(db.(docs := db.docs[id := RequeuedRow(db.docs[id], now)]))
  }

  function ReleaseAttempt(db: Db, id: DocId, attempt: AttemptId, now: Time): Tx {
    if !Fenced(db, id, attempt) then Rollback(db, Conflict)
    else Commit(db.(docs := db.docs[id := ReleasedRow(db.docs[id], now)]))
  }

  datatype Finalization = Finalization(
    id: DocId, attempt: AttemptId, terminalEvent: EventId, status: Status, resultKey: Option<Key>, resultText: Option<string>,
    errorDetail: Option<string>, resultExpiresAt: Option<Time>, refund: bool)

  function FinalRow(d: Document, f: Finalization, now: Time): Document {
    d.(status := f.status, terminalEvent := Some(f.terminalEvent), resultKey := f.resultKey, resultText := f.resultText,
       errorDetail := f.errorDetail, resultExpiresAt := f.resultExpiresAt, processingUntil := None, updatedAt := now)
  }

  /** Unique index idx_documents_terminal_event. */
  predicate TerminalEventTaken(db: Db, id: DocId, event: EventId) {
    exists other | other in db.docs :: other != id && db.docs[other].terminalEvent == Some(event)
  }

  function Refund(accounts: map<UserId, Account>, user: UserId): map<UserId, Account> {
    if user in accounts
    then accounts[user := accounts[user].(docUsed := Clamped(accounts[user].docUsed - 1))] else accounts
  }

  /** Unique index idx_notification_document_terminal: the ON CONFLICT target. */
  predicate SameNotification(a: Event, b: Event) {
    a.document == b.document && a.eventType == b.eventType && a.channel == b.channel
  }

  predicate AlreadyNotified(db: Db, e: Event) {
    exists id | id in db.events :: SameNotification(db.events[id], e)
  }

  /** INSERT ... ON CONFLICT (document_id, event_type, channel) DO NOTHING. */
  function InsertEvent(db: Db, id: EventId, e: Event): Tx {
    if AlreadyNotified(db, e) then Commit(db)
    else if id in db.events || e.document !in db.docs then Rollback(db, ConstraintViolation)
    else Commit(db.(events := db.events[id := e]))
  }

  function InsertOptionalEvent(db: Db, event: Option<(EventId, Event)>): Tx {
    match event
    case None => Commit(db)
    case Some((id, e)) => InsertEvent(db, id, e)
  }

  function FinalizedDb(db: Db, f: Finalization, now: Time): Db
    requires f.id in db.docs
  {
    db.(docs := db.docs[f.id := FinalRow(db.docs[f.id], f, now)],
        accounts := if f.refund then Refund(db.accounts, db.docs[f.id].user) else db.accounts)
  }

  function FinalizeAttempt(db: Db, f: Finalization, event: Option<(EventId, Event)>, now: Time): Tx {
    if f.status != Completed && f.status != Failed then Rollback(db, BadParamInput)
    else if !Fenced(db, f.id, f.attempt) then Rollback(db, Conflict)
    else if TerminalEventTaken(db, f.id, f.terminalEvent) then Rollback(db, ConstraintViolation)
    else
      var tx := InsertOptionalEvent(FinalizedDb(db, f, now), event);
      if tx.error.Some? then Rollback(db, tx.error.value) else tx
  }

  function CancelledRow(d: Document, now: Time): Document {
    d.(status := Cancelled, processingUntil := None, updatedAt := now)
  }

  predicate Cancellable(db: Db, id: DocId, user: UserId) {
    id in db.docs && db.docs[id].user == user && db.docs[id].status == Queued
  }

  function CancelledDb(db: Db, id: DocId, user: UserId, now: Time): Db
    requires id in db.docs
  {
    db.(docs := db.docs[id := CancelledRow(db.docs[id], now)], accounts := Refund(db.accounts, user))
  }

  function CancelWithRefund(db: Db, id: DocId, user: UserId, event: Option<(EventId, Event)>, now: Time): Tx {
    if !Cancellable(db, id, user) then Rollback(db, Conflict)
    else
      var tx := InsertOptionalEvent(CancelledDb(db, id, user, now), event);
      if tx.error.Some? then Rollback(db, tx.error.value) else tx
  }

  // ---------------------------------------------------------------- retention

  function DropConsumed(table: map<Key, Reservation>, key: Key): map<Key, Reservation> {
    if key in table && table[key].state == Consumed then table - {key} else table
  }

  function FreeStorage(accounts: map<UserId, Account>, user: UserId, size: int): map<UserId, Account> {
    if user in accounts
    then accounts[user := accounts[user].(storageUsed := Clamped(accounts[user].storageUsed - size))] else accounts
  }

  predicate InputExpirable(db: Db, id: DocId) {
    id in db.docs && db.docs[id].inputKey.Some? && Terminal(db.docs[id].status)
  }

  function MarkInputExpired(db: Db, id: DocId): Db {
    if InputExpirable(db, id) then
      var d := db.docs[id];
      db.(docs := db.docs[id := d.(inputKey := None)],
          accounts := FreeStorage(db.accounts, d.user, d.inputSize),
          reservations := DropConsumed(db.reservations, d.inputKey.value))
    else db
  }

  /** upload_reservations.document_id ... ON DELETE SET NULL */
  function Unlink(table: map<Key, Reservation>, id: DocId): map<Key, Reservation> {
    map k | k in table :: if table[k].documentId == Some(id) then table[k].(documentId := None) else table[k]
  }

  /** notification_events.document_id ... ON DELETE CASCADE */
  function DropEvents(table: map<EventId, Event>, id: DocId): map<EventId, Event> {
    map e | e in table && table[e].document != id :: table[e]
  }

  predicate Deletable(db: Db, id: DocId, before: Time) {
    id in db.docs && Terminal(db.docs[id].status) && db.docs[id].updatedAt <= before
  }

  function DeleteExpiredDocument(db: Db, id: DocId, before: Time): Db {
    if Deletable(db, id, before) then
      var d := db.docs[id];
      var accounts := if d.inputKey.Some? then FreeStorage(db.accounts, d.user, d.inputSize) else db.accounts;
      var reservations := if d.inputKey.Some? then DropConsumed(db.reservations, d.inputKey.value) else db.reservations;
      Db(accounts, db.docs - {id}, Unlink(reservations, id), DropEvents(db.events, id))
    else db
  }

  predicate ResultExpirable(db: Db, id: DocId, now: Time) {
    id in db.docs && db.docs[id].resultExpiresAt.Some? && db.docs[id].resultExpiresAt.value <= now
  }

  function MarkResultExpired(db: Db, id: DocId, now: Time): Db {
    if ResultExpirable(db, id, now)
    then db.(docs := db.docs[id := db.docs[id].(resultKey := None, resultText := None)]) else db
  }

  function ResetDocUsed(db: Db, user: UserId): Tx {
    if user !in db.accounts then Rollback(db, NotFound)
    else Commit(db.(accounts := db.accounts[user := db.accounts[user].(docUsed := 0)]))
  }

  predicate InputKeyReferenced(db: Db, key: Key) {
    exists id | id in db.docs :: db.docs[id].inputKey == Some(key)
  }
}
