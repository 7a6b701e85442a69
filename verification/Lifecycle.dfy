/**
 Runs of the whole service, one committed transaction at a time. A world is the database together
 with the facts a run never forgets: which attempts were claimed, which documents were created,
 refunded or concluded, and which object keys were ever handed out.
 */
module Lifecycle {
  import opened Wrappers
  import opened Text
  import opened Tables
  import opened Ledger

  /** What the claimer was told: GetByID right after the claim. `serial` orders claims. */
  datatype ClaimRecord = ClaimRecord(document: DocId, count: int, until: Time, serial: nat, forText: bool)

  datatype World = World(
    db: Db, now: Time,
    claims: map<AttemptId, ClaimRecord>, serial: nat,
    created: map<DocId, UserId>, refunded: map<DocId, UserId>,
    concluded: map<DocId, string>, keys: set<Key>)

  datatype Step =
    | Presigned(user: UserId, key: Key, size: int, expiresAt: Time)
    | UploadReleased(user: UserId, key: Key)
    | Submitted(user: UserId, docs: seq<NewDocument>)
    | Claimed(id: DocId, query: ClaimQuery, attempt: AttemptId, lease: int)
    | Requeued(id: DocId, attempt: AttemptId)
    | Released(id: DocId, attempt: AttemptId)
    | Finalized(f: Finalization, event: Option<(EventId, Event)>)
    | CancelledByUser(id: DocId, user: UserId, event: Option<(EventId, Event)>)
    | Published(eventId: EventId, notice: Event)
    | InputExpired(id: DocId)
    | ResultExpired(id: DocId)
    | DocumentDeleted(id: DocId, before: Time)
    | QuotaReset(user: UserId)
    | EventsPurged(ids: set<EventId>)

  function StatusText(s: Status): string {
    match s
    case Queued => "queued" case Processing => "processing" case Completed => "completed"
    case Failed => "failed" case Cancelled => "cancelled"
  }

  /** The event type a document notification carries: resource type, dot, status. */
  function EventType(mode: string, s: Status): string {
    (if mode == "scan" then "scan" else "document") + "." + StatusText(s)
  }

  // ---------------------------------------------------------------- one step

  function Attempted(db: Db, at: Time, step: Step): Tx {
    match step
    case Presigned(user, key, size, expiresAt) => ReserveUpload(db, user, key, size, expiresAt)
    case UploadReleased(user, key) => ReleaseUpload(db, user, key)
    case Submitted(user, docs) => CreateManyWithQuota(db, user, docs, at)
    case Claimed(id, _, attempt, lease) => if id in db.docs then Commit(ClaimDocument(db, id, attempt, at + lease, at)) else Commit(db)
    case Requeued(id, attempt) => RequeueAttempt(db, id, attempt, at)
    case Released(id, attempt) => ReleaseAttempt(db, id, attempt, at)
    case Finalized(f, event) => FinalizeAttempt(db, f, event, at)
    case CancelledByUser(id, user, event) => CancelWithRefund(db, id, user, event, at)
    case Published(id, notice) => InsertEvent(db, id, notice)
    case InputExpired(id) => Commit(MarkInputExpired(db, id))
    case ResultExpired(id) => Commit(MarkResultExpired(db, id, at))
    case DocumentDeleted(id, before) => Commit(DeleteExpiredDocument(db, id, before))
    case QuotaReset(user) => ResetDocUsed(db, user)
    case EventsPurged(ids) => Commit(db.(events := db.events - ids))
  }

  predicate Accepted(w: World, at: Time, step: Step) { Attempted(w.db, at, step).error.None? }

  function AddCreated(created: map<DocId, UserId>, docs: seq<NewDocument>, n: nat): map<DocId, UserId>
    requires n <= |docs|
  {
    if n == 0 then created else AddCreated(created, docs, n - 1)[docs[n - 1].id := docs[n - 1].user]
  }

  function KeysOf(docs: seq<NewDocument>): set<Key> { set d | d in docs :: d.inputKey }

  function ClaimsNext(w: World, at: Time, step: Step): map<AttemptId, ClaimRecord> {
    if step.Claimed? && step.id in w.db.docs then
      var record := ClaimRecord(step.id, w.db.docs[step.id].attemptCount + 1, at + step.lease, w.serial, step.query.ForText?);
      w.claims[step.attempt := record]
    else w.claims
  }

  function CreatedNext(w: World, at: Time, step: Step): map<DocId, UserId> {
    if step.Submitted? && Accepted(w, at, step) then AddCreated(w.created, step.docs, |step.docs|) else w.created
  }

  predicate Refunds(w: World, at: Time, step: Step) {
    ((step.Finalized? && step.f.refund) || step.CancelledByUser?) && Accepted(w, at, step)
  }

  function RefundedNext(w: World, at: Time, step: Step): map<DocId, UserId> {
    if !Refunds(w, at, step) then w.refunded
    else if step.CancelledByUser? then w.refunded[step.id := step.user]
    else if step.f.id in w.db.docs then w.refunded[step.f.id := w.db.docs[step.f.id].user]
    else w.refunded
  }

  predicate Concludes(w: World, at: Time, step: Step) { (step.Finalized? || step.CancelledByUser?) && Accepted(w, at, step) }

  function ConcludedNext(w: World, at: Time, step: Step): map<DocId, string> {
    if !Concludes(w, at, step) then w.concluded
    else
      var (id, s) := if step.Finalized? then (step.f.id, step.f.status) else (step.id, Cancelled);
      if id in w.db.docs then w.concluded[id := EventType(w.db.docs[id].mode, s)] else w.concluded
  }

  function KeysNext(w: World, step: Step): set<Key> {
    match step
    case Presigned(_, key, _, _) => w.keys + {key}
    case Submitted(_, docs) => w.keys + KeysOf(docs)
    case _ => w.keys
  }

  function Next(w: World, at: Time, step: Step): World {
    World(Attempted(w.db, at, step).db, at, ClaimsNext(w, at, step),
          if step.Claimed? && step.id in w.db.docs then w.serial + 1 else w.serial,
          CreatedNext(w, at, step), RefundedNext(w, at, step), ConcludedNext(w, at, step), KeysNext(w, step))
  }

  /** BuildDocumentEvent: the notice describes the document with its terminal status. */
  predicate DescribesDocument(db: Db, event: Option<(EventId, Event)>, id: DocId, s: Status) {
    event.Some? ==> event.value.1.document == id && (id in db.docs ==> event.value.1.eventType == EventType(db.docs[id].mode, s))
  }

  /** A submitted key is the user's own upload, or an `inputs/` key generated for this submission. */
  predicate SubmittableKey(w: World, user: UserId, key: Key) {
    HasPrefix(key, UploadPrefix(user)) || key !in w.keys
  }

  /** What the callers guarantee: a clock that moves forward, fresh random identifiers, scheduler guards. */
  predicate Enabled(w: World, at: Time, step: Step, maxAttempts: int) {
    && w.now <= at
    && match step
       case Presigned(user, key, _, _) => key !in w.keys && HasPrefix(key, UploadPrefix(user))
       case Submitted(user, docs) =>
         && (forall d | d in docs :: d.id !in w.created && SubmittableKey(w, user, d.inputKey))
       case Claimed(id, query, attempt, lease) =>
         ValidClaim(query, attempt, lease, maxAttempts) && IsNext(w.db, query, at, maxAttempts, id) && attempt !in w.claims
       case Requeued(id, attempt) => attempt in w.claims && w.claims[attempt].count < maxAttempts
       case Finalized(f, event) => DescribesDocument(w.db, event, f.id, f.status)
       case CancelledByUser(id, _, event) => DescribesDocument(w.db, event, id, Cancelled)
       case Published(_, notice) => notice.document in w.concluded && notice.eventType == w.concluded[notice.document]
       case _ => true
  }

  // ---------------------------------------------------------------- runs

  datatype Timed = Timed(at: Time, step: Step)

  function Exec(w: World, run: seq<Timed>): World {
    if run == [] then w else Next(Exec(w, run[..|run| - 1]), run[|run| - 1].at, run[|run| - 1].step)
  }

  predicate ValidRun(w: World, run: seq<Timed>, maxAttempts: int) {
    run == [] || (ValidRun(w, run[..|run| - 1], maxAttempts)
                  && Enabled(Exec(w, run[..|run| - 1]), run[|run| - 1].at, run[|run| - 1].step, maxAttempts))
  }

  /** A freshly migrated database: accounts without documents, reservations or usage. */
  ghost predicate Initial(w: World) {
    && w.db.docs == map[] && w.db.reservations == map[] && w.db.events == map[]
    && (forall u | u in w.db.accounts ::
          w.db.accounts[u] == Account(w.db.accounts[u].docQuota, 0, w.db.accounts[u].storageQuota, 0, 0)
          && w.db.accounts[u].storageQuota >= 0)
    && w.claims == map[] && w.serial == 0 && w.created == map[] && w.refunded == map[] && w.concluded == map[] && w.keys == {}
  }

  // ---------------------------------------------------------------- the ledger over runs

  /** The document row a lifecycle step rewrites, if it is a step that rewrites one row in place. */
  function RowOf(step: Step): Option<DocId> {
    match step
    case Claimed(id, _, _, _) => Some(id)
    case Requeued(id, _) => Some(id)
    case Released(id, _) => Some(id)
    case Finalized(f, _) => Some(f.id)
    case CancelledByUser(id, _, _) => Some(id)
    case ResultExpired(id) => Some(id)
    case InputExpired(id) => Some(id)
    case _ => None
  }

  lemma EventInsertFrame(db: Db, event: Option<(EventId, Event)>)
    ensures var db' := InsertOptionalEvent(db, event).db;
            db'.docs == db.docs && db'.accounts == db.accounts && db'.reservations == db.reservations
  {
  }

  /** What finalizing does to everything but the events: all of it, or nothing. */
  lemma FinalizeFrame(db: Db, f: Finalization, event: Option<(EventId, Event)>, now: Time)
    ensures var tx := FinalizeAttempt(db, f, event, now);
            && tx.db.reservations == db.reservations
            && if tx.error.None? then
                 && Fenced(db, f.id, f.attempt) && f.status in {Completed, Failed}
                 && tx.db.docs == FinalizedDb(db, f, now).docs && tx.db.accounts == FinalizedDb(db, f, now).accounts
               else tx.db == db
  {
    hide InsertOptionalEvent, TerminalEventTaken, Refund, FinalRow;
    if f.id in db.docs {
      EventInsertFrame(FinalizedDb(db, f, now), event);
    }
  }

  lemma CancelFrame(db: Db, id: DocId, user: UserId, event: Option<(EventId, Event)>, now: Time)
    ensures var tx := CancelWithRefund(db, id, user, event, now);
            && tx.db.reservations == db.reservations
            && if tx.error.None? then
                 && Cancellable(db, id, user)
                 && tx.db.docs == CancelledDb(db, id, user, now).docs && tx.db.accounts == CancelledDb(db, id, user, now).accounts
               else tx.db == db
  {
    hide InsertOptionalEvent, Refund, CancelledRow;
    if id in db.docs {
      EventInsertFrame(CancelledDb(db, id, user, now), event);
    }
  }

  lemma RowStepUpdatesRow(db: Db, at: Time, step: Step)
    requires RowOf(step).Some? && !step.InputExpired?
    ensures RowUpdate(db, Attempted(db, at, step).db, RowOf(step).value)
  {
    hide FinalizeAttempt, CancelWithRefund;
    if step.Finalized? {
      FinalizeFrame(db, step.f, step.event, at);
      hide Fenced;
    } else if step.CancelledByUser? {
      CancelFrame(db, step.id, step.user, step.event, at);
      hide Cancellable;
    } else {
      hide Fenced, ResultExpirable, RowUpdate;
      var id := RowOf(step).value;
      RowUnchanged(db, id);
      if Rewrites(db, at, step) {
        RowRewritten(db, id, NewRow(db.docs[id], at, step));
      }
    }
  }

  lemma RowUnchanged(db: Db, id: DocId)
    ensures RowUpdate(db, db, id)
  {
  }

  lemma RowRewritten(db: Db, id: DocId, d: Document)
    requires id in db.docs && d.user == db.docs[id].user && d.mode == db.docs[id].mode
    requires d.inputKey == db.docs[id].inputKey && d.inputSize == db.docs[id].inputSize
    ensures RowUpdate(db, db.(docs := db.docs[id := d]), id)
  {
  }

  lemma TransactionKeepsBalance(db: Db, at: Time, step: Step)
    requires Balanced(db)
    ensures Balanced(Attempted(db, at, step).db)
  {
    if RowOf(step).Some? && !step.InputExpired? {
      RowStepUpdatesRow(db, at, step);
      RowUpdateKeepsBalance(db, Attempted(db, at, step).db, RowOf(step).value);
    } else {
      OtherStepKeepsBalance(db, at, step);
    }
    hide Attempted, Balanced;
  }

  lemma OtherStepKeepsBalance(db: Db, at: Time, step: Step)
    requires Balanced(db) && (RowOf(step).None? || step.InputExpired?)
    ensures Balanced(Attempted(db, at, step).db)
  {
    hide Balanced, CreateManyWithQuota, FinalizeAttempt, CancelWithRefund, ReserveUpload, ReleaseUpload, DeleteExpiredDocument, MarkInputExpired;
    if step.QuotaReset? {
      ResetKeepsBalance(db, step.user);
    } else {
      match step
      case Presigned(user, key, size, expiresAt) => ReserveKeepsBalance(db, user, key, size, expiresAt);
      case UploadReleased(user, key) => ReleaseKeepsBalance(db, user, key);
      case Submitted(user, docs) => SubmitKeepsBalance(db, user, docs, at);
      case InputExpired(id) => ExpireKeepsBalance(db, id);
      case DocumentDeleted(id, before) => DeleteKeepsBalance(db, id, before);
      case _ => UnrelatedStepKeepsBalance(db, at, step);
    }
  }

  lemma ResetKeepsBalance(db: Db, user: UserId)
    requires Balanced(db)
    ensures Balanced(ResetDocUsed(db, user).db)
  {
    hide UsedBytes, ReservedBytes;
  }

  lemma UnrelatedStepKeepsBalance(db: Db, at: Time, step: Step)
    requires Balanced(db) && (step.Published? || step.EventsPurged?)
    ensures Balanced(Attempted(db, at, step).db)
  {
    hide CreateManyWithQuota, FinalizeAttempt, CancelWithRefund, ReserveUpload, DeleteExpiredDocument, MarkInputExpired, SubmitError;
    if step.Published? {
      EventInsertFrame(db, Some((step.eventId, step.notice)));
    }
  }

  /** In every reachable database both storage counters equal their recomputation, within the quota. */
  lemma {:induction false} BalancedInEveryRun(w: World, run: seq<Timed>, maxAttempts: int)
    requires Initial(w) && ValidRun(w, run, maxAttempts)
    ensures Balanced(Exec(w, run).db)
  {
    hide Attempted;
    if run == [] {
    } else {
      BalancedInEveryRun(w, run[..|run| - 1], maxAttempts);
      TransactionKeepsBalance(Exec(w, run[..|run| - 1]).db, run[|run| - 1].at, run[|run| - 1].step);
    }
  }

  /** So the recomputation at startup finds nothing to repair. */
  lemma CountersExactInEveryRun(w: World, run: seq<Timed>, maxAttempts: int)
    requires Initial(w) && ValidRun(w, run, maxAttempts)
    ensures Reconcile(Exec(w, run).db) == Exec(w, run).db
  {
    BalancedInEveryRun(w, run, maxAttempts);
    ReconcileIsNoOp(Exec(w, run).db);
  }

  // ---------------------------------------------------------------- the document table after one step

  /** Whether the guarded update of a row step finds its row. */
  predicate Rewrites(db: Db, at: Time, step: Step) {
    match step
    case Claimed(id, _, _, _) => id in db.docs
    case Requeued(id, attempt) => Fenced(db, id, attempt)
    case Released(id, attempt) => Fenced(db, id, attempt)
    case Finalized(f, _) => Attempted(db, at, step).error.None? && f.id in db.docs
    case CancelledByUser(id, _, _) => Attempted(db, at, step).error.None? && id in db.docs
    case InputExpired(id) => InputExpirable(db, id)
    case ResultExpired(id) => ResultExpirable(db, id, at)
    case _ => false
  }

  function NewRow(d: Document, at: Time, step: Step): Document {
    match step
    case Claimed(_, _, attempt, lease) => ClaimedRow(d, attempt, at + lease, at)
    case Requeued(_, _) => RequeuedRow(d, at)
    case Released(_, _) => ReleasedRow(d, at)
    case Finalized(f, _) => FinalRow(d, f, at)
    case CancelledByUser(_, _, _) => CancelledRow(d, at)
    case InputExpired(_) => d.(inputKey := None)
    case ResultExpired(_) => d.(resultKey := None, resultText := None)
    case _ => d
  }

  function DocsNext(db: Db, at: Time, step: Step): map<DocId, Document> {
    if Rewrites(db, at, step) then
      var id := RowOf(step).value;
      db.docs[id := NewRow(db.docs[id], at, step)]
    else if step.Submitted? && Attempted(db, at, step).error.None? then InsertDocs(db.docs, step.docs, |step.docs|, at)
    else if step.DocumentDeleted? && Deletable(db, step.id, step.before) then db.docs - {step.id}
    else db.docs
  }

  lemma DocsAfterStep(db: Db, at: Time, step: Step)
    ensures Attempted(db, at, step).db.docs == DocsNext(db, at, step)
    ensures step.Requeued? ==> (Attempted(db, at, step).error.None? <==> Fenced(db, step.id, step.attempt))
    ensures step.Released? ==> (Attempted(db, at, step).error.None? <==> Fenced(db, step.id, step.attempt))
    ensures step.Finalized? && Attempted(db, at, step).error.None? ==>
              Fenced(db, step.f.id, step.f.attempt) && step.f.status in {Completed, Failed}
    ensures step.CancelledByUser? && Attempted(db, at, step).error.None? ==> Cancellable(db, step.id, step.user)
    ensures step.Submitted? && Attempted(db, at, step).error.None? ==>
              FirstProblem(db, step.user, step.docs, |step.docs|, at).None? && NewIds(db.docs, step.docs)
  {
    hide FinalizeAttempt, CancelWithRefund;
    if step.Finalized? {
      FinalizeFrame(db, step.f, step.event, at);
      hide Fenced;
    } else if step.CancelledByUser? {
      CancelFrame(db, step.id, step.user, step.event, at);
      hide Cancellable;
    } else if step.Published? {
      EventInsertFrame(db, Some((step.eventId, step.notice)));
      hide InsertEvent;
    } else {
      hide Fenced, InsertEvent, ClaimedRow, RequeuedRow, ReleasedRow, ReserveFits;
    }
  }
}
