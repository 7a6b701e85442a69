/**
 The retention worker beside the service. The worker lists, checks and deletes in separate steps, and
 any transaction may commit in between; a key the worker has made up its mind about is `doomed`.
 Theorem: no doomed object is the input of an unfinished document, in every run, exactly when the
 worker waits at least as long before it looks for orphans as a reservation lives.
 */
module Retention {
  import opened Wrappers
  import opened Text
  import opened Tables
  import opened Ledger
  import opened Lifecycle
  import opened Attempts
  import opened Outcomes

  /** Configuration: lifetime of a reservation, age before an upload counts as orphan. */
  datatype Ttl = Ttl(reservation: int, orphan: int)

  datatype Site = Site(w: World, objects: map<Key, Time>, issuedAt: map<Key, Time>, listed: set<Key>, doomed: set<Key>)

  datatype Move =
    | Service(step: Step)
    | PutUpload(key: Key)
    | PutInput(key: Key)
    | ListOrphans(batch: set<Key>)
    | CheckOrphan(key: Key)
    | ReleaseExpired(user: UserId, key: Key)
    | DoomFinishedInput(id: DocId)
    | DeleteObject(key: Key)

  predicate UploadKey(k: Key) { HasPrefix(k, "uploads/") }

  predicate Allowed(s: Site, at: Time, m: Move, ttl: Ttl, maxAttempts: int) {
    && s.w.now <= at
    && match m
       case Service(step) =>
         Enabled(s.w, at, step, maxAttempts) && (step.Presigned? ==> step.expiresAt == at + ttl.reservation)
       case PutUpload(key) => key in s.issuedAt
       case PutInput(key) => !UploadKey(key)
       case ListOrphans(batch) => forall k | k in batch :: k in s.objects && UploadKey(k) && s.objects[k] <= at - ttl.orphan
       case CheckOrphan(key) => key in s.listed
       case ReleaseExpired(user, key) => key in s.w.db.reservations ==> s.w.db.reservations[key].expiresAt <= at
       case DoomFinishedInput(id) => id in s.w.db.docs && Terminal(s.w.db.docs[id].status) && s.w.db.docs[id].inputKey.Some?
       case DeleteObject(key) => key in s.doomed
  }

  function Moved(s: Site, at: Time, m: Move): Site {
    match m
    case Service(step) =>
      s.(w := Next(s.w, at, step),
         issuedAt := if step.Presigned? && Accepted(s.w, at, step) then s.issuedAt[step.key := at] else s.issuedAt)
    case PutUpload(key) => s.(w := s.w.(now := at), objects := s.objects[key := at])
    case PutInput(key) => s.(w := s.w.(now := at), objects := s.objects[key := at])
    case ListOrphans(batch) => s.(w := s.w.(now := at), listed := batch)
    case CheckOrphan(key) =>
      s.(w := s.w.(now := at), listed := s.listed - {key},
         doomed := if InputKeyReferenced(s.w.db, key) then s.doomed else s.doomed + {key})
    case ReleaseExpired(user, key) =>
      s.(w := Next(s.w, at, UploadReleased(user, key)),
         doomed := if user in s.w.db.accounts && Releasable(s.w.db, user, key) then s.doomed + {key} else s.doomed)
    case DoomFinishedInput(id) =>
      s.(w := s.w.(now := at),
         doomed := if id in s.w.db.docs && s.w.db.docs[id].inputKey.Some? then s.doomed + {s.w.db.docs[id].inputKey.value} else s.doomed)
    case DeleteObject(key) => s.(w := s.w.(now := at), objects := s.objects - {key})
  }

  // ---------------------------------------------------------------- who may reference a key

  predicate References(docs: map<DocId, Document>, id: DocId, k: Key) { id in docs && docs[id].inputKey == Some(k) }

  /** Input keys have one owner, and a key still reserved has none. */
  ghost predicate KeysSound(w: World) {
    && (forall id, k | References(w.db.docs, id, k) :: k in w.keys)
    && (forall id1, id2, k | References(w.db.docs, id1, k) && References(w.db.docs, id2, k) :: id1 == id2)
    && (forall k | k in w.db.reservations :: k in w.keys)
    && (forall id, k | References(w.db.docs, id, k) && k in w.db.reservations :: w.db.reservations[k].state == Consumed)
  }

  /** A reservation that can still be consumed. */
  predicate Live(w: World, k: Key, now: Time) {
    k in w.db.reservations && w.db.reservations[k].state == Reserved && now < w.db.reservations[k].expiresAt
  }

  /**
   A step gives a key a new referrer only by consuming a live reservation of it, or if the key was never
   seen before: a released, expired or used-up upload cannot be submitted again.
   */
  lemma NewReferenceIsLiveOrUnseen(w: World, at: Time, step: Step, maxAttempts: int, id: DocId, k: Key)
    requires Enabled(w, at, step, maxAttempts)
    requires References(Next(w, at, step).db.docs, id, k) && !References(w.db.docs, id, k)
    ensures step.Submitted? && Accepted(w, at, step) && id !in w.db.docs
    ensures exists i | 0 <= i < |step.docs| :: step.docs[i].id == id && step.docs[i].inputKey == k
    ensures (OwnReservation(w.db, step.user, k) && Live(w, k, at)) || k !in w.keys
  {
    DocsAfterStep(w.db, at, step);
    hide Attempted;
    if step.Submitted? && Accepted(w, at, step) {
      AcceptedItems(w.db, step.user, step.docs, at);
      InsertedRows(w.db.docs, step.docs, |step.docs|, at, id);
      var i :| 0 <= i < |step.docs| && step.docs[i].id == id && DocsNext(w.db, at, step)[id] == QueuedRow(step.docs[i], at);
      assert ItemProblem(w.db, step.user, step.docs, i, at).None?;
      assert step.docs[i] in step.docs;
    }
  }

  function ReservationsNext(db: Db, at: Time, step: Step): map<Key, Reservation> {
    match step
    case Presigned(user, key, size, expiresAt) =>
      if Attempted(db, at, step).error.None? then db.reservations[key := Reservation(user, size, Reserved, None, expiresAt)]
      else db.reservations
    case UploadReleased(user, key) =>
      if user in db.accounts && Releasable(db, user, key) then db.reservations - {key} else db.reservations
    case Submitted(user, docs) =>
      if Attempted(db, at, step).error.None? then ConsumeAll(db.reservations, Consumptions(db, user, docs, |docs|))
      else db.reservations
    case InputExpired(id) =>
      if InputExpirable(db, id) then DropConsumed(db.reservations, db.docs[id].inputKey.value) else db.reservations
    case DocumentDeleted(id, before) =>
      if !Deletable(db, id, before) then db.reservations
      else if db.docs[id].inputKey.Some? then Unlink(DropConsumed(db.reservations, db.docs[id].inputKey.value), id)
      else Unlink(db.reservations, id)
    case _ => db.reservations
  }

  lemma ReservationsAfterStep(db: Db, at: Time, step: Step)
    ensures Attempted(db, at, step).db.reservations == ReservationsNext(db, at, step)
    ensures step.Presigned? && Attempted(db, at, step).error.None? ==> step.key !in db.reservations
  {
    if RowOf(step).Some? && !step.InputExpired? {
      hide Attempted;
      RowStepUpdatesRow(db, at, step);
    } else {
      hide FinalizeAttempt, CancelWithRefund, InsertOptionalEvent;
      if step.Published? {
        EventInsertFrame(db, Some((step.eventId, step.notice)));
      }
    }
  }

  lemma {:induction false} ConsumptionsCover(db: Db, user: UserId, docs: seq<NewDocument>, n: nat, i: nat)
    requires i < n <= |docs| && OwnReservation(db, user, docs[i].inputKey)
    ensures exists c | c in Consumptions(db, user, docs, n) :: c.key == docs[i].inputKey
  {
    if i < n - 1 {
      ConsumptionsCover(db, user, docs, n - 1, i);
      var c :| c in Consumptions(db, user, docs, n - 1) && c.key == docs[i].inputKey;
      assert c in Consumptions(db, user, docs, n);
    } else {
      var d := docs[i];
      assert Consumption(d.inputKey, d.id, db.reservations[d.inputKey].size) in Consumptions(db, user, docs, n);
    }
  }

  lemma {:induction false} ConsumeAllAt(table: map<Key, Reservation>, cs: seq<Consumption>, k: Key)
    requires k in table
    ensures k in ConsumeAll(table, cs)
    ensures ConsumeAll(table, cs)[k].expiresAt == table[k].expiresAt
    ensures ConsumeAll(table, cs)[k].state in {table[k].state, Consumed}
    ensures (exists c | c in cs :: c.key == k) ==> ConsumeAll(table, cs)[k].state == Consumed
  {
    if cs != [] {
      ConsumeAllKeepsSizes(table, cs[..|cs| - 1]);
      ConsumeAllAt(table, cs[..|cs| - 1], k);
      assert forall c | c in cs :: c in cs[..|cs| - 1] || c == cs[|cs| - 1];
    }
  }

  /** Reservations appear only by presigning; their expiry never changes and Consumed is final. */
  lemma ReservationRow(w: World, at: Time, step: Step, k: Key)
    requires k in Next(w, at, step).db.reservations
    ensures var r := Next(w, at, step).db.reservations[k];
            if k in w.db.reservations
            then r.expiresAt == w.db.reservations[k].expiresAt && r.state in {w.db.reservations[k].state, Consumed}
            else step.Presigned? && Accepted(w, at, step) && step.key == k && r.expiresAt == step.expiresAt
  {
    ReservationsAfterStep(w.db, at, step);
    hide Attempted;
    if step.Submitted? && Accepted(w, at, step) {
      ConsumeAllKeepsSizes(w.db.reservations, Consumptions(w.db, step.user, step.docs, |step.docs|));
      ConsumeAllAt(w.db.reservations, Consumptions(w.db, step.user, step.docs, |step.docs|), k);
    }
  }

  lemma ConsumedAfterSubmit(w: World, at: Time, step: Step, i: nat)
    requires step.Submitted? && Accepted(w, at, step) && i < |step.docs|
    requires OwnReservation(w.db, step.user, step.docs[i].inputKey)
    ensures var k := step.docs[i].inputKey;
            k in Next(w, at, step).db.reservations && Next(w, at, step).db.reservations[k].state == Consumed
  {
    ReservationsAfterStep(w.db, at, step);
    hide Attempted;
    ConsumptionsCover(w.db, step.user, step.docs, |step.docs|, i);
    ConsumeAllAt(w.db.reservations, Consumptions(w.db, step.user, step.docs, |step.docs|), step.docs[i].inputKey);
  }

  lemma StepKeepsKeysSound(w: World, at: Time, step: Step, maxAttempts: int)
    requires Enabled(w, at, step, maxAttempts) && KeysSound(w)
    ensures KeysSound(Next(w, at, step))
  {
    var w' := Next(w, at, step);
    KeysOnlyGrow(w, at, step);
    hide Next, Attempted;
    forall id, k | References(w'.db.docs, id, k)
      ensures k in w'.keys
      ensures k in w'.db.reservations ==> w'.db.reservations[k].state == Consumed
    {
      ReferencedKey(w, at, step, maxAttempts, id, k);
    }
    forall k | k in w'.db.reservations
      ensures k in w'.keys
    {
      ReservationRow(w, at, step, k);
      PresignedKeyIsKnown(w, at, step, k);
    }
    forall id1, id2, k | References(w'.db.docs, id1, k) && References(w'.db.docs, id2, k)
      ensures id1 == id2
    {
      OneReferrer(w, at, step, maxAttempts, id1, id2, k);
    }
  }

  lemma KeysOnlyGrow(w: World, at: Time, step: Step)
    ensures w.keys <= Next(w, at, step).keys
    ensures step.Submitted? ==> KeysOf(step.docs) <= Next(w, at, step).keys
  {
    hide Attempted;
  }

  lemma PresignedKeyIsKnown(w: World, at: Time, step: Step, k: Key)
    ensures step.Presigned? && step.key == k ==> k in Next(w, at, step).keys
  {
    hide Attempted;
  }

  lemma ReferencedKey(w: World, at: Time, step: Step, maxAttempts: int, id: DocId, k: Key)
    requires Enabled(w, at, step, maxAttempts) && KeysSound(w) && References(Next(w, at, step).db.docs, id, k)
    ensures k in Next(w, at, step).keys
    ensures k in Next(w, at, step).db.reservations ==> Next(w, at, step).db.reservations[k].state == Consumed
  {
    var w' := Next(w, at, step);
    KeysOnlyGrow(w, at, step);
    hide Next, Attempted;
    if References(w.db.docs, id, k) {
      if k in w'.db.reservations {
        ReservationRow(w, at, step, k);
      }
    } else {
      NewReferenceIsLiveOrUnseen(w, at, step, maxAttempts, id, k);
      var i :| 0 <= i < |step.docs| && step.docs[i].id == id && step.docs[i].inputKey == k;
      assert step.docs[i] in step.docs;
      if OwnReservation(w.db, step.user, k) {
        ConsumedAfterSubmit(w, at, step, i);
      } else if k in w'.db.reservations {
        ReservationRow(w, at, step, k);
      }
    }
  }

  lemma OneReferrer(w: World, at: Time, step: Step, maxAttempts: int, id1: DocId, id2: DocId, k: Key)
    requires Enabled(w, at, step, maxAttempts) && KeysSound(w)
    requires References(Next(w, at, step).db.docs, id1, k) && References(Next(w, at, step).db.docs, id2, k)
    ensures id1 == id2
  {
    hide Next, Attempted;
    if References(w.db.docs, id1, k) && References(w.db.docs, id2, k) {
    } else if !References(w.db.docs, id1, k) && !References(w.db.docs, id2, k) {
      NewReferenceIsLiveOrUnseen(w, at, step, maxAttempts, id1, k);
      NewReferenceIsLiveOrUnseen(w, at, step, maxAttempts, id2, k);
      var i :| 0 <= i < |step.docs| && step.docs[i].id == id1 && step.docs[i].inputKey == k;
      var j :| 0 <= j < |step.docs| && step.docs[j].id == id2 && step.docs[j].inputKey == k;
      BatchKeysDistinct(w, at, step, i, j);
    } else {
      var seen, unseen := if References(w.db.docs, id1, k) then id1 else id2, if References(w.db.docs, id1, k) then id2 else id1;
      assert References(w.db.docs, seen, k) && k in w.keys;
      NewReferenceIsLiveOrUnseen(w, at, step, maxAttempts, unseen, k);
    }
  }

  lemma BatchKeysDistinct(w: World, at: Time, step: Step, i: nat, j: nat)
    requires step.Submitted? && Accepted(w, at, step)
    requires i < |step.docs| && j < |step.docs| && step.docs[i].inputKey == step.docs[j].inputKey
    ensures i == j
  {
    DocsAfterStep(w.db, at, step);
    AcceptedItems(w.db, step.user, step.docs, at);
    hide Attempted;
    NotSeenBefore(w.db, step.user, step.docs, i, at);
    NotSeenBefore(w.db, step.user, step.docs, j, at);
  }

  lemma NotSeenBefore(db: Db, user: UserId, docs: seq<NewDocument>, i: nat, now: Time)
    requires i < |docs| && ItemProblem(db, user, docs, i, now).None?
    ensures forall j | 0 <= j < i :: docs[j].inputKey != docs[i].inputKey
  {
    assert !KeySeenBefore(docs, i);
  }

  // ---------------------------------------------------------------- cleanup is safe

  /** No unfinished document needs the object, and no submission can come to need it. */
  ghost predicate Disposable(w: World, k: Key) {
    && k in w.keys && !Live(w, k, w.now)
    && forall id | References(w.db.docs, id, k) :: Terminal(w.db.docs[id].status)
  }

  ghost predicate CleanupSound(s: Site, ttl: Ttl) {
    && KeysSound(s.w)
    && (forall k | k in s.issuedAt :: k in s.w.keys && UploadKey(k) && s.issuedAt[k] <= s.w.now)
    && (forall k | k in s.w.db.reservations :: k in s.issuedAt && s.w.db.reservations[k].expiresAt == s.issuedAt[k] + ttl.reservation)
    && (forall k | k in s.objects && UploadKey(k) :: k in s.issuedAt && s.issuedAt[k] <= s.objects[k])
    && (forall k | k in s.listed :: k in s.w.keys && !Live(s.w, k, s.w.now))
    && (forall k | k in s.doomed :: Disposable(s.w, k))
  }

  /** What every deletion of an object is entitled to. */
  ghost predicate Safe(s: Site) {
    forall k, id | k in s.doomed && References(s.w.db.docs, id, k) :: Terminal(s.w.db.docs[id].status)
  }

  lemma NotLiveStaysNotLive(w: World, at: Time, step: Step, maxAttempts: int, k: Key)
    requires Enabled(w, at, step, maxAttempts) && k in w.keys && !Live(w, k, w.now)
    ensures k in Next(w, at, step).keys && !Live(Next(w, at, step), k, Next(w, at, step).now)
  {
    var w' := Next(w, at, step);
    KeysOnlyGrow(w, at, step);
    TimeAdvances(w, at, step);
    hide Next, Attempted;
    if k in w'.db.reservations {
      ReservationRow(w, at, step, k);
    }
  }

  lemma TimeAdvances(w: World, at: Time, step: Step)
    ensures Next(w, at, step).now == at
  {
    hide Attempted;
  }

  lemma DisposableStays(w: World, at: Time, step: Step, maxAttempts: int, k: Key)
    requires Enabled(w, at, step, maxAttempts) && AttemptsSound(w, maxAttempts) && Disposable(w, k)
    ensures Disposable(Next(w, at, step), k)
  {
    var w' := Next(w, at, step);
    NotLiveStaysNotLive(w, at, step, maxAttempts, k);
    hide Next, Attempted;
    forall id | References(w'.db.docs, id, k)
      ensures Terminal(w'.db.docs[id].status)
    {
      if References(w.db.docs, id, k) {
        StepKeepsVerdict(w, at, step, maxAttempts, id);
      } else {
        NewReferenceIsLiveOrUnseen(w, at, step, maxAttempts, id, k);
      }
    }
  }

  lemma ServiceKeepsCleanup(s: Site, at: Time, m: Move, ttl: Ttl, maxAttempts: int)
    requires Allowed(s, at, m, ttl, maxAttempts) && AttemptsSound(s.w, maxAttempts) && CleanupSound(s, ttl) && m.Service?
    ensures CleanupSound(Moved(s, at, m), ttl)
  {
    var s' := Moved(s, at, m);
    StepKeepsKeysSound(s.w, at, m.step, maxAttempts);
    KeysOnlyGrow(s.w, at, m.step);
    TimeAdvances(s.w, at, m.step);
    hide Next, Attempted, KeysSound;
    forall k | k in s'.issuedAt
      ensures k in s'.w.keys && UploadKey(k)
    {
      PresignedKeyIsKnown(s.w, at, m.step, k);
    }
    forall k | k in s'.w.db.reservations
      ensures k in s'.issuedAt && s'.w.db.reservations[k].expiresAt == s'.issuedAt[k] + ttl.reservation
    {
      ReservationRow(s.w, at, m.step, k);
      PresignIsFirst(s, at, m, ttl, maxAttempts, k);
    }
    forall k | k in s'.objects && UploadKey(k)
      ensures k in s'.issuedAt && s'.issuedAt[k] <= s'.objects[k]
    {
      PresignIsFirst(s, at, m, ttl, maxAttempts, k);
    }
    forall k | k in s'.listed
      ensures k in s'.w.keys && !Live(s'.w, k, s'.w.now)
    {
      NotLiveStaysNotLive(s.w, at, m.step, maxAttempts, k);
    }
    forall k | k in s'.doomed
      ensures Disposable(s'.w, k)
    {
      DisposableStays(s.w, at, m.step, maxAttempts, k);
    }
  }

  /** A presigned key is new, so its issue time is never overwritten. */
  lemma PresignIsFirst(s: Site, at: Time, m: Move, ttl: Ttl, maxAttempts: int, k: Key)
    requires Allowed(s, at, m, ttl, maxAttempts) && CleanupSound(s, ttl) && m.Service?
    ensures k in s.issuedAt ==> k in Moved(s, at, m).issuedAt && Moved(s, at, m).issuedAt[k] == s.issuedAt[k]
  {
    hide Next, Attempted;
  }

  lemma ClockKeepsCleanup(s: Site, at: Time, ttl: Ttl)
    requires CleanupSound(s, ttl) && s.w.now <= at
    ensures CleanupSound(s.(w := s.w.(now := at)), ttl)
  {
    var w' := s.w.(now := at);
    assert KeysSound(w');
    forall k | k in s.doomed
      ensures Disposable(w', k)
    {
      assert Disposable(s.w, k);
    }
  }

  /** The expired reservation is gone, and while it was reserved no document referenced its key. */
  lemma ReleaseKeepsCleanup(s: Site, at: Time, m: Move, ttl: Ttl, maxAttempts: int)
    requires Allowed(s, at, m, ttl, maxAttempts) && AttemptsSound(s.w, maxAttempts) && CleanupSound(s, ttl)
    requires m.ReleaseExpired?
    ensures CleanupSound(Moved(s, at, m), ttl)
  {
    var step := UploadReleased(m.user, m.key);
    ServiceKeepsCleanup(s, at, Service(step), ttl, maxAttempts);
    var w' := Next(s.w, at, step);
    if m.user in s.w.db.accounts && Releasable(s.w.db, m.user, m.key) {
      ReservationsAfterStep(s.w.db, at, step);
      DocsAfterStep(s.w.db, at, step);
      hide Attempted, Enabled;
      assert Disposable(w', m.key);
    }
    hide Next, Attempted, Disposable, KeysSound;
  }

  /** Old enough to be listed means presigned at least one reservation lifetime ago. */
  lemma ListedIsNotLive(s: Site, at: Time, m: Move, ttl: Ttl, maxAttempts: int, k: Key)
    requires Allowed(s, at, m, ttl, maxAttempts) && CleanupSound(s, ttl) && ttl.reservation <= ttl.orphan
    requires m.ListOrphans? && k in m.batch
    ensures k in s.w.keys && !Live(s.w, k, at)
  {
  }

  lemma WorkerKeepsCleanup(s: Site, at: Time, m: Move, ttl: Ttl, maxAttempts: int)
    requires Allowed(s, at, m, ttl, maxAttempts) && AttemptsSound(s.w, maxAttempts) && CleanupSound(s, ttl)
    requires !m.Service? && ttl.reservation <= ttl.orphan
    ensures CleanupSound(Moved(s, at, m), ttl)
  {
    if m.ReleaseExpired? {
      hide CleanupSound;
      ReleaseKeepsCleanup(s, at, m, ttl, maxAttempts);
    } else {
      ClockKeepsCleanup(s, at, ttl);
      WorkerAdds(s, at, m, ttl, maxAttempts);
      hide Allowed, AttemptsSound, Disposable, Live, KeysSound, Next, InputKeyReferenced;
    }
  }

  /** What the worker newly lists is not live, and what it newly dooms is disposable. */
  lemma WorkerAdds(s: Site, at: Time, m: Move, ttl: Ttl, maxAttempts: int)
    requires Allowed(s, at, m, ttl, maxAttempts) && CleanupSound(s, ttl) && CleanupSound(s.(w := s.w.(now := at)), ttl)
    requires !m.Service? && !m.ReleaseExpired? && ttl.reservation <= ttl.orphan
    ensures var s', w' := Moved(s, at, m), s.w.(now := at);
            && s'.w == w'
            && (forall k | k in s'.listed && k !in s.listed :: k in w'.keys && !Live(w', k, at))
            && (forall k | k in s'.doomed && k !in s.doomed :: Disposable(w', k))
  {
    var w' := s.w.(now := at);
    if m.ListOrphans? {
      forall k | k in m.batch
        ensures k in w'.keys && !Live(w', k, at)
      {
        ListedIsNotLive(s, at, m, ttl, maxAttempts, k);
      }
    } else if m.CheckOrphan? {
      UnreferencedIsDisposable(s, w', m.key);
    } else if m.DoomFinishedInput? {
      FinishedInputIsDisposable(w', m.id);
    }
    hide Disposable, Live, KeysSound, Next, Enabled, InputKeyReferenced;
  }

  lemma UnreferencedIsDisposable(s: Site, w: World, k: Key)
    requires k in w.keys && !Live(w, k, w.now) && w.db == s.w.db
    ensures Disposable(w, k) || InputKeyReferenced(s.w.db, k)
  {
    if !InputKeyReferenced(w.db, k) {
      assert forall id :: !References(w.db.docs, id, k);
    }
  }

  lemma FinishedInputIsDisposable(w: World, id: DocId)
    requires KeysSound(w) && id in w.db.docs && Terminal(w.db.docs[id].status) && w.db.docs[id].inputKey.Some?
    ensures Disposable(w, w.db.docs[id].inputKey.value)
  {
    assert References(w.db.docs, id, w.db.docs[id].inputKey.value);
  }

  // ---------------------------------------------------------------- every run of service and worker together

  datatype TimedMove = TimedMove(at: Time, m: Move)

  function ExecSite(s: Site, run: seq<TimedMove>): Site {
    if run == [] then s
    else var last := run[|run| - 1]; Moved(ExecSite(s, run[..|run| - 1]), last.at, last.m)
  }

  predicate ValidSiteRun(s: Site, run: seq<TimedMove>, ttl: Ttl, maxAttempts: int) {
    run == [] || (ValidSiteRun(s, run[..|run| - 1], ttl, maxAttempts)
                  && Allowed(ExecSite(s, run[..|run| - 1]), run[|run| - 1].at, run[|run| - 1].m, ttl, maxAttempts))
  }

  ghost predicate InitialSite(s: Site) {
    Initial(s.w) && s.objects == map[] && s.issuedAt == map[] && s.listed == {} && s.doomed == {}
  }

  lemma MoveKeepsAttempts(s: Site, at: Time, m: Move, ttl: Ttl, maxAttempts: int)
    requires Allowed(s, at, m, ttl, maxAttempts) && AttemptsSound(s.w, maxAttempts)
    ensures AttemptsSound(Moved(s, at, m).w, maxAttempts)
  {
    if m.Service? {
      StepKeepsAttempts(s.w, at, m.step, maxAttempts);
    } else if m.ReleaseExpired? {
      StepKeepsAttempts(s.w, at, UploadReleased(m.user, m.key), maxAttempts);
    }
    hide Next, Enabled;
  }

  lemma {:induction false} CleanupSoundInEveryRun(s: Site, run: seq<TimedMove>, ttl: Ttl, maxAttempts: int)
    requires InitialSite(s) && ValidSiteRun(s, run, ttl, maxAttempts) && maxAttempts > 0
    requires ttl.reservation <= ttl.orphan
    ensures AttemptsSound(ExecSite(s, run).w, maxAttempts) && CleanupSound(ExecSite(s, run), ttl)
  {
    if run != [] {
      var before, last := run[..|run| - 1], run[|run| - 1];
      CleanupSoundInEveryRun(s, before, ttl, maxAttempts);
      var s1 := ExecSite(s, before);
      MoveKeepsAttempts(s1, last.at, last.m, ttl, maxAttempts);
      if last.m.Service? {
        ServiceKeepsCleanup(s1, last.at, last.m, ttl, maxAttempts);
      } else {
        WorkerKeepsCleanup(s1, last.at, last.m, ttl, maxAttempts);
      }
      hide Moved, Allowed, AttemptsSound, CleanupSound, InitialSite;
    }
  }

  lemma CleanupIsSafe(s: Site, run: seq<TimedMove>, ttl: Ttl, maxAttempts: int)
    requires InitialSite(s) && ValidSiteRun(s, run, ttl, maxAttempts) && maxAttempts > 0
    requires ttl.reservation <= ttl.orphan
    ensures Safe(ExecSite(s, run))
  {
    CleanupSoundInEveryRun(s, run, ttl, maxAttempts);
    var s' := ExecSite(s, run);
    forall k, id | k in s'.doomed && References(s'.w.db.docs, id, k)
      ensures Terminal(s'.w.db.docs[id].status)
    {
      assert Disposable(s'.w, k);
    }
  }

  // ---------------------------------------------------------------- why the two lifetimes must agree

  const RACE_KEY := "uploads/1/scan.png"
  const RACE_DOC := NewDocument("doc_1", 1, RACE_KEY, 5, "image/png", "auto", None)

  function RaceStart(): Site {
    Site(World(Db(map[1 := Account(0, 0, 0, 0, 0)], map[], map[], map[]), 0, map[], 0, map[], map[], map[], {}),
         map[], map[], {}, {})
  }

  /** Presign, upload, list and check as orphan, and only then submit. */
  function RaceRun(ttl: Ttl): seq<TimedMove> {
    [TimedMove(0, Service(Presigned(1, RACE_KEY, 5, ttl.reservation))),
     TimedMove(0, PutUpload(RACE_KEY)),
     TimedMove(ttl.orphan, ListOrphans({RACE_KEY})),
     TimedMove(ttl.orphan, CheckOrphan(RACE_KEY)),
     TimedMove(ttl.orphan, Service(Submitted(1, [RACE_DOC])))]
  }

  lemma SiteRunExtended(s: Site, run: seq<TimedMove>, t: TimedMove, ttl: Ttl, maxAttempts: int)
    ensures ExecSite(s, run + [t]) == Moved(ExecSite(s, run), t.at, t.m)
    ensures ValidSiteRun(s, run + [t], ttl, maxAttempts) <==>
              ValidSiteRun(s, run, ttl, maxAttempts) && Allowed(ExecSite(s, run), t.at, t.m, ttl, maxAttempts)
  {
    hide Moved, Allowed;
    assert (run + [t])[..|run|] == run;
  }

  /** A single live upload is submitted without any quota in the way. */
  lemma LiveUploadIsAccepted(db: Db, d: NewDocument, now: Time)
    requires d.user in db.accounts && d.inputSize > 0 && db.docs == map[] && OwnReservation(db, d.user, d.inputKey)
    requires db.accounts[d.user] == Account(0, 0, 0, 0, d.inputSize)
    requires var r := db.reservations[d.inputKey]; r.state == Reserved && now < r.expiresAt && r.size == d.inputSize
    ensures var tx := CreateManyWithQuota(db, d.user, [d], now);
            tx.error.None? && tx.db.docs == map[d.id := QueuedRow(d, now)]
  {
    var docs := [d];
    assert FirstProblem(db, d.user, docs, 1, now).None? by {
      hide UploadPrefix;
      assert FirstProblem(db, d.user, docs, 0, now).None?;
      assert !KeySeenBefore(docs, 0);
    }
    assert ConsumedBytes(Consumptions(db, d.user, docs, 1)) == d.inputSize by {
      var c := Consumption(d.inputKey, d.id, d.inputSize);
      assert Consumptions(db, d.user, docs, 0) == [];
      assert Consumptions(db, d.user, docs, 1) == [c];
      assert [c][..0] == [];
    }
    assert InputBytes(docs, 1) == d.inputSize && InsertDocs(db.docs, docs, 1, now) == map[d.id := QueuedRow(d, now)] by {
      assert InputBytes(docs, 0) == 0;
      assert InsertDocs(db.docs, docs, 0, now) == db.docs;
    }
    hide FirstProblem, ConsumedBytes, Consumptions, InputBytes, InsertDocs, ConsumeAll, QueuedRow;
  }

  /** Until the orphan check the upload sits there reserved, and the check dooms it. */
  lemma RaceDoomsUpload(ttl: Ttl, maxAttempts: int)
    requires 0 < ttl.orphan < ttl.reservation && maxAttempts > 0
    ensures ValidSiteRun(RaceStart(), RaceRun(ttl)[..4], ttl, maxAttempts)
    ensures var s := ExecSite(RaceStart(), RaceRun(ttl)[..4]);
            && s.w.now == ttl.orphan && s.doomed == {RACE_KEY} && s.w.created == map[]
            && s.w.db == Db(map[1 := Account(0, 0, 0, 0, 5)], map[], map[RACE_KEY := Reservation(1, 5, Reserved, None, ttl.reservation)], map[])
  {
    var s0, run := RaceStart(), RaceRun(ttl);
    assert UploadPrefix(1) == "uploads/1/";
    hide UploadPrefix;
    var s1 := Moved(s0, run[0].at, run[0].m);
    assert Allowed(s0, run[0].at, run[0].m, ttl, maxAttempts);
    assert s1.w.db == Db(map[1 := Account(0, 0, 0, 0, 5)], map[], map[RACE_KEY := Reservation(1, 5, Reserved, None, ttl.reservation)], map[]);
    var s2 := Moved(s1, run[1].at, run[1].m);
    var s3 := Moved(s2, run[2].at, run[2].m);
    var s4 := Moved(s3, run[3].at, run[3].m);
    assert s4.doomed == {RACE_KEY};
    assert run[..0] == [] && run[..1] == run[..0] + [run[0]] && run[..2] == run[..1] + [run[1]];
    assert run[..3] == run[..2] + [run[2]] && run[..4] == run[..3] + [run[3]];
    SiteRunExtended(s0, run[..0], run[0], ttl, maxAttempts);
    SiteRunExtended(s0, run[..1], run[1], ttl, maxAttempts);
    SiteRunExtended(s0, run[..2], run[2], ttl, maxAttempts);
    SiteRunExtended(s0, run[..3], run[3], ttl, maxAttempts);
    assert Allowed(s1, run[1].at, run[1].m, ttl, maxAttempts);
    assert Allowed(s2, run[2].at, run[2].m, ttl, maxAttempts);
    assert Allowed(s3, run[3].at, run[3].m, ttl, maxAttempts);
  }

  lemma RaceIsUnsafe(ttl: Ttl, maxAttempts: int)
    requires 0 < ttl.orphan < ttl.reservation && maxAttempts > 0
    ensures InitialSite(RaceStart()) && ValidSiteRun(RaceStart(), RaceRun(ttl), ttl, maxAttempts)
    ensures !Safe(ExecSite(RaceStart(), RaceRun(ttl)))
  {
    assert UploadPrefix(1) == "uploads/1/";
    hide UploadPrefix, CreateManyWithQuota, ExecSite, ValidSiteRun;
    var run := RaceRun(ttl);
    RaceDoomsUpload(ttl, maxAttempts);
    var s := ExecSite(RaceStart(), run[..4]);
    LiveUploadIsAccepted(s.w.db, RACE_DOC, ttl.orphan);
    assert run == run[..4] + [run[4]];
    SiteRunExtended(RaceStart(), run[..4], run[4], ttl, maxAttempts);
    assert References(Moved(s, run[4].at, run[4].m).w.db.docs, "doc_1", RACE_KEY);
  }

  /** With both lifetimes positive, cleanup never takes an unfinished document's input exactly when orphans age at least as long as reservations live. */
  lemma CleanupSafeExactly(ttl: Ttl, maxAttempts: int)
    requires ttl.orphan > 0 && ttl.reservation > 0 && maxAttempts > 0
    ensures (forall s, run | InitialSite(s) && ValidSiteRun(s, run, ttl, maxAttempts) :: Safe(ExecSite(s, run)))
            <==> ttl.reservation <= ttl.orphan
  {
    hide Safe, ExecSite, ValidSiteRun, InitialSite;
    if ttl.reservation <= ttl.orphan {
      forall s, run | InitialSite(s) && ValidSiteRun(s, run, ttl, maxAttempts)
        ensures Safe(ExecSite(s, run))
      {
        CleanupIsSafe(s, run, ttl, maxAttempts);
      }
    } else {
      RaceIsUnsafe(ttl, maxAttempts);
    }
  }
}
