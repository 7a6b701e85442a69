/**
 The repository as the object that owns the tables. Each method runs one transaction statement
 by statement on working copies and publishes them at the commit; its contract says that the
 caller sees exactly the transaction function of Tables, so a rollback leaves no trace.
 */
module Repository {
  import opened Wrappers
  import opened Text
  import opened Tables
  import opened Batches

  class DocumentStore {
    var accounts: map<UserId, Account>
    var docs: map<DocId, Document>
    var reservations: map<Key, Reservation>
    var events: map<EventId, Event>

    ghost function Contents(): Db
      reads this
    {
      Db(accounts, docs, reservations, events)
    }

    constructor (initial: Db)
      ensures Contents() == initial
    {
      accounts, docs, reservations, events := initial.accounts, initial.docs, initial.reservations, initial.events;
    }

    method ReserveUpload(user: UserId, key: Key, size: int, expiresAt: Time) returns (error: Option<Error>)
      modifies this
      ensures Tx(Contents(), error) == old(Tables.ReserveUpload(Contents(), user, key, size, expiresAt))
    {
      if user == 0 || key == "" || size <= 0 {
        return Some(BadParamInput);
      }
      if user !in accounts {
        return Some(NotFound);
      }
      var a := accounts[user];
      if !(a.storageQuota == 0 || a.storageUsed + a.storageReserved + size <= a.storageQuota) {
        return Some(StorageQuotaExceeded);
      }
      var tx := accounts[user := a.(storageReserved := a.storageReserved + size)];
      if key in reservations {
        return Some(ConstraintViolation);
      }
      accounts := tx;
      reservations := reservations[key := Reservation(user, size, Reserved, None, expiresAt)];
      return None;
    }

    method ReleaseUpload(user: UserId, key: Key) returns (released: bool, error: Option<Error>)
      modifies this
      ensures Tx(Contents(), error) == old(Tables.ReleaseUpload(Contents(), user, key))
      ensures released == old(user in accounts && Releasable(Contents(), user, key))
    {
      if user !in accounts {
        return false, Some(NotFound);
      }
      if !(key in reservations && reservations[key].user == user && reservations[key].state == Reserved) {
        return false, None;
      }
      var size := reservations[key].size;
      reservations := reservations - {key};
      var a := accounts[user];
      accounts := accounts[user := a.(storageReserved := Clamped(a.storageReserved - size))];
      return true, None;
    }

    /** First pass of a submission: lock and check each item, adding up what the batch charges and consumes. */
    method ValidateBatch(user: UserId, batch: seq<NewDocument>, now: Time)
      returns (problem: Option<Error>, inputBytes: int, consumedReservedBytes: int, reservedInputs: seq<Consumption>)
      ensures problem == FirstProblem(Contents(), user, batch, |batch|, now)
      ensures problem.None? ==>
                && inputBytes == InputBytes(batch, |batch|)
                && reservedInputs == Consumptions(Contents(), user, batch, |batch|)
                && consumedReservedBytes == ConsumedBytes(reservedInputs)
    {
      inputBytes, consumedReservedBytes, reservedInputs := 0, 0, [];
      var seenInputKeys: set<Key> := {};
      for i := 0 to |batch|
        invariant FirstProblem(Contents(), user, batch, i, now).None?
        invariant forall k :: k in seenInputKeys <==> exists j | 0 <= j < i :: batch[j].inputKey == k
        invariant inputBytes == InputBytes(batch, i)
        invariant reservedInputs == Consumptions(Contents(), user, batch, i)
        invariant consumedReservedBytes == ConsumedBytes(reservedInputs)
      {
        var d := batch[i];
        if ItemProblem(Contents(), user, batch, i, now).Some? {
          FirstProblemSticks(Contents(), user, batch, i + 1, |batch|, now);
        }
        if d.user != user || d.inputSize <= 0 {
          return Some(BadParamInput), 0, 0, [];
        }
        if d.inputKey in seenInputKeys {
          return Some(InvalidURL), 0, 0, [];
        }
        assert !KeySeenBefore(batch, i);
        seenInputKeys := seenInputKeys + {d.inputKey};
        inputBytes := inputBytes + d.inputSize;
        if d.inputKey in reservations && reservations[d.inputKey].user == user {
          var r := reservations[d.inputKey];
          if r.state != Reserved || !(now < r.expiresAt) || r.size != d.inputSize {
            return Some(InvalidURL), 0, 0, [];
          }
          consumedReservedBytes := consumedReservedBytes + r.size;
          var c := Consumption(d.inputKey, d.id, r.size);
          assert (reservedInputs + [c])[..|reservedInputs|] == reservedInputs;
          reservedInputs := reservedInputs + [c];
        } else if HasPrefix(d.inputKey, UploadPrefix(user)) {
          return Some(InvalidURL), 0, 0, [];
        }
      }
      return None, inputBytes, consumedReservedBytes, reservedInputs;
    }

    /** Second pass: insert the rows into the working copy; a primary-key clash rolls the batch back. */
    method InsertBatch(batch: seq<NewDocument>, now: Time) returns (clash: bool, tx: map<DocId, Document>)
      ensures clash <==> !NewIds(docs, batch)
      ensures !clash ==> tx == InsertDocs(docs, batch, |batch|, now)
    {
      tx := docs;
      for i := 0 to |batch|
        invariant tx == InsertDocs(docs, batch, i, now)
        invariant tx.Keys == docs.Keys + set j | 0 <= j < i :: batch[j].id
        invariant forall j | 0 <= j < i :: batch[j].id !in docs
        invariant forall j, k | 0 <= j < k < i :: batch[j].id != batch[k].id
      {
        if batch[i].id in tx {
          return true, tx;
        }
        tx := tx[batch[i].id := QueuedRow(batch[i], now)];
      }
      return false, tx;
    }

    /** Third pass: consume the reservations. Every guarded UPDATE finds its row, so RowsAffected() != 1 cannot happen. */
    method ConsumeBatch(reservedInputs: seq<Consumption>) returns (tx: map<Key, Reservation>)
      requires SoundConsumptions(reservations, reservedInputs)
      ensures tx == ConsumeAll(reservations, reservedInputs)
    {
      tx := reservations;
      for i := 0 to |reservedInputs|
        invariant tx == ConsumeAll(reservations, reservedInputs[..i])
      {
        var c := reservedInputs[i];
        ConsumeAllElsewhere(reservations, reservedInputs[..i], c.key);
        assert c.key in tx && tx[c.key].state == Reserved;
        tx := tx[c.key := tx[c.key].(state := Consumed, documentId := Some(c.document))];
        assert reservedInputs[..i + 1][..i] == reservedInputs[..i];
      }
      assert reservedInputs[..|reservedInputs|] == reservedInputs;
    }

    method CreateManyWithQuota(user: UserId, batch: seq<NewDocument>, now: Time) returns (error: Option<Error>)
      modifies this
      ensures Tx(Contents(), error) == old(Tables.CreateManyWithQuota(Contents(), user, batch, now))
    {
      if user !in accounts {
        return Some(NotFound);
      }
      var a := accounts[user];
      if a.docQuota > 0 && a.docUsed + |batch| > a.docQuota {
        return Some(QuotaExceeded);
      }
      var problem, inputBytes, consumedReservedBytes, reservedInputs := ValidateBatch(user, batch, now);
      if problem.Some? {
        return problem;
      }
      var newReserved := a.storageReserved - consumedReservedBytes;
      if newReserved < 0 {
        return Some(Conflict);
      }
      if a.storageQuota > 0 && a.storageUsed + inputBytes + newReserved > a.storageQuota {
        return Some(StorageQuotaExceeded);
      }
      var txAccounts := accounts[user := a.(docUsed := a.docUsed + |batch|,
                                            storageUsed := a.storageUsed + inputBytes,
                                            storageReserved := newReserved)];
      var clash, txDocs := InsertBatch(batch, now);
      if clash {
        return Some(ConstraintViolation);
      }
      AcceptedConsumptions(Contents(), user, batch, |batch|, now);
      var txReservations := ConsumeBatch(reservedInputs);
      accounts, docs, reservations := txAccounts, txDocs, txReservations;
      return None;
    }

    method ClaimNext(q: ClaimQuery, attempt: AttemptId, lease: int, maxAttempts: int, now: Time)
      returns (r: Result<Option<DocId>, Error>)
      modifies this
      ensures r.Err? <==> !ValidClaim(q, attempt, lease, maxAttempts)
      ensures r.Err? ==> r.error == BadParamInput && Contents() == old(Contents())
      ensures r == Ok(None) ==> Contents() == old(Contents()) && forall id | id in docs :: !Claimable(q, docs[id], now, maxAttempts)
      ensures r.Ok? && r.value.Some? ==>
                && old(IsNext(Contents(), q, now, maxAttempts, r.value.value))
                && Contents() == old(ClaimDocument(Contents(), r.value.value, attempt, now + lease, now))
    {
      if !ValidClaim(q, attempt, lease, maxAttempts) {
        return Err(BadParamInput);
      }
      var candidates := set id | id in docs && Claimable(q, docs[id], now, maxAttempts);
      assert forall id | id in docs && Claimable(q, docs[id], now, maxAttempts) :: id in candidates;
      if candidates == {} {
        return Ok(None);
      }
      var best :| best in candidates;
      var rest := candidates - {best};
      while rest != {}
        invariant best in candidates && rest <= candidates
        invariant forall id | id in candidates - rest :: ClaimedBefore(docs[best], docs[id])
        decreases rest
      {
        var id :| id in rest;
        if !ClaimedBefore(docs[best], docs[id]) {
          best := id;
        }
        rest := rest - {id};
      }
      docs := docs[best := docs[best].(status := Processing, attempt := Some(attempt), attemptCount := docs[best].attemptCount + 1,
                                       processingUntil := Some(now + lease), errorDetail := None, updatedAt := now)];
      return Ok(Some(best));
    }

    method RequeueAttempt(id: DocId, attempt: AttemptId, now: Time) returns (error: Option<Error>)
      modifies this
      ensures Tx(Contents(), error) == old(Tables.RequeueAttempt(Contents(), id, attempt, now))
    {
      if !(id in docs && docs[id].status == Processing && docs[id].attempt == Some(attempt)) {
        return Some(Conflict);
      }
      docs := docs[id := docs[id].(status := Queued, attempt := None, processingUntil := None, updatedAt := now)];
      return None;
    }

    method ReleaseAttempt(id: DocId, attempt: AttemptId, now: Time) returns (error: Option<Error>)
      modifies this
      ensures Tx(Contents(), error) == old(Tables.ReleaseAttempt(Contents(), id, attempt, now))
    {
      if !(id in docs && docs[id].status == Processing && docs[id].attempt == Some(attempt)) {
        return Some(Conflict);
      }
      docs := docs[id := docs[id].(status := Queued, attempt := None, processingUntil := None,
                                   attemptCount := Clamped(docs[id].attemptCount - 1), updatedAt := now)];
      return None;
    }

    method FinalizeAttempt(f: Finalization, event: Option<(EventId, Event)>, now: Time) returns (error: Option<Error>)
      modifies this
      ensures Tx(Contents(), error) == old(Tables.FinalizeAttempt(Contents(), f, event, now))
    {
      if f.status != Completed && f.status != Failed {
        return Some(BadParamInput);
      }
      if !(f.id in docs && docs[f.id].status == Processing && docs[f.id].attempt == Some(f.attempt)) {
        return Some(Conflict);
      }
      if exists other | other in docs :: other != f.id && docs[other].terminalEvent == Some(f.terminalEvent) {
        return Some(ConstraintViolation);
      }
      var tx := Db(if f.refund then Refund(accounts, docs[f.id].user) else accounts,
                   docs[f.id := docs[f.id].(status := f.status, terminalEvent := Some(f.terminalEvent), resultKey := f.resultKey,
                                            resultText := f.resultText, errorDetail := f.errorDetail,
                                            resultExpiresAt := f.resultExpiresAt, processingUntil := None, updatedAt := now)],
                   reservations, events);
      var inserted := InsertOptionalEvent(tx, event);
      if inserted.error.Some? {
        return inserted.error;
      }
      accounts, docs, events := inserted.db.accounts, inserted.db.docs, inserted.db.events;
      return None;
    }

    method CancelWithRefund(id: DocId, user: UserId, event: Option<(EventId, Event)>, now: Time) returns (error: Option<Error>)
      modifies this
      ensures Tx(Contents(), error) == old(Tables.CancelWithRefund(Contents(), id, user, event, now))
    {
      if !(id in docs && docs[id].user == user && docs[id].status == Queued) {
        return Some(Conflict);
      }
      var tx := Db(Refund(accounts, user),
                   docs[id := docs[id].(status := Cancelled, processingUntil := None, updatedAt := now)], reservations, events);
      var inserted := InsertOptionalEvent(tx, event);
      if inserted.error.Some? {
        return inserted.error;
      }
      accounts, docs, events := inserted.db.accounts, inserted.db.docs, inserted.db.events;
      return None;
    }

    method MarkInputExpired(id: DocId)
      modifies this
      ensures Contents() == old(Tables.MarkInputExpired(Contents(), id))
    {
      if !(id in docs && docs[id].inputKey.Some? && Terminal(docs[id].status)) {
        return;
      }
      var d := docs[id];
      docs := docs[id := d.(inputKey := None)];
      accounts := FreeStorage(accounts, d.user, d.inputSize);
      reservations := DropConsumed(reservations, d.inputKey.value);
    }

    method DeleteExpiredDocument(id: DocId, before: Time)
      modifies this
      ensures Contents() == old(Tables.DeleteExpiredDocument(Contents(), id, before))
    {
      if !(id in docs && Terminal(docs[id].status) && docs[id].updatedAt <= before) {
        return;
      }
      var d := docs[id];
      if d.inputKey.Some? {
        accounts := FreeStorage(accounts, d.user, d.inputSize);
        reservations := DropConsumed(reservations, d.inputKey.value);
      }
      docs := docs - {id};
      reservations := Unlink(reservations, id);
      events := DropEvents(events, id);
    }

    method MarkResultExpired(id: DocId, now: Time)
      modifies this
      ensures Contents() == old(Tables.MarkResultExpired(Contents(), id, now))
    {
      if id in docs && docs[id].resultExpiresAt.Some? && docs[id].resultExpiresAt.value <= now {
        docs := docs[id := docs[id].(resultKey := None, resultText := None)];
      }
    }

    /** ORDER BY processing_until LIMIT: the exhausted attempts whose leases passed first. */
    method ListExhaustedAttempts(now: Time, maxAttempts: int, limit: int) returns (ids: seq<DocId>)
      ensures forall i | 0 <= i < |ids| :: ids[i] in docs && Exhausted(docs[ids[i]], now, maxAttempts)
      ensures |ids| <= if limit <= 0 || limit > 100 then 100 else limit
      ensures forall i, j | 0 <= i < j < |ids| :: ids[i] != ids[j] && LeaseFirst(docs[ids[i]], docs[ids[j]])
      ensures forall id | id in docs && Exhausted(docs[id], now, maxAttempts) && id !in ids ::
                && |ids| == (if limit <= 0 || limit > 100 then 100 else limit)
                && forall i | 0 <= i < |ids| :: LeaseFirst(docs[ids[i]], docs[id])
    {
      var most := if limit <= 0 || limit > 100 then 100 else limit;
      var rest := set id | id in docs && Exhausted(docs[id], now, maxAttempts);
      ids := [];
      while rest != {} && |ids| < most
        invariant |ids| <= most
        invariant forall id | id in docs && Exhausted(docs[id], now, maxAttempts) :: id in rest || id in ids
        invariant forall id | id in rest :: id in docs && Exhausted(docs[id], now, maxAttempts) && id !in ids
        invariant forall i | 0 <= i < |ids| :: ids[i] in docs && Exhausted(docs[ids[i]], now, maxAttempts)
        invariant forall i, j | 0 <= i < j < |ids| :: ids[i] != ids[j] && LeaseFirst(docs[ids[i]], docs[ids[j]])
        invariant forall i, id | 0 <= i < |ids| && id in rest :: LeaseFirst(docs[ids[i]], docs[id])
        decreases |rest|
      {
        var first := Earliest(rest);
        ids := ids + [first];
        rest := rest - {first};
      }
    }

    method Earliest(candidates: set<DocId>) returns (first: DocId)
      requires candidates != {} && forall id | id in candidates :: id in docs && docs[id].processingUntil.Some?
      ensures first in candidates
      ensures forall id | id in candidates :: LeaseFirst(docs[first], docs[id])
    {
      first :| first in candidates;
      var rest := candidates - {first};
      while rest != {}
        invariant first in candidates && rest <= candidates
        invariant forall id | id in candidates - rest :: LeaseFirst(docs[first], docs[id])
        decreases |rest|
      {
        var id :| id in rest;
        if docs[id].processingUntil.value < docs[first].processingUntil.value {
          first := id;
        }
        rest := rest - {id};
      }
    }

    method ResetDocUsed(user: UserId) returns (error: Option<Error>)
      modifies this
      ensures Tx(Contents(), error) == old(Tables.ResetDocUsed(Contents(), user))
    {
      if user !in accounts {
        return Some(NotFound);
      }
      accounts := accounts[user := accounts[user].(docUsed := 0)];
      return None;
    }

    method CreateNotification(id: EventId, e: Event) returns (error: Option<Error>)
      modifies this
      ensures Tx(Contents(), error) == old(InsertEvent(Contents(), id, e))
    {
      if exists other | other in events :: SameNotification(events[other], e) {
        return None;
      }
      if id in events || e.document !in docs {
        return Some(ConstraintViolation);
      }
      events := events[id := e];
      return None;
    }
  }
}
