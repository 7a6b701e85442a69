/**
 What uploads and submissions are refused for and what an accepted one leaves behind, said of the accounts' and
 rows' own fields, and the document quota over every run.
 */
module Submissions {
  import opened Wrappers
  import opened Text
  import opened Tables
  import opened Ledger
  import opened Lifecycle

  // ---------------------------------------------------------------- reserving an upload

  /** The first reason that applies. */
  lemma ReservationAnswers(db: Db, user: UserId, key: Key, size: int, expiresAt: Time)
    ensures var error := ReserveUpload(db, user, key, size, expiresAt).error;
            if user == 0 || key == "" || size <= 0 then error == Some(BadParamInput)
            else if user !in db.accounts then error == Some(NotFound)
            else
              var a := db.accounts[user];
              if a.storageQuota != 0 && a.storageUsed + a.storageReserved + size > a.storageQuota then error == Some(StorageQuotaExceeded)
              else if key in db.reservations then error == Some(ConstraintViolation)
              else error == None
  {
  }

  /** An accepted reservation is the user's, unconsumed, of that size until that time, and moves one counter by it. */
  lemma ReservationStored(db: Db, user: UserId, key: Key, size: int, expiresAt: Time)
    requires ReserveUpload(db, user, key, size, expiresAt).error.None?
    ensures var after := ReserveUpload(db, user, key, size, expiresAt).db;
            && after.docs == db.docs && after.events == db.events
            && key in after.reservations && after.reservations - {key} == db.reservations && key !in db.reservations
            && var r := after.reservations[key];
               && r.user == user && r.size == size && r.state == Reserved && r.documentId == None && r.expiresAt == expiresAt
               && user in db.accounts && user in after.accounts && after.accounts - {user} == db.accounts - {user}
               && var a, a' := db.accounts[user], after.accounts[user];
                  && a'.storageReserved == a.storageReserved + size && a'.storageUsed == a.storageUsed && a'.docUsed == a.docUsed
                  && a'.docQuota == a.docQuota && a'.storageQuota == a.storageQuota
  {
  }

  // ---------------------------------------------------------------- refusing a submission

  /** The user's own reservation of the key is live and of the submitted size, or it is no upload of theirs at all. */
  predicate UsableInput(db: Db, user: UserId, d: NewDocument, now: Time) {
    if d.inputKey in db.reservations && db.reservations[d.inputKey].user == user then
      var r := db.reservations[d.inputKey];
      r.state == Reserved && now < r.expiresAt && r.size == d.inputSize
    else !HasPrefix(d.inputKey, "uploads/" + Decimal(user) + "/")
  }

  predicate Submittable(db: Db, user: UserId, docs: seq<NewDocument>, i: nat, now: Time)
    requires i < |docs|
  {
    && docs[i].user == user && docs[i].inputSize > 0
    && (forall j | 0 <= j < i :: docs[j].inputKey != docs[i].inputKey)
    && UsableInput(db, user, docs[i], now)
  }

  lemma SubmittableExactly(db: Db, user: UserId, docs: seq<NewDocument>, i: nat, now: Time)
    requires i < |docs|
    ensures ItemProblem(db, user, docs, i, now).None? <==> Submittable(db, user, docs, i, now)
    ensures ItemProblem(db, user, docs, i, now) == Some(BadParamInput) <==> docs[i].user != user || docs[i].inputSize <= 0
    ensures ItemProblem(db, user, docs, i, now) in {None, Some(BadParamInput), Some(InvalidURL)}
  {
    hide HasPrefix, Decimal;
  }

  lemma {:induction false} ProblemIsFirst(db: Db, user: UserId, docs: seq<NewDocument>, n: nat, now: Time)
    requires n <= |docs|
    ensures FirstProblem(db, user, docs, n, now).None? <==> forall i | 0 <= i < n :: Submittable(db, user, docs, i, now)
    ensures forall i | 0 <= i < n && !Submittable(db, user, docs, i, now) && (forall j | 0 <= j < i :: Submittable(db, user, docs, j, now)) ::
              FirstProblem(db, user, docs, n, now) == ItemProblem(db, user, docs, i, now)
  {
    hide ItemProblem, Submittable;
    if n > 0 {
      ProblemIsFirst(db, user, docs, n - 1, now);
      SubmittableExactly(db, user, docs, n - 1, now);
    }
  }

  /** Bytes of the first `n` documents that no reservation of the user covers. */
  function Uncovered(db: Db, user: UserId, docs: seq<NewDocument>, n: nat): int
    requires n <= |docs|
  {
    if n == 0 then 0
    else
      var d := docs[n - 1];
      Uncovered(db, user, docs, n - 1)
      + if d.inputKey in db.reservations && db.reservations[d.inputKey].user == user then 0 else d.inputSize
  }

  lemma {:induction false} UncoveredIsUnreserved(db: Db, user: UserId, docs: seq<NewDocument>, n: nat, now: Time)
    requires n <= |docs| && forall i | 0 <= i < n :: Submittable(db, user, docs, i, now)
    ensures Uncovered(db, user, docs, n) == InputBytes(docs, n) - ConsumedBytes(Consumptions(db, user, docs, n))
  {
    hide HasPrefix, Decimal;
    if n > 0 {
      UncoveredIsUnreserved(db, user, docs, n - 1, now);
      assert Submittable(db, user, docs, n - 1, now);
    }
  }

  predicate OverDocumentQuota(db: Db, user: UserId, n: nat) {
    user in db.accounts && db.accounts[user].docQuota > 0 && db.accounts[user].docUsed + n > db.accounts[user].docQuota
  }

  /** A submission is refused for the document quota exactly when it would exceed it, whatever else is wrong with it. */
  lemma DocumentQuotaRefusalExactly(db: Db, user: UserId, docs: seq<NewDocument>, now: Time)
    ensures CreateManyWithQuota(db, user, docs, now).error == Some(QuotaExceeded)
            <==> user in db.accounts && db.accounts[user].docQuota > 0
                 && db.accounts[user].docUsed + |docs| > db.accounts[user].docQuota
    ensures CreateManyWithQuota(db, user, docs, now).error == Some(NotFound) <==> user !in db.accounts
  {
    SubmitNeverConflicts(db, user, docs, |docs|, now);
    hide FirstProblem, Consumptions, ConsumedBytes, InputBytes, NewIds, InsertDocs, ConsumeAll;
  }

  /** Below the quota, the first item that may not be submitted decides, and says why. */
  lemma ItemRefusalExactly(db: Db, user: UserId, docs: seq<NewDocument>, i: nat, now: Time)
    requires user in db.accounts && !OverDocumentQuota(db, user, |docs|)
    requires i < |docs| && !Submittable(db, user, docs, i, now) && forall j | 0 <= j < i :: Submittable(db, user, docs, j, now)
    ensures CreateManyWithQuota(db, user, docs, now).error
            == Some(if docs[i].user != user || docs[i].inputSize <= 0 then BadParamInput else InvalidURL)
  {
    ProblemIsFirst(db, user, docs, |docs|, now);
    SubmittableExactly(db, user, docs, i, now);
    hide FirstProblem, ItemProblem, Submittable, Consumptions, ConsumedBytes, InputBytes, NewIds, InsertDocs, ConsumeAll;
  }

  /** A batch is accepted exactly when all of this holds; the conflict branch of the reserved counter is not among the reasons. */
  lemma SubmissionAcceptedExactly(db: Db, user: UserId, docs: seq<NewDocument>, now: Time)
    requires Balanced(db)
    ensures CreateManyWithQuota(db, user, docs, now).error.None?
            <==> && user in db.accounts && !OverDocumentQuota(db, user, |docs|)
                 && (forall i | 0 <= i < |docs| :: Submittable(db, user, docs, i, now))
                 && (db.accounts[user].storageQuota > 0 ==>
                       db.accounts[user].storageUsed + db.accounts[user].storageReserved + Uncovered(db, user, docs, |docs|)
                       <= db.accounts[user].storageQuota)
                 && (forall i | 0 <= i < |docs| :: docs[i].id !in db.docs)
                 && (forall i, j | 0 <= i < j < |docs| :: docs[i].id != docs[j].id)
  {
    ProblemIsFirst(db, user, docs, |docs|, now);
    if user in db.accounts && FirstProblem(db, user, docs, |docs|, now).None? {
      ConsumedIsReserved(db, user, docs, now);
      UncoveredIsUnreserved(db, user, docs, |docs|, now);
      assert CountersOf(db.accounts[user], db.docs, db.reservations, user);
    }
    hide FirstProblem, Submittable, Consumptions, ConsumedBytes, InputBytes, InsertDocs, ConsumeAll, Uncovered, UsedBytes, ReservedBytes, Balanced;
  }

  // ---------------------------------------------------------------- what an accepted submission leaves

  /** The row of a document that waits for its first attempt. */
  predicate Waiting(row: Document, d: NewDocument, at: Time) {
    && row.user == d.user && row.inputKey == Some(d.inputKey) && row.inputSize == d.inputSize
    && row.contentType == d.contentType && row.mode == d.mode && row.notification == d.notification
    && row.status == Queued && row.attempt == None && row.attemptCount == 0 && row.processingUntil == None
    && row.terminalEvent == None && row.resultKey == None && row.resultText == None && row.errorDetail == None
    && row.resultExpiresAt == None && row.createdAt == at && row.updatedAt == at
  }

  lemma {:induction false} InsertedAt(table: map<DocId, Document>, docs: seq<NewDocument>, n: nat, now: Time, i: nat)
    requires i < n <= |docs| && forall j, k | 0 <= j < k < |docs| :: docs[j].id != docs[k].id
    ensures docs[i].id in InsertDocs(table, docs, n, now) && Waiting(InsertDocs(table, docs, n, now)[docs[i].id], docs[i], now)
  {
    hide Waiting;
    if i == n - 1 {
      assert Waiting(QueuedRow(docs[i], now), docs[i], now) by { QueuedWaits(docs[i], now); }
    } else {
      InsertedAt(table, docs, n - 1, now, i);
    }
  }

  lemma QueuedWaits(d: NewDocument, at: Time)
    ensures Waiting(QueuedRow(d, at), d, at)
  {
  }

  lemma {:induction false} InsertedElsewhere(table: map<DocId, Document>, docs: seq<NewDocument>, n: nat, now: Time, id: DocId)
    requires n <= |docs| && forall i | 0 <= i < n :: docs[i].id != id
    ensures id in InsertDocs(table, docs, n, now) <==> id in table
    ensures id in table ==> InsertDocs(table, docs, n, now)[id] == table[id]
  {
    hide QueuedRow;
    if n > 0 {
      InsertedElsewhere(table, docs, n - 1, now, id);
    }
  }

  /** Every submitted document waits under its identifier, and no other row has changed. */
  lemma SubmittedDocumentsWait(db: Db, user: UserId, docs: seq<NewDocument>, now: Time)
    requires CreateManyWithQuota(db, user, docs, now).error.None?
    ensures var after := CreateManyWithQuota(db, user, docs, now).db;
            && after.events == db.events
            && (forall i | 0 <= i < |docs| :: docs[i].id in after.docs && Waiting(after.docs[docs[i].id], docs[i], now))
            && (forall id | id in after.docs && id !in db.docs :: exists i | 0 <= i < |docs| :: docs[i].id == id)
            && (forall id | id in db.docs :: id in after.docs && after.docs[id] == db.docs[id])
  {
    var after := CreateManyWithQuota(db, user, docs, now).db;
    assert after.docs == InsertDocs(db.docs, docs, |docs|, now);
    assert NewIds(db.docs, docs);
    hide CreateManyWithQuota, InsertDocs, Waiting;
    forall i | 0 <= i < |docs|
      ensures docs[i].id in after.docs && Waiting(after.docs[docs[i].id], docs[i], now)
    {
      InsertedAt(db.docs, docs, |docs|, now, i);
    }
    forall id | (id in after.docs && id !in db.docs) || id in db.docs
      ensures id !in db.docs ==> exists i | 0 <= i < |docs| :: docs[i].id == id
      ensures id in db.docs ==> id in after.docs && after.docs[id] == db.docs[id]
    {
      if forall i | 0 <= i < |docs| :: docs[i].id != id {
        InsertedElsewhere(db.docs, docs, |docs|, now, id);
      }
    }
  }

  predicate OwnUpload(db: Db, user: UserId, key: Key) { key in db.reservations && db.reservations[key].user == user }

  predicate ConsumedFor(before: map<Key, Reservation>, after: map<Key, Reservation>, d: NewDocument) {
    && d.inputKey in before && d.inputKey in after
    && after[d.inputKey] == before[d.inputKey].(state := Consumed, documentId := Some(d.id))
  }

  lemma {:induction false} ConsumedRows(db: Db, user: UserId, docs: seq<NewDocument>, n: nat, now: Time)
    requires n <= |docs| && forall i | 0 <= i < n :: Submittable(db, user, docs, i, now)
    ensures var after := ConsumeAll(db.reservations, Consumptions(db, user, docs, n));
            && after.Keys == db.reservations.Keys
            && (forall i | 0 <= i < n && OwnUpload(db, user, docs[i].inputKey) :: ConsumedFor(db.reservations, after, docs[i]))
            && (forall k | k in db.reservations && (forall i | 0 <= i < n :: OwnUpload(db, user, docs[i].inputKey) ==> docs[i].inputKey != k) ::
                  after[k] == db.reservations[k])
  {
    if n > 0 {
      ConsumedRows(db, user, docs, n - 1, now);
      OneMoreConsumed(db, user, docs, n);
      assert forall j | 0 <= j < n - 1 :: docs[j].inputKey != docs[n - 1].inputKey by { assert Submittable(db, user, docs, n - 1, now); }
      hide ConsumeAll, Consumptions, Submittable;
    }
  }

  lemma OneMoreConsumed(db: Db, user: UserId, docs: seq<NewDocument>, n: nat)
    requires 0 < n <= |docs|
    ensures var before, after := ConsumeAll(db.reservations, Consumptions(db, user, docs, n - 1)), ConsumeAll(db.reservations, Consumptions(db, user, docs, n));
            var d := docs[n - 1];
            after == if OwnUpload(db, user, d.inputKey) && d.inputKey in before
                     then before[d.inputKey := before[d.inputKey].(state := Consumed, documentId := Some(d.id))] else before
  {
    var earlier, d := Consumptions(db, user, docs, n - 1), docs[n - 1];
    if OwnUpload(db, user, d.inputKey) {
      var c := Consumption(d.inputKey, d.id, db.reservations[d.inputKey].size);
      assert (earlier + [c])[..|earlier|] == earlier;
    }
  }

  /** The user's uploads among the inputs are consumed, each linked to its document, and no other reservation has changed. */
  lemma SubmissionConsumes(db: Db, user: UserId, docs: seq<NewDocument>, now: Time)
    requires CreateManyWithQuota(db, user, docs, now).error.None?
    ensures var after := CreateManyWithQuota(db, user, docs, now).db.reservations;
            && after.Keys == db.reservations.Keys
            && (forall i | 0 <= i < |docs| && OwnUpload(db, user, docs[i].inputKey) :: ConsumedFor(db.reservations, after, docs[i]))
            && (forall k | k in db.reservations && (forall i | 0 <= i < |docs| :: OwnUpload(db, user, docs[i].inputKey) ==> docs[i].inputKey != k) ::
                  after[k] == db.reservations[k])
  {
    ProblemIsFirst(db, user, docs, |docs|, now);
    ConsumedRows(db, user, docs, |docs|, now);
    hide ConsumeAll, Consumptions, Submittable, FirstProblem, ConsumedFor, OwnUpload, InsertDocs, InputBytes, ConsumedBytes, NewIds;
  }

  /** The account is charged for every document and its bytes, and what reservations covered moves from reserved to used. */
  lemma SubmissionCharges(db: Db, user: UserId, docs: seq<NewDocument>, now: Time)
    requires Balanced(db) && CreateManyWithQuota(db, user, docs, now).error.None?
    ensures var after := CreateManyWithQuota(db, user, docs, now).db;
            && user in db.accounts && user in after.accounts && after.accounts - {user} == db.accounts - {user}
            && var a, a' := db.accounts[user], after.accounts[user];
               && a'.docUsed == a.docUsed + |docs|
               && a'.storageUsed + a'.storageReserved == a.storageUsed + a.storageReserved + Uncovered(db, user, docs, |docs|)
               && a'.docQuota == a.docQuota && a'.storageQuota == a.storageQuota
  {
    SubmissionAcceptedExactly(db, user, docs, now);
    UncoveredIsUnreserved(db, user, docs, |docs|, now);
    hide FirstProblem, Submittable, Consumptions, ConsumedBytes, InputBytes, InsertDocs, ConsumeAll, Uncovered, Balanced, NewIds;
  }

  // ---------------------------------------------------------------- the document quota over runs

  predicate WithinDocumentQuotas(db: Db) {
    forall u | u in db.accounts && db.accounts[u].docQuota > 0 :: db.accounts[u].docUsed <= db.accounts[u].docQuota
  }

  /** No transaction changes a quota, and only an accepted submission raises a document counter. */
  lemma UsageGrowsBySubmission(db: Db, at: Time, step: Step, u: UserId)
    requires u in Attempted(db, at, step).db.accounts
    ensures u in db.accounts && Attempted(db, at, step).db.accounts[u].docQuota == db.accounts[u].docQuota
    ensures Attempted(db, at, step).db.accounts[u].docUsed <= db.accounts[u].docUsed
            || Attempted(db, at, step).db.accounts[u].docUsed <= 0
            || (step.Submitted? && Attempted(db, at, step).error.None? && u == step.user
                && Attempted(db, at, step).db.accounts[u].docUsed == db.accounts[u].docUsed + |step.docs|)
  {
    if step.Finalized? {
      FinalizeFrame(db, step.f, step.event, at);
      hide FinalizeAttempt;
    } else if step.CancelledByUser? {
      CancelFrame(db, step.id, step.user, step.event, at);
      hide CancelWithRefund;
    } else {
      hide FinalizeAttempt, CancelWithRefund, SubmitError, InsertDocs, ConsumeAll, InputBytes, ConsumedBytes, Consumptions;
    }
  }

  lemma StepKeepsDocumentQuotas(db: Db, at: Time, step: Step)
    requires WithinDocumentQuotas(db)
    ensures WithinDocumentQuotas(Attempted(db, at, step).db)
  {
    forall u | u in Attempted(db, at, step).db.accounts
      ensures Attempted(db, at, step).db.accounts[u].docQuota > 0 ==>
                Attempted(db, at, step).db.accounts[u].docUsed <= Attempted(db, at, step).db.accounts[u].docQuota
    {
      UsageGrowsBySubmission(db, at, step, u);
      if step.Submitted? {
        DocumentQuotaRefusalExactly(db, step.user, step.docs, at);
        hide CreateManyWithQuota;
      } else {
        hide Attempted;
      }
    }
    hide Attempted;
  }

  /** In every run no account with a document quota has used more than it, whatever is submitted, refunded or reset. */
  lemma {:induction false} DocumentQuotasInEveryRun(w: World, run: seq<Timed>, maxAttempts: int)
    requires Initial(w) && ValidRun(w, run, maxAttempts)
    ensures forall u | u in Exec(w, run).db.accounts && Exec(w, run).db.accounts[u].docQuota > 0 ::
              Exec(w, run).db.accounts[u].docUsed <= Exec(w, run).db.accounts[u].docQuota
  {
    hide Attempted, Enabled;
    if run == [] {
      assert Exec(w, run) == w;
    } else {
      var before, last := run[..|run| - 1], run[|run| - 1];
      DocumentQuotasInEveryRun(w, before, maxAttempts);
      StepKeepsDocumentQuotas(Exec(w, before).db, last.at, last.step);
      hide Initial, Exec;
      assert Exec(w, run).db == Attempted(Exec(w, before).db, last.at, last.step).db by { LastStep(w, run); }
    }
  }

  lemma LastStep(w: World, run: seq<Timed>)
    requires run != []
    ensures var before, last := run[..|run| - 1], run[|run| - 1];
            Exec(w, run).db == Attempted(Exec(w, before).db, last.at, last.step).db
  {
    hide Attempted;
  }
}
