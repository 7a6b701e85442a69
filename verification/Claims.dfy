/**
 Which document a claim takes and how long one can wait for it, what the attempt updates write, and when rows and
 links go away, said of the rows' own fields.
 */
module Claims {
  import opened Wrappers
  import opened Tables
  import opened Lifecycle
  import opened Attempts
  import opened Outcomes
  import opened Retention
  import opened Submissions

  // ---------------------------------------------------------------- what the queries select

  /** The text query takes PDFs submitted in automatic or text mode; the plain query takes anything. */
  lemma ModesOfQueries(d: Document)
    ensures QueryMatches(AnyDocument, d)
    ensures QueryMatches(ForText, d) <==> d.contentType == "application/pdf" && (d.mode == "" || d.mode == "auto" || d.mode == "text")
    ensures d.mode == "scan" || d.mode == "ocr" ==> !QueryMatches(ForText, d)
  {
    assert |"scan"| == 4 && |"ocr"| == 3 && "scan"[0] == 's' && "auto"[0] == 'a' && "text"[0] == 't';
  }

  /** A PDF weighs what PDFs weigh, anything else what images weigh, and only what fits is taken. */
  lemma WeightsOfQueries(d: Document, available: int, image: int, pdf: int, ocr: bool, scan: bool)
    ensures QueryMatches(WithinCapacity(available, image, pdf), d) <==> (if d.contentType == "application/pdf" then pdf else image) <= available
    ensures QueryMatches(ForWorker(available, image, pdf, ocr, scan), d)
            <==> (if d.contentType == "application/pdf" then pdf else image) <= available && (if d.mode == "scan" then scan else ocr)
  {
  }

  /** What may be claimed is queued, or was left behind by a lease that has passed with attempts to spare. */
  lemma ClaimableExactly(q: ClaimQuery, d: Document, now: Time, maxAttempts: int)
    ensures Claimable(q, d, now, maxAttempts)
            <==> QueryMatches(q, d)
                 && (d.status == Queued
                     || (d.status == Processing && d.processingUntil.Some? && d.processingUntil.value <= now && d.attemptCount < maxAttempts))
  {
    hide QueryMatches;
  }

  /** A claim takes a queued document before any that was left behind, and the oldest of its kind. */
  lemma ClaimTakesOldest(db: Db, q: ClaimQuery, now: Time, maxAttempts: int, id: DocId, other: DocId)
    requires IsNext(db, q, now, maxAttempts, id) && other in db.docs && Claimable(q, db.docs[other], now, maxAttempts)
    ensures db.docs[other].status == Queued ==> db.docs[id].status == Queued && db.docs[id].createdAt <= db.docs[other].createdAt
    ensures db.docs[id].status != Queued && db.docs[other].status != Queued ==> db.docs[id].createdAt <= db.docs[other].createdAt
  {
    hide Claimable;
  }

  // ---------------------------------------------------------------- how long a queued document waits

  /** The other queued documents that are no younger: those a claim may take before `id`. */
  function Ahead(docs: map<DocId, Document>, id: DocId): set<DocId>
    requires id in docs
  {
    set other | other in docs && other != id && docs[other].status == Queued && docs[other].createdAt <= docs[id].createdAt
  }

  /** Document `id` stays queued all along. */
  predicate Waits(w: World, run: seq<Timed>, id: DocId) {
    && id in Exec(w, run).db.docs && Exec(w, run).db.docs[id].status == Queued
    && (run != [] ==> Waits(w, run[..|run| - 1], id))
  }

  /** The step claims some other document by a query that `id` answers too. */
  predicate PassesOver(w: World, step: Step, id: DocId) {
    step.Claimed? && id in w.db.docs && QueryMatches(step.query, w.db.docs[id])
  }

  function Passes(w: World, run: seq<Timed>, id: DocId): nat {
    if run == [] then 0
    else
      var before, last := run[..|run| - 1], run[|run| - 1];
      Passes(w, before, id) + if PassesOver(Exec(w, before), last.step, id) then 1 else 0
  }

  function GiveBacks(run: seq<Timed>): nat {
    if run == [] then 0
    else
      var last := run[|run| - 1].step;
      GiveBacks(run[..|run| - 1]) + if last.Requeued? || last.Released? then 1 else 0
  }

  lemma StillQueuedKept(w: World, at: Time, step: Step, maxAttempts: int, id: DocId)
    requires AttemptsSound(w, maxAttempts) && Enabled(w, at, step, maxAttempts)
    requires id in w.db.docs && id in Next(w, at, step).db.docs
    requires w.db.docs[id].status == Queued && Next(w, at, step).db.docs[id].status == Queued
    ensures Next(w, at, step).db.docs[id].createdAt == w.db.docs[id].createdAt
    ensures step.Claimed? ==> step.id != id
  {
    RowAfterStep(w, at, step, maxAttempts, id);
    ClaimedIsTaken(w, at, step, maxAttempts);
    hide AttemptsSound, Enabled, Next, Rewrites;
  }

  lemma ClaimedIsTaken(w: World, at: Time, step: Step, maxAttempts: int)
    requires Enabled(w, at, step, maxAttempts)
    ensures step.Claimed? ==>
              && step.id in w.db.docs && IsNext(w.db, step.query, at, maxAttempts, step.id)
              && step.id in Next(w, at, step).db.docs && Next(w, at, step).db.docs[step.id].status == Processing
    ensures w.now <= at
  {
    if step.Claimed? {
      DocsAfterStep(w.db, at, step);
    }
    hide Attempted, Claimable;
  }

  /** A document that is queued after a step and was not before has been given back, or is new. */
  lemma NewlyQueued(w: World, at: Time, step: Step, maxAttempts: int, other: DocId)
    requires AttemptsSound(w, maxAttempts) && Enabled(w, at, step, maxAttempts)
    requires other in Next(w, at, step).db.docs && Next(w, at, step).db.docs[other].status == Queued
    ensures if other in w.db.docs then
              && Next(w, at, step).db.docs[other].createdAt == w.db.docs[other].createdAt
              && (w.db.docs[other].status == Queued || ((step.Requeued? || step.Released?) && step.id == other))
            else Next(w, at, step).db.docs[other].createdAt == at
  {
    if other in w.db.docs {
      RowAfterStep(w, at, step, maxAttempts, other);
      hide AttemptsSound, Enabled, Next, Rewrites;
    } else {
      OnlySubmissionAdds(w, at, step, maxAttempts, other);
    }
  }

  lemma OnlySubmissionAdds(w: World, at: Time, step: Step, maxAttempts: int, other: DocId)
    requires Enabled(w, at, step, maxAttempts) && other in Next(w, at, step).db.docs && other !in w.db.docs
    ensures Next(w, at, step).db.docs[other].createdAt == at
  {
    DocsAfterStep(w.db, at, step);
    hide Enabled;
    if step.Submitted? && Accepted(w, at, step) {
      SubmittedDocumentsWait(w.db, step.user, step.docs, at);
      hide CreateManyWithQuota;
    } else {
      hide Attempted, Rewrites, NewRow;
    }
  }

  lemma StepShrinksAhead(w: World, at: Time, step: Step, maxAttempts: int, id: DocId)
    requires AttemptsSound(w, maxAttempts) && Enabled(w, at, step, maxAttempts)
    requires id in w.db.docs && id in Next(w, at, step).db.docs && w.db.docs[id].createdAt < w.now
    requires w.db.docs[id].status == Queued && Next(w, at, step).db.docs[id].status == Queued
    ensures var ahead, ahead' := Ahead(w.db.docs, id), Ahead(Next(w, at, step).db.docs, id);
            && (PassesOver(w, step, id) ==> |ahead'| <= |ahead| - 1)
            && (step.Requeued? || step.Released? ==> |ahead'| <= |ahead| + 1)
            && (!step.Requeued? && !step.Released? ==> |ahead'| <= |ahead|)
  {
    var docs, docs' := w.db.docs, Next(w, at, step).db.docs;
    var ahead, ahead' := Ahead(docs, id), Ahead(docs', id);
    StillQueuedKept(w, at, step, maxAttempts, id);
    ClaimedIsTaken(w, at, step, maxAttempts);
    var back := if step.Requeued? || step.Released? then {step.id} else {};
    forall other | other in ahead'
      ensures other in ahead || other in back
      ensures step.Claimed? ==> other != step.id
    {
      NewlyQueued(w, at, step, maxAttempts, other);
    }
    hide Next, Enabled, AttemptsSound;
    if PassesOver(w, step, id) {
      PassedIsAhead(w.db, step.query, at, maxAttempts, step.id, id);
      SmallerSet(ahead', ahead - {step.id});
    } else {
      SmallerSet(ahead', ahead + back);
    }
  }

  lemma PassedIsAhead(db: Db, q: ClaimQuery, at: Time, maxAttempts: int, taken: DocId, id: DocId)
    requires IsNext(db, q, at, maxAttempts, taken) && taken != id
    requires id in db.docs && db.docs[id].status == Queued && QueryMatches(q, db.docs[id])
    ensures taken in Ahead(db.docs, id)
  {
    hide QueryMatches;
    assert Claimable(q, db.docs[id], at, maxAttempts);
  }

  lemma {:induction false} SmallerSet<T>(a: set<T>, b: set<T>)
    requires a <= b
    ensures |a| <= |b|
  {
    if a != {} {
      var x :| x in a;
      SmallerSet(a - {x}, b - {x});
    }
  }

  /**
   No queued document is overtaken without end: the claims it answers too and that take another document are no more
   than the documents ahead of it at first, and one more for each document handed back meanwhile.
   */
  lemma {:induction false} QueueWaitIsBounded(w: World, run: seq<Timed>, maxAttempts: int, id: DocId)
    requires AttemptsSound(w, maxAttempts) && ValidRun(w, run, maxAttempts) && Waits(w, run, id)
    requires id in w.db.docs && w.db.docs[id].createdAt < w.now
    ensures AttemptsSound(Exec(w, run), maxAttempts) && w.now <= Exec(w, run).now
    ensures Exec(w, run).db.docs[id].createdAt == w.db.docs[id].createdAt
    ensures Passes(w, run, id) + |Ahead(Exec(w, run).db.docs, id)| <= |Ahead(w.db.docs, id)| + GiveBacks(run)
  {
    hide Next, Enabled, AttemptsSound, Ahead, PassesOver;
    if run != [] {
      var before, last := run[..|run| - 1], run[|run| - 1];
      var w1 := Exec(w, before);
      QueueWaitIsBounded(w, before, maxAttempts, id);
      StepKeepsAttempts(w1, last.at, last.step, maxAttempts);
      assert w1.now <= last.at && Next(w1, last.at, last.step).now == last.at by { Clock(w1, last.at, last.step, maxAttempts); }
      StillQueuedKept(w1, last.at, last.step, maxAttempts, id);
      StepShrinksAhead(w1, last.at, last.step, maxAttempts, id);
      PassingIsClaiming(w1, last.step, id);
    }
  }

  lemma PassingIsClaiming(w: World, step: Step, id: DocId)
    ensures PassesOver(w, step, id) ==> step.Claimed?
  {
  }

  lemma Clock(w: World, at: Time, step: Step, maxAttempts: int)
    requires Enabled(w, at, step, maxAttempts)
    ensures w.now <= at && Next(w, at, step).now == at
  {
  }

  // ---------------------------------------------------------------- what the attempt updates write

  /** Everything of the row that no attempt update touches. */
  predicate SameInput(d: Document, later: Document) {
    && later.user == d.user && later.inputKey == d.inputKey && later.inputSize == d.inputSize && later.contentType == d.contentType
    && later.mode == d.mode && later.notification == d.notification && later.createdAt == d.createdAt
    && later.terminalEvent == d.terminalEvent && later.resultKey == d.resultKey && later.resultText == d.resultText
    && later.resultExpiresAt == d.resultExpiresAt
  }

  predicate OnlyRowChanges(before: Db, after: Db, id: DocId) {
    && after.accounts == before.accounts && after.reservations == before.reservations && after.events == before.events
    && id in before.docs && id in after.docs && after.docs - {id} == before.docs - {id}
  }

  lemma ClaimWrites(db: Db, id: DocId, attempt: AttemptId, until: Time, now: Time)
    requires id in db.docs
    ensures var after := ClaimDocument(db, id, attempt, until, now);
            && OnlyRowChanges(db, after, id) && SameInput(db.docs[id], after.docs[id])
            && var d := after.docs[id];
               && d.status == Processing && d.attempt == Some(attempt) && d.attemptCount == db.docs[id].attemptCount + 1
               && d.processingUntil == Some(until) && d.errorDetail == None && d.updatedAt == now
  {
  }

  /** Handing back needs the attempt in charge; requeueing keeps the count, releasing takes the attempt off it. */
  lemma HandBackWrites(db: Db, id: DocId, attempt: AttemptId, now: Time)
    ensures var requeued, released := RequeueAttempt(db, id, attempt, now), ReleaseAttempt(db, id, attempt, now);
            if id in db.docs && db.docs[id].status == Processing && db.docs[id].attempt == Some(attempt) then
              && requeued.error == None && released.error == None
              && OnlyRowChanges(db, requeued.db, id) && OnlyRowChanges(db, released.db, id)
              && var d, kept, given := db.docs[id], requeued.db.docs[id], released.db.docs[id];
                 && SameInput(d, kept) && SameInput(d, given)
                 && kept.status == given.status == Queued && kept.attempt == given.attempt == None
                 && kept.updatedAt == given.updatedAt == now
                 && kept.processingUntil == given.processingUntil == None && kept.errorDetail == given.errorDetail == d.errorDetail
                 && kept.attemptCount == d.attemptCount && given.attemptCount == (if d.attemptCount < 1 then 0 else d.attemptCount - 1)
            else requeued == released == Tx(db, Some(Conflict))
  {
  }

  /** Only the user's own queued document is cancelled; with its refund and notice, or not at all. */
  lemma CancelWrites(db: Db, id: DocId, user: UserId, event: Option<(EventId, Event)>, now: Time)
    ensures var tx := CancelWithRefund(db, id, user, event, now);
            && (tx.error.Some? ==> tx.db == db)
            && (!(id in db.docs && db.docs[id].user == user && db.docs[id].status == Queued) ==> tx.error == Some(Conflict))
            && (tx.error.None? ==>
                  && id in db.docs && db.docs[id].user == user && db.docs[id].status == Queued
                  && id in tx.db.docs && tx.db.docs - {id} == db.docs - {id} && tx.db.reservations == db.reservations
                  && var d := tx.db.docs[id];
                     && SameInput(db.docs[id], d) && d.status == Cancelled && d.processingUntil == None && d.updatedAt == now
                     && d.attempt == db.docs[id].attempt && d.attemptCount == db.docs[id].attemptCount)
  {
    CancelFrame(db, id, user, event, now);
    hide InsertOptionalEvent, Refund;
  }

  /** A claim is refused outright without an attempt name, a lease or an attempt limit, or for a worker without units or weights. */
  lemma ClaimArguments(q: ClaimQuery, attempt: AttemptId, lease: int, maxAttempts: int)
    ensures !ValidClaim(q, attempt, lease, maxAttempts)
            <==> || attempt == "" || lease <= 0 || maxAttempts <= 0
                 || (q.WithinCapacity? && (q.availableUnits <= 0 || q.imageJobUnits <= 0 || q.pdfJobUnits <= 0))
                 || (q.ForWorker? && (q.availableUnits <= 0 || q.imageJobUnits <= 0 || q.pdfJobUnits <= 0))
  {
  }

  // ---------------------------------------------------------------- concluding an attempt

  /** Some other document was concluded under this event. */
  predicate EventUsedElsewhere(db: Db, id: DocId, event: EventId) {
    exists other | other in db.docs && other != id :: db.docs[other].terminalEvent == Some(event)
  }

  /** The notice can be recorded, or there is one like it already, or there is none to record. */
  predicate Noticeable(db: Db, event: Option<(EventId, Event)>) {
    event.Some? ==>
      || (event.value.0 !in db.events && event.value.1.document in db.docs)
      || exists e | e in db.events ::
           db.events[e].document == event.value.1.document && db.events[e].eventType == event.value.1.eventType
           && db.events[e].channel == event.value.1.channel
  }

  /** An outcome is refused for what it is, for an attempt that is not in charge, or for a used event name, in this order. */
  lemma ConclusionAnswers(db: Db, f: Finalization, event: Option<(EventId, Event)>, now: Time)
    ensures var tx := FinalizeAttempt(db, f, event, now);
            && (tx.error == Some(BadParamInput) <==> f.status in {Queued, Processing, Cancelled})
            && (tx.error == Some(Conflict)
                <==> f.status in {Completed, Failed}
                     && !(f.id in db.docs && db.docs[f.id].status == Processing && db.docs[f.id].attempt == Some(f.attempt)))
            && (tx.error == None
                <==> f.status in {Completed, Failed}
                     && f.id in db.docs && db.docs[f.id].status == Processing && db.docs[f.id].attempt == Some(f.attempt)
                     && !EventUsedElsewhere(db, f.id, f.terminalEvent) && Noticeable(db, event))
            && tx.error in {None, Some(BadParamInput), Some(Conflict), Some(ConstraintViolation)}
            && (tx.error != None ==> tx.db == db)
  {
    hide FinalRow, Refund;
    assert TerminalEventTaken(db, f.id, f.terminalEvent) <==> EventUsedElsewhere(db, f.id, f.terminalEvent);
    if event.Some? && f.id in db.docs {
      assert AlreadyNotified(FinalizedDb(db, f, now), event.value.1) <==> AlreadyNotified(db, event.value.1);
      assert AlreadyNotified(db, event.value.1)
        <==> exists e | e in db.events ::
               db.events[e].document == event.value.1.document && db.events[e].eventType == event.value.1.eventType
               && db.events[e].channel == event.value.1.channel;
    }
    hide TerminalEventTaken, AlreadyNotified, EventUsedElsewhere;
  }

  /** No event concludes two documents. */
  predicate ConclusionsDistinct(docs: map<DocId, Document>) {
    forall a, b | a in docs && b in docs && a != b && docs[a].terminalEvent.Some? :: docs[a].terminalEvent != docs[b].terminalEvent
  }

  lemma StepKeepsConclusionsDistinct(w: World, at: Time, step: Step, maxAttempts: int)
    requires AttemptsSound(w, maxAttempts) && Enabled(w, at, step, maxAttempts) && ConclusionsDistinct(w.db.docs)
    ensures ConclusionsDistinct(Next(w, at, step).db.docs)
  {
    var docs, docs' := w.db.docs, Next(w, at, step).db.docs;
    forall id | id in docs'
      ensures docs'[id].terminalEvent.Some? ==>
                id in docs && (docs'[id].terminalEvent == docs[id].terminalEvent
                               || (step.Finalized? && step.f.id == id && docs'[id].terminalEvent == Some(step.f.terminalEvent)
                                   && !EventUsedElsewhere(w.db, id, step.f.terminalEvent)))
    {
      EventAfterStep(w, at, step, maxAttempts, id);
    }
    hide Next, Enabled, AttemptsSound;
  }

  lemma EventAfterStep(w: World, at: Time, step: Step, maxAttempts: int, id: DocId)
    requires AttemptsSound(w, maxAttempts) && Enabled(w, at, step, maxAttempts) && id in Next(w, at, step).db.docs
    ensures var d := Next(w, at, step).db.docs[id];
            d.terminalEvent.Some? ==>
              && id in w.db.docs
              && (d.terminalEvent == w.db.docs[id].terminalEvent
                  || (step.Finalized? && step.f.id == id && d.terminalEvent == Some(step.f.terminalEvent)
                      && !EventUsedElsewhere(w.db, id, step.f.terminalEvent)))
  {
    if id in w.db.docs {
      RowAfterStep(w, at, step, maxAttempts, id);
      if step.Finalized? {
        ConclusionAnswers(w.db, step.f, step.event, at);
      }
      hide AttemptsSound, Enabled, Next, Fenced, EventUsedElsewhere, FinalizeAttempt, Noticeable;
    } else {
      NewRowsHaveNoEvent(w, at, step, maxAttempts, id);
    }
  }

  lemma NewRowsHaveNoEvent(w: World, at: Time, step: Step, maxAttempts: int, id: DocId)
    requires Enabled(w, at, step, maxAttempts) && id in Next(w, at, step).db.docs && id !in w.db.docs
    ensures Next(w, at, step).db.docs[id].terminalEvent == None
  {
    DocsAfterStep(w.db, at, step);
    hide Enabled;
    if step.Submitted? && Accepted(w, at, step) {
      SubmittedDocumentsWait(w.db, step.user, step.docs, at);
      hide CreateManyWithQuota;
    } else {
      hide Attempted, Rewrites, NewRow;
    }
  }

  /** The unique index on conclusions: in every run no event has concluded two documents. */
  lemma {:induction false} ConclusionsDistinctInEveryRun(w: World, run: seq<Timed>, maxAttempts: int)
    requires Initial(w) && ValidRun(w, run, maxAttempts) && maxAttempts > 0
    ensures ConclusionsDistinct(Exec(w, run).db.docs)
  {
    hide Next, Enabled;
    if run != [] {
      hide ConclusionsDistinct, Initial;
      var before, last := run[..|run| - 1], run[|run| - 1];
      ConclusionsDistinctInEveryRun(w, before, maxAttempts);
      AttemptsSoundInEveryRun(w, before, maxAttempts);
      StepKeepsConclusionsDistinct(Exec(w, before), last.at, last.step, maxAttempts);
    }
  }

  // ---------------------------------------------------------------- when rows and links go away

  /** A deletion takes the row if it is finished and not younger than the cutoff, and no other row. */
  lemma DeletionTakes(db: Db, id: DocId, before: Time, other: DocId)
    requires other in db.docs
    ensures other in DeleteExpiredDocument(db, id, before).docs
            <==> !(other == id && db.docs[id].status in {Completed, Failed, Cancelled} && db.docs[id].updatedAt <= before)
    ensures other in DeleteExpiredDocument(db, id, before).docs ==> DeleteExpiredDocument(db, id, before).docs[other] == db.docs[other]
  {
    hide DropConsumed, Unlink, FreeStorage, DropEvents;
  }

  /** The run deletes the document, as one finished at `since` and old enough for the deletion. */
  predicate DeletedAsOld(run: seq<Timed>, id: DocId, since: Time) {
    exists i | 0 <= i < |run| :: run[i].step.DocumentDeleted? && run[i].step.id == id && since <= run[i].step.before
  }

  lemma DeletedAsOldStep(run: seq<Timed>, id: DocId, since: Time)
    requires run != []
    ensures var before, last := run[..|run| - 1], run[|run| - 1].step;
            DeletedAsOld(before, id, since) || (last.DocumentDeleted? && last.id == id && since <= last.before) ==> DeletedAsOld(run, id, since)
  {
    var k := |run| - 1;
    if DeletedAsOld(run[..k], id, since) {
      var i :| 0 <= i < k && run[..k][i].step.DocumentDeleted? && run[..k][i].step.id == id && since <= run[..k][i].step.before;
      assert run[i] == run[..k][i];
    } else if run[k].step.DocumentDeleted? && run[k].step.id == id && since <= run[k].step.before {
      assert DeletedAsOld(run, id, since);
    }
  }

  lemma FinishedStepKept(w: World, at: Time, step: Step, maxAttempts: int, id: DocId)
    requires AttemptsSound(w, maxAttempts) && Enabled(w, at, step, maxAttempts)
    requires id in w.db.docs && Terminal(w.db.docs[id].status)
    ensures if id in Next(w, at, step).db.docs then Next(w, at, step).db.docs[id].updatedAt == w.db.docs[id].updatedAt
            else step.DocumentDeleted? && step.id == id && w.db.docs[id].updatedAt <= step.before
  {
    if id in Next(w, at, step).db.docs {
      RowAfterStep(w, at, step, maxAttempts, id);
      DocsAfterStep(w.db, at, step);
      hide Attempted, AttemptsSound, Enabled;
    } else {
      OnlyDeletionRemoves(w, at, step, maxAttempts, id);
    }
  }

  lemma OnlyDeletionRemoves(w: World, at: Time, step: Step, maxAttempts: int, id: DocId)
    requires Enabled(w, at, step, maxAttempts) && id in w.db.docs && id !in Next(w, at, step).db.docs
    ensures step.DocumentDeleted? && step.id == id && Terminal(w.db.docs[id].status) && w.db.docs[id].updatedAt <= step.before
  {
    DocsAfterStep(w.db, at, step);
    hide Enabled;
    if step.Submitted? && Accepted(w, at, step) {
      SubmittedDocumentsWait(w.db, step.user, step.docs, at);
      hide CreateManyWithQuota, DocsNext;
    } else {
      hide Attempted, Rewrites, NewRow;
    }
  }

  /** A finished document keeps its time of conclusion and stays, until a deletion whose cutoff is no earlier than it. */
  lemma {:induction false} FinishedLeavesWhenOld(w: World, run: seq<Timed>, maxAttempts: int, id: DocId)
    requires AttemptsSound(w, maxAttempts) && ValidRun(w, run, maxAttempts)
    requires id in w.db.docs && Terminal(w.db.docs[id].status)
    ensures if id in Exec(w, run).db.docs then Exec(w, run).db.docs[id].updatedAt == w.db.docs[id].updatedAt
            else DeletedAsOld(run, id, w.db.docs[id].updatedAt)
  {
    hide Next, Enabled, AttemptsSound, DeletedAsOld;
    if run != [] {
      var before, last := run[..|run| - 1], run[|run| - 1];
      FinishedLeavesWhenOld(w, before, maxAttempts, id);
      TerminalForever(w, before, maxAttempts, id);
      DeletedAsOldStep(run, id, w.db.docs[id].updatedAt);
      if id in Exec(w, before).db.docs {
        FinishedStepKept(Exec(w, before), last.at, last.step, maxAttempts, id);
      } else {
        StepKeepsDeleted(Exec(w, before), last.at, last.step, maxAttempts, id);
      }
    }
  }

  /** The foreign key of the reservations: a link leads to a document that exists, and only a consumed reservation has one. */
  predicate LinksResolve(db: Db) {
    forall k | k in db.reservations && db.reservations[k].documentId.Some? ::
      db.reservations[k].state == Consumed && db.reservations[k].documentId.value in db.docs
  }

  lemma StepKeepsLinks(w: World, at: Time, step: Step, maxAttempts: int)
    requires Enabled(w, at, step, maxAttempts) && LinksResolve(w.db)
    ensures LinksResolve(Next(w, at, step).db)
  {
    ReservationsAfterStep(w.db, at, step);
    var after := Next(w, at, step).db;
    if step.Submitted? && Accepted(w, at, step) {
      SubmissionKeepsLinks(w.db, step.user, step.docs, at);
      hide Enabled;
    } else {
      forall id | id in w.db.docs && !step.DocumentDeleted?
        ensures id in after.docs
      {
        if id !in after.docs {
          OnlyDeletionRemoves(w, at, step, maxAttempts, id);
        }
      }
      if step.DocumentDeleted? {
        DocsAfterStep(w.db, at, step);
      }
      hide Attempted, Enabled, Next, DocsNext, Deletable, Releasable;
      assert after.reservations == ReservationsNext(w.db, at, step) by { ReservationsOf(w, at, step); }
    }
  }

  lemma ReservationsOf(w: World, at: Time, step: Step)
    ensures Next(w, at, step).db.reservations == ReservationsNext(w.db, at, step)
  {
    ReservationsAfterStep(w.db, at, step);
    hide Attempted, ReservationsNext;
  }

  lemma SubmissionKeepsLinks(db: Db, user: UserId, docs: seq<NewDocument>, now: Time)
    requires LinksResolve(db) && CreateManyWithQuota(db, user, docs, now).error.None?
    ensures LinksResolve(CreateManyWithQuota(db, user, docs, now).db)
  {
    SubmissionConsumes(db, user, docs, now);
    SubmittedDocumentsWait(db, user, docs, now);
    hide CreateManyWithQuota, OwnUpload;
  }

  lemma {:induction false} LinksResolveInEveryRun(w: World, run: seq<Timed>, maxAttempts: int)
    requires Initial(w) && ValidRun(w, run, maxAttempts)
    ensures LinksResolve(Exec(w, run).db)
  {
    hide Next, Enabled;
    if run != [] {
      hide LinksResolve, Initial;
      var before, last := run[..|run| - 1], run[|run| - 1];
      LinksResolveInEveryRun(w, before, maxAttempts);
      StepKeepsLinks(Exec(w, before), last.at, last.step, maxAttempts);
    }
  }
}
