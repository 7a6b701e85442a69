/**
 One turn of the scheduler over the real repository and hub objects: who owns the reservation on every way
 out, and what each outcome leaves in the document table. Answers of the outside world are parameters.
 */
module Scheduling {
  import opened Wrappers
  import opened Tables
  import opened Repository
  import opened Hub
  import NativeWorker
  import opened Progress

  datatype AckAnswer = AckAccepted | AckRefused | AckMissing

  /** What the outside answers during one turn: object storage, the route table, the socket, the Mac. */
  datatype Answers = Answers(
    now: Time, attempt: AttemptId, presigned: bool, routeStored: bool, written: bool, ack: AckAnswer,
    failureEvent: EventId, notice: Option<(EventId, Event)>)

  datatype Outcome = NoWorker | ClaimRejected | NothingQueued | Retried | Busy | RouteRefused | AckUnknown | Dispatched

  const PRESIGN_DETAIL := "input storage remained unavailable after retry"
  const EXHAUSTED_DETAIL := "processing lease expired after maximum attempts"

  function Failure(id: DocId, attempt: AttemptId, event: EventId, detail: string): Finalization {
    Finalization(id, attempt, event, Failed, None, None, Some(detail), None, true)
  }

  function Kind(d: Document): string { if d.mode == "scan" then "scan" else "ocr" }

  /** The claim the turn makes for the worker it reserved. */
  ghost predicate ClaimFor(db: Db, h: HubState, n: NodeId, a: Answers, maxAttempts: int, id: DocId)
    requires n in h.sessions
  {
    var c := Offered(h, n, a.now);
    var caps := h.sessions[n].capabilities;
    IsNext(db, ForWorker(c.availableUnits, c.imageJobUnits, c.pdfJobUnits, "ocr" in caps, "scan" in caps), a.now, maxAttempts, id)
  }

  function RetryDb(db: Db, id: DocId, a: Answers, maxAttempts: int): Db
    requires id in db.docs
  {
    if db.docs[id].attemptCount >= maxAttempts
    then FinalizeAttempt(db, Failure(id, a.attempt, a.failureEvent, PRESIGN_DETAIL), a.notice, a.now).db
    else RequeueAttempt(db, id, a.attempt, a.now).db
  }

  /** The document table after a turn that claimed `id`. */
  function AfterClaim(db: Db, id: DocId, a: Answers, outcome: Outcome, lease: int, maxAttempts: int): Db
    requires id in db.docs
  {
    var claimed := ClaimDocument(db, id, a.attempt, a.now + lease, a.now);
    match outcome
    case Retried => RetryDb(claimed, id, a, maxAttempts)
    case Busy => ReleaseAttempt(claimed, id, a.attempt, a.now).db
    case _ => claimed
  }

  predicate Claiming(outcome: Outcome) { outcome in {Retried, Busy, RouteRefused, AckUnknown, Dispatched} }

  /** What a worker reports a document of this type to weigh. */
  function WeightOn(c: NativeWorker.Capacity, contentType: string): int {
    if contentType == "application/pdf" then c.pdfJobUnits else c.imageJobUnits
  }

  /** Sending was begun and the Mac has not refused: it may have the request, now or later. */
  predicate MayHaveLeft(ready: bool, a: Answers) { ready && a.routeStored && (!a.written || a.ack != AckRefused) }

  /** Which outcome the answers determine once the hub's precheck has said `ready`. */
  predicate DispatchFollows(outcome: Outcome, ready: bool, a: Answers) {
    && (outcome in {AckUnknown, Dispatched} <==> MayHaveLeft(ready, a))
    && (outcome == Dispatched <==> ready && a.routeStored && a.written && a.ack == AckAccepted)
    && (outcome == RouteRefused <==> ready && !a.routeStored)
    && (outcome == Busy <==> !ready || (a.routeStored && a.written && a.ack == AckRefused))
  }

  /** The same for a turn that claimed a document: without a presigned URL nothing is dispatched. */
  predicate FollowsAnswers(outcome: Outcome, ready: bool, a: Answers) {
    if a.presigned then DispatchFollows(outcome, ready, a) else outcome == Retried
  }

  lemma EligibleHasRoom(h: HubState, n: NodeId, now: Time)
    requires Eligible(h, n, now)
    ensures var c := Offered(h, n, now);
            c.effectiveLimit > 0 && c.available > 0 && c.state != "paused" && c.state != "busy"
  {
    hide Unexpired, HeldUnits;
  }

  lemma TableCoversHeld(h: HubState)
    requires HubSound(h)
    ensures forall n, r | n in h.sessions && r in h.sessions[n].held :: r in h.table
  {
  }

  lemma BestIsKnown(h: HubState, n: NodeId, now: Time)
    requires Best(h, n, now)
    ensures n in h.sessions && Eligible(h, n, now)
  {
  }

  /** A new reservation is held by its worker alone, and by nobody if there was no worker. */
  lemma ReservedIsHeld(h: HubState, now: Time)
    requires HubSound(h)
    ensures forall n | n in AfterPrune(h, now).sessions :: h.nextId !in AfterPrune(h, now).sessions[n].held
    ensures forall n | n in h.sessions ::
              var h' := AfterReserve(h, n, now);
              && h.nextId in h'.table && h'.table[h.nextId].node == n && n in h'.sessions && h.nextId in h'.sessions[n].held
              && h'.sessions[n].capabilities == h.sessions[n].capabilities
  {
    hide PrunedSession, NativeWorker.ValidCapacity;
    forall n | n in h.sessions
      ensures h.nextId !in PrunedSession(h, n, now).held
    {
      assert h.nextId in h.sessions[n].held ==> h.nextId in h.table;
    }
  }

  class Scheduler {
    const store: DocumentStore
    const hub: WorkerHub
    const lease: int
    const maxAttempts: int

    constructor (store: DocumentStore, hub: WorkerHub, lease: int, maxAttempts: int)
      ensures this.store == store && this.hub == hub && this.lease == lease && this.maxAttempts == maxAttempts
    {
      this.store, this.hub, this.lease, this.maxAttempts := store, hub, lease, maxAttempts;
    }

    method FailDocument(id: DocId, attempt: AttemptId, event: EventId, notice: Option<(EventId, Event)>, detail: string, now: Time)
      returns (failed: bool)
      modifies store
      ensures Tables.FinalizeAttempt(old(store.Contents()), Failure(id, attempt, event, detail), notice, now).db == store.Contents()
      ensures failed <==> old(Tables.FinalizeAttempt(store.Contents(), Failure(id, attempt, event, detail), notice, now)).error.None?
    {
      var error := store.FinalizeAttempt(Failure(id, attempt, event, detail), notice, now);
      failed := error.None?;
    }

    method RetryOrFail(id: DocId, a: Answers)
      requires id in store.docs
      modifies store
      ensures store.Contents() == old(RetryDb(store.Contents(), id, a, maxAttempts))
    {
      if store.docs[id].attemptCount >= maxAttempts {
        var _ := FailDocument(id, a.attempt, a.failureEvent, a.notice, PRESIGN_DETAIL, a.now);
      } else {
        var _ := store.RequeueAttempt(id, a.attempt, a.now);
      }
    }

    /**
     The dispatching half of a turn. Exactly when the request may have left does the reservation stay, under the
     claimed attempt and for a full lease; on every other way out it is gone. The document goes back to the queue
     only if dispatch was refused, by the hub's precheck or by the Mac.
     */
    method PollAndDispatch(a: Answers) returns (outcome: Outcome, node: NodeId, id: DocId)
      requires HubSound(hub.State()) && a.attempt != "" && lease > 0 && maxAttempts > 0 && hub.lease == lease
      modifies store, hub
      ensures outcome == NoWorker <==> forall n | n in old(hub.sessions) :: !Eligible(old(hub.State()), n, a.now)
      ensures outcome != NoWorker ==> Best(old(hub.State()), node, a.now)
      ensures !Claiming(outcome) ==> store.Contents() == old(store.Contents())
      ensures Claiming(outcome) ==>
                && old(ClaimFor(store.Contents(), hub.State(), node, a, maxAttempts, id))
                && store.Contents() == old(AfterClaim(store.Contents(), id, a, outcome, lease, maxAttempts))
      ensures outcome in {AckUnknown, Dispatched} ==>
                var r := old(hub.nextId);
                && r in hub.table && hub.table[r].node == node && hub.table[r].attempt == a.attempt && hub.table[r].until == a.now + lease
                && node in hub.sessions && r in hub.sessions[node].held
                && hub.table[r].units == WeightOn(hub.sessions[node].capacity, old(store.docs)[id].contentType)
      ensures outcome !in {AckUnknown, Dispatched} ==> forall n | n in hub.sessions :: old(hub.nextId) !in hub.sessions[n].held
      ensures Claiming(outcome) ==>
                FollowsAnswers(outcome, old(Dispatchable(AfterReserve(hub.State(), node, a.now), hub.nextId, Kind(store.docs[id]))), a)
      ensures outcome == NothingQueued ==>
                var c, caps := old(Offered(hub.State(), node, a.now)), old(hub.sessions)[node].capabilities;
                forall other | other in store.docs ::
                  !Claimable(ForWorker(c.availableUnits, c.imageJobUnits, c.pdfJobUnits, "ocr" in caps, "scan" in caps),
                             store.docs[other], a.now, maxAttempts)
    {
      hide Eligible, Best, Offered, AfterPrune, AfterReserve, IsNext, AfterClaim, Dispatchable, HubSound;
      node, id := "", "";
      ghost var h := hub.State();
      TableCoversHeld(h);
      ReservedIsHeld(h, a.now);
      var best, r, report := hub.Reserve(a.now);
      if best.None? {
        return NoWorker, node, id;
      }
      node := best.value;
      BestIsKnown(h, node, a.now);
      EligibleHasRoom(h, node, a.now);
      ReserveKeepsHubSound(h, node, a.now);
      if report.effectiveLimit <= 0 || report.available <= 0 || report.state == "paused" || report.state == "busy" {
        assert false; // a worker the hub offers has room
      }
      outcome, id := ClaimAndDispatch(r, node, report, a);
    }

    method ClaimAndDispatch(r: ResId, node: NodeId, report: NativeWorker.Capacity, a: Answers) returns (outcome: Outcome, id: DocId)
      requires HubSound(hub.State()) && r in hub.table && hub.table[r].node == node && hub.lease == lease && node in hub.sessions
      requires r in hub.sessions[node].held && a.attempt != "" && lease > 0 && maxAttempts > 0
      modifies store, hub
      ensures outcome in {ClaimRejected, NothingQueued, Retried, Busy, RouteRefused, AckUnknown, Dispatched}
      ensures !Claiming(outcome) ==> store.Contents() == old(store.Contents())
      ensures Claiming(outcome) ==>
                && old(IsNext(store.Contents(),
                              ForWorker(report.availableUnits, report.imageJobUnits, report.pdfJobUnits,
                                        "ocr" in hub.sessions[node].capabilities, "scan" in hub.sessions[node].capabilities),
                              a.now, maxAttempts, id))
                && id in old(store.docs)
                && store.Contents() == old(AfterClaim(store.Contents(), id, a, outcome, lease, maxAttempts))
      ensures outcome in {AckUnknown, Dispatched} ==>
                && r in hub.table && hub.table[r].node == node && hub.table[r].attempt == a.attempt && hub.table[r].until == a.now + lease
                && node in hub.sessions && r in hub.sessions[node].held
                && hub.table[r].units == WeightOn(hub.sessions[node].capacity, old(store.docs)[id].contentType)
      ensures outcome !in {AckUnknown, Dispatched} ==> forall n | n in hub.sessions :: r !in hub.sessions[n].held
      ensures Claiming(outcome) ==> FollowsAnswers(outcome, old(Dispatchable(hub.State(), r, Kind(store.docs[id]))), a)
      ensures outcome == NothingQueued ==>
                forall other | other in store.docs ::
                  !Claimable(ForWorker(report.availableUnits, report.imageJobUnits, report.pdfJobUnits,
                                       "ocr" in old(hub.sessions[node].capabilities), "scan" in old(hub.sessions[node].capabilities)),
                             store.docs[other], a.now, maxAttempts)
    {
      hide HubSound, Dispatchable, RetryDb;
      var capabilities := hub.sessions[node].capabilities;
      var query := ForWorker(report.availableUnits, report.imageJobUnits, report.pdfJobUnits, "ocr" in capabilities, "scan" in capabilities);
      id := "";
      var claim := store.ClaimNext(query, a.attempt, lease, maxAttempts, a.now);
      if claim.Err? {
        hub.Release(r);
        return ClaimRejected, id;
      }
      if claim.value.None? {
        hub.Release(r);
        return NothingQueued, id;
      }
      id := claim.value.value;
      if !a.presigned {
        RetryOrFail(id, a);
        hub.Release(r);
        return Retried, id;
      }
      assert Kind(store.docs[id]) == Kind(old(store.docs)[id]);
      outcome := Dispatch(r, node, id, a);
    }

    /** From the hub's precheck to the acknowledgement. */
    method Dispatch(r: ResId, node: NodeId, id: DocId, a: Answers) returns (outcome: Outcome)
      requires HubSound(hub.State()) && r in hub.table && hub.table[r].node == node && hub.lease == lease && node in hub.sessions
      requires r in hub.sessions[node].held && id in store.docs
      modifies store, hub
      ensures outcome in {Busy, RouteRefused, AckUnknown, Dispatched}
      ensures store.Contents() == if outcome == Busy then old(ReleaseAttempt(store.Contents(), id, a.attempt, a.now)).db else old(store.Contents())
      ensures outcome in {AckUnknown, Dispatched} ==>
                && r in hub.table && hub.table[r].node == node && hub.table[r].attempt == a.attempt && hub.table[r].until == a.now + lease
                && node in hub.sessions && r in hub.sessions[node].held
                && hub.table[r].units == WeightOn(hub.sessions[node].capacity, old(store.docs)[id].contentType)
      ensures outcome in {Busy, RouteRefused} ==> forall n | n in hub.sessions :: r !in hub.sessions[n].held
      ensures DispatchFollows(outcome, old(Dispatchable(hub.State(), r, Kind(store.docs[id]))), a)
    {
      var d := store.docs[id];
      var ready := hub.Dispatch(r, a.attempt, if d.mode == "scan" then "scan" else "ocr", d.contentType, a.now);
      if !ready {
        var _ := store.ReleaseAttempt(id, a.attempt, a.now);
        return Busy;
      }
      if !a.routeStored {
        hub.Release(r);
        return RouteRefused;
      }
      if !a.written {
        return AckUnknown;
      }
      match a.ack
      case AckAccepted => return Dispatched;
      case AckMissing => return AckUnknown;
      case AckRefused =>
        hub.Release(r);
        var _ := store.ReleaseAttempt(id, a.attempt, a.now);
        return Busy;
    }

    /** The first thing every turn does: fail what no attempt is left for, refunding the user. */
    method FailExhaustedAttempts(now: Time, events: seq<EventId>, notices: seq<Option<(EventId, Event)>>) returns (ids: seq<DocId>)
      requires |events| == |notices| >= 100
      modifies store
      ensures |ids| <= 100
      ensures store.Contents() == old(FailAll(store.Contents(), ids, events, notices, now))
      ensures forall i | 0 <= i < |ids| :: ids[i] in old(store.docs) && Exhausted(old(store.docs)[ids[i]], now, maxAttempts)
      ensures forall i, j | 0 <= i < j < |ids| :: ids[i] != ids[j] && LeaseFirst(old(store.docs)[ids[i]], old(store.docs)[ids[j]])
      ensures |ids| < 100 ==> forall d | d in old(store.docs) && Exhausted(old(store.docs)[d], now, maxAttempts) :: d in ids
    {
      hide Tables.FinalizeAttempt;
      ids := store.ListExhaustedAttempts(now, maxAttempts, 100);
      ghost var db := store.Contents();
      for i := 0 to |ids|
        invariant store.Contents() == FailAll(db, ids[..i], events, notices, now)
      {
        assert ids[..i + 1][..i] == ids[..i];
        if ids[i] in store.docs && store.docs[ids[i]].attempt.Some? {
          var _ := FailDocument(ids[i], store.docs[ids[i]].attempt.value, events[i], notices[i], EXHAUSTED_DETAIL, now);
        }
      }
      assert ids[..|ids|] == ids;
    }
  }

  function FailOne(db: Db, id: DocId, event: EventId, notice: Option<(EventId, Event)>, now: Time): Db {
    if id in db.docs && db.docs[id].attempt.Some?
    then FinalizeAttempt(db, Failure(id, db.docs[id].attempt.value, event, EXHAUSTED_DETAIL), notice, now).db else db
  }

  function FailAll(db: Db, ids: seq<DocId>, events: seq<EventId>, notices: seq<Option<(EventId, Event)>>, now: Time): Db
    requires |ids| <= |events| == |notices|
  {
    if ids == [] then db
    else var k := |ids| - 1; FailOne(FailAll(db, ids[..k], events, notices, now), ids[k], events[k], notices[k], now)
  }

  // ---------------------------------------------------------------- what the outcomes mean

  /**
   A turn asks for what its worker can do: unless the worker changes between the claim and the dispatch, the hub's
   precheck passes for whatever document was claimed.
   */
  lemma ClaimedCanBeDispatched(db: Db, h: HubState, n: NodeId, a: Answers, maxAttempts: int, id: DocId)
    requires HubSound(h) && Best(h, n, a.now) && n in h.sessions && ClaimFor(db, h, n, a, maxAttempts, id)
    ensures id in db.docs
    ensures Dispatchable(AfterReserve(h, n, a.now), h.nextId, if db.docs[id].mode == "scan" then "scan" else "ocr")
    ensures Dispatchable(AfterReserve(h, n, a.now), h.nextId, Kind(db.docs[id]))
  {
    EligibleExactly(h, n, a.now);
    ReservationMade(h, n, a.now);
    ReservedIsHeld(h, a.now);
    hide Offered, Unexpired, HubSound, Eligible, ClaimedBefore, JobUnits;
    assert AfterReserve(h, n, a.now).sessions[n].paused == h.sessions[n].paused
        && AfterReserve(h, n, a.now).sessions[n].generation == h.sessions[n].generation by { hide *; SessionKept(h, n, a.now); }
  }

  lemma SessionKept(h: HubState, n: NodeId, now: Time)
    requires n in h.sessions
    ensures n in AfterReserve(h, n, now).sessions
    ensures AfterReserve(h, n, now).sessions[n].paused == h.sessions[n].paused
    ensures AfterReserve(h, n, now).sessions[n].generation == h.sessions[n].generation
  {
    hide Unexpired;
  }

  /** A refused dispatch costs nothing: a document taken from the queue is back as every claim query saw it before. */
  lemma RefusedDispatchCostsNothing(db: Db, id: DocId, a: Answers, lease: int, maxAttempts: int)
    requires id in db.docs && db.docs[id].status == Queued && db.docs[id].processingUntil.None? && db.docs[id].attemptCount >= 0
    ensures var db' := AfterClaim(db, id, a, Busy, lease, maxAttempts);
            && db'.docs.Keys == db.docs.Keys && db'.accounts == db.accounts
            && forall other | other in db.docs :: ViewOf(db'.docs[other]) == ViewOf(db.docs[other])
  {
  }

  /** So after a refusal every claim query has the same next document, at every time, as if the turn had not happened. */
  lemma RefusedTurnLeavesQueue(db: Db, id: DocId, a: Answers, lease: int, maxAttempts: int, q: ClaimQuery, at: Time, next: DocId)
    requires id in db.docs && db.docs[id].status == Queued && db.docs[id].processingUntil.None? && db.docs[id].attemptCount >= 0
    ensures IsNext(db, q, at, maxAttempts, next) <==> IsNext(AfterClaim(db, id, a, Busy, lease, maxAttempts), q, at, maxAttempts, next)
  {
    RefusedDispatchCostsNothing(db, id, a, lease, maxAttempts);
    hide AfterClaim, IsNext, ViewOf;
    ViewsDecideClaims(db, AfterClaim(db, id, a, Busy, lease, maxAttempts), q, at, maxAttempts, next);
  }

  /** A notice for one of the rows, under an identifier no event has yet. */
  predicate FreshNotice(db: Db, notice: Option<(EventId, Event)>, id: DocId) {
    notice.Some? ==> notice.value.0 !in db.events && notice.value.1.document == id
  }

  predicate Recorded(db: Db, notice: Option<(EventId, Event)>) { notice.Some? ==> AlreadyNotified(db, notice.value.1) }

  /** A failure under an unused event name goes through: the row is failed, its user refunded, the notice on record. */
  lemma FailureSucceeds(db: Db, id: DocId, attempt: AttemptId, event: EventId, notice: Option<(EventId, Event)>, detail: string, now: Time)
    requires Fenced(db, id, attempt) && !TerminalEventTaken(db, id, event) && FreshNotice(db, notice, id)
    ensures var f := Failure(id, attempt, event, detail);
            var tx := FinalizeAttempt(db, f, notice, now);
            && tx.error.None?
            && tx.db.docs == db.docs[id := FinalRow(db.docs[id], f, now)]
            && tx.db.accounts == Refund(db.accounts, db.docs[id].user)
            && tx.db.reservations == db.reservations
            && Recorded(tx.db, notice)
            && (forall e | e in db.events :: e in tx.db.events && tx.db.events[e] == db.events[e])
            && (forall e | e in tx.db.events :: e in db.events || (notice.Some? && e == notice.value.0))
  {
    hide FinalRow, TerminalEventTaken, Refund;
    var finalized := FinalizedDb(db, Failure(id, attempt, event, detail), now);
    assert notice.Some? && !AlreadyNotified(finalized, notice.value.1) ==>
        InsertEvent(finalized, notice.value.0, notice.value.1).db.events[notice.value.0] == notice.value.1;
  }

  /** A storage failure costs the attempt: requeued with the count kept while attempts are left, failed and refunded after the last. */
  lemma StorageFailureUsesAttempt(db: Db, id: DocId, a: Answers, lease: int, maxAttempts: int)
    requires id in db.docs && FreshNotice(db, a.notice, id) && !TerminalEventTaken(db, id, a.failureEvent)
    ensures var db' := AfterClaim(db, id, a, Retried, lease, maxAttempts);
            && id in db'.docs && db'.docs[id].attemptCount == db.docs[id].attemptCount + 1
            && (db'.docs[id].status == Queued <==> db.docs[id].attemptCount + 1 < maxAttempts)
            && (db'.docs[id].status == Queued ==> db'.accounts == db.accounts && db'.events == db.events)
            && (db'.docs[id].status != Queued ==>
                  && db'.docs[id].status == Failed && db'.docs[id].terminalEvent == Some(a.failureEvent)
                  && db'.docs[id].errorDetail == Some("input storage remained unavailable after retry")
                  && db'.accounts == Refund(db.accounts, db.docs[id].user) && Recorded(db', a.notice))
  {
    hide RetryDb, TerminalEventTaken, Refund, Recorded;
    var claimed := ClaimDocument(db, id, a.attempt, a.now + lease, a.now);
    ClaimLeavesEvents(db, claimed, id, a.failureEvent);
    if db.docs[id].attemptCount + 1 >= maxAttempts {
      RetryFails(claimed, id, a, maxAttempts);
    } else {
      RetryRequeues(claimed, id, a, maxAttempts);
    }
  }

  lemma RetryFails(db: Db, id: DocId, a: Answers, maxAttempts: int)
    requires Fenced(db, id, a.attempt) && db.docs[id].attemptCount >= maxAttempts
    requires !TerminalEventTaken(db, id, a.failureEvent) && FreshNotice(db, a.notice, id)
    ensures var db' := RetryDb(db, id, a, maxAttempts);
            && id in db'.docs && db'.docs[id].status == Failed && db'.docs[id].terminalEvent == Some(a.failureEvent)
            && db'.docs[id].errorDetail == Some("input storage remained unavailable after retry")
            && db'.docs[id].attemptCount == db.docs[id].attemptCount
            && db'.accounts == Refund(db.accounts, db.docs[id].user) && Recorded(db', a.notice)
  {
    hide TerminalEventTaken, Refund, Recorded, FinalizeAttempt, FreshNotice;
    FailureSucceeds(db, id, a.attempt, a.failureEvent, a.notice, PRESIGN_DETAIL, a.now);
  }

  lemma RetryRequeues(db: Db, id: DocId, a: Answers, maxAttempts: int)
    requires Fenced(db, id, a.attempt) && db.docs[id].attemptCount < maxAttempts
    ensures var db' := RetryDb(db, id, a, maxAttempts);
            && id in db'.docs && db'.docs[id].status == Queued && db'.docs[id].attemptCount == db.docs[id].attemptCount
            && db'.accounts == db.accounts && db'.events == db.events
  {
    hide FinalizeAttempt;
  }

  lemma ClaimLeavesEvents(db: Db, claimed: Db, id: DocId, event: EventId)
    requires !TerminalEventTaken(db, id, event) && id in db.docs && id in claimed.docs
    requires claimed.docs == db.docs[id := claimed.docs[id]]
    ensures !TerminalEventTaken(claimed, id, event)
  {
    forall other | other in claimed.docs && other != id
      ensures claimed.docs[other].terminalEvent != Some(event)
    {
      assert claimed.docs[other] == db.docs[other];
    }
  }

  // ---------------------------------------------------------------- the pass over exhausted attempts

  /** How many of the listed documents belong to the user. */
  function Owned(docs: map<DocId, Document>, ids: seq<DocId>, user: UserId): nat {
    if ids == [] then 0
    else
      var last := ids[|ids| - 1];
      Owned(docs, ids[..|ids| - 1], user) + if last in docs && docs[last].user == user then 1 else 0
  }

  /** Every user's document counter went down by the number of their listed documents, and never below zero. */
  predicate RefundsEach(before: Db, after: Db, ids: seq<DocId>) {
    && after.accounts.Keys == before.accounts.Keys
    && forall u | u in before.accounts ::
         var n := Owned(before.docs, ids, u);
         after.accounts[u] == before.accounts[u].(docUsed := if n == 0 then before.accounts[u].docUsed else Clamped(before.accounts[u].docUsed - n))
  }

  /** The pass's inputs: exhausted documents without repetition, and event names and notices nobody uses yet. */
  ghost predicate PassInputs(db: Db, ids: seq<DocId>, events: seq<EventId>, notices: seq<Option<(EventId, Event)>>, now: Time, maxAttempts: int) {
    && |ids| <= |events| == |notices|
    && (forall i | 0 <= i < |ids| :: ids[i] in db.docs && db.docs[ids[i]].attempt.Some? && Exhausted(db.docs[ids[i]], now, maxAttempts))
    && (forall i, j | 0 <= i < j < |ids| :: ids[i] != ids[j])
    && (forall i, j | 0 <= i < j < |events| :: events[i] != events[j])
    && (forall i, id | 0 <= i < |events| && id in db.docs :: db.docs[id].terminalEvent != Some(events[i]))
    && (forall i | 0 <= i < |ids| :: FreshNotice(db, notices[i], ids[i]))
    && (forall i, j | 0 <= i < j < |ids| && notices[i].Some? && notices[j].Some? :: notices[i].value.0 != notices[j].value.0)
  }

  /** What the pass has done to the documents. */
  predicate FailedAll(before: Db, after: Db, ids: seq<DocId>, events: seq<EventId>)
    requires |ids| <= |events|
  {
    && after.docs.Keys == before.docs.Keys
    && (forall id | id in before.docs && id !in ids :: after.docs[id] == before.docs[id])
    && (forall i | 0 <= i < |ids| ::
          && ids[i] in after.docs && after.docs[ids[i]].status == Failed && after.docs[ids[i]].terminalEvent == Some(events[i])
          && after.docs[ids[i]].errorDetail == Some("processing lease expired after maximum attempts"))
  }

  /** What the pass has done to the events: the notices are on record, and no other event is new. */
  predicate NoticesRecorded(before: Db, after: Db, ids: seq<DocId>, notices: seq<Option<(EventId, Event)>>)
    requires |ids| <= |notices|
  {
    && (forall i | 0 <= i < |ids| :: Recorded(after, notices[i]))
    && (forall e | e in after.events :: e in before.events || exists i | 0 <= i < |ids| :: notices[i].Some? && notices[i].value.0 == e)
  }

  /** The pass fails every listed document under its own event, refunds its user once for each, and records the notices. */
  lemma {:induction false} FailAllFinishes(db: Db, ids: seq<DocId>, events: seq<EventId>, notices: seq<Option<(EventId, Event)>>,
                                           now: Time, maxAttempts: int)
    requires PassInputs(db, ids, events, notices, now, maxAttempts)
    ensures var db' := FailAll(db, ids, events, notices, now);
            FailedAll(db, db', ids, events) && RefundsEach(db, db', ids) && NoticesRecorded(db, db', ids, notices)
  {
    hide FailOne, RefundsEach, FailedAll, NoticesRecorded;
    if ids == [] {
      NothingListed(db, events, notices);
    } else {
      var k := |ids| - 1;
      ShorterPass(db, ids, events, notices, now, maxAttempts);
      FailAllFinishes(db, ids[..k], events, notices, now, maxAttempts);
      var db1 := FailAll(db, ids[..k], events, notices, now);
      NextFailureSucceeds(db, db1, ids, events, notices, now, maxAttempts);
      var db2 := FailOne(db1, ids[k], events[k], notices[k], now);
      MoreFailed(db, db1, db2, ids, events, db2.docs[ids[k]]);
      OneMoreRefund(db, db1, db2, ids);
      OneMoreNotice(db, db1, db2, ids, notices);
    }
  }

  lemma NothingListed(db: Db, events: seq<EventId>, notices: seq<Option<(EventId, Event)>>)
    ensures FailedAll(db, db, [], events) && RefundsEach(db, db, []) && NoticesRecorded(db, db, [], notices)
  {
  }

  lemma ShorterPass(db: Db, ids: seq<DocId>, events: seq<EventId>, notices: seq<Option<(EventId, Event)>>, now: Time, maxAttempts: int)
    requires ids != [] && PassInputs(db, ids, events, notices, now, maxAttempts)
    ensures PassInputs(db, ids[..|ids| - 1], events, notices, now, maxAttempts)
  {
    hide Exhausted, FreshNotice;
    var before := ids[..|ids| - 1];
    assert forall i | 0 <= i < |before| :: before[i] == ids[i];
  }

  lemma NextFailureSucceeds(db: Db, db1: Db, ids: seq<DocId>, events: seq<EventId>, notices: seq<Option<(EventId, Event)>>,
                            now: Time, maxAttempts: int)
    requires ids != [] && PassInputs(db, ids, events, notices, now, maxAttempts)
    requires FailedAll(db, db1, ids[..|ids| - 1], events) && NoticesRecorded(db, db1, ids[..|ids| - 1], notices)
    ensures var k := |ids| - 1;
            var db2, id := FailOne(db1, ids[k], events[k], notices[k], now), ids[k];
            && id in db.docs && id in db2.docs && db2.docs == db1.docs[id := db2.docs[id]]
            && db2.docs[id].status == Failed && db2.docs[id].terminalEvent == Some(events[k])
            && db2.docs[id].errorDetail == Some("processing lease expired after maximum attempts")
            && db2.accounts == Refund(db1.accounts, db.docs[id].user)
            && Recorded(db2, notices[k])
            && (forall e | e in db1.events :: e in db2.events && db2.events[e] == db1.events[e])
            && (forall e | e in db2.events :: e in db1.events || (notices[k].Some? && e == notices[k].value.0))
  {
    var k := |ids| - 1;
    var id, event := ids[k], events[k];
    var before := ids[..k];
    assert id !in before;
    assert db1.docs[id] == db.docs[id];
    assert !TerminalEventTaken(db1, id, event) by {
      forall other | other in db1.docs && other != id
        ensures db1.docs[other].terminalEvent != Some(event)
      {
        if other in before {
          var i :| 0 <= i < |before| && before[i] == other;
          assert events[i] != event;
        } else {
          assert db1.docs[other] == db.docs[other];
        }
      }
    }
    assert FreshNotice(db1, notices[k], id) by {
      assert FreshNotice(db, notices[k], id);
    }
    hide TerminalEventTaken, FreshNotice, Recorded, Refund, NoticesRecorded, FailedAll, PassInputs;
    FailureSucceeds(db1, id, db1.docs[id].attempt.value, event, notices[k], EXHAUSTED_DETAIL, now);
    hide FinalizeAttempt;
  }

  lemma MoreFailed(db: Db, db1: Db, db2: Db, ids: seq<DocId>, events: seq<EventId>, row: Document)
    requires 0 < |ids| <= |events| && FailedAll(db, db1, ids[..|ids| - 1], events)
    requires ids[|ids| - 1] in db.docs && db2.docs == db1.docs[ids[|ids| - 1] := row]
    requires row.status == Failed && row.terminalEvent == Some(events[|ids| - 1])
    requires row.errorDetail == Some("processing lease expired after maximum attempts")
    requires forall i, j | 0 <= i < j < |ids| :: ids[i] != ids[j]
    ensures FailedAll(db, db2, ids, events)
  {
    var before := ids[..|ids| - 1];
    assert forall i | 0 <= i < |before| :: before[i] == ids[i];
    assert forall id :: id in before ==> id in ids;
  }

  lemma OneMoreRefund(db: Db, db1: Db, db2: Db, ids: seq<DocId>)
    requires ids != [] && RefundsEach(db, db1, ids[..|ids| - 1]) && ids[|ids| - 1] in db.docs
    requires db2.accounts == Refund(db1.accounts, db.docs[ids[|ids| - 1]].user)
    ensures RefundsEach(db, db2, ids)
  {
  }

  lemma OneMoreNotice(db: Db, db1: Db, db2: Db, ids: seq<DocId>, notices: seq<Option<(EventId, Event)>>)
    requires 0 < |ids| <= |notices| && NoticesRecorded(db, db1, ids[..|ids| - 1], notices)
    requires Recorded(db2, notices[|ids| - 1])
    requires forall e | e in db1.events :: e in db2.events && db2.events[e] == db1.events[e]
    requires forall e | e in db2.events :: e in db1.events || (notices[|ids| - 1].Some? && e == notices[|ids| - 1].value.0)
    ensures NoticesRecorded(db, db2, ids, notices)
  {
    forall i | 0 <= i < |ids| - 1
      ensures Recorded(db2, notices[i])
    {
      assert Recorded(db1, notices[i]);
      if notices[i].Some? {
        var e :| e in db1.events && SameNotification(db1.events[e], notices[i].value.1);
        assert e in db2.events && SameNotification(db2.events[e], notices[i].value.1);
      }
    }
    forall e | e in db2.events && e !in db.events
      ensures exists i | 0 <= i < |ids| :: notices[i].Some? && notices[i].value.0 == e
    {
      if e in db1.events {
        var i :| 0 <= i < |ids| - 1 && notices[i].Some? && notices[i].value.0 == e;
      } else {
        assert notices[|ids| - 1].value.0 == e;
      }
    }
  }
}
