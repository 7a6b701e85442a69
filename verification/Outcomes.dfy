/** What a document's first accepted outcome fixes for good: its verdict, its refund and its notifications. */
module Outcomes {
  import opened Wrappers
  import opened Sums
  import opened Tables
  import opened Ledger
  import opened Lifecycle
  import opened Attempts

  // ---------------------------------------------------------------- terminal states are absorbing

  /** Same verdict: retention may blank the input key and the stored result, nothing else changes. */
  predicate SameVerdict(d: Document, later: Document) {
    && later.status == d.status && later.attempt == d.attempt && later.attemptCount == d.attemptCount
    && later.terminalEvent == d.terminalEvent && later.errorDetail == d.errorDetail
    && later.resultExpiresAt == d.resultExpiresAt && later.user == d.user && later.mode == d.mode
    && (later.resultKey == d.resultKey || later.resultKey.None?)
    && (later.resultText == d.resultText || later.resultText.None?)
  }

  lemma StepKeepsVerdict(w: World, at: Time, step: Step, maxAttempts: int, id: DocId)
    requires Enabled(w, at, step, maxAttempts) && AttemptsSound(w, maxAttempts)
    requires id in w.db.docs && Terminal(w.db.docs[id].status)
    ensures id in Next(w, at, step).db.docs ==> SameVerdict(w.db.docs[id], Next(w, at, step).db.docs[id])
    ensures id in Next(w, at, step).created
  {
    DocsAfterStep(w.db, at, step);
    hide Attempted;
    if step.Submitted? && Accepted(w, at, step) {
      SubmittedRows(w, at, step, maxAttempts, id);
      hide DocsNext, Enabled, MatchesClaim;
    }
  }

  /** A deleted document does not come back: its identifier stays taken. */
  lemma StepKeepsDeleted(w: World, at: Time, step: Step, maxAttempts: int, id: DocId)
    requires Enabled(w, at, step, maxAttempts)
    requires id in w.created && id !in w.db.docs
    ensures id in Next(w, at, step).created && id !in Next(w, at, step).db.docs
  {
    DocsAfterStep(w.db, at, step);
    hide Attempted;
    if step.Submitted? && Accepted(w, at, step) {
      AcceptedItems(w.db, step.user, step.docs, at);
      AddCreatedEntries(w.created, step.user, step.docs, |step.docs|);
      if id in DocsNext(w.db, at, step) {
        InsertedRows(w.db.docs, step.docs, |step.docs|, at, id);
      }
    }
  }

  /** Once terminal, a document keeps its verdict through any continuation of the run, until it is deleted. */
  lemma {:induction false} TerminalForever(w: World, run: seq<Timed>, maxAttempts: int, id: DocId)
    requires AttemptsSound(w, maxAttempts) && ValidRun(w, run, maxAttempts)
    requires id in w.db.docs && Terminal(w.db.docs[id].status)
    ensures AttemptsSound(Exec(w, run), maxAttempts)
    ensures id in Exec(w, run).created
    ensures id in Exec(w, run).db.docs ==> SameVerdict(w.db.docs[id], Exec(w, run).db.docs[id])
  {
    hide Next, Enabled, AttemptsSound;
    if run == [] {
      CreatedCoversDocs(w, maxAttempts, id);
    } else {
      var before, last := run[..|run| - 1], run[|run| - 1];
      TerminalForever(w, before, maxAttempts, id);
      var w1 := Exec(w, before);
      StepKeepsAttempts(w1, last.at, last.step, maxAttempts);
      if id in w1.db.docs {
        StepKeepsVerdict(w1, last.at, last.step, maxAttempts, id);
      } else {
        StepKeepsDeleted(w1, last.at, last.step, maxAttempts, id);
      }
    }
  }

  lemma CreatedCoversDocs(w: World, maxAttempts: int, id: DocId)
    requires AttemptsSound(w, maxAttempts) && id in w.db.docs
    ensures id in w.created
  {
  }

  // ---------------------------------------------------------------- callbacks in any number and order

  datatype Callback = Callback(f: Finalization, event: Option<(EventId, Event)>, at: Time)

  /** The database after a sequence of callbacks, each one transaction. */
  function Deliver(db: Db, calls: seq<Callback>): Db {
    if calls == [] then db
    else var c := calls[|calls| - 1]; FinalizeAttempt(Deliver(db, calls[..|calls| - 1]), c.f, c.event, c.at).db
  }

  predicate AcceptedCall(db: Db, calls: seq<Callback>, i: nat)
    requires i < |calls|
  {
    FinalizeAttempt(Deliver(db, calls[..i]), calls[i].f, calls[i].event, calls[i].at).error.None?
  }

  /** What the row holds of the outcome: each field is the finalization's own. */
  predicate Stores(d: Document, f: Finalization) {
    && d.status == f.status && d.terminalEvent == Some(f.terminalEvent)
    && d.resultKey == f.resultKey && d.resultText == f.resultText
    && d.errorDetail == f.errorDetail && d.resultExpiresAt == f.resultExpiresAt
  }

  /** What was submitted, and the attempt that worked on it. */
  predicate SameWork(d: Document, later: Document) {
    && later.user == d.user && later.inputKey == d.inputKey && later.inputSize == d.inputSize
    && later.contentType == d.contentType && later.mode == d.mode && later.notification == d.notification
    && later.createdAt == d.createdAt && later.attempt == d.attempt && later.attemptCount == d.attemptCount
  }

  /** The row as an accepted callback leaves it. */
  predicate ConcludedBy(d: Document, later: Document, c: Callback) {
    Stores(later, c.f) && SameWork(d, later) && later.processingUntil.None? && later.updatedAt == c.at
  }

  lemma FinalizeEffect(db: Db, c: Callback, id: DocId)
    requires id in db.docs
    ensures var tx := FinalizeAttempt(db, c.f, c.event, c.at);
            && id in tx.db.docs
            && (tx.error.None? && c.f.id == id ==> Fenced(db, id, c.f.attempt) && Terminal(tx.db.docs[id].status)
                                                   && ConcludedBy(db.docs[id], tx.db.docs[id], c))
            && (tx.error.Some? || c.f.id != id ==> tx.db.docs[id] == db.docs[id])
  {
    hide FinalizeAttempt;
    FinalizeFrame(db, c.f, c.event, c.at);
  }

  /**
   Any number of callbacks, for any attempts, in any order: the row ends with the outcome of the first accepted
   one, every later callback for the document is refused, and without an accepted one it is untouched.
   */
  lemma {:induction false} FirstAcceptedCallbackWins(db: Db, calls: seq<Callback>, id: DocId)
    requires id in db.docs && !Terminal(db.docs[id].status)
    ensures id in Deliver(db, calls).docs
    ensures (forall i | 0 <= i < |calls| && calls[i].f.id == id :: !AcceptedCall(db, calls, i)) ==>
              Deliver(db, calls).docs[id] == db.docs[id]
    ensures forall k | 0 <= k < |calls| && calls[k].f.id == id && AcceptedCall(db, calls, k) ::
              && ConcludedBy(db.docs[id], Deliver(db, calls).docs[id], calls[k])
              && Terminal(Deliver(db, calls).docs[id].status)
              && forall j | 0 <= j < |calls| && j != k && calls[j].f.id == id :: !AcceptedCall(db, calls, j)
  {
    hide FinalizeAttempt;
    if calls != [] {
      var n := |calls| - 1;
      var before, c := calls[..n], calls[n];
      FirstAcceptedCallbackWins(db, before, id);
      FinalizeEffect(Deliver(db, before), c, id);
      hide ConcludedBy;
      forall i | 0 <= i < n
        ensures AcceptedCall(db, calls, i) <==> AcceptedCall(db, before, i)
      {
        assert calls[..i] == before[..i];
      }
    }
  }

  // ---------------------------------------------------------------- the handler's answer to a callback

  datatype Reply = Acknowledged | StateConflict | UnknownDocument | Proceed

  /** HandleNativeEvent's guards, in order: the document, the assigned node, the scan mode, duplicates, the active attempt. */
  function CallbackReply(db: Db, id: DocId, attempt: AttemptId, scanEvent: bool, ownsAttempt: bool): Reply {
    if id !in db.docs then UnknownDocument
    else
      var d := db.docs[id];
      if !ownsAttempt then StateConflict
      else if scanEvent && d.mode != "scan" then StateConflict
      else if d.attempt == Some(attempt) && (d.status == Completed || d.status == Failed) then Acknowledged
      else if d.status != Processing || d.attempt != Some(attempt) then StateConflict
      else Proceed
  }

  /** Callbacks for unknown documents, from other nodes, of the wrong kind, and of attempts that are not the document's. */
  lemma MisdirectedCallbacks(db: Db, id: DocId, attempt: AttemptId, scanEvent: bool, owns: bool)
    ensures var reply := CallbackReply(db, id, attempt, scanEvent, owns);
            && (reply == UnknownDocument <==> id !in db.docs)
            && (id in db.docs && !owns ==> reply == StateConflict)
            && (id in db.docs && scanEvent && db.docs[id].mode != "scan" ==> reply == StateConflict)
            && (id in db.docs && db.docs[id].attempt != Some(attempt) ==> reply == StateConflict)
            && (id in db.docs && db.docs[id].status in {Queued, Cancelled} ==> reply == StateConflict)
            && (reply == Acknowledged ==> db.docs[id].status in {Completed, Failed} && db.docs[id].attempt == Some(attempt))
            && (reply == Proceed ==> db.docs[id].status == Processing && db.docs[id].attempt == Some(attempt))
  {
  }

  /**
   A callback that the handler lets through is exactly one whose attempt holds the fence, and once it is
   accepted every retry by its node is acknowledged and every other attempt is refused, in any continuation.
   */
  lemma RetriesAreAcknowledged(w: World, c: Callback, run: seq<Timed>, maxAttempts: int, attempt: AttemptId, scanEvent: bool)
    requires AttemptsSound(w, maxAttempts) && c.f.id in w.db.docs
    requires scanEvent ==> w.db.docs[c.f.id].mode == "scan"
    requires Enabled(w, c.at, Finalized(c.f, c.event), maxAttempts) && Accepted(w, c.at, Finalized(c.f, c.event))
    requires ValidRun(Next(w, c.at, Finalized(c.f, c.event)), run, maxAttempts)
    ensures CallbackReply(w.db, c.f.id, attempt, scanEvent, true) == Proceed <==> attempt == c.f.attempt
    ensures var later := Exec(Next(w, c.at, Finalized(c.f, c.event)), run);
            c.f.id in later.db.docs ==>
              CallbackReply(later.db, c.f.id, attempt, scanEvent, true)
              == if attempt == c.f.attempt then Acknowledged else StateConflict
  {
    hide FinalizeAttempt, Enabled, AttemptsSound, Exec, ValidRun;
    FinalizeEffect(w.db, c, c.f.id);
    FinalizeFrame(w.db, c.f, c.event, c.at);
    var w1 := Next(w, c.at, Finalized(c.f, c.event));
    StepKeepsAttempts(w, c.at, Finalized(c.f, c.event), maxAttempts);
    TerminalForever(w1, run, maxAttempts, c.f.id);
  }

  /** The stored result is due for removal at `due` and the run removes it then or later. */
  predicate ResultExpires(run: seq<Timed>, id: DocId, due: Option<Time>) {
    due.Some? && exists i | 0 <= i < |run| :: run[i].step == ResultExpired(id) && due.value <= run[i].at
  }

  lemma ResultExpiresStep(run: seq<Timed>, id: DocId, due: Option<Time>)
    requires run != []
    ensures var before, last := run[..|run| - 1], run[|run| - 1];
            ResultExpires(run, id, due) <==> ResultExpires(before, id, due) || (due.Some? && last.step == ResultExpired(id) && due.value <= last.at)
  {
    var k := |run| - 1;
    assert forall i | 0 <= i < k :: run[..k][i] == run[i];
    if due.Some? && run[k].step == ResultExpired(id) && due.value <= run[k].at {
      assert ResultExpires(run, id, due);
    }
  }

  /** A finished document's result is there, or was removed when due. */
  predicate ResultOf(d: Document, later: Document, gone: bool) {
    if gone then later.resultKey.None? && later.resultText.None? else later.resultKey == d.resultKey && later.resultText == d.resultText
  }

  lemma StepKeepsResult(w: World, at: Time, step: Step, maxAttempts: int, id: DocId)
    requires Enabled(w, at, step, maxAttempts) && AttemptsSound(w, maxAttempts)
    requires id in w.db.docs && Terminal(w.db.docs[id].status)
    ensures id in Next(w, at, step).db.docs ==>
              var d, due := w.db.docs[id], w.db.docs[id].resultExpiresAt;
              ResultOf(d, Next(w, at, step).db.docs[id], due.Some? && step == ResultExpired(id) && due.value <= at)
  {
    RowAfterStep(w, at, step, maxAttempts, id);
    DocsAfterStep(w.db, at, step);
    hide Attempted, AttemptsSound, Enabled;
  }

  /** A stored result stays until it is removed when due, or with its document. */
  lemma {:induction false} ResultKeptUntilExpiry(w: World, run: seq<Timed>, maxAttempts: int, id: DocId)
    requires AttemptsSound(w, maxAttempts) && ValidRun(w, run, maxAttempts)
    requires id in w.db.docs && Terminal(w.db.docs[id].status)
    ensures id in Exec(w, run).db.docs ==>
              ResultOf(w.db.docs[id], Exec(w, run).db.docs[id], ResultExpires(run, id, w.db.docs[id].resultExpiresAt))
  {
    hide Next, Enabled, AttemptsSound, ResultExpires;
    if run == [] {
      assert !ResultExpires(run, id, w.db.docs[id].resultExpiresAt) by { NothingExpires(id, w.db.docs[id].resultExpiresAt); }
    } else {
      var before, last := run[..|run| - 1], run[|run| - 1];
      var w1 := Exec(w, before);
      ResultKeptUntilExpiry(w, before, maxAttempts, id);
      TerminalForever(w, before, maxAttempts, id);
      ResultExpiresStep(run, id, w.db.docs[id].resultExpiresAt);
      if id in w1.db.docs {
        StepKeepsResult(w1, last.at, last.step, maxAttempts, id);
      } else {
        StepKeepsDeleted(w1, last.at, last.step, maxAttempts, id);
      }
    }
  }

  lemma NothingExpires(id: DocId, due: Option<Time>)
    ensures !ResultExpires([], id, due)
  {
  }

  /**
   What the first accepted callback stored is what the document shows from then on: status, event and error for as
   long as it exists, result key and text until they are removed at or after the expiry the callback came with.
   */
  lemma AcceptedOutcomeIsKept(w: World, c: Callback, run: seq<Timed>, maxAttempts: int)
    requires AttemptsSound(w, maxAttempts) && c.f.id in w.db.docs
    requires Enabled(w, c.at, Finalized(c.f, c.event), maxAttempts) && Accepted(w, c.at, Finalized(c.f, c.event))
    requires ValidRun(Next(w, c.at, Finalized(c.f, c.event)), run, maxAttempts)
    ensures var later := Exec(Next(w, c.at, Finalized(c.f, c.event)), run).db.docs;
            c.f.id in later ==>
              var d := later[c.f.id];
              && d.status == c.f.status && d.terminalEvent == Some(c.f.terminalEvent)
              && d.errorDetail == c.f.errorDetail && d.resultExpiresAt == c.f.resultExpiresAt
              && (if ResultExpires(run, c.f.id, c.f.resultExpiresAt) then d.resultKey.None? && d.resultText.None?
                  else d.resultKey == c.f.resultKey && d.resultText == c.f.resultText)
  {
    FinalizeEffect(w.db, c, c.f.id);
    var w1 := Next(w, c.at, Finalized(c.f, c.event));
    StepKeepsAttempts(w, c.at, Finalized(c.f, c.event), maxAttempts);
    hide FinalizeAttempt, Enabled, AttemptsSound, ResultExpires, Exec;
    TerminalForever(w1, run, maxAttempts, c.f.id);
    ResultKeptUntilExpiry(w1, run, maxAttempts, c.f.id);
  }

  /** A submission leaves a document that was ever created alone: its row, its absence, and its record. */
  lemma OldDocumentKept(w: World, at: Time, step: Step, maxAttempts: int, id: DocId)
    requires Enabled(w, at, step, maxAttempts) && step.Submitted? && Accepted(w, at, step) && id in w.created
    ensures id in Next(w, at, step).created && Next(w, at, step).created[id] == w.created[id]
    ensures id in DocsNext(w.db, at, step) <==> id in w.db.docs
    ensures id in w.db.docs ==> DocsNext(w.db, at, step)[id] == w.db.docs[id]
  {
    assert forall i | 0 <= i < |step.docs| :: step.docs[i] in step.docs && step.docs[i].id !in w.created;
    SubmittedRows(w, at, step, maxAttempts, id);
    hide Attempted, DocsNext, Enabled;
  }

  // ---------------------------------------------------------------- refunds

  ghost function IsUser(u: UserId): UserId -> int { (v: UserId) => if v == u then 1 else 0 }

  ghost function CountOf(owners: map<DocId, UserId>, u: UserId): int { Sum(owners, IsUser(u)) }

  /** Without quota resets, doc_used is what was created minus what was refunded. */
  ghost predicate UsageExact(w: World) {
    forall u | u in w.db.accounts :: w.db.accounts[u].docUsed == CountOf(w.created, u) - CountOf(w.refunded, u)
  }

  /** Refunds go to created documents of the same user, and only to finished ones. */
  ghost predicate RefundsSound(w: World) {
    && (forall id | id in w.refunded :: id in w.created && w.created[id] == w.refunded[id])
    && (forall id | id in w.refunded && id in w.db.docs :: Terminal(w.db.docs[id].status))
  }

  function RefundedDoc(step: Step): DocId
    requires step.Finalized? || step.CancelledByUser?
  {
    if step.Finalized? then step.f.id else step.id
  }

  lemma UsageAfterStep(db: Db, at: Time, step: Step, u: UserId)
    requires u in db.accounts && !step.QuotaReset?
    ensures u in Attempted(db, at, step).db.accounts
    ensures var accepted := Attempted(db, at, step).error.None?;
            Attempted(db, at, step).db.accounts[u].docUsed ==
              if accepted && step.Submitted? && step.user == u then db.accounts[u].docUsed + |step.docs|
              else if accepted && step.Finalized? && step.f.refund && step.f.id in db.docs && db.docs[step.f.id].user == u
              then Clamped(db.accounts[u].docUsed - 1)
              else if accepted && step.CancelledByUser? && step.user == u then Clamped(db.accounts[u].docUsed - 1)
              else db.accounts[u].docUsed
  {
    if step.Finalized? || step.CancelledByUser? {
      TerminalStepUsage(db, at, step, u);
    } else {
      hide FinalizeAttempt, CancelWithRefund, InsertOptionalEvent, SubmitError, InsertDocs, ConsumeAll;
    }
  }

  lemma TerminalStepUsage(db: Db, at: Time, step: Step, u: UserId)
    requires u in db.accounts && (step.Finalized? || step.CancelledByUser?)
    ensures u in Attempted(db, at, step).db.accounts
    ensures var refunded := if step.Finalized? then step.f.refund && step.f.id in db.docs && db.docs[step.f.id].user == u else step.user == u;
            Attempted(db, at, step).db.accounts[u].docUsed
            == if Attempted(db, at, step).error.None? && refunded then Clamped(db.accounts[u].docUsed - 1) else db.accounts[u].docUsed
  {
    hide FinalizeAttempt, CancelWithRefund;
    match step
    case Finalized(f, event) => FinalizeFrame(db, f, event, at);
    case CancelledByUser(id, user, event) => CancelFrame(db, id, user, event, at);
  }

  lemma {:induction false} CountAfterCreation(created: map<DocId, UserId>, user: UserId, docs: seq<NewDocument>, n: nat, u: UserId)
    requires n <= |docs|
    requires forall i | 0 <= i < |docs| :: docs[i].user == user && docs[i].id !in created
    requires forall i, j | 0 <= i < j < |docs| :: docs[i].id != docs[j].id
    ensures CountOf(AddCreated(created, docs, n), u) == CountOf(created, u) + if u == user then n else 0
  {
    if n > 0 {
      CountAfterCreation(created, user, docs, n - 1, u);
      AddCreatedEntries(created, user, docs, n - 1);
      SumUpdate(AddCreated(created, docs, n - 1), IsUser(u), docs[n - 1].id, user);
    }
  }

  /** A document not refunded yet is still counted, so the refund's GREATEST(0, ...) never clamps. */
  lemma UnrefundedIsCounted(w: World, id: DocId)
    requires RefundsSound(w) && id in w.created && id !in w.refunded
    ensures CountOf(w.refunded, w.created[id]) + 1 <= CountOf(w.created, w.created[id])
  {
    var u := w.created[id];
    SumRemove(w.created, IsUser(u), id);
    SumSubtable(w.refunded, w.created - {id}, IsUser(u));
  }

  /** No document is refunded twice. */
  lemma RefundedAtMostOnce(w: World, at: Time, step: Step, maxAttempts: int)
    requires AttemptsSound(w, maxAttempts) && RefundsSound(w) && Refunds(w, at, step)
    ensures RefundedDoc(step) in w.db.docs && RefundedDoc(step) !in w.refunded
  {
    DocsAfterStep(w.db, at, step);
    hide Attempted;
  }

  /** Who created a document is never rewritten. */
  lemma CreatorKept(w: World, at: Time, step: Step, maxAttempts: int, id: DocId)
    requires Enabled(w, at, step, maxAttempts) && id in w.created
    ensures id in Next(w, at, step).created && Next(w, at, step).created[id] == w.created[id]
  {
    if step.Submitted? && Accepted(w, at, step) {
      OldDocumentKept(w, at, step, maxAttempts, id);
    }
    hide Attempted, Enabled, ClaimsNext, RefundedNext, ConcludedNext, KeysNext;
  }

  lemma RefundStays(w: World, at: Time, step: Step, maxAttempts: int, id: DocId)
    requires Enabled(w, at, step, maxAttempts) && AttemptsSound(w, maxAttempts) && RefundsSound(w) && id in w.refunded
    ensures id in Next(w, at, step).created && Next(w, at, step).created[id] == w.refunded[id]
    ensures id in Next(w, at, step).refunded && Next(w, at, step).refunded[id] == w.refunded[id]
    ensures id in Next(w, at, step).db.docs ==> Terminal(Next(w, at, step).db.docs[id].status)
  {
    CreatorKept(w, at, step, maxAttempts, id);
    if Refunds(w, at, step) {
      RefundedAtMostOnce(w, at, step, maxAttempts);
    }
    if id in w.db.docs {
      StepKeepsVerdict(w, at, step, maxAttempts, id);
    } else {
      StepKeepsDeleted(w, at, step, maxAttempts, id);
    }
    hide Attempted, Enabled, ClaimsNext, CreatedNext, ConcludedNext, KeysNext, AttemptsSound;
  }

  lemma NewRefund(w: World, at: Time, step: Step, maxAttempts: int, id: DocId)
    requires Enabled(w, at, step, maxAttempts) && AttemptsSound(w, maxAttempts)
    requires id in Next(w, at, step).refunded && id !in w.refunded
    ensures var w' := Next(w, at, step);
            && id in w'.created && w'.created[id] == w'.refunded[id] && id in w'.db.docs && Terminal(w'.db.docs[id].status)
  {
    assert Refunds(w, at, step) && id == RefundedDoc(step);
    ConcludingStep(w, at, step);
    DocsAfterStep(w.db, at, step);
    hide Attempted, ClaimsNext, ConcludedNext, KeysNext, DocsNext, Enabled, WithinBudget, MatchesClaim;
  }

  lemma StepKeepsRefundsSound(w: World, at: Time, step: Step, maxAttempts: int)
    requires Enabled(w, at, step, maxAttempts) && AttemptsSound(w, maxAttempts) && RefundsSound(w)
    ensures RefundsSound(Next(w, at, step))
  {
    var w' := Next(w, at, step);
    forall id | id in w'.refunded
      ensures id in w'.created && w'.created[id] == w'.refunded[id]
      ensures id in w'.db.docs ==> Terminal(w'.db.docs[id].status)
    {
      if id in w.refunded {
        RefundStays(w, at, step, maxAttempts, id);
      } else {
        NewRefund(w, at, step, maxAttempts, id);
      }
      hide Next;
    }
    hide Next;
  }

  lemma StepKeepsUsageExact(w: World, at: Time, step: Step, maxAttempts: int)
    requires Enabled(w, at, step, maxAttempts) && AttemptsSound(w, maxAttempts) && RefundsSound(w) && UsageExact(w)
    requires !step.QuotaReset?
    ensures UsageExact(Next(w, at, step))
  {
    var w' := Next(w, at, step);
    DocsAfterStep(w.db, at, step);
    AccountsNeverAppear(w.db, at, step);
    hide Attempted, ClaimsNext, ConcludedNext, KeysNext, DocsNext, WithinBudget, MatchesClaim;
    forall u | u in w'.db.accounts
      ensures w'.db.accounts[u].docUsed == CountOf(w'.created, u) - CountOf(w'.refunded, u)
    {
      UsageAfterStep(w.db, at, step, u);
      if step.Submitted? && Accepted(w, at, step) {
        AcceptedItems(w.db, step.user, step.docs, at);
        CountAfterCreation(w.created, step.user, step.docs, |step.docs|, u);
      } else if Refunds(w, at, step) {
        RefundedAtMostOnce(w, at, step, maxAttempts);
        var id := RefundedDoc(step);
        UnrefundedIsCounted(w, id);
        SumUpdate(w.refunded, IsUser(u), id, w.db.docs[id].user);
      }
    }
  }

  lemma AccountsNeverAppear(db: Db, at: Time, step: Step)
    ensures Attempted(db, at, step).db.accounts.Keys == db.accounts.Keys
  {
    if RowOf(step).Some? && !step.InputExpired? {
      hide Attempted;
      RowStepUpdatesRow(db, at, step);
    } else {
      hide FinalizeAttempt, CancelWithRefund, InsertOptionalEvent;
    }
  }

  /** A reset breaks the count exactly when something was still charged: a later refund is then lost to the clamp. */
  lemma ResetKeepsUsageExactly(w: World, at: Time, user: UserId)
    requires UsageExact(w) && user in w.db.accounts
    ensures UsageExact(Next(w, at, QuotaReset(user))) <==> w.db.accounts[user].docUsed == 0
  {
    var w' := Next(w, at, QuotaReset(user));
    assert w'.db.accounts[user].docUsed == 0;
    if w.db.accounts[user].docUsed == 0 {
      assert w'.db.accounts == w.db.accounts;
    }
  }

  predicate NoResets(run: seq<Timed>) { forall t | t in run :: !t.step.QuotaReset? }

  lemma {:induction false} UsageExactInEveryRun(w: World, run: seq<Timed>, maxAttempts: int)
    requires Initial(w) && ValidRun(w, run, maxAttempts) && maxAttempts > 0
    ensures RefundsSound(Exec(w, run))
    ensures NoResets(run) ==> UsageExact(Exec(w, run))
  {
    hide Next, Enabled;
    if run != [] {
      hide RefundsSound, UsageExact, AttemptsSound, Initial;
      var before, last := run[..|run| - 1], run[|run| - 1];
      UsageExactInEveryRun(w, before, maxAttempts);
      AttemptsSoundInEveryRun(w, before, maxAttempts);
      StepKeepsRefundsSound(Exec(w, before), last.at, last.step, maxAttempts);
      if NoResets(run) {
        StepKeepsUsageExact(Exec(w, before), last.at, last.step, maxAttempts);
      }
    }
  }

  // ---------------------------------------------------------------- notifications

  /** Every notice describes its document's terminal status, which `concluded` recorded when it was accepted. */
  ghost predicate ConclusionsSound(w: World) {
    && (forall id | id in w.concluded && id in w.db.docs ::
          Terminal(w.db.docs[id].status) && w.concluded[id] == EventType(w.db.docs[id].mode, w.db.docs[id].status))
    && (forall id | id in w.concluded :: id in w.created)
  }

  ghost predicate NoticesSound(w: World) {
    forall e | e in w.db.events ::
      && w.db.events[e].document in w.db.docs
      && w.db.events[e].document in w.concluded
      && w.db.events[e].eventType == w.concluded[w.db.events[e].document]
  }

  /** The unique index over document, type and channel. */
  ghost predicate NoticesUnique(db: Db) {
    forall e1, e2 | e1 in db.events && e2 in db.events && e1 != e2 :: !SameNotification(db.events[e1], db.events[e2])
  }

  /** The notice a step inserts, if it reaches the table. */
  predicate Inserts(db: Db, at: Time, step: Step, id: EventId, notice: Event) {
    || (step.Published? && id == step.eventId && notice == step.notice)
    || ((step.Finalized? || step.CancelledByUser?) && Attempted(db, at, step).error.None? && step.event == Some((id, notice)))
  }

  /** The events table after one step: old rows of surviving documents, and at most one new notice. */
  lemma EventsAfterStep(db: Db, at: Time, step: Step, e: EventId)
    requires e in Attempted(db, at, step).db.events
    ensures var events' := Attempted(db, at, step).db.events;
            if e in db.events then
              events'[e] == db.events[e]
              && !(step.DocumentDeleted? && Deletable(db, step.id, step.before) && events'[e].document == step.id)
            else
              !AlreadyNotified(db, events'[e]) && events'[e].document in db.docs && Inserts(db, at, step, e, events'[e])
  {
    hide TerminalEventTaken, SubmitError, Refund;
  }

  lemma InsertsOneNotice(db: Db, at: Time, step: Step, e1: EventId, n1: Event, e2: EventId, n2: Event)
    requires Inserts(db, at, step, e1, n1) && Inserts(db, at, step, e2, n2)
    ensures e1 == e2
  {
    hide Attempted;
  }

  lemma StepKeepsNoticesUnique(w: World, at: Time, step: Step)
    requires NoticesUnique(w.db)
    ensures NoticesUnique(Attempted(w.db, at, step).db)
  {
    var db' := Attempted(w.db, at, step).db;
    hide Attempted, Inserts;
    forall e1, e2 | e1 in db'.events && e2 in db'.events && e1 != e2
      ensures !SameNotification(db'.events[e1], db'.events[e2])
    {
      EventsAfterStep(w.db, at, step, e1);
      EventsAfterStep(w.db, at, step, e2);
      if e1 !in w.db.events && e2 !in w.db.events {
        InsertsOneNotice(w.db, at, step, e1, db'.events[e1], e2, db'.events[e2]);
      }
    }
  }

  /** An accepted terminal step finds an unfinished document and leaves it with the status it concludes. */
  lemma ConcludingStep(w: World, at: Time, step: Step)
    requires Concludes(w, at, step)
    ensures var id := RefundedDoc(step);
            && id in w.db.docs && !Terminal(w.db.docs[id].status)
            && id in Next(w, at, step).db.docs
            && var d := Next(w, at, step).db.docs[id];
               && Terminal(d.status) && d.mode == w.db.docs[id].mode
               && Next(w, at, step).concluded == w.concluded[id := EventType(d.mode, d.status)]
  {
    DocsAfterStep(w.db, at, step);
    hide Attempted, ClaimsNext, CreatedNext, RefundedNext, KeysNext, EventType;
  }

  /** What was concluded stays as it was. */
  lemma ConclusionStays(w: World, at: Time, step: Step, maxAttempts: int, id: DocId)
    requires Enabled(w, at, step, maxAttempts) && AttemptsSound(w, maxAttempts) && ConclusionsSound(w) && id in w.concluded
    ensures id in Next(w, at, step).created
    ensures id in Next(w, at, step).concluded && Next(w, at, step).concluded[id] == w.concluded[id]
    ensures id in Next(w, at, step).db.docs ==>
              id in w.db.docs && SameVerdict(w.db.docs[id], Next(w, at, step).db.docs[id])
  {
    if Concludes(w, at, step) {
      ConcludingStep(w, at, step);
    }
    if id in w.db.docs {
      StepKeepsVerdict(w, at, step, maxAttempts, id);
    } else {
      StepKeepsDeleted(w, at, step, maxAttempts, id);
    }
    hide Attempted, ClaimsNext, CreatedNext, RefundedNext, KeysNext, Enabled, AttemptsSound, SameVerdict, EventType, Concludes;
  }

  lemma StepKeepsConclusions(w: World, at: Time, step: Step, maxAttempts: int)
    requires Enabled(w, at, step, maxAttempts) && AttemptsSound(w, maxAttempts) && ConclusionsSound(w)
    ensures ConclusionsSound(Next(w, at, step))
  {
    var w' := Next(w, at, step);
    forall id | id in w'.concluded
      ensures id in w'.created
      ensures id in w'.db.docs ==>
                Terminal(w'.db.docs[id].status) && w'.concluded[id] == EventType(w'.db.docs[id].mode, w'.db.docs[id].status)
    {
      if id in w.concluded {
        ConclusionStays(w, at, step, maxAttempts, id);
      } else {
        NewConclusion(w, at, step, maxAttempts, id);
      }
      hide Next, EventType;
    }
    hide Next, EventType;
  }

  lemma NewConclusion(w: World, at: Time, step: Step, maxAttempts: int, id: DocId)
    requires Enabled(w, at, step, maxAttempts) && AttemptsSound(w, maxAttempts)
    requires id in Next(w, at, step).concluded && id !in w.concluded
    ensures Concludes(w, at, step) && id == RefundedDoc(step)
    ensures var w' := Next(w, at, step);
            && id in w'.created && id in w'.db.docs && Terminal(w'.db.docs[id].status)
            && w'.concluded[id] == EventType(w'.db.docs[id].mode, w'.db.docs[id].status)
  {
    assert Concludes(w, at, step);
    ConcludingStep(w, at, step);
    hide Attempted, ClaimsNext, RefundedNext, KeysNext, Enabled, EventType;
  }

  lemma StepKeepsNotices(w: World, at: Time, step: Step, maxAttempts: int)
    requires Enabled(w, at, step, maxAttempts) && AttemptsSound(w, maxAttempts) && ConclusionsSound(w) && NoticesSound(w)
    ensures NoticesSound(Next(w, at, step))
  {
    var w' := Next(w, at, step);
    forall e | e in w'.db.events
      ensures w'.db.events[e].document in w'.db.docs && w'.db.events[e].document in w'.concluded
      ensures w'.db.events[e].eventType == w'.concluded[w'.db.events[e].document]
    {
      EventsAfterStep(w.db, at, step, e);
      if e in w.db.events {
        OldNoticeKept(w, at, step, maxAttempts, e);
      } else {
        NewNoticeSound(w, at, step, maxAttempts, e);
      }
      hide Attempted, Enabled, AttemptsSound, ConclusionsSound, Next;
    }
  }

  lemma OldNoticeKept(w: World, at: Time, step: Step, maxAttempts: int, e: EventId)
    requires Enabled(w, at, step, maxAttempts) && AttemptsSound(w, maxAttempts) && ConclusionsSound(w) && NoticesSound(w)
    requires e in w.db.events && !(step.DocumentDeleted? && Deletable(w.db, step.id, step.before) && w.db.events[e].document == step.id)
    ensures var w', id := Next(w, at, step), w.db.events[e].document;
            id in w'.db.docs && id in w'.concluded && w'.concluded[id] == w.db.events[e].eventType
  {
    var id := w.db.events[e].document;
    ConclusionStays(w, at, step, maxAttempts, id);
    DocumentsStay(w, at, step, maxAttempts, id);
    hide Attempted, Enabled, AttemptsSound, ConclusionsSound, Next;
  }

  /** Only deletion removes a document. */
  lemma DocumentsStay(w: World, at: Time, step: Step, maxAttempts: int, id: DocId)
    requires Enabled(w, at, step, maxAttempts) && AttemptsSound(w, maxAttempts) && id in w.db.docs
    requires !(step.DocumentDeleted? && Deletable(w.db, step.id, step.before) && id == step.id)
    ensures id in Next(w, at, step).db.docs
  {
    DocsAfterStep(w.db, at, step);
    hide Attempted;
    if step.Submitted? && Accepted(w, at, step) {
      SubmittedRows(w, at, step, maxAttempts, id);
      hide DocsNext;
    }
  }

  /** A new notice describes a document concluded before, or by this very step. */
  lemma NewNoticeSound(w: World, at: Time, step: Step, maxAttempts: int, e: EventId)
    requires Enabled(w, at, step, maxAttempts) && AttemptsSound(w, maxAttempts) && ConclusionsSound(w)
    requires e in Next(w, at, step).db.events && e !in w.db.events
    ensures var w', notice := Next(w, at, step), Next(w, at, step).db.events[e];
            notice.document in w'.db.docs && notice.document in w'.concluded && w'.concluded[notice.document] == notice.eventType
  {
    var w' := Next(w, at, step);
    EventsAfterStep(w.db, at, step, e);
    var notice := w'.db.events[e];
    DocumentsStay(w, at, step, maxAttempts, notice.document);
    if step.Published? {
      ConclusionStays(w, at, step, maxAttempts, notice.document);
      hide Attempted, AttemptsSound, ConclusionsSound, Next;
    } else {
      assert Concludes(w, at, step);
      ConcludingStep(w, at, step);
      ConcludedStatus(w, at, step);
      hide Attempted, AttemptsSound, ConclusionsSound, Next, EventType;
    }
  }

  lemma ConcludedStatus(w: World, at: Time, step: Step)
    requires Concludes(w, at, step)
    ensures var id := RefundedDoc(step);
            id in w.db.docs && id in Next(w, at, step).db.docs
            && Next(w, at, step).db.docs[id].status == if step.Finalized? then step.f.status else Cancelled
  {
    DocsAfterStep(w.db, at, step);
    hide Attempted, ClaimsNext, CreatedNext, RefundedNext, KeysNext, ConcludedNext;
  }

  lemma {:induction false} NotificationsSoundInEveryRun(w: World, run: seq<Timed>, maxAttempts: int)
    requires Initial(w) && ValidRun(w, run, maxAttempts) && maxAttempts > 0
    ensures ConclusionsSound(Exec(w, run)) && NoticesSound(Exec(w, run)) && NoticesUnique(Exec(w, run).db)
  {
    if run != [] {
      var before, last := run[..|run| - 1], run[|run| - 1];
      hide Enabled, AttemptsSound, Initial, Attempted, ConclusionsSound, NoticesSound, NoticesUnique;
      NotificationsSoundInEveryRun(w, before, maxAttempts);
      AttemptsSoundInEveryRun(w, before, maxAttempts);
      StepKeepsConclusions(Exec(w, before), last.at, last.step, maxAttempts);
      StepKeepsNotices(Exec(w, before), last.at, last.step, maxAttempts);
      StepKeepsNoticesUnique(Exec(w, before), last.at, last.step);
    }
  }

  /** At most one notification event per document and channel, though two writers insert them. */
  lemma OneNoticePerChannel(w: World, run: seq<Timed>, maxAttempts: int, e1: EventId, e2: EventId)
    requires Initial(w) && ValidRun(w, run, maxAttempts) && maxAttempts > 0
    requires e1 in Exec(w, run).db.events && e2 in Exec(w, run).db.events
    requires Exec(w, run).db.events[e1].document == Exec(w, run).db.events[e2].document
    requires Exec(w, run).db.events[e1].channel == Exec(w, run).db.events[e2].channel
    ensures e1 == e2
  {
    NotificationsSoundInEveryRun(w, run, maxAttempts);
  }
}
