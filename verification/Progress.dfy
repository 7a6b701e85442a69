/** How much lifecycle work a run can do, and the loop that the text extractor can fall into. */
module Progress {
  import opened Wrappers
  import opened Sums
  import opened Tables
  import opened Ledger
  import opened Lifecycle
  import opened Attempts
  import opened Outcomes

  /** Work left in a document: two per attempt still available, one more for the attempt under way. */
  ghost function WorkLeft(maxAttempts: int): Document -> int {
    (d: Document) => match d.status
      case Queued => 2 * (maxAttempts - d.attemptCount)
      case Processing => 2 * (maxAttempts - d.attemptCount) + 1
      case _ => 0
  }

  ghost function TotalWork(docs: map<DocId, Document>, maxAttempts: int): int { Sum(docs, WorkLeft(maxAttempts)) }

  /** What `n` documents bring along. */
  function Budget(maxAttempts: int, n: int): int { 2 * maxAttempts * n }

  lemma BudgetAdds(maxAttempts: int, m: int, n: int)
    ensures Budget(maxAttempts, 0) == 0
    ensures Budget(maxAttempts, m + n) == Budget(maxAttempts, m) + Budget(maxAttempts, n)
    ensures Budget(maxAttempts, 1) == 2 * maxAttempts
  {
  }

  /** Steps that move a document along its lifecycle: all of them except giving an attempt back. */
  predicate Progressing(w: World, at: Time, step: Step) {
    step.Claimed? || ((step.Requeued? || step.Finalized? || step.CancelledByUser?) && Accepted(w, at, step))
  }

  predicate Releasing(w: World, at: Time, step: Step) { step.Released? && Accepted(w, at, step) }

  predicate Creating(w: World, at: Time, step: Step) { step.Submitted? && Accepted(w, at, step) }

  lemma {:induction false} InsertAddsWork(table: map<DocId, Document>, docs: seq<NewDocument>, n: nat, now: Time, maxAttempts: int)
    requires n <= |docs| && NewIds(table, docs)
    ensures TotalWork(InsertDocs(table, docs, n, now), maxAttempts) == TotalWork(table, maxAttempts) + Budget(maxAttempts, n)
  {
    BudgetAdds(maxAttempts, n - 1, 1);
    hide Budget;
    if n > 0 {
      InsertAddsWork(table, docs, n - 1, now, maxAttempts);
      var before := InsertDocs(table, docs, n - 1, now);
      if docs[n - 1].id in before {
        InsertedRows(table, docs, n - 1, now, docs[n - 1].id);
      }
      SumUpdate(before, WorkLeft(maxAttempts), docs[n - 1].id, QueuedRow(docs[n - 1], now));
    }
  }

  /** Every lifecycle step but a release uses up work, a release gives back exactly one unit, nothing else counts. */
  lemma StepUsesWork(w: World, at: Time, step: Step, maxAttempts: int)
    requires Enabled(w, at, step, maxAttempts) && AttemptsSound(w, maxAttempts)
    ensures var before, after := TotalWork(w.db.docs, maxAttempts), TotalWork(Next(w, at, step).db.docs, maxAttempts);
            if Progressing(w, at, step) then after < before
            else if Releasing(w, at, step) then after == before + 1
            else if Creating(w, at, step) then after == before + Budget(maxAttempts, |step.docs|)
            else after == before
  {
    DocsAfterStep(w.db, at, step);
    hide Attempted, WorkLeft, NewRow, WithinBudget, MatchesClaim;
    if Creating(w, at, step) {
      InsertAddsWork(w.db.docs, step.docs, |step.docs|, at, maxAttempts);
    } else if step.DocumentDeleted? {
      if Deletable(w.db, step.id, step.before) {
        SumRemove(w.db.docs, WorkLeft(maxAttempts), step.id);
        FinishedRowHasNoWork(w.db.docs[step.id], maxAttempts);
      }
    } else if Rewrites(w.db, at, step) {
      var id := RowOf(step).value;
      RewrittenRowWork(w, at, step, maxAttempts);
      SumUpdate(w.db.docs, WorkLeft(maxAttempts), id, NewRow(w.db.docs[id], at, step));
    }
  }

  lemma FinishedRowHasNoWork(d: Document, maxAttempts: int)
    requires Terminal(d.status)
    ensures WorkLeft(maxAttempts)(d) == 0
  {
  }

  lemma RewrittenRowWork(w: World, at: Time, step: Step, maxAttempts: int)
    requires Enabled(w, at, step, maxAttempts) && AttemptsSound(w, maxAttempts)
    requires Rewrites(w.db, at, step)
    ensures var d := w.db.docs[RowOf(step).value];
            var change := WorkLeft(maxAttempts)(NewRow(d, at, step)) - WorkLeft(maxAttempts)(d);
            if Progressing(w, at, step) then change < 0 else if Releasing(w, at, step) then change == 1 else change == 0
  {
    DocsAfterStep(w.db, at, step);
    hide Attempted, Next, Latest;
    assert WithinBudget(w.db.docs[RowOf(step).value], maxAttempts);
    assert MatchesClaim(w.db.docs[RowOf(step).value], RowOf(step).value, w.claims);
  }

  function ProgressSteps(w: World, run: seq<Timed>): nat {
    if run == [] then 0
    else
      var before, last := run[..|run| - 1], run[|run| - 1];
      ProgressSteps(w, before) + if Progressing(Exec(w, before), last.at, last.step) then 1 else 0
  }

  function ReleaseSteps(w: World, run: seq<Timed>): nat {
    if run == [] then 0
    else
      var before, last := run[..|run| - 1], run[|run| - 1];
      ReleaseSteps(w, before) + if Releasing(Exec(w, before), last.at, last.step) then 1 else 0
  }

  function CreatedDocs(w: World, run: seq<Timed>): nat {
    if run == [] then 0
    else
      var before, last := run[..|run| - 1], run[|run| - 1];
      CreatedDocs(w, before) + if Creating(Exec(w, before), last.at, last.step) then |last.step.docs| else 0
  }

  lemma WorkNonNegative(w: World, maxAttempts: int)
    requires AttemptsSound(w, maxAttempts)
    ensures TotalWork(w.db.docs, maxAttempts) >= 0
  {
    SumNonNegative(w.db.docs, WorkLeft(maxAttempts));
  }

  /** Books of a run: work done plus work left is covered by what submissions and releases put in. */
  lemma {:induction false} WorkIsAccountedFor(w: World, run: seq<Timed>, maxAttempts: int)
    requires Initial(w) && ValidRun(w, run, maxAttempts) && maxAttempts > 0
    ensures ProgressSteps(w, run) + TotalWork(Exec(w, run).db.docs, maxAttempts)
            <= Budget(maxAttempts, CreatedDocs(w, run)) + ReleaseSteps(w, run)
  {
    BudgetAdds(maxAttempts, 0, 0);
    hide Next, Enabled, Attempted, AttemptsSound, Budget;
    if run != [] {
      hide TotalWork;
      var before, last := run[..|run| - 1], run[|run| - 1];
      WorkIsAccountedFor(w, before, maxAttempts);
      AttemptsSoundInEveryRun(w, before, maxAttempts);
      StepUsesWork(Exec(w, before), last.at, last.step, maxAttempts);
      if Creating(Exec(w, before), last.at, last.step) {
        BudgetAdds(maxAttempts, CreatedDocs(w, before), |last.step.docs|);
      }
    }
  }

  /** A run without releases ends after at most two lifecycle steps per attempt and document. */
  lemma LifecycleTerminates(w: World, run: seq<Timed>, maxAttempts: int)
    requires Initial(w) && ValidRun(w, run, maxAttempts) && maxAttempts > 0
    ensures ProgressSteps(w, run) <= 2 * maxAttempts * CreatedDocs(w, run) + ReleaseSteps(w, run)
  {
    WorkIsAccountedFor(w, run, maxAttempts);
    AttemptsSoundInEveryRun(w, run, maxAttempts);
    WorkNonNegative(Exec(w, run), maxAttempts);
  }

  // ---------------------------------------------------------------- text extraction that falls back to OCR

  /** PDFs the text extractor may take: mode auto (the default) or text. */
  predicate TextEligible(d: Document) { QueryMatches(ForText, d) }

  /** Everything the claim queries read of a row. */
  datatype ClaimView = ClaimView(
    status: Status, count: int, until: Option<Time>, contentType: string, mode: string, createdAt: Time)

  function ViewOf(d: Document): ClaimView {
    ClaimView(d.status, d.attemptCount, d.processingUntil, d.contentType, d.mode, d.createdAt)
  }

  lemma SameViewSameClaims(q: ClaimQuery, d: Document, d': Document, now: Time, maxAttempts: int)
    requires ViewOf(d') == ViewOf(d)
    ensures Claimable(q, d, now, maxAttempts) <==> Claimable(q, d', now, maxAttempts)
    ensures d.status == d'.status && d.createdAt == d'.createdAt
  {
  }

  lemma SameViewsOneWay(db: Db, db': Db, q: ClaimQuery, now: Time, maxAttempts: int, id: DocId)
    requires db'.docs.Keys == db.docs.Keys && IsNext(db, q, now, maxAttempts, id)
    requires forall other | other in db.docs :: ViewOf(db'.docs[other]) == ViewOf(db.docs[other])
    ensures IsNext(db', q, now, maxAttempts, id)
  {
    hide Claimable, ViewOf;
    SameViewSameClaims(q, db.docs[id], db'.docs[id], now, maxAttempts);
    forall other | other in db'.docs && Claimable(q, db'.docs[other], now, maxAttempts)
      ensures ClaimedBefore(db'.docs[id], db'.docs[other])
    {
      SameViewSameClaims(q, db.docs[other], db'.docs[other], now, maxAttempts);
    }
  }

  /** Two databases whose rows look the same to the claim queries give every query the same next document. */
  lemma ViewsDecideClaims(db: Db, db': Db, q: ClaimQuery, now: Time, maxAttempts: int, id: DocId)
    requires db'.docs.Keys == db.docs.Keys
    requires forall other | other in db.docs :: ViewOf(db'.docs[other]) == ViewOf(db.docs[other])
    ensures IsNext(db, q, now, maxAttempts, id) <==> IsNext(db', q, now, maxAttempts, id)
  {
    hide IsNext, ViewOf;
    if IsNext(db, q, now, maxAttempts, id) {
      SameViewsOneWay(db, db', q, now, maxAttempts, id);
    } else if IsNext(db', q, now, maxAttempts, id) {
      SameViewsOneWay(db', db, q, now, maxAttempts, id);
    }
  }

  // ---------------------------------------------------------------- when one turn sends a text PDF to OCR

  /** A scheduler turn asks for text work, and for OCR work only if that finds none; anything may commit in between. */
  predicate NoTextWork(w: World, maxAttempts: int) {
    forall id | id in w.db.docs :: !Claimable(ForText, w.db.docs[id], w.now, maxAttempts)
  }

  /** The step hands document `id` back to the queue. */
  predicate HandsBack(w: World, at: Time, step: Step, id: DocId) {
    (step.Requeued? || step.Released?) && step.id == id && Accepted(w, at, step)
  }

  predicate GivenBack(w: World, run: seq<Timed>, id: DocId) {
    run != [] &&
    var before, last := run[..|run| - 1], run[|run| - 1];
    GivenBack(w, before, id) || HandsBack(Exec(w, before), last.at, last.step, id)
  }

  /** The lease the document was under at `w` ends by `at`. */
  predicate LeasePasses(w: World, at: Time, id: DocId) {
    && id in w.db.docs && w.db.docs[id].status == Processing && w.db.docs[id].processingUntil.Some?
    && w.now < w.db.docs[id].processingUntil.value <= at
  }

  /** Not text work at `w`, text work at `at`, because it was submitted, was handed back, or its lease ended. */
  predicate BecameTextWork(w: World, between: seq<Timed>, at: Time, maxAttempts: int, id: DocId) {
    var w1 := Exec(w, between);
    && id in w1.db.docs && Claimable(ForText, w1.db.docs[id], at, maxAttempts)
    && (id in w.db.docs ==> !Claimable(ForText, w.db.docs[id], w.now, maxAttempts))
    && (id !in w.db.docs || GivenBack(w, between, id) || LeasePasses(w, at, id))
  }

  /** Neither queued nor handed back: finished, or still under its lease, or under one taken after that lease ended. */
  predicate StillHeld(w: World, d: Document, now: Time, id: DocId)
    requires id in w.db.docs
  {
    var d0 := w.db.docs[id];
    || Terminal(d.status)
    || (d.status == Processing && d0.status == Processing && d.processingUntil == d0.processingUntil && d.attemptCount == d0.attemptCount)
    || (d.status == Processing && LeasePasses(w, now, id))
  }

  lemma StepKeepsHeld(w: World, w1: World, at: Time, step: Step, maxAttempts: int, id: DocId)
    requires AttemptsSound(w1, maxAttempts) && Enabled(w1, at, step, maxAttempts)
    requires id in w.db.docs && !Reclaimable(w.db.docs[id], w.now, maxAttempts)
    requires id in w1.db.docs && StillHeld(w, w1.db.docs[id], w1.now, id) && !HandsBack(w1, at, step, id)
    ensures id in Next(w1, at, step).db.docs ==> StillHeld(w, Next(w1, at, step).db.docs[id], at, id)
  {
    RowAfterStep(w1, at, step, maxAttempts, id);
    hide AttemptsSound, Rewrites, NewRow, Next, HandsBack, Reclaimable;
    if Rewrites(w1.db, at, step) && RowOf(step) == Some(id) {
      HeldRowStaysHeld(w, w1, at, step, maxAttempts, id);
    }
  }

  lemma HeldRowStaysHeld(w: World, w1: World, at: Time, step: Step, maxAttempts: int, id: DocId)
    requires AttemptsSound(w1, maxAttempts) && Enabled(w1, at, step, maxAttempts)
    requires id in w.db.docs && !Reclaimable(w.db.docs[id], w.now, maxAttempts)
    requires id in w1.db.docs && StillHeld(w, w1.db.docs[id], w1.now, id) && !HandsBack(w1, at, step, id)
    requires Rewrites(w1.db, at, step) && RowOf(step) == Some(id)
    ensures StillHeld(w, NewRow(w1.db.docs[id], at, step), at, id)
  {
    DocsAfterStep(w1.db, at, step);
    hide Attempted, MatchesClaim, DocsNext;
    assert WithinBudget(w1.db.docs[id], maxAttempts);
  }

  lemma {:induction false} HeldUntilGivenBack(w: World, run: seq<Timed>, maxAttempts: int, id: DocId)
    requires AttemptsSound(w, maxAttempts) && ValidRun(w, run, maxAttempts) && !GivenBack(w, run, id)
    requires id in w.db.docs && w.db.docs[id].status != Queued && !Reclaimable(w.db.docs[id], w.now, maxAttempts)
    ensures AttemptsSound(Exec(w, run), maxAttempts) && id in Exec(w, run).created
    ensures id in Exec(w, run).db.docs ==> StillHeld(w, Exec(w, run).db.docs[id], Exec(w, run).now, id)
  {
    hide Next, Enabled, HandsBack, StillHeld, Reclaimable;
    if run == [] {
      HeldAtFirst(w, maxAttempts, id);
    } else {
      var before, last := run[..|run| - 1], run[|run| - 1];
      HeldUntilGivenBack(w, before, maxAttempts, id);
      var w1 := Exec(w, before);
      StepKeepsAttempts(w1, last.at, last.step, maxAttempts);
      assert Next(w1, last.at, last.step).now == last.at by { NextTime(w1, last.at, last.step); }
      if id in w1.db.docs {
        StepKeepsHeld(w, w1, last.at, last.step, maxAttempts, id);
        CreatedStays(w1, last.at, last.step, maxAttempts, id);
      } else {
        StepKeepsDeleted(w1, last.at, last.step, maxAttempts, id);
      }
    }
  }

  lemma NextTime(w: World, at: Time, step: Step)
    ensures Next(w, at, step).now == at
  {
  }

  lemma CreatedStays(w: World, at: Time, step: Step, maxAttempts: int, id: DocId)
    requires AttemptsSound(w, maxAttempts) && Enabled(w, at, step, maxAttempts) && id in w.db.docs
    ensures id in Next(w, at, step).created
  {
    if step.Submitted? && Accepted(w, at, step) {
      SubmittedRows(w, at, step, maxAttempts, id);
    }
    hide Attempted;
  }

  lemma HeldAtFirst(w: World, maxAttempts: int, id: DocId)
    requires AttemptsSound(w, maxAttempts) && id in w.db.docs && w.db.docs[id].status != Queued
    ensures id in w.created && StillHeld(w, w.db.docs[id], w.now, id)
  {
  }

  /** What a document is stays as submitted. */
  predicate SameType(d: Document, d0: Document) { d.contentType == d0.contentType && d.mode == d0.mode }

  lemma StepKeepsType(w: World, at: Time, step: Step, maxAttempts: int, id: DocId)
    requires AttemptsSound(w, maxAttempts) && Enabled(w, at, step, maxAttempts) && id in w.db.docs
    ensures id in Next(w, at, step).db.docs ==> SameType(Next(w, at, step).db.docs[id], w.db.docs[id])
  {
    RowAfterStep(w, at, step, maxAttempts, id);
    hide AttemptsSound, Enabled, Rewrites, Next;
  }

  lemma {:induction false} TypeStays(w: World, run: seq<Timed>, maxAttempts: int, id: DocId)
    requires AttemptsSound(w, maxAttempts) && ValidRun(w, run, maxAttempts) && id in w.db.docs
    ensures AttemptsSound(Exec(w, run), maxAttempts) && id in Exec(w, run).created
    ensures id in Exec(w, run).db.docs ==> SameType(Exec(w, run).db.docs[id], w.db.docs[id])
  {
    hide Next, Enabled, AttemptsSound;
    if run == [] {
      CreatedCoversDocs(w, maxAttempts, id);
    } else {
      var before, last := run[..|run| - 1], run[|run| - 1];
      TypeStays(w, before, maxAttempts, id);
      var w1 := Exec(w, before);
      StepKeepsAttempts(w1, last.at, last.step, maxAttempts);
      if id in w1.db.docs {
        StepKeepsType(w1, last.at, last.step, maxAttempts, id);
        CreatedStays(w1, last.at, last.step, maxAttempts, id);
      } else {
        StepKeepsDeleted(w1, last.at, last.step, maxAttempts, id);
      }
    }
  }

  lemma ClaimTakes(w: World, at: Time, step: Step, maxAttempts: int)
    requires Enabled(w, at, step, maxAttempts) && step.Claimed?
    ensures w.now <= at && step.id in w.db.docs && Claimable(step.query, w.db.docs[step.id], at, maxAttempts)
  {
  }

  lemma NoSteps(w: World, run: seq<Timed>)
    requires run == []
    ensures Exec(w, run) == w && forall id :: !GivenBack(w, run, id)
  {
  }

  /**
   One turn: its text query finds nothing, anything may commit meanwhile, and then it makes an OCR claim. The
   document it takes is text-eligible if and only if it became text work in between: it was submitted or handed
   back, or its lease ended. So without such a change no text-eligible PDF goes to OCR.
   */
  lemma TurnSendsTextPdfToOcrExactly(w: World, between: seq<Timed>, at: Time, step: Step, maxAttempts: int)
    requires AttemptsSound(w, maxAttempts) && NoTextWork(w, maxAttempts) && ValidRun(w, between, maxAttempts)
    requires Enabled(Exec(w, between), at, step, maxAttempts) && step.Claimed? && !step.query.ForText?
    ensures TextEligible(Exec(w, between).db.docs[step.id]) <==> BecameTextWork(w, between, at, maxAttempts, step.id)
    ensures between == [] && at == w.now ==> !TextEligible(w.db.docs[step.id])
  {
    var id, d := step.id, Exec(w, between).db.docs[step.id];
    hide AttemptsSound, ValidRun, Exec, IsNext, GivenBack;
    ClaimTakes(Exec(w, between), at, step, maxAttempts);
    hide Enabled;
    if TextEligible(d) && id in w.db.docs && !GivenBack(w, between, id) {
      TypeStays(w, between, maxAttempts, id);
      HeldUntilGivenBack(w, between, maxAttempts, id);
    }
    if between == [] {
      NoSteps(w, between);
    }
  }

  // ---------------------------------------------------------------- the bounce

  /** Claim for text and release for the OCR fallback, once per attempt in the list. */
  function BounceRun(id: DocId, attempts: seq<AttemptId>, start: Time, lease: int): seq<Timed> {
    if attempts == [] then []
    else
      var last := attempts[|attempts| - 1];
      BounceRun(id, attempts[..|attempts| - 1], start, lease)
      + [Timed(start, Claimed(id, ForText, last, lease)), Timed(start, Released(id, last))]
  }

  lemma RunExtended(w: World, run: seq<Timed>, t: Timed, maxAttempts: int)
    ensures Exec(w, run + [t]) == Next(Exec(w, run), t.at, t.step)
    ensures ValidRun(w, run + [t], maxAttempts) <==> ValidRun(w, run, maxAttempts) && Enabled(Exec(w, run), t.at, t.step, maxAttempts)
    ensures ReleaseSteps(w, run + [t]) == ReleaseSteps(w, run) + if Releasing(Exec(w, run), t.at, t.step) then 1 else 0
  {
    hide Next, Enabled, Releasing;
    assert (run + [t])[..|run|] == run;
  }

  /** An auto-mode PDF waits at the head of the text queue with its attempt budget intact. */
  predicate AtHead(w: World, id: DocId, maxAttempts: int) {
    && maxAttempts > 0
    && IsNext(w.db, ForText, w.now, maxAttempts, id)
    && w.db.docs[id].mode in {"", "auto"}
    && w.db.docs[id].status == Queued && w.db.docs[id].processingUntil.None?
    && WithinBudget(w.db.docs[id], maxAttempts)
  }

  /** Nothing the claim queries read has changed between two worlds; only `used` attempt names are spent. */
  ghost predicate NetNoOp(w: World, w': World, used: set<AttemptId>) {
    && w'.now == w.now
    && w'.claims.Keys == w.claims.Keys + used
    && w'.db.docs.Keys == w.db.docs.Keys
    && forall other | other in w.db.docs :: ViewOf(w'.db.docs[other]) == ViewOf(w.db.docs[other])
  }

  /** One round: the claim succeeds, the release succeeds, and no claim query can tell the difference. */
  lemma OneBounce(w: World, id: DocId, attempt: AttemptId, lease: int, maxAttempts: int)
    requires lease > 0 && AtHead(w, id, maxAttempts) && attempt != "" && attempt !in w.claims
    ensures Enabled(w, w.now, Claimed(id, ForText, attempt, lease), maxAttempts)
    ensures var w1 := Next(w, w.now, Claimed(id, ForText, attempt, lease));
            && Enabled(w1, w.now, Released(id, attempt), maxAttempts)
            && Releasing(w1, w.now, Released(id, attempt))
            && var w2 := Next(w1, w.now, Released(id, attempt));
               NetNoOp(w, w2, {attempt}) && AtHead(w2, id, maxAttempts)
  {
    var w1 := Next(w, w.now, Claimed(id, ForText, attempt, lease));
    var w2 := Next(w1, w.now, Released(id, attempt));
    assert NetNoOp(w, w2, {attempt});
    ViewsDecideClaims(w.db, w2.db, ForText, w.now, maxAttempts, id);
  }

  /**
   The fallback is not guaranteed: for every number of rounds there is a valid run in which a scanned
   auto-mode PDF at the head of the queue is claimed for text and given back that many times, and is
   then exactly as claimable as before, with no attempt used and OCR never reached.
   */
  lemma {:induction false} TextBouncesForever(w: World, id: DocId, attempts: seq<AttemptId>, lease: int, maxAttempts: int)
    requires lease > 0 && AtHead(w, id, maxAttempts)
    requires forall i | 0 <= i < |attempts| :: attempts[i] != "" && attempts[i] !in w.claims
    requires forall i, j | 0 <= i < j < |attempts| :: attempts[i] != attempts[j]
    ensures ValidRun(w, BounceRun(id, attempts, w.now, lease), maxAttempts)
    ensures ReleaseSteps(w, BounceRun(id, attempts, w.now, lease)) == |attempts|
    ensures NetNoOp(w, Exec(w, BounceRun(id, attempts, w.now, lease)), set a | a in attempts)
    ensures AtHead(Exec(w, BounceRun(id, attempts, w.now, lease)), id, maxAttempts)
  {
    hide Next, Enabled, AtHead, Releasing, ViewOf;
    if attempts != [] {
      hide Exec, ValidRun, ReleaseSteps;
      var before, last := attempts[..|attempts| - 1], attempts[|attempts| - 1];
      TextBouncesForever(w, id, before, lease, maxAttempts);
      var run := BounceRun(id, before, w.now, lease);
      var w0 := Exec(w, run);
      OneBounce(w0, id, last, lease, maxAttempts);
      var a, b := Timed(w.now, Claimed(id, ForText, last, lease)), Timed(w.now, Released(id, last));
      RunExtendedTwice(w, run, a, b, maxAttempts);
      NetNoOpComposes(w, w0, Exec(w, run + [a, b]), before, last);
      assert before + [last] == attempts;
    }
  }

  /**
   A turn that does send a text PDF to OCR: the text query comes while the extractor holds the document, the
   extractor hands it back, and the OCR claim of the same turn takes it.
   */
  lemma HandedBackInsideTurn(w: World, id: DocId, textAttempt: AttemptId, query: ClaimQuery, attempt: AttemptId, lease: int, maxAttempts: int)
    requires AtHead(w, id, maxAttempts) && IsNext(w.db, query, w.now, maxAttempts, id) && !query.ForText?
    requires forall other | other in w.db.docs && other != id :: !Claimable(ForText, w.db.docs[other], w.now, maxAttempts)
    requires ValidClaim(query, attempt, lease, maxAttempts) && textAttempt != "" && textAttempt != attempt
    requires attempt !in w.claims && textAttempt !in w.claims
    ensures var extraction := Claimed(id, ForText, textAttempt, lease);
            var back, claim := Timed(w.now, Released(id, textAttempt)), Claimed(id, query, attempt, lease);
            var w1 := Next(w, w.now, extraction);
            && Enabled(w, w.now, extraction, maxAttempts)
            && NoTextWork(w1, maxAttempts) && ValidRun(w1, [back], maxAttempts) && GivenBack(w1, [back], id)
            && Enabled(Exec(w1, [back]), w.now, claim, maxAttempts)
            && TextEligible(Exec(w1, [back]).db.docs[id])
  {
    var extraction := Claimed(id, ForText, textAttempt, lease);
    var back := Timed(w.now, Released(id, textAttempt));
    var w1 := Next(w, w.now, extraction);
    OneBounce(w, id, textAttempt, lease, maxAttempts);
    var w2 := Next(w1, w.now, back.step);
    assert Exec(w1, [back]) == w2 && ValidRun(w1, [back], maxAttempts) by { SingleStep(w1, back, maxAttempts); }
    ViewsDecideClaims(w.db, w2.db, query, w.now, maxAttempts, id);
    assert NoTextWork(w1, maxAttempts);
    assert ViewOf(w2.db.docs[id]) == ViewOf(w.db.docs[id]);
  }

  lemma SingleStep(w: World, t: Timed, maxAttempts: int)
    requires Enabled(w, t.at, t.step, maxAttempts)
    ensures Exec(w, [t]) == Next(w, t.at, t.step) && ValidRun(w, [t], maxAttempts)
  {
    hide Next, Enabled;
    assert [t][..0] == [];
  }

  lemma RunExtendedTwice(w: World, run: seq<Timed>, a: Timed, b: Timed, maxAttempts: int)
    requires ValidRun(w, run, maxAttempts) && Enabled(Exec(w, run), a.at, a.step, maxAttempts) && !a.step.Released?
    requires Enabled(Next(Exec(w, run), a.at, a.step), b.at, b.step, maxAttempts)
    requires Releasing(Next(Exec(w, run), a.at, a.step), b.at, b.step)
    ensures ValidRun(w, run + [a, b], maxAttempts)
    ensures Exec(w, run + [a, b]) == Next(Next(Exec(w, run), a.at, a.step), b.at, b.step)
    ensures ReleaseSteps(w, run + [a, b]) == ReleaseSteps(w, run) + 1
  {
    hide Next, Enabled, Exec, ValidRun, ReleaseSteps;
    RunExtended(w, run, a, maxAttempts);
    RunExtended(w, run + [a], b, maxAttempts);
    assert run + [a] + [b] == run + [a, b];
  }

  lemma NetNoOpComposes(w: World, w1: World, w2: World, used: seq<AttemptId>, last: AttemptId)
    requires NetNoOp(w, w1, set a | a in used) && NetNoOp(w1, w2, {last})
    ensures NetNoOp(w, w2, set a | a in used + [last])
  {
    assert (set a | a in used + [last]) == (set a | a in used) + {last};
  }
}
