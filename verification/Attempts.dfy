/** Claims, leases and the attempt budget, over every run. */
module Attempts {
  import opened Wrappers
  import opened Tables
  import opened Ledger
  import opened Lifecycle

  ghost predicate Latest(claims: map<AttemptId, ClaimRecord>, a: AttemptId)
    requires a in claims
  {
    forall b | b in claims && claims[b].document == claims[a].document :: claims[b].serial <= claims[a].serial
  }

  /** The attempt column names the document's latest claim, and the row agrees with what the claimer was told. */
  ghost predicate MatchesClaim(d: Document, id: DocId, claims: map<AttemptId, ClaimRecord>) {
    d.attempt.Some? ==>
      var a := d.attempt.value;
      && a in claims && claims[a].document == id && Latest(claims, a)
      && claims[a].count == d.attemptCount
      && (d.status == Processing ==> d.processingUntil == Some(claims[a].until))
  }

  /** The attempt budget: a queued document always has an attempt left, though claims of queued rows never check. */
  predicate WithinBudget(d: Document, maxAttempts: int) {
    match d.status
    case Queued => d.attempt.None? && 0 <= d.attemptCount < maxAttempts
    case Processing => d.attempt.Some? && d.processingUntil.Some? && 1 <= d.attemptCount <= maxAttempts
    case Cancelled => d.attempt.None?
    case _ => d.attempt.Some? && 1 <= d.attemptCount <= maxAttempts
  }

  ghost predicate AttemptsSound(w: World, maxAttempts: int) {
    && maxAttempts > 0
    && (forall id | id in w.db.docs ::
          && WithinBudget(w.db.docs[id], maxAttempts)
          && MatchesClaim(w.db.docs[id], id, w.claims)
          && id in w.created && w.created[id] == w.db.docs[id].user)
    && (forall a | a in w.claims :: w.claims[a].serial < w.serial)
  }

  lemma {:induction false} AddCreatedEntries(created: map<DocId, UserId>, user: UserId, docs: seq<NewDocument>, n: nat)
    requires n <= |docs|
    requires forall i | 0 <= i < |docs| :: docs[i].user == user && docs[i].id !in created
    ensures forall id | id in created :: id in AddCreated(created, docs, n) && AddCreated(created, docs, n)[id] == created[id]
    ensures forall i | 0 <= i < n :: docs[i].id in AddCreated(created, docs, n) && AddCreated(created, docs, n)[docs[i].id] == user
    ensures forall id | id in AddCreated(created, docs, n) && id !in created :: exists i | 0 <= i < n :: docs[i].id == id
  {
    if n > 0 {
      AddCreatedEntries(created, user, docs, n - 1);
    }
  }

  /** After an accepted submission: old rows as they were, new rows queued, and everyone on record as created. */
  lemma SubmittedRows(w: World, at: Time, step: Step, maxAttempts: int, id: DocId)
    requires Enabled(w, at, step, maxAttempts) && step.Submitted? && Accepted(w, at, step)
    ensures var docs' := DocsNext(w.db, at, step);
            && (id in w.db.docs ==> id in docs' && docs'[id] == w.db.docs[id])
            && (id in docs' && id !in w.db.docs ==>
                  exists i | 0 <= i < |step.docs| :: step.docs[i].id == id && docs'[id] == QueuedRow(step.docs[i], at))
    ensures var created' := AddCreated(w.created, step.docs, |step.docs|);
            && (id in w.created ==> id in created' && created'[id] == w.created[id])
            && (id in DocsNext(w.db, at, step) && id !in w.db.docs ==> id in created' && created'[id] == DocsNext(w.db, at, step)[id].user)
  {
    assert forall i | 0 <= i < |step.docs| :: step.docs[i] in step.docs && step.docs[i].id !in w.created;
    DocsAfterStep(w.db, at, step);
    AcceptedItems(w.db, step.user, step.docs, at);
    hide Attempted, Enabled, FirstProblem, QueuedRow;
    AddCreatedEntries(w.created, step.user, step.docs, |step.docs|);
    if id in w.db.docs {
      InsertKeepsOthers(w.db.docs, step.docs, |step.docs|, at, id);
    } else if id in DocsNext(w.db, at, step) {
      InsertedRows(w.db.docs, step.docs, |step.docs|, at, id);
      var i :| 0 <= i < |step.docs| && step.docs[i].id == id && DocsNext(w.db, at, step)[id] == QueuedRow(step.docs[i], at);
      QueuedRowIs(step.docs[i], at);
    }
  }

  lemma QueuedRowIs(d: NewDocument, at: Time)
    ensures var row := QueuedRow(d, at);
            row.user == d.user && row.status == Queued && row.attempt == None && row.attemptCount == 0
  {
  }

  lemma SubmitKeepsAttempts(w: World, at: Time, step: Step, maxAttempts: int)
    requires Enabled(w, at, step, maxAttempts) && AttemptsSound(w, maxAttempts) && step.Submitted?
    ensures AttemptsSound(Next(w, at, step), maxAttempts)
  {
    DocsAfterStep(w.db, at, step);
    hide Attempted, Latest, QueuedRow, Enabled, DocsNext;
    if Accepted(w, at, step) {
      var docs' := DocsNext(w.db, at, step);
      forall id | id in docs'
        ensures WithinBudget(docs'[id], maxAttempts) && MatchesClaim(docs'[id], id, w.claims)
        ensures id in Next(w, at, step).created && Next(w, at, step).created[id] == docs'[id].user
      {
        SubmittedRows(w, at, step, maxAttempts, id);
        if id !in w.db.docs {
          var i :| 0 <= i < |step.docs| && step.docs[i].id == id && docs'[id] == QueuedRow(step.docs[i], at);
          QueuedRowIs(step.docs[i], at);
        }
      }
    } else {
      assert DocsNext(w.db, at, step) == w.db.docs by { RefusedLeavesDocs(w, at, step); }
    }
  }

  lemma RefusedLeavesDocs(w: World, at: Time, step: Step)
    requires step.Submitted? && !Accepted(w, at, step)
    ensures DocsNext(w.db, at, step) == w.db.docs
  {
    hide Attempted;
  }

  lemma {:induction false} InsertKeepsOthers(table: map<DocId, Document>, docs: seq<NewDocument>, n: nat, now: Time, id: DocId)
    requires n <= |docs| && id in table
    requires forall i | 0 <= i < |docs| :: docs[i].id != id
    ensures id in InsertDocs(table, docs, n, now) && InsertDocs(table, docs, n, now)[id] == table[id]
  {
    if n > 0 {
      InsertKeepsOthers(table, docs, n - 1, now, id);
    }
  }

  /** The new claim becomes its document's latest; every other document keeps its own. */
  lemma ClaimKeepsAttempts(w: World, at: Time, step: Step, maxAttempts: int)
    requires Enabled(w, at, step, maxAttempts) && AttemptsSound(w, maxAttempts) && step.Claimed?
    ensures AttemptsSound(Next(w, at, step), maxAttempts)
  {
    DocsAfterStep(w.db, at, step);
    hide Attempted;
    var w' := Next(w, at, step);
    forall id | id in w'.db.docs
      ensures MatchesClaim(w'.db.docs[id], id, w'.claims)
    {
      assert id != step.id ==> MatchesClaim(w.db.docs[id], id, w.claims);
    }
  }

  lemma RewrittenRowSound(w: World, at: Time, step: Step, maxAttempts: int)
    requires Enabled(w, at, step, maxAttempts) && AttemptsSound(w, maxAttempts) && !step.Claimed?
    requires Rewrites(w.db, at, step)
    ensures var id := RowOf(step).value;
            var row := NewRow(w.db.docs[id], at, step);
            WithinBudget(row, maxAttempts) && MatchesClaim(row, id, w.claims) && row.user == w.db.docs[id].user
  {
    DocsAfterStep(w.db, at, step);
    hide Attempted, Latest, Next;
  }

  /** What one step can do to a row: drop it, leave it, or rewrite it. */
  lemma RowAfterStep(w: World, at: Time, step: Step, maxAttempts: int, id: DocId)
    requires AttemptsSound(w, maxAttempts) && Enabled(w, at, step, maxAttempts) && id in w.db.docs
    ensures var docs' := Next(w, at, step).db.docs;
            || id !in docs'
            || docs'[id] == w.db.docs[id]
            || (Rewrites(w.db, at, step) && RowOf(step) == Some(id) && docs'[id] == NewRow(w.db.docs[id], at, step))
  {
    DocsAfterStep(w.db, at, step);
    if step.Submitted? && Accepted(w, at, step) {
      SubmittedRows(w, at, step, maxAttempts, id);
      hide Attempted, DocsNext, MatchesClaim, Enabled;
    } else {
      hide Attempted, AttemptsSound, Enabled, Rewrites, NewRow, ClaimsNext, CreatedNext, RefundedNext, ConcludedNext, KeysNext;
    }
  }

  lemma StepKeepsAttempts(w: World, at: Time, step: Step, maxAttempts: int)
    requires Enabled(w, at, step, maxAttempts) && AttemptsSound(w, maxAttempts)
    ensures AttemptsSound(Next(w, at, step), maxAttempts)
  {
    hide Enabled, AttemptsSound, Next;
    if step.Submitted? {
      SubmitKeepsAttempts(w, at, step, maxAttempts);
    } else if step.Claimed? {
      ClaimKeepsAttempts(w, at, step, maxAttempts);
    } else {
      OtherStepKeepsAttempts(w, at, step, maxAttempts);
    }
  }

  lemma OtherStepKeepsAttempts(w: World, at: Time, step: Step, maxAttempts: int)
    requires Enabled(w, at, step, maxAttempts) && AttemptsSound(w, maxAttempts) && !step.Submitted? && !step.Claimed?
    ensures AttemptsSound(Next(w, at, step), maxAttempts)
  {
    hide Enabled, RefundedNext, ConcludedNext, KeysNext, Attempted, Latest, WithinBudget, MatchesClaim, NewRow;
    DocsAfterStep(w.db, at, step);
    if Rewrites(w.db, at, step) {
      RewrittenRowSound(w, at, step, maxAttempts);
    }
  }

  lemma {:induction false} AttemptsSoundInEveryRun(w: World, run: seq<Timed>, maxAttempts: int)
    requires Initial(w) && ValidRun(w, run, maxAttempts) && maxAttempts > 0
    ensures AttemptsSound(Exec(w, run), maxAttempts)
  {
    if run != [] {
      AttemptsSoundInEveryRun(w, run[..|run| - 1], maxAttempts);
      StepKeepsAttempts(Exec(w, run[..|run| - 1]), run[|run| - 1].at, run[|run| - 1].step, maxAttempts);
    }
  }

  /** A lease that has passed is either reclaimable or exhausted, never both and never neither. */
  lemma ExpiredLeasePartition(w: World, run: seq<Timed>, maxAttempts: int, id: DocId, now: Time)
    requires Initial(w) && ValidRun(w, run, maxAttempts) && maxAttempts > 0
    requires id in Exec(w, run).db.docs && Exec(w, run).db.docs[id].status == Processing
    ensures var d := Exec(w, run).db.docs[id];
            && d.processingUntil.Some?
            && (d.processingUntil.value <= now <==> Reclaimable(d, now, maxAttempts) || Exhausted(d, now, maxAttempts))
            && !(Reclaimable(d, now, maxAttempts) && Exhausted(d, now, maxAttempts))
            && (Exhausted(d, now, maxAttempts) ==> d.attemptCount == maxAttempts)
  {
    AttemptsSoundInEveryRun(w, run, maxAttempts);
  }
}
