/**
 The storage ledger. The account counters are maintained incrementally by every transaction; the
 schema migration defines them from scratch as sums over the tables. These lemmas show that both
 agree after every transaction, and that the quota is a guarantee to whoever holds a reservation.
 */
module Ledger {
  import opened Wrappers
  import opened Sums
  import opened Tables
  import opened Batches

  /** What a document row charges to user `u`. */
  ghost function ChargeTo(u: UserId): Document -> int {
    (d: Document) => if d.user == u && d.inputKey.Some? then d.inputSize else 0
  }

  /** What a reservation row holds for user `u`. */
  ghost function HoldFor(u: UserId): Reservation -> int {
    (r: Reservation) => if r.user == u && r.state == Reserved then r.size else 0
  }

  /** SUM(input_size_bytes) over the user's documents whose input_key is not null. */
  ghost function UsedBytes(docs: map<DocId, Document>, u: UserId): int { Sum(docs, ChargeTo(u)) }

  /** SUM(size_bytes) over the user's reservations in state 'reserved'. */
  ghost function ReservedBytes(reservations: map<Key, Reservation>, u: UserId): int { Sum(reservations, HoldFor(u)) }

  ghost predicate CountersExact(db: Db) {
    forall u | u in db.accounts :: CountersOf(db.accounts[u], db.docs, db.reservations, u)
  }

  ghost predicate CountersOf(a: Account, docs: map<DocId, Document>, reservations: map<Key, Reservation>, u: UserId) {
    a.storageUsed == UsedBytes(docs, u) && a.storageReserved == ReservedBytes(reservations, u)
  }

  predicate WithinQuota(a: Account) {
    a.storageQuota >= 0 && (a.storageQuota > 0 ==> a.storageUsed + a.storageReserved <= a.storageQuota)
  }

  predicate RowsSound(users: set<UserId>, docs: map<DocId, Document>, reservations: map<Key, Reservation>) {
    && (forall id | id in docs :: docs[id].inputSize > 0 && docs[id].user in users)
    && (forall k | k in reservations :: reservations[k].size > 0 && reservations[k].user in users)
  }

  /** Exact counters, sound rows, and no account over its storage quota. */
  ghost predicate Balanced(db: Db) {
    && RowsSound(db.accounts.Keys, db.docs, db.reservations)
    && CountersExact(db)
    && forall u | u in db.accounts :: WithinQuota(db.accounts[u])
  }

  // ---------------------------------------------------------------- how the sums move

  lemma {:induction false} UsedAfterInsert(table: map<DocId, Document>, user: UserId, docs: seq<NewDocument>, n: nat, now: Time, u: UserId)
    requires n <= |docs| && NewIds(table, docs)
    requires forall i | 0 <= i < n :: docs[i].user == user
    ensures UsedBytes(InsertDocs(table, docs, n, now), u) == UsedBytes(table, u) + (if u == user then InputBytes(docs, n) else 0)
  {
    if n > 0 {
      var before := InsertDocs(table, docs, n - 1, now);
      UsedAfterInsert(table, user, docs, n - 1, now, u);
      if docs[n - 1].id in before {
        InsertedRows(table, docs, n - 1, now, docs[n - 1].id);
      }
      SumUpdate(before, ChargeTo(u), docs[n - 1].id, QueuedRow(docs[n - 1], now));
    }
  }

  lemma {:induction false} ReservedAfterConsume(table: map<Key, Reservation>, user: UserId, cs: seq<Consumption>, u: UserId)
    requires SoundConsumptions(table, cs)
    requires forall c | c in cs :: table[c.key].user == user
    ensures ReservedBytes(ConsumeAll(table, cs), u) == ReservedBytes(table, u) - (if u == user then ConsumedBytes(cs) else 0)
  {
    if cs != [] {
      var before, c := cs[..|cs| - 1], cs[|cs| - 1];
      ReservedAfterConsume(table, user, before, u);
      ConsumeAllElsewhere(table, before, c.key);
      var t := ConsumeAll(table, before);
      SumUpdate(t, HoldFor(u), c.key, t[c.key].(state := Consumed, documentId := Some(c.document)));
    }
  }

  lemma {:induction false} HoldsNonNegative(table: map<Key, Reservation>, u: UserId)
    requires forall k | k in table :: table[k].size > 0
    ensures ReservedBytes(table, u) >= 0
  {
    SumNonNegative(table, HoldFor(u));
  }

  // ---------------------------------------------------------------- submission

  lemma {:induction false} AcceptedItems(db: Db, user: UserId, docs: seq<NewDocument>, now: Time)
    requires FirstProblem(db, user, docs, |docs|, now).None?
    ensures forall i | 0 <= i < |docs| ::
              ItemProblem(db, user, docs, i, now).None? && docs[i].user == user && docs[i].inputSize > 0
  {
    forall i | 0 <= i < |docs|
      ensures ItemProblem(db, user, docs, i, now).None? && docs[i].user == user && docs[i].inputSize > 0
    {
      NoProblemBefore(db, user, docs, |docs|, i, now);
    }
  }

  /** What a checked batch consumes is there to be consumed: the "counter is inconsistent" branch never runs. */
  lemma ConsumedIsReserved(db: Db, user: UserId, docs: seq<NewDocument>, now: Time)
    requires RowsSound(db.accounts.Keys, db.docs, db.reservations) && user in db.accounts
    requires FirstProblem(db, user, docs, |docs|, now).None?
    ensures ConsumedBytes(Consumptions(db, user, docs, |docs|)) <= ReservedBytes(db.reservations, user)
  {
    var cs := Consumptions(db, user, docs, |docs|);
    AcceptedConsumptions(db, user, docs, |docs|, now);
    ReservedAfterConsume(db.reservations, user, cs, user);
    ConsumeAllKeepsSizes(db.reservations, cs);
    HoldsNonNegative(ConsumeAll(db.reservations, cs), user);
  }

  lemma {:induction false} ConsumeAllKeepsSizes(table: map<Key, Reservation>, cs: seq<Consumption>)
    ensures ConsumeAll(table, cs).Keys == table.Keys
    ensures forall k | k in table ::
              ConsumeAll(table, cs)[k].size == table[k].size && ConsumeAll(table, cs)[k].user == table[k].user
  {
    if cs != [] {
      ConsumeAllKeepsSizes(table, cs[..|cs| - 1]);
    }
  }

  lemma {:induction false} InsertedRows(table: map<DocId, Document>, docs: seq<NewDocument>, n: nat, now: Time, id: DocId)
    requires n <= |docs|
    requires id in InsertDocs(table, docs, n, now)
    ensures var row := InsertDocs(table, docs, n, now)[id];
            (id in table && row == table[id]) || exists i | 0 <= i < n :: docs[i].id == id && row == QueuedRow(docs[i], now)
  {
    if n > 0 && docs[n - 1].id != id {
      InsertedRows(table, docs, n - 1, now, id);
    }
  }

  lemma SubmitMovesCounters(db: Db, user: UserId, docs: seq<NewDocument>, now: Time, u: UserId)
    requires Balanced(db) && SubmitError(db, user, docs, now).None? && u in db.accounts
    ensures UsedBytes(InsertDocs(db.docs, docs, |docs|, now), u)
            == UsedBytes(db.docs, u) + if u == user then InputBytes(docs, |docs|) else 0
    ensures var cs := Consumptions(db, user, docs, |docs|);
            ReservedBytes(ConsumeAll(db.reservations, cs), u)
            == ReservedBytes(db.reservations, u) - if u == user then ConsumedBytes(cs) else 0
  {
    hide UsedBytes, ReservedBytes, CountersExact, WithinQuota, RowsSound;
    AcceptedItems(db, user, docs, now);
    AcceptedConsumptions(db, user, docs, |docs|, now);
    UsedAfterInsert(db.docs, user, docs, |docs|, now, u);
    ReservedAfterConsume(db.reservations, user, Consumptions(db, user, docs, |docs|), u);
  }

  lemma SubmitKeepsRowsSound(db: Db, user: UserId, docs: seq<NewDocument>, now: Time)
    requires Balanced(db) && SubmitError(db, user, docs, now).None?
    ensures RowsSound(db.accounts.Keys, InsertDocs(db.docs, docs, |docs|, now), ConsumeAll(db.reservations, Consumptions(db, user, docs, |docs|)))
  {
    hide UsedBytes, ReservedBytes, CountersExact, WithinQuota;
    AcceptedItems(db, user, docs, now);
    ConsumeAllKeepsSizes(db.reservations, Consumptions(db, user, docs, |docs|));
    var docs' := InsertDocs(db.docs, docs, |docs|, now);
    forall id | id in docs'
      ensures docs'[id].inputSize > 0 && docs'[id].user in db.accounts
    {
      InsertedRows(db.docs, docs, |docs|, now, id);
    }
  }

  lemma SubmitKeepsBalance(db: Db, user: UserId, docs: seq<NewDocument>, now: Time)
    requires Balanced(db)
    ensures Balanced(CreateManyWithQuota(db, user, docs, now).db)
    ensures CreateManyWithQuota(db, user, docs, now).error != Some(Conflict)
  {
    if user in db.accounts && FirstProblem(db, user, docs, |docs|, now).None? {
      ConsumedIsReserved(db, user, docs, now);
    }
    if user in db.accounts {
      SubmitNeverConflicts(db, user, docs, |docs|, now);
    }
    hide FirstProblem, UsedBytes, ReservedBytes, InputBytes, ConsumedBytes, Consumptions, InsertDocs, ConsumeAll, NewIds;
    if SubmitError(db, user, docs, now).None? {
      SubmitKeepsRowsSound(db, user, docs, now);
      forall u | u in db.accounts
        ensures CountersOf(SubmitAccount(db, user, docs, u), InsertDocs(db.docs, docs, |docs|, now),
                           ConsumeAll(db.reservations, Consumptions(db, user, docs, |docs|)), u)
        ensures WithinQuota(SubmitAccount(db, user, docs, u))
      {
        SubmitAccountBalanced(db, user, docs, now, u);
      }
      SubmittedAccounts(db, user, docs, now);
      hide RowsSound, CountersOf, WithinQuota, SubmitAccount, SubmitError, CreateManyWithQuota;
    }
  }

  function SubmitAccount(db: Db, user: UserId, docs: seq<NewDocument>, u: UserId): Account
    requires u in db.accounts
  {
    var a := db.accounts[u];
    if u == user then
      a.(docUsed := a.docUsed + |docs|, storageUsed := a.storageUsed + InputBytes(docs, |docs|),
         storageReserved := a.storageReserved - ConsumedBytes(Consumptions(db, user, docs, |docs|)))
    else a
  }

  lemma SubmittedAccounts(db: Db, user: UserId, docs: seq<NewDocument>, now: Time)
    requires SubmitError(db, user, docs, now).None?
    ensures var db' := CreateManyWithQuota(db, user, docs, now).db;
            && db'.docs == InsertDocs(db.docs, docs, |docs|, now)
            && db'.reservations == ConsumeAll(db.reservations, Consumptions(db, user, docs, |docs|))
            && db'.accounts.Keys == db.accounts.Keys
            && forall u | u in db.accounts :: db'.accounts[u] == SubmitAccount(db, user, docs, u)
  {
    hide FirstProblem, InputBytes, ConsumedBytes, Consumptions, InsertDocs, ConsumeAll, NewIds;
  }

  lemma SubmitAccountBalanced(db: Db, user: UserId, docs: seq<NewDocument>, now: Time, u: UserId)
    requires Balanced(db) && SubmitError(db, user, docs, now).None? && u in db.accounts
    ensures CountersOf(SubmitAccount(db, user, docs, u), InsertDocs(db.docs, docs, |docs|, now),
                       ConsumeAll(db.reservations, Consumptions(db, user, docs, |docs|)), u)
    ensures WithinQuota(SubmitAccount(db, user, docs, u))
  {
    SubmitMovesCounters(db, user, docs, now, u);
    hide FirstProblem, UsedBytes, ReservedBytes, InputBytes, ConsumedBytes, Consumptions, InsertDocs, ConsumeAll, NewIds, RowsSound;
  }

  lemma {:induction false} SubmitNeverConflicts(db: Db, user: UserId, docs: seq<NewDocument>, n: nat, now: Time)
    requires n <= |docs|
    ensures FirstProblem(db, user, docs, n, now) in {None, Some(BadParamInput), Some(InvalidURL)}
  {
    if n > 0 {
      SubmitNeverConflicts(db, user, docs, n - 1, now);
    }
  }

  /** Bytes of the batch that no reservation covers. */
  function UnreservedBytes(db: Db, user: UserId, docs: seq<NewDocument>): int {
    InputBytes(docs, |docs|) - ConsumedBytes(Consumptions(db, user, docs, |docs|))
  }

  function Headroom(a: Account): int { a.storageQuota - (a.storageUsed + a.storageReserved) }

  /**
   A reservation is a guarantee. A batch that passes the earlier checks is refused for storage exactly
   when the bytes no reservation covers exceed what is neither used nor reserved; so a batch made of
   reserved uploads only is never refused for storage.
   */
  lemma StorageRefusalExactly(db: Db, user: UserId, docs: seq<NewDocument>, now: Time)
    requires Balanced(db) && user in db.accounts
    requires db.accounts[user].docQuota <= 0 || db.accounts[user].docUsed + |docs| <= db.accounts[user].docQuota
    requires FirstProblem(db, user, docs, |docs|, now).None?
    ensures CreateManyWithQuota(db, user, docs, now).error == Some(StorageQuotaExceeded)
            <==> db.accounts[user].storageQuota > 0 && UnreservedBytes(db, user, docs) > Headroom(db.accounts[user])
    ensures (forall i | 0 <= i < |docs| :: OwnReservation(db, user, docs[i].inputKey)) ==>
              UnreservedBytes(db, user, docs) == 0
              && CreateManyWithQuota(db, user, docs, now).error in {None, Some(ConstraintViolation)}
  {
    ConsumedIsReserved(db, user, docs, now);
    AcceptedItems(db, user, docs, now);
    if forall i | 0 <= i < |docs| :: OwnReservation(db, user, docs[i].inputKey) {
      FullyReserved(db, user, docs, |docs|, now);
    }
  }

  lemma {:induction false} FullyReserved(db: Db, user: UserId, docs: seq<NewDocument>, n: nat, now: Time)
    requires n <= |docs|
    requires forall i | 0 <= i < n :: OwnReservation(db, user, docs[i].inputKey) && ItemProblem(db, user, docs, i, now).None?
    ensures InputBytes(docs, n) == ConsumedBytes(Consumptions(db, user, docs, n))
  {
    if n > 0 {
      FullyReserved(db, user, docs, n - 1, now);
      var d := docs[n - 1];
      assert ItemProblem(db, user, docs, n - 1, now).None?;
      var before := Consumptions(db, user, docs, n - 1);
      assert Consumptions(db, user, docs, n)[..|before|] == before;
    }
  }

  // ---------------------------------------------------------------- the other transactions

  lemma ReserveKeepsBalance(db: Db, user: UserId, key: Key, size: int, expiresAt: Time)
    requires Balanced(db)
    ensures Balanced(ReserveUpload(db, user, key, size, expiresAt).db)
  {
    hide ReservedBytes, UsedBytes;
    if ReserveUpload(db, user, key, size, expiresAt).error.None? {
      forall u | u in db.accounts
        ensures ReservedBytes(db.reservations[key := Reservation(user, size, Reserved, None, expiresAt)], u)
                == ReservedBytes(db.reservations, u) + if u == user then size else 0
      {
        NewHoldCounts(db.reservations, user, key, size, expiresAt, u);
      }
    }
  }

  lemma NewHoldCounts(table: map<Key, Reservation>, user: UserId, key: Key, size: int, expiresAt: Time, u: UserId)
    requires key !in table
    ensures ReservedBytes(table[key := Reservation(user, size, Reserved, None, expiresAt)], u)
            == ReservedBytes(table, u) + if u == user then size else 0
  {
    SumUpdate(table, HoldFor(u), key, Reservation(user, size, Reserved, None, expiresAt));
  }

  /** The refund subtracts exactly the reserved bytes: GREATEST(0, ...) never clamps. */
  lemma ReleaseKeepsBalance(db: Db, user: UserId, key: Key)
    requires Balanced(db)
    ensures Balanced(ReleaseUpload(db, user, key).db)
    ensures user in db.accounts && Releasable(db, user, key) ==>
              ReleaseUpload(db, user, key).db.accounts[user].storageReserved
              == db.accounts[user].storageReserved - db.reservations[key].size >= 0
  {
    if user in db.accounts && Releasable(db, user, key) {
      SumBoundsMember(db.reservations, HoldFor(user), key);
      var db' := ReleaseUpload(db, user, key).db;
      forall u | u in db.accounts
        ensures db'.accounts[u].storageReserved == ReservedBytes(db'.reservations, u)
      {
        SumRemove(db.reservations, HoldFor(u), key);
      }
    }
  }

  /** Dropping a consumed reservation and unlinking a deleted document change no sum. */
  lemma CleanupNeutral(table: map<Key, Reservation>, key: Key, id: DocId, u: UserId)
    ensures ReservedBytes(DropConsumed(table, key), u) == ReservedBytes(table, u)
    ensures ReservedBytes(Unlink(table, id), u) == ReservedBytes(table, u)
  {
    if key in table && table[key].state == Consumed {
      SumRemove(table, HoldFor(u), key);
    }
    SumSameContributions(Unlink(table, id), table, HoldFor(u));
  }

  lemma ExpireMovesSums(db: Db, id: DocId, u: UserId)
    requires Balanced(db) && InputExpirable(db, id) && u in db.accounts
    ensures UsedBytes(MarkInputExpired(db, id).docs, u) == UsedBytes(db.docs, u) - ChargeTo(u)(db.docs[id])
    ensures ReservedBytes(MarkInputExpired(db, id).reservations, u) == ReservedBytes(db.reservations, u)
    ensures 0 <= ChargeTo(u)(db.docs[id]) <= db.accounts[u].storageUsed
    ensures MarkInputExpired(db, id).accounts[u]
            == db.accounts[u].(storageUsed := db.accounts[u].storageUsed - ChargeTo(u)(db.docs[id]))
  {
    SumBoundsMember(db.docs, ChargeTo(u), id);
    SumUpdate(db.docs, ChargeTo(u), id, db.docs[id].(inputKey := None));
    CleanupNeutral(db.reservations, db.docs[id].inputKey.value, id, u);
    hide ReservedBytes;
  }

  /** Expiring an input frees exactly its bytes: GREATEST(0, ...) never clamps. */
  lemma ExpireKeepsBalance(db: Db, id: DocId)
    requires Balanced(db)
    ensures Balanced(MarkInputExpired(db, id))
    ensures InputExpirable(db, id) ==>
              var u := db.docs[id].user;
              MarkInputExpired(db, id).accounts[u].storageUsed == db.accounts[u].storageUsed - db.docs[id].inputSize >= 0
  {
    if InputExpirable(db, id) {
      ExpireKeepsRowsSound(db, id);
      forall u | u in db.accounts
        ensures CountersOf(MarkInputExpired(db, id).accounts[u], MarkInputExpired(db, id).docs, MarkInputExpired(db, id).reservations, u)
        ensures WithinQuota(MarkInputExpired(db, id).accounts[u])
      {
        ExpireAccountBalanced(db, id, u);
      }
      ExpireMovesSums(db, id, db.docs[id].user);
      hide UsedBytes, ReservedBytes, CountersOf, WithinQuota, RowsSound, MarkInputExpired;
    }
  }

  lemma ExpireKeepsRowsSound(db: Db, id: DocId)
    requires Balanced(db)
    ensures var db' := MarkInputExpired(db, id);
            RowsSound(db'.accounts.Keys, db'.docs, db'.reservations) && db'.accounts.Keys == db.accounts.Keys
  {
    hide UsedBytes, ReservedBytes, CountersExact, WithinQuota;
  }

  lemma ExpireAccountBalanced(db: Db, id: DocId, u: UserId)
    requires Balanced(db) && InputExpirable(db, id) && u in db.accounts
    ensures var db' := MarkInputExpired(db, id);
            u in db'.accounts && CountersOf(db'.accounts[u], db'.docs, db'.reservations, u) && WithinQuota(db'.accounts[u])
  {
    ExpireKeepsRowsSound(db, id);
    ExpireMovesSums(db, id, u);
    hide UsedBytes, ReservedBytes, RowsSound, MarkInputExpired, ChargeTo;
  }

  lemma DeleteMovesSums(db: Db, id: DocId, before: Time, u: UserId)
    requires id in db.docs && id !in DeleteExpiredDocument(db, id, before).docs
    ensures UsedBytes(DeleteExpiredDocument(db, id, before).docs, u) == UsedBytes(db.docs, u) - ChargeTo(u)(db.docs[id])
    ensures ReservedBytes(DeleteExpiredDocument(db, id, before).reservations, u) == ReservedBytes(db.reservations, u)
  {
    SumRemove(db.docs, ChargeTo(u), id);
    var key := if db.docs[id].inputKey.Some? then db.docs[id].inputKey.value else "";
    CleanupNeutral(db.reservations, key, id, u);
    CleanupNeutral(DropConsumed(db.reservations, key), key, id, u);
  }

  /** Deleting a document frees its bytes, unless input expiry freed them before: GREATEST(0, ...) never clamps. */
  lemma DeleteFreesExactly(db: Db, id: DocId, before: Time, u: UserId)
    requires Balanced(db) && u in db.accounts
    requires id in db.docs && id !in DeleteExpiredDocument(db, id, before).docs
    ensures DeleteExpiredDocument(db, id, before).accounts.Keys == db.accounts.Keys
    ensures db.accounts[u].storageUsed - ChargeTo(u)(db.docs[id]) >= 0
    ensures DeleteExpiredDocument(db, id, before).accounts[u]
            == db.accounts[u].(storageUsed := db.accounts[u].storageUsed - ChargeTo(u)(db.docs[id]))
  {
    SumBoundsMember(db.docs, ChargeTo(u), id);
  }

  lemma DeleteKeepsRowsSound(db: Db, id: DocId, before: Time)
    requires Balanced(db)
    ensures var db' := DeleteExpiredDocument(db, id, before); RowsSound(db'.accounts.Keys, db'.docs, db'.reservations)
  {
  }

  lemma DeleteKeepsCounters(db: Db, id: DocId, before: Time, u: UserId)
    requires Balanced(db) && u in db.accounts
    requires id in db.docs && id !in DeleteExpiredDocument(db, id, before).docs
    ensures var db' := DeleteExpiredDocument(db, id, before);
            && u in db'.accounts
            && db'.accounts[u].storageUsed == UsedBytes(db'.docs, u) <= db.accounts[u].storageUsed
            && db'.accounts[u].storageReserved == ReservedBytes(db'.reservations, u) == db.accounts[u].storageReserved
            && db'.accounts[u].storageQuota == db.accounts[u].storageQuota
  {
    DeleteFreesExactly(db, id, before, u);
    DeleteMovesSums(db, id, before, u);
  }

  lemma DeleteKeepsBalance(db: Db, id: DocId, before: Time)
    requires Balanced(db)
    ensures Balanced(DeleteExpiredDocument(db, id, before))
  {
    if id in db.docs && id !in DeleteExpiredDocument(db, id, before).docs {
      forall u | u in db.accounts {
        DeleteKeepsCounters(db, id, before, u);
      }
    }
    DeleteKeepsRowsSound(db, id, before);
  }

  /** Only row `id` changes, and nothing the storage ledger depends on. */
  ghost predicate RowUpdate(db: Db, db': Db, id: DocId) {
    && db'.docs.Keys == db.docs.Keys
    && (forall other | other in db.docs && other != id :: db'.docs[other] == db.docs[other])
    && (id in db.docs ==>
          && db'.docs[id].user == db.docs[id].user && db'.docs[id].mode == db.docs[id].mode
          && db'.docs[id].inputKey == db.docs[id].inputKey && db'.docs[id].inputSize == db.docs[id].inputSize)
    && db'.reservations == db.reservations
    && db'.accounts.Keys == db.accounts.Keys
    && forall u {:trigger db'.accounts[u]} | u in db.accounts :: db'.accounts[u] == db.accounts[u].(docUsed := db'.accounts[u].docUsed)
  }

  lemma RowUpdateKeepsUsed(db: Db, db': Db, id: DocId, u: UserId)
    requires RowUpdate(db, db', id)
    ensures UsedBytes(db'.docs, u) == UsedBytes(db.docs, u)
  {
    SumSameContributions(db'.docs, db.docs, ChargeTo(u));
  }

  lemma RowUpdateKeepsBalance(db: Db, db': Db, id: DocId)
    requires Balanced(db) && RowUpdate(db, db', id)
    ensures Balanced(db')
  {
    RowUpdateKeepsRowsSound(db, db', id);
    forall u | u in db.accounts
      ensures CountersOf(db'.accounts[u], db'.docs, db'.reservations, u) && WithinQuota(db'.accounts[u])
    {
      RowUpdateKeepsUsed(db, db', id, u);
      hide UsedBytes, ReservedBytes, RowsSound;
    }
    hide UsedBytes, ReservedBytes, RowsSound, CountersOf, WithinQuota;
  }

  lemma RowUpdateKeepsRowsSound(db: Db, db': Db, id: DocId)
    requires Balanced(db) && RowUpdate(db, db', id)
    ensures RowsSound(db'.accounts.Keys, db'.docs, db'.reservations)
  {
    hide UsedBytes, ReservedBytes, CountersExact, WithinQuota;
  }

  /** The migration's recomputation: the starting point of every run, whatever the counters said before. */
  ghost function Reconcile(db: Db): Db {
    db.(accounts := map u | u in db.accounts ::
          db.accounts[u].(storageUsed := UsedBytes(db.docs, u), storageReserved := ReservedBytes(db.reservations, u)))
  }

  /** On a balanced database the startup recomputation changes nothing. */
  lemma ReconcileIsNoOp(db: Db)
    ensures CountersExact(db) <==> Reconcile(db) == db
  {
    if Reconcile(db) == db {
      forall u | u in db.accounts
        ensures db.accounts[u].storageUsed == UsedBytes(db.docs, u) && db.accounts[u].storageReserved == ReservedBytes(db.reservations, u)
      {
        assert db.accounts[u] == Reconcile(db).accounts[u];
      }
    } else {
      assert Reconcile(db).accounts != db.accounts;
    }
  }
}
