/** What an accepted submission batch guarantees about the rows it inserts and consumes. */
module Batches {
  import opened Tables

  lemma {:induction false} FirstProblemSticks(db: Db, user: UserId, docs: seq<NewDocument>, n: nat, m: nat, now: Time)
    requires n <= m <= |docs|
    requires FirstProblem(db, user, docs, n, now).Some?
    ensures FirstProblem(db, user, docs, m, now) == FirstProblem(db, user, docs, n, now)
  {
    if n < m {
      FirstProblemSticks(db, user, docs, n, m - 1, now);
    }
  }

  lemma {:induction false} NoProblemBefore(db: Db, user: UserId, docs: seq<NewDocument>, n: nat, i: nat, now: Time)
    requires i < n <= |docs|
    requires FirstProblem(db, user, docs, n, now).None?
    ensures ItemProblem(db, user, docs, i, now).None?
  {
    if i < n - 1 {
      NoProblemBefore(db, user, docs, n - 1, i, now);
    }
  }

  /** A consumption names a live, still reserved row of the right size, and no row twice. */
  ghost predicate SoundConsumptions(table: map<Key, Reservation>, cs: seq<Consumption>) {
    && (forall i | 0 <= i < |cs| ::
          cs[i].key in table && table[cs[i].key].state == Reserved && table[cs[i].key].size == cs[i].size)
    && (forall i, j | 0 <= i < j < |cs| :: cs[i].key != cs[j].key)
  }

  /** An accepted batch consumes each reservation once: the duplicate-key check is what ensures it. */
  lemma {:induction false} AcceptedConsumptions(db: Db, user: UserId, docs: seq<NewDocument>, n: nat, now: Time)
    requires n <= |docs|
    requires FirstProblem(db, user, docs, n, now).None?
    ensures SoundConsumptions(db.reservations, Consumptions(db, user, docs, n))
    ensures forall c | c in Consumptions(db, user, docs, n) ::
              OwnReservation(db, user, c.key) && now < db.reservations[c.key].expiresAt
              && exists i | 0 <= i < n :: docs[i].inputKey == c.key && docs[i].id == c.document && docs[i].inputSize == c.size
  {
    if n > 0 {
      AcceptedConsumptions(db, user, docs, n - 1, now);
      assert ItemProblem(db, user, docs, n - 1, now).None?;
      assert docs[n - 1].inputKey == docs[n - 1].inputKey;
    }
  }

  lemma {:induction false} ConsumeAllElsewhere(table: map<Key, Reservation>, cs: seq<Consumption>, key: Key)
    requires forall c | c in cs :: c.key != key
    ensures (key in ConsumeAll(table, cs)) == (key in table)
    ensures key in table ==> ConsumeAll(table, cs)[key] == table[key]
  {
    if cs != [] {
      ConsumeAllElsewhere(table, cs[..|cs| - 1], key);
    }
  }
}
