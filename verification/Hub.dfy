/**
 The proxy's worker hub: which Macs are connected and what the proxy has promised them. Go's reservation
 pointers are identifiers into `table`, so a reservation keeps its identity when it moves between sessions.
 */
module Hub {
  import opened Wrappers
  import opened Sums
  import opened Tables
  import opened NativeWorker

  type NodeId = string
  type ResId = nat

  const SECOND := 1_000_000_000
  const SEEN_LIMIT := 20 * SECOND
  const RESERVATION_TTL := 30 * SECOND

  datatype Session = Session(
    generation: nat, connected: bool, paused: bool, revoked: bool, lastSeen: Time, capabilities: seq<string>,
    capacity: Capacity, selectedAt: Time, held: set<ResId>)

  datatype Booking = Booking(node: NodeId, generation: nat, units: int, until: Time, attempt: AttemptId)

  datatype HubState = HubState(sessions: map<NodeId, Session>, table: map<ResId, Booking>, nextId: nat, nextGeneration: nat)

  const NO_CAPACITY := Capacity(0, "", 0, 0, 0, 0, 0, 0, 0, 0)

  // ---------------------------------------------------------------- choosing a worker

  predicate Online(s: Session, now: Time) {
    && s.connected && !s.paused && !s.revoked && now - s.lastSeen <= SEEN_LIMIT && s.capabilities != []
    && s.capacity.state !in {"paused", "busy", "draining"}
  }

  /** Reservations that have not run out; `until` itself still counts. */
  function Unexpired(table: map<ResId, Booking>, held: set<ResId>, now: Time): map<ResId, Booking> {
    map r | r in held && r in table && now <= table[r].until :: table[r]
  }

  ghost function BookedUnits(): Booking -> int { (b: Booking) => b.units }

  ghost function HeldUnits(table: map<ResId, Booking>, held: set<ResId>, now: Time): int {
    Sum(Unexpired(table, held, now), BookedUnits())
  }

  lemma UnexpiredWithOne(table: map<ResId, Booking>, held: set<ResId>, r: ResId, now: Time)
    requires r in table
    ensures Unexpired(table, held + {r}, now)
            == if now <= table[r].until then Unexpired(table, held, now)[r := table[r]] else Unexpired(table, held, now)
  {
  }

  lemma UnexpiredFrame(table: map<ResId, Booking>, table': map<ResId, Booking>, held: set<ResId>, now: Time)
    requires forall r | r in held :: r in table && r in table' && table'[r] == table[r]
    ensures Unexpired(table', held, now) == Unexpired(table, held, now)
    ensures Unexpired(table, Unexpired(table, held, now).Keys, now) == Unexpired(table, held, now)
  {
  }

  /** The last report less what the proxy has promised since. */
  ghost function Offered(h: HubState, n: NodeId, now: Time): Capacity
    requires n in h.sessions
  {
    var s := h.sessions[n];
    var slots, units := |Unexpired(h.table, s.held, now)|, HeldUnits(h.table, s.held, now);
    s.capacity.(available := Min(s.capacity.available, s.capacity.effectiveLimit - slots),
                availableUnits := Min(s.capacity.availableUnits, s.capacity.availableUnits + s.capacity.activeUnits - units))
  }

  lemma OfferedFrom(h: HubState, n: NodeId, now: Time, slots: int, units: int)
    requires n in h.sessions
    requires slots == |Unexpired(h.table, h.sessions[n].held, now)| && units == HeldUnits(h.table, h.sessions[n].held, now)
    ensures var c := h.sessions[n].capacity;
            Offered(h, n, now) == c.(available := Min(c.available, c.effectiveLimit - slots),
                                     availableUnits := Min(c.availableUnits, c.availableUnits + c.activeUnits - units))
  {
  }

  ghost predicate Eligible(h: HubState, n: NodeId, now: Time) {
    n in h.sessions && Online(h.sessions[n], now) && Offered(h, n, now).available > 0 && Offered(h, n, now).availableUnits > 0
  }

  /** Least recently selected first, then most available units. */
  ghost predicate PreferredTo(h: HubState, n: NodeId, m: NodeId, now: Time)
    requires n in h.sessions && m in h.sessions
  {
    || h.sessions[n].selectedAt < h.sessions[m].selectedAt
    || (h.sessions[n].selectedAt == h.sessions[m].selectedAt && Offered(h, n, now).availableUnits >= Offered(h, m, now).availableUnits)
  }

  ghost predicate Best(h: HubState, n: NodeId, now: Time) {
    Eligible(h, n, now) && forall m | m in h.sessions && Eligible(h, m, now) :: PreferredTo(h, n, m, now)
  }

  lemma AllPruned(h: HubState, sessions: map<NodeId, Session>, now: Time)
    requires sessions.Keys == h.sessions.Keys && forall n | n in h.sessions :: sessions[n] == PrunedSession(h, n, now)
    ensures AfterPrune(h, now) == h.(sessions := sessions)
  {
    hide PrunedSession;
  }

  /** The best of the workers seen so far, or none of them is eligible. */
  ghost predicate BestAmong(h: HubState, seen: set<NodeId>, best: Option<NodeId>, now: Time) {
    match best
    case None => forall n | n in seen :: !Eligible(h, n, now)
    case Some(b) =>
      && b in h.sessions && b in seen && Eligible(h, b, now)
      && forall m | m in seen && m in h.sessions && Eligible(h, m, now) :: PreferredTo(h, b, m, now)
  }

  lemma NothingSeen(h: HubState, now: Time)
    ensures BestAmong(h, {}, None, now)
  {
  }

  /** Selected longer ago than the best so far, or as long ago and offering more units. */
  ghost predicate Better(h: HubState, n: NodeId, best: Option<NodeId>, now: Time)
    requires n in h.sessions && (best.Some? ==> best.value in h.sessions)
  {
    || best.None?
    || h.sessions[n].selectedAt < h.sessions[best.value].selectedAt
    || (h.sessions[n].selectedAt == h.sessions[best.value].selectedAt
        && Offered(h, n, now).availableUnits > Offered(h, best.value, now).availableUnits)
  }

  /** One more worker: it takes over if it is eligible and better. */
  lemma BestExtends(h: HubState, seen: set<NodeId>, best: Option<NodeId>, n: NodeId, now: Time)
    requires BestAmong(h, seen, best, now) && n in h.sessions
    ensures best.Some? ==> best.value in h.sessions
    ensures BestAmong(h, seen + {n}, if Eligible(h, n, now) && Better(h, n, best, now) then Some(n) else best, now)
  {
    hide Offered, Eligible;
  }

  lemma BestOfAll(h: HubState, best: Option<NodeId>, now: Time)
    requires BestAmong(h, h.sessions.Keys, best, now)
    ensures best.None? ==> forall n | n in h.sessions :: !Eligible(h, n, now)
    ensures best.Some? ==> Best(h, best.value, now)
  {
    hide Offered, Eligible;
  }

  function PrunedSession(h: HubState, n: NodeId, now: Time): (pruned: Session)
    requires n in h.sessions
    ensures pruned.(held := h.sessions[n].held) == h.sessions[n] && pruned.held <= h.sessions[n].held
  {
    var s := h.sessions[n];
    if Online(s, now) then s.(held := Unexpired(h.table, s.held, now).Keys) else s
  }

  /** A reservation attempt drops the expired reservations of every worker it looks at. */
  function AfterPrune(h: HubState, now: Time): HubState {
    h.(sessions := map n | n in h.sessions :: PrunedSession(h, n, now))
  }

  function AfterReserve(h: HubState, n: NodeId, now: Time): HubState
    requires n in h.sessions
  {
    var s := PrunedSession(h, n, now);
    AfterPrune(h, now).(sessions := AfterPrune(h, now).sessions[n := s.(selectedAt := now, held := s.held + {h.nextId})],
                    table := h.table[h.nextId := Booking(n, s.generation, 0, now + RESERVATION_TTL, "")],
                    nextId := h.nextId + 1)
  }

  // ---------------------------------------------------------------- the other transitions

  function AfterRelease(h: HubState, r: ResId): HubState {
    h.(sessions := map n | n in h.sessions :: h.sessions[n].(held := h.sessions[n].held - {r}))
  }

  function WithoutAttempt(table: map<ResId, Booking>, held: set<ResId>, attempt: AttemptId): set<ResId> {
    set r | r in held && !(r in table && table[r].attempt == attempt)
  }

  function AfterComplete(h: HubState, attempt: AttemptId): HubState {
    h.(sessions := map n | n in h.sessions :: h.sessions[n].(held := WithoutAttempt(h.table, h.sessions[n].held, attempt)))
  }

  /** A new socket replaces the node's session and takes over its reservations. */
  function AfterConnect(h: HubState, n: NodeId, desiredPause: bool, now: Time): HubState {
    var known := n in h.sessions;
    var s := Session(h.nextGeneration, true, if known then h.sessions[n].paused else desiredPause, false, now, [], NO_CAPACITY, 0,
                     if known then h.sessions[n].held else {});
    h.(sessions := h.sessions[n := s], nextGeneration := h.nextGeneration + 1)
  }

  function MediaUnits(c: Capacity, mediaType: string): int { JobUnits(mediaType, c.imageJobUnits, c.pdfJobUnits) }

  /** What dispatch checks under the lock before it commits to sending. */
  predicate Dispatchable(h: HubState, r: ResId, kind: string) {
    && r in h.table && h.table[r].node in h.sessions
    && var s := h.sessions[h.table[r].node];
       s.generation == h.table[r].generation && kind in s.capabilities && s.connected && !s.paused
  }

  function AfterDispatch(h: HubState, r: ResId, attempt: AttemptId, mediaType: string, now: Time, lease: int): HubState
    requires r in h.table && h.table[r].node in h.sessions
  {
    var c := h.sessions[h.table[r].node].capacity;
    h.(table := h.table[r := h.table[r].(units := MediaUnits(c, mediaType), attempt := attempt, until := now + lease)])
  }

  /** Everything else a socket or an administrator changes about a session: not its identity, selection or reservations. */
  predicate Touches(h: HubState, n: NodeId, s: Session) {
    && n in h.sessions
    && s.generation == h.sessions[n].generation && s.held == h.sessions[n].held && s.selectedAt == h.sessions[n].selectedAt
    && ValidCapacity(s.capacity)
  }

  function AfterTouch(h: HubState, n: NodeId, s: Session): HubState { h.(sessions := h.sessions[n := s]) }

  // ---------------------------------------------------------------- the hub as an object

  lemma NothingHeld(table: map<ResId, Booking>, now: Time)
    ensures Unexpired(table, {}, now) == map[] && HeldUnits(table, {}, now) == 0
  {
    assert Unexpired(table, {}, now) == map[];
  }

  lemma CountOne(table: map<ResId, Booking>, held: set<ResId>, r: ResId, now: Time)
    requires r in table && r !in held && now <= table[r].until
    ensures |Unexpired(table, held + {r}, now)| == |Unexpired(table, held, now)| + 1
    ensures Unexpired(table, held + {r}, now).Keys == Unexpired(table, held, now).Keys + {r}
    ensures HeldUnits(table, held + {r}, now) == HeldUnits(table, held, now) + table[r].units
  {
    UnexpiredWithOne(table, held, r, now);
    SumUpdate(Unexpired(table, held, now), BookedUnits(), r, table[r]);
  }

  class WorkerHub {
    var sessions: map<NodeId, Session>
    var table: map<ResId, Booking>
    var nextId: nat
    var nextGeneration: nat
    var lease: int

    ghost function State(): HubState
      reads this
    {
      HubState(sessions, table, nextId, nextGeneration)
    }

    constructor ()
      ensures State() == HubState(map[], map[], 0, 0) && lease == 15 * 60 * SECOND
    {
      sessions, table, nextId, nextGeneration, lease := map[], map[], 0, 0, 15 * 60 * SECOND;
    }

    /** The inner loop of Reserve: drop what has run out, count what has not. */
    method CountReservations(held: set<ResId>, now: Time) returns (kept: set<ResId>, slots: int, units: int)
      requires forall r | r in held :: r in table
      ensures kept == Unexpired(table, held, now).Keys
      ensures slots == |Unexpired(table, held, now)| && units == HeldUnits(table, held, now)
    {
      hide Unexpired;
      var todo := held;
      kept, slots, units := {}, 0, 0;
      ghost var done: set<ResId> := {};
      NothingHeld(table, now);
      while todo != {}
        invariant done == held - todo && todo <= held
        invariant kept == Unexpired(table, done, now).Keys
        invariant slots == |Unexpired(table, done, now)| && units == HeldUnits(table, done, now)
        decreases |todo|
      {
        var r :| r in todo;
        UnexpiredWithOne(table, done, r, now);
        if !(table[r].until < now) {
          CountOne(table, done, r, now);
          kept, slots, units := kept + {r}, slots + 1, units + table[r].units;
        }
        todo, done := todo - {r}, done + {r};
      }
      assert done == held;
    }

    /** One worker in the scan: skip it, or prune it and see what it still offers. */
    method Look(n: NodeId, now: Time, ghost h: HubState) returns (eligible: bool, s: Session, c: Capacity)
      requires table == h.table && n in sessions && n in h.sessions && sessions[n] == h.sessions[n]
      requires forall r | r in sessions[n].held :: r in table
      ensures s == PrunedSession(h, n, now) && eligible == Eligible(h, n, now) && (eligible ==> c == Offered(h, n, now))
    {
      hide Unexpired, HeldUnits, Offered;
      s := sessions[n];
      c := s.capacity;
      if !Online(s, now) {
        return false, s, c;
      }
      var kept, slots, units := CountReservations(s.held, now);
      s := s.(held := kept);
      c := c.(available := Min(c.available, c.effectiveLimit - slots),
              availableUnits := Min(c.availableUnits, c.availableUnits + c.activeUnits - units));
      OfferedFrom(h, n, now, slots, units);
      return c.available > 0 && c.availableUnits > 0, s, c;
    }

    /** One turn of the scan: the worker is pruned, and taken if it is eligible and better than the best so far. */
    method Consider(n: NodeId, now: Time, best: Option<NodeId>, report: Capacity, ghost h: HubState)
      returns (best': Option<NodeId>, report': Capacity)
      requires table == h.table && n in sessions && n in h.sessions && sessions[n] == h.sessions[n]
      requires forall r | r in sessions[n].held :: r in table
      requires best.Some? ==>
                 && best.value in h.sessions && best.value in sessions && sessions[best.value].selectedAt == h.sessions[best.value].selectedAt
                 && report == Offered(h, best.value, now)
      modifies `sessions
      ensures sessions == old(sessions)[n := PrunedSession(h, n, now)]
      ensures best' == if Eligible(h, n, now) && Better(h, n, best, now) then Some(n) else best
      ensures best'.Some? ==> best'.value in h.sessions && report' == Offered(h, best'.value, now)
    {
      hide Unexpired, HeldUnits, Offered, Online, Eligible;
      best', report' := best, report;
      var eligible, s, c := Look(n, now, h);
      sessions := sessions[n := s];
      if eligible {
        if best.None? || s.selectedAt < sessions[best.value].selectedAt
           || (s.selectedAt == sessions[best.value].selectedAt && c.availableUnits > report.availableUnits) {
          best', report' := Some(n), c;
        }
      }
    }

    /** The scan of Reserve: prune every worker looked at, remember the best so far. */
    method Scan(now: Time) returns (best: Option<NodeId>, report: Capacity)
      requires forall n, r | n in sessions && r in sessions[n].held :: r in table
      modifies `sessions
      ensures State() == AfterPrune(old(State()), now)
      ensures best.None? ==> forall n | n in old(sessions) :: !Eligible(old(State()), n, now)
      ensures best.Some? ==> Best(old(State()), best.value, now) && report == Offered(old(State()), best.value, now)
    {
      hide Unexpired, HeldUnits, Offered, Online, Eligible, PrunedSession, BestAmong, Best, Better, AfterPrune;
      ghost var h := State();
      best, report := None, NO_CAPACITY;
      ghost var seen: set<NodeId> := {};
      NothingSeen(h, now);
      var todo := sessions.Keys;
      while todo != {}
        invariant todo <= sessions.Keys == h.sessions.Keys
        invariant forall n | n in h.sessions :: sessions[n] == if n in todo then h.sessions[n] else PrunedSession(h, n, now)
        invariant forall n | n in h.sessions :: n in seen <==> n !in todo
        invariant seen <= h.sessions.Keys && BestAmong(h, seen, best, now)
        invariant best.Some? ==> best.value in h.sessions && report == Offered(h, best.value, now)
        decreases |todo|
      {
        var n :| n in todo;
        todo := todo - {n};
        BestExtends(h, seen, best, n, now);
        seen := seen + {n};
        best, report := Consider(n, now, best, report, h);
      }
      AllPruned(h, sessions, now);
      assert seen == h.sessions.Keys;
      BestOfAll(h, best, now);
    }

    method Reserve(now: Time) returns (best: Option<NodeId>, r: ResId, report: Capacity)
      requires forall n, r | n in sessions && r in sessions[n].held :: r in table
      modifies `sessions, `table, `nextId
      ensures best.None? ==> (forall n | n in old(sessions) :: !Eligible(old(State()), n, now)) && State() == AfterPrune(old(State()), now)
      ensures best.Some? ==>
                && Best(old(State()), best.value, now) && report == Offered(old(State()), best.value, now)
                && State() == AfterReserve(old(State()), best.value, now) && r == old(nextId)
    {
      hide Unexpired, HeldUnits, Offered, Online;
      r := nextId;
      best, report := Scan(now);
      if best.Some? {
        var s := sessions[best.value];
        table := table[nextId := Booking(best.value, s.generation, 0, now + RESERVATION_TTL, "")];
        sessions := sessions[best.value := s.(selectedAt := now, held := s.held + {nextId})];
        nextId := nextId + 1;
      }
    }

    /** Wherever the reservation has moved, it is found and removed. */
    method Release(r: ResId)
      modifies `sessions
      ensures State() == AfterRelease(old(State()), r)
    {
      ghost var h := State();
      var todo := sessions.Keys;
      while todo != {}
        invariant todo <= sessions.Keys == h.sessions.Keys
        invariant forall n | n in h.sessions :: sessions[n] == if n in todo then h.sessions[n] else AfterRelease(h, r).sessions[n]
        decreases |todo|
      {
        var n :| n in todo;
        sessions := sessions[n := sessions[n].(held := sessions[n].held - {r})];
        todo := todo - {n};
      }
      assert sessions == AfterRelease(h, r).sessions;
    }

    method Complete(attempt: AttemptId)
      modifies `sessions
      ensures State() == AfterComplete(old(State()), attempt)
    {
      ghost var h := State();
      var todo := sessions.Keys;
      while todo != {}
        invariant todo <= sessions.Keys == h.sessions.Keys
        invariant forall n | n in h.sessions :: sessions[n] == if n in todo then h.sessions[n] else AfterComplete(h, attempt).sessions[n]
        decreases |todo|
      {
        var n :| n in todo;
        var held := sessions[n].held;
        sessions := sessions[n := sessions[n].(held := set r | r in held && !(r in table && table[r].attempt == attempt))];
        todo := todo - {n};
      }
      assert sessions == AfterComplete(h, attempt).sessions;
    }

    method Connect(n: NodeId, desiredPause: bool, now: Time)
      modifies `sessions, `nextGeneration
      ensures State() == AfterConnect(old(State()), n, desiredPause, now)
    {
      var s := Session(nextGeneration, true, desiredPause, false, now, [], NO_CAPACITY, 0, {});
      if n in sessions {
        var previous := sessions[n];
        s := s.(paused := previous.paused, held := previous.held);
      }
      sessions := sessions[n := s];
      nextGeneration := nextGeneration + 1;
    }

    /** The part of dispatch before the route is stored and the request written. */
    method Dispatch(r: ResId, attempt: AttemptId, kind: string, mediaType: string, now: Time) returns (ok: bool)
      requires r in table
      modifies `sessions, `table
      ensures ok == old(Dispatchable(State(), r, kind))
      ensures State() == old(if Dispatchable(State(), r, kind) then AfterDispatch(State(), r, attempt, mediaType, now, lease)
                             else AfterRelease(State(), r))
    {
      var n := table[r].node;
      if n !in sessions || sessions[n].generation != table[r].generation
         || kind !in sessions[n].capabilities || !sessions[n].connected || sessions[n].paused {
        Release(r);
        return false;
      }
      var units := if mediaType == PDF then sessions[n].capacity.pdfJobUnits else sessions[n].capacity.imageJobUnits;
      table := table[r := table[r].(units := units, attempt := attempt, until := now + lease)];
      return true;
    }

    /** One message from a Mac; it counts only if the socket is still the node's current one. */
    method Receive(n: NodeId, generation: nat, report: Option<Capacity>, capabilities: Option<seq<string>>, now: Time) returns (heard: bool)
      modifies `sessions
      ensures heard == old(n in sessions && sessions[n].generation == generation && (report.None? || ValidCapacity(report.value)))
      ensures !heard ==> State() == old(State())
      ensures heard ==>
                var s := old(sessions[n]);
                State() == AfterTouch(old(State()), n,
                                     s.(lastSeen := now, capacity := if report.Some? then report.value else s.capacity,
                                        capabilities := if capabilities.Some? then capabilities.value else s.capabilities))
    {
      if report.Some? && !ValidCapacity(report.value) {
        return false;
      }
      if n !in sessions || sessions[n].generation != generation {
        return false;
      }
      var s := sessions[n].(lastSeen := now);
      if capabilities.Some? {
        s := s.(capabilities := capabilities.value);
      }
      if report.Some? {
        s := s.(capacity := report.value);
      }
      sessions := sessions[n := s];
      return true;
    }
  }

  // ---------------------------------------------------------------- what every transition keeps

  /** Every held reservation exists and names the one node that holds it. */
  ghost predicate HubSound(h: HubState) {
    && (forall n, r | n in h.sessions && r in h.sessions[n].held :: r in h.table && h.table[r].node == n)
    && (forall r | r in h.table :: r < h.nextId && h.table[r].units >= 0)
    && (forall n | n in h.sessions :: ValidCapacity(h.sessions[n].capacity) && h.sessions[n].generation < h.nextGeneration)
  }

  /** So no reservation is held by two sessions. */
  lemma OneHolder(h: HubState, n: NodeId)
    requires HubSound(h) && n in h.sessions
    ensures forall r | r in h.sessions[n].held :: r in h.table && h.table[r].node == n
    ensures forall m, r | m in h.sessions && r in h.sessions[n].held && r in h.sessions[m].held :: m == n
  {
    hide ValidCapacity;
  }

  lemma ReserveKeepsHubSound(h: HubState, n: NodeId, now: Time)
    requires HubSound(h)
    ensures HubSound(AfterPrune(h, now))
    ensures n in h.sessions ==> HubSound(AfterReserve(h, n, now)) && h.nextId !in h.table
  {
    hide PrunedSession, ValidCapacity;
    DroppingKeepsHubSound(h, AfterPrune(h, now));
    if n in h.sessions {
      var h' := AfterReserve(h, n, now);
      forall m, r | m in h'.sessions && r in h'.sessions[m].held
        ensures r in h'.table && h'.table[r].node == m
      {
        if m != n || r != h.nextId {
          assert r in h.sessions[m].held;
          assert r in h.table && h.table[r].node == m && r < h.nextId;
        }
      }
    }
  }

  lemma RemovalKeepsHubSound(h: HubState, r: ResId, attempt: AttemptId)
    requires HubSound(h)
    ensures HubSound(AfterRelease(h, r)) && HubSound(AfterComplete(h, attempt))
  {
    hide ValidCapacity;
    DroppingKeepsHubSound(h, AfterRelease(h, r));
    DroppingKeepsHubSound(h, AfterComplete(h, attempt));
  }

  /** Sessions may lose reservations, and nothing else. */
  lemma DroppingKeepsHubSound(h: HubState, h': HubState)
    requires HubSound(h) && h' == h.(sessions := h'.sessions) && h'.sessions.Keys == h.sessions.Keys
    requires forall n | n in h.sessions ::
               h'.sessions[n] == h.sessions[n].(held := h'.sessions[n].held) && h'.sessions[n].held <= h.sessions[n].held
    ensures HubSound(h')
  {
    hide ValidCapacity;
  }

  lemma ConnectKeepsHubSound(h: HubState, n: NodeId, desiredPause: bool, now: Time)
    requires HubSound(h)
    ensures HubSound(AfterConnect(h, n, desiredPause, now))
  {
    assert ValidCapacity(NO_CAPACITY);
    hide ValidCapacity;
  }

  lemma TouchKeepsHubSound(h: HubState, n: NodeId, s: Session)
    requires HubSound(h) && Touches(h, n, s)
    ensures HubSound(AfterTouch(h, n, s))
  {
    hide ValidCapacity;
  }

  lemma DispatchKeepsHubSound(h: HubState, r: ResId, attempt: AttemptId, kind: string, mediaType: string, now: Time, lease: int)
    requires HubSound(h) && Dispatchable(h, r, kind)
    ensures HubSound(AfterDispatch(h, r, attempt, mediaType, now, lease))
  {
    assert ValidCapacity(h.sessions[h.table[r].node].capacity);
  }

  /** Released and completed reservations are gone from every session, wherever a reconnect had moved them. */
  lemma RemovedEverywhere(h: HubState, r: ResId, attempt: AttemptId, n: NodeId)
    requires HubSound(h) && n in h.sessions
    ensures r !in AfterRelease(h, r).sessions[n].held
    ensures AfterRelease(h, r).sessions[n].held + {r} >= h.sessions[n].held
    ensures forall q | q in h.sessions[n].held :: q in AfterComplete(h, attempt).sessions[n].held <==> h.table[q].attempt != attempt
    ensures AfterComplete(h, attempt).sessions[n].held <= h.sessions[n].held
  {
  }

  /** Reconnecting moves exactly the old session's reservations to the new one and refuses later dispatches through the old. */
  lemma ReconnectKeepsReservations(h: HubState, n: NodeId, paused: bool, now: Time)
    requires HubSound(h)
    ensures var h' := AfterConnect(h, n, paused, now);
            && h'.table == h.table
            && (n in h.sessions ==> h'.sessions[n].held == h.sessions[n].held)
            && (forall m | m in h.sessions && m != n :: m in h'.sessions && h'.sessions[m] == h.sessions[m])
            && forall r, kind | r in h.table && h.table[r].node == n && n in h.sessions && h.table[r].generation <= h.sessions[n].generation ::
                 !Dispatchable(h', r, kind)
  {
    hide ValidCapacity;
  }

  // ---------------------------------------------------------------- promises stay within the report

  /** What counts as promised to worker `m` right after `n` was reserved. */
  lemma PromisedAfterReserve(h: HubState, n: NodeId, now: Time, m: NodeId)
    requires HubSound(h) && n in h.sessions && Online(h.sessions[n], now) && m in h.sessions
    ensures h.nextId !in h.table
    ensures var h' := AfterReserve(h, n, now);
            var kept, kept' := Unexpired(h.table, h.sessions[m].held, now), Unexpired(h'.table, h'.sessions[m].held, now);
            if m == n then kept' == kept[h.nextId := h'.table[h.nextId]] && h'.table[h.nextId].units == 0 else kept' == kept
  {
    var h' := AfterReserve(h, n, now);
    hide Online, ValidCapacity;
    UnexpiredFrame(h.table, h'.table, h.sessions[m].held, now);
    UnexpiredFrame(h.table, h'.table, Unexpired(h.table, h.sessions[m].held, now).Keys, now);
    UnexpiredWithOne(h'.table, Unexpired(h.table, h.sessions[m].held, now).Keys, h.nextId, now);
    hide Unexpired;
  }

  /** Reserve never pushes a worker above the slot limit it last reported, and leaves every other worker's count alone. */
  lemma ReserveWithinSlotLimit(h: HubState, n: NodeId, now: Time, m: NodeId)
    requires HubSound(h) && Best(h, n, now) && m in h.sessions
    ensures var h' := AfterReserve(h, n, now);
            var before, after := |Unexpired(h.table, h.sessions[m].held, now)|, |Unexpired(h'.table, h'.sessions[m].held, now)|;
            if m == n then after == before + 1 <= h.sessions[n].capacity.effectiveLimit else after == before
  {
    PromisedAfterReserve(h, n, now, m);
    KeptAreOld(h.table, h.sessions[m].held, now);
    hide AfterReserve, Unexpired, Online, HeldUnits, PreferredTo;
  }

  lemma KeptAreOld(table: map<ResId, Booking>, held: set<ResId>, now: Time)
    ensures Unexpired(table, held, now).Keys <= table.Keys
  {
  }

  // ---------------------------------------------------------------- which worker is chosen, and what is stored, field by field

  ghost predicate HasRoom(s: Session, live: map<ResId, Booking>, now: Time) {
    && s.connected && !s.paused && !s.revoked && now - s.lastSeen <= 20_000_000_000 && |s.capabilities| > 0
    && s.capacity.state != "paused" && s.capacity.state != "busy" && s.capacity.state != "draining"
    && s.capacity.available > 0 && |live| < s.capacity.effectiveLimit
    && s.capacity.availableUnits > 0
    && Sum(live, (b: Booking) => b.units) < s.capacity.availableUnits + s.capacity.activeUnits
  }

  /** A worker is eligible exactly if it is connected, wanted, heard of lately, able, and has a slot and a unit to spare. */
  lemma EligibleExactly(h: HubState, n: NodeId, now: Time)
    ensures Eligible(h, n, now) <==> n in h.sessions && HasRoom(h.sessions[n], Unexpired(h.table, h.sessions[n].held, now), now)
  {
    hide Unexpired;
    if n in h.sessions {
      assert BookedUnits() == (b: Booking) => b.units;
    }
  }

  /** Reservations that count are those whose time has not passed. */
  lemma UnexpiredExactly(table: map<ResId, Booking>, held: set<ResId>, now: Time, r: ResId)
    ensures r in Unexpired(table, held, now) <==> r in held && r in table && !(table[r].until < now)
    ensures r in Unexpired(table, held, now) ==> Unexpired(table, held, now)[r] == table[r]
  {
  }

  /** The chosen worker waited longest since it was last selected, and among those that waited as long it offers most. */
  lemma BestExactly(h: HubState, n: NodeId, now: Time, m: NodeId)
    requires Best(h, n, now) && Eligible(h, m, now)
    ensures Eligible(h, n, now) && h.sessions[n].selectedAt <= h.sessions[m].selectedAt
    ensures h.sessions[n].selectedAt == h.sessions[m].selectedAt ==> Offered(h, m, now).availableUnits <= Offered(h, n, now).availableUnits
  {
    hide Offered;
  }

  /** A reservation lasts thirty seconds, weighs nothing yet, and belongs to the session it was made for. */
  lemma ReservationMade(h: HubState, n: NodeId, now: Time)
    requires n in h.sessions
    ensures var h' := AfterReserve(h, n, now);
            && h.nextId in h'.table && h'.nextId == h.nextId + 1
            && var b := h'.table[h.nextId];
               && b.node == n && b.generation == h.sessions[n].generation && b.units == 0 && b.attempt == "" && b.until == now + 30_000_000_000
               && n in h'.sessions && h.nextId in h'.sessions[n].held && h'.sessions[n].selectedAt == now
               && h'.sessions[n].connected == h.sessions[n].connected && h'.sessions[n].capacity == h.sessions[n].capacity
  {
    hide Unexpired;
  }

  /** Nothing is sent to a replaced session, a lost connection, a paused worker, or one without the capability. */
  lemma DispatchNeedsWorker(h: HubState, r: ResId, kind: string)
    requires r in h.table
    ensures var b := h.table[r];
            Dispatchable(h, r, kind)
            <==> b.node in h.sessions && h.sessions[b.node].generation == b.generation && h.sessions[b.node].connected
                 && !h.sessions[b.node].paused && kind in h.sessions[b.node].capabilities
  {
  }

  /** What a dispatch books: the worker's weight for the media type, under the attempt, for one lease. */
  lemma DispatchBooks(h: HubState, r: ResId, attempt: AttemptId, mediaType: string, now: Time, lease: int)
    requires r in h.table && h.table[r].node in h.sessions
    ensures var h' := AfterDispatch(h, r, attempt, mediaType, now, lease);
            && h'.sessions == h.sessions && h'.table.Keys == h.table.Keys
            && (forall q | q in h.table && q != r :: h'.table[q] == h.table[q])
            && var b, c := h'.table[r], h.sessions[h.table[r].node].capacity;
               && b.units == (if mediaType == "application/pdf" then c.pdfJobUnits else c.imageJobUnits)
               && b.attempt == attempt && b.until == now + lease && b.node == h.table[r].node && b.generation == h.table[r].generation
  {
  }

  /** Looking at a worker drops the reservations whose time has passed, if it is one that may be reserved at all. */
  lemma PruneDropsExactly(h: HubState, n: NodeId, now: Time, r: ResId)
    requires n in h.sessions && r in h.sessions[n].held && r in h.table
    ensures var s := h.sessions[n];
            var looked := s.connected && !s.paused && !s.revoked && now - s.lastSeen <= 20_000_000_000 && |s.capabilities| > 0
                          && s.capacity.state !in {"paused", "busy", "draining"};
            r in AfterPrune(h, now).sessions[n].held <==> !looked || now <= h.table[r].until
  {
  }

  /** The bounds a report must keep, or the hub closes the connection. */
  lemma ReportBounds(c: Capacity)
    ensures ValidCapacity(c)
            <==> && 0 <= c.effectiveLimit <= 1024 && 0 <= c.available <= c.effectiveLimit && 0 <= c.active <= 1024
                 && 0 <= c.availableUnits <= 1048576 && 0 <= c.activeUnits <= 1048576
                 && 0 <= c.imageJobUnits <= 1048576 && 0 <= c.pdfJobUnits <= 1048576
  {
  }

  /** A reconnect cannot lift a pause; a new worker starts as the stored setting says, unable until it says what it can do. */
  lemma ConnectStartsOver(h: HubState, n: NodeId, desiredPause: bool, now: Time)
    ensures var h' := AfterConnect(h, n, desiredPause, now);
            && n in h'.sessions
            && var s := h'.sessions[n];
               && s.paused == (if n in h.sessions then h.sessions[n].paused else desiredPause)
               && s.connected && !s.revoked && s.lastSeen == now && s.capabilities == [] && s.selectedAt == 0
               && s.capacity == Capacity(0, "", 0, 0, 0, 0, 0, 0, 0, 0)
               && s.generation == h.nextGeneration && h'.nextGeneration == h.nextGeneration + 1
    ensures forall kind, r :: r in h.table && h.table[r].node == n ==> !Dispatchable(AfterConnect(h, n, desiredPause, now), r, kind)
  {
  }
}
