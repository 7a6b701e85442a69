/**
 Runs of the hub under one scheduler loop: reservations, dispatches, releases, completions, reconnects and
 whatever else sockets and administrators change, in any order. What the hub promises a worker stays within
 the worker's report, and how long a worker can wait is bounded.
 */
module HubRuns {
  import opened Wrappers
  import opened Sums
  import opened Tables
  import opened NativeWorker
  import opened Hub

  /** The reservation the scheduler loop has made and neither dispatched nor given up, with what was offered for it. */
  datatype Pending = Pending(r: ResId, node: NodeId, offered: Capacity)

  /** `media` remembers the media type each attempt was dispatched with. */
  datatype Loop = Loop(hub: HubState, pending: Option<Pending>, now: Time, media: map<AttemptId, string>)

  datatype HubMove =
    | Reserve(node: NodeId)
    | FindNone
    | GiveUp
    | Refuse(kind: string)
    | Dispatch(kind: string, attempt: AttemptId, mediaType: string, lease: int)
    | Release(r: ResId)
    | Complete(attempt: AttemptId)
    | Connect(node: NodeId, desiredPause: bool)
    | Touch(node: NodeId, session: Session)

  /** What the loop and the sockets can do next. The claim took a document that fits what was offered. */
  ghost predicate Allowed(s: Loop, at: Time, m: HubMove) {
    && s.now <= at
    && match m
       case Reserve(n) => s.pending.None? && Best(s.hub, n, at)
       case FindNone => s.pending.None? && forall n | n in s.hub.sessions :: !Eligible(s.hub, n, at)
       case GiveUp => s.pending.Some?
       case Refuse(kind) => s.pending.Some? && !Dispatchable(s.hub, s.pending.value.r, kind)
       case Dispatch(kind, attempt, mediaType, lease) =>
         && attempt != "" && attempt !in s.media
         && s.pending.Some? && Dispatchable(s.hub, s.pending.value.r, kind) && lease >= 0
         && MediaUnits(s.pending.value.offered, mediaType) <= s.pending.value.offered.availableUnits
       case Touch(n, session) => Touches(s.hub, n, session)
       case _ => true
  }

  ghost function HubAfter(s: Loop, at: Time, m: HubMove): HubState {
    match m
    case Reserve(n) => if n in s.hub.sessions then AfterReserve(s.hub, n, at) else s.hub
    case FindNone => AfterPrune(s.hub, at)
    case GiveUp => if s.pending.Some? then AfterRelease(s.hub, s.pending.value.r) else s.hub
    case Refuse(_) => if s.pending.Some? then AfterRelease(s.hub, s.pending.value.r) else s.hub
    case Dispatch(kind, attempt, mediaType, lease) =>
      if s.pending.Some? && Dispatchable(s.hub, s.pending.value.r, kind)
      then AfterDispatch(s.hub, s.pending.value.r, attempt, mediaType, at, lease) else s.hub
    case Release(r) => AfterRelease(s.hub, r)
    case Complete(attempt) => AfterComplete(s.hub, attempt)
    case Connect(n, desiredPause) => AfterConnect(s.hub, n, desiredPause, at)
    case Touch(n, session) => AfterTouch(s.hub, n, session)
  }

  ghost function PendingAfter(s: Loop, at: Time, m: HubMove): Option<Pending> {
    match m
    case Reserve(n) => if n in s.hub.sessions then Some(Pending(s.hub.nextId, n, Offered(s.hub, n, at))) else s.pending
    case GiveUp => None
    case Refuse(_) => None
    case Dispatch(_, _, _, _) => None
    case _ => s.pending
  }

  function MediaAfter(s: Loop, m: HubMove): map<AttemptId, string> {
    if m.Dispatch? && s.pending.Some? then s.media[m.attempt := m.mediaType] else s.media
  }

  ghost function After(s: Loop, at: Time, m: HubMove): Loop {
    Loop(HubAfter(s, at, m), PendingAfter(s, at, m), at, MediaAfter(s, m))
  }

  datatype TimedMove = TimedMove(at: Time, move: HubMove)

  ghost function Exec(s: Loop, run: seq<TimedMove>): Loop {
    if run == [] then s else After(Exec(s, run[..|run| - 1]), run[|run| - 1].at, run[|run| - 1].move)
  }

  ghost predicate ValidMoves(s: Loop, run: seq<TimedMove>) {
    run == [] || (ValidMoves(s, run[..|run| - 1]) && Allowed(Exec(s, run[..|run| - 1]), run[|run| - 1].at, run[|run| - 1].move))
  }

  // ---------------------------------------------------------------- what every move keeps

  ghost predicate Sound(s: Loop) {
    && HubSound(s.hub)
    && (s.pending.Some? ==>
          var p := s.pending.value;
          && p.r in s.hub.table && s.hub.table[p.r].node == p.node && s.hub.table[p.r].units == 0
          && p.offered.availableUnits >= 0)
  }

  lemma MoveKeepsHubSound(s: Loop, at: Time, m: HubMove)
    requires Sound(s) && Allowed(s, at, m)
    ensures HubSound(HubAfter(s, at, m))
  {
    hide HubSound, AfterPrune, AfterReserve, AfterRelease, AfterComplete, AfterConnect, AfterDispatch, AfterTouch, Dispatchable, Touches, Best, Eligible;
    match m
    case Reserve(n) => ReserveKeepsHubSound(s.hub, n, at);
    case FindNone => ReserveKeepsHubSound(s.hub, "", at);
    case GiveUp => RemovalKeepsHubSound(s.hub, s.pending.value.r, "");
    case Refuse(_) => RemovalKeepsHubSound(s.hub, s.pending.value.r, "");
    case Dispatch(kind, attempt, mediaType, lease) => DispatchKeepsHubSound(s.hub, s.pending.value.r, attempt, kind, mediaType, at, lease);
    case Release(r) => RemovalKeepsHubSound(s.hub, r, "");
    case Complete(attempt) => RemovalKeepsHubSound(s.hub, 0, attempt);
    case Connect(n, desiredPause) => ConnectKeepsHubSound(s.hub, n, desiredPause, at);
    case Touch(n, session) => TouchKeepsHubSound(s.hub, n, session);
  }

  lemma MoveKeepsSound(s: Loop, at: Time, m: HubMove)
    requires Sound(s) && Allowed(s, at, m)
    ensures Sound(After(s, at, m))
  {
    MoveKeepsHubSound(s, at, m);
    hide HubSound, ValidCapacity, PrunedSession, WithoutAttempt, Dispatchable, Touches, Offered;
    if m.Reserve? {
      BestIsEligible(s.hub, m.node, at);
    }
    hide Best, Eligible;
  }

  lemma BestIsEligible(h: HubState, n: NodeId, at: Time)
    requires Best(h, n, at)
    ensures n in h.sessions && Online(h.sessions[n], at) && Offered(h, n, at).available > 0 && Offered(h, n, at).availableUnits > 0
  {
    hide Online, Offered;
  }

  // ---------------------------------------------------------------- promises stay within the report

  /** What is counted against a report: slots, or weighted units. */
  datatype Measure = Slots | Units

  ghost function Count(u: Measure): Booking -> int {
    if u == Slots then (b: Booking) => 1 else BookedUnits()
  }

  function Limit(u: Measure, c: Capacity): int { if u == Slots then c.effectiveLimit else c.availableUnits + c.activeUnits }

  /** What a pending reservation may come to cost. */
  function Cost(u: Measure, p: Pending): int { if u == Slots then 1 else p.offered.availableUnits }

  ghost function Booked(u: Measure, table: map<ResId, Booking>, held: set<ResId>, now: Time): int { Sum(Unexpired(table, held, now), Count(u)) }

  function Undecided(s: Loop): set<ResId> { if s.pending.Some? then {s.pending.value.r} else {} }

  predicate PendingAt(s: Loop, n: NodeId) { s.pending.Some? && s.pending.value.node == n }

  /** What the hub has promised worker `n`: its unexpired reservations, the pending one at the most it may cost. */
  ghost function Promised(u: Measure, s: Loop, n: NodeId): int
    requires n in s.hub.sessions
  {
    Booked(u, s.hub.table, s.hub.sessions[n].held - Undecided(s), s.now) + if PendingAt(s, n) then Cost(u, s.pending.value) else 0
  }

  predicate OfferedByReport(s: Loop, n: NodeId)
    requires n in s.hub.sessions
  {
    PendingAt(s, n) ==>
      && s.pending.value.offered.imageJobUnits == s.hub.sessions[n].capacity.imageJobUnits
      && s.pending.value.offered.pdfJobUnits == s.hub.sessions[n].capacity.pdfJobUnits
  }

  ghost predicate Within(u: Measure, s: Loop, n: NodeId) {
    n in s.hub.sessions && OfferedByReport(s, n) && Promised(u, s, n) <= Limit(u, s.hub.sessions[n].capacity)
  }

  /** The move leaves the worker's last report in force. */
  predicate KeepsReport(s: Loop, m: HubMove, n: NodeId) {
    match m
    case Connect(k, _) => k != n
    case Touch(k, session) => k == n && n in s.hub.sessions ==> session.capacity == s.hub.sessions[n].capacity
    case _ => true
  }

  ghost predicate Steady(s: Loop, run: seq<TimedMove>, n: NodeId) {
    run == [] || (Steady(s, run[..|run| - 1], n) && KeepsReport(Exec(s, run[..|run| - 1]), run[|run| - 1].move, n))
  }

  lemma CountIsNonNegative(u: Measure, h: HubState)
    requires HubSound(h)
    ensures forall r | r in h.table :: Count(u)(h.table[r]) >= 0
  {
    hide ValidCapacity;
  }

  /** Fewer reservations at a later time book no more. */
  lemma BookedShrinks(u: Measure, table: map<ResId, Booking>, held: set<ResId>, now: Time, held': set<ResId>, now': Time)
    requires held' <= held && now <= now' && forall r | r in table :: Count(u)(table[r]) >= 0
    ensures Booked(u, table, held', now') <= Booked(u, table, held, now)
  {
    hide Count;
    SumSubtable(Unexpired(table, held', now'), Unexpired(table, held, now), Count(u));
  }

  lemma BookedFrame(u: Measure, table: map<ResId, Booking>, table': map<ResId, Booking>, held: set<ResId>, now: Time)
    requires forall r | r in held :: r in table && r in table' && table'[r] == table[r]
    ensures Booked(u, table', held, now) == Booked(u, table, held, now)
    ensures Booked(u, table', Unexpired(table, held, now).Keys, now) == Booked(u, table, held, now)
  {
    UnexpiredFrame(table, table', held, now);
    hide Unexpired;
    if Unexpired(table, held, now).Keys != held {
      KeysAreHeld(table, held, now);
      UnexpiredFrame(table, table', Unexpired(table, held, now).Keys, now);
    }
  }

  lemma KeysAreHeld(table: map<ResId, Booking>, held: set<ResId>, now: Time)
    ensures Unexpired(table, held, now).Keys <= held
  {
  }

  lemma BookedOneMore(u: Measure, table: map<ResId, Booking>, held: set<ResId>, r: ResId, now: Time)
    requires r in table && r in held && now <= table[r].until
    ensures Booked(u, table, held, now) == Booked(u, table, held - {r}, now) + Count(u)(table[r])
  {
    UnexpiredWithOne(table, held - {r}, r, now);
    assert held - {r} + {r} == held;
    KeysAreHeld(table, held - {r}, now);
    hide Unexpired, Count;
    SumUpdate(Unexpired(table, held - {r}, now), Count(u), r, table[r]);
  }

  /** The slot measure counts reservations, the unit measure is the hub's own sum. */
  lemma {:induction false} SlotsAreCounted(m: map<ResId, Booking>)
    ensures Sum(m, Count(Slots)) == |m|
    decreases |m|
  {
    if m != map[] {
      var r :| r in m;
      SumRemove(m, Count(Slots), r);
      SlotsAreCounted(m - {r});
      assert m == (m - {r})[r := m[r]];
    }
  }

  lemma OfferLeavesRoom(u: Measure, h: HubState, n: NodeId, at: Time, p: Pending)
    requires Best(h, n, at) && p.offered == Offered(h, n, at)
    ensures n in h.sessions
    ensures Booked(u, h.table, h.sessions[n].held, at) + Cost(u, p) <= Limit(u, h.sessions[n].capacity)
    ensures p.offered.imageJobUnits == h.sessions[n].capacity.imageJobUnits && p.offered.pdfJobUnits == h.sessions[n].capacity.pdfJobUnits
  {
    BestIsEligible(h, n, at);
    SlotsAreCounted(Unexpired(h.table, h.sessions[n].held, at));
    OfferedFrom(h, n, at, |Unexpired(h.table, h.sessions[n].held, at)|, HeldUnits(h.table, h.sessions[n].held, at));
    hide Best, Unexpired, Online, Offered;
  }

  lemma PruneKeepsBooked(u: Measure, h: HubState, table': map<ResId, Booking>, n: NodeId, at: Time)
    requires HubSound(h) && n in h.sessions && forall r | r in h.table :: r in table' && table'[r] == h.table[r]
    ensures Booked(u, table', PrunedSession(h, n, at).held, at) == Booked(u, h.table, h.sessions[n].held, at)
  {
    assert forall r | r in h.sessions[n].held :: r in h.table;
    BookedFrame(u, h.table, table', h.sessions[n].held, at);
    hide Booked, Unexpired, HubSound, Online;
  }

  lemma ReserveKeepsWithin(u: Measure, s: Loop, at: Time, k: NodeId, n: NodeId)
    requires Sound(s) && Allowed(s, at, Reserve(k)) && Within(u, s, n)
    ensures Within(u, After(s, at, Reserve(k)), n)
  {
    hide Best, Eligible, Offered, HubSound, Booked, Count, Cost, Limit, PrunedSession, AfterReserve;
    var s' := After(s, at, Reserve(k));
    BestIsEligible(s.hub, k, at);
    ReservedSession(s.hub, k, n, at);
    CountIsNonNegative(u, s.hub);
    BookedShrinks(u, s.hub.table, s.hub.sessions[n].held, s.now, s.hub.sessions[n].held, at);
    PruneKeepsBooked(u, s.hub, s'.hub.table, n, at);
    OfferLeavesRoom(u, s.hub, k, at, s'.pending.value);
    assert s.hub.sessions[n].held - {} == s.hub.sessions[n].held;
  }

  lemma ReservedSession(h: HubState, k: NodeId, n: NodeId, at: Time)
    requires HubSound(h) && k in h.sessions && n in h.sessions
    ensures var h' := AfterReserve(h, k, at);
            && n in h'.sessions && h'.sessions[n].capacity == h.sessions[n].capacity
            && h'.sessions[n].held - {h.nextId} == PrunedSession(h, n, at).held
            && forall r | r in h.table :: r in h'.table && h'.table[r] == h.table[r]
  {
    hide ValidCapacity, Unexpired;
    assert h.nextId in h.sessions[n].held ==> h.nextId in h.table;
  }

  lemma FindNoneKeepsWithin(u: Measure, s: Loop, at: Time, n: NodeId)
    requires Sound(s) && Allowed(s, at, FindNone) && Within(u, s, n)
    ensures Within(u, After(s, at, FindNone), n)
  {
    CountIsNonNegative(u, s.hub);
    BookedShrinks(u, s.hub.table, s.hub.sessions[n].held, s.now, s.hub.sessions[n].held, at);
    PruneKeepsBooked(u, s.hub, s.hub.table, n, at);
    hide Eligible, HubSound, Booked, Count, Cost, Limit, PrunedSession;
    assert forall held: set<ResId> :: held - {} == held;
    KeptOfSession(s.hub, n, at);
  }

  lemma KeptOfSession(h: HubState, n: NodeId, at: Time)
    requires n in h.sessions
    ensures n in AfterPrune(h, at).sessions && AfterPrune(h, at).sessions[n] == PrunedSession(h, n, at)
    ensures PrunedSession(h, n, at).capacity == h.sessions[n].capacity
  {
  }

  lemma CostIsNonNegative(u: Measure, s: Loop)
    requires Sound(s)
    ensures s.pending.Some? ==> Cost(u, s.pending.value) >= 0
  {
    hide HubSound;
  }

  lemma DispatchKeepsWithin(u: Measure, s: Loop, at: Time, m: HubMove, n: NodeId)
    requires Sound(s) && m.Dispatch? && Allowed(s, at, m) && Within(u, s, n)
    ensures Within(u, After(s, at, m), n)
  {
    var p, held := s.pending.value, s.hub.sessions[n].held;
    var table' := After(s, at, m).hub.table;
    CountIsNonNegative(u, s.hub);
    CostIsNonNegative(u, s);
    BookedShrinks(u, s.hub.table, held - {p.r}, s.now, held - {p.r}, at);
    OneHolder(s.hub, n);
    BookedFrame(u, s.hub.table, table', held - {p.r}, at);
    if p.r in held {
      BookedOneMore(u, table', held, p.r, at);
      DispatchCosts(u, s, at, m);
    } else {
      assert held - {p.r} == held;
    }
    hide Booked, Count, Cost, Limit, HubSound, Dispatchable, MediaUnits;
    assert held - {} == held;
  }

  lemma DispatchCosts(u: Measure, s: Loop, at: Time, m: HubMove)
    requires Sound(s) && m.Dispatch? && Allowed(s, at, m)
    requires s.pending.value.node in s.hub.sessions && OfferedByReport(s, s.pending.value.node)
    ensures Count(u)(After(s, at, m).hub.table[s.pending.value.r]) <= Cost(u, s.pending.value)
  {
    hide HubSound, ValidCapacity;
  }

  /** Sessions may lose reservations, and worker `n` keeps its report. */
  lemma DroppingKeepsWithin(u: Measure, s: Loop, s': Loop, n: NodeId)
    requires Sound(s) && Within(u, s, n) && s.now <= s'.now && s'.hub.table == s.hub.table
    requires n in s'.hub.sessions && s'.hub.sessions[n].capacity == s.hub.sessions[n].capacity
    requires s'.pending == s.pending || s'.pending.None?
    requires s'.hub.sessions[n].held - Undecided(s') <= s.hub.sessions[n].held - Undecided(s)
    ensures Within(u, s', n)
  {
    CountIsNonNegative(u, s.hub);
    CostIsNonNegative(u, s);
    BookedShrinks(u, s.hub.table, s.hub.sessions[n].held - Undecided(s), s.now, s'.hub.sessions[n].held - Undecided(s'), s'.now);
    hide Booked, Count, Cost, Limit, HubSound, Undecided;
  }

  lemma MoveKeepsWithin(u: Measure, s: Loop, at: Time, m: HubMove, n: NodeId)
    requires Sound(s) && Allowed(s, at, m) && Within(u, s, n) && KeepsReport(s, m, n)
    ensures Within(u, After(s, at, m), n)
    ensures After(s, at, m).hub.sessions[n].capacity == s.hub.sessions[n].capacity
  {
    hide Promised, Best, Eligible, OfferedByReport, HubSound, Dispatchable, PrunedSession, Offered, Within;
    assert n in s.hub.sessions by { WithinIsKnown(u, s, n); }
    if m.Reserve? {
      ReserveKeepsWithin(u, s, at, m.node, n);
      BestIsEligible(s.hub, m.node, at);
      KeptOfSession(s.hub, n, at);
    } else if m.FindNone? {
      FindNoneKeepsWithin(u, s, at, n);
      KeptOfSession(s.hub, n, at);
    } else if m.Dispatch? {
      DispatchKeepsWithin(u, s, at, m, n);
    } else {
      OnlyDrops(s, at, m, n);
      DroppingKeepsWithin(u, s, After(s, at, m), n);
    }
  }

  lemma OnlyDrops(s: Loop, at: Time, m: HubMove, n: NodeId)
    requires Sound(s) && Allowed(s, at, m) && n in s.hub.sessions && KeepsReport(s, m, n)
    requires !m.Reserve? && !m.FindNone? && !m.Dispatch?
    ensures var s' := After(s, at, m);
            && s.now <= s'.now && s'.hub.table == s.hub.table
            && n in s'.hub.sessions && s'.hub.sessions[n].capacity == s.hub.sessions[n].capacity
            && (s'.pending == s.pending || s'.pending.None?)
            && s'.hub.sessions[n].held - Undecided(s') <= s.hub.sessions[n].held - Undecided(s)
  {
    if m.Release? {
      RemovedEverywhere(s.hub, m.r, "", n);
    } else if m.Complete? {
      RemovedEverywhere(s.hub, 0, m.attempt, n);
    } else if m.Connect? {
      ReconnectKeepsReservations(s.hub, m.node, m.desiredPause, at);
    }
    hide HubSound, WithoutAttempt, Dispatchable;
  }

  lemma WithinIsKnown(u: Measure, s: Loop, n: NodeId)
    requires Within(u, s, n)
    ensures n in s.hub.sessions
  {
  }

  lemma {:induction false} WithinInEveryRun(u: Measure, s: Loop, run: seq<TimedMove>, n: NodeId)
    requires Sound(s) && Within(u, s, n) && ValidMoves(s, run) && Steady(s, run, n)
    ensures Sound(Exec(s, run)) && Within(u, Exec(s, run), n)
    ensures Exec(s, run).hub.sessions[n].capacity == s.hub.sessions[n].capacity
  {
    hide Sound, Promised, OfferedByReport, Allowed, After, KeepsReport;
    if run != [] {
      var before, last := run[..|run| - 1], run[|run| - 1];
      WithinInEveryRun(u, s, before, n);
      MoveKeepsSound(Exec(s, before), last.at, last.move);
      MoveKeepsWithin(u, Exec(s, before), last.at, last.move, n);
    }
  }

  /** The worker's live reservations fit its report: their number its limit, their units what was available and active. */
  ghost predicate FitsReport(h: HubState, n: NodeId, now: Time) {
    && n in h.sessions
    && |Unexpired(h.table, h.sessions[n].held, now)| <= h.sessions[n].capacity.effectiveLimit
    && HeldUnits(h.table, h.sessions[n].held, now) <= h.sessions[n].capacity.availableUnits + h.sessions[n].capacity.activeUnits
  }

  lemma FitsIsWithin(u: Measure, s: Loop, n: NodeId)
    requires Sound(s) && s.pending.None? && FitsReport(s.hub, n, s.now)
    ensures Within(u, s, n)
  {
    SlotsAreCounted(Unexpired(s.hub.table, s.hub.sessions[n].held, s.now));
    hide Unexpired, HubSound;
    assert s.hub.sessions[n].held - {} == s.hub.sessions[n].held;
  }

  /** What is booked is at most what is promised: a pending reservation books one slot and no units. */
  lemma BookedWithinPromised(u: Measure, s: Loop, n: NodeId)
    requires Sound(s) && n in s.hub.sessions
    ensures Booked(u, s.hub.table, s.hub.sessions[n].held, s.now) <= Promised(u, s, n)
  {
    var held := s.hub.sessions[n].held;
    CostIsNonNegative(u, s);
    if PendingAt(s, n) && s.pending.value.r in held && s.now <= s.hub.table[s.pending.value.r].until {
      BookedOneMore(u, s.hub.table, held, s.pending.value.r, s.now);
      hide HubSound, Booked;
    } else {
      OneHolder(s.hub, n);
      SameUnexpired(s, n);
      hide HubSound, Count, Unexpired, Undecided;
    }
  }

  lemma SameUnexpired(s: Loop, n: NodeId)
    requires n in s.hub.sessions
    requires s.pending.Some? && s.pending.value.r in s.hub.sessions[n].held && s.pending.value.r in s.hub.table ==>
               s.hub.table[s.pending.value.r].until < s.now
    ensures Unexpired(s.hub.table, s.hub.sessions[n].held - Undecided(s), s.now) == Unexpired(s.hub.table, s.hub.sessions[n].held, s.now)
  {
  }

  /**
   In every run during which a worker's report stays as it is, whatever is reserved, dispatched, released,
   completed or reconnected anywhere in the hub, the worker's reservations fit that report, if they did at first.
   */
  lemma PromisesStayWithinReport(s: Loop, run: seq<TimedMove>, n: NodeId)
    requires Sound(s) && s.pending.None? && FitsReport(s.hub, n, s.now)
    requires ValidMoves(s, run) && Steady(s, run, n)
    ensures var end := Exec(s, run);
            n in end.hub.sessions && end.hub.sessions[n].capacity == s.hub.sessions[n].capacity && FitsReport(end.hub, n, end.now)
  {
    hide *;
    MeasureStaysWithin(Slots, s, run, n);
    MeasureStaysWithin(Units, s, run, n);
    FitsFromBooked(Exec(s, run).hub, n, Exec(s, run).now);
  }

  lemma MeasureStaysWithin(u: Measure, s: Loop, run: seq<TimedMove>, n: NodeId)
    requires Sound(s) && s.pending.None? && FitsReport(s.hub, n, s.now)
    requires ValidMoves(s, run) && Steady(s, run, n)
    ensures var end := Exec(s, run);
            && n in end.hub.sessions && n in s.hub.sessions && end.hub.sessions[n].capacity == s.hub.sessions[n].capacity
            && Booked(u, end.hub.table, end.hub.sessions[n].held, end.now) <= Limit(u, end.hub.sessions[n].capacity)
  {
    hide Booked, Limit, Promised, Sound, ValidMoves, Steady, Exec, OfferedByReport, Unexpired, HeldUnits;
    FitsIsWithin(u, s, n);
    WithinInEveryRun(u, s, run, n);
    BookedWithinPromised(u, Exec(s, run), n);
  }

  lemma FitsFromBooked(h: HubState, n: NodeId, now: Time)
    requires n in h.sessions
    requires Booked(Slots, h.table, h.sessions[n].held, now) <= Limit(Slots, h.sessions[n].capacity)
    requires Booked(Units, h.table, h.sessions[n].held, now) <= Limit(Units, h.sessions[n].capacity)
    ensures FitsReport(h, n, now)
  {
    hide Unexpired;
    SlotsAreCounted(Unexpired(h.table, h.sessions[n].held, now));
  }

  // ---------------------------------------------------------------- booked is what the Mac charges

  /** The capacity is a report of a Mac with this policy. */
  ghost predicate ReportOf(p: Policy, c: Capacity) { exists w: Worker :: c == CapacityOf(p, w) }

  /** If the move changes the worker's report, the new one comes from a Mac with policy `p`. */
  ghost predicate NewReportBy(p: Policy, s: Loop, m: HubMove, n: NodeId) {
    m.Touch? && m.node == n && n in s.hub.sessions && m.session.capacity != s.hub.sessions[n].capacity ==> ReportOf(p, m.session.capacity)
  }

  /** Every new report of worker `n` comes from a Mac with policy `p`. */
  ghost predicate ReportsBy(p: Policy, s: Loop, run: seq<TimedMove>, n: NodeId) {
    run == [] ||
    var before, last := Exec(s, run[..|run| - 1]), run[|run| - 1];
    && ReportsBy(p, s, run[..|run| - 1], n)
    && NewReportBy(p, before, last.move, n)
  }

  /** A media type's weight on the Mac. */
  predicate WeighedBy(p: Policy, mediaType: string, units: int) {
    units == if mediaType == "application/pdf" then p.pdfJobUnits else p.imageJobUnits
  }

  predicate Weights(p: Policy, c: Capacity) { c.imageJobUnits == p.imageJobUnits && c.pdfJobUnits == p.pdfJobUnits }

  /** The pending reservation is for the worker's present session. */
  predicate PendingCurrent(s: Loop, n: NodeId) {
    && PendingAt(s, n) && n in s.hub.sessions && s.pending.value.r in s.hub.table
    && s.hub.table[s.pending.value.r].generation == s.hub.sessions[n].generation
  }

  predicate BookingWeighed(p: Policy, s: Loop, r: ResId)
    requires r in s.hub.table
  {
    s.hub.table[r].attempt != "" ==>
      s.hub.table[r].attempt in s.media && WeighedBy(p, s.media[s.hub.table[r].attempt], s.hub.table[r].units)
  }

  /** Until its first report a session has nothing to offer; then its weights are the Mac's. */
  ghost predicate CapacityWeighed(p: Policy, s: Loop, n: NodeId) {
    && (n in s.hub.sessions ==> s.hub.sessions[n].capacity.availableUnits == 0 || Weights(p, s.hub.sessions[n].capacity))
    && (PendingCurrent(s, n) ==> Weights(p, s.hub.sessions[n].capacity))
  }

  /** And so is every booking. */
  ghost predicate Weighed(p: Policy, s: Loop, n: NodeId) {
    && CapacityWeighed(p, s, n)
    && (forall r | r in s.hub.table && s.hub.table[r].node == n :: BookingWeighed(p, s, r))
    && (forall r | r in s.hub.table :: s.hub.table[r].generation < s.hub.nextGeneration)
  }

  lemma ReserveKeepsWeighed(p: Policy, s: Loop, at: Time, k: NodeId, n: NodeId)
    requires Sound(s) && Allowed(s, at, Reserve(k)) && Weighed(p, s, n)
    ensures Weighed(p, After(s, at, Reserve(k)), n)
  {
    hide Best, Eligible, Offered, HubSound, AfterReserve, Weights, WeighedBy;
    var s' := After(s, at, Reserve(k));
    BestIsEligible(s.hub, k, at);
    ReservedTable(s.hub, k, at);
    ReserveKeepsCapacityWeighed(p, s, at, k, n);
    forall r | r in s'.hub.table && s'.hub.table[r].node == n
      ensures BookingWeighed(p, s', r)
    {
      assert r in s.hub.table && s.hub.table[r].node == n ==> BookingWeighed(p, s, r);
    }
    hide BookingWeighed, PendingCurrent;
  }

  lemma ReserveKeepsCapacityWeighed(p: Policy, s: Loop, at: Time, k: NodeId, n: NodeId)
    requires Sound(s) && Allowed(s, at, Reserve(k)) && CapacityWeighed(p, s, n)
    ensures CapacityWeighed(p, After(s, at, Reserve(k)), n)
  {
    hide Best, Eligible, Offered, HubSound, AfterReserve, Weights;
    BestIsEligible(s.hub, k, at);
    OfferedUnits(s.hub, k, at);
    ReservedTable(s.hub, k, at);
    if n in s.hub.sessions {
      ReservedSession(s.hub, k, n, at);
    }
  }

  lemma OfferedUnits(h: HubState, n: NodeId, at: Time)
    requires n in h.sessions && Offered(h, n, at).availableUnits > 0
    ensures h.sessions[n].capacity.availableUnits > 0
  {
    hide HeldUnits, Unexpired;
  }

  lemma ReservedTable(h: HubState, k: NodeId, at: Time)
    requires HubSound(h) && k in h.sessions
    ensures var h' := AfterReserve(h, k, at);
            && h'.nextGeneration == h.nextGeneration && h'.sessions.Keys == h.sessions.Keys
            && h'.sessions[k].generation == h.sessions[k].generation < h.nextGeneration
            && h.nextId !in h.table && h'.table == h.table[h.nextId := h'.table[h.nextId]]
            && h'.table[h.nextId].attempt == "" && h'.table[h.nextId].generation == h.sessions[k].generation
  {
    hide ValidCapacity, Unexpired;
  }

  lemma DispatchKeepsWeighed(p: Policy, s: Loop, at: Time, m: HubMove, n: NodeId)
    requires Sound(s) && m.Dispatch? && Allowed(s, at, m) && Weighed(p, s, n)
    ensures Weighed(p, After(s, at, m), n)
  {
    hide HubSound;
    var s', r := After(s, at, m), s.pending.value.r;
    assert s'.hub.sessions == s.hub.sessions && s'.hub.table == s.hub.table[r := s'.hub.table[r]];
    if s.hub.table[r].node == n {
      assert PendingCurrent(s, n);
      assert BookingWeighed(p, s', r);
    }
    forall q | q in s'.hub.table && s'.hub.table[q].node == n && q != r
      ensures BookingWeighed(p, s', q)
    {
      assert BookingWeighed(p, s, q);
    }
  }

  lemma OtherMoveKeepsWeighed(p: Policy, s: Loop, at: Time, m: HubMove, n: NodeId)
    requires Sound(s) && Allowed(s, at, m) && Weighed(p, s, n) && !m.Reserve? && !m.Dispatch?
    requires NewReportBy(p, s, m, n)
    ensures Weighed(p, After(s, at, m), n)
  {
    hide HubSound, ValidCapacity, Dispatchable, Eligible, WithoutAttempt, Unexpired, WeighedBy;
    var s' := After(s, at, m);
    assert s'.hub.table == s.hub.table && s'.media == s.media;
    assert s'.pending == s.pending || s'.pending == None;
    forall r | r in s.hub.table && s.hub.table[r].node == n
      ensures BookingWeighed(p, s', r)
    {
      assert BookingWeighed(p, s, r);
    }
    if m.FindNone? && n in s.hub.sessions {
      KeptOfSession(s.hub, n, at);
    }
    hide BookingWeighed;
  }

  lemma MoveKeepsWeighed(p: Policy, s: Loop, at: Time, m: HubMove, n: NodeId)
    requires Sound(s) && Allowed(s, at, m) && Weighed(p, s, n)
    requires NewReportBy(p, s, m, n)
    ensures Weighed(p, After(s, at, m), n)
  {
    hide Sound, Allowed, Weighed, After, ReportOf;
    if m.Reserve? {
      ReserveKeepsWeighed(p, s, at, m.node, n);
    } else if m.Dispatch? {
      DispatchKeepsWeighed(p, s, at, m, n);
    } else {
      OtherMoveKeepsWeighed(p, s, at, m, n);
    }
  }

  lemma {:induction false} WeighedInEveryRun(p: Policy, s: Loop, run: seq<TimedMove>, n: NodeId)
    requires Sound(s) && Weighed(p, s, n) && ValidMoves(s, run) && ReportsBy(p, s, run, n)
    ensures Sound(Exec(s, run)) && Weighed(p, Exec(s, run), n)
  {
    hide Sound, Weighed, Allowed, After, ReportOf;
    if run != [] {
      var before, last := run[..|run| - 1], run[|run| - 1];
      WeighedInEveryRun(p, s, before, n);
      MoveKeepsSound(Exec(s, before), last.at, last.move);
      MoveKeepsWeighed(p, Exec(s, before), last.at, last.move, n);
    }
  }

  /** A hub that has just started. */
  function Fresh(start: Time): Loop { Loop(HubState(map[], map[], 0, 0), None, start, map[]) }

  /**
   In every run of the hub since it started, what it has booked for an attempt on a Mac is what that Mac allocates when
   it takes the attempt, for every media type but the empty one: there the hub books an image and the Mac charges a PDF.
   */
  lemma BookedIsWhatTheMacCharges(p: Policy, start: Time, run: seq<TimedMove>, n: NodeId, r: ResId, w: Worker, snapshot: Snapshot)
    requires ValidMoves(Fresh(start), run) && ReportsBy(p, Fresh(start), run, n)
    requires var table := Exec(Fresh(start), run).hub.table; r in table && table[r].node == n && table[r].attempt != ""
    ensures var end := Exec(Fresh(start), run);
            var booked := end.hub.table[r];
            && booked.attempt in end.media
            && var call := TryAcquire(booked.attempt, Some(end.media[booked.attempt]));
               Accepts(p, w, call, snapshot) ==>
                 && booked.attempt in AfterCall(p, w, call, snapshot).allocations
                 && (AfterCall(p, w, call, snapshot).allocations[booked.attempt] == booked.units
                     <==> end.media[booked.attempt] != "" || p.imageJobUnits == p.pdfJobUnits)
  {
    assert Sound(Fresh(start)) && Weighed(p, Fresh(start), n);
    WeighedInEveryRun(p, Fresh(start), run, n);
    assert BookingWeighed(p, Exec(Fresh(start), run), r);
    hide Exec, ValidMoves, ReportsBy, Sound, Decide;
  }

  /** The claim made for a Mac's report takes exactly documents of a kind it offers and whose charge there fits what it offers. */
  lemma ClaimFitsTheMac(p: Policy, c: Capacity, capabilities: seq<string>, d: Document)
    requires Weights(p, c) && d.contentType != ""
    ensures QueryMatches(ForWorker(c.availableUnits, c.imageJobUnits, c.pdfJobUnits, "ocr" in capabilities, "scan" in capabilities), d)
            <==> && (if d.mode == "scan" then "scan" else "ocr") in capabilities
                 && NativeWorker.Units(p, Some(d.contentType)) <= c.availableUnits
    ensures NativeWorker.Units(p, Some("application/pdf")) == NativeWorker.Units(p, None) == p.pdfJobUnits && NativeWorker.Units(p, Some("image/png")) == p.imageJobUnits
  {
  }

  // ---------------------------------------------------------------- bounded waiting

  /** The other workers not selected more recently than `n`: those that may still be preferred to it. */
  function Ahead(h: HubState, n: NodeId): set<NodeId>
    requires n in h.sessions
  {
    set m | m in h.sessions && m != n && h.sessions[m].selectedAt <= h.sessions[n].selectedAt
  }

  /** Worker `n` stays connected and eligible whenever a worker is reserved, and it is never the one. */
  ghost predicate Waits(s: Loop, run: seq<TimedMove>, n: NodeId) {
    run == [] ||
    var before, last := Exec(s, run[..|run| - 1]), run[|run| - 1];
    && Waits(s, run[..|run| - 1], n)
    && last.move != Reserve(n) && !(last.move.Connect? && last.move.node == n)
    && (last.move.Reserve? ==> Eligible(before.hub, n, last.at))
  }

  function Reservations(run: seq<TimedMove>): nat {
    if run == [] then 0 else Reservations(run[..|run| - 1]) + if run[|run| - 1].move.Reserve? then 1 else 0
  }

  function Connections(run: seq<TimedMove>): nat {
    if run == [] then 0 else Connections(run[..|run| - 1]) + if run[|run| - 1].move.Connect? then 1 else 0
  }

  lemma BestIsOldest(h: HubState, best: NodeId, n: NodeId, now: Time)
    requires Best(h, best, now) && Eligible(h, n, now)
    ensures best in h.sessions && n in h.sessions && h.sessions[best].selectedAt <= h.sessions[n].selectedAt
  {
    assert PreferredTo(h, best, n, now);
  }

  /** A reservation that passes `n` over takes its worker from ahead of `n` to behind; only a new socket starts ahead again. */
  lemma MoveShrinksAhead(s: Loop, at: Time, m: HubMove, n: NodeId)
    requires Allowed(s, at, m) && n in s.hub.sessions && s.hub.sessions[n].selectedAt < at
    requires m != Reserve(n) && !(m.Connect? && m.node == n) && (m.Reserve? ==> Eligible(s.hub, n, at))
    ensures var h, h' := s.hub, After(s, at, m).hub;
            && n in h'.sessions && h'.sessions[n].selectedAt == h.sessions[n].selectedAt
            && (m.Reserve? ==> |Ahead(h', n)| == |Ahead(h, n)| - 1)
            && (m.Connect? ==> |Ahead(h', n)| <= |Ahead(h, n)| + 1)
            && (!m.Reserve? && !m.Connect? ==> Ahead(h', n) == Ahead(h, n))
  {
    hide After, Touches, Best, Eligible, Ahead, Dispatchable, MediaUnits;
    var h, h' := s.hub, After(s, at, m).hub;
    SelectionAfter(s, at, m);
    if m.Reserve? {
      BestIsOldest(h, m.node, n, at);
      AheadWithout(h, h', n, m.node, at);
    } else if m.Connect? {
      AheadWithNew(h, h', n, m.node);
    } else {
      AheadSame(h, h', n);
    }
  }

  lemma AheadWithout(h: HubState, h': HubState, n: NodeId, k: NodeId, at: Time)
    requires n in h.sessions && k in h.sessions && k != n && h.sessions[k].selectedAt <= h.sessions[n].selectedAt < at
    requires h'.sessions.Keys == h.sessions.Keys
    requires forall x | x in h.sessions :: h'.sessions[x].selectedAt == if x == k then at else h.sessions[x].selectedAt
    ensures |Ahead(h', n)| == |Ahead(h, n)| - 1
  {
    assert Ahead(h', n) == Ahead(h, n) - {k};
  }

  lemma AheadWithNew(h: HubState, h': HubState, n: NodeId, k: NodeId)
    requires n in h.sessions && k != n && h'.sessions.Keys == h.sessions.Keys + {k}
    requires forall x | x in h.sessions && x != k :: h'.sessions[x].selectedAt == h.sessions[x].selectedAt
    ensures |Ahead(h', n)| <= |Ahead(h, n)| + 1
  {
    assert Ahead(h', n) <= Ahead(h, n) + {k};
    SubsetSize(Ahead(h', n), Ahead(h, n) + {k});
  }

  lemma AheadSame(h: HubState, h': HubState, n: NodeId)
    requires n in h.sessions && h'.sessions.Keys == h.sessions.Keys
    requires forall x | x in h.sessions :: h'.sessions[x].selectedAt == h.sessions[x].selectedAt
    ensures Ahead(h', n) == Ahead(h, n)
  {
  }

  /** What a move does to the selection times: a reservation sets its worker's, a new socket starts without one. */
  lemma SelectionAfter(s: Loop, at: Time, m: HubMove)
    requires Allowed(s, at, m)
    ensures m.Reserve? ==> Best(s.hub, m.node, at)
    ensures var sessions, sessions' := s.hub.sessions, After(s, at, m).hub.sessions;
            && sessions'.Keys == sessions.Keys + (if m.Connect? then {m.node} else {})
            && (forall x | x in sessions && !(m.Connect? && x == m.node) ::
                  sessions'[x].selectedAt == if m == Reserve(x) then at else sessions[x].selectedAt)
  {
    hide Eligible, Dispatchable, Offered, Unexpired, WithoutAttempt, PreferredTo, ValidCapacity;
    if m.Reserve? {
      BestIsEligible(s.hub, m.node, at);
    }
    hide Best;
  }

  lemma {:induction false} AheadInEveryRun(s: Loop, run: seq<TimedMove>, n: NodeId)
    requires n in s.hub.sessions && s.hub.sessions[n].selectedAt < s.now && ValidMoves(s, run) && Waits(s, run, n)
    ensures var end := Exec(s, run);
            && s.now <= end.now
            && n in end.hub.sessions && end.hub.sessions[n].selectedAt == s.hub.sessions[n].selectedAt
            && Reservations(run) + |Ahead(end.hub, n)| <= |Ahead(s.hub, n)| + Connections(run)
  {
    hide HubAfter, Ahead, Eligible;
    if run != [] {
      var before, last := run[..|run| - 1], run[|run| - 1];
      AheadInEveryRun(s, before, n);
      assert Exec(s, before).now <= last.at;
      MoveShrinksAhead(Exec(s, before), last.at, last.move, n);
      hide Allowed;
    }
  }

  /**
   Bounded waiting: in every run in which an eligible worker is passed over by every reservation, there are fewer
   of them than there are workers, and one more for each time a worker connects anew.
   */
  lemma ChosenWithinOneRound(s: Loop, run: seq<TimedMove>, n: NodeId)
    requires n in s.hub.sessions && s.hub.sessions[n].selectedAt < s.now && ValidMoves(s, run) && Waits(s, run, n)
    ensures Reservations(run) < |s.hub.sessions| + Connections(run)
  {
    AheadInEveryRun(s, run, n);
    hide Exec, ValidMoves, Waits;
    assert n !in Ahead(s.hub, n) && Ahead(s.hub, n) <= s.hub.sessions.Keys;
    SubsetSize(Ahead(s.hub, n) + {n}, s.hub.sessions.Keys);
  }

  lemma {:induction false} SubsetSize<T>(a: set<T>, b: set<T>)
    requires a <= b
    ensures |a| <= |b|
  {
    if a != {} {
      var x :| x in a;
      SubsetSize(a - {x}, b - {x});
    }
  }
}
