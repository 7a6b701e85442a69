/**
 The bound on executors is tight: a concrete run of the protocol in which a second request for a document is
 accepted by a Mac at the very moment the first one's lease ends, while the first still holds its slot.
 */
module Tightness {
  import opened Wrappers
  import opened Text
  import opened Tables
  import opened Lifecycle
  import opened Hub
  import opened NativeWorker
  import opened Protocol

  lemma RunExtended(s: System, run: seq<TimedMove>, t: TimedMove, lease: int, maxAttempts: int)
    requires ValidSystemRun(s, run, lease, maxAttempts) && Protocol.Allowed(ExecSystem(s, run, lease), t.at, t.m, lease, maxAttempts)
    ensures ValidSystemRun(s, run + [t], lease, maxAttempts)
    ensures ExecSystem(s, run + [t], lease) == Protocol.Moved(ExecSystem(s, run, lease), t.at, t.m, lease)
  {
    hide Protocol.Moved, Protocol.Allowed;
    assert (run + [t])[..|run|] == run;
  }

  // ---------------------------------------------------------------- one dispatch, from reservation to acceptance

  /** Everything is in place to reserve worker `n`, claim `step` for it and have its Mac accept. */
  ghost predicate Ready(s: System, n: NodeId, step: Step, lease: int, maxAttempts: int) {
    && s.pc.Idle? && lease > 0 && n in s.hub.sessions && Best(s.hub, n, s.w.now)
    && "ocr" in s.hub.sessions[n].capabilities
    && step.Claimed? && !step.query.ForText? && step.lease == lease && Enabled(s.w, s.w.now, step, maxAttempts)
    && step.attempt !in s.net.routes
    && Job(n, step.attempt) !in s.net.slots
  }

  /** The reservation's half of the cycle. */
  lemma ReservedAndClaimed(s: System, n: NodeId, step: Step, lease: int, maxAttempts: int)
    requires Ready(s, n, step, lease, maxAttempts)
    ensures Protocol.Allowed(s, s.w.now, ReserveWorker(n), lease, maxAttempts)
    ensures var s1 := Protocol.Moved(s, s.w.now, ReserveWorker(n), lease);
            && Protocol.Allowed(s1, s.w.now, ClaimForWorker(step), lease, maxAttempts)
            && var s2 := Protocol.Moved(s1, s.w.now, ClaimForWorker(step), lease);
               && s2.w == Next(s.w, s.w.now, step) && s2.pc == Preparing(s.hub.nextId, step.id, step.attempt)
               && s2.hub == AfterReserve(s.hub, n, s.w.now) && s2.net == s.net && s2.w.now == s.w.now
  {
    hide Best, Enabled, Attempted, AfterReserve;
    var s1 := Protocol.Moved(s, s.w.now, ReserveWorker(n), lease);
    assert s1.w == s.w;
  }

  lemma DispatchedAndRouted(s: System, n: NodeId, r: ResId, id: DocId, a: AttemptId, lease: int, maxAttempts: int)
    requires s.pc == Preparing(r, id, a) && lease > 0 && Dispatchable(s.hub, r, "ocr") && s.hub.table[r].node == n
    requires Fenced(s.w.db, id, a) && a !in s.net.routes
    ensures Protocol.Allowed(s, s.w.now, DispatchBegins("ocr", "image/png"), lease, maxAttempts)
    ensures var s3 := Protocol.Moved(s, s.w.now, DispatchBegins("ocr", "image/png"), lease);
            && Protocol.Allowed(s3, s.w.now, RouteStored, lease, maxAttempts)
            && var s4 := Protocol.Moved(s3, s.w.now, RouteStored, lease);
               && s4.w == s.w && s4.pc == Sending(r, id, a, n)
               && s4.hub == AfterDispatch(s.hub, r, a, "image/png", s.w.now, lease)
               && s4.net == s.net.(routes := s.net.routes[a := n])
  {
    DispatchableIsKnown(s.hub, r);
    hide Enabled, Fenced, Dispatchable, AfterDispatch, Next, Best, Touches, Independent;
    assert s.w.(now := s.w.now) == s.w;
  }

  lemma SentAndAccepted(s: System, r: ResId, id: DocId, a: AttemptId, n: NodeId, lease: int, maxAttempts: int)
    requires s.pc == Sending(r, id, a, n) && lease > 0 && Job(n, a) !in s.net.slots
    ensures Protocol.Allowed(s, s.w.now, Written, lease, maxAttempts)
    ensures var s5 := Protocol.Moved(s, s.w.now, Written, lease);
            && Protocol.Allowed(s5, s.w.now, FrameAccepted(Job(n, a)), lease, maxAttempts)
            && var s6 := Protocol.Moved(s5, s.w.now, FrameAccepted(Job(n, a)), lease);
               && s6.w == s.w && s6.pc.Waiting? && s6.hub == s.hub && s6.net.routes == s.net.routes
               && s6.net.slots == s.net.slots[Job(n, a) := Acquired]
  {
    hide Enabled, Fenced, Dispatchable, Next, Best, Touches, Independent;
    assert s.w.(now := s.w.now) == s.w;
  }

  lemma DispatchableIsKnown(h: HubState, r: ResId)
    ensures Dispatchable(h, r, "ocr") ==> r in h.table && h.table[r].node in h.sessions
  {
  }

  lemma ReservedIsDispatchable(h: HubState, n: NodeId, now: Time)
    requires Best(h, n, now) && n in h.sessions && "ocr" in h.sessions[n].capabilities
    ensures var h' := AfterReserve(h, n, now);
            Dispatchable(h', h.nextId, "ocr") && h'.table[h.nextId].node == n
  {
    hide Offered, Unexpired;
  }

  lemma ClaimedIsFenced(w: World, at: Time, step: Step, maxAttempts: int)
    requires step.Claimed? && Enabled(w, at, step, maxAttempts)
    ensures Fenced(Next(w, at, step).db, step.id, step.attempt)
  {
    hide Attempted;
    DocsAfterStep(w.db, at, step);
  }

  /** The six moves as a continuation of any run. */
  lemma CycleRuns(s0: System, run: seq<TimedMove>, n: NodeId, step: Step, lease: int, maxAttempts: int) returns (run': seq<TimedMove>)
    requires ValidSystemRun(s0, run, lease, maxAttempts) && Ready(ExecSystem(s0, run, lease), n, step, lease, maxAttempts)
    ensures ValidSystemRun(s0, run', lease, maxAttempts)
    ensures var s, s' := ExecSystem(s0, run, lease), ExecSystem(s0, run', lease);
            && s'.w == Next(s.w, s.w.now, step) && s'.pc.Waiting?
            && s'.hub == AfterDispatch(AfterReserve(s.hub, n, s.w.now), s.hub.nextId, step.attempt, "image/png", s.w.now, lease)
            && s'.net.slots == s.net.slots[Job(n, step.attempt) := Acquired] && s'.net.routes == s.net.routes[step.attempt := n]
  {
    var s := ExecSystem(s0, run, lease);
    var at := s.w.now;
    ReservedAndClaimed(s, n, step, lease, maxAttempts);
    ReservedIsDispatchable(s.hub, n, at);
    ClaimedIsFenced(s.w, at, step, maxAttempts);
    hide Protocol.Moved, Protocol.Allowed, AfterReserve, AfterDispatch, Next, Enabled, Best, Dispatchable, Fenced, ExecSystem, ValidSystemRun;
    var t1, t2 := TimedMove(at, ReserveWorker(n)), TimedMove(at, ClaimForWorker(step));
    var t3, t4 := TimedMove(at, DispatchBegins("ocr", "image/png")), TimedMove(at, RouteStored);
    var t5, t6 := TimedMove(at, Written), TimedMove(at, FrameAccepted(Job(n, step.attempt)));
    RunExtended(s0, run, t1, lease, maxAttempts);
    RunExtended(s0, run + [t1], t2, lease, maxAttempts);
    var run2 := run + [t1] + [t2];
    DispatchedAndRouted(ExecSystem(s0, run2, lease), n, s.hub.nextId, step.id, step.attempt, lease, maxAttempts);
    RunExtended(s0, run2, t3, lease, maxAttempts);
    RunExtended(s0, run2 + [t3], t4, lease, maxAttempts);
    SentAndAccepted(ExecSystem(s0, run2 + [t3] + [t4], lease), s.hub.nextId, step.id, step.attempt, n, lease, maxAttempts);
    RunExtended(s0, run2 + [t3] + [t4], t5, lease, maxAttempts);
    RunExtended(s0, run2 + [t3] + [t4] + [t5], t6, lease, maxAttempts);
    run' := run2 + [t3] + [t4] + [t5] + [t6];
  }

  // ---------------------------------------------------------------- one document, one Mac

  const DOC := NewDocument("doc_1", 1, "inputs/1", 5, "image/png", "auto", None)
  const MAC := "mac"

  function Start(): System {
    System(World(Db(map[1 := Account(0, 0, 0, 0, 0)], map[], map[], map[]), 0, map[], 0, map[], map[], map[], {}),
           HubState(map[], map[], 0, 0), Idle, Net(map[], {}, {}, map[], {}, {}), map[])
  }

  const REPORT := Capacity(1, "ready", 4, 4, 0, 4, 0, 4, 1, 1)

  function Ping(h: HubState, now: Time): Session
    requires MAC in h.sessions
  {
    h.sessions[MAC].(lastSeen := now, capabilities := ["ocr", "scan"], capacity := REPORT)
  }

  function Claim(attempt: AttemptId, available: int, lease: int): Step {
    Claimed("doc_1", ForWorker(available, 1, 1, true, true), attempt, lease)
  }

  /** Submitting an input that is nobody's upload. */
  lemma InputIsAccepted(w: World, d: NewDocument, maxAttempts: int)
    requires d.user in w.db.accounts && d.inputSize > 0 && w.db.docs == map[] && w.db.reservations == map[] && w.db.accounts[d.user] == Account(0, 0, 0, 0, 0)
    requires !HasPrefix(d.inputKey, UploadPrefix(d.user)) && d.inputKey !in w.keys && d.id !in w.created
    ensures Enabled(w, w.now, Submitted(d.user, [d]), maxAttempts)
    ensures Next(w, w.now, Submitted(d.user, [d])).db.docs == map[d.id := QueuedRow(d, w.now)]
  {
    var docs := [d];
    assert FirstProblem(w.db, d.user, docs, 1, w.now).None? by {
      hide UploadPrefix;
      assert FirstProblem(w.db, d.user, docs, 0, w.now).None?;
      assert !KeySeenBefore(docs, 0);
    }
    assert Consumptions(w.db, d.user, docs, 1) == [] by {
      assert Consumptions(w.db, d.user, docs, 0) == [];
    }
    assert InsertDocs(w.db.docs, docs, 1, w.now) == map[d.id := QueuedRow(d, w.now)] by {
      assert InsertDocs(w.db.docs, docs, 0, w.now) == w.db.docs;
    }
    hide FirstProblem, Consumptions, InputBytes, InsertDocs, ConsumeAll, QueuedRow, UploadPrefix;
  }

  /** A hub that knows one Mac, which reported recently and is promised at most one unit. */
  ghost predicate OneMac(h: HubState, now: Time) {
    && h.sessions.Keys == {MAC}
    && var s := h.sessions[MAC];
       && s.connected && !s.paused && !s.revoked && s.lastSeen == now && s.capabilities == ["ocr", "scan"] && s.capacity == REPORT
       && |Unexpired(h.table, s.held, now)| <= 1 && 0 <= HeldUnits(h.table, s.held, now) <= 1
  }

  lemma OneMacIsBest(h: HubState, now: Time)
    requires OneMac(h, now)
    ensures Best(h, MAC, now) && Offered(h, MAC, now).availableUnits >= 3
  {
    hide Unexpired, HeldUnits;
    assert "ready" !in {"paused", "busy", "draining"};
    assert Eligible(h, MAC, now);
  }

  /** One document is queued and one Mac is online. */
  ghost predicate Prepared(s: System) {
    && s.w.now == 0 && s.w.claims == map[] && s.w.db.docs == map[DOC.id := QueuedRow(DOC, 0)]
    && s.pc == Idle && s.net == Net(map[], {}, {}, map[], {}, {})
    && OneMac(s.hub, 0) && s.hub.sessions[MAC].held == {} && s.hub.table == map[]
  }

  lemma Queues(lease: int, maxAttempts: int)
    requires lease > 0
    ensures InitialSystem(Start())
    ensures var m := Transaction(Submitted(1, [DOC]));
            && Protocol.Allowed(Start(), 0, m, lease, maxAttempts)
            && var s := Protocol.Moved(Start(), 0, m, lease);
               && s.w.now == 0 && s.w.claims == map[] && s.w.db.docs == map[DOC.id := QueuedRow(DOC, 0)]
               && s.pc == Idle && s.net == Start().net && s.hub == Start().hub
  {
    assert UploadPrefix(1)[0] == 'u' && DOC.inputKey[0] == 'i';
    InputIsAccepted(Start().w, DOC, maxAttempts);
    hide UploadPrefix, Attempted, QueuedRow, Enabled;
  }

  /** The Mac connects and says hello. */
  lemma ComesOnline(s: System, lease: int, maxAttempts: int)
    requires lease > 0 && s.w.now == 0 && s.hub == Start().hub
    ensures Protocol.Allowed(s, 0, Connects(MAC, false), lease, maxAttempts)
    ensures var s2 := Protocol.Moved(s, 0, Connects(MAC, false), lease);
            && MAC in s2.hub.sessions
            && Protocol.Allowed(s2, 0, SessionChanges(MAC, Ping(s2.hub, 0)), lease, maxAttempts)
            && var s3 := Protocol.Moved(s2, 0, SessionChanges(MAC, Ping(s2.hub, 0)), lease);
               && s3.w == s.w && s3.net == s.net && s3.pc == s.pc
               && OneMac(s3.hub, 0) && s3.hub.sessions[MAC].held == {} && s3.hub.table == map[]
  {
    hide Enabled, Fenced, Dispatchable, Next, Best, Independent;
    assert s.w.(now := 0) == s.w;
    NothingHeld(map[], 0);
    hide Unexpired, HeldUnits;
  }

  lemma SetUp(lease: int, maxAttempts: int) returns (run: seq<TimedMove>)
    requires lease > 0
    ensures InitialSystem(Start()) && ValidSystemRun(Start(), run, lease, maxAttempts) && Prepared(ExecSystem(Start(), run, lease))
  {
    var s0 := Start();
    var t1, t2 := TimedMove(0, Transaction(Submitted(1, [DOC]))), TimedMove(0, Connects(MAC, false));
    assert ExecSystem(s0, [], lease) == s0 && ValidSystemRun(s0, [], lease, maxAttempts);
    Queues(lease, maxAttempts);
    ComesOnline(Protocol.Moved(s0, 0, t1.m, lease), lease, maxAttempts);
    hide Protocol.Moved, Protocol.Allowed, ExecSystem, ValidSystemRun, OneMac, QueuedRow, InitialSystem;
    RunExtended(s0, [], t1, lease, maxAttempts);
    RunExtended(s0, [] + [t1], t2, lease, maxAttempts);
    var t3 := TimedMove(0, SessionChanges(MAC, Ping(ExecSystem(s0, [] + [t1] + [t2], lease).hub, 0)));
    RunExtended(s0, [] + [t1] + [t2], t3, lease, maxAttempts);
    run := [] + [t1] + [t2] + [t3];
  }

  lemma FirstClaim(w: World, lease: int, maxAttempts: int)
    requires w.now == 0 && w.claims == map[] && w.db.docs == map[DOC.id := QueuedRow(DOC, 0)] && lease > 0 && maxAttempts >= 2
    ensures Enabled(w, 0, Claim("att_1", 4, lease), maxAttempts)
    ensures var w' := Next(w, 0, Claim("att_1", 4, lease));
            && w'.now == 0 && w'.claims.Keys == {"att_1"} && w'.claims["att_1"].document == DOC.id && w'.claims["att_1"].until == lease
            && w'.db.docs == map[DOC.id := ClaimedRow(QueuedRow(DOC, 0), "att_1", lease, 0)]
  {
  }

  lemma SecondClaim(w: World, lease: int, maxAttempts: int)
    requires w.now == lease && w.claims.Keys == {"att_1"} && w.claims["att_1"].document == DOC.id && w.claims["att_1"].until == lease
    requires w.db.docs == map[DOC.id := ClaimedRow(QueuedRow(DOC, 0), "att_1", lease, 0)] && lease > 0 && maxAttempts >= 2
    ensures Enabled(w, lease, Claim("att_2", 3, lease), maxAttempts)
    ensures var w' := Next(w, lease, Claim("att_2", 3, lease));
            && w'.now == lease && w'.claims.Keys == {"att_1", "att_2"} && w'.claims["att_1"] == w.claims["att_1"]
            && w'.claims["att_2"].document == DOC.id && w'.claims["att_2"].until == lease + lease
  {
  }

  lemma PromisedAfterFirst(h: HubState, lease: int)
    requires OneMac(h, 0) && h.sessions[MAC].held == {} && h.table == map[] && lease > 0
    ensures var h' := AfterDispatch(AfterReserve(h, MAC, 0), h.nextId, "att_1", "image/png", 0, lease);
            && h'.sessions.Keys == {MAC} && h'.sessions[MAC].connected && !h'.sessions[MAC].paused && !h'.sessions[MAC].revoked
            && h'.sessions[MAC].held == {h.nextId} && h.nextId in h'.table && h'.table[h.nextId].units == 1
  {
    hide HeldUnits;
  }

  lemma OneUnitPromised(table: map<ResId, Booking>, r: ResId, now: Time)
    requires r in table && table[r].units == 1
    ensures |Unexpired(table, {r}, now)| <= 1 && 0 <= HeldUnits(table, {r}, now) <= 1
  {
    NothingHeld(table, now);
    assert {} + {r} == {r};
    UnexpiredWithOne(table, {}, r, now);
    if now <= table[r].until {
      CountOne(table, {}, r, now);
    }
  }

  /** The acknowledgement is lost, the lease runs out, the Mac reports again: it can be reserved once more. */
  lemma WaitOut(s0: System, run: seq<TimedMove>, r: ResId, lease: int, maxAttempts: int) returns (run': seq<TimedMove>)
    requires ValidSystemRun(s0, run, lease, maxAttempts) && lease > 0
    requires var s := ExecSystem(s0, run, lease);
             && s.w.now == 0 && s.pc.Waiting? && s.hub.sessions.Keys == {MAC}
             && s.hub.sessions[MAC].connected && !s.hub.sessions[MAC].paused && !s.hub.sessions[MAC].revoked
             && s.hub.sessions[MAC].held == {r} && r in s.hub.table && s.hub.table[r].units == 1
    ensures ValidSystemRun(s0, run', lease, maxAttempts)
    ensures var s, s' := ExecSystem(s0, run, lease), ExecSystem(s0, run', lease);
            s'.w == s.w.(now := lease) && s'.pc.Idle? && s'.net == s.net && OneMac(s'.hub, lease)
  {
    var s := ExecSystem(s0, run, lease);
    var t1 := TimedMove(lease, AckTimesOut);
    var t2 := TimedMove(lease, SessionChanges(MAC, Ping(s.hub, lease)));
    PingsAgain(s, r, lease, maxAttempts);
    hide Protocol.Moved, Protocol.Allowed, ExecSystem, ValidSystemRun, OneMac;
    RunExtended(s0, run, t1, lease, maxAttempts);
    RunExtended(s0, run + [t1], t2, lease, maxAttempts);
    run' := run + [t1] + [t2];
  }

  lemma PingsAgain(s: System, r: ResId, lease: int, maxAttempts: int)
    requires lease > 0 && s.w.now == 0 && s.pc.Waiting? && s.hub.sessions.Keys == {MAC}
    requires var session := s.hub.sessions[MAC];
             session.connected && !session.paused && !session.revoked && session.held == {r}
    requires r in s.hub.table && s.hub.table[r].units == 1
    ensures Protocol.Allowed(s, lease, AckTimesOut, lease, maxAttempts)
    ensures var s1 := Protocol.Moved(s, lease, AckTimesOut, lease);
            && s1.hub == s.hub
            && Protocol.Allowed(s1, lease, SessionChanges(MAC, Ping(s.hub, lease)), lease, maxAttempts)
            && var s2 := Protocol.Moved(s1, lease, SessionChanges(MAC, Ping(s.hub, lease)), lease);
               s2.w == s.w.(now := lease) && s2.pc.Idle? && s2.net == s.net && OneMac(s2.hub, lease)
  {
    TimesOut(s, lease, maxAttempts);
    var s1 := Protocol.Moved(s, lease, AckTimesOut, lease);
    OneUnitPromised(s.hub.table, r, lease);
    PingChanges(s1, lease, maxAttempts);
    hide Protocol.Moved, Protocol.Allowed, Unexpired, HeldUnits;
  }

  lemma TimesOut(s: System, lease: int, maxAttempts: int)
    requires lease > 0 && s.w.now == 0 && s.pc.Waiting?
    ensures Protocol.Allowed(s, lease, AckTimesOut, lease, maxAttempts)
    ensures var s1 := Protocol.Moved(s, lease, AckTimesOut, lease);
            s1.hub == s.hub && s1.net == s.net && s1.pc.Idle? && s1.w == s.w.(now := lease)
  {
    hide Enabled, Fenced, Dispatchable, Next, Best, Independent;
  }

  lemma PingChanges(s: System, lease: int, maxAttempts: int)
    requires lease > 0 && s.w.now == lease && MAC in s.hub.sessions
    ensures Protocol.Allowed(s, lease, SessionChanges(MAC, Ping(s.hub, lease)), lease, maxAttempts)
    ensures var s2 := Protocol.Moved(s, lease, SessionChanges(MAC, Ping(s.hub, lease)), lease);
            && s2.w == s.w && s2.pc == s.pc && s2.net == s.net
            && s2.hub == AfterTouch(s.hub, MAC, Ping(s.hub, lease))
  {
    hide Enabled, Fenced, Dispatchable, Next, Best, Independent;
    assert s.w.(now := lease) == s.w;
  }

  /**
   At the moment the first lease ends, and with one attempt left, there is a run in which two requests for the
   same document hold slots: the theorem on executors cannot be had with a later bound.
   */
  lemma LeaseBoundIsTight(lease: int, maxAttempts: int) returns (run: seq<TimedMove>)
    requires lease > 0 && maxAttempts >= 2
    ensures InitialSystem(Start()) && ValidSystemRun(Start(), run, lease, maxAttempts)
    ensures var s := ExecSystem(Start(), run, lease);
            && Job(MAC, "att_1") in s.net.slots && Job(MAC, "att_2") in s.net.slots
            && "att_1" in s.w.claims && "att_2" in s.w.claims
            && s.w.claims["att_1"].document == s.w.claims["att_2"].document
            && s.w.claims["att_1"].until == s.w.now < s.w.claims["att_2"].until
  {
    hide ExecSystem, ValidSystemRun, Best, Next, Enabled, AfterReserve, AfterDispatch, Offered, ClaimedRow, QueuedRow, Unexpired, HeldUnits;
    run := SetUp(lease, maxAttempts);
    var s := ExecSystem(Start(), run, lease);
    FirstClaim(s.w, lease, maxAttempts);
    OneMacIsBest(s.hub, 0);
    PromisedAfterFirst(s.hub, lease);
    var r := s.hub.nextId;
    run := CycleRuns(Start(), run, MAC, Claim("att_1", 4, lease), lease, maxAttempts);
    run := WaitOut(Start(), run, r, lease, maxAttempts);
    s := ExecSystem(Start(), run, lease);
    SecondClaim(s.w, lease, maxAttempts);
    OneMacIsBest(s.hub, lease);
    run := CycleRuns(Start(), run, MAC, Claim("att_2", 3, lease), lease, maxAttempts);
  }
}
