/**
 The dispatch protocol: one scheduler loop, the hub, the Macs and the messages between them, interleaved
 with every other transaction on the database. Messages may be lost or late, writes may fail after the
 bytes left, sockets may be replaced and Macs restarted at any point; only the hub itself stays up.
 */
module Protocol {
  import opened Wrappers
  import opened Tables
  import opened Lifecycle
  import opened Attempts
  import Outcomes
  import opened Hub
  import NativeWorker

  /** A request for one attempt, addressed to one Mac; also names the slot it occupies there. */
  datatype Job = Job(node: NodeId, attempt: AttemptId)

  /** A slot is acquired before the acknowledgement is sent; work starts only after it went out. */
  datatype Slot = Acquired | Running

  datatype Ack = Ack(job: Job, accepted: bool)

  datatype Net = Net(
    routes: map<AttemptId, NodeId>, sent: set<AttemptId>,
    frames: set<Job>, slots: map<Job, Slot>, acks: set<Ack>, finished: set<Job>)

  /** Where the scheduler stands inside pollAndDispatch and dispatch. */
  datatype Pc =
    | Idle
    | Reserving(r: ResId)
    | Preparing(r: ResId, id: DocId, attempt: AttemptId)
    | Abandoning(r: ResId)
    | Routing(r: ResId, id: DocId, attempt: AttemptId, node: NodeId)
    | Sending(r: ResId, id: DocId, attempt: AttemptId, node: NodeId)
    | Waiting(r: ResId, id: DocId, attempt: AttemptId, node: NodeId)
    | Returning(id: DocId, attempt: AttemptId)

  /** `booked` remembers which reservation an attempt was dispatched with. */
  datatype System = System(w: World, hub: HubState, pc: Pc, net: Net, booked: map<AttemptId, ResId>)

  datatype Move =
    | Transaction(step: Step)
    | ReserveWorker(n: NodeId)
    | NoWorker
    | GiveUp
    | ClaimForWorker(step: Step)
    | RetryOrFail(step: Step)
    | RetryUnavailable
    | DispatchRefused(kind: string)
    | DispatchBegins(kind: string, mediaType: string)
    | RouteStored
    | RouteFails
    | Written
    | WriteFails(leaked: bool)
    | AckHeard(accepted: bool)
    | AckTimesOut
    | ReturnDocument
    | ReturnUnavailable
    | FrameLost(job: Job)
    | FrameAccepted(job: Job)
    | FrameRefused(job: Job)
    | AckSent(job: Job)
    | AckSendFails(job: Job, leaked: bool)
    | WorkFinished(job: Job)
    | CallbackCompletes(job: Job)
    | MacRestarts(n: NodeId)
    | Connects(n: NodeId, desiredPause: bool)
    | SessionChanges(n: NodeId, s: Session)

  // ---------------------------------------------------------------- one move

  /** Transactions the rest of the system commits on its own: text claims and releases, callbacks, users, retention. */
  predicate Independent(w: World, step: Step) {
    match step
    case Claimed(_, query, _, _) => query.ForText?
    case Requeued(_, _) => false
    case Released(_, attempt) => attempt in w.claims && w.claims[attempt].forText
    case _ => true
  }

  /** The transaction a move commits, if any. */
  function StepOf(s: System, m: Move): Option<Step> {
    match m
    case Transaction(step) => Some(step)
    case ClaimForWorker(step) => Some(step)
    case RetryOrFail(step) => Some(step)
    case ReturnDocument => if s.pc.Returning? then Some(Released(s.pc.id, s.pc.attempt)) else None
    case _ => None
  }

  ghost predicate Allowed(s: System, at: Time, m: Move, lease: int, maxAttempts: int) {
    && s.w.now <= at && lease > 0
    && (StepOf(s, m).Some? ==> Enabled(s.w, at, StepOf(s, m).value, maxAttempts))
    && match m
       case Transaction(step) => Independent(s.w, step)
       case ReserveWorker(n) => s.pc.Idle? && Best(s.hub, n, at)
       case NoWorker => s.pc.Idle?
       case GiveUp => s.pc.Reserving? || s.pc.Abandoning?
       case ClaimForWorker(step) => s.pc.Reserving? && step.Claimed? && !step.query.ForText? && step.lease == lease
       case RetryOrFail(step) =>
         s.pc.Preparing? && (step == Requeued(s.pc.id, s.pc.attempt)
                             || (step.Finalized? && step.f.id == s.pc.id && step.f.attempt == s.pc.attempt))
       case RetryUnavailable => s.pc.Preparing?
       case DispatchRefused(kind) => s.pc.Preparing? && !Dispatchable(s.hub, s.pc.r, kind)
       case DispatchBegins(kind, _) => s.pc.Preparing? && Dispatchable(s.hub, s.pc.r, kind)
       case RouteStored => s.pc.Routing? && Fenced(s.w.db, s.pc.id, s.pc.attempt) && s.pc.attempt !in s.net.routes
       case RouteFails => s.pc.Routing?
       case Written => s.pc.Sending?
       case WriteFails(_) => s.pc.Sending?
       case AckHeard(accepted) => s.pc.Waiting? && Ack(Job(s.pc.node, s.pc.attempt), accepted) in s.net.acks
       case AckTimesOut => s.pc.Waiting?
       case ReturnDocument => s.pc.Returning?
       case ReturnUnavailable => s.pc.Returning?
       case FrameLost(job) => job in s.net.frames
       case FrameAccepted(job) => job in s.net.frames && job !in s.net.slots
       case FrameRefused(job) => job in s.net.frames
       case AckSent(job) => job in s.net.slots && s.net.slots[job] == Acquired
       case AckSendFails(job, _) => job in s.net.slots && s.net.slots[job] == Acquired
       case WorkFinished(job) => job in s.net.slots && s.net.slots[job] == Running
       case CallbackCompletes(job) =>
         job in s.net.finished && job.attempt in s.net.routes && s.net.routes[job.attempt] == job.node
       case MacRestarts(_) => true
       case Connects(_, _) => true
       case SessionChanges(n, session) => Touches(s.hub, n, session)
  }

  function WorldAfter(s: System, at: Time, m: Move): World {
    match StepOf(s, m)
    case Some(step) => Next(s.w, at, step)
    case None => s.w.(now := at)
  }

  function PcAfter(s: System, m: Move): Pc {
    var pc := s.pc;
    match m
    case ReserveWorker(_) => Reserving(s.hub.nextId)
    case NoWorker => Idle
    case GiveUp => Idle
    case ClaimForWorker(step) => if pc.Reserving? && step.Claimed? then Preparing(pc.r, step.id, step.attempt) else pc
    case RetryOrFail(_) => if pc.Preparing? then Abandoning(pc.r) else pc
    case RetryUnavailable => if pc.Preparing? then Abandoning(pc.r) else pc
    case DispatchRefused(_) => if pc.Preparing? then Returning(pc.id, pc.attempt) else pc
    case DispatchBegins(_, _) =>
      if pc.Preparing? && pc.r in s.hub.table then Routing(pc.r, pc.id, pc.attempt, s.hub.table[pc.r].node) else pc
    case RouteStored => if pc.Routing? then Sending(pc.r, pc.id, pc.attempt, pc.node) else pc
    case RouteFails => Idle
    case Written => if pc.Sending? then Waiting(pc.r, pc.id, pc.attempt, pc.node) else pc
    case WriteFails(_) => Idle
    case AckHeard(accepted) => if !accepted && pc.Waiting? then Returning(pc.id, pc.attempt) else Idle
    case AckTimesOut => Idle
    case ReturnDocument => Idle
    case ReturnUnavailable => Idle
    case _ => pc
  }

  function HubAfter(s: System, at: Time, m: Move, lease: int): HubState {
    match m
    case ReserveWorker(n) => if n in s.hub.sessions then AfterReserve(s.hub, n, at) else s.hub
    case NoWorker => AfterPrune(s.hub, at)
    case GiveUp => if s.pc.Reserving? || s.pc.Abandoning? then AfterRelease(s.hub, s.pc.r) else s.hub
    case DispatchRefused(_) => if s.pc.Preparing? then AfterRelease(s.hub, s.pc.r) else s.hub
    case DispatchBegins(_, mediaType) =>
      if s.pc.Preparing? && s.pc.r in s.hub.table && s.hub.table[s.pc.r].node in s.hub.sessions
      then AfterDispatch(s.hub, s.pc.r, s.pc.attempt, mediaType, at, lease) else s.hub
    case RouteFails => if s.pc.Routing? then AfterRelease(s.hub, s.pc.r) else s.hub
    case AckHeard(accepted) => if !accepted && s.pc.Waiting? then AfterRelease(s.hub, s.pc.r) else s.hub
    case CallbackCompletes(job) => AfterComplete(s.hub, job.attempt)
    case Connects(n, desiredPause) => AfterConnect(s.hub, n, desiredPause, at)
    case SessionChanges(n, session) => AfterTouch(s.hub, n, session)
    case _ => s.hub
  }

  function NetAfter(s: System, m: Move): Net {
    var net := s.net;
    match m
    case RouteStored => if s.pc.Routing? then net.(routes := net.routes[s.pc.attempt := s.pc.node]) else net
    case Written =>
      if s.pc.Sending? then net.(sent := net.sent + {s.pc.attempt}, frames := net.frames + {Job(s.pc.node, s.pc.attempt)}) else net
    case WriteFails(leaked) =>
      if s.pc.Sending? && leaked
      then net.(sent := net.sent + {s.pc.attempt}, frames := net.frames + {Job(s.pc.node, s.pc.attempt)}) else net
    case AckHeard(accepted) =>
      if s.pc.Waiting? then net.(acks := net.acks - {Ack(Job(s.pc.node, s.pc.attempt), accepted)}) else net
    case FrameLost(job) => net.(frames := net.frames - {job})
    case FrameAccepted(job) => net.(frames := net.frames - {job}, slots := net.slots[job := Acquired])
    case FrameRefused(job) => net.(frames := net.frames - {job}, acks := net.acks + {Ack(job, false)})
    case AckSent(job) => net.(slots := net.slots[job := Running], acks := net.acks + {Ack(job, true)})
    case AckSendFails(job, leaked) =>
      net.(slots := net.slots - {job}, acks := if leaked then net.acks + {Ack(job, true)} else net.acks)
    case WorkFinished(job) => net.(slots := net.slots - {job}, finished := net.finished + {job})
    case MacRestarts(n) => net.(slots := map job | job in net.slots && job.node != n :: net.slots[job])
    case _ => net
  }

  function BookedAfter(s: System, m: Move): map<AttemptId, ResId> {
    if m.DispatchBegins? && s.pc.Preparing? then s.booked[s.pc.attempt := s.pc.r] else s.booked
  }

  function Moved(s: System, at: Time, m: Move, lease: int): System {
    System(WorldAfter(s, at, m), HubAfter(s, at, m, lease), PcAfter(s, m), NetAfter(s, m), BookedAfter(s, m))
  }

  // ---------------------------------------------------------------- the life of a request

  /** Requests a Mac has or may still get. */
  function InHand(net: Net): set<Job> { net.frames + net.slots.Keys }

  predicate Routed(net: Net, job: Job) {
    job.attempt in net.sent && job.attempt in net.routes && net.routes[job.attempt] == job.node
  }

  /** Each request is at one place: under way, in its slot, refused, or done; and only along its stored route. */
  ghost predicate NetSound(net: Net) {
    && (forall job | job in net.frames :: Routed(net, job) && job !in net.slots && job !in net.finished)
    && (forall job | job in net.slots :: Routed(net, job) && job !in net.finished)
    && (forall job | job in net.finished :: Routed(net, job))
    && (forall ack | ack in net.acks :: Routed(net, ack.job) && ack.job !in net.frames && (!ack.accepted ==> ack.job !in net.slots))
    && (forall a | a in net.sent :: a in net.routes)
  }

  /** What the scheduler's position says about its current attempt. */
  ghost predicate PcSound(pc: Pc, net: Net, booked: map<AttemptId, ResId>) {
    match pc
    case Preparing(_, _, a) => a !in net.routes && a !in booked
    case Routing(r, _, a, _) => a !in net.routes && a in booked && booked[a] == r
    case Sending(r, _, a, node) => a in net.routes && net.routes[a] == node && a !in net.sent && a in booked && booked[a] == r
    case Waiting(r, _, a, node) => a in net.sent && a in net.routes && net.routes[a] == node && a in booked && booked[a] == r
    case Returning(_, a) => forall job | job in InHand(net) :: job.attempt != a
    case _ => true
  }

  lemma MoveKeepsNetSound(s: System, at: Time, m: Move, lease: int, maxAttempts: int)
    requires Allowed(s, at, m, lease, maxAttempts) && NetSound(s.net) && PcSound(s.pc, s.net, s.booked)
    ensures NetSound(NetAfter(s, m))
  {
    hide Enabled, Fenced, Best, Dispatchable, Touches, Independent, StepOf;
    if m.Written? || m.WriteFails? || m.RouteStored? {
      hide InHand;
    } else {
      hide PcSound, InHand;
    }
  }

  /** Requests reach the network only when the scheduler writes the one it is about to send. */
  lemma NewInHand(s: System, at: Time, m: Move, lease: int, maxAttempts: int, job: Job)
    requires Allowed(s, at, m, lease, maxAttempts)
    requires job in InHand(NetAfter(s, m)) && job !in InHand(s.net)
    ensures s.pc.Sending? && (m.Written? || m.WriteFails?) && job == Job(s.pc.node, s.pc.attempt)
  {
    hide Enabled, Fenced, Best, Dispatchable, Touches, Independent, StepOf;
  }

  lemma RoutesAfter(s: System, at: Time, m: Move, lease: int, maxAttempts: int)
    requires Allowed(s, at, m, lease, maxAttempts)
    ensures NetAfter(s, m).routes == if m.RouteStored? then s.net.routes[s.pc.attempt := s.pc.node] else s.net.routes
    ensures m.RouteStored? ==> s.pc.Routing?
  {
    hide Enabled, Fenced, Best, Dispatchable, Touches, StepOf, Independent;
  }

  /** A claim takes a new attempt, so nothing in the network or the hub knows it yet. */
  ghost predicate AttemptsKnown(s: System) {
    && s.net.routes.Keys <= s.booked.Keys <= s.w.claims.Keys
    && match s.pc
       case Preparing(_, id, a) => a in s.w.claims && s.w.claims[a].document == id && !s.w.claims[a].forText
       case Routing(_, id, a, _) => a in s.w.claims && s.w.claims[a].document == id && !s.w.claims[a].forText
       case Sending(_, id, a, _) => a in s.w.claims && s.w.claims[a].document == id && !s.w.claims[a].forText
       case _ => true
  }

  lemma ClaimsOnlyGrow(w: World, at: Time, step: Step, maxAttempts: int)
    requires Enabled(w, at, step, maxAttempts)
    ensures forall a | a in w.claims :: a in Next(w, at, step).claims && Next(w, at, step).claims[a] == w.claims[a]
    ensures step.Claimed? ==>
              step.attempt !in w.claims && step.attempt in Next(w, at, step).claims
              && Next(w, at, step).claims[step.attempt] == ClaimRecord(step.id, w.db.docs[step.id].attemptCount + 1, at + step.lease, w.serial, step.query.ForText?)
    ensures Next(w, at, step).claims.Keys == w.claims.Keys + if step.Claimed? then {step.attempt} else {}
    ensures Next(w, at, step).now == at
  {
    hide Attempted;
  }

  /** An attempt counts as sent from the moment its request may have left. */
  lemma SentAfter(s: System, at: Time, m: Move, lease: int, maxAttempts: int)
    requires Allowed(s, at, m, lease, maxAttempts)
    ensures s.net.sent <= NetAfter(s, m).sent
    ensures m.Written? || m.WriteFails? ==> s.pc.Sending? && NetAfter(s, m).sent <= s.net.sent + {s.pc.attempt}
    ensures m.Written? ==> s.pc.attempt in NetAfter(s, m).sent
    ensures !m.Written? && !m.WriteFails? ==> NetAfter(s, m).sent == s.net.sent
  {
    hide Enabled, Fenced, Best, Dispatchable, Touches, Independent, StepOf;
  }

  /** The scheduler gives an attempt back only when its request never left or was refused. */
  lemma NobodyHasReturned(s: System, at: Time, m: Move, lease: int, maxAttempts: int, job: Job)
    requires Allowed(s, at, m, lease, maxAttempts) && NetSound(s.net) && PcSound(s.pc, s.net, s.booked)
    requires PcAfter(s, m).Returning? && job in InHand(NetAfter(s, m))
    ensures job.attempt != PcAfter(s, m).attempt
  {
    if job !in InHand(s.net) {
      NewInHand(s, at, m, lease, maxAttempts, job);
    }
    hide Enabled, Fenced, Best, Touches, Next, StepOf, Independent, Dispatchable, NetAfter;
  }

  lemma MoveKeepsPcSound(s: System, at: Time, m: Move, lease: int, maxAttempts: int)
    requires Allowed(s, at, m, lease, maxAttempts) && NetSound(s.net) && PcSound(s.pc, s.net, s.booked) && AttemptsKnown(s)
    ensures PcSound(PcAfter(s, m), NetAfter(s, m), BookedAfter(s, m))
  {
    hide Enabled, Fenced, Best, Touches, Next, StepOf, Independent, Dispatchable, NetAfter, InHand;
    if PcAfter(s, m).Returning? {
      hide Allowed, NetSound, AttemptsKnown;
      forall job | job in InHand(NetAfter(s, m))
        ensures job.attempt != PcAfter(s, m).attempt
      {
        NobodyHasReturned(s, at, m, lease, maxAttempts, job);
      }
      hide PcAfter, BookedAfter;
    } else {
      MovedPcSound(s, at, m, lease, maxAttempts);
      hide Allowed, NetSound, AttemptsKnown, PcAfter, BookedAfter, PcSound;
    }
  }

  lemma MovedPcSound(s: System, at: Time, m: Move, lease: int, maxAttempts: int)
    requires Allowed(s, at, m, lease, maxAttempts) && NetSound(s.net) && PcSound(s.pc, s.net, s.booked) && AttemptsKnown(s)
    requires !PcAfter(s, m).Returning?
    ensures PcSound(PcAfter(s, m), NetAfter(s, m), BookedAfter(s, m))
  {
    if m.ClaimForWorker? {
      ClaimsOnlyGrow(s.w, at, m.step, maxAttempts);
    }
    SentAfter(s, at, m, lease, maxAttempts);
    RoutesAfter(s, at, m, lease, maxAttempts);
    hide Enabled, Fenced, Best, Touches, Next, StepOf, Independent, Dispatchable, NetAfter, InHand;
  }

  lemma MoveKeepsAttemptsKnown(s: System, at: Time, m: Move, lease: int, maxAttempts: int)
    requires Allowed(s, at, m, lease, maxAttempts) && PcSound(s.pc, s.net, s.booked) && AttemptsKnown(s)
    ensures AttemptsKnown(Moved(s, at, m, lease))
  {
    if StepOf(s, m).Some? {
      ClaimsOnlyGrow(s.w, at, StepOf(s, m).value, maxAttempts);
    }
    RoutesAfter(s, at, m, lease, maxAttempts);
    hide Enabled, Fenced, Best, Touches, Next, HubAfter, NetAfter, Dispatchable, Independent;
  }

  // ---------------------------------------------------------------- one executor per lease

  /** While its lease lasts, the attempt is its document's latest and the document has not moved on to another. */
  ghost predicate LeaseSafe(w: World, a: AttemptId) {
    && a in w.claims && !w.claims[a].forText
    && var id := w.claims[a].document;
       && id in w.created
       && (w.now < w.claims[a].until ==>
             && Latest(w.claims, a)
             && (id in w.db.docs ==> Terminal(w.db.docs[id].status) || (w.db.docs[id].status == Processing && w.db.docs[id].attempt == Some(a))))
  }

  /** Only handing back this very attempt can break it. */
  lemma StepKeepsLeaseSafe(w: World, at: Time, step: Step, maxAttempts: int, a: AttemptId)
    requires Enabled(w, at, step, maxAttempts) && AttemptsSound(w, maxAttempts) && LeaseSafe(w, a)
    requires step.Requeued? || step.Released? ==> step.attempt != a
    ensures LeaseSafe(Next(w, at, step), a)
  {
    var id := w.claims[a].document;
    ClaimsOnlyGrow(w, at, step, maxAttempts);
    StaysCreated(w, at, step, maxAttempts, id);
    if at < w.claims[a].until {
      if id !in w.db.docs {
        Outcomes.StepKeepsDeleted(w, at, step, maxAttempts, id);
      } else if Terminal(w.db.docs[id].status) {
        Outcomes.StepKeepsVerdict(w, at, step, maxAttempts, id);
      } else {
        RunningAttemptKept(w, at, step, maxAttempts, a);
      }
      LatestKept(w, at, step, maxAttempts, a);
      hide Next, Enabled, AttemptsSound, Latest;
    }
  }

  lemma StaysCreated(w: World, at: Time, step: Step, maxAttempts: int, id: DocId)
    requires Enabled(w, at, step, maxAttempts) && id in w.created
    ensures id in Next(w, at, step).created
  {
    hide Enabled;
    DocsAfterStep(w.db, at, step);
    hide Attempted;
    if step.Submitted? && Accepted(w, at, step) {
      AddCreatedCovers(w.created, step.docs, |step.docs|);
    }
  }

  lemma {:induction false} AddCreatedCovers(created: map<DocId, UserId>, docs: seq<NewDocument>, n: nat)
    requires n <= |docs|
    ensures created.Keys <= AddCreated(created, docs, n).Keys
  {
    if n > 0 {
      AddCreatedCovers(created, docs, n - 1);
    }
  }

  /** A leased attempt under way cannot be claimed over. */
  lemma LeasedIsNotClaimed(w: World, at: Time, step: Step, maxAttempts: int, a: AttemptId)
    requires Enabled(w, at, step, maxAttempts) && AttemptsSound(w, maxAttempts) && LeaseSafe(w, a)
    requires at < w.claims[a].until && step.Claimed?
    ensures step.id != w.claims[a].document
  {
    hide Next, Latest;
    var id := w.claims[a].document;
    if id in w.db.docs {
      assert MatchesClaim(w.db.docs[id], id, w.claims);
    }
  }

  lemma LatestKept(w: World, at: Time, step: Step, maxAttempts: int, a: AttemptId)
    requires Enabled(w, at, step, maxAttempts) && AttemptsSound(w, maxAttempts) && LeaseSafe(w, a)
    requires at < w.claims[a].until
    ensures Latest(Next(w, at, step).claims, a)
  {
    ClaimsOnlyGrow(w, at, step, maxAttempts);
    if step.Claimed? {
      LeasedIsNotClaimed(w, at, step, maxAttempts, a);
    }
    hide Next, Enabled, AttemptsSound;
  }

  lemma RunningAttemptKept(w: World, at: Time, step: Step, maxAttempts: int, a: AttemptId)
    requires Enabled(w, at, step, maxAttempts) && AttemptsSound(w, maxAttempts) && LeaseSafe(w, a)
    requires step.Requeued? || step.Released? ==> step.attempt != a
    requires var id := w.claims[a].document;
             at < w.claims[a].until && id in w.db.docs && !Terminal(w.db.docs[id].status)
    ensures var id, docs' := w.claims[a].document, Next(w, at, step).db.docs;
            id in docs' ==> Terminal(docs'[id].status) || (docs'[id].status == Processing && docs'[id].attempt == Some(a))
  {
    hide Next, Enabled, AttemptsSound, Latest, Attempted, DocsNext, Rewrites, NewRow;
    var id := w.claims[a].document;
    StepIsLater(w, at, step, maxAttempts);
    if step.Claimed? {
      LeasedIsNotClaimed(w, at, step, maxAttempts, a);
    }
    RowAfterStep(w, at, step, maxAttempts, id);
    if Rewrites(w.db, at, step) && RowOf(step) == Some(id) {
      RunningRowKept(w.db, at, step, id, a);
    }
  }

  lemma StepIsLater(w: World, at: Time, step: Step, maxAttempts: int)
    requires Enabled(w, at, step, maxAttempts)
    ensures w.now <= at
  {
  }

  /** Of the steps that rewrite a running attempt's row, only its claim and its return name another outcome than a terminal one. */
  lemma RunningRowKept(db: Db, at: Time, step: Step, id: DocId, a: AttemptId)
    requires Rewrites(db, at, step) && RowOf(step) == Some(id) && id in db.docs && !step.Claimed?
    requires db.docs[id].status == Processing && db.docs[id].attempt == Some(a)
    requires step.Requeued? || step.Released? ==> step.attempt != a
    ensures var d := NewRow(db.docs[id], at, step); Terminal(d.status) || (d.status == Processing && d.attempt == Some(a))
  {
    DocsAfterStep(db, at, step);
    hide Attempted, DocsNext;
  }

  /** The attempts whose request a Mac may hold, or that the scheduler is about to send. */
  ghost predicate LeasesSafe(w: World, net: Net, pc: Pc) {
    && (forall job | job in InHand(net) :: LeaseSafe(w, job.attempt))
    && (pc.Preparing? || pc.Routing? || pc.Sending? ==> LeaseSafe(w, pc.attempt))
  }

  lemma NewClaimIsSafe(w: World, at: Time, step: Step, maxAttempts: int)
    requires Enabled(w, at, step, maxAttempts) && AttemptsSound(w, maxAttempts) && step.Claimed? && !step.query.ForText?
    ensures LeaseSafe(Next(w, at, step), step.attempt)
  {
    ClaimsOnlyGrow(w, at, step, maxAttempts);
    StepKeepsAttempts(w, at, step, maxAttempts);
    DocsAfterStep(w.db, at, step);
    var w' := Next(w, at, step);
    assert step.id in w'.db.docs && w'.db.docs[step.id].status == Processing && w'.db.docs[step.id].attempt == Some(step.attempt) by {
      hide Attempted;
    }
    hide Next, Enabled;
    assert MatchesClaim(w'.db.docs[step.id], step.id, w'.claims);
  }

  lemma TickKeepsLeaseSafe(w: World, at: Time, a: AttemptId)
    requires LeaseSafe(w, a) && w.now <= at
    ensures LeaseSafe(w.(now := at), a)
  {
  }

  /** The attempt that a move hands back is in no Mac's hands and no longer the scheduler's to send. */
  lemma HandedBackIsNotInHand(s: System, at: Time, m: Move, lease: int, maxAttempts: int, a: AttemptId)
    requires Allowed(s, at, m, lease, maxAttempts) && NetSound(s.net) && PcSound(s.pc, s.net, s.booked)
    requires LeasesSafe(s.w, s.net, s.pc) && AttemptsKnown(s)
    requires StepOf(s, m).Some? && (StepOf(s, m).value.Requeued? || StepOf(s, m).value.Released?) && StepOf(s, m).value.attempt == a
    ensures forall job | job in InHand(s.net) :: job.attempt != a
    ensures var pc := PcAfter(s, m); pc.Preparing? || pc.Routing? || pc.Sending? ==> pc.attempt != a
  {
    hide Enabled, Fenced, Best, Touches, Dispatchable, Latest;
  }

  /** How the scheduler gets to hold an attempt it has not sent yet. */
  lemma PcOrigin(s: System, at: Time, m: Move, lease: int, maxAttempts: int)
    requires Allowed(s, at, m, lease, maxAttempts)
    ensures var pc' := PcAfter(s, m);
            && (pc'.Preparing? ==> pc' == s.pc || (m.ClaimForWorker? && pc'.attempt == m.step.attempt))
            && (pc'.Routing? || pc'.Sending? ==>
                  if m.DispatchBegins? then s.pc.Preparing? && pc'.attempt == s.pc.attempt
                  else (s.pc.Routing? || s.pc.Sending?) && !m.RouteFails? && pc'.attempt == s.pc.attempt)
  {
    hide Enabled, Fenced, Best, Dispatchable, Touches, StepOf, Independent;
  }

  lemma MoveKeepsLeases(s: System, at: Time, m: Move, lease: int, maxAttempts: int)
    requires Allowed(s, at, m, lease, maxAttempts) && AttemptsSound(s.w, maxAttempts)
    requires NetSound(s.net) && PcSound(s.pc, s.net, s.booked) && AttemptsKnown(s) && LeasesSafe(s.w, s.net, s.pc)
    ensures LeasesSafe(WorldAfter(s, at, m), NetAfter(s, m), PcAfter(s, m))
  {
    hide Allowed, AttemptsSound, LeaseSafe, NetAfter, NetSound, PcSound, PcAfter, WorldAfter, AttemptsKnown, InHand;
    var pc' := PcAfter(s, m);
    forall job | job in InHand(NetAfter(s, m))
      ensures LeaseSafe(WorldAfter(s, at, m), job.attempt)
    {
      if job !in InHand(s.net) {
        NewInHand(s, at, m, lease, maxAttempts, job);
      }
      OneLeaseKept(s, at, m, lease, maxAttempts, job.attempt);
    }
    PcOrigin(s, at, m, lease, maxAttempts);
    if m.ClaimForWorker? {
      ClaimMoveIsSafe(s, at, m, lease, maxAttempts);
    } else if pc'.Preparing? || pc'.Routing? || pc'.Sending? {
      OneLeaseKept(s, at, m, lease, maxAttempts, pc'.attempt);
    }
  }

  lemma ClaimMoveIsSafe(s: System, at: Time, m: Move, lease: int, maxAttempts: int)
    requires Allowed(s, at, m, lease, maxAttempts) && AttemptsSound(s.w, maxAttempts) && m.ClaimForWorker?
    ensures LeaseSafe(WorldAfter(s, at, m), m.step.attempt)
    ensures PcAfter(s, m).Preparing? && PcAfter(s, m).attempt == m.step.attempt
  {
    NewClaimIsSafe(s.w, at, m.step, maxAttempts);
    hide LeaseSafe, Enabled, Next;
  }

  lemma OneLeaseKept(s: System, at: Time, m: Move, lease: int, maxAttempts: int, a: AttemptId)
    requires Allowed(s, at, m, lease, maxAttempts) && AttemptsSound(s.w, maxAttempts)
    requires NetSound(s.net) && PcSound(s.pc, s.net, s.booked) && AttemptsKnown(s) && LeasesSafe(s.w, s.net, s.pc)
    requires LeaseSafe(s.w, a)
    requires (exists job :: job in InHand(NetAfter(s, m)) && job.attempt == a)
             || (var pc' := PcAfter(s, m); (pc'.Preparing? || pc'.Routing? || pc'.Sending?) && pc'.attempt == a)
    ensures LeaseSafe(WorldAfter(s, at, m), a)
  {
    if StepOf(s, m).Some? {
      var step := StepOf(s, m).value;
      if (step.Requeued? || step.Released?) && step.attempt == a {
        HandedBackIsNotInHand(s, at, m, lease, maxAttempts, a);
        assert false;
      } else {
        StepKeepsLeaseSafe(s.w, at, step, maxAttempts, a);
      }
    } else {
      TickKeepsLeaseSafe(s.w, at, a);
    }
  }

  // ---------------------------------------------------------------- the hub covers the Macs

  /** The dispatch reservation of an attempt is on its node's current session and outlives its lease. */
  ghost predicate Covered(s: System, a: AttemptId) {
    && a in s.booked && a in s.w.claims
    && var r := s.booked[a];
       && r in s.hub.table && s.hub.table[r].attempt == a && s.w.claims[a].until <= s.hub.table[r].until
       && s.hub.table[r].node in s.hub.sessions && r in s.hub.sessions[s.hub.table[r].node].held
  }

  /** Reservations and attempts refer to each other one to one. */
  ghost predicate Linked(hub: HubState, booked: map<AttemptId, ResId>, routes: map<AttemptId, NodeId>) {
    && HubSound(hub)
    && (forall r | r in hub.table && hub.table[r].attempt != "" :: hub.table[r].attempt in booked && booked[hub.table[r].attempt] == r)
    && (forall a | a in booked :: a != "" && booked[a] in hub.table && hub.table[booked[a]].attempt == a)
    && (forall a | a in routes :: a in booked && hub.table[booked[a]].node == routes[a])
  }

  /** The reservation the scheduler is working with. */
  ghost predicate LinkedPc(hub: HubState, booked: map<AttemptId, ResId>, pc: Pc) {
    && (pc.Reserving? || pc.Preparing? || pc.Abandoning? ==> pc.r in hub.table && hub.table[pc.r].attempt == "")
    && (pc.Reserving? || pc.Preparing? ==>
          hub.table[pc.r].node in hub.sessions && pc.r in hub.sessions[hub.table[pc.r].node].held)
    && (pc.Preparing? ==> pc.attempt != "")
    && (pc.Routing? ==> pc.r in hub.table && hub.table[pc.r].node == pc.node)
  }

  /** Every attempt in a Mac's hands, or on its way there, is covered while its lease lasts. */
  ghost predicate HandsCovered(s: System, lease: int) {
    && (s.pc.Preparing? ==> s.pc.attempt in s.w.claims && s.w.claims[s.pc.attempt].until <= s.w.now + lease)
    && (forall job | job in InHand(s.net) && job.attempt in s.w.claims && s.w.now <= s.w.claims[job.attempt].until :: Covered(s, job.attempt))
    && (s.pc.Routing? || s.pc.Sending? ==>
          s.pc.attempt in s.w.claims && (s.w.now <= s.w.claims[s.pc.attempt].until ==> Covered(s, s.pc.attempt)))
  }

  /** The moves that may take a reservation from a session, and which ones they may take. */
  ghost predicate MayDrop(s: System, at: Time, m: Move, r: ResId)
    requires r in s.hub.table
  {
    || ((m.ReserveWorker? || m.NoWorker?) && s.hub.table[r].until < at)
    || ((m.GiveUp? || m.DispatchRefused? || m.RouteFails? || m.AckHeard?) && !s.pc.Idle? && !s.pc.Returning? && r == s.pc.r && m != AckHeard(true))
    || (m.CallbackCompletes? && s.hub.table[r].attempt == m.job.attempt)
  }

  lemma PruneDropsExpired(h: HubState, n: NodeId, m: NodeId, r: ResId, at: Time)
    requires m in h.sessions && r in h.sessions[m].held && r in h.table && at <= h.table[r].until
    ensures r in AfterPrune(h, at).sessions[m].held
    ensures n in h.sessions ==> r in AfterReserve(h, n, at).sessions[m].held
  {
    hide Online;
  }

  lemma HubDropsLittle(s: System, at: Time, m: Move, lease: int, maxAttempts: int, n: NodeId, r: ResId)
    requires Allowed(s, at, m, lease, maxAttempts) && HubSound(s.hub)
    requires n in s.hub.sessions && r in s.hub.sessions[n].held
    ensures n in HubAfter(s, at, m, lease).sessions
    ensures r in HubAfter(s, at, m, lease).sessions[n].held || MayDrop(s, at, m, r)
  {
    OneHolder(s.hub, n);
    if m.ReserveWorker? || m.NoWorker? {
      if at <= s.hub.table[r].until {
        PruneDropsExpired(s.hub, if m.ReserveWorker? then m.n else n, n, r, at);
      }
      hide AfterPrune;
    } else {
      RemovalDropsLittle(s, at, m, lease, maxAttempts, n, r);
      hide HubAfter, MayDrop;
    }
    hide Allowed, HubSound;
  }

  lemma RemovalDropsLittle(s: System, at: Time, m: Move, lease: int, maxAttempts: int, n: NodeId, r: ResId)
    requires Allowed(s, at, m, lease, maxAttempts) && r in s.hub.table && !m.ReserveWorker? && !m.NoWorker?
    requires n in s.hub.sessions && r in s.hub.sessions[n].held
    ensures n in HubAfter(s, at, m, lease).sessions
    ensures r in HubAfter(s, at, m, lease).sessions[n].held || MayDrop(s, at, m, r)
  {
    hide Enabled, Fenced, Online, StepOf, NativeWorker.ValidCapacity, Best, Independent, AfterReserve, AfterPrune, Dispatchable;
  }

  /** The table only grows, and only the dispatching reservation is rewritten. */
  lemma TableAfter(s: System, at: Time, m: Move, lease: int, maxAttempts: int, r: ResId)
    requires Allowed(s, at, m, lease, maxAttempts) && HubSound(s.hub) && r in s.hub.table
    ensures r in HubAfter(s, at, m, lease).table
    ensures HubAfter(s, at, m, lease).table[r].node == s.hub.table[r].node
    ensures HubAfter(s, at, m, lease).table[r] == s.hub.table[r] || (m.DispatchBegins? && s.pc.Preparing? && r == s.pc.r)
    ensures forall q | q in HubAfter(s, at, m, lease).table && q !in s.hub.table ::
              m.ReserveWorker? && HubAfter(s, at, m, lease).table[q].attempt == "" && q == s.hub.nextId
  {
    hide Enabled, Fenced, Online, StepOf, NativeWorker.ValidCapacity, Offered;
  }

  lemma MoveKeepsHubSound(s: System, at: Time, m: Move, lease: int, maxAttempts: int)
    requires Allowed(s, at, m, lease, maxAttempts) && HubSound(s.hub)
    ensures HubSound(HubAfter(s, at, m, lease))
  {
    hide Enabled, Fenced, StepOf, Independent, Best, Touches, HubSound,
         AfterReserve, AfterPrune, AfterRelease, AfterComplete, AfterConnect, AfterDispatch, AfterTouch;
    if m.ReserveWorker? {
      ReserveKeepsHubSound(s.hub, m.n, at);
    } else if m.NoWorker? {
      ReserveKeepsHubSound(s.hub, "", at);
    } else if m.DispatchBegins? {
      DispatchKeepsHubSound(s.hub, s.pc.r, s.pc.attempt, m.kind, m.mediaType, at, lease);
    } else if m.Connects? {
      ConnectKeepsHubSound(s.hub, m.n, m.desiredPause, at);
    } else if m.SessionChanges? {
      TouchKeepsHubSound(s.hub, m.n, m.s);
    } else if m.CallbackCompletes? {
      RemovalKeepsHubSound(s.hub, 0, m.job.attempt);
    } else if !s.pc.Idle? && !s.pc.Returning? {
      RemovalKeepsHubSound(s.hub, s.pc.r, "");
    }
    hide Allowed;
  }

  lemma ReserveAdds(s: System, at: Time, m: Move, lease: int, maxAttempts: int)
    requires Allowed(s, at, m, lease, maxAttempts) && HubSound(s.hub) && m.ReserveWorker?
    ensures var r, hub' := s.hub.nextId, HubAfter(s, at, m, lease);
            && r !in s.hub.table && r in hub'.table && hub'.table[r].attempt == "" && hub'.table[r].node == m.n
            && m.n in hub'.sessions && r in hub'.sessions[m.n].held
  {
    hide Online, Offered;
  }

  lemma DispatchMarks(s: System, at: Time, m: Move, lease: int, maxAttempts: int)
    requires Allowed(s, at, m, lease, maxAttempts) && m.DispatchBegins?
    ensures s.pc.Preparing?
    ensures var r, hub' := s.pc.r, HubAfter(s, at, m, lease);
            && r in s.hub.table && r in hub'.table && hub'.table[r].attempt == s.pc.attempt && hub'.table[r].until == at + lease
            && hub'.table[r].node == s.hub.table[r].node && hub'.sessions == s.hub.sessions
            && PcAfter(s, m) == Routing(r, s.pc.id, s.pc.attempt, s.hub.table[r].node)
  {
  }

  lemma MoveKeepsLinked(s: System, at: Time, m: Move, lease: int, maxAttempts: int)
    requires Allowed(s, at, m, lease, maxAttempts)
    requires Linked(s.hub, s.booked, s.net.routes) && LinkedPc(s.hub, s.booked, s.pc) && PcSound(s.pc, s.net, s.booked)
    ensures Linked(HubAfter(s, at, m, lease), BookedAfter(s, m), NetAfter(s, m).routes)
  {
    hide Allowed, HubSound, HubAfter, NetAfter, NetSound, PcAfter;
    var hub', booked' := HubAfter(s, at, m, lease), BookedAfter(s, m);
    MoveKeepsHubSound(s, at, m, lease, maxAttempts);
    if m.DispatchBegins? {
      DispatchMarks(s, at, m, lease, maxAttempts);
    }
    forall r | r in hub'.table && hub'.table[r].attempt != ""
      ensures hub'.table[r].attempt in booked' && booked'[hub'.table[r].attempt] == r
    {
      if r in s.hub.table {
        TableAfter(s, at, m, lease, maxAttempts, r);
      } else {
        NewBookingIsBlank(s, at, m, lease, maxAttempts, r);
      }
    }
    forall a | a in booked'
      ensures a != "" && booked'[a] in hub'.table && hub'.table[booked'[a]].attempt == a
      ensures a in s.booked ==> hub'.table[booked'[a]].node == s.hub.table[s.booked[a]].node
    {
      TableAfter(s, at, m, lease, maxAttempts, booked'[a]);
    }
    RoutesAfter(s, at, m, lease, maxAttempts);
  }

  lemma NewBookingIsBlank(s: System, at: Time, m: Move, lease: int, maxAttempts: int, q: ResId)
    requires Allowed(s, at, m, lease, maxAttempts) && HubSound(s.hub)
    requires q in HubAfter(s, at, m, lease).table && q !in s.hub.table
    ensures m.ReserveWorker? && HubAfter(s, at, m, lease).table[q].attempt == ""
  {
    hide Enabled, Fenced, Online, StepOf, Offered;
  }

  lemma MoveKeepsLinkedPc(s: System, at: Time, m: Move, lease: int, maxAttempts: int)
    requires Allowed(s, at, m, lease, maxAttempts)
    requires Linked(s.hub, s.booked, s.net.routes) && LinkedPc(s.hub, s.booked, s.pc) && PcSound(s.pc, s.net, s.booked)
    ensures LinkedPc(HubAfter(s, at, m, lease), BookedAfter(s, m), PcAfter(s, m))
  {
    var pc' := PcAfter(s, m);
    if m.ReserveWorker? {
      ReserveAdds(s, at, m, lease, maxAttempts);
    } else if m.DispatchBegins? {
      DispatchMarks(s, at, m, lease, maxAttempts);
    } else if pc'.Reserving? || pc'.Preparing? || pc'.Abandoning? {
      TableAfter(s, at, m, lease, maxAttempts, s.pc.r);
      if s.pc.Reserving? || s.pc.Preparing? {
        HubDropsLittle(s, at, m, lease, maxAttempts, s.hub.table[s.pc.r].node, s.pc.r);
      }
    } else if pc'.Routing? {
      TableAfter(s, at, m, lease, maxAttempts, s.pc.r);
    }
    hide HubAfter, HubSound, Fenced, Best, Dispatchable, Touches, NetAfter, Linked, Independent;
  }

  // ---------------------------------------------------------------- coverage survives every move

  lemma ClaimsKept(s: System, at: Time, m: Move, lease: int, maxAttempts: int)
    requires Allowed(s, at, m, lease, maxAttempts)
    ensures WorldAfter(s, at, m).now == at
    ensures forall a | a in s.w.claims :: a in WorldAfter(s, at, m).claims && WorldAfter(s, at, m).claims[a] == s.w.claims[a]
    ensures m.ClaimForWorker? ==>
              m.step.attempt in WorldAfter(s, at, m).claims && WorldAfter(s, at, m).claims[m.step.attempt].until == at + lease
  {
    if StepOf(s, m).Some? {
      ClaimsOnlyGrow(s.w, at, StepOf(s, m).value, maxAttempts);
    }
    hide Enabled, Next, Fenced, Best, Dispatchable, Touches, Independent;
  }

  lemma CoverKept(s: System, at: Time, m: Move, lease: int, maxAttempts: int, a: AttemptId)
    requires Allowed(s, at, m, lease, maxAttempts) && NetSound(s.net) && PcSound(s.pc, s.net, s.booked)
    requires Linked(s.hub, s.booked, s.net.routes) && LinkedPc(s.hub, s.booked, s.pc)
    requires Covered(s, a) && at <= s.w.claims[a].until
    requires (exists job :: job in InHand(s.net) && job.attempt == a) || ((s.pc.Routing? || s.pc.Sending?) && s.pc.attempt == a && !m.RouteFails?)
    ensures Covered(Moved(s, at, m, lease), a)
  {
    hide Allowed, HubAfter, HubSound, WorldAfter, NetAfter, NetSound, MayDrop, PcAfter;
    var r := s.booked[a];
    HubDropsLittle(s, at, m, lease, maxAttempts, s.hub.table[r].node, r);
    TableAfter(s, at, m, lease, maxAttempts, r);
    CoverIsNotDropped(s, at, m, lease, maxAttempts, a);
    ClaimsKept(s, at, m, lease, maxAttempts);
  }

  lemma CoverIsNotDropped(s: System, at: Time, m: Move, lease: int, maxAttempts: int, a: AttemptId)
    requires Allowed(s, at, m, lease, maxAttempts) && NetSound(s.net) && PcSound(s.pc, s.net, s.booked)
    requires Linked(s.hub, s.booked, s.net.routes) && LinkedPc(s.hub, s.booked, s.pc)
    requires Covered(s, a) && at <= s.w.claims[a].until
    requires (exists job :: job in InHand(s.net) && job.attempt == a) || ((s.pc.Routing? || s.pc.Sending?) && s.pc.attempt == a && !m.RouteFails?)
    ensures !MayDrop(s, at, m, s.booked[a])
  {
    hide HubSound, Enabled, Fenced, Best, Dispatchable, Touches, Independent, StepOf;
  }

  lemma MoveKeepsHandsCovered(s: System, at: Time, m: Move, lease: int, maxAttempts: int)
    requires Allowed(s, at, m, lease, maxAttempts) && NetSound(s.net) && PcSound(s.pc, s.net, s.booked) && AttemptsKnown(s)
    requires Linked(s.hub, s.booked, s.net.routes) && LinkedPc(s.hub, s.booked, s.pc) && HandsCovered(s, lease)
    ensures HandsCovered(Moved(s, at, m, lease), lease)
  {
    var s' := Moved(s, at, m, lease);
    hide Covered, Allowed, HubAfter, WorldAfter, NetAfter, Linked, LinkedPc, PcAfter;
    ClaimsKept(s, at, m, lease, maxAttempts);
    forall job | job in InHand(s'.net) && job.attempt in s'.w.claims && s'.w.now <= s'.w.claims[job.attempt].until
      ensures Covered(s', job.attempt)
    {
      if job !in InHand(s.net) {
        NewInHand(s, at, m, lease, maxAttempts, job);
      }
      assert s.w.now <= at by { hide *; ClockAdvances(s, at, m, lease, maxAttempts); }
      CoverKept(s, at, m, lease, maxAttempts, job.attempt);
    }
    CurrentKeptCovered(s, at, m, lease, maxAttempts);
  }

  lemma ClockAdvances(s: System, at: Time, m: Move, lease: int, maxAttempts: int)
    requires Allowed(s, at, m, lease, maxAttempts)
    ensures s.w.now <= at
  {
  }

  lemma CurrentKeptCovered(s: System, at: Time, m: Move, lease: int, maxAttempts: int)
    requires Allowed(s, at, m, lease, maxAttempts) && NetSound(s.net) && PcSound(s.pc, s.net, s.booked) && AttemptsKnown(s)
    requires Linked(s.hub, s.booked, s.net.routes) && LinkedPc(s.hub, s.booked, s.pc) && HandsCovered(s, lease)
    ensures var s' := Moved(s, at, m, lease);
            && (s'.pc.Preparing? ==> s'.pc.attempt in s'.w.claims && s'.w.claims[s'.pc.attempt].until <= s'.w.now + lease)
            && (s'.pc.Routing? || s'.pc.Sending? ==>
                  s'.pc.attempt in s'.w.claims && (s'.w.now <= s'.w.claims[s'.pc.attempt].until ==> Covered(s', s'.pc.attempt)))
  {
    hide Allowed, HubAfter, HubSound, WorldAfter, NetAfter, PcAfter, NetSound, PcSound, LinkedPc, Linked;
    var s' := Moved(s, at, m, lease);
    ClaimsKept(s, at, m, lease, maxAttempts);
    ClockAdvances(s, at, m, lease, maxAttempts);
    PcOrigin(s, at, m, lease, maxAttempts);
    if m.DispatchBegins? {
      DispatchCovers(s, at, m, lease, maxAttempts);
    } else if s'.pc.Routing? || s'.pc.Sending? {
      if at <= s.w.claims[s.pc.attempt].until {
        CoverKept(s, at, m, lease, maxAttempts, s.pc.attempt);
      }
    }
  }

  lemma DispatchCovers(s: System, at: Time, m: Move, lease: int, maxAttempts: int)
    requires Allowed(s, at, m, lease, maxAttempts) && m.DispatchBegins? && LinkedPc(s.hub, s.booked, s.pc)
    requires s.pc.Preparing? ==> s.pc.attempt in s.w.claims && s.w.claims[s.pc.attempt].until <= s.w.now + lease
    ensures s.pc.Preparing? && Covered(Moved(s, at, m, lease), s.pc.attempt)
    ensures PcAfter(s, m).Routing? && PcAfter(s, m).attempt == s.pc.attempt
  {
    DispatchMarks(s, at, m, lease, maxAttempts);
    ClaimsKept(s, at, m, lease, maxAttempts);
    ClockAdvances(s, at, m, lease, maxAttempts);
    hide Allowed, HubAfter, WorldAfter, NetAfter, PcAfter;
  }

  // ---------------------------------------------------------------- every run

  datatype TimedMove = TimedMove(at: Time, m: Move)

  function ExecSystem(s: System, run: seq<TimedMove>, lease: int): System {
    if run == [] then s
    else var last := run[|run| - 1]; Moved(ExecSystem(s, run[..|run| - 1], lease), last.at, last.m, lease)
  }

  ghost predicate ValidSystemRun(s: System, run: seq<TimedMove>, lease: int, maxAttempts: int) {
    run == [] || (ValidSystemRun(s, run[..|run| - 1], lease, maxAttempts)
                  && Allowed(ExecSystem(s, run[..|run| - 1], lease), run[|run| - 1].at, run[|run| - 1].m, lease, maxAttempts))
  }

  ghost predicate InitialSystem(s: System) {
    && Initial(s.w) && s.hub == HubState(map[], map[], 0, 0) && s.pc == Idle
    && s.net == Net(map[], {}, {}, map[], {}, {}) && s.booked == map[]
  }

  /** Claims are totally ordered. */
  ghost predicate SerialsDistinct(w: World) {
    forall a, b | a in w.claims && b in w.claims && a != b :: w.claims[a].serial != w.claims[b].serial
  }

  lemma MoveKeepsSerials(s: System, at: Time, m: Move, lease: int, maxAttempts: int)
    requires Allowed(s, at, m, lease, maxAttempts) && AttemptsSound(s.w, maxAttempts) && SerialsDistinct(s.w)
    ensures AttemptsSound(WorldAfter(s, at, m), maxAttempts) && SerialsDistinct(WorldAfter(s, at, m))
  {
    if StepOf(s, m).Some? {
      var step := StepOf(s, m).value;
      StepKeepsAttempts(s.w, at, step, maxAttempts);
      ClaimsOnlyGrow(s.w, at, step, maxAttempts);
      assert forall a | a in s.w.claims :: s.w.claims[a].serial < s.w.serial;
      hide AttemptsSound, Next, Enabled, Fenced, Best, Dispatchable, Touches, Independent, StepOf;
    } else {
      hide Allowed;
    }
  }

  ghost predicate SystemSound(s: System, lease: int, maxAttempts: int) {
    && AttemptsSound(s.w, maxAttempts) && SerialsDistinct(s.w) && NetSound(s.net) && PcSound(s.pc, s.net, s.booked)
    && AttemptsKnown(s) && LeasesSafe(s.w, s.net, s.pc)
    && Linked(s.hub, s.booked, s.net.routes) && LinkedPc(s.hub, s.booked, s.pc) && HandsCovered(s, lease)
  }

  lemma MoveKeepsSystemSound(s: System, at: Time, m: Move, lease: int, maxAttempts: int)
    requires Allowed(s, at, m, lease, maxAttempts) && SystemSound(s, lease, maxAttempts)
    ensures SystemSound(Moved(s, at, m, lease), lease, maxAttempts)
  {
    hide Allowed, AttemptsSound, SerialsDistinct, NetSound, PcSound, AttemptsKnown, LeasesSafe, Linked, LinkedPc, HandsCovered,
         WorldAfter, HubAfter, NetAfter, PcAfter, BookedAfter;
    MoveKeepsSerials(s, at, m, lease, maxAttempts);
    MoveKeepsNetSound(s, at, m, lease, maxAttempts);
    MoveKeepsPcSound(s, at, m, lease, maxAttempts);
    MoveKeepsAttemptsKnown(s, at, m, lease, maxAttempts);
    MoveKeepsLeases(s, at, m, lease, maxAttempts);
    MoveKeepsLinked(s, at, m, lease, maxAttempts);
    MoveKeepsLinkedPc(s, at, m, lease, maxAttempts);
    MoveKeepsHandsCovered(s, at, m, lease, maxAttempts);
  }

  lemma {:induction false} SystemSoundInEveryRun(s: System, run: seq<TimedMove>, lease: int, maxAttempts: int)
    requires InitialSystem(s) && ValidSystemRun(s, run, lease, maxAttempts) && maxAttempts > 0
    ensures SystemSound(ExecSystem(s, run, lease), lease, maxAttempts)
  {
    if run != [] {
      hide SystemSound, Moved, Allowed, InitialSystem;
      SystemSoundInEveryRun(s, run[..|run| - 1], lease, maxAttempts);
      MoveKeepsSystemSound(ExecSystem(s, run[..|run| - 1], lease), run[|run| - 1].at, run[|run| - 1].m, lease, maxAttempts);
    }
  }

  /**
   One executor per lease: if two requests for one document are in Macs' hands or on their way, they are the
   same request, or they belong to different claims and the lease of the earlier claim has passed.
   */
  lemma SingleExecutorPerLease(s: System, run: seq<TimedMove>, lease: int, maxAttempts: int, job1: Job, job2: Job)
    requires InitialSystem(s) && ValidSystemRun(s, run, lease, maxAttempts) && maxAttempts > 0
    requires job1 in InHand(ExecSystem(s, run, lease).net) && job2 in InHand(ExecSystem(s, run, lease).net)
    ensures var w := ExecSystem(s, run, lease).w;
            && job1.attempt in w.claims && job2.attempt in w.claims
            && var c1, c2 := w.claims[job1.attempt], w.claims[job2.attempt];
               c1.document == c2.document ==>
                 if job1.attempt == job2.attempt then job1 == job2
                 else c1.serial != c2.serial && (if c1.serial < c2.serial then c1.until else c2.until) <= w.now
  {
    SystemSoundInEveryRun(s, run, lease, maxAttempts);
    hide ExecSystem, ValidSystemRun, InitialSystem, AttemptsSound, Linked, LinkedPc, HandsCovered, AttemptsKnown, PcSound;
    var s' := ExecSystem(s, run, lease);
    assert LeaseSafe(s'.w, job1.attempt) && LeaseSafe(s'.w, job2.attempt);
  }

  /** A document goes back to the queue before its lease has passed only if no Mac has the request or may still get it. */
  lemma EarlyRequeueMeansNobodyHasIt(s: System, run: seq<TimedMove>, at: Time, m: Move, lease: int, maxAttempts: int, job: Job)
    requires InitialSystem(s) && ValidSystemRun(s, run, lease, maxAttempts) && maxAttempts > 0
    requires Allowed(ExecSystem(s, run, lease), at, m, lease, maxAttempts)
    requires var s' := ExecSystem(s, run, lease);
             && StepOf(s', m).Some? && (StepOf(s', m).value.Requeued? || StepOf(s', m).value.Released?)
             && job.attempt == StepOf(s', m).value.attempt
    ensures job !in InHand(ExecSystem(s, run, lease).net)
    ensures job !in InHand(Moved(ExecSystem(s, run, lease), at, m, lease).net)
  {
    SystemSoundInEveryRun(s, run, lease, maxAttempts);
    var s' := ExecSystem(s, run, lease);
    hide ExecSystem, ValidSystemRun, InitialSystem, NetSound, PcSound, LeasesSafe, AttemptsKnown, HandsCovered, Linked, LinkedPc, AttemptsSound, Allowed;
    HandedBackIsNotInHand(s', at, m, lease, maxAttempts, job.attempt);
    if job !in InHand(s'.net) && job in InHand(NetAfter(s', m)) {
      NewInHand(s', at, m, lease, maxAttempts, job);
    }
  }

  /**
   The hub covers the Macs: while its lease lasts, an attempt that holds a slot has exactly one reservation in
   the whole hub, and that is on the one session of the node that holds the slot, wherever reconnects moved it.
   */
  lemma HubCoversMacs(s: System, run: seq<TimedMove>, lease: int, maxAttempts: int)
    requires InitialSystem(s) && ValidSystemRun(s, run, lease, maxAttempts) && maxAttempts > 0
    ensures var s' := ExecSystem(s, run, lease);
            forall job | job in s'.net.slots ::
              && job.attempt in s'.w.claims && job.attempt in s'.booked
              && (s'.w.now <= s'.w.claims[job.attempt].until ==>
                    ReservationsOf(s'.hub, job.attempt) == {(job.node, s'.booked[job.attempt])})
  {
    SystemSoundInEveryRun(s, run, lease, maxAttempts);
    var s' := ExecSystem(s, run, lease);
    hide ExecSystem, ValidSystemRun, InitialSystem, SystemSound, ReservationsOf;
    forall job | job in s'.net.slots
      ensures job.attempt in s'.w.claims && job.attempt in s'.booked
      ensures s'.w.now <= s'.w.claims[job.attempt].until ==>
                ReservationsOf(s'.hub, job.attempt) == {(job.node, s'.booked[job.attempt])}
    {
      SlotIsCovered(s', lease, maxAttempts, job);
    }
  }

  /** Where in the hub an attempt is held. */
  function ReservationsOf(h: HubState, a: AttemptId): set<(NodeId, ResId)> {
    set n, r | n in h.sessions && r in h.sessions[n].held && r in h.table && h.table[r].attempt == a :: (n, r)
  }

  lemma SlotIsCovered(s: System, lease: int, maxAttempts: int, job: Job)
    requires SystemSound(s, lease, maxAttempts) && job in s.net.slots
    ensures job.attempt in s.w.claims && job.attempt in s.booked
    ensures s.w.now <= s.w.claims[job.attempt].until ==> ReservationsOf(s.hub, job.attempt) == {(job.node, s.booked[job.attempt])}
  {
    hide PcSound, LeasesSafe, LinkedPc, AttemptsSound;
    assert job in InHand(s.net) && Routed(s.net, job);
    assert s.hub.table[s.booked[job.attempt]].node == job.node;
    if s.w.now <= s.w.claims[job.attempt].until {
      assert Covered(s, job.attempt);
    }
  }
}
