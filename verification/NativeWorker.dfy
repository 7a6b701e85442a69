/**
 The Mac's weighted slot allocator: how much work the resource policy allows, how slowly the limit
 recovers, and what the actor hands out. The memory and thermal probe is a parameter.
 */
module NativeWorker {
  import opened Wrappers
  import opened Sums
  import opened Tables

  // ---------------------------------------------------------------- the resource policy

  datatype Thermal = Nominal | Fair | Serious | Critical

  function Heat(t: Thermal): nat {
    match t case Nominal => 0 case Fair => 1 case Serious => 2 case Critical => 3
  }

  datatype Snapshot = Snapshot(processors: int, availableMemory: nat, thermal: Thermal)

  datatype PolicyFields = PolicyFields(
    enabled: bool, reserveCores: int, reserveMemory: nat, memoryPerUnit: nat,
    imageJobUnits: int, pdfJobUnits: int, recoverySamples: int)

  const MIN_MEMORY_PER_UNIT := 256 * 1024 * 1024

  /** What the initializer's clamping guarantees. */
  predicate InRange(p: PolicyFields) {
    p.reserveCores >= 0 && p.memoryPerUnit >= MIN_MEMORY_PER_UNIT && p.imageJobUnits >= 1 && p.pdfJobUnits >= 1 && p.recoverySamples >= 1
  }

  type Policy = p: PolicyFields | InRange(p) witness PolicyFields(false, 0, 0, MIN_MEMORY_PER_UNIT, 1, 1, 1)

  datatype Decision = Decision(limit: int, reason: string)

  function Min(a: int, b: int): int { if a <= b then a else b }
  function Max(a: int, b: int): int { if a <= b then b else a }

  function CoreUnits(p: Policy, s: Snapshot): int { Max(0, s.processors - p.reserveCores) }

  function MemoryUnits(p: Policy, s: Snapshot): int {
    if s.availableMemory <= p.reserveMemory then 0 else (s.availableMemory - p.reserveMemory) / p.memoryPerUnit
  }

  function Decide(p: Policy, operatorLimit: int, s: Snapshot): Decision {
    var ceiling := Max(0, operatorLimit);
    if ceiling == 0 then Decision(0, "operator-paused")
    else if !p.enabled then Decision(ceiling, "operator-ceiling")
    else if s.thermal == Critical then Decision(0, "thermal-critical")
    else
      var cores := CoreUnits(p, s);
      var spare := Min(ceiling, Min(cores, MemoryUnits(p, s)));
      var target := match s.thermal
        case Serious => Min(spare, 1)
        case Fair => Min(spare, Max(1, cores / 2))
        case _ => spare;
      Decision(Max(0, target), if target == 0 then "memory-safety-reserve" else "adaptive")
  }

  /** No media type counts as a PDF; the caller has lower-cased it. */
  function Units(p: Policy, mediaType: Option<string>): (units: int)
    ensures units >= 1
  {
    if mediaType == None || mediaType.value == "" || mediaType.value == "application/pdf" then p.pdfJobUnits else p.imageJobUnits
  }

  lemma MemoryUnitsMonotone(p: Policy, s1: Snapshot, s2: Snapshot)
    requires s1.availableMemory <= s2.availableMemory
    ensures 0 <= MemoryUnits(p, s1) <= MemoryUnits(p, s2)
  {
    var m := p.memoryPerUnit;
    if s1.availableMemory > p.reserveMemory {
      QuotientMonotone(s1.availableMemory - p.reserveMemory, s2.availableMemory - p.reserveMemory, m);
    } else if s2.availableMemory > p.reserveMemory {
      QuotientMonotone(0, s2.availableMemory - p.reserveMemory, m);
    }
  }

  lemma QuotientMonotone(a: nat, b: nat, m: int)
    requires a <= b && m > 0
    ensures 0 <= a / m <= b / m
  {
    var q, r := a / m, b / m;
    assert a == m * q + a % m && b == m * r + b % m;
    assert r < q ==> m * (r + 1) <= m * q;
  }

  /** More ceiling, cores or memory never lowers the limit, more heat never raises it, and the ceiling always holds. */
  lemma DecideMonotone(p: Policy, limit1: int, s1: Snapshot, limit2: int, s2: Snapshot)
    requires limit1 <= limit2 && s1.processors <= s2.processors && s1.availableMemory <= s2.availableMemory
    requires Heat(s2.thermal) <= Heat(s1.thermal)
    ensures Decide(p, limit1, s1).limit <= Decide(p, limit2, s2).limit
    ensures 0 <= Decide(p, limit2, s2).limit <= Max(0, limit2)
  {
    MemoryUnitsMonotone(p, s1, s2);
    hide MemoryUnits;
  }

  /** The Mac takes no work exactly when it is paused, critically hot, or has no spare core or no spare memory unit. */
  lemma DecideZeroExactly(p: Policy, operatorLimit: int, s: Snapshot)
    ensures Decide(p, operatorLimit, s).limit == 0 <==>
              || operatorLimit <= 0
              || (p.enabled && (|| s.thermal == Critical
                                || s.processors <= p.reserveCores
                                || s.availableMemory < p.reserveMemory + p.memoryPerUnit))
  {
    if s.availableMemory > p.reserveMemory {
      var spare, m := s.availableMemory - p.reserveMemory, p.memoryPerUnit;
      assert spare == m * (spare / m) + spare % m;
      QuotientMonotone(0, spare, m);
      if spare >= m {
        QuotientMonotone(m, spare, m);
      }
    }
  }

  /** `n` units of work at once leave the reserve alone, under the operator's ceiling and as much as the heat allows. */
  predicate Affordable(p: Policy, operatorLimit: int, s: Snapshot, n: nat) {
    && n <= operatorLimit
    && (p.enabled ==>
          var cores := s.processors - p.reserveCores;
          && n <= cores && p.reserveMemory + n * p.memoryPerUnit <= s.availableMemory
          && match s.thermal
             case Nominal => true
             case Fair => n == 1 || 2 * n <= cores
             case Serious => n == 1
             case Critical => false)
  }

  /** The policy allows as many units as it can: `n` are within the limit exactly if they are affordable. */
  lemma LimitIsLargestAffordable(p: Policy, operatorLimit: int, s: Snapshot, n: nat)
    requires n >= 1
    ensures n <= Decide(p, operatorLimit, s).limit <==> Affordable(p, operatorLimit, s, n)
  {
    if s.availableMemory > p.reserveMemory {
      FitsExactly(s.availableMemory - p.reserveMemory, p.memoryPerUnit, n);
    } else {
      ProductGrows(p.memoryPerUnit, n);
    }
    hide MemoryUnits;
    assert MemoryUnits(p, s) == if s.availableMemory <= p.reserveMemory then 0 else (s.availableMemory - p.reserveMemory) / p.memoryPerUnit
      by { MemoryUnitsIs(p, s); }
  }

  lemma MemoryUnitsIs(p: Policy, s: Snapshot)
    ensures MemoryUnits(p, s) == if s.availableMemory <= p.reserveMemory then 0 else (s.availableMemory - p.reserveMemory) / p.memoryPerUnit
  {
  }

  lemma FitsExactly(room: nat, unit: int, n: nat)
    requires unit > 0
    ensures n <= room / unit <==> n * unit <= room
  {
    var q := room / unit;
    assert room == unit * q + room % unit;
    if n <= q {
      assert n * unit <= q * unit;
    } else {
      assert n * unit >= (q + 1) * unit == q * unit + unit;
    }
  }

  /** The reason given for a limit. */
  lemma DecisionReasons(p: Policy, operatorLimit: int, s: Snapshot)
    ensures var d := Decide(p, operatorLimit, s);
            && (d.reason == "operator-paused" <==> operatorLimit <= 0)
            && (d.reason == "operator-ceiling" <==> operatorLimit > 0 && !p.enabled)
            && (d.reason == "thermal-critical" <==> operatorLimit > 0 && p.enabled && s.thermal == Critical)
            && (d.reason == "memory-safety-reserve" <==> operatorLimit > 0 && p.enabled && s.thermal != Critical && d.limit == 0)
            && (d.reason == "adaptive" <==> p.enabled && d.limit > 0)
  {
    DecideMonotone(p, operatorLimit, s, operatorLimit, s);
    assert |"operator-paused"| != |"operator-ceiling"| && |"adaptive"| == 8 && |"memory-safety-reserve"| == 21;
    assert "thermal-critical"[0] != "operator-ceiling"[0];
    MemoryUnitsMonotone(p, s, s);
    hide MemoryUnits;
  }

  // ---------------------------------------------------------------- the actor as a value

  datatype Worker = Worker(
    operatorLimit: int, configVersion: nat, sequence: nat, effectiveLimit: int, activeUnits: int,
    allocations: map<AttemptId, int>, resourceReason: string, growthCandidate: Option<int>, growthSamples: nat)

  function Started(p: Policy, operatorLimit: int, s: Snapshot): Worker {
    var d := Decide(p, Max(0, operatorLimit), s);
    Worker(Max(0, operatorLimit), 1, 0, d.limit, 0, map[], d.reason, None, 0)
  }

  function Refreshed(p: Policy, w: Worker, s: Snapshot): Worker {
    var d := Decide(p, w.operatorLimit, s);
    var grown := if w.growthCandidate == Some(d.limit) then w.growthSamples + 1 else 1;
    var w1 :=
      if d.limit < w.effectiveLimit then w.(effectiveLimit := d.limit, growthCandidate := None, growthSamples := 0)
      else if d.limit == w.effectiveLimit then w.(growthCandidate := None, growthSamples := 0)
      else if grown >= p.recoverySamples then w.(effectiveLimit := d.limit, growthCandidate := None, growthSamples := 0)
      else w.(growthCandidate := Some(d.limit), growthSamples := grown);
    w1.(resourceReason := d.reason,
        configVersion := if w1.effectiveLimit != w.effectiveLimit then w.configVersion + 1 else w.configVersion)
  }

  /** A refresh touches the limit alone: it takes over the decision, or stays below it. */
  lemma RefreshFrame(p: Policy, w: Worker, s: Snapshot)
    ensures var w', d := Refreshed(p, w, s), Decide(p, w.operatorLimit, s).limit;
            && w'.operatorLimit == w.operatorLimit && w'.allocations == w.allocations && w'.activeUnits == w.activeUnits
            && 0 <= d <= Max(0, w.operatorLimit)
            && (w'.effectiveLimit == d || w'.effectiveLimit == w.effectiveLimit < d)
  {
    DecideMonotone(p, w.operatorLimit, s, w.operatorLimit, s);
    hide Decide;
  }

  /** One call into the actor; each takes one resource snapshot. */
  datatype Call =
    | TryAcquire(attempt: AttemptId, mediaType: Option<string>)
    | Release(attempt: AttemptId)
    | SetOperatorLimit(limit: int)
    | Probe

  /** The state in which the call's refresh happens. */
  function BeforeRefresh(w: Worker, call: Call): Worker {
    match call
    case Release(attempt) =>
      var freed :=
        if attempt in w.allocations
        then w.(allocations := w.allocations - {attempt}, activeUnits := Max(0, w.activeUnits - w.allocations[attempt]))
        else w;
      freed.(sequence := w.sequence + 1)
    case SetOperatorLimit(limit) => w.(operatorLimit := Max(0, limit), configVersion := w.configVersion + 1)
    case _ => w
  }

  predicate Grants(p: Policy, w: Worker, attempt: AttemptId, mediaType: Option<string>) {
    w.operatorLimit != 0 && attempt !in w.allocations && w.activeUnits + Units(p, mediaType) <= w.effectiveLimit
  }

  function AfterCall(p: Policy, w: Worker, call: Call, s: Snapshot): Worker {
    var w1 := Refreshed(p, BeforeRefresh(w, call), s);
    match call
    case TryAcquire(attempt, mediaType) =>
      if Grants(p, w1, attempt, mediaType)
      then w1.(allocations := w1.allocations[attempt := Units(p, mediaType)], activeUnits := w1.activeUnits + Units(p, mediaType))
      else w1
    case _ => w1
  }

  predicate Accepts(p: Policy, w: Worker, call: Call, s: Snapshot) {
    call.TryAcquire? && Grants(p, Refreshed(p, w, s), call.attempt, call.mediaType)
  }

  datatype Capacity = Capacity(
    configVersion: nat, state: string, operatorLimit: int, effectiveLimit: int, active: int, available: int,
    activeUnits: int, availableUnits: int, imageJobUnits: int, pdfJobUnits: int)

  function CapacityOf(p: Policy, w: Worker): Capacity {
    var availableUnits := Max(0, w.effectiveLimit - w.activeUnits);
    Capacity(w.configVersion,
             if w.operatorLimit == 0 then "paused" else if availableUnits == 0 then "busy" else "ready",
             w.operatorLimit, w.effectiveLimit, |w.allocations|, availableUnits / Max(1, p.imageJobUnits),
             w.activeUnits, availableUnits, p.imageJobUnits, p.pdfJobUnits)
  }

  // ---------------------------------------------------------------- the actor as an object

  class NativeWorkerState {
    const policy: Policy
    var operatorLimit: int
    var configVersion: nat
    var sequence: nat
    var effectiveLimit: int
    var activeUnits: int
    var allocations: map<AttemptId, int>
    var resourceReason: string
    var growthCandidate: Option<int>
    var growthSamples: nat

    ghost function State(): Worker
      reads this
    {
      Worker(operatorLimit, configVersion, sequence, effectiveLimit, activeUnits, allocations, resourceReason, growthCandidate, growthSamples)
    }

    constructor (limit: int, policy: Policy, snapshot: Snapshot)
      ensures this.policy == policy && State() == Started(policy, limit, snapshot)
    {
      this.policy := policy;
      var ceiling := if limit < 0 then 0 else limit;
      var decision := Decide(policy, ceiling, snapshot);
      operatorLimit, configVersion, sequence, activeUnits, allocations := ceiling, 1, 0, 0, map[];
      effectiveLimit, resourceReason, growthCandidate, growthSamples := decision.limit, decision.reason, None, 0;
    }

    method RefreshAdaptiveLimit(snapshot: Snapshot)
      modifies this
      ensures State() == Refreshed(policy, old(State()), snapshot)
    {
      var decision := Decide(policy, operatorLimit, snapshot);
      var oldLimit := effectiveLimit;
      if decision.limit < effectiveLimit {
        effectiveLimit, growthCandidate, growthSamples := decision.limit, None, 0;
      } else if decision.limit > effectiveLimit {
        if growthCandidate == Some(decision.limit) {
          growthSamples := growthSamples + 1;
        } else {
          growthCandidate, growthSamples := Some(decision.limit), 1;
        }
        if growthSamples >= policy.recoverySamples {
          effectiveLimit, growthCandidate, growthSamples := decision.limit, None, 0;
        }
      } else {
        growthCandidate, growthSamples := None, 0;
      }
      resourceReason := decision.reason;
      if effectiveLimit != oldLimit {
        configVersion := configVersion + 1;
      }
    }

    method TryAcquireSlot(attempt: AttemptId, mediaType: Option<string>, snapshot: Snapshot) returns (accepted: bool, report: Capacity)
      modifies this
      ensures State() == AfterCall(policy, old(State()), TryAcquire(attempt, mediaType), snapshot)
      ensures accepted == Accepts(policy, old(State()), TryAcquire(attempt, mediaType), snapshot)
      ensures report == CapacityOf(policy, State())
    {
      RefreshAdaptiveLimit(snapshot);
      var units := Units(policy, mediaType);
      accepted := !(operatorLimit == 0 || attempt in allocations || activeUnits + units > effectiveLimit);
      if accepted {
        allocations := allocations[attempt := units];
        activeUnits := activeUnits + units;
      }
      report := CurrentCapacity();
    }

    method ReleaseSlot(attempt: AttemptId, snapshot: Snapshot) returns (stamp: nat, report: Capacity)
      modifies this
      ensures State() == AfterCall(policy, old(State()), Release(attempt), snapshot)
      ensures stamp == old(sequence) + 1 && report == CapacityOf(policy, State())
    {
      if attempt in allocations {
        var units := allocations[attempt];
        allocations := allocations - {attempt};
        activeUnits := if activeUnits - units < 0 then 0 else activeUnits - units;
      }
      sequence := sequence + 1;
      RefreshAdaptiveLimit(snapshot);
      stamp := sequence;
      report := CurrentCapacity();
    }

    method UpdateOperatorLimit(limit: int, snapshot: Snapshot) returns (report: Capacity)
      modifies this
      ensures State() == AfterCall(policy, old(State()), SetOperatorLimit(limit), snapshot)
      ensures report == CapacityOf(policy, State())
    {
      operatorLimit := if limit < 0 then 0 else limit;
      configVersion := configVersion + 1;
      RefreshAdaptiveLimit(snapshot);
      report := CurrentCapacity();
    }

    method GetCapacity(snapshot: Snapshot) returns (report: Capacity)
      modifies this
      ensures State() == AfterCall(policy, old(State()), Probe, snapshot)
      ensures report == CapacityOf(policy, State())
    {
      RefreshAdaptiveLimit(snapshot);
      report := CurrentCapacity();
    }

    method CurrentCapacity() returns (report: Capacity)
      ensures report == CapacityOf(policy, State())
    {
      var availableUnits := if effectiveLimit - activeUnits < 0 then 0 else effectiveLimit - activeUnits;
      var perImage := if policy.imageJobUnits < 1 then 1 else policy.imageJobUnits;
      var state := "ready";
      if operatorLimit == 0 {
        state := "paused";
      } else if availableUnits == 0 {
        state := "busy";
      }
      report := Capacity(configVersion, state, operatorLimit, effectiveLimit, |allocations|, availableUnits / perImage,
                         activeUnits, availableUnits, policy.imageJobUnits, policy.pdfJobUnits);
    }
  }

  // ---------------------------------------------------------------- every history of calls

  datatype Sampled = Sampled(call: Call, snapshot: Snapshot)

  function After(p: Policy, w: Worker, run: seq<Sampled>): Worker {
    if run == [] then w
    else var last := run[|run| - 1]; AfterCall(p, After(p, w, run[..|run| - 1]), last.call, last.snapshot)
  }

  /** The limit the policy decided on at the last call of the run. */
  function LastDecision(p: Policy, w: Worker, run: seq<Sampled>): int
    requires run != []
  {
    var last := run[|run| - 1];
    Decide(p, BeforeRefresh(After(p, w, run[..|run| - 1]), last.call).operatorLimit, last.snapshot).limit
  }

  /** All decisions since the start, the initial one first. */
  function Decisions(p: Policy, w: Worker, run: seq<Sampled>): (h: seq<int>)
    ensures |h| == |run| + 1
  {
    if run == [] then [w.effectiveLimit] else Decisions(p, w, run[..|run| - 1]) + [LastDecision(p, w, run)]
  }

  /** How many of the latest decisions were exactly `limit`. */
  function Streak(h: seq<int>, limit: int): (n: nat)
    ensures n <= |h|
    ensures forall i | |h| - n <= i < |h| :: h[i] == limit
    ensures n < |h| ==> h[|h| - n - 1] != limit
  {
    if h == [] || h[|h| - 1] != limit then 0 else Streak(h[..|h| - 1], limit) + 1
  }

  /** Recovery stated over the decisions alone, without candidate or counter: fall at once, rise after a full streak. */
  function Settled(h: seq<int>, recoverySamples: int): int
    requires h != []
  {
    var d := h[|h| - 1];
    if |h| == 1 then d
    else
      var before := Settled(h[..|h| - 1], recoverySamples);
      if d <= before || Streak(h, d) >= recoverySamples then d else before
  }

  /** What the growth fields mean in terms of the history. */
  ghost predicate Tracks(w: Worker, h: seq<int>, recoverySamples: int)
    requires h != []
  {
    var d := h[|h| - 1];
    && w.effectiveLimit == Settled(h, recoverySamples) <= d
    && (if w.effectiveLimit == d then w.growthCandidate == None && w.growthSamples == 0
        else w.growthCandidate == Some(d) && w.growthSamples == Streak(h, d) < recoverySamples)
  }

  lemma RefreshTracks(p: Policy, w: Worker, s: Snapshot, h: seq<int>)
    requires h != [] && Tracks(w, h, p.recoverySamples)
    ensures Tracks(Refreshed(p, w, s), h + [Decide(p, w.operatorLimit, s).limit], p.recoverySamples)
  {
    var d := Decide(p, w.operatorLimit, s).limit;
    var h' := h + [d];
    hide Decide;
    assert h'[..|h'| - 1] == h;
    if h[|h| - 1] != d {
      assert Streak(h, d) == 0;
    }
  }

  lemma {:induction false} TracksEveryHistory(p: Policy, limit: int, s: Snapshot, run: seq<Sampled>)
    ensures Tracks(After(p, Started(p, limit, s), run), Decisions(p, Started(p, limit, s), run), p.recoverySamples)
  {
    var w := Started(p, limit, s);
    if run != [] {
      hide Refreshed, Streak, Settled, Decide, Started;
      var before, last := run[..|run| - 1], run[|run| - 1];
      TracksEveryHistory(p, limit, s, before);
      CallKeepsGrowth(After(p, w, before), last.call, Decisions(p, w, before), p.recoverySamples);
      hide Tracks, BeforeRefresh;
      RefreshTracks(p, BeforeRefresh(After(p, w, before), last.call), last.snapshot, Decisions(p, w, before));
    }
  }

  /** What a call does before the refresh leaves the limit and its growth alone. */
  lemma CallKeepsGrowth(w: Worker, call: Call, h: seq<int>, recoverySamples: int)
    requires h != [] && Tracks(w, h, recoverySamples)
    ensures Tracks(BeforeRefresh(w, call), h, recoverySamples)
  {
    hide Streak, Settled;
  }

  /**
   Hysteresis over whole histories: the effective limit is the settled value of the decision history; it
   never exceeds the last decision, nor that the operator's ceiling; and a call raises it exactly when the
   last `recoverySamples` decisions, this one included, all were the same higher limit.
   */
  lemma HysteresisOverHistories(p: Policy, limit: int, s: Snapshot, run: seq<Sampled>)
    requires run != []
    ensures var w0 := Started(p, limit, s);
            var w, before := After(p, w0, run), After(p, w0, run[..|run| - 1]);
            var h, d := Decisions(p, w0, run), LastDecision(p, w0, run);
            && w.effectiveLimit == Settled(h, p.recoverySamples)
            && 0 <= w.effectiveLimit <= d <= w.operatorLimit
            && (w.effectiveLimit > before.effectiveLimit <==>
                  && d > before.effectiveLimit && p.recoverySamples <= |h|
                  && forall i | |h| - p.recoverySamples <= i < |h| :: h[i] == d)
            && (w.effectiveLimit != before.effectiveLimit ==> w.effectiveLimit == d)
  {
    var w0 := Started(p, limit, s);
    var before, last := run[..|run| - 1], run[|run| - 1];
    TracksEveryHistory(p, limit, s, run);
    TracksEveryHistory(p, limit, s, before);
    LimitsAreNonNegative(p, limit, s, before);
    RefreshFrame(p, BeforeRefresh(After(p, w0, before), last.call), last.snapshot);
    LimitsAreNonNegative(p, limit, s, run);
    hide Decide, Refreshed, Started;
    var h := Decisions(p, w0, run);
    assert h[..|h| - 1] == Decisions(p, w0, before);
  }

  lemma {:induction false} LimitsAreNonNegative(p: Policy, limit: int, s: Snapshot, run: seq<Sampled>)
    ensures var w := After(p, Started(p, limit, s), run); w.operatorLimit >= 0 && w.effectiveLimit >= 0
  {
    hide Decide, Refreshed;
    if run != [] {
      hide Started;
      var before, last := run[..|run| - 1], run[|run| - 1];
      LimitsAreNonNegative(p, limit, s, before);
      RefreshFrame(p, BeforeRefresh(After(p, Started(p, limit, s), before), last.call), last.snapshot);
    } else {
      DecideMonotone(p, Max(0, limit), s, Max(0, limit), s);
    }
  }

  /** A limit that is decided `recoverySamples` times in a row is in force, whatever happened before. */
  lemma SteadyDecisionsTakeEffect(p: Policy, limit: int, s: Snapshot, run: seq<Sampled>, steady: int)
    requires var h := Decisions(p, Started(p, limit, s), run);
             p.recoverySamples <= |h| && forall i | |h| - p.recoverySamples <= i < |h| :: h[i] == steady
    ensures After(p, Started(p, limit, s), run).effectiveLimit == steady
  {
    TracksEveryHistory(p, limit, s, run);
    var h := Decisions(p, Started(p, limit, s), run);
    assert h[|h| - 1] == steady;
  }

  // ---------------------------------------------------------------- the books of the allocator

  ghost function Weight(): int -> int { (u: int) => u }

  ghost predicate Booked(w: Worker) {
    && (forall a | a in w.allocations :: w.allocations[a] >= 1)
    && w.activeUnits == Sum(w.allocations, Weight())
  }

  lemma {:induction false} CountWithinUnits(allocations: map<AttemptId, int>)
    requires forall a | a in allocations :: allocations[a] >= 1
    ensures |allocations| <= Sum(allocations, Weight())
    decreases |allocations|
  {
    if allocations != map[] {
      var a :| a in allocations && Sum(allocations, Weight()) == Weight()(allocations[a]) + Sum(allocations - {a}, Weight());
      CountWithinUnits(allocations - {a});
    }
  }

  /** A call keeps the books exact; a release frees exactly what its slot held, so its max(0, ...) never bites. */
  lemma CallKeepsBooks(p: Policy, w: Worker, call: Call, s: Snapshot)
    requires Booked(w)
    ensures Booked(AfterCall(p, w, call, s))
    ensures call.Release? && call.attempt in w.allocations ==>
              0 <= w.allocations[call.attempt] <= w.activeUnits
              && AfterCall(p, w, call, s).activeUnits == w.activeUnits - w.allocations[call.attempt]
  {
    hide Decide;
    match call
    case TryAcquire(attempt, mediaType) => SumUpdate(w.allocations, Weight(), attempt, Units(p, mediaType));
    case Release(attempt) =>
      if attempt in w.allocations {
        SumRemove(w.allocations, Weight(), attempt);
        SumBoundsMember(w.allocations, Weight(), attempt);
      }
    case _ =>
  }

  lemma {:induction false} BooksInEveryHistory(p: Policy, limit: int, s: Snapshot, run: seq<Sampled>)
    ensures Booked(After(p, Started(p, limit, s), run))
  {
    hide AfterCall, Decide;
    if run != [] {
      hide Booked;
      BooksInEveryHistory(p, limit, s, run[..|run| - 1]);
      CallKeepsBooks(p, After(p, Started(p, limit, s), run[..|run| - 1]), run[|run| - 1].call, run[|run| - 1].snapshot);
    }
  }

  /**
   A slot is granted exactly to an attempt that holds none, fits under the limit in force, and is not
   paused away; after a grant everything in use is within the limit, though the limit may fall later.
   */
  lemma GrantStaysWithinLimit(p: Policy, limit: int, s: Snapshot, run: seq<Sampled>, call: Call, now: Snapshot)
    requires call.TryAcquire?
    ensures var w := After(p, Started(p, limit, s), run);
            var w' := AfterCall(p, w, call, now);
            if Accepts(p, w, call, now) then
              && call.attempt !in w.allocations && w'.allocations == w.allocations[call.attempt := Units(p, call.mediaType)]
              && Sum(w'.allocations, Weight()) == w'.activeUnits <= w'.effectiveLimit <= w'.operatorLimit
            else
              && w'.allocations == w.allocations && w'.activeUnits == w.activeUnits
              && (w'.operatorLimit == 0 || call.attempt in w.allocations || w.activeUnits + Units(p, call.mediaType) > w'.effectiveLimit)
  {
    var w := After(p, Started(p, limit, s), run);
    BooksInEveryHistory(p, limit, s, run);
    LimitsAreNonNegative(p, limit, s, run);
    CallKeepsBooks(p, w, call, now);
    RefreshFrame(p, w, now);
    hide Decide, Started, After, Refreshed;
    BooksMean(AfterCall(p, w, call, now));
  }

  lemma BooksMean(w: Worker)
    requires Booked(w)
    ensures Sum(w.allocations, Weight()) == w.activeUnits
  {
  }

  /**
   A report says what the Mac would grant: a job is granted exactly if it is not paused, does not hold a slot already and
   weighs no more than the units reported available; as many image jobs fit as slots are reported available.
   */
  lemma ReportSaysWhatIsGranted(p: Policy, w: Worker, attempt: AttemptId, mediaType: Option<string>, n: nat)
    ensures var c := CapacityOf(p, w);
            && (Grants(p, w, attempt, mediaType) <==> c.state != "paused" && attempt !in w.allocations && Units(p, mediaType) <= c.availableUnits)
            && (c.state == "paused" <==> w.operatorLimit == 0)
            && (c.state == "busy" <==> w.operatorLimit != 0 && c.availableUnits == 0)
            && c.state in {"paused", "busy", "ready"}
            && (n <= c.available <==> n * p.imageJobUnits <= c.availableUnits)
            && c.active == |w.allocations| && c.activeUnits == w.activeUnits && c.effectiveLimit == w.effectiveLimit
            && c.operatorLimit == w.operatorLimit && c.configVersion == w.configVersion
  {
    FitsExactly(Max(0, w.effectiveLimit - w.activeUnits), p.imageJobUnits, n);
    assert "paused"[0] != "busy"[0] && "busy"[0] != "ready"[0] && "paused"[0] != "ready"[0];
  }

  /** What a call stamps: a new version for a set limit and for a changed one, the next number for a release, the latest reason. */
  lemma CallStamps(p: Policy, w: Worker, call: Call, s: Snapshot)
    ensures var w' := AfterCall(p, w, call, s);
            && w'.configVersion == w.configVersion + (if call.SetOperatorLimit? then 1 else 0)
                                   + (if w'.effectiveLimit != w.effectiveLimit then 1 else 0)
            && w'.operatorLimit == (if !call.SetOperatorLimit? then w.operatorLimit else if call.limit < 0 then 0 else call.limit)
            && w'.sequence == w.sequence + (if call.Release? then 1 else 0)
            && w'.resourceReason == Decide(p, w'.operatorLimit, s).reason
  {
    hide Decide;
  }

  function Releases(run: seq<Sampled>): nat {
    if run == [] then 0 else Releases(run[..|run| - 1]) + if run[|run| - 1].call.Release? then 1 else 0
  }

  /** Reports of one version agree on both limits, later versions are larger, and the sequence counts the releases. */
  lemma {:induction false} VersionNamesLimits(p: Policy, limit: int, s: Snapshot, run: seq<Sampled>, k: nat)
    requires k <= |run|
    ensures var start := Started(p, limit, s);
            var early, late := After(p, start, run[..k]), After(p, start, run);
            && 1 <= early.configVersion <= late.configVersion
            && (early.configVersion == late.configVersion ==>
                  early.effectiveLimit == late.effectiveLimit && early.operatorLimit == late.operatorLimit)
            && late.sequence == Releases(run)
  {
    var start := Started(p, limit, s);
    hide AfterCall, Decide;
    if run == [] {
      assert run[..k] == run;
    } else {
      var before, last := run[..|run| - 1], run[|run| - 1];
      VersionNamesLimits(p, limit, s, before, if k < |run| then k else |run| - 1);
      CallStamps(p, After(p, start, before), last.call, last.snapshot);
      if k < |run| {
        assert before[..k] == run[..k];
      } else {
        assert run[..k] == run;
        assert before[..|before|] == before;
      }
    }
  }

  /** Releasing right after a grant gives back everything the grant took. */
  lemma ReleaseUndoesAcquire(p: Policy, w: Worker, attempt: AttemptId, mediaType: Option<string>, s1: Snapshot, s2: Snapshot)
    requires Booked(w) && Accepts(p, w, TryAcquire(attempt, mediaType), s1)
    ensures var w2 := AfterCall(p, AfterCall(p, w, TryAcquire(attempt, mediaType), s1), Release(attempt), s2);
            w2.allocations == w.allocations && w2.activeUnits == w.activeUnits
  {
    SumUpdate(w.allocations, Weight(), attempt, Units(p, mediaType));
    SumNonNegative(w.allocations, Weight());
    RefreshFrame(p, w, s1);
    var w1 := AfterCall(p, w, TryAcquire(attempt, mediaType), s1);
    RefreshFrame(p, BeforeRefresh(w1, Release(attempt)), s2);
    hide Decide, Refreshed;
    assert w.allocations[attempt := Units(p, mediaType)] - {attempt} == w.allocations;
  }

  // ---------------------------------------------------------------- what the hub accepts

  const MAX_LIMIT := 1024
  const MAX_UNITS := 1048576

  /** The hub's check on a reported capacity; a report that fails it closes the connection. */
  predicate ValidCapacity(c: Capacity) {
    && 0 <= c.effectiveLimit <= MAX_LIMIT && 0 <= c.available <= c.effectiveLimit && 0 <= c.active <= MAX_LIMIT
    && 0 <= c.availableUnits <= MAX_UNITS && 0 <= c.activeUnits <= MAX_UNITS
    && 0 <= c.imageJobUnits <= MAX_UNITS && 0 <= c.pdfJobUnits <= MAX_UNITS
  }

  predicate LimitsAtMost(run: seq<Sampled>, bound: int) {
    forall t | t in run && t.call.SetOperatorLimit? :: t.call.limit <= bound
  }

  /** With every operator limit within the bound, so is everything ever in use. */
  lemma {:induction false} UseStaysBounded(p: Policy, limit: int, s: Snapshot, run: seq<Sampled>, bound: nat)
    requires limit <= bound && LimitsAtMost(run, bound)
    ensures var w := After(p, Started(p, limit, s), run);
            w.operatorLimit <= bound && w.effectiveLimit <= bound && w.activeUnits <= bound
  {
    if run != [] {
      var before, last := run[..|run| - 1], run[|run| - 1];
      assert last in run;
      UseStaysBounded(p, limit, s, before, bound);
      BooksInEveryHistory(p, limit, s, before);
      var w := After(p, Started(p, limit, s), before);
      CallKeepsBooks(p, w, last.call, last.snapshot);
      RefreshFrame(p, BeforeRefresh(w, last.call), last.snapshot);
      hide Decide, Started, Booked, Refreshed;
    } else {
      DecideMonotone(p, Max(0, limit), s, Max(0, limit), s);
    }
  }

  lemma ReportIsValid(p: Policy, w: Worker)
    requires Booked(w) && p.imageJobUnits <= MAX_UNITS && p.pdfJobUnits <= MAX_UNITS
    requires 0 <= w.effectiveLimit <= MAX_LIMIT && w.activeUnits <= MAX_LIMIT
    ensures ValidCapacity(CapacityOf(p, w))
  {
    CountWithinUnits(w.allocations);
    SumNonNegative(w.allocations, Weight());
    var units := Max(0, w.effectiveLimit - w.activeUnits);
    QuotientShrinks(units, p.imageJobUnits);
  }

  lemma {:induction false} ProductGrows(m: int, q: nat)
    requires m >= 1
    ensures m * q >= q
  {
    if q > 0 {
      ProductGrows(m, q - 1);
      assert m * q == m * (q - 1) + m;
    }
  }

  lemma QuotientShrinks(a: nat, m: int)
    requires m >= 1
    ensures 0 <= a / m <= a
  {
    QuotientMonotone(0, a, m);
    var q := a / m;
    assert a == m * q + a % m;
    ProductGrows(m, q);
  }

  lemma ReportsAreValid(p: Policy, limit: int, s: Snapshot, run: seq<Sampled>)
    requires limit <= MAX_LIMIT && LimitsAtMost(run, MAX_LIMIT) && p.imageJobUnits <= MAX_UNITS && p.pdfJobUnits <= MAX_UNITS
    ensures ValidCapacity(CapacityOf(p, After(p, Started(p, limit, s), run)))
  {
    BooksInEveryHistory(p, limit, s, run);
    UseStaysBounded(p, limit, s, run, MAX_LIMIT);
    LimitsAreNonNegative(p, limit, s, run);
    ReportIsValid(p, After(p, Started(p, limit, s), run));
  }

  ghost predicate AlwaysValid(p: Policy, bound: int) {
    forall limit: int, s, run | limit <= bound && LimitsAtMost(run, bound) ::
      ValidCapacity(CapacityOf(p, After(p, Started(p, limit, s), run)))
  }

  /** A cool Mac with cores and memory to spare is allowed its whole ceiling, adaptive or not. */
  lemma AmpleSnapshotDecides(p: Policy, bound: nat) returns (s: Snapshot)
    ensures Decide(p, bound, s).limit == bound
  {
    var m := p.memoryPerUnit;
    s := Snapshot(p.reserveCores + bound, p.reserveMemory + bound * m, Nominal);
    QuotientOfProduct(bound, m);
  }

  lemma QuotientOfProduct(q: nat, m: int)
    requires m > 0
    ensures q * m >= 0 && (q * m) / m == q
  {
    var r := (q * m) / m;
    assert q * m == m * r + (q * m) % m;
    assert (q - r) * m == (q * m) % m;
    assert q - r >= 1 ==> (q - r) * m >= m;
    assert q - r <= -1 ==> (q - r) * m <= -m;
  }

  /**
   Every capacity the Mac can emit under a bound on the operator limit passes the hub's check exactly when that
   bound is at most 1024 and both job weights are at most 1048576, with adaptive concurrency on or off. Nothing
   on the Mac enforces either bound.
   */
  lemma ReportsAlwaysValidExactly(p: Policy, bound: nat)
    ensures AlwaysValid(p, bound) <==> bound <= 1024 && p.imageJobUnits <= 1048576 && p.pdfJobUnits <= 1048576
  {
    if bound <= MAX_LIMIT && p.imageJobUnits <= MAX_UNITS && p.pdfJobUnits <= MAX_UNITS {
      forall limit: int, s, run | limit <= bound && LimitsAtMost(run, bound)
        ensures ValidCapacity(CapacityOf(p, After(p, Started(p, limit, s), run)))
      {
        ReportsAreValid(p, limit, s, run);
      }
    } else {
      var s := AmpleSnapshotDecides(p, bound);
      hide Decide;
      assert LimitsAtMost([], bound);
      assert After(p, Started(p, bound, s), []) == Started(p, bound, s);
      assert !ValidCapacity(CapacityOf(p, Started(p, bound, s)));
    }
  }
}
