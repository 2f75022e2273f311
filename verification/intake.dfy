/** Intake: every kernel event answered and closed, exec verdicts bounded per batch. */
module Intake {
  import opened Base
  import opened Exclusions
  import opened ScanQueues
  import opened Triage
  import opened VerdictCache
  import opened Churn

  const FAN_CLOSE_WRITE: nat := 0x8
  const FAN_OPEN: nat := 0x20
  const FAN_Q_OVERFLOW: nat := 0x4000
  const FAN_OPEN_EXEC_PERM: nat := 0x40000

  /** Nanoseconds. */
  const VERDICT_TIMEOUT: nat := 2_000_000_000
  const VERDICT_BATCH_BUDGET: nat := 1_000_000_000
  const WATCHDOG_STALL: nat := 3_000_000_000

  datatype Event = Event(mask: nat, fd: int, pid: int)

  datatype Meta = Meta(key: CacheKey, mode: nat, isDir: bool)

  datatype Outcome = OutClean | OutInfected(signature: string) | OutError | OutSkipped

  /** What the system answers about one event; `scan` is None when the verdict scan fails or times out. */
  datatype Facts = Facts(path: Option<Path>, fstat: Option<Meta>, stat: Option<Meta>, engineWriter: bool,
                         scan: Option<Outcome>, scanTime: nat)

  datatype Action = Respond(fd: int, allow: bool) | Close(fd: int) | PushGate(path: Path, signature: string)
                  | PushScan(path: Path, lane: Lane) | NoteOverflow

  predicate Overflowed(e: Event) {
    HasBit(e.mask, FAN_Q_OVERFLOW)
  }

  predicate CarriesFd(e: Event) {
    !Overflowed(e) && e.fd >= 0
  }

  predicate IsPerm(e: Event) {
    HasBit(e.mask, FAN_OPEN_EXEC_PERM)
  }

  /** The kernel marks the link target of a file that is already gone. */
  predicate Vanished(path: Path) {
    path != [] && EndsWith(path[|path| - 1], " (deleted)")
  }

  /** The cache, the clock and the churn map as one event finds them. */
  datatype View = View(cache: Cache, now: nat, gate: Gate)

  /** The exec gate asks for a verdict at all. */
  predicate Guarded(rules: Rules, facts: Facts) {
    facts.path.Some? && !Vanished(facts.path.value)
    && !IsExcluded(rules, facts.path.value) && !IsGateExcluded(rules, facts.path.value)
  }

  function KeyFor(facts: Facts): Option<CacheKey> {
    match facts.fstat
    case Some(meta) => Some(meta.key)
    case None => if facts.stat.Some? then Some(facts.stat.value.key) else None
  }

  /** A verdict scan is started: a cache miss with time left in the batch. */
  predicate StartsScan(facts: Facts, cache: Cache, now: nat, deadline: nat) {
    KeyFor(facts).Some? && KeyFor(facts).value !in cache && now < deadline
  }

  /** The verdict the gate has to go by: the cached one, or the fresh one, or none. */
  function VerdictSeen(facts: Facts, cache: Cache, now: nat, deadline: nat): Option<Verdict> {
    if KeyFor(facts).None? then None
    else if KeyFor(facts).value in cache then Some(cache[KeyFor(facts).value])
    else if now >= deadline then None
    else
      match facts.scan
      case Some(OutClean) => Some(Clean)
      case Some(OutInfected(signature)) => Some(Infected(signature))
      case _ => None
  }

  /** The one case in which an execution is refused. */
  predicate Denied(rules: Rules, facts: Facts, cache: Cache, now: nat, deadline: nat) {
    Guarded(rules, facts) && VerdictSeen(facts, cache, now, deadline).Some?
    && VerdictSeen(facts, cache, now, deadline).value.Infected?
  }

  /** The file is let through unverified and must be scanned later: no time left, or no answer from the engine. */
  predicate Requeued(facts: Facts, cache: Cache, now: nat, deadline: nat) {
    KeyFor(facts).Some? && KeyFor(facts).value !in cache
    && (now >= deadline || facts.scan.None? || facts.scan.value.OutError?)
  }

  /** A scan gave a verdict that is now on record. */
  function FreshVerdict(facts: Facts, cache: Cache, now: nat, deadline: nat): Option<Verdict> {
    if StartsScan(facts, cache, now, deadline) then VerdictSeen(facts, cache, now, deadline) else None
  }

  /** What one event does to the cache: nothing, or one put of a fresh verdict with the eviction it calls for. */
  ghost predicate CacheStep(facts: Facts, before: Cache, now: nat, deadline: nat, after: Cache, budget: nat, avg: nat) {
    match FreshVerdict(facts, before, now, deadline)
    case None => after == before
    case Some(verdict) => exists victims :: PutStep(before, KeyFor(facts).value, verdict, victims, after, budget, avg)
  }

  predicate PutStep(before: Cache, key: CacheKey, verdict: Verdict, victims: set<CacheKey>, after: Cache,
                    budget: nat, avg: nat) {
    ChoosesHalf(before, victims, budget, avg) && after == (before - victims)[key := verdict]
  }

  /** A close-write or open event whose path is to be scanned: open events only on a cache miss. */
  predicate Eligible(rules: Rules, scanOnOpen: bool, e: Event, facts: Facts, cache: Cache) {
    && facts.path.Some? && !Vanished(facts.path.value) && !IsExcluded(rules, facts.path.value) && !facts.engineWriter
    && (HasBit(e.mask, FAN_CLOSE_WRITE)
        || (HasBit(e.mask, FAN_OPEN) && scanOnOpen && facts.fstat.Some? && !facts.fstat.value.isDir
            && facts.fstat.value.key !in cache))
  }

  function ModeOf(facts: Facts): nat {
    if facts.fstat.Some? then facts.fstat.value.mode else 0
  }

  /** Live databases go through the churn gate, everything else goes straight in. */
  predicate LetIn(path: Path, mode: nat, gate: Gate, now: nat) {
    Classify(path, mode) != Churn || Tried(gate, path, now).0
  }

  function ScanPush(path: Path, mode: nat, gate: Gate, now: nat): seq<Action> {
    if LetIn(path, mode, gate, now) then [PushScan(path, Classify(path, mode))] else []
  }

  // ------------------------------------------------------------------
  // What one event leads to

  /** The gate's bookkeeping: a task for a denial, a scan in the exec lane for a miss without a verdict. */
  function VerdictActions(facts: Facts, cache: Cache, now: nat, deadline: nat): seq<Action>
    requires facts.path.Some?
  {
    match VerdictSeen(facts, cache, now, deadline)
    case Some(Infected(signature)) => [PushGate(facts.path.value, signature)]
    case _ => if Requeued(facts, cache, now, deadline) then [PushScan(facts.path.value, Exec)] else []
  }

  /** The scan a close-write or open event asks for. */
  function PathDuty(rules: Rules, scanOnOpen: bool, e: Event, facts: Facts, view: View): seq<Action> {
    if Eligible(rules, scanOnOpen, e, facts, view.cache)
    then ScanPush(facts.path.value, ModeOf(facts), view.gate, view.now)
    else []
  }

  function GuardActions(rules: Rules, facts: Facts, view: View, deadline: nat): seq<Action> {
    if Guarded(rules, facts) then VerdictActions(facts, view.cache, view.now, deadline) else []
  }

  predicate Allowed(rules: Rules, facts: Facts, view: View, deadline: nat) {
    !Denied(rules, facts, view.cache, view.now, deadline)
  }

  /** Everything one event leads to, in order: the bookkeeping, the answer, the close. */
  function EventTrace(rules: Rules, scanOnOpen: bool, e: Event, facts: Facts, view: View, deadline: nat): seq<Action> {
    if Overflowed(e) then [NoteOverflow]
    else if e.fd < 0 then []
    else if IsPerm(e) then
      GuardActions(rules, facts, view, deadline)
      + [Respond(e.fd, Allowed(rules, facts, view, deadline))] + [Close(e.fd)]
    else PathDuty(rules, scanOnOpen, e, facts, view) + [Close(e.fd)]
  }

  function BatchTrace(rules: Rules, scanOnOpen: bool, events: seq<Event>, facts: seq<Facts>, views: seq<View>,
                      deadline: nat): seq<Action>
    requires |facts| == |events| <= |views|
  {
    if events == [] then []
    else
      var n := |events| - 1;
      BatchTrace(rules, scanOnOpen, events[..n], facts[..n], views, deadline)
      + EventTrace(rules, scanOnOpen, events[n], facts[n], views[n], deadline)
  }

  lemma {:induction false} BatchTracePrefix(rules: Rules, scanOnOpen: bool, events: seq<Event>, facts: seq<Facts>,
                                            v: seq<View>, w: seq<View>, deadline: nat)
    requires |facts| == |events| <= |v| && v <= w
    ensures BatchTrace(rules, scanOnOpen, events, facts, v, deadline) ==
            BatchTrace(rules, scanOnOpen, events, facts, w, deadline)
    decreases |events|
  {
    if events != [] {
      var n := |events| - 1;
      BatchTracePrefix(rules, scanOnOpen, events[..n], facts[..n], v, w, deadline);
    }
  }

  /** One more event. */
  lemma BatchTraceSnoc(rules: Rules, scanOnOpen: bool, events: seq<Event>, facts: seq<Facts>, i: nat,
                       before: seq<View>, views: seq<View>, deadline: nat)
    requires |facts| == |events| && i < |events| && |before| == i + 1 && before <= views
    ensures BatchTrace(rules, scanOnOpen, events[..i + 1], facts[..i + 1], views, deadline) ==
            BatchTrace(rules, scanOnOpen, events[..i], facts[..i], before, deadline)
            + EventTrace(rules, scanOnOpen, events[i], facts[i], before[i], deadline)
  {
    hide EventTrace;
    assert events[..i + 1][..i] == events[..i] && facts[..i + 1][..i] == facts[..i];
    BatchTracePrefix(rules, scanOnOpen, events[..i], facts[..i], before, views, deadline);
  }

  /** The clock, the cache and the churn map from one event of a batch to the next. */
  ghost predicate ViewStep(rules: Rules, scanOnOpen: bool, e: Event, facts: Facts, before: View, after: View,
                           deadline: nat, budget: nat, avg: nat) {
    if CarriesFd(e) && IsPerm(e) && Guarded(rules, facts) then
      && after.now == before.now + (if StartsScan(facts, before.cache, before.now, deadline) then facts.scanTime else 0)
      && CacheStep(facts, before.cache, before.now, deadline, after.cache, budget, avg)
      && after.gate == before.gate
    else if CarriesFd(e) && !IsPerm(e) then after == before.(gate := GateAfter(rules, scanOnOpen, e, facts, before))
    else after == before
  }

  function GateAfter(rules: Rules, scanOnOpen: bool, e: Event, facts: Facts, view: View): Gate {
    if Eligible(rules, scanOnOpen, e, facts, view.cache) && Classify(facts.path.value, ModeOf(facts)) == Churn
    then Tried(view.gate, facts.path.value, view.now).1
    else view.gate
  }

  // ------------------------------------------------------------------
  // What the trace of a batch means

  /** The actions of one kind, in order. */
  function Keep(trace: seq<Action>, kind: Action -> bool): seq<Action> {
    if trace == [] then []
    else Keep(trace[..|trace| - 1], kind) + if kind(trace[|trace| - 1]) then [trace[|trace| - 1]] else []
  }

  predicate OnFd(a: Action) {
    a.Respond? || a.Close?
  }

  predicate IsGatePush(a: Action) {
    a.PushGate?
  }

  predicate IsScanPush(a: Action) {
    a.PushScan?
  }

  lemma {:induction false} KeepAppend(a: seq<Action>, b: seq<Action>, kind: Action -> bool)
    ensures Keep(a + b, kind) == Keep(a, kind) + Keep(b, kind)
    decreases |b|
  {
    if b == [] {
      assert a + b == a;
    } else {
      var n := |b| - 1;
      KeepAppend(a, b[..n], kind);
      assert (a + b)[..|a + b| - 1] == a + b[..n];
    }
  }

  /** What must happen to the fd of one event: the answer, if one is asked for, and then the close. */
  function FdDuty(e: Event, allow: bool): seq<Action> {
    if !CarriesFd(e) then []
    else if IsPerm(e) then [Respond(e.fd, allow)] + [Close(e.fd)]
    else [Close(e.fd)]
  }

  /** The bookkeeping task a denial leaves behind. */
  function GateDuty(rules: Rules, e: Event, facts: Facts, view: View, deadline: nat): seq<Action> {
    if CarriesFd(e) && IsPerm(e) && !Allowed(rules, facts, view, deadline)
    then [PushGate(facts.path.value, VerdictSeen(facts, view.cache, view.now, deadline).value.signature)]
    else []
  }

  /** The scans an event asks for: a guarded miss without a verdict in the exec lane, or its path in its lane. */
  function ScanDuty(rules: Rules, scanOnOpen: bool, e: Event, facts: Facts, view: View, deadline: nat): seq<Action> {
    if !CarriesFd(e) then []
    else if !IsPerm(e) then PathDuty(rules, scanOnOpen, e, facts, view)
    else if Guarded(rules, facts) && Requeued(facts, view.cache, view.now, deadline) then
      [PushScan(facts.path.value, Exec)]
    else []
  }

  function One(a: Action, kind: Action -> bool): seq<Action> {
    if kind(a) then [a] else []
  }

  lemma KeepOne(a: Action, kind: Action -> bool)
    ensures Keep([a], kind) == One(a, kind)
  {
    assert [a][..0] == [];
  }

  lemma KeepShort(duty: seq<Action>, kind: Action -> bool)
    requires |duty| <= 1
    ensures Keep(duty, kind) == if duty == [] then [] else One(duty[0], kind)
  {
    if |duty| == 1 {
      KeepOne(duty[0], kind);
      assert duty == [duty[0]];
    }
  }

  lemma EventKept(rules: Rules, scanOnOpen: bool, e: Event, facts: Facts, view: View, deadline: nat,
                  kind: Action -> bool)
    ensures Keep(EventTrace(rules, scanOnOpen, e, facts, view, deadline), kind) ==
            if Overflowed(e) then One(NoteOverflow, kind)
            else if e.fd < 0 then []
            else if IsPerm(e) then
              Keep(GuardActions(rules, facts, view, deadline), kind)
              + One(Respond(e.fd, Allowed(rules, facts, view, deadline)), kind) + One(Close(e.fd), kind)
            else Keep(PathDuty(rules, scanOnOpen, e, facts, view), kind) + One(Close(e.fd), kind)
  {
    hide HasBit, GuardActions, PathDuty, Allowed, Keep;
    KeepOne(NoteOverflow, kind);
    KeepOne(Close(e.fd), kind);
    var answer := Respond(e.fd, Allowed(rules, facts, view, deadline));
    KeepOne(answer, kind);
    if Overflowed(e) {
    } else if e.fd < 0 {
      assert Keep([], kind) == [] by { KeepShort([], kind); }
    } else if IsPerm(e) {
      var duty := GuardActions(rules, facts, view, deadline);
      KeepAppend(duty, [answer], kind);
      KeepAppend(duty + [answer], [Close(e.fd)], kind);
    } else {
      KeepAppend(PathDuty(rules, scanOnOpen, e, facts, view), [Close(e.fd)], kind);
    }
  }

  lemma FdOfEvent(rules: Rules, scanOnOpen: bool, e: Event, facts: Facts, view: View, deadline: nat)
    ensures Keep(EventTrace(rules, scanOnOpen, e, facts, view, deadline), OnFd) ==
            FdDuty(e, Allowed(rules, facts, view, deadline))
  {
    hide HasBit, EventTrace, Keep, PathDuty, GuardActions, Guarded, Requeued, Allowed, VerdictSeen;
    EventKept(rules, scanOnOpen, e, facts, view, deadline, OnFd);
    GuardKinds(rules, facts, view, deadline);
    PathKinds(rules, scanOnOpen, e, facts, view);
  }

  lemma GateOfEvent(rules: Rules, scanOnOpen: bool, e: Event, facts: Facts, view: View, deadline: nat)
    ensures Keep(EventTrace(rules, scanOnOpen, e, facts, view, deadline), IsGatePush) ==
            GateDuty(rules, e, facts, view, deadline)
  {
    hide HasBit, EventTrace, Keep, PathDuty, GuardActions, Guarded, Requeued, Allowed, VerdictSeen;
    EventKept(rules, scanOnOpen, e, facts, view, deadline, IsGatePush);
    GuardKinds(rules, facts, view, deadline);
    PathKinds(rules, scanOnOpen, e, facts, view);
  }

  lemma ScanOfEvent(rules: Rules, scanOnOpen: bool, e: Event, facts: Facts, view: View, deadline: nat)
    ensures Keep(EventTrace(rules, scanOnOpen, e, facts, view, deadline), IsScanPush) ==
            ScanDuty(rules, scanOnOpen, e, facts, view, deadline)
  {
    hide HasBit, EventTrace, Keep, PathDuty, GuardActions, Guarded, Requeued, Allowed, VerdictSeen;
    EventKept(rules, scanOnOpen, e, facts, view, deadline, IsScanPush);
    GuardKinds(rules, facts, view, deadline);
    PathKinds(rules, scanOnOpen, e, facts, view);
  }

  /** One event, kind by kind: the answer and the close, the gate task of a denial, the scans asked for. */
  lemma EventDuties(rules: Rules, scanOnOpen: bool, e: Event, facts: Facts, view: View, deadline: nat)
    ensures var trace := EventTrace(rules, scanOnOpen, e, facts, view, deadline);
            && Keep(trace, OnFd) == FdDuty(e, Allowed(rules, facts, view, deadline))
            && Keep(trace, IsGatePush) == GateDuty(rules, e, facts, view, deadline)
            && Keep(trace, IsScanPush) == ScanDuty(rules, scanOnOpen, e, facts, view, deadline)
  {
    hide EventTrace, Keep, FdDuty, GateDuty, ScanDuty, Allowed;
    FdOfEvent(rules, scanOnOpen, e, facts, view, deadline);
    GateOfEvent(rules, scanOnOpen, e, facts, view, deadline);
    ScanOfEvent(rules, scanOnOpen, e, facts, view, deadline);
  }

  lemma GuardKinds(rules: Rules, facts: Facts, view: View, deadline: nat)
    ensures var duty := GuardActions(rules, facts, view, deadline);
            && Keep(duty, OnFd) == []
            && Keep(duty, IsGatePush) ==
               (if Allowed(rules, facts, view, deadline) then []
                else [PushGate(facts.path.value, VerdictSeen(facts, view.cache, view.now, deadline).value.signature)])
            && Keep(duty, IsScanPush) ==
               (if Guarded(rules, facts) && Requeued(facts, view.cache, view.now, deadline)
                then [PushScan(facts.path.value, Exec)] else [])
  {
    hide Keep, Vanished, IsExcluded, IsGateExcluded;
    var duty := GuardActions(rules, facts, view, deadline);
    KeepShort(duty, OnFd);
    KeepShort(duty, IsGatePush);
    KeepShort(duty, IsScanPush);
  }

  lemma PathKinds(rules: Rules, scanOnOpen: bool, e: Event, facts: Facts, view: View)
    ensures var duty := PathDuty(rules, scanOnOpen, e, facts, view);
            Keep(duty, OnFd) == [] && Keep(duty, IsGatePush) == [] && Keep(duty, IsScanPush) == duty
  {
    hide Keep, Eligible, LetIn, Classify;
    var duty := PathDuty(rules, scanOnOpen, e, facts, view);
    KeepShort(duty, OnFd);
    KeepShort(duty, IsGatePush);
    KeepShort(duty, IsScanPush);
  }

  // ------------------------------------------------------------------
  // Whole batches

  function FdDuties(rules: Rules, events: seq<Event>, facts: seq<Facts>, views: seq<View>, deadline: nat): seq<Action>
    requires |facts| == |events| <= |views|
  {
    if events == [] then []
    else
      var n := |events| - 1;
      FdDuties(rules, events[..n], facts[..n], views, deadline)
      + FdDuty(events[n], Allowed(rules, facts[n], views[n], deadline))
  }

  function GateDuties(rules: Rules, events: seq<Event>, facts: seq<Facts>, views: seq<View>, deadline: nat): seq<Action>
    requires |facts| == |events| <= |views|
  {
    if events == [] then []
    else
      var n := |events| - 1;
      GateDuties(rules, events[..n], facts[..n], views, deadline)
      + GateDuty(rules, events[n], facts[n], views[n], deadline)
  }

  function ScanDuties(rules: Rules, scanOnOpen: bool, events: seq<Event>, facts: seq<Facts>, views: seq<View>,
                      deadline: nat): seq<Action>
    requires |facts| == |events| <= |views|
  {
    if events == [] then []
    else
      var n := |events| - 1;
      ScanDuties(rules, scanOnOpen, events[..n], facts[..n], views, deadline)
      + ScanDuty(rules, scanOnOpen, events[n], facts[n], views[n], deadline)
  }

  /** One for one over any batch: what happens to fds is the answers and closes of the events in order; the
      gate tasks are those of the denials; the scans are those of the late or unanswered misses, each in the
      exec lane, and of the eligible paths, each in its own lane. */
  lemma {:induction false} BatchDuties(rules: Rules, scanOnOpen: bool, events: seq<Event>, facts: seq<Facts>,
                                       views: seq<View>, deadline: nat)
    requires |facts| == |events| <= |views|
    ensures var trace := BatchTrace(rules, scanOnOpen, events, facts, views, deadline);
            && Keep(trace, OnFd) == FdDuties(rules, events, facts, views, deadline)
            && Keep(trace, IsGatePush) == GateDuties(rules, events, facts, views, deadline)
            && Keep(trace, IsScanPush) == ScanDuties(rules, scanOnOpen, events, facts, views, deadline)
    decreases |events|
  {
    hide EventTrace, FdDuty, GateDuty, ScanDuty, Allowed;
    if events != [] {
      var n := |events| - 1;
      BatchDuties(rules, scanOnOpen, events[..n], facts[..n], views, deadline);
      EventDuties(rules, scanOnOpen, events[n], facts[n], views[n], deadline);
      var init := BatchTrace(rules, scanOnOpen, events[..n], facts[..n], views, deadline);
      var last := EventTrace(rules, scanOnOpen, events[n], facts[n], views[n], deadline);
      KeepAppend(init, last, OnFd);
      KeepAppend(init, last, IsGatePush);
      KeepAppend(init, last, IsScanPush);
    }
  }

  lemma Appended(rules: Rules, scanOnOpen: bool, events: seq<Event>, facts: seq<Facts>, views: seq<View>,
                 deadline: nat, was: seq<Action>)
    requires |facts| == |events| <= |views|
    ensures var trace := was + BatchTrace(rules, scanOnOpen, events, facts, views, deadline);
            && Keep(trace, OnFd) == Keep(was, OnFd) + FdDuties(rules, events, facts, views, deadline)
            && Keep(trace, IsGatePush) == Keep(was, IsGatePush) + GateDuties(rules, events, facts, views, deadline)
            && Keep(trace, IsScanPush) ==
               Keep(was, IsScanPush) + ScanDuties(rules, scanOnOpen, events, facts, views, deadline)
  {
    var trace := BatchTrace(rules, scanOnOpen, events, facts, views, deadline);
    BatchDuties(rules, scanOnOpen, events, facts, views, deadline);
    KeepAppend(was, trace, OnFd);
    KeepAppend(was, trace, IsGatePush);
    KeepAppend(was, trace, IsScanPush);
  }

  function Closes(trace: seq<Action>): seq<int> {
    if trace == [] then []
    else Closes(trace[..|trace| - 1]) + if trace[|trace| - 1].Close? then [trace[|trace| - 1].fd] else []
  }

  function Answers(trace: seq<Action>): seq<(int, bool)> {
    if trace == [] then []
    else Answers(trace[..|trace| - 1])
         + if trace[|trace| - 1].Respond? then [(trace[|trace| - 1].fd, trace[|trace| - 1].allow)] else []
  }

  /** The fds the kernel handed over, in event order. */
  function HandedOver(events: seq<Event>): seq<int> {
    if events == [] then []
    else HandedOver(events[..|events| - 1]) + if events[|events| - 1].fd >= 0 then [events[|events| - 1].fd] else []
  }

  /** The answers asked for, each with the verdict on its own file, in event order. */
  function Asked(rules: Rules, events: seq<Event>, facts: seq<Facts>, views: seq<View>, deadline: nat): seq<(int, bool)>
    requires |facts| == |events| <= |views|
  {
    if events == [] then []
    else
      var n := |events| - 1;
      Asked(rules, events[..n], facts[..n], views, deadline)
      + if CarriesFd(events[n]) && IsPerm(events[n])
        then [(events[n].fd, Allowed(rules, facts[n], views[n], deadline))] else []
  }

  lemma {:induction false} ClosesAppend(a: seq<Action>, b: seq<Action>)
    ensures Closes(a + b) == Closes(a) + Closes(b) && Answers(a + b) == Answers(a) + Answers(b)
    decreases |b|
  {
    if b == [] {
      assert a + b == a;
    } else {
      ClosesAppend(a, b[..|b| - 1]);
      assert (a + b)[..|a + b| - 1] == a + b[..|b| - 1];
    }
  }

  /** Closes and answers are all on fds. */
  lemma {:induction false} OnFdsOnly(trace: seq<Action>)
    ensures Closes(Keep(trace, OnFd)) == Closes(trace) && Answers(Keep(trace, OnFd)) == Answers(trace)
    decreases |trace|
  {
    if trace != [] {
      var init, last := trace[..|trace| - 1], trace[|trace| - 1];
      OnFdsOnly(init);
      ClosesAppend(Keep(init, OnFd), One(last, OnFd));
      assert Closes([last]) == if last.Close? then [last.fd] else [] by { assert [last][..0] == []; }
      assert Answers([last]) == if last.Respond? then [(last.fd, last.allow)] else [] by { assert [last][..0] == []; }
    }
  }

  lemma DutyMeans(e: Event, allow: bool)
    ensures Closes(FdDuty(e, allow)) == if CarriesFd(e) then [e.fd] else []
    ensures Answers(FdDuty(e, allow)) == if CarriesFd(e) && IsPerm(e) then [(e.fd, allow)] else []
  {
    hide HasBit;
    ClosesAppend([Respond(e.fd, allow)], [Close(e.fd)]);
    assert [Respond(e.fd, allow)][..0] == [] && [Close(e.fd)][..0] == [];
  }

  /** Given that an overflow record carries no fd: in any batch every fd handed over is closed exactly once,
      and every permission event is answered exactly once, refused exactly if its file is known to be infected. */
  lemma {:induction false} EveryFdClosedOnce(rules: Rules, scanOnOpen: bool, events: seq<Event>, facts: seq<Facts>,
                                             views: seq<View>, deadline: nat)
    requires |facts| == |events| <= |views|
    requires forall i :: 0 <= i < |events| && Overflowed(events[i]) ==> events[i].fd < 0
    ensures var trace := BatchTrace(rules, scanOnOpen, events, facts, views, deadline);
            Closes(trace) == HandedOver(events) && Answers(trace) == Asked(rules, events, facts, views, deadline)
    decreases |events|
  {
    hide EventTrace, FdDuty, HasBit, Allowed;
    if events != [] {
      var n := |events| - 1;
      EveryFdClosedOnce(rules, scanOnOpen, events[..n], facts[..n], views, deadline);
      var last := EventTrace(rules, scanOnOpen, events[n], facts[n], views[n], deadline);
      ClosesAppend(BatchTrace(rules, scanOnOpen, events[..n], facts[..n], views, deadline), last);
      EventDuties(rules, scanOnOpen, events[n], facts[n], views[n], deadline);
      OnFdsOnly(last);
      DutyMeans(events[n], Allowed(rules, facts[n], views[n], deadline));
    }
  }

  lemma AnswerThenClose(rules: Rules, scanOnOpen: bool, e: Event, facts: Facts, view: View, deadline: nat, k: nat)
    requires var trace := EventTrace(rules, scanOnOpen, e, facts, view, deadline); k < |trace| && trace[k].Respond?
    ensures var trace := EventTrace(rules, scanOnOpen, e, facts, view, deadline);
            k + 1 < |trace| && trace[k + 1] == Close(trace[k].fd)
  {
    hide HasBit, Allowed, Guarded, Requeued, VerdictSeen, Eligible, LetIn, Classify;
    var guard := GuardActions(rules, facts, view, deadline);
    assert forall i :: 0 <= i < |guard| ==> !guard[i].Respond?;
  }

  /** Every answer is written right before the close of the same fd. */
  lemma {:induction false} AnswerBeforeClose(rules: Rules, scanOnOpen: bool, events: seq<Event>, facts: seq<Facts>,
                                             views: seq<View>, deadline: nat, k: nat)
    requires |facts| == |events| <= |views|
    requires var trace := BatchTrace(rules, scanOnOpen, events, facts, views, deadline);
             k < |trace| && trace[k].Respond?
    ensures var trace := BatchTrace(rules, scanOnOpen, events, facts, views, deadline);
            k + 1 < |trace| && trace[k + 1] == Close(trace[k].fd)
    decreases |events|
  {
    hide EventTrace;
    var n := |events| - 1;
    var rest := BatchTrace(rules, scanOnOpen, events[..n], facts[..n], views, deadline);
    if k >= |rest| {
      AnswerThenClose(rules, scanOnOpen, events[n], facts[n], views[n], deadline, k - |rest|);
    } else {
      AnswerBeforeClose(rules, scanOnOpen, events[..n], facts[..n], views, deadline, k);
    }
  }

  // ------------------------------------------------------------------
  // The decisions, case by case on what the system answered

  /** The exec gate's decision on one guarded file: its answer, the tasks it leaves, the cache and the clock
      afterwards. The file goes by its fstat, or by its path if that fails; a cached verdict decides at once;
      past the deadline nothing is asked; otherwise the engine is, and what it says is cached. */
  ghost predicate GateDecision(path: Path, facts: Facts, cache: Cache, now: nat, deadline: nat,
                               allow: bool, tasks: seq<Action>, after: Cache, later: nat) {
    if facts.fstat.None? && facts.stat.None? then allow && tasks == [] && after == cache && later == now
    else
      var key := if facts.fstat.Some? then facts.fstat.value.key else facts.stat.value.key;
      if key in cache then
        && after == cache && later == now
        && match cache[key]
           case Clean => allow && tasks == []
           case Infected(signature) => !allow && tasks == [PushGate(path, signature)]
      else if now >= deadline then allow && tasks == [PushScan(path, Exec)] && after == cache && later == now
      else
        && later == now + facts.scanTime
        && (forall k :: k in after && k != key ==> k in cache && after[k] == cache[k])
        && match facts.scan
           case Some(OutClean) => allow && tasks == [] && key in after && after[key] == Clean
           case Some(OutInfected(signature)) =>
             !allow && tasks == [PushGate(path, signature)] && key in after && after[key] == Infected(signature)
           case Some(OutSkipped) => allow && tasks == [] && after == cache
           case Some(OutError) => allow && tasks == [PushScan(path, Exec)] && after == cache
           case None => allow && tasks == [PushScan(path, Exec)] && after == cache
  }

  /** A file the gate asks about: it is there, not yet deleted, and on neither exclusion list. */
  predicate AsksVerdict(rules: Rules, facts: Facts) {
    match facts.path
    case None => false
    case Some(path) =>
      && (path == [] || !EndsWith(path[|path| - 1], " (deleted)"))
      && !IsExcluded(rules, path) && !IsGateExcluded(rules, path)
  }

  /** A file a close-write or open event brings up for scanning: never the engine's own writes; an opened file
      only when asked for, only if it is no directory and its version has no verdict. */
  predicate AsksScan(rules: Rules, scanOnOpen: bool, mask: nat, facts: Facts, cache: Cache) {
    match facts.path
    case None => false
    case Some(path) =>
      && (path == [] || !EndsWith(path[|path| - 1], " (deleted)"))
      && !IsExcluded(rules, path) && !facts.engineWriter
      && (mask / 0x8 % 2 == 1
          || (mask / 0x20 % 2 == 1 && scanOnOpen && facts.fstat.Some? && !facts.fstat.value.isDir
              && facts.fstat.value.key !in cache))
  }

  /** Such a file goes into its lane, a churning one only when it is unknown or its cooldown is over;
      before that its entry is marked. A churn map over its bound is cleared first. */
  predicate ScanDecision(path: Path, mode: nat, gate: Gate, now: nat, tasks: seq<Action>, after: Gate) {
    var lane := Classify(path, mode);
    if lane != Churn then tasks == [PushScan(path, lane)] && after == gate
    else if |gate| > BOUNDED_MAP_CAP then tasks == [PushScan(path, Churn)] && after == map[path := Entry(now, false)]
    else if path !in gate || now >= gate[path].lastQueued + CHURN_COOLDOWN then
      tasks == [PushScan(path, Churn)] && after == gate[path := Entry(now, false)]
    else tasks == [] && after == gate[path := Entry(gate[path].lastQueued, true)]
  }

  /** What one event leads to, read off the event and the answers of the system alone. */
  ghost predicate EventDecision(rules: Rules, scanOnOpen: bool, e: Event, facts: Facts, before: View, after: View,
                                deadline: nat, trace: seq<Action>) {
    if e.mask / 0x4000 % 2 == 1 then trace == [NoteOverflow] && after == before
    else if e.fd < 0 then trace == [] && after == before
    else if e.mask / 0x40000 % 2 == 1 then
      if AsksVerdict(rules, facts) then
        && |trace| >= 2 && trace[|trace| - 1] == Close(e.fd)
        && trace[|trace| - 2].Respond? && trace[|trace| - 2].fd == e.fd
        && GateDecision(facts.path.value, facts, before.cache, before.now, deadline,
                        trace[|trace| - 2].allow, trace[..|trace| - 2], after.cache, after.now)
        && after.gate == before.gate
      else trace == [Respond(e.fd, true), Close(e.fd)] && after == before
    else if AsksScan(rules, scanOnOpen, e.mask, facts, before.cache) then
      && |trace| >= 1 && trace[|trace| - 1] == Close(e.fd) && after == before.(gate := after.gate)
      && ScanDecision(facts.path.value, if facts.fstat.Some? then facts.fstat.value.mode else 0,
                      before.gate, before.now, trace[..|trace| - 1], after.gate)
    else trace == [Close(e.fd)] && after == before
  }

  lemma ScanDecides(path: Path, mode: nat, gate: Gate, now: nat)
    ensures ScanDecision(path, mode, gate, now, ScanPush(path, mode, gate, now),
                         if Classify(path, mode) == Churn then Tried(gate, path, now).1 else gate)
  {
    hide Classify;
  }

  /** The gate's part of the specification makes these decisions. */
  lemma VerdictDecides(path: Path, facts: Facts, cache: Cache, now: nat, deadline: nat, after: Cache, later: nat,
                       budget: nat, avg: nat)
    requires facts.path == Some(path) && CacheStep(facts, cache, now, deadline, after, budget, avg)
    requires later == now + if StartsScan(facts, cache, now, deadline) then facts.scanTime else 0
    ensures var seen := VerdictSeen(facts, cache, now, deadline);
            GateDecision(path, facts, cache, now, deadline, seen.None? || seen.value.Clean?,
                         VerdictActions(facts, cache, now, deadline), after, later)
  {
    hide ChoosesHalf;
    var verdict := FreshVerdict(facts, cache, now, deadline);
    if verdict.Some? {
      var victims :| PutStep(cache, KeyFor(facts).value, verdict.value, victims, after, budget, avg);
    }
  }

  /** Every event of a batch, given what it found and left: the specified actions are these decisions. */
  lemma EventDecided(rules: Rules, scanOnOpen: bool, e: Event, facts: Facts, before: View, after: View,
                     deadline: nat, budget: nat, avg: nat)
    requires ViewStep(rules, scanOnOpen, e, facts, before, after, deadline, budget, avg)
    ensures EventDecision(rules, scanOnOpen, e, facts, before, after, deadline,
                          EventTrace(rules, scanOnOpen, e, facts, before, deadline))
  {
    hide VerdictActions, VerdictSeen, StartsScan, CacheStep, GateDecision, ScanDecision, ScanPush, Tried;
    hide IsExcluded, IsGateExcluded, EndsWith, Classify;
    if CarriesFd(e) && IsPerm(e) && Guarded(rules, facts) {
      VerdictDecides(facts.path.value, facts, before.cache, before.now, deadline, after.cache, after.now, budget, avg);
      var tasks := VerdictActions(facts, before.cache, before.now, deadline);
      var answer, close := Respond(e.fd, Allowed(rules, facts, before, deadline)), Close(e.fd);
      var trace := tasks + [answer] + [close];
      assert trace[..|trace| - 2] == tasks && trace[|trace| - 2] == answer;
      AllowedMeans(rules, facts, before, deadline);
    } else if CarriesFd(e) && !IsPerm(e) && Eligible(rules, scanOnOpen, e, facts, before.cache) {
      ScanDecides(facts.path.value, ModeOf(facts), before.gate, before.now);
      var tasks := PathDuty(rules, scanOnOpen, e, facts, before);
      assert (tasks + [Close(e.fd)])[..|tasks|] == tasks;
    }
  }

  /** Each event leaves what the next one finds. */
  ghost predicate Chained(rules: Rules, scanOnOpen: bool, events: seq<Event>, facts: seq<Facts>, views: seq<View>,
                          deadline: nat, budget: nat, avg: nat) {
    && |facts| == |events| && |views| == |events| + 1
    && forall i :: 0 <= i < |events| ==>
                     ViewStep(rules, scanOnOpen, events[i], facts[i], views[i], views[i + 1], deadline, budget, avg)
  }

  lemma BatchStart(rules: Rules, scanOnOpen: bool, events: seq<Event>, facts: seq<Facts>, views: seq<View>,
                   deadline: nat, budget: nat, avg: nat)
    requires |views| == 1
    ensures Chained(rules, scanOnOpen, events[..0], facts[..0], views, deadline, budget, avg)
    ensures BatchTrace(rules, scanOnOpen, events[..0], facts[..0], views, deadline) == []
  {
  }

  lemma ChainedMore(rules: Rules, scanOnOpen: bool, events: seq<Event>, facts: seq<Facts>, i: nat, views: seq<View>,
                    next: View, deadline: nat, budget: nat, avg: nat)
    requires |facts| == |events| && i < |events|
    requires Chained(rules, scanOnOpen, events[..i], facts[..i], views, deadline, budget, avg)
    requires ViewStep(rules, scanOnOpen, events[i], facts[i], views[i], next, deadline, budget, avg)
    ensures Chained(rules, scanOnOpen, events[..i + 1], facts[..i + 1], views + [next], deadline, budget, avg)
  {
    hide ViewStep;
    forall k | 0 <= k < i + 1
      ensures ViewStep(rules, scanOnOpen, events[..i + 1][k], facts[..i + 1][k], (views + [next])[k],
                       (views + [next])[k + 1], deadline, budget, avg)
    {
      if k < i {
        assert ViewStep(rules, scanOnOpen, events[..i][k], facts[..i][k], views[k], views[k + 1],
                        deadline, budget, avg);
      }
    }
  }

  lemma EventsDecided(rules: Rules, scanOnOpen: bool, events: seq<Event>, facts: seq<Facts>, views: seq<View>,
                      deadline: nat, budget: nat, avg: nat)
    requires |facts| == |events| && |views| == |events| + 1
    requires Chained(rules, scanOnOpen, events, facts, views, deadline, budget, avg)
    ensures forall i :: 0 <= i < |events| ==>
              EventDecision(rules, scanOnOpen, events[i], facts[i], views[i], views[i + 1], deadline,
                            EventTrace(rules, scanOnOpen, events[i], facts[i], views[i], deadline))
  {
    forall i | 0 <= i < |events|
      ensures EventDecision(rules, scanOnOpen, events[i], facts[i], views[i], views[i + 1], deadline,
                            EventTrace(rules, scanOnOpen, events[i], facts[i], views[i], deadline))
    {
      EventDecided(rules, scanOnOpen, events[i], facts[i], views[i], views[i + 1], deadline, budget, avg);
    }
  }

  lemma AllowedMeans(rules: Rules, facts: Facts, view: View, deadline: nat)
    requires Guarded(rules, facts)
    ensures var seen := VerdictSeen(facts, view.cache, view.now, deadline);
            Allowed(rules, facts, view, deadline) <==> seen.None? || seen.value.Clean?
  {
    hide Guarded, VerdictSeen;
  }

  // ------------------------------------------------------------------
  // The object

  class Watcher {
    const rules: Rules
    const scanOnOpen: bool
    const store: VerdictStore
    const churn: ChurnGate
    var trace: seq<Action>
    var now: nat

    constructor (rules: Rules, scanOnOpen: bool, store: VerdictStore, churn: ChurnGate)
      ensures this.rules == rules && this.scanOnOpen == scanOnOpen && this.store == store && this.churn == churn
      ensures trace == []
    {
      this.rules, this.scanOnOpen, this.store, this.churn := rules, scanOnOpen, store, churn;
      trace, now := [], 0;
    }

    ghost function Found(): View
      reads this, store, churn
    {
      View(store.cache, now, churn.entries)
    }

    method Emit(a: Action)
      modifies this`trace
      ensures trace == old(trace) + [a]
    {
      trace := trace + [a];
    }

    /** A verdict for one execution: cached, fresh within the budget, or none. */
    method ExecVerdict(path: Path, facts: Facts, deadline: nat) returns (allow: bool)
      requires facts.path == Some(path) && facts.scanTime <= VERDICT_TIMEOUT
      modifies this`trace, this`now, store
      ensures var seen := VerdictSeen(facts, old(store.cache), old(now), deadline);
              allow <==> seen.None? || seen.value.Clean?
      ensures trace == old(trace) + VerdictActions(facts, old(store.cache), old(now), deadline)
      ensures now == old(now) + if StartsScan(facts, old(store.cache), old(now), deadline) then facts.scanTime else 0
      ensures CacheStep(facts, old(store.cache), old(now), deadline, store.cache, store.budget, store.avgEntryBytes)
      ensures store.avgEntryBytes == old(store.avgEntryBytes)
      // The same, read off what the system answered.
      ensures old(trace) <= trace
      ensures GateDecision(path, facts, old(store.cache), old(now), deadline,
                           allow, trace[|old(trace)|..], store.cache, now)
    {
      hide ChoosesHalf;
      var key: CacheKey;
      match facts.fstat {
        case Some(meta) => key := meta.key;
        case None =>
          if facts.stat.None? {
            return true;
          }
          key := facts.stat.value.key;
      }
      var cached := store.Lookup(key);
      match cached {
        case Some(Clean) => return true;
        case Some(Infected(signature)) =>
          Emit(PushGate(path, signature));
          return false;
        case None =>
      }
      if now >= deadline {
        Emit(PushScan(path, Exec));
        return true;
      }
      now := now + facts.scanTime;
      match facts.scan {
        case Some(OutClean) =>
          ghost var e := store.Put(key, Clean);
          assert PutStep(old(store.cache), key, Clean, e.victims, store.cache, store.budget, store.avgEntryBytes);
          return true;
        case Some(OutInfected(signature)) =>
          ghost var e := store.Put(key, Infected(signature));
          assert PutStep(old(store.cache), key, Infected(signature), e.victims, store.cache, store.budget,
                         store.avgEntryBytes);
          Emit(PushGate(path, signature));
          return false;
        case Some(OutError) =>
          Emit(PushScan(path, Exec));
          return true;
        case Some(OutSkipped) => return true;
        case None =>
          Emit(PushScan(path, Exec));
          return true;
      }
    }

    /** Into its lane, live databases through the churn gate. */
    method QueueWrite(path: Path, mode: nat)
      modifies this`trace, churn
      ensures trace == old(trace) + ScanPush(path, mode, old(churn.entries), now)
      ensures churn.entries ==
              if Classify(path, mode) == Churn then Tried(old(churn.entries), path, now).1 else old(churn.entries)
    {
      hide Tried, Classify;
      var lane := Classify(path, mode);
      if lane == Churn {
        var granted := churn.TryQueue(path, now);
        if !granted {
          return;
        }
      }
      Emit(PushScan(path, lane));
    }

    /** A permission event: the verdict, then the answer. */
    method AnswerPerm(e: Event, facts: Facts, deadline: nat) returns (allow: bool)
      requires CarriesFd(e) && IsPerm(e) && facts.scanTime <= VERDICT_TIMEOUT
      modifies this`trace, this`now, store
      ensures allow == Allowed(rules, facts, old(Found()), deadline)
      ensures trace == old(trace) + GuardActions(rules, facts, old(Found()), deadline) + [Respond(e.fd, allow)]
      ensures now == old(now) || (old(now) < deadline && now == old(now) + facts.scanTime)
      ensures ViewStep(rules, scanOnOpen, e, facts, old(Found()), Found(), deadline, store.budget, store.avgEntryBytes)
      ensures store.avgEntryBytes == old(store.avgEntryBytes)
    {
      hide IsExcluded, IsGateExcluded, Vanished, CacheStep, VerdictActions;
      allow := true;
      if facts.path.Some? && !Vanished(facts.path.value)
         && !IsExcluded(rules, facts.path.value) && !IsGateExcluded(rules, facts.path.value) {
        allow := ExecVerdict(facts.path.value, facts, deadline);
      }
      Emit(Respond(e.fd, allow));
    }

    /** A close-write or open event: the path is queued or not; the fd is left alone. */
    method ConsiderPath(e: Event, facts: Facts)
      modifies this`trace, churn
      ensures trace == old(trace) + PathDuty(rules, scanOnOpen, e, facts, old(Found()))
      ensures churn.entries == GateAfter(rules, scanOnOpen, e, facts, old(Found()))
    {
      hide IsExcluded, Vanished, HasBit, ScanPush, Classify, Tried;
      if HasBit(e.mask, FAN_CLOSE_WRITE) && facts.path.Some? && !Vanished(facts.path.value)
         && !IsExcluded(rules, facts.path.value) && !facts.engineWriter {
        QueueWrite(facts.path.value, if facts.fstat.Some? then facts.fstat.value.mode else 0);
      } else if HasBit(e.mask, FAN_OPEN) && scanOnOpen && facts.path.Some? && !Vanished(facts.path.value)
                && !IsExcluded(rules, facts.path.value) && !facts.engineWriter
                && facts.fstat.Some? && !facts.fstat.value.isDir {
        var cached := store.Lookup(facts.fstat.value.key);
        if cached.None? {
          QueueWrite(facts.path.value, facts.fstat.value.mode);
        }
      }
    }

    /** `intake_event`. The answer goes out before any other use of the fd, and the fd is closed last. */
    method IntakeEvent(e: Event, facts: Facts, deadline: nat)
      requires facts.scanTime <= VERDICT_TIMEOUT
      modifies this, store, churn
      ensures trace == old(trace) + EventTrace(rules, scanOnOpen, e, facts, old(Found()), deadline)
      ensures now == old(now) || (old(now) < deadline && now == old(now) + facts.scanTime)
      ensures ViewStep(rules, scanOnOpen, e, facts, old(Found()), Found(), deadline, store.budget, store.avgEntryBytes)
      ensures store.avgEntryBytes == old(store.avgEntryBytes)
      // The same, read off the event and what the system answered.
      ensures old(trace) <= trace
      ensures EventDecision(rules, scanOnOpen, e, facts, old(Found()), Found(), deadline, trace[|old(trace)|..])
    {
      hide Denied, Guarded, Requeued, StartsScan, HasBit, CacheStep, PathDuty, VerdictActions, GateAfter, Allowed;
      hide EventDecision;
      if Overflowed(e) {
        Emit(NoteOverflow);
        EventDecided(rules, scanOnOpen, e, facts, old(Found()), Found(), deadline, store.budget, store.avgEntryBytes);
        return;
      }
      if e.fd < 0 {
        EventDecided(rules, scanOnOpen, e, facts, old(Found()), Found(), deadline, store.budget, store.avgEntryBytes);
        return;
      }
      if IsPerm(e) {
        var allow := AnswerPerm(e, facts, deadline);
      } else {
        ConsiderPath(e, facts);
      }
      Emit(Close(e.fd));
      EventDecided(rules, scanOnOpen, e, facts, old(Found()), Found(), deadline, store.budget, store.avgEntryBytes);
    }

    /** One batch: the deadline is fixed once, the events are handled in order.
        `views` records what each event found. */
    method Batch(events: seq<Event>, facts: seq<Facts>) returns (ghost views: seq<View>)
      requires |facts| == |events| && forall i :: 0 <= i < |facts| ==> facts[i].scanTime <= VERDICT_TIMEOUT
      modifies this, store, churn
      ensures |views| == |events| + 1 && views[0] == old(Found()) && views[|events|] == Found()
      ensures Chained(rules, scanOnOpen, events, facts, views, old(now) + VERDICT_BATCH_BUDGET,
                      store.budget, store.avgEntryBytes)
      // Every push, answer and close of the batch, in order, and nothing else.
      ensures trace == old(trace) +
                       BatchTrace(rules, scanOnOpen, events, facts, views, old(now) + VERDICT_BATCH_BUDGET)
      // Each event's part of it is the decision its facts call for.
      ensures forall i :: 0 <= i < |events| ==>
                EventDecision(rules, scanOnOpen, events[i], facts[i], views[i], views[i + 1],
                              old(now) + VERDICT_BATCH_BUDGET,
                              EventTrace(rules, scanOnOpen, events[i], facts[i], views[i],
                                         old(now) + VERDICT_BATCH_BUDGET))
      // One for one: the answers and closes, the tasks of the denials, the scans of misses and eligible paths.
      ensures Keep(trace, OnFd) ==
              Keep(old(trace), OnFd) + FdDuties(rules, events, facts, views, old(now) + VERDICT_BATCH_BUDGET)
      ensures Keep(trace, IsGatePush) ==
              Keep(old(trace), IsGatePush) + GateDuties(rules, events, facts, views, old(now) + VERDICT_BATCH_BUDGET)
      ensures Keep(trace, IsScanPush) ==
              Keep(old(trace), IsScanPush)
              + ScanDuties(rules, scanOnOpen, events, facts, views, old(now) + VERDICT_BATCH_BUDGET)
      // The latency bound.
      ensures now == old(now) || now < old(now) + VERDICT_BATCH_BUDGET + VERDICT_TIMEOUT
      ensures now - old(now) <= WATCHDOG_STALL
    {
      hide EventTrace, BatchTrace, ViewStep, Chained, EventDecision, Keep, FdDuties, GateDuties, ScanDuties;
      hide ChoosesHalf, Tried, Classify, IsExcluded;
      var deadline := now + VERDICT_BATCH_BUDGET;
      views := [Found()];
      var i := 0;
      BatchStart(rules, scanOnOpen, events, facts, views, deadline, store.budget, store.avgEntryBytes);
      while i < |events|
        invariant 0 <= i <= |events| && |views| == i + 1
        invariant views[0] == old(Found()) && views[i] == Found()
        invariant store.avgEntryBytes == old(store.avgEntryBytes)
        invariant Chained(rules, scanOnOpen, events[..i], facts[..i], views, deadline,
                          store.budget, store.avgEntryBytes)
        invariant trace == old(trace) + BatchTrace(rules, scanOnOpen, events[..i], facts[..i], views, deadline)
        invariant now == old(now) || now < deadline + VERDICT_TIMEOUT
      {
        ghost var before := views;
        IntakeEvent(events[i], facts[i], deadline);
        views := views + [Found()];
        ChainedMore(rules, scanOnOpen, events, facts, i, before, Found(), deadline, store.budget, store.avgEntryBytes);
        BatchTraceSnoc(rules, scanOnOpen, events, facts, i, before, views, deadline);
        i := i + 1;
      }
      assert events[..i] == events && facts[..i] == facts;
      Appended(rules, scanOnOpen, events, facts, views, deadline, old(trace));
      EventsDecided(rules, scanOnOpen, events, facts, views, deadline, store.budget, store.avgEntryBytes);
    }
  }
}
