/** Shutdown and restart: what the persisted table holds, exactly when nothing is lost, and how it is drained. */
module Shutdown {
  import opened Base
  import opened Pending
  import opened Database
  import opened ScanQueues
  import opened Pipeline

  /** The path is somewhere the shutdown sequence still collects from, given how far it has got. */
  ghost predicate OnTrack(s: State, p: Path) {
    match s.phase
    case Live => Collectable(s, p) || p in s.spillBuf || FeederHolds(s, p)
    case Exiting => Collectable(s, p) || p in s.spillBuf || FeederHolds(s, p)
    case SpillTaken(paths) => Collectable(s, p) || p in paths
    case LanesTaken(paths) => p in Paths(s.pending) || p in paths
    case Persisted => p in Paths(s.pending)
  }

  ghost predicate Collectable(s: State, p: Path) {
    s.q.InLane(p) || s.q.InGate(p) || p in Paths(s.pending)
  }

  /** What a feeder will still hand on. A path it is about to push again counts only while the dedup set
      does not name it in vain: otherwise the push is refused. */
  predicate HandsOn(q: Queue, l: Local, p: Path) {
    match l
    case HoldsVictim(victim, path, _) => p == victim || (p == path && !Phantom(q, p))
    case Retries(path, _) => p == path && !Phantom(q, p)
    case HoldsSpill(paths) => p in paths
    case _ => false
  }

  ghost predicate FeederHolds(s: State, p: Path) {
    exists t :: 0 <= t < |s.locals| && HandsOn(s.q, s.locals[t], p)
  }

  ghost predicate WorkerWants(s: State) {
    exists t :: 0 <= t < |s.locals| && s.locals[t].WantsBatch?
  }

  ghost predicate WorkerHolds(s: State, p: Path) {
    exists t :: 0 <= t < |s.locals| && s.locals[t].HoldsBatch? && p in s.locals[t].batch
  }

  /** Everything queued at the moment the exit flag is set, the gate bookkeeping included. */
  ghost predicate Buffered(s: State, p: Path) {
    OnTrack(s, p) || WorkerHolds(s, p)
  }

  /** A worker has seen the exit flag down and the lanes empty but has not yet been to the table,
      or it holds a batch with a path that is nowhere else. */
  ghost predicate AtRisk(s: State) {
    (WorkerWants(s) && exists p :: Buffered(s, p)) || exists p :: WorkerHolds(s, p) && !OnTrack(s, p)
  }

  /** What counts as buffered: the tracked paths and the gate bookkeeping, save only paths that the code
      as written has named in vain and that nothing but a refused push still holds. */
  lemma BufferedIsTrackedOrGate(s: State, p: Path)
    requires s.phase == Live
    ensures Buffered(s, p) ==> Tracked(s, p) || s.q.InGate(p)
    ensures !Phantom(s.q, p) ==> (Buffered(s, p) <==> Tracked(s, p) || s.q.InGate(p))
  {
    if t :| 0 <= t < |s.locals| && Holds(s.locals[t], p) {
      assert Phantom(s.q, p) || HandsOn(s.q, s.locals[t], p) || s.locals[t].HoldsBatch?;
    }
    if t :| 0 <= t < |s.locals| && s.locals[t].HoldsBatch? && p in s.locals[t].batch {
      assert Holds(s.locals[t], p);
    }
    if t :| 0 <= t < |s.locals| && HandsOn(s.q, s.locals[t], p) {
      assert Holds(s.locals[t], p);
    }
  }

  // ------------------------------------------------------------------
  // After the exit flag

  lemma FeederAfter(s: State, s': State, t: nat, l: Local, p: Path)
    requires t < |s.locals| && s'.locals == s.locals[t := l] && (Phantom(s'.q, p) ==> Phantom(s.q, p))
    ensures FeederHolds(s, p) ==> FeederHolds(s', p) || HandsOn(s.q, s.locals[t], p)
    ensures HandsOn(s'.q, l, p) ==> FeederHolds(s', p)
    ensures WorkerWants(s') ==> WorkerWants(s) || l.WantsBatch?
  {
    if HandsOn(s'.q, l, p) {
      assert HandsOn(s'.q, s'.locals[t], p);
    }
    if FeederHolds(s, p) {
      var u :| 0 <= u < |s.locals| && HandsOn(s.q, s.locals[u], p);
      assert u != t ==> HandsOn(s'.q, s'.locals[u], p);
    }
    if WorkerWants(s') {
      var u :| 0 <= u < |s'.locals| && s'.locals[u].WantsBatch?;
      assert u != t ==> s.locals[u].WantsBatch?;
    }
  }

  lemma GateKept(q: Queue, q': Queue, p: Path)
    requires q.gate <= q'.gate
    ensures q.InGate(p) ==> q'.InGate(p)
  {
    if q.InGate(p) {
      var i :| 0 <= i < |q.gate| && q.gate[i].path == p;
      assert q'.gate[i].path == p;
    }
  }

  lemma FeedPush(form: Form, s: State, t: nat, path: Path, lane: Lane, p: Path)
    requires Inv(form, s) && s.phase == Exiting && t < |s.locals| && OnTrack(s, p)
    requires form == AsMeant || p != path || !Overflows(s.q, path)
    requires HandsOn(s.q, s.locals[t], p) ==> p == path && !Phantom(s.q, p)
    ensures var s' := PushAt(form, s, t, path, lane);
            OnTrack(s', p) && (WorkerWants(s') ==> WorkerWants(s))
  {
    var s' := PushAt(form, s, t, path, lane);
    PushKeeps(form, s.q, path, lane);
    FeederAfter(s, s', t, s'.locals[t], p);
    GateKept(s.q, s'.q, p);
  }

  lemma ExitStepKeeps(form: Form, s: State, step: Step, p: Path)
    requires Inv(form, s) && Enabled(s, step) && s.phase != Live && !WorkerWants(s) && OnTrack(s, p)
    requires form == AsMeant || Spares(s, step, p)
    ensures var s' := Apply(form, s, step);
            s'.phase != Live && !WorkerWants(s') && OnTrack(s', p)
  {
    var s' := Apply(form, s, step);
    match step
    case Push(t, path, lane) => FeedPush(form, s, t, path, lane, p);
    case Retry(t) => FeedPush(form, s, t, s.locals[t].path, s.locals[t].lane, p);
    case SpillVictim(t) => FeederAfter(s, s', t, s'.locals[t], p);
    case TakeSpill(t) => FeederAfter(s, s', t, s'.locals[t], p);
    case StoreSpill(t, now) =>
      SpilledKeeps(s.pending, s.locals[t].paths, now);
      FeederAfter(s, s', t, s'.locals[t], p);
    case Gate(path, signature) => GateKept(s.q, s'.q, p);
    case Sweep(paths, now) => SpilledKeeps(s.pending, paths, now);
    case Look(t) => FeederAfter(s, s', t, Stopped, p);
    case TakeBatch(t) => assert false;
    case ReloadBatch(t) =>
      ReloadKeeps(s.q, s.locals[t].batch);
      FeederAfter(s, s', t, s'.locals[t], p);
    case FinalSpill => assert forall t :: 0 <= t < |s.locals| ==> !IsFeeder(s.locals[t]);
    case FinalDrain => DrainTakesAll(s.q, p);
    case FinalPersist(now) => SpilledKeeps(s.pending, s.phase.paths, now);
    case BeginExit =>
  }

  lemma {:induction false} ExitRunKeeps(form: Form, s: State, steps: seq<Step>, p: Path)
    requires Inv(form, s) && Legal(form, s, steps) && s.phase != Live && !WorkerWants(s) && OnTrack(s, p)
    requires form == AsMeant || PushesFit(form, s, steps, p)
    ensures OnTrack(After(form, s, steps), p)
    decreases |steps|
  {
    if steps != [] {
      StepKeeps(form, s, steps[0]);
      ExitStepKeeps(form, s, steps[0], p);
      ExitRunKeeps(form, Apply(form, s, steps[0]), steps[1..], p);
    }
  }

  /** A schedule of the shutdown: the exit flag comes first and the remainder ends up in the table. */
  ghost predicate Shuts(form: Form, s: State, steps: seq<Step>) {
    && Legal(form, s, steps) && |steps| > 0 && steps[0] == BeginExit
    && After(form, s, steps).phase == Persisted
  }

  /** Shutdown keeps everything: however the threads interleave once the flag is set, the table ends up
      with every path that was queued, spilled, taken or awaiting gate bookkeeping. As written, this is
      so for every path that is not itself pushed into a full queue on the way down. */
  lemma ShutdownSaves(form: Form, s: State, steps: seq<Step>, p: Path)
    requires Inv(form, s) && Shuts(form, s, steps) && !AtRisk(s) && Buffered(s, p)
    requires form == AsMeant || PushesFit(form, s, steps, p)
    ensures p in Paths(After(form, s, steps).pending)
  {
    var s1 := Apply(form, s, BeginExit);
    StepKeeps(form, s, BeginExit);
    assert WorkerWants(s1) ==> WorkerWants(s);
    if t :| 0 <= t < |s.locals| && HandsOn(s.q, s.locals[t], p) {
      assert HandsOn(s1.q, s1.locals[t], p);
    }
    assert OnTrack(s1, p);
    ExitRunKeeps(form, s1, steps[1..], p);
  }

  // ------------------------------------------------------------------
  // The condition is exact

  /** What a feeder thread does next. */
  function Turn(l: Local, t: nat, now: int): Step
    requires IsFeeder(l)
  {
    match l
    case HoldsVictim(_, _, _) => SpillVictim(t)
    case Retries(_, _) => Retry(t)
    case HoldsSpill(_) => StoreSpill(t, now)
  }

  /** How many turns a feeder needs at most before it is between two calls. */
  function TurnsLeft(q: Queue, l: Local): nat {
    match l
    case HoldsSpill(_) => 1
    case Retries(path, _) => if Overflows(q, path) then 3 else 1
    case HoldsVictim(_, path, _) => if Overflows(q, path) then 4 else 2
    case _ => 0
  }

  /** A feeder's turn moves paths about and neither loses nor adds one. */
  lemma TurnKeeps(form: Form, s: State, t: nat, now: int, p: Path)
    requires Inv(form, s) && s.phase == Exiting && t < |s.locals| && IsFeeder(s.locals[t])
    ensures var step := Turn(s.locals[t], t, now);
            var s' := Apply(form, s, step);
            && s'.phase == Exiting && s'.locals == s.locals[t := s'.locals[t]]
            && TurnsLeft(s'.q, s'.locals[t]) < TurnsLeft(s.q, s.locals[t])
            && (OnTrack(s', p) <==> OnTrack(s, p))
            && (form == AsWritten ==> Spares(s, step, p))
  {
    var step := Turn(s.locals[t], t, now);
    var s' := Apply(form, s, step);
    var was := s.locals[t];
    match was {
      case Retries(path, lane) => PushKeeps(form, s.q, path, lane);
      case HoldsSpill(paths) => SpilledKeeps(s.pending, paths, now);
      case _ =>
    }
    TurnHolds(form, s, t, now, p);
  }

  lemma TurnHolds(form: Form, s: State, t: nat, now: int, p: Path)
    requires Inv(form, s) && s.phase == Exiting && t < |s.locals| && IsFeeder(s.locals[t])
    ensures var s' := Apply(form, s, Turn(s.locals[t], t, now));
            && (FeederHolds(s, p) ==> FeederHolds(s', p) || HandsOn(s.q, s.locals[t], p))
            && (FeederHolds(s', p) ==> FeederHolds(s, p) || HandsOn(s'.q, s'.locals[t], p))
            && (HandsOn(s.q, s.locals[t], p) ==> FeederHolds(s, p))
            && (HandsOn(s'.q, s'.locals[t], p) ==> FeederHolds(s', p))
  {
    var s' := Apply(form, s, Turn(s.locals[t], t, now));
    if s.locals[t].Retries? {
      PushKeeps(form, s.q, s.locals[t].path, s.locals[t].lane);
    }
    assert Phantom(s.q, p) <==> Phantom(s'.q, p);
    if u :| 0 <= u < |s.locals| && HandsOn(s.q, s.locals[u], p) {
      assert u != t ==> HandsOn(s'.q, s'.locals[u], p);
    }
    if u :| 0 <= u < |s'.locals| && HandsOn(s'.q, s'.locals[u], p) {
      assert u != t ==> HandsOn(s.q, s.locals[u], p);
    }
  }

  /** The feeders finish their calls one after another; everything stays on track and nothing else happens. */
  lemma {:induction false} FeedersFinish(form: Form, s: State, n: nat, now: int) returns (steps: seq<Step>)
    requires Inv(form, s) && s.phase == Exiting && n <= |s.locals|
    requires forall t :: 0 <= t < n ==> !IsFeeder(s.locals[t])
    ensures Legal(form, s, steps)
    ensures var s' := After(form, s, steps);
            && Inv(form, s') && s'.phase == Exiting && FeedersIdle(s') && |s'.locals| == |s.locals|
            && (forall t :: 0 <= t < |s.locals| && !IsFeeder(s.locals[t]) ==> s'.locals[t] == s.locals[t])
            && (forall p :: OnTrack(s', p) <==> OnTrack(s, p))
    ensures form == AsWritten ==> forall p :: PushesFit(form, s, steps, p)
    decreases |s.locals| - n, if n < |s.locals| then TurnsLeft(s.q, s.locals[n]) else 0
  {
    hide OnTrack, Inv, Spares;
    if n == |s.locals| {
      steps := [];
    } else if !IsFeeder(s.locals[n]) {
      steps := FeedersFinish(form, s, n + 1, now);
    } else {
      var step := Turn(s.locals[n], n, now);
      var s1 := Apply(form, s, step);
      StepKeeps(form, s, step);
      forall p
        ensures OnTrack(s1, p) <==> OnTrack(s, p)
        ensures form == AsWritten ==> Spares(s, step, p)
      {
        TurnKeeps(form, s, n, now, p);
      }
      TurnKeeps(form, s, n, now, []);
      var rest := FeedersFinish(form, s1, n, now);
      steps := [step] + rest;
      FirstStep(form, s, step, rest);
      assert steps[1..] == rest;
    }
  }

  ghost function Finished(s: State, now: int): State {
    s.(phase := Persisted, q := EmptyQueue, spillBuf := [],
       pending := Spilled(s.pending, s.spillBuf + DrainPaths(s.q), now))
  }

  /** The three critical sections that put the remainder away. */
  lemma FinishRun(form: Form, s: State, now: int) returns (steps: seq<Step>)
    requires Inv(form, s) && s.phase == Exiting && FeedersIdle(s)
    ensures Legal(form, s, steps) && After(form, s, steps) == Finished(s, now)
    ensures forall p :: PushesFit(form, s, steps, p)
    ensures ValidTable(Finished(s, now).pending)
    ensures forall p :: p in Paths(Finished(s, now).pending) <==> OnTrack(s, p)
  {
    var s2 := s.(phase := SpillTaken(s.spillBuf), spillBuf := []);
    var s3 := s2.(phase := LanesTaken(s.spillBuf + DrainPaths(s.q)), q := EmptyQueue);
    var r3 := [FinalPersist(now)] + [];
    var r2 := [FinalDrain] + r3;
    FirstStep(form, s3, FinalPersist(now), []);
    FirstStep(form, s2, FinalDrain, r3);
    FirstStep(form, s, FinalSpill, r2);
    steps := [FinalSpill] + r2;
    assert steps[1..] == r2 && r2[1..] == r3 && r3[1..] == [];
    SpilledKeeps(s.pending, s.spillBuf + DrainPaths(s.q), now);
    forall p
      ensures PushesFit(form, s, steps, p)
      ensures p in Paths(Finished(s, now).pending) <==> OnTrack(s, p)
    {
      assert PushesFit(form, s3, r3, p);
      assert PushesFit(form, s2, r2, p);
      DrainTakesAll(s.q, p);
    }
  }

  /** A shutdown in which no worker stirs: the feeders finish, the remainder is put away, and the table
      holds exactly what was on track when the flag was set. */
  lemma PlainShutdown(form: Form, s: State, now: int) returns (steps: seq<Step>)
    requires Inv(form, s) && s.phase == Live
    ensures Shuts(form, s, steps)
    ensures form == AsWritten ==> forall p :: PushesFit(form, s, steps, p)
    ensures var s' := After(form, s, steps);
            && ValidTable(s'.pending) && (forall p :: p in Paths(s'.pending) <==> OnTrack(s, p))
            && |s'.locals| == |s.locals|
            && (forall t :: 0 <= t < |s.locals| && !IsFeeder(s.locals[t]) ==> s'.locals[t] == s.locals[t])
  {
    var s1 := Apply(form, s, BeginExit);
    StepKeeps(form, s, BeginExit);
    var feed := FeedersFinish(form, s1, 0, now);
    var s2 := After(form, s1, feed);
    var finish := FinishRun(form, s2, now);
    RunsCompose(form, s1, feed, finish);
    forall p
      ensures form == AsWritten ==> PushesFit(form, s1, feed + finish, p)
      ensures OnTrack(s, p) <==> OnTrack(s1, p)
    {
      if form == AsWritten { FitsCompose(form, s1, feed, finish, p); }
      assert FeederHolds(s, p) <==> FeederHolds(s1, p);
    }
    FirstStep(form, s, BeginExit, feed + finish);
    steps := [BeginExit] + (feed + finish);
    assert steps[1..] == feed + finish;
  }

  lemma TakeFirst(form: Form, s: State, t: nat)
    requires t < |s.locals| && s.locals[t].WantsBatch? && ValidTable(s.pending) && s.pending != []
    ensures Legal(form, s, [TakeBatch(t)]) && After(form, s, [TakeBatch(t)]).phase == s.phase
    ensures Paths(s.pending)[0] !in Paths(After(form, s, [TakeBatch(t)]).pending)
    ensures forall p :: PushesFit(form, s, [TakeBatch(t)], p)
  {
    var more := [TakeBatch(t)];
    assert more[1..] == [];
    assert After(form, s, more) == Apply(form, s, TakeBatch(t));
    TakeSplits(s.pending, DB_BATCH);
    assert Paths(s.pending)[0] == Taken(s.pending, DB_BATCH)[0];
  }

  /** A worker between its look at the exit flag and its visit to the table empties the table
      behind the shutdown's back: the schedule and the path it loses. */
  lemma LateVisitLoses(form: Form, s: State, t: nat, now: int) returns (steps: seq<Step>, p: Path)
    requires Inv(form, s) && s.phase == Live
    requires t < |s.locals| && s.locals[t].WantsBatch? && exists r :: OnTrack(s, r)
    ensures Shuts(form, s, steps) && Buffered(s, p) && (form == AsWritten ==> PushesFit(form, s, steps, p))
    ensures p !in Paths(After(form, s, steps).pending)
  {
    hide OnTrack, Inv, ValidTable, Legal, After, PushesFit;
    var r :| OnTrack(s, r);
    var plain := PlainShutdown(form, s, now);
    var s1 := After(form, s, plain);
    assert r in Paths(s1.pending);
    p := Paths(s1.pending)[0];
    TakeFirst(form, s1, t);
    RunsCompose(form, s, plain, [TakeBatch(t)]);
    if form == AsWritten { FitsCompose(form, s, plain, [TakeBatch(t)], p); }
    steps := plain + [TakeBatch(t)];
  }

  /** A path only a worker's batch holds is missed by the drain: the plain shutdown loses it. */
  lemma HeldBatchLoses(form: Form, s: State, now: int, p: Path) returns (steps: seq<Step>)
    requires Inv(form, s) && s.phase == Live && WorkerHolds(s, p) && !OnTrack(s, p)
    ensures Shuts(form, s, steps) && Buffered(s, p) && (form == AsWritten ==> PushesFit(form, s, steps, p))
    ensures p !in Paths(After(form, s, steps).pending)
  {
    steps := PlainShutdown(form, s, now);
  }

  ghost predicate EverySchedulePersists(form: Form, s: State) {
    forall steps, p :: Shuts(form, s, steps) && Buffered(s, p) && (form == AsMeant || PushesFit(form, s, steps, p))
                       ==> p in Paths(After(form, s, steps).pending)
  }

  /** Whatever the other threads are in the middle of: every schedule of the shutdown persists everything
      if and only if no worker is at risk when the exit flag is set. */
  lemma ShutdownSavesIff(form: Form, s: State)
    requires Inv(form, s) && s.phase == Live
    ensures EverySchedulePersists(form, s) <==> !AtRisk(s)
  {
    hide OnTrack, Inv;
    if !AtRisk(s) {
      forall steps, p | Shuts(form, s, steps) && Buffered(s, p) && (form == AsMeant || PushesFit(form, s, steps, p))
        ensures p in Paths(After(form, s, steps).pending)
      {
        ShutdownSaves(form, s, steps, p);
      }
    } else if r :| WorkerHolds(s, r) && !OnTrack(s, r) {
      var steps := HeldBatchLoses(form, s, 0, r);
    } else {
      var t :| 0 <= t < |s.locals| && s.locals[t].WantsBatch?;
      var steps, p := LateVisitLoses(form, s, t, 0);
    }
  }

  /** The end of `run`, once the feeders are joined: spill buffer, lanes, table. Everything the queue
      holds goes into the table, nothing else does, and no row is lost. */
  method PersistRemainder(queue: ScanQueue, now: int)
    requires queue.Valid() && ValidTable(queue.db.pending)
    modifies queue, queue.db`pending
    ensures queue.Valid() && queue.View() == EmptyQueue && queue.spillBuf == [] && ValidTable(queue.db.pending)
    ensures queue.db.pending == Spilled(old(queue.db.pending), old(queue.spillBuf) + DrainPaths(old(queue.View())), now)
    ensures forall p :: p in Paths(queue.db.pending) <==>
              || p in Paths(old(queue.db.pending)) || p in old(queue.spillBuf)
              || old(queue.View()).InLane(p) || old(queue.View()).InGate(p)
  {
    var paths := queue.TakeSpillBuf();
    var drained := queue.Drain();
    forall p
      ensures p in drained <==> old(queue.View()).InLane(p) || old(queue.View()).InGate(p)
    {
      DrainTakesAll(old(queue.View()), p);
    }
    SpilledKeeps(queue.db.pending, paths + drained, now);
    queue.Persist(paths + drained, now);
  }

  // ------------------------------------------------------------------
  // Restart

  lemma {:induction false} ReloadGrows(q: Queue, batch: seq<Path>)
    ensures |Reload(q, batch).backlog| <= |q.backlog| + |batch|
    ensures Reload(q, batch).gate == q.gate && Reload(q, batch).Depth() == q.Depth()
  {
    if batch != [] {
      ReloadGrows(q, batch[1..]);
    }
  }

  function Waiting(q: Queue, rows: Table): nat {
    |q.gate| + q.Depth() + |q.backlog| + |rows|
  }

  /** Each delivered task leaves one fewer thing waiting, reloads included. */
  lemma {:induction false} PopShrinks(q: Queue, rows: Table)
    ensures var (r, q', rows') := PopWhole(q, rows, false);
            && (r.Got? ==> Waiting(q', rows') < Waiting(q, rows))
            && (r.WouldWait? ==>
                  && q' == q.(queued := q'.queued, backlog := []) && rows' == []
                  && PopLocked(q).None? && PopLocked(q').None?)
            && !r.Exited?
    decreases |rows|
  {
    if PopLocked(q).None? && rows != [] {
      var batch := Taken(rows, DB_BATCH);
      ReloadGrows(q, batch);
      PopShrinks(Reload(q, batch), Left(rows, DB_BATCH));
      if PopLocked(Reload(q, batch)).None? {
        assert Reload(q, batch).backlog == [];
      }
    }
  }

  /** Everything one worker is given before it would wait, when nothing new arrives. */
  function PopAll(q: Queue, rows: Table): seq<Task>
    decreases Waiting(q, rows)
  {
    PopShrinks(q, rows);
    var (r, q', rows') := PopWhole(q, rows, false);
    match r
    case Got(task) => [task] + PopAll(q', rows')
    case _ => []
  }

  lemma PopAllStep(q: Queue, rows: Table)
    ensures var (r, q', rows') := PopWhole(q, rows, false);
            PopAll(q, rows) == if r.Got? then [r.task] + PopAll(q', rows') else []
  {
    hide PopWhole;
  }

  /** The loop of one worker thread up to the point where it would wait. */
  method Work(queue: ScanQueue) returns (tasks: seq<Task>)
    requires queue.Valid()
    modifies queue, queue.db`pending
    ensures queue.Valid() && tasks == PopAll(old(queue.View()), old(queue.db.pending))
    ensures queue.db.pending == [] && PopLocked(queue.View()).None?
  {
    hide PopWhole, PopLocked, ValidQueue, PopAll, Waiting;
    tasks := [];
    while true
      invariant queue.Valid()
      invariant PopAll(old(queue.View()), old(queue.db.pending)) == tasks + PopAll(queue.View(), queue.db.pending)
      decreases Waiting(queue.View(), queue.db.pending)
    {
      PopShrinks(queue.View(), queue.db.pending);
      PopAllStep(queue.View(), queue.db.pending);
      var r := queue.Pop(false);
      if r.WouldWait? {
        return;
      }
      tasks := tasks + [r.task];
    }
  }

  function OnlyBacklog(paths: seq<Path>): Queue {
    EmptyQueue.(backlog := paths, queued := Elems(paths))
  }

  lemma {:induction false} ReloadFresh(batch: seq<Path>)
    requires Distinct(batch)
    ensures Reload(EmptyQueue, batch) == OnlyBacklog(batch)
  {
    if batch != [] {
      DistinctTail(batch);
      ReloadFresh(batch[1..]);
      assert [batch[0]] + batch[1..] == batch;
      assert Elems(batch) == Elems(batch[1..]) + {batch[0]};
    } else {
      assert Elems(batch) == {};
    }
  }

  lemma {:induction false} PopAllInOrder(backlog: seq<Path>, rows: Table)
    requires Distinct(backlog) && ValidTable(rows)
    ensures PopAll(OnlyBacklog(backlog), rows) == Scans(backlog + Paths(rows))
    decreases |backlog| + |rows|, |rows|
  {
    var q := OnlyBacklog(backlog);
    if backlog != [] {
      DistinctTail(backlog);
      assert q.queued - {backlog[0]} == Elems(backlog[1..]);
      PopAllInOrder(backlog[1..], rows);
      assert Scans(backlog + Paths(rows)) == [Scan(backlog[0])] + Scans(backlog[1..] + Paths(rows));
    } else {
      assert q == EmptyQueue;
      if rows == [] {
        assert backlog + Paths(rows) == [];
      } else {
        TakeSplits(rows, DB_BATCH);
        var batch := Taken(rows, DB_BATCH);
        ReloadFresh(batch);
        var rest := Left(rows, DB_BATCH);
        assert PopWhole(q, rows, false) == PopWhole(OnlyBacklog(batch), rest, false);
        assert PopAll(q, rows) == PopAll(OnlyBacklog(batch), rest);
        assert backlog + Paths(rows) == batch + Paths(rest);
        PopAllInOrder(batch, rest);
      }
    }
  }

  /** A fresh queue drains the table: each pending path exactly once, oldest first, across any number of reloads. */
  lemma RestartDrains(rows: Table)
    requires ValidTable(rows)
    ensures PopAll(EmptyQueue, rows) == Scans(Paths(rows))
    ensures Distinct(PopAll(EmptyQueue, rows)) && Sorted(rows)
  {
    PopAllInOrder([], rows);
    assert Elems<Path>([]) == {};
    assert OnlyBacklog([]) == EmptyQueue;
    assert [] + Paths(rows) == Paths(rows);
    ScansDistinct(Paths(rows));
  }

  lemma ScansDistinct(paths: seq<Path>)
    requires Distinct(paths)
    ensures Distinct(Scans(paths))
  {
    var ts := Scans(paths);
    assert forall i, j :: 0 <= i < j < |paths| ==> ts[i].path != ts[j].path;
  }

  /** Nothing is lost across a restart: whatever was buffered when the flag was set is scanned by the next lifetime. */
  lemma RestartScansAll(form: Form, s: State, steps: seq<Step>, p: Path)
    requires Inv(form, s) && Shuts(form, s, steps) && !AtRisk(s) && Buffered(s, p)
    requires form == AsMeant || PushesFit(form, s, steps, p)
    ensures Scan(p) in PopAll(EmptyQueue, After(form, s, steps).pending)
  {
    var rows := After(form, s, steps).pending;
    ShutdownSaves(form, s, steps, p);
    RunKeeps(form, s, steps);
    RestartDrains(rows);
    var i :| 0 <= i < |rows| && Paths(rows)[i] == p;
    assert Scans(Paths(rows))[i] == Scan(p);
  }

  /** From boot to the next lifetime: a path that is pushed at any time is scanned before the exit flag
      is set, or is persisted and scanned by the next lifetime, provided no worker is at risk at that
      moment; as written, provided also that its own pushes fit. */
  lemma ScannedNowOrNextTime(form: Form, n: nat, rows: Table, before: seq<Step>, t: nat, path: Path, lane: Lane,
                             since: seq<Step>, exit: seq<Step>)
    requires ValidTable(rows) && Legal(form, BootWith(n, rows), before)
    requires var s := After(form, BootWith(n, rows), before);
             && Legal(form, s, [Push(t, path, lane)] + since) && Safe(form, s, [Push(t, path, lane)] + since, path)
             && var s1 := After(form, s, [Push(t, path, lane)] + since);
                !AtRisk(s1) && Shuts(form, s1, exit) && (form == AsMeant || PushesFit(form, s1, exit, path))
    ensures var s := After(form, BootWith(n, rows), before);
            var s1 := After(form, s, [Push(t, path, lane)] + since);
            && s.scanned <= s1.scanned
            && (path in s1.scanned[|s.scanned|..] || Scan(path) in PopAll(EmptyQueue, After(form, s1, exit).pending))
  {
    hide PopAll, AtRisk, Shuts, Safe;
    var s := After(form, BootWith(n, rows), before);
    ReachableKeeps(form, n, rows, before);
    RunKeeps(form, s, [Push(t, path, lane)] + since);
    PushedIsNeverLost(form, s, t, path, lane, since);
    var s1 := After(form, s, [Push(t, path, lane)] + since);
    if Tracked(s1, path) {
      ShutsLive(form, s1, exit);
      BufferedIsTrackedOrGate(s1, path);
      RestartScansAll(form, s1, exit, path);
    }
  }

  lemma ShutsLive(form: Form, s: State, steps: seq<Step>)
    requires Shuts(form, s, steps)
    ensures s.phase == Live
  {
  }
}
