/** The scan pipeline as a step machine: one step per critical section, with what each thread
    holds between two locks made explicit. Any number of threads, any interleaving. */
module Pipeline {
  import opened Base
  import opened Pending
  import opened ScanQueues

  /** What a thread holds while it has released one lock and not yet taken the next. */
  datatype Local =
    | Idle
    | HoldsVictim(victim: Path, path: Path, lane: Lane)
    | Retries(path: Path, lane: Lane)
    | WantsBatch
    | HoldsBatch(batch: seq<Path>)
    | HoldsSpill(paths: seq<Path>)
    | Stopped

  /** Shutdown: the exit flag, then the spill buffer, then the lanes, then the table. */
  datatype Phase = Live | Exiting | SpillTaken(paths: seq<Path>) | LanesTaken(paths: seq<Path>) | Persisted

  datatype State = State(q: Queue, spillBuf: seq<Path>, pending: Table, locals: seq<Local>, phase: Phase,
                         scanned: seq<Path>)

  datatype Step =
    | Push(t: nat, path: Path, lane: Lane)
    | SpillVictim(t: nat)
    | Retry(t: nat)
    | TakeSpill(t: nat)
    | StoreSpill(t: nat, now: int)
    | Gate(path: Path, signature: string)
    | Sweep(paths: seq<Path>, now: int)
    | Look(t: nat)
    | TakeBatch(t: nat)
    | ReloadBatch(t: nat)
    | BeginExit
    | FinalSpill
    | FinalDrain
    | FinalPersist(now: int)

  const Boot := State(EmptyQueue, [], [], [], Live, [])

  predicate IsFeeder(l: Local) {
    l.HoldsVictim? || l.Retries? || l.HoldsSpill?
  }

  /** Intake, housekeeping and sweep are between two calls. */
  ghost predicate FeedersIdle(s: State) {
    forall t :: 0 <= t < |s.locals| ==> !IsFeeder(s.locals[t])
  }

  predicate Feeding(s: State) {
    s.phase == Live || s.phase == Exiting
  }

  ghost predicate Enabled(s: State, step: Step) {
    match step
    case Push(t, _, _) => t < |s.locals| && s.locals[t].Idle? && Feeding(s)
    case SpillVictim(t) => t < |s.locals| && s.locals[t].HoldsVictim?
    case Retry(t) => t < |s.locals| && s.locals[t].Retries?
    case TakeSpill(t) => t < |s.locals| && s.locals[t].Idle? && Feeding(s)
    case StoreSpill(t, _) => t < |s.locals| && s.locals[t].HoldsSpill?
    case Gate(_, _) => Feeding(s)
    case Sweep(_, _) => Feeding(s)
    case Look(t) => t < |s.locals| && s.locals[t].Idle?
    case TakeBatch(t) => t < |s.locals| && s.locals[t].WantsBatch?
    case ReloadBatch(t) => t < |s.locals| && s.locals[t].HoldsBatch?
    case BeginExit => s.phase == Live
    case FinalSpill => s.phase == Exiting && FeedersIdle(s)
    case FinalDrain => s.phase.SpillTaken?
    case FinalPersist(_) => s.phase.LanesTaken?
  }

  function PushAt(form: Form, s: State, t: nat, path: Path, lane: Lane): State
    requires t < |s.locals|
  {
    match PushLocked(form, s.q, path, lane)
    case Ignored => s.(locals := s.locals[t := Idle])
    case Stored(q') => s.(q := q', locals := s.locals[t := Idle])
    case Evicting(q', victim) => s.(q := q', locals := s.locals[t := HoldsVictim(victim, path, lane)])
  }

  /** The top of the loop in `pop`: the exit flag, then the lanes. */
  function LookAt(s: State, t: nat): State
    requires t < |s.locals|
  {
    if s.phase != Live then s.(locals := s.locals[t := Stopped])
    else
      match PopLocked(s.q)
      case None => s.(locals := s.locals[t := WantsBatch])
      case Some((task, q')) =>
        s.(q := q', locals := s.locals[t := Idle],
           scanned := if task.Scan? then s.scanned + [task.path] else s.scanned)
  }

  ghost function Apply(form: Form, s: State, step: Step): State
    requires Enabled(s, step)
  {
    match step
    case Push(t, path, lane) => PushAt(form, s, t, path, lane)
    case SpillVictim(t) =>
      s.(spillBuf := s.spillBuf + [s.locals[t].victim],
         locals := s.locals[t := Retries(s.locals[t].path, s.locals[t].lane)])
    case Retry(t) => PushAt(form, s, t, s.locals[t].path, s.locals[t].lane)
    case TakeSpill(t) => s.(spillBuf := [], locals := s.locals[t := HoldsSpill(s.spillBuf)])
    case StoreSpill(t, now) =>
      s.(pending := Spilled(s.pending, s.locals[t].paths, now), locals := s.locals[t := Idle])
    case Gate(path, signature) => s.(q := s.q.(gate := s.q.gate + [GateDetection(path, signature)]))
    case Sweep(paths, now) => s.(pending := Spilled(s.pending, paths, now))
    case Look(t) => LookAt(s, t)
    case TakeBatch(t) =>
      s.(pending := Left(s.pending, DB_BATCH), locals := s.locals[t := HoldsBatch(Taken(s.pending, DB_BATCH))])
    case ReloadBatch(t) =>
      if s.locals[t].batch == [] then s.(locals := s.locals[t := Idle])
      else LookAt(s.(q := Reload(s.q, s.locals[t].batch)), t)
    case BeginExit => s.(phase := Exiting)
    case FinalSpill => s.(phase := SpillTaken(s.spillBuf), spillBuf := [])
    case FinalDrain => s.(phase := LanesTaken(s.phase.paths + DrainPaths(s.q)), q := EmptyQueue)
    case FinalPersist(now) => s.(phase := Persisted, pending := Spilled(s.pending, s.phase.paths, now))
  }

  ghost predicate Legal(form: Form, s: State, steps: seq<Step>)
    decreases |steps|
  {
    steps == [] || (Enabled(s, steps[0]) && Legal(form, Apply(form, s, steps[0]), steps[1..]))
  }

  ghost function After(form: Form, s: State, steps: seq<Step>): State
    requires Legal(form, s, steps)
    decreases |steps|
  {
    if steps == [] then s else After(form, Apply(form, s, steps[0]), steps[1..])
  }

  lemma FirstStep(form: Form, s: State, step: Step, rest: seq<Step>)
    requires Enabled(s, step) && Legal(form, Apply(form, s, step), rest)
    ensures Legal(form, s, [step] + rest)
    ensures After(form, s, [step] + rest) == After(form, Apply(form, s, step), rest)
  {
    assert ([step] + rest)[0] == step && ([step] + rest)[1..] == rest;
  }

  lemma {:induction false} RunsCompose(form: Form, s: State, xs: seq<Step>, ys: seq<Step>)
    requires Legal(form, s, xs) && Legal(form, After(form, s, xs), ys)
    ensures Legal(form, s, xs + ys) && After(form, s, xs + ys) == After(form, After(form, s, xs), ys)
    decreases |xs|
  {
    hide Enabled, Apply;
    if xs == [] {
      assert xs + ys == ys;
    } else {
      RunsCompose(form, Apply(form, s, xs[0]), xs[1..], ys);
      assert (xs + ys)[1..] == xs[1..] + ys;
    }
  }

  // ------------------------------------------------------------------
  // Shape: holds of both forms of the push

  ghost predicate Shape(form: Form, s: State) {
    && ValidQueue(s.q)
    && ValidTable(s.pending)
    && (form == AsMeant ==> Exact(s.q))
    && Joined(s)
  }

  predicate Pushing(l: Local) {
    l.HoldsVictim? || l.Retries?
  }

  /** As written, whoever has made room for a path finds it refused: the dedup set names it already. */
  ghost predicate RetriesRefused(form: Form, s: State) {
    form == AsWritten ==>
      forall t :: 0 <= t < |s.locals| && Pushing(s.locals[t]) ==> Phantom(s.q, s.locals[t].path)
  }

  ghost predicate Inv(form: Form, s: State) {
    Shape(form, s) && RetriesRefused(form, s)
  }

  /** Shutdown collects the spill buffer only once its feeders are joined; it stays empty from then on. */
  ghost predicate Joined(s: State) {
    !Feeding(s) ==> FeedersIdle(s) && s.spillBuf == []
  }

  lemma StepJoined(form: Form, s: State, step: Step)
    requires Joined(s) && Enabled(s, step)
    ensures Joined(Apply(form, s, step))
  {
  }

  lemma PushAtKeeps(form: Form, s: State, t: nat, path: Path, lane: Lane)
    requires Shape(form, s) && t < |s.locals| && Feeding(s)
    ensures Shape(form, PushAt(form, s, t, path, lane))
  {
    PushKeeps(form, s.q, path, lane);
    if form == AsMeant && path !in s.q.queued {
      PushExactIff(form, s.q, path, lane);
    }
  }

  lemma LookAtKeeps(form: Form, s: State, t: nat)
    requires Shape(form, s) && t < |s.locals|
    ensures Shape(form, LookAt(s, t))
  {
    PopKeeps(s.q);
  }

  lemma ShapeKeeps(form: Form, s: State, step: Step)
    requires Shape(form, s) && Enabled(s, step)
    ensures Shape(form, Apply(form, s, step))
  {
    StepJoined(form, s, step);
    match step
    case Push(t, path, lane) => PushAtKeeps(form, s, t, path, lane);
    case Retry(t) => PushAtKeeps(form, s, t, s.locals[t].path, s.locals[t].lane);
    case StoreSpill(t, now) => SpilledKeeps(s.pending, s.locals[t].paths, now);
    case Sweep(paths, now) => SpilledKeeps(s.pending, paths, now);
    case Look(t) => LookAtKeeps(form, s, t);
    case TakeBatch(t) => TakeSplits(s.pending, DB_BATCH);
    case ReloadBatch(t) =>
      ReloadKeeps(s.q, s.locals[t].batch);
      LookAtKeeps(form, s.(q := Reload(s.q, s.locals[t].batch)), t);
    case FinalPersist(now) => SpilledKeeps(s.pending, s.phase.paths, now);
    case _ =>
  }

  /** Short of the shutdown drain, a path named in vain stays so and is not scanned. */
  lemma PhantomStep(form: Form, s: State, step: Step, p: Path)
    requires Shape(form, s) && Enabled(s, step) && Phantom(s.q, p) && !step.FinalDrain?
    ensures var s' := Apply(form, s, step);
            Phantom(s'.q, p) && s.scanned <= s'.scanned && p !in s'.scanned[|s.scanned|..]
  {
    match step
    case Push(t, path, lane) => PushKeeps(form, s.q, path, lane);
    case Retry(t) => PushKeeps(form, s.q, s.locals[t].path, s.locals[t].lane);
    case Look(t) => PopKeeps(s.q);
    case ReloadBatch(t) =>
      ReloadKeeps(s.q, s.locals[t].batch);
      PopKeeps(Reload(s.q, s.locals[t].batch));
    case _ =>
  }

  /** Every critical section, of either form, keeps the lanes duplicate-free, disjoint, inside the
      dedup set and under the cap; as meant, it also keeps the dedup set equal to the lanes. */
  lemma StepKeeps(form: Form, s: State, step: Step)
    requires Inv(form, s) && Enabled(s, step)
    ensures Inv(form, Apply(form, s, step))
  {
    hide Shape;
    ShapeKeeps(form, s, step);
    var s' := Apply(form, s, step);
    if form == AsWritten && !step.FinalDrain? {
      forall t | 0 <= t < |s'.locals| && Pushing(s'.locals[t])
        ensures Phantom(s'.q, s'.locals[t].path)
      {
        PushingAfter(s, step, t);
        if Pushing(s.locals[t]) && s.locals[t].path == s'.locals[t].path {
          PhantomStep(form, s, step, s'.locals[t].path);
        }
      }
    } else if form == AsWritten {
      NoneFeeding(s);
    }
  }

  lemma NoneFeeding(s: State)
    requires Shape(AsWritten, s) && !Feeding(s)
    ensures forall t :: 0 <= t < |s.locals| ==> !Pushing(s.locals[t])
  {
    assert forall t :: 0 <= t < |s.locals| ==> !IsFeeder(s.locals[t]);
  }

  /** A thread that pushes after a step was pushing the same path before, or the step has just
      left its path in the dedup set alone. */
  lemma PushingAfter(s: State, step: Step, t: nat)
    requires Shape(AsWritten, s) && Enabled(s, step)
    requires t < |s.locals| && Pushing(Apply(AsWritten, s, step).locals[t])
    ensures var s' := Apply(AsWritten, s, step);
            (Pushing(s.locals[t]) && s.locals[t].path == s'.locals[t].path) || Phantom(s'.q, s'.locals[t].path)
  {
    match step
    case Push(_, path, lane) => PushKeeps(AsWritten, s.q, path, lane);
    case Retry(u) => PushKeeps(AsWritten, s.q, s.locals[u].path, s.locals[u].lane);
    case _ =>
  }

  lemma {:induction false} RunKeeps(form: Form, s: State, steps: seq<Step>)
    requires Inv(form, s) && Legal(form, s, steps)
    ensures Inv(form, After(form, s, steps))
    decreases |steps|
  {
    if steps != [] {
      StepKeeps(form, s, steps[0]);
      RunKeeps(form, Apply(form, s, steps[0]), steps[1..]);
    }
  }

  // ------------------------------------------------------------------
  // Conservation

  predicate Holds(l: Local, p: Path) {
    match l
    case HoldsVictim(victim, path, _) => p == victim || p == path
    case Retries(path, _) => p == path
    case HoldsBatch(batch) => p in batch
    case HoldsSpill(paths) => p in paths
    case _ => false
  }

  ghost predicate Held(s: State, p: Path) {
    exists t :: 0 <= t < |s.locals| && Holds(s.locals[t], p)
  }

  predicate ShutdownHolds(phase: Phase, p: Path) {
    (phase.SpillTaken? || phase.LanesTaken?) && p in phase.paths
  }

  /** The path is somewhere: a lane, the backlog, the spill buffer, the table, or a thread's hands. */
  ghost predicate Tracked(s: State, p: Path) {
    s.q.InLane(p) || p in s.spillBuf || p in Paths(s.pending) || Held(s, p) || ShutdownHolds(s.phase, p)
  }

  lemma HeldAfter(locals: seq<Local>, t: nat, l: Local, s: State, s': State, p: Path)
    requires t < |locals| && s.locals == locals && s'.locals == locals[t := l]
    ensures Holds(l, p) ==> Held(s', p)
    ensures Held(s, p) ==> Held(s', p) || Holds(locals[t], p)
  {
    if Holds(l, p) {
      assert Holds(s'.locals[t], p);
    }
    if Held(s, p) {
      var u :| 0 <= u < |locals| && Holds(locals[u], p);
      assert u != t ==> Holds(s'.locals[u], p);
    }
  }

  /** The path a push step hands to the queue, if the step is one. */
  function PushedBy(s: State, step: Step): Option<Path> {
    match step
    case Push(_, path, _) => Some(path)
    case Retry(t) => if t < |s.locals| && s.locals[t].Retries? then Some(s.locals[t].path) else None
    case _ => None
  }

  /** The step does not push this very path, unknown to the dedup set, into a full queue. */
  predicate Spares(s: State, step: Step, p: Path) {
    PushedBy(s, step) == Some(p) ==> !Overflows(s.q, p)
  }

  /** No push of this very path overflows, whatever the pushes of other paths do. */
  ghost predicate PushesFit(form: Form, s: State, steps: seq<Step>, p: Path)
    requires Legal(form, s, steps)
    decreases |steps|
  {
    steps == [] || (Spares(s, steps[0], p) && PushesFit(form, Apply(form, s, steps[0]), steps[1..], p))
  }

  lemma {:induction false} FitsCompose(form: Form, s: State, xs: seq<Step>, ys: seq<Step>, p: Path)
    requires Legal(form, s, xs) && Legal(form, After(form, s, xs), ys) && Legal(form, s, xs + ys)
    ensures PushesFit(form, s, xs + ys, p) <==>
              PushesFit(form, s, xs, p) && PushesFit(form, After(form, s, xs), ys, p)
    decreases |xs|
  {
    if xs == [] {
      assert xs + ys == ys;
    } else {
      assert (xs + ys)[1..] == xs[1..] + ys;
      FitsCompose(form, Apply(form, s, xs[0]), xs[1..], ys, p);
    }
  }

  /** The hypothesis under which a path is safe: none as meant; as written, that its own pushes fit. */
  ghost predicate Safe(form: Form, s: State, steps: seq<Step>, p: Path)
    requires Legal(form, s, steps)
  {
    form == AsMeant || (!Phantom(s.q, p) && PushesFit(form, s, steps, p))
  }

  lemma SafeStep(form: Form, s: State, steps: seq<Step>, p: Path)
    requires Inv(form, s) && Legal(form, s, steps) && steps != [] && Safe(form, s, steps, p)
    ensures !Phantom(s.q, p) && (form == AsMeant || Spares(s, steps[0], p))
    ensures Safe(form, Apply(form, s, steps[0]), steps[1..], p)
  {
    StepKeeps(form, s, steps[0]);
    if form == AsWritten {
      PhantomArises(s, steps[0], p);
    }
  }

  /** As written, a path comes to be named in vain only by a push of its own that overflows. */
  lemma PhantomArises(s: State, step: Step, p: Path)
    requires Shape(AsWritten, s) && Enabled(s, step) && !Phantom(s.q, p) && Spares(s, step, p)
    ensures !Phantom(Apply(AsWritten, s, step).q, p)
  {
    match step
    case Push(t, path, lane) => PushKeeps(AsWritten, s.q, path, lane);
    case Retry(t) => PushKeeps(AsWritten, s.q, s.locals[t].path, s.locals[t].lane);
    case Look(t) => PopKeeps(s.q);
    case ReloadBatch(t) =>
      ReloadKeeps(s.q, s.locals[t].batch);
      PopKeeps(Reload(s.q, s.locals[t].batch));
    case _ =>
  }

  lemma PushAtTracks(form: Form, s: State, t: nat, path: Path, lane: Lane, p: Path)
    requires Shape(form, s) && t < |s.locals| && Feeding(s) && !Phantom(s.q, p)
    requires form == AsMeant || p != path || !Overflows(s.q, path)
    requires forall r :: Holds(s.locals[t], r) ==> r == path
    ensures p == path || Tracked(s, p) ==> Tracked(PushAt(form, s, t, path, lane), p)
  {
    PushKeeps(form, s.q, path, lane);
    var s' := PushAt(form, s, t, path, lane);
    HeldAfter(s.locals, t, s'.locals[t], s, s', p);
  }

  lemma LookAtTracks(form: Form, s: State, t: nat, p: Path)
    requires Shape(form, s) && t < |s.locals|
    ensures var s' := LookAt(s, t);
            && (s.q.InLane(p) ==> s'.q.InLane(p) || s'.scanned == s.scanned + [p])
            && (Held(s, p) ==> Held(s', p) || Holds(s.locals[t], p))
            && s'.spillBuf == s.spillBuf && s'.pending == s.pending && s'.phase == s.phase
  {
    PopKeeps(s.q);
    var s' := LookAt(s, t);
    HeldAfter(s.locals, t, s'.locals[t], s, s', p);
  }

  /** One step loses no path: it keeps track of it or a worker takes it to scan it. */
  lemma StepTracks(form: Form, s: State, step: Step, p: Path)
    requires Inv(form, s) && Enabled(s, step) && !Phantom(s.q, p) && (form == AsMeant || Spares(s, step, p))
    requires Tracked(s, p) || (step.Push? && step.path == p) || (step.Sweep? && p in step.paths)
    ensures var s' := Apply(form, s, step);
            Tracked(s', p) || s'.scanned == s.scanned + [p]
  {
    var s' := Apply(form, s, step);
    match step
    case Push(t, path, lane) => PushAtTracks(form, s, t, path, lane, p);
    case Retry(t) => PushAtTracks(form, s, t, s.locals[t].path, s.locals[t].lane, p);
    case SpillVictim(t) => HeldAfter(s.locals, t, s'.locals[t], s, s', p);
    case TakeSpill(t) => HeldAfter(s.locals, t, s'.locals[t], s, s', p);
    case StoreSpill(t, now) =>
      SpilledKeeps(s.pending, s.locals[t].paths, now);
      HeldAfter(s.locals, t, s'.locals[t], s, s', p);
    case Sweep(paths, now) => SpilledKeeps(s.pending, paths, now);
    case Look(t) => LookAtTracks(form, s, t, p);
    case TakeBatch(t) =>
      TakeSplits(s.pending, DB_BATCH);
      HeldAfter(s.locals, t, s'.locals[t], s, s', p);
    case ReloadBatch(t) =>
      var batch := s.locals[t].batch;
      if batch == [] {
        HeldAfter(s.locals, t, s'.locals[t], s, s', p);
      } else {
        ReloadKeeps(s.q, batch);
        LookAtTracks(form, s.(q := Reload(s.q, batch)), t, p);
      }
    case FinalDrain => DrainTakesAll(s.q, p);
    case FinalPersist(now) => SpilledKeeps(s.pending, s.phase.paths, now);
    case _ =>
  }

  lemma ScannedGrows(form: Form, s: State, step: Step)
    requires Enabled(s, step)
    ensures s.scanned <= Apply(form, s, step).scanned
  {
  }

  lemma {:induction false} RunScannedGrows(form: Form, s: State, steps: seq<Step>)
    requires Legal(form, s, steps)
    ensures s.scanned <= After(form, s, steps).scanned
    decreases |steps|
  {
    if steps != [] {
      ScannedGrows(form, s, steps[0]);
      RunScannedGrows(form, Apply(form, s, steps[0]), steps[1..]);
    }
  }

  /** No path is lost: over every interleaving, a tracked path stays tracked until a worker takes it.
      As meant, always; as written, whenever no push of this path overflows, whatever other paths do. */
  lemma {:induction false} NoPathLost(form: Form, s: State, steps: seq<Step>, p: Path)
    requires Inv(form, s) && Legal(form, s, steps) && Tracked(s, p) && Safe(form, s, steps, p)
    ensures var s' := After(form, s, steps);
            && s.scanned <= s'.scanned && !Phantom(s'.q, p)
            && (Tracked(s', p) || p in s'.scanned[|s.scanned|..])
    decreases |steps|
  {
    if steps != [] {
      var s1 := Apply(form, s, steps[0]);
      StepKeeps(form, s, steps[0]);
      SafeStep(form, s, steps, p);
      StepTracks(form, s, steps[0], p);
      ScannedGrows(form, s, steps[0]);
      RunScannedGrows(form, s1, steps[1..]);
      SafeRun(form, s1, steps[1..], p);
      var s' := After(form, s1, steps[1..]);
      if Tracked(s1, p) {
        NoPathLost(form, s1, steps[1..], p);
        assert s'.scanned[|s.scanned|..] == s1.scanned[|s.scanned|..] + s'.scanned[|s1.scanned|..];
      } else {
        assert s'.scanned[|s.scanned|] == p;
      }
    }
  }

  lemma {:induction false} SafeRun(form: Form, s: State, steps: seq<Step>, p: Path)
    requires Inv(form, s) && Legal(form, s, steps) && Safe(form, s, steps, p)
    ensures !Phantom(After(form, s, steps).q, p)
    decreases |steps|
  {
    if steps != [] {
      StepKeeps(form, s, steps[0]);
      SafeStep(form, s, steps, p);
      SafeRun(form, Apply(form, s, steps[0]), steps[1..], p);
    }
  }

  /** From the push on: whatever happens after a push, the path is tracked or has been taken since. */
  lemma PushedIsNeverLost(form: Form, s: State, t: nat, path: Path, lane: Lane, steps: seq<Step>)
    requires Inv(form, s) && Legal(form, s, [Push(t, path, lane)] + steps)
    requires Safe(form, s, [Push(t, path, lane)] + steps, path)
    ensures var s' := After(form, s, [Push(t, path, lane)] + steps);
            && s.scanned <= s'.scanned && !Phantom(s'.q, path)
            && (Tracked(s', path) || path in s'.scanned[|s.scanned|..])
  {
    var step := Push(t, path, lane);
    assert ([step] + steps)[1..] == steps;
    StepKeeps(form, s, step);
    SafeStep(form, s, [step] + steps, path);
    StepTracks(form, s, step, path);
    PushKeeps(form, s.q, path, lane);
    NoPathLost(form, Apply(form, s, step), steps, path);
  }

  // ------------------------------------------------------------------
  // A call that nobody interferes with is a run of its own thread

  predicate OfWorker(step: Step, t: nat) {
    step == Look(t) || step == TakeBatch(t) || step == ReloadBatch(t)
  }

  predicate OfFeeder(step: Step, t: nat, path: Path, lane: Lane) {
    step == Push(t, path, lane) || step == SpillVictim(t) || step == Retry(t)
  }

  ghost predicate OnlyWorker(steps: seq<Step>, t: nat) {
    forall i :: 0 <= i < |steps| ==> OfWorker(steps[i], t)
  }

  ghost predicate OnlyFeeder(steps: seq<Step>, t: nat, path: Path, lane: Lane) {
    forall i :: 0 <= i < |steps| ==> OfFeeder(steps[i], t, path, lane)
  }

  /** What a call of `pop` with this outcome leaves. */
  function Delivered(s: State, t: nat, r: PopOutcome, q: Queue, rows: Table): State
    requires t < |s.locals|
  {
    s.(q := q, pending := rows, locals := s.locals[t := if r.Exited? then Stopped else Idle],
       scanned := if r.Got? && r.task.Scan? then s.scanned + [r.task.path] else s.scanned)
  }

  /** One call of `pop`, with the exit flag up or down, is a run of the worker's own steps: it sees the flag
      first, then the lanes, then the table. */
  lemma PopIsRun(form: Form, s: State, t: nat) returns (steps: seq<Step>)
    requires t < |s.locals| && s.locals[t].Idle?
    ensures Legal(form, s, steps) && OnlyWorker(steps, t)
    ensures var (r, q, rows) := PopWhole(s.q, s.pending, s.phase != Live);
            After(form, s, steps) == Delivered(s, t, r, q, rows)
  {
    var look := Look(t);
    var s1 := Apply(form, s, look);
    var rest := [];
    if s.phase == Live && PopLocked(s.q).None? {
      rest := FetchIsRun(form, s1, t);
    }
    FirstStep(form, s, look, rest);
    steps := [look] + rest;
  }

  lemma {:induction false} FetchIsRun(form: Form, s: State, t: nat) returns (steps: seq<Step>)
    requires t < |s.locals| && s.locals[t].WantsBatch? && s.phase == Live && PopLocked(s.q).None?
    ensures Legal(form, s, steps) && OnlyWorker(steps, t)
    ensures var (r, q, rows) := PopWhole(s.q, s.pending, false);
            After(form, s, steps) == Delivered(s, t, r, q, rows)
    decreases |s.pending|
  {
    hide PopLocked, Reload;
    var batch := Taken(s.pending, DB_BATCH);
    var s1 := Apply(form, s, TakeBatch(t));
    var s2 := Apply(form, s1, ReloadBatch(t));
    var rest := [];
    if s2.locals[t].WantsBatch? {
      rest := FetchIsRun(form, s2, t);
    }
    FirstStep(form, s1, ReloadBatch(t), rest);
    FirstStep(form, s, TakeBatch(t), [ReloadBatch(t)] + rest);
    steps := [TakeBatch(t)] + ([ReloadBatch(t)] + rest);
  }

  /** One call of `push_scan`, in either form, is a run of the feeder's own steps. */
  lemma PushIsRun(form: Form, s: State, t: nat, path: Path, lane: Lane) returns (steps: seq<Step>)
    requires t < |s.locals| && s.locals[t].Idle? && Feeding(s)
    ensures Legal(form, s, steps) && OnlyFeeder(steps, t, path, lane)
    ensures var (q, spill) := PushWhole(form, s.q, s.spillBuf, path, lane);
            After(form, s, steps) == s.(q := q, spillBuf := spill)
  {
    var push := Push(t, path, lane);
    var s1 := Apply(form, s, push);
    var rest := [];
    if s1.locals[t].HoldsVictim? {
      rest := RetryIsRun(form, s1, t);
    }
    assert s.locals[t := Idle] == s.locals;
    FirstStep(form, s, push, rest);
    steps := [push] + rest;
  }

  lemma {:induction false} RetryIsRun(form: Form, s: State, t: nat) returns (steps: seq<Step>)
    requires t < |s.locals| && s.locals[t].HoldsVictim?
    ensures Legal(form, s, steps) && OnlyFeeder(steps, t, s.locals[t].path, s.locals[t].lane)
    ensures var l := s.locals[t];
            var (q, spill) := PushWhole(form, s.q, s.spillBuf + [l.victim], l.path, l.lane);
            After(form, s, steps) == s.(q := q, spillBuf := spill, locals := s.locals[t := Idle])
    decreases s.q.Depth()
  {
    var s1 := Apply(form, s, SpillVictim(t));
    var s2 := Apply(form, s1, Retry(t));
    var rest := [];
    if s2.locals[t].HoldsVictim? {
      rest := RetryIsRun(form, s2, t);
    }
    FirstStep(form, s1, Retry(t), rest);
    FirstStep(form, s, SpillVictim(t), [Retry(t)] + rest);
    steps := [SpillVictim(t)] + ([Retry(t)] + rest);
  }

  // ------------------------------------------------------------------
  // From boot

  /** The daemon as it comes up, with n threads and a table the last lifetime left. */
  ghost function BootWith(n: nat, rows: Table): State {
    Boot.(locals := seq(n, _ => Idle), pending := rows)
  }

  /** In every state reachable from boot, with any number of threads, the shape holds. */
  lemma ReachableKeeps(form: Form, n: nat, rows: Table, steps: seq<Step>)
    requires ValidTable(rows) && Legal(form, BootWith(n, rows), steps)
    ensures Inv(form, After(form, BootWith(n, rows), steps))
  {
    RunKeeps(form, BootWith(n, rows), steps);
  }

  lemma HeldBefore(locals: seq<Local>, t: nat, l: Local, s: State, s': State, p: Path)
    requires t < |locals| && s.locals == locals && s'.locals == locals[t := l]
    ensures Held(s', p) ==> Held(s, p) || Holds(l, p)
    ensures Holds(locals[t], p) ==> Held(s, p)
  {
    if Held(s', p) {
      var u :| 0 <= u < |locals| && Holds(s'.locals[u], p);
      assert u != t ==> Holds(s.locals[u], p);
    }
  }

  lemma PushAtInvents(form: Form, s: State, t: nat, path: Path, lane: Lane, p: Path)
    requires Shape(form, s) && t < |s.locals| && p != path && Tracked(PushAt(form, s, t, path, lane), p)
    ensures Tracked(s, p)
  {
    PushKeeps(form, s.q, path, lane);
    var s' := PushAt(form, s, t, path, lane);
    HeldBefore(s.locals, t, s'.locals[t], s, s', p);
    match PushLocked(form, s.q, path, lane)
    case Ignored => assert s'.q.InLane(p) ==> s.q.InLane(p);
    case Stored(q') => assert q'.InLane(p) ==> s.q.InLane(p);
    case Evicting(q', victim) =>
      assert s'.q.InLane(p) ==> s.q.InLane(p);
      assert s'.locals[t] == HoldsVictim(victim, path, lane);
      assert p == victim ==> s.q.InLane(p);
      assert Held(s', p) ==> Held(s, p) || p == victim;
  }

  lemma LookAtInvents(form: Form, s: State, t: nat, p: Path)
    requires Shape(form, s) && t < |s.locals|
    requires Tracked(LookAt(s, t), p) || LookAt(s, t).scanned == s.scanned + [p]
    ensures Tracked(s, p)
  {
    PopKeeps(s.q);
    var s' := LookAt(s, t);
    HeldBefore(s.locals, t, s'.locals[t], s, s', p);
    assert s'.scanned == s.scanned + [p] ==> s'.scanned[|s.scanned|] == p;
  }

  /** Nothing comes from nowhere: only a push, a sweep or the gate bookkeeping drained at
      shutdown brings in a path, and only a tracked path is ever taken to be scanned. */
  lemma StepInventsNothing(form: Form, s: State, step: Step, p: Path)
    requires Inv(form, s) && Enabled(s, step)
    requires Tracked(Apply(form, s, step), p) || Apply(form, s, step).scanned == s.scanned + [p]
    ensures || Tracked(s, p) || (step.Push? && step.path == p) || (step.Sweep? && p in step.paths)
            || (step.FinalDrain? && s.q.InGate(p))
  {
    var s' := Apply(form, s, step);
    match step
    case Push(t, path, lane) => if p != path { PushAtInvents(form, s, t, path, lane, p); }
    case Retry(t) =>
      assert Held(s, s.locals[t].path) by { assert Holds(s.locals[t], s.locals[t].path); }
      if p != s.locals[t].path { PushAtInvents(form, s, t, s.locals[t].path, s.locals[t].lane, p); }
    case SpillVictim(t) => HeldBefore(s.locals, t, s'.locals[t], s, s', p);
    case TakeSpill(t) => HeldBefore(s.locals, t, HoldsSpill(s.spillBuf), s, s', p);
    case StoreSpill(t, now) =>
      SpilledKeeps(s.pending, s.locals[t].paths, now);
      HeldBefore(s.locals, t, s'.locals[t], s, s', p);
    case Sweep(paths, now) => SpilledKeeps(s.pending, paths, now);
    case Look(t) => LookAtInvents(form, s, t, p);
    case TakeBatch(t) =>
      TakeSplits(s.pending, DB_BATCH);
      HeldBefore(s.locals, t, s'.locals[t], s, s', p);
    case ReloadBatch(t) =>
      var batch := s.locals[t].batch;
      HeldBefore(s.locals, t, s'.locals[t], s, s', p);
      if batch != [] {
        ReloadKeeps(s.q, batch);
        LookAtInvents(form, s.(q := Reload(s.q, batch)), t, p);
      }
    case FinalDrain => DrainTakesAll(s.q, p);
    case FinalPersist(now) => SpilledKeeps(s.pending, s.phase.paths, now);
    case _ =>
  }
}
