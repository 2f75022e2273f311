/** What `push_scan` does as it is written: exactly which runs lose a path, and how. */
module Overflow {
  import opened Base
  import opened Pending
  import opened ScanQueues
  import opened Pipeline

  /** The step does not push a new path at the cap. */
  predicate Fits(s: State, step: Step) {
    match PushedBy(s, step)
    case None => true
    case Some(path) => !Overflows(s.q, path)
  }

  ghost predicate AllFit(form: Form, s: State, steps: seq<Step>)
    requires Legal(form, s, steps)
    decreases |steps|
  {
    steps == [] || (Fits(s, steps[0]) && AllFit(form, Apply(form, s, steps[0]), steps[1..]))
  }

  ghost predicate NoDrain(steps: seq<Step>) {
    forall i :: 0 <= i < |steps| ==> !steps[i].FinalDrain?
  }

  /** As written, a step keeps the dedup set exact if and only if it does not push a new path at the cap. */
  lemma StepExactIff(s: State, step: Step)
    requires Shape(AsWritten, s) && Exact(s.q) && Enabled(s, step)
    ensures Exact(Apply(AsWritten, s, step).q) <==> Fits(s, step)
  {
    match step
    case Push(t, path, lane) =>
      if path !in s.q.queued { PushExactIff(AsWritten, s.q, path, lane); }
    case Retry(t) =>
      if s.locals[t].path !in s.q.queued { PushExactIff(AsWritten, s.q, s.locals[t].path, s.locals[t].lane); }
    case Look(t) => PopKeeps(s.q);
    case ReloadBatch(t) =>
      ReloadKeeps(s.q, s.locals[t].batch);
      PopKeeps(Reload(s.q, s.locals[t].batch));
    case _ =>
  }

  /** Until the shutdown drain, a phantom path stays one and is never scanned again, whatever else happens:
      later writes to it are refused and a table row for it is swallowed on reload. */
  lemma {:induction false} PhantomNeverScanned(form: Form, s: State, steps: seq<Step>, p: Path)
    requires Shape(form, s) && Legal(form, s, steps) && Phantom(s.q, p) && NoDrain(steps)
    ensures var s' := After(form, s, steps);
            Phantom(s'.q, p) && s.scanned <= s'.scanned && p !in s'.scanned[|s.scanned|..]
    decreases |steps|
  {
    if steps != [] {
      var s1 := Apply(form, s, steps[0]);
      assert !steps[0].FinalDrain?;
      ShapeKeeps(form, s, steps[0]);
      PhantomStep(form, s, steps[0], p);
      assert NoDrain(steps[1..]);
      PhantomNeverScanned(form, s1, steps[1..], p);
      var s' := After(form, s1, steps[1..]);
      assert s'.scanned[|s.scanned|..] == s1.scanned[|s.scanned|..] + s'.scanned[|s1.scanned|..];
    }
  }

  /** Over a whole run before the shutdown drain: every name in the dedup set is backed by a lane entry
      if and only if no push of the run met the cap with a new path. */
  lemma {:induction false} RunExactIff(s: State, steps: seq<Step>)
    requires Shape(AsWritten, s) && Exact(s.q) && Legal(AsWritten, s, steps) && NoDrain(steps)
    ensures Exact(After(AsWritten, s, steps).q) <==> AllFit(AsWritten, s, steps)
    decreases |steps|
  {
    if steps != [] {
      var s1 := Apply(AsWritten, s, steps[0]);
      assert !steps[0].FinalDrain?;
      assert NoDrain(steps[1..]);
      ShapeKeeps(AsWritten, s, steps[0]);
      StepExactIff(s, steps[0]);
      if Exact(s1.q) {
        RunExactIff(s1, steps[1..]);
      } else {
        var p :| p in s1.q.queued && !s1.q.InLane(p);
        PhantomNeverScanned(AsWritten, s1, steps[1..], p);
      }
    }
  }

  lemma OverflowNames(s: State, step: Step, p: Path)
    requires Shape(AsWritten, s) && Enabled(s, step) && !Spares(s, step, p)
    ensures Phantom(Apply(AsWritten, s, step).q, p)
  {
    match step
    case Push(t, path, lane) => PushKeeps(AsWritten, s.q, path, lane);
    case Retry(t) => PushKeeps(AsWritten, s.q, s.locals[t].path, s.locals[t].lane);
    case _ =>
  }

  /** Path by path: over a whole run before the shutdown drain, a path ends up named in vain
      if and only if it was so at the start or one of its own pushes overflowed. */
  lemma {:induction false} NamedInVainIff(s: State, steps: seq<Step>, p: Path)
    requires Shape(AsWritten, s) && Legal(AsWritten, s, steps) && NoDrain(steps)
    ensures Phantom(After(AsWritten, s, steps).q, p) <==> Phantom(s.q, p) || !PushesFit(AsWritten, s, steps, p)
    decreases |steps|
  {
    if Phantom(s.q, p) {
      PhantomNeverScanned(AsWritten, s, steps, p);
    } else if steps != [] {
      var s1 := Apply(AsWritten, s, steps[0]);
      assert !steps[0].FinalDrain? && NoDrain(steps[1..]);
      ShapeKeeps(AsWritten, s, steps[0]);
      if Spares(s, steps[0], p) {
        PhantomArises(s, steps[0], p);
      } else {
        OverflowNames(s, steps[0], p);
      }
      NamedInVainIff(s1, steps[1..], p);
    }
  }

  /** As written, no path is lost on a run on which its own pushes fit, however full the queue gets
      with others and whether or not the run reaches the shutdown drain. */
  lemma WrittenLosesNothingThatFits(s: State, steps: seq<Step>, p: Path)
    requires Inv(AsWritten, s) && !Phantom(s.q, p) && Tracked(s, p)
    requires Legal(AsWritten, s, steps) && PushesFit(AsWritten, s, steps, p)
    ensures var s' := After(AsWritten, s, steps);
            s.scanned <= s'.scanned && (Tracked(s', p) || p in s'.scanned[|s.scanned|..])
  {
    NoPathLost(AsWritten, s, steps, p);
  }

  /** The fate of one path under the code as written. If none of its own pushes overflows it is not lost,
      however full the queue gets with others; if one does, it is refused from then on. */
  lemma WrittenFate(s: State, steps: seq<Step>, p: Path)
    requires Inv(AsWritten, s) && Legal(AsWritten, s, steps) && NoDrain(steps) && !Phantom(s.q, p) && Tracked(s, p)
    ensures var s' := After(AsWritten, s, steps);
            if PushesFit(AsWritten, s, steps, p)
            then !Phantom(s'.q, p) && s.scanned <= s'.scanned && (Tracked(s', p) || p in s'.scanned[|s.scanned|..])
            else Phantom(s'.q, p)
  {
    NamedInVainIff(s, steps, p);
    if PushesFit(AsWritten, s, steps, p) {
      NoPathLost(AsWritten, s, steps, p);
    }
  }

  lemma FittingStep(s: State, step: Step)
    requires Enabled(s, step) && Fits(s, step)
    ensures Apply(AsWritten, s, step) == Apply(AsMeant, s, step)
  {
  }

  /** A run of the code as written on which every push fits is a run of the intended form. */
  lemma {:induction false} FittingRun(s: State, steps: seq<Step>)
    requires Legal(AsWritten, s, steps) && AllFit(AsWritten, s, steps)
    ensures Legal(AsMeant, s, steps) && After(AsWritten, s, steps) == After(AsMeant, s, steps)
    decreases |steps|
  {
    if steps != [] {
      FittingStep(s, steps[0]);
      FittingRun(Apply(AsWritten, s, steps[0]), steps[1..]);
    }
  }

  // ------------------------------------------------------------------
  // A concrete run that loses a path

  /** One idle thread, k paths in the data lane, nothing else. */
  ghost function Filled(k: nat): State {
    Boot.(q := EmptyQueue.(data := FirstPaths(k), queued := Elems(FirstPaths(k))), locals := [Idle])
  }

  function Pushes(from: nat, count: nat): seq<Step>
    decreases count
  {
    if count == 0 then [] else [Push(0, Nth(from), Data)] + Pushes(from + 1, count - 1)
  }

  lemma {:induction false} FillRun(k: nat)
    requires k <= MEM_QUEUE_CAP
    ensures Legal(AsWritten, Filled(k), Pushes(k, MEM_QUEUE_CAP - k))
    ensures After(AsWritten, Filled(k), Pushes(k, MEM_QUEUE_CAP - k)) == Filled(MEM_QUEUE_CAP)
    decreases MEM_QUEUE_CAP - k
  {
    if k < MEM_QUEUE_CAP {
      var step := Push(0, Nth(k), Data);
      NotYet(k);
      assert FirstPaths(k + 1) == FirstPaths(k) + [Nth(k)];
      assert Elems(FirstPaths(k + 1)) == Elems(FirstPaths(k)) + {Nth(k)};
      assert [Idle][0 := Idle] == [Idle];
      assert Apply(AsWritten, Filled(k), step) == Filled(k + 1);
      FillRun(k + 1);
      assert Pushes(k, MEM_QUEUE_CAP - k)[1..] == Pushes(k + 1, MEM_QUEUE_CAP - k - 1);
    }
  }

  lemma FillAll() returns (steps: seq<Step>)
    ensures Legal(AsWritten, Filled(0), steps) && After(AsWritten, Filled(0), steps) == Filled(MEM_QUEUE_CAP)
  {
    FillRun(0);
    steps := Pushes(0, MEM_QUEUE_CAP);
  }

  /** The write that meets the full queue, as the three critical sections it takes. */
  lemma LastWrite() returns (tail: seq<Step>)
    ensures tail == [Push(0, Nth(MEM_QUEUE_CAP), Data), SpillVictim(0), Retry(0)]
    ensures Legal(AsWritten, Filled(MEM_QUEUE_CAP), tail)
    ensures var s' := After(AsWritten, Filled(MEM_QUEUE_CAP), tail);
            && Phantom(s'.q, Nth(MEM_QUEUE_CAP))
            && s' == Boot.(q := s'.q, spillBuf := [Nth(MEM_QUEUE_CAP - 1)], locals := [Idle])
  {
    var n := MEM_QUEUE_CAP;
    var lost := Nth(n);
    NotYet(n);
    NthInjective(n - 1, n);
    var s0 := Filled(n);
    assert Overflows(s0.q, lost);
    var s1 := Apply(AsWritten, s0, Push(0, lost, Data));
    assert s1 == s0.(q := s1.q, locals := [HoldsVictim(Nth(n - 1), lost, Data)]);
    assert lost in s1.q.queued && lost !in s1.q.data;
    var s2 := Apply(AsWritten, s1, SpillVictim(0));
    assert s2 == s1.(spillBuf := [Nth(n - 1)], locals := [Retries(lost, Data)]);
    var s3 := Apply(AsWritten, s2, Retry(0));
    assert s3 == s2.(locals := [Idle]);
    FirstStep(AsWritten, s2, Retry(0), []);
    FirstStep(AsWritten, s1, SpillVictim(0), [Retry(0)] + []);
    FirstStep(AsWritten, s0, Push(0, lost, Data), [SpillVictim(0)] + ([Retry(0)] + []));
    tail := [Push(0, lost, Data), SpillVictim(0), Retry(0)];
    assert tail == [Push(0, lost, Data)] + ([SpillVictim(0)] + ([Retry(0)] + []));
  }

  /** MEM_QUEUE_CAP writes to different files and one more, from a single thread: the last path is
      then in no lane, no buffer, no table and no thread's hands, and the dedup set refuses it from now on. */
  lemma OneWriteTooMany() returns (steps: seq<Step>, lost: Path)
    ensures Legal(AsWritten, Filled(0), steps)
    ensures Push(0, lost, Data) in steps
    ensures var s' := After(AsWritten, Filled(0), steps);
            !Tracked(s', lost) && lost !in s'.scanned && Phantom(s'.q, lost)
  {
    var n := MEM_QUEUE_CAP;
    lost := Nth(n);
    var fill := FillAll();
    var tail := LastWrite();
    RunsCompose(AsWritten, Filled(0), fill, tail);
    steps := fill + tail;
    assert steps[|fill|] == tail[0];
    NthInjective(n - 1, n);
    var s' := After(AsWritten, Filled(n), tail);
    assert s'.pending == [] && s'.locals == [Idle] && s'.phase == Live && s'.spillBuf == [Nth(n - 1)];
  }
}
