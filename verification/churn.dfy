/** The churn gate: files that are rewritten all the time are scanned at most once per cooldown, latest content last. */
module Churn {
  import opened Base

  /** Nanoseconds. */
  const CHURN_COOLDOWN: nat := 5_000_000_000
  const BOUNDED_MAP_CAP: nat := 100_000

  datatype Entry = Entry(lastQueued: nat, dirty: bool)

  type Gate = map<Path, Entry>

  /** `Instant::duration_since`, which saturates. */
  function Since(now: nat, last: nat): nat {
    if now >= last then now - last else 0
  }

  predicate Cooling(gate: Gate, path: Path, now: nat) {
    path in gate && Since(now, gate[path].lastQueued) < CHURN_COOLDOWN
  }

  function Bounded(gate: Gate): Gate {
    if |gate| > BOUNDED_MAP_CAP then map[] else gate
  }

  /** `churn_try_queue`: the verdict and the map afterwards. */
  function Tried(gate: Gate, path: Path, now: nat): (bool, Gate) {
    var g := Bounded(gate);
    if Cooling(g, path, now) then (false, g[path := Entry(g[path].lastQueued, true)])
    else (true, g[path := Entry(now, false)])
  }

  predicate Due(gate: Gate, path: Path, now: nat) {
    path in gate && gate[path].dirty && Since(now, gate[path].lastQueued) >= CHURN_COOLDOWN
  }

  function DuePaths(gate: Gate, now: nat): set<Path> {
    set p | p in gate && Due(gate, p, now)
  }

  /** `churn_flush`. */
  function Flushed(gate: Gate, now: nat): Gate {
    map p | p in gate :: if Due(gate, p, now) then Entry(now, false) else gate[p]
  }

  class ChurnGate {
    var entries: Gate

    constructor ()
      ensures entries == map[]
    {
      entries := map[];
    }

    method TryQueue(path: Path, now: nat) returns (queue: bool)
      modifies this
      ensures (queue, entries) == Tried(old(entries), path, now)
      // In plain terms: let in when the path is unknown or its cooldown is over, or the map has grown too large.
      ensures queue <==> || |old(entries)| > BOUNDED_MAP_CAP || path !in old(entries)
                         || now >= old(entries)[path].lastQueued + CHURN_COOLDOWN
      ensures path in entries && entries[path].dirty == !queue
      ensures entries[path].lastQueued == if queue then now else old(entries)[path].lastQueued
      ensures |old(entries)| <= BOUNDED_MAP_CAP ==> entries - {path} == old(entries) - {path}
    {
      if |entries| > BOUNDED_MAP_CAP {
        entries := map[];
      }
      if path in entries {
        var entry := entries[path];
        if Since(now, entry.lastQueued) < CHURN_COOLDOWN {
          entries := entries[path := entry.(dirty := true)];
          return false;
        }
      }
      entries := entries[path := Entry(now, false)];
      return true;
    }

    /** The due paths, in whatever order the map yields them. */
    method Flush(now: nat) returns (due: seq<Path>)
      modifies this
      ensures entries == Flushed(old(entries), now)
      ensures Distinct(due) && Elems(due) == DuePaths(old(entries), now)
      // In plain terms: the marked paths whose cooldown is over, each granted now; no other entry changes.
      ensures forall p :: p in due <==>
                p in old(entries) && old(entries)[p].dirty && now >= old(entries)[p].lastQueued + CHURN_COOLDOWN
      ensures entries.Keys == old(entries).Keys
      ensures forall p :: p in entries ==> entries[p] == if p in due then Entry(now, false) else old(entries)[p]
    {
      var left := DuePaths(entries, now);
      due := [];
      while left != {}
        invariant left <= DuePaths(old(entries), now) && entries.Keys == old(entries).Keys
        invariant Distinct(due) && Elems(due) == DuePaths(old(entries), now) - left
        invariant forall p :: p in entries ==>
                    entries[p] == if Due(old(entries), p, now) && p !in left then Entry(now, false) else old(entries)[p]
        decreases left
      {
        var path :| path in left;
        entries := entries[path := Entry(now, false)];
        left := left - {path};
        assert Elems(due + [path]) == Elems(due) + {path};
        due := due + [path];
      }
      assert forall p :: p in due <==> p in Elems(due);
    }
  }

  // ------------------------------------------------------------------
  // Traces

  datatype Event = Write(path: Path, now: nat) | Flush(now: nat)

  /** What one event answers for a given path. */
  datatype Answer = Granted | Refused | Silent

  function Step(gate: Gate, e: Event): Gate {
    match e
    case Write(path, now) => Tried(gate, path, now).1
    case Flush(now) => Flushed(gate, now)
  }

  function AnswerFor(gate: Gate, e: Event, p: Path): Answer {
    match e
    case Write(path, now) =>
      if path != p then Silent else if Tried(gate, p, now).0 then Granted else Refused
    case Flush(now) => if Due(gate, p, now) then Granted else Silent
  }

  function After(gate: Gate, events: seq<Event>): Gate
    decreases |events|
  {
    if events == [] then gate else After(Step(gate, events[0]), events[1..])
  }

  function Answers(gate: Gate, events: seq<Event>, p: Path): (r: seq<Answer>)
    ensures |r| == |events|
    decreases |events|
  {
    if events == [] then [] else [AnswerFor(gate, events[0], p)] + Answers(Step(gate, events[0]), events[1..], p)
  }

  /** The times at which p was granted a scan, in order. */
  function Grants(gate: Gate, events: seq<Event>, p: Path): seq<nat>
    decreases |events|
  {
    if events == [] then []
    else (if AnswerFor(gate, events[0], p) == Granted then [events[0].now] else [])
         + Grants(Step(gate, events[0]), events[1..], p)
  }

  /** A write that finds the map over its bound clears it. */
  predicate Clears(gate: Gate, e: Event) {
    e.Write? && |gate| > BOUNDED_MAP_CAP
  }

  /** The map is never cleared for being too large. */
  ghost predicate NeverCleared(gate: Gate, events: seq<Event>)
    decreases |events|
  {
    events == [] || (!Clears(gate, events[0]) && NeverCleared(Step(gate, events[0]), events[1..]))
  }

  ghost predicate Spaced(times: seq<nat>) {
    forall i, j :: 0 <= i < j < |times| ==> times[j] - times[i] >= (j - i) * CHURN_COOLDOWN
  }

  lemma StepEntry(gate: Gate, e: Event, p: Path)
    requires !Clears(gate, e)
    ensures var g := Step(gate, e);
            match AnswerFor(gate, e, p)
            case Granted =>
              && p in g && g[p] == Entry(e.now, false)
              && (p in gate ==> Since(e.now, gate[p].lastQueued) >= CHURN_COOLDOWN)
            case Refused => p in gate && p in g && g[p] == Entry(gate[p].lastQueued, true)
            case Silent => (p in g <==> p in gate) && (p in gate ==> g[p] == gate[p])
  {
  }

  lemma {:induction false} GrantsSpaced(gate: Gate, events: seq<Event>, p: Path)
    requires NeverCleared(gate, events)
    ensures var g := Grants(gate, events, p);
            && Spaced(g)
            && (p in gate ==> forall k :: 0 <= k < |g| ==> g[k] >= gate[p].lastQueued + (k + 1) * CHURN_COOLDOWN)
    decreases |events|
  {
    if events != [] {
      var e := events[0];
      var g1 := Step(gate, e);
      StepEntry(gate, e, p);
      GrantsSpaced(g1, events[1..], p);
      var rest := Grants(g1, events[1..], p);
      if AnswerFor(gate, e, p) == Granted {
        SpacedCons(e.now, rest);
        var g := [e.now] + rest;
        forall k | 0 <= k < |g|
          ensures p in gate ==> g[k] >= gate[p].lastQueued + (k + 1) * CHURN_COOLDOWN
        {
          assert k > 0 ==> g[k] == rest[k - 1];
        }
      }
    }
  }

  lemma SpacedCons(t: nat, rest: seq<nat>)
    requires Spaced(rest) && forall k :: 0 <= k < |rest| ==> rest[k] >= t + (k + 1) * CHURN_COOLDOWN
    ensures Spaced([t] + rest)
  {
    var all := [t] + rest;
    forall i, j | 0 <= i < j < |all|
      ensures all[j] - all[i] >= (j - i) * CHURN_COOLDOWN
    {
      assert all[j] == rest[j - 1];
      assert i > 0 ==> all[i] == rest[i - 1] && rest[j - 1] - rest[i - 1] >= (j - 1 - (i - 1)) * CHURN_COOLDOWN;
    }
  }

  /** The rate bound: the grants of one path inside any closed window of length T number at most T / cooldown + 1. */
  lemma RateBound(gate: Gate, events: seq<Event>, p: Path, start: nat, length: nat, i: nat, j: nat)
    requires NeverCleared(gate, events)
    requires i <= j < |Grants(gate, events, p)|
    requires start <= Grants(gate, events, p)[i] && Grants(gate, events, p)[j] <= start + length
    ensures j - i + 1 <= length / CHURN_COOLDOWN + 1
  {
    GrantsSpaced(gate, events, p);
    if i < j {
      assert (j - i) * CHURN_COOLDOWN <= length;
    }
  }

  // ------------------------------------------------------------------
  // Latest wins

  /** A refusal with no grant after it. */
  ghost predicate RefusedSinceGrant(answers: seq<Answer>) {
    exists i :: 0 <= i < |answers| && answers[i] == Refused && forall j :: i < j < |answers| ==> answers[j] != Granted
  }

  ghost predicate NoGrant(answers: seq<Answer>) {
    forall i :: 0 <= i < |answers| ==> answers[i] != Granted
  }

  lemma RefusedCons(a: Answer, rest: seq<Answer>)
    ensures RefusedSinceGrant([a] + rest) <==> RefusedSinceGrant(rest) || (a == Refused && NoGrant(rest))
  {
    var all := [a] + rest;
    assert forall k :: 0 < k < |all| ==> all[k] == rest[k - 1];
    if RefusedSinceGrant(rest) {
      var i :| 0 <= i < |rest| && rest[i] == Refused && forall j :: i < j < |rest| ==> rest[j] != Granted;
      assert all[i + 1] == Refused;
    }
    if a == Refused && NoGrant(rest) {
      assert all[0] == Refused;
    }
    if RefusedSinceGrant(all) {
      var i :| 0 <= i < |all| && all[i] == Refused && forall j :: i < j < |all| ==> all[j] != Granted;
      assert forall k :: 0 <= k < |rest| ==> rest[k] == all[k + 1];
      if i > 0 {
        assert rest[i - 1] == Refused;
      }
    }
  }

  /** The mark means: a write was refused since the last grant. */
  lemma {:induction false} DirtyMeans(gate: Gate, events: seq<Event>, p: Path)
    requires NeverCleared(gate, events)
    ensures var g := After(gate, events);
            var answers := Answers(gate, events, p);
            (p in g && g[p].dirty) <==>
              RefusedSinceGrant(answers) || (p in gate && gate[p].dirty && NoGrant(answers))
    decreases |events|
  {
    if events != [] {
      var e := events[0];
      StepEntry(gate, e, p);
      DirtyMeans(Step(gate, e), events[1..], p);
      var rest := Answers(Step(gate, e), events[1..], p);
      RefusedCons(AnswerFor(gate, e, p), rest);
      var all := [AnswerFor(gate, e, p)] + rest;
      assert all[0] == AnswerFor(gate, e, p);
      assert forall k :: 0 < k < |all| ==> all[k] == rest[k - 1];
      assert forall k :: 0 <= k < |rest| ==> rest[k] == all[k + 1];
      assert NoGrant(all) <==> all[0] != Granted && NoGrant(rest);
    }
  }

  lemma {:induction false} UngrantedKeeps(gate: Gate, events: seq<Event>, p: Path)
    requires NeverCleared(gate, events) && p in gate && gate[p].dirty && Grants(gate, events, p) == []
    ensures p in After(gate, events) && After(gate, events)[p] == gate[p]
    decreases |events|
  {
    if events != [] {
      StepEntry(gate, events[0], p);
      UngrantedKeeps(Step(gate, events[0]), events[1..], p);
    }
  }

  /** No refused write is forgotten: once the cooldown is over, either a later write was granted
      in the meantime or the first flush grants the path. */
  lemma RefusedIsScanned(gate: Gate, p: Path, refusedAt: nat, events: seq<Event>, flushAt: nat)
    requires |gate| <= BOUNDED_MAP_CAP && !Tried(gate, p, refusedAt).0
    requires NeverCleared(Tried(gate, p, refusedAt).1, events)
    requires flushAt >= gate[p].lastQueued + CHURN_COOLDOWN
    ensures var g := Tried(gate, p, refusedAt).1;
            Grants(g, events, p) != [] || AnswerFor(After(g, events), Flush(flushAt), p) == Granted
  {
    var g := Tried(gate, p, refusedAt).1;
    if Grants(g, events, p) == [] {
      UngrantedKeeps(g, events, p);
    }
  }

  // ------------------------------------------------------------------
  // What clearing the map costs

  /** A path the map does not know and that is not granted stays unknown. */
  lemma {:induction false} UnknownStays(gate: Gate, events: seq<Event>, p: Path)
    requires p !in gate && Grants(gate, events, p) == []
    ensures p !in After(gate, events)
    decreases |events|
  {
    if events != [] {
      UnknownStays(Step(gate, events[0]), events[1..], p);
    }
  }

  /** What becomes of a path that is not granted: its entry stays as it is, marks added, if and only if
      no write of the run, to whatever path, finds the map over its bound. */
  lemma {:induction false} EntrySurvivesIff(gate: Gate, events: seq<Event>, p: Path)
    requires p in gate && Grants(gate, events, p) == []
    ensures p in After(gate, events) <==> NeverCleared(gate, events)
    ensures p in After(gate, events) ==>
              && After(gate, events)[p].lastQueued == gate[p].lastQueued
              && (gate[p].dirty ==> After(gate, events)[p].dirty)
    decreases |events|
  {
    if events != [] {
      var e := events[0];
      var g := Step(gate, e);
      if Clears(gate, e) {
        assert p !in g;
        UnknownStays(g, events[1..], p);
      } else {
        StepEntry(gate, e, p);
        EntrySurvivesIff(g, events[1..], p);
      }
    }
  }

  /** A refused write is forgotten exactly when the map is cleared: over a run in which the path is not
      granted, the first flush past the cooldown re-queues it if and only if the run never clears the map. */
  lemma MarkSurvivesIff(gate: Gate, p: Path, refusedAt: nat, events: seq<Event>, flushAt: nat)
    requires !Tried(gate, p, refusedAt).0
    requires Grants(Tried(gate, p, refusedAt).1, events, p) == []
    requires flushAt >= gate[p].lastQueued + CHURN_COOLDOWN
    ensures var g := Tried(gate, p, refusedAt).1;
            AnswerFor(After(g, events), Flush(flushAt), p) == Granted <==> NeverCleared(g, events)
  {
    EntrySurvivesIff(Tried(gate, p, refusedAt).1, events, p);
  }

  /** And the cooldown of a path holds over a run in which it is not granted again
      if and only if no write of the run, the one refused included, finds the map over its bound. */
  lemma CooldownHoldsIff(gate: Gate, p: Path, events: seq<Event>, now: nat)
    requires p in gate && Since(now, gate[p].lastQueued) < CHURN_COOLDOWN && Grants(gate, events, p) == []
    ensures !Tried(After(gate, events), p, now).0 <==>
              NeverCleared(gate, events) && |After(gate, events)| <= BOUNDED_MAP_CAP
  {
    EntrySurvivesIff(gate, events, p);
  }

  // ------------------------------------------------------------------
  // A concrete run that forgets

  /** k files written at time 0, the first of them twice. */
  function Filled(k: nat): (g: Gate)
    requires k > 0
    ensures |g| == k && Nth(0) in g && g[Nth(0)] == Entry(0, true)
    ensures forall p :: p in g ==> exists j :: 0 <= j < k && p == Nth(j)
  {
    if k == 1 then map[Nth(0) := Entry(0, true)]
    else
      var g := Filled(k - 1);
      NthNotAmong(g, k - 1);
      g[Nth(k - 1) := Entry(0, false)]
  }

  lemma NthNotAmong(g: Gate, k: nat)
    requires forall p :: p in g ==> exists j :: 0 <= j < k && p == Nth(j)
    ensures Nth(k) !in g
  {
    if Nth(k) in g {
      var j :| 0 <= j < k && Nth(k) == Nth(j);
      NthInjective(j, k);
    }
  }

  function Burst(from: nat, count: nat): seq<Event>
    decreases count
  {
    if count == 0 then [] else [Write(Nth(from), 0)] + Burst(from + 1, count - 1)
  }

  lemma FilledMore(k: nat)
    requires 0 < k <= BOUNDED_MAP_CAP
    ensures Step(Filled(k), Write(Nth(k), 0)) == Filled(k + 1)
    ensures AnswerFor(Filled(k), Write(Nth(k), 0), Nth(0)) == Silent
  {
    NthNotAmong(Filled(k), k);
    NthInjective(0, k);
  }

  lemma {:induction false} BurstFills(k: nat, n: nat)
    requires 0 < k <= n <= BOUNDED_MAP_CAP + 1
    ensures After(Filled(k), Burst(k, n - k)) == Filled(n)
    ensures Grants(Filled(k), Burst(k, n - k), Nth(0)) == []
    ensures |Burst(k, n - k)| == n - k
    decreases n - k
  {
    hide Filled, Step, AnswerFor;
    if k < n {
      FilledMore(k);
      BurstFills(k + 1, n);
      assert Burst(k, n - k)[1..] == Burst(k + 1, n - (k + 1));
    }
  }

  lemma {:induction false} RunsCompose(gate: Gate, xs: seq<Event>, ys: seq<Event>, p: Path)
    ensures After(gate, xs + ys) == After(After(gate, xs), ys)
    ensures Grants(gate, xs + ys, p) == Grants(gate, xs, p) + Grants(After(gate, xs), ys, p)
    decreases |xs|
  {
    hide Step, AnswerFor;
    if xs == [] {
      assert xs + ys == ys;
    } else {
      assert (xs + ys)[0] == xs[0] && (xs + ys)[1..] == xs[1..] + ys;
      RunsCompose(Step(gate, xs[0]), xs[1..], ys, p);
    }
  }

  lemma WriteTwice(p: Path)
    requires p == Nth(0)
    ensures var twice := [Write(p, 0), Write(p, 0)];
            After(map[], twice) == Filled(1) && Grants(map[], twice, p) == [0]
    ensures AnswerFor(After(map[], [Write(p, 0)]), Write(p, 0), p) == Refused
  {
    var twice := [Write(p, 0), Write(p, 0)];
    var g1 := Step(map[], Write(p, 0));
    assert twice[1..] == [Write(p, 0)] && twice[1..][1..] == [] && [Write(p, 0)][1..] == [];
    assert g1 == map[p := Entry(0, false)] && Step(g1, Write(p, 0)) == Filled(1);
    assert After(g1, twice[1..]) == Filled(1);
    assert Grants(g1, twice[1..], p) == [];
    assert After(map[], [Write(p, 0)]) == g1;
  }

  lemma OneMoreClears(g: Gate, p: Path, q: Path)
    requires |g| > BOUNDED_MAP_CAP && p != q
    ensures p !in After(g, [Write(q, 0)]) && Grants(g, [Write(q, 0)], p) == []
  {
    var last := [Write(q, 0)];
    assert last[1..] == [];
    assert Step(g, last[0]) == map[q := Entry(0, false)];
    assert After(g, last) == After(Step(g, last[0]), []);
    assert Grants(g, last, p) == [] + Grants(Step(g, last[0]), [], p);
  }

  /** Two writes to one file, the second refused, then one write each to BOUNDED_MAP_CAP + 1 others, all at
      once: the refused write is forgotten, and the same file is granted again without any cooldown. */
  lemma OneFileTooMany(n: nat) returns (events: seq<Event>, p: Path)
    requires n == BOUNDED_MAP_CAP + 1
    ensures |events| == n + 2 && events[..2] == [Write(p, 0), Write(p, 0)]
    ensures AnswerFor(After(map[], [Write(p, 0)]), Write(p, 0), p) == Refused
    ensures Grants(map[], events, p) == [0] && p !in After(map[], events)
    ensures AnswerFor(After(map[], events), Write(p, 0), p) == Granted
  {
    hide Filled, Burst, After, Grants;
    p := Nth(0);
    var twice, burst, last := [Write(p, 0), Write(p, 0)], Burst(1, n - 1), [Write(Nth(n), 0)];
    WriteTwice(p);
    BurstFills(1, n);
    NthInjective(0, n);
    OneMoreClears(Filled(n), p, Nth(n));
    RunsCompose(Filled(1), burst, last, p);
    RunsCompose(map[], twice, burst + last, p);
    events := twice + (burst + last);
  }
}
