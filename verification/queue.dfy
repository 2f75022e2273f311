/** The real-time scan queue: five lanes, a dedup set, an overflow buffer and the table behind it. */
module ScanQueues {
  import opened Base
  import opened Pending
  import opened Database

  const MEM_QUEUE_CAP: nat := 50_000
  const DB_BATCH: nat := 200

  datatype Lane = Exec | Data | Media | Churn

  datatype Task = Scan(path: Path) | GateDetection(path: Path, signature: string)

  /** What one lock protects: the lanes and the dedup set. */
  datatype Queue = Queue(gate: seq<Task>, exec: seq<Path>, data: seq<Path>, media: seq<Path>,
                         backlog: seq<Path>, queued: set<Path>)
  {
    /** Live-queue depth: neither the backlog nor the gate counts. */
    function Depth(): nat {
      |exec| + |data| + |media|
    }

    predicate InLane(p: Path) {
      p in exec || p in data || p in media || p in backlog
    }

    predicate InGate(p: Path) {
      exists i :: 0 <= i < |gate| && gate[i].path == p
    }
  }

  const EmptyQueue := Queue([], [], [], [], [], {})

  /** No path twice, in one lane or in two; every lane entry is in the dedup set; the gate lane holds
      only gate bookkeeping; the cap holds. */
  ghost predicate ValidQueue(q: Queue) {
    && Distinct(q.exec) && Distinct(q.data) && Distinct(q.media) && Distinct(q.backlog)
    && (forall p :: p in q.exec ==> p !in q.data && p !in q.media && p !in q.backlog)
    && (forall p :: p in q.data ==> p !in q.media && p !in q.backlog)
    && (forall p :: p in q.media ==> p !in q.backlog)
    && (forall p :: q.InLane(p) ==> p in q.queued)
    && (forall i :: 0 <= i < |q.gate| ==> q.gate[i].GateDetection?)
    && q.Depth() <= MEM_QUEUE_CAP
  }

  /** The dedup set names exactly what the lanes hold. */
  ghost predicate Exact(q: Queue) {
    forall p :: p in q.queued ==> q.InLane(p)
  }

  /** A path the dedup set names but no lane holds: it can neither be scanned nor queued again. */
  predicate Phantom(q: Queue, p: Path) {
    p in q.queued && !q.InLane(p)
  }

  /** `push_scan` at the cap, as the code has it and as its comment means it:
      the second form releases the new path from the dedup set before pushing it again. */
  datatype Form = AsWritten | AsMeant

  datatype Pushed = Ignored | Stored(queue: Queue) | Evicting(queue: Queue, victim: Path)

  function Store(q: Queue, path: Path, lane: Lane): Queue {
    match lane
    case Exec => q.(exec := q.exec + [path])
    case Data => q.(data := q.data + [path])
    case Churn => q.(data := q.data + [path])
    case Media => q.(media := q.media + [path])
  }

  function LastOf(s: seq<Path>): Path
    requires s != []
  {
    s[|s| - 1]
  }

  function Init(s: seq<Path>): seq<Path>
    requires s != []
  {
    s[..|s| - 1]
  }

  /** Media yields first, then data, then exec; always the newest entry. */
  function Victim(q: Queue): Path
    requires q.Depth() > 0
  {
    if q.media != [] then LastOf(q.media)
    else if q.data != [] then LastOf(q.data)
    else LastOf(q.exec)
  }

  function DropVictim(q: Queue): Queue
    requires q.Depth() > 0
  {
    var q' := q.(queued := q.queued - {Victim(q)});
    if q.media != [] then q'.(media := Init(q.media))
    else if q.data != [] then q'.(data := Init(q.data))
    else q'.(exec := Init(q.exec))
  }

  /** A push that meets the cap with a path not yet known: the branch on which the two forms differ. */
  predicate Overflows(q: Queue, path: Path) {
    path !in q.queued && q.Depth() >= MEM_QUEUE_CAP
  }

  /** One critical section of `push_scan`. */
  function PushLocked(form: Form, q: Queue, path: Path, lane: Lane): Pushed {
    if path in q.queued then Ignored
    else
      var q1 := q.(queued := q.queued + {path});
      if Overflows(q, path) then
        var q2 := DropVictim(q1);
        Evicting(if form == AsMeant then q2.(queued := q2.queued - {path}) else q2, Victim(q1))
      else Stored(Store(q1, path, lane))
  }

  /** The whole call when no other thread interferes: the victim goes to the spill buffer, then the call repeats. */
  function PushWhole(form: Form, q: Queue, spill: seq<Path>, path: Path, lane: Lane): (Queue, seq<Path>)
    decreases q.Depth()
  {
    match PushLocked(form, q, path, lane)
    case Ignored => (q, spill)
    case Stored(q') => (q', spill)
    case Evicting(q', victim) => PushWhole(form, q', spill + [victim], path, lane)
  }

  /** Gate, exec, data, media, backlog: the first non-empty one gives its oldest entry. */
  function PopLocked(q: Queue): Option<(Task, Queue)> {
    if q.gate != [] then Some((q.gate[0], q.(gate := q.gate[1..])))
    else if q.exec != [] then
      Some((Scan(q.exec[0]), q.(exec := q.exec[1..], queued := q.queued - {q.exec[0]})))
    else if q.data != [] then
      Some((Scan(q.data[0]), q.(data := q.data[1..], queued := q.queued - {q.data[0]})))
    else if q.media != [] then
      Some((Scan(q.media[0]), q.(media := q.media[1..], queued := q.queued - {q.media[0]})))
    else if q.backlog != [] then
      Some((Scan(q.backlog[0]), q.(backlog := q.backlog[1..], queued := q.queued - {q.backlog[0]})))
    else None
  }

  function ReloadOne(q: Queue, path: Path): Queue {
    if path in q.queued then q
    else q.(queued := q.queued + {path}, backlog := [path] + q.backlog)
  }

  /** A batch from the table goes to the front of the backlog, last path first. */
  function Reload(q: Queue, batch: seq<Path>): Queue {
    if batch == [] then q else ReloadOne(Reload(q, batch[1..]), batch[0])
  }

  /** `pop` either sees the exit flag, gets a task, or would wait on the condition variable. */
  datatype PopOutcome = Exited | Got(task: Task) | WouldWait

  /** One call of `pop` by a worker no other thread interferes with, up to where it returns or would wait. */
  function PopWhole(q: Queue, rows: Table, exit: bool): (PopOutcome, Queue, Table)
    decreases |rows|
  {
    if exit then (Exited, q, rows)
    else
      match PopLocked(q)
      case Some((task, q')) => (Got(task), q', rows)
      case None =>
        var batch := Taken(rows, DB_BATCH);
        if batch == [] then (WouldWait, q, rows)
        else PopWhole(Reload(q, batch), Left(rows, DB_BATCH), exit)
  }

  function Scans(paths: seq<Path>): (ts: seq<Task>)
    ensures |ts| == |paths|
    ensures forall i :: 0 <= i < |paths| ==> ts[i] == Scan(paths[i])
  {
    seq(|paths|, i requires 0 <= i < |paths| => Scan(paths[i]))
  }

  function GatePaths(gate: seq<Task>): (ps: seq<Path>)
    ensures |ps| == |gate|
    ensures forall i :: 0 <= i < |gate| ==> ps[i] == gate[i].path
  {
    seq(|gate|, i requires 0 <= i < |gate| => gate[i].path)
  }

  function DrainPaths(q: Queue): seq<Path> {
    GatePaths(q.gate) + (q.exec + (q.data + (q.media + q.backlog)))
  }

  // ------------------------------------------------------------------
  // What the critical sections keep, for both forms of the push

  lemma StoreKeeps(q: Queue, path: Path, lane: Lane)
    requires ValidQueue(q) && path !in q.queued && q.Depth() < MEM_QUEUE_CAP
    ensures ValidQueue(Store(q.(queued := q.queued + {path}), path, lane))
    ensures forall p :: Store(q.(queued := q.queued + {path}), path, lane).InLane(p) <==> q.InLane(p) || p == path
  {
    DistinctAppend(match lane case Exec => q.exec case Media => q.media case _ => q.data, path);
  }

  lemma DropVictimKeeps(q: Queue)
    requires ValidQueue(q) && q.Depth() > 0
    ensures ValidQueue(DropVictim(q)) && DropVictim(q).Depth() == q.Depth() - 1
    ensures q.InLane(Victim(q))
    ensures forall p :: DropVictim(q).InLane(p) <==> q.InLane(p) && p != Victim(q)
  {
    DistinctInit(if q.media != [] then q.media else if q.data != [] then q.data else q.exec);
  }

  /** What a push does to the lanes, whichever form: it adds the new path below the cap,
      gives up one victim at the cap, and never breaks the shape. */
  lemma PushKeeps(form: Form, q: Queue, path: Path, lane: Lane)
    requires ValidQueue(q)
    ensures var r := PushLocked(form, q, path, lane);
            match r
            case Ignored => path in q.queued
            case Stored(q') =>
              && ValidQueue(q') && !Overflows(q, path)
              && forall p :: q'.InLane(p) <==> q.InLane(p) || p == path
            case Evicting(q', victim) =>
              && ValidQueue(q') && Overflows(q, path) && q.InLane(victim) && victim != path
              && q'.Depth() == MEM_QUEUE_CAP - 1
              && forall p :: q'.InLane(p) <==> q.InLane(p) && p != victim
  {
    if path !in q.queued {
      if Overflows(q, path) {
        DropVictimKeeps(q.(queued := q.queued + {path}));
      } else {
        StoreKeeps(q, path, lane);
      }
    }
  }

  /** Exactness survives every push of the intended form; as written it survives a push
      if and only if that push does not meet the cap with a new path. */
  lemma PushExactIff(form: Form, q: Queue, path: Path, lane: Lane)
    requires ValidQueue(q) && Exact(q) && !PushLocked(form, q, path, lane).Ignored?
    ensures Exact(PushLocked(form, q, path, lane).queue) <==> form == AsMeant || !Overflows(q, path)
    ensures form == AsWritten && Overflows(q, path) ==> Phantom(PushLocked(form, q, path, lane).queue, path)
  {
    PushKeeps(form, q, path, lane);
  }

  lemma PopKeeps(q: Queue)
    requires ValidQueue(q)
    ensures PopLocked(q).None? <==> q.gate == [] && q.exec == q.data == q.media == q.backlog == []
    ensures PopLocked(q).Some? ==>
              var (task, q') := PopLocked(q).value;
              && ValidQueue(q') && (Exact(q) ==> Exact(q'))
              && (task.GateDetection? <==> q.gate != [])
              && (task.GateDetection? ==> task == q.gate[0] && q' == q.(gate := q.gate[1..]))
              && (task.Scan? ==>
                    && q.InLane(task.path) && !q'.InLane(task.path) && q'.queued == q.queued - {task.path}
                    && q'.gate == q.gate
                    && forall p :: q'.InLane(p) <==> q.InLane(p) && p != task.path)
  {
    if q.gate == [] {
      if q.exec != [] { DistinctTail(q.exec); }
      else if q.data != [] { DistinctTail(q.data); }
      else if q.media != [] { DistinctTail(q.media); }
      else if q.backlog != [] { DistinctTail(q.backlog); }
    }
  }

  /** Reloading a batch queues every path of it that the dedup set does not already name, and no other. */
  lemma {:induction false} ReloadKeeps(q: Queue, batch: seq<Path>)
    requires ValidQueue(q)
    ensures var q' := Reload(q, batch);
            && ValidQueue(q') && (Exact(q) ==> Exact(q'))
            && q' == q.(queued := q'.queued, backlog := q'.backlog)
            && (forall p :: p in q'.queued <==> p in q.queued || p in batch)
            && (forall p :: q'.InLane(p) <==> q.InLane(p) || (p in batch && p !in q.queued))
  {
    if batch != [] {
      ReloadKeeps(q, batch[1..]);
      var q1 := Reload(q, batch[1..]);
      assert batch == [batch[0]] + batch[1..];
      if batch[0] !in q1.queued {
        DistinctPrepend(q1.backlog, batch[0]);
      }
    }
  }

  lemma Regroup(a: seq<Path>, b: seq<Path>, c: seq<Path>, d: seq<Path>, e: seq<Path>)
    ensures a + b + c + d + e == a + (b + (c + (d + e)))
  {
  }

  lemma DrainTakesAll(q: Queue, p: Path)
    ensures p in DrainPaths(q) <==> q.InLane(p) || q.InGate(p)
  {
    if q.InGate(p) {
      var i :| 0 <= i < |q.gate| && q.gate[i].path == p;
      assert GatePaths(q.gate)[i] == p;
    }
  }

  // ------------------------------------------------------------------
  // The whole push, run without interference

  /** At the cap the code as written parts with a queued path and takes in nothing:
      the new path ends up in the dedup set and in no lane. As meant, the new path is queued. */
  lemma PushWholeEffect(form: Form, q: Queue, spill: seq<Path>, path: Path, lane: Lane)
    requires ValidQueue(q)
    ensures var (q', spill') := PushWhole(form, q, spill, path, lane);
            && ValidQueue(q') && path in q'.queued
            && (path in q.queued ==> q' == q && spill' == spill)
            && (path !in q.queued && !Overflows(q, path) ==>
                  q' == Store(q.(queued := q.queued + {path}), path, lane) && spill' == spill)
            && (Overflows(q, path) ==>
                  && spill' == spill + [Victim(q)]
                  && (form == AsMeant ==>
                        q' == Store(DropVictim(q).(queued := q.queued - {Victim(q)} + {path}), path, lane))
                  && (form == AsWritten ==>
                        && q' == DropVictim(q).(queued := q.queued - {Victim(q)} + {path})
                        && Phantom(q', path)))
  {
    PushKeeps(form, q, path, lane);
    if Overflows(q, path) {
      OverflowEffect(form, q, spill, path, lane);
    } else if path !in q.queued {
      StoreKeeps(q, path, lane);
    }
  }

  lemma OverflowEffect(form: Form, q: Queue, spill: seq<Path>, path: Path, lane: Lane)
    requires ValidQueue(q) && Overflows(q, path)
    ensures var (q', spill') := PushWhole(form, q, spill, path, lane);
            && ValidQueue(q') && path in q'.queued && spill' == spill + [Victim(q)]
            && (form == AsMeant ==>
                  q' == Store(DropVictim(q).(queued := q.queued - {Victim(q)} + {path}), path, lane))
            && (form == AsWritten ==>
                  q' == DropVictim(q).(queued := q.queued - {Victim(q)} + {path}) && Phantom(q', path))
  {
    var q1 := PushLocked(form, q, path, lane).queue;
    assert ValidQueue(q1) && q1.Depth() < MEM_QUEUE_CAP && !q1.InLane(path) by { PushKeeps(form, q, path, lane); }
    assert q1 == DropVictim(q).(queued := q1.queued);
    assert q.InLane(Victim(q)) by { DropVictimKeeps(q); }
    if form == AsMeant {
      assert q1.queued == q.queued - {Victim(q)};
      StoreKeeps(q1, path, lane);
      assert PushLocked(form, q1, path, lane).Stored?;
    } else {
      assert q1.queued == q.queued - {Victim(q)} + {path};
      assert PushLocked(form, q1, path, lane).Ignored?;
    }
  }

  /** The path is held by a lane after the call if and only if it was already, or the push did not overflow. */
  lemma PushLandsIff(q: Queue, spill: seq<Path>, path: Path, lane: Lane)
    requires ValidQueue(q) && Exact(q)
    ensures PushWhole(AsWritten, q, spill, path, lane).0.InLane(path) <==> !Overflows(q, path)
    ensures PushWhole(AsMeant, q, spill, path, lane).0.InLane(path)
  {
    PushWholeEffect(AsWritten, q, spill, path, lane);
    PushWholeEffect(AsMeant, q, spill, path, lane);
    if Overflows(q, path) {
      DropVictimKeeps(q);
    }
  }

  // ------------------------------------------------------------------
  // The object itself

  class ScanQueue {
    var gate: seq<Task>
    var exec: seq<Path>
    var data: seq<Path>
    var media: seq<Path>
    var backlog: seq<Path>
    var queued: set<Path>
    var spillBuf: seq<Path>
    const db: Db

    ghost function View(): Queue
      reads this
    {
      Queue(gate, exec, data, media, backlog, queued)
    }

    ghost predicate Valid()
      reads this
    {
      ValidQueue(View())
    }

    constructor (db: Db)
      ensures Valid() && View() == EmptyQueue && spillBuf == [] && this.db == db
    {
      gate, exec, data, media, backlog, queued, spillBuf := [], [], [], [], [], {}, [];
      this.db := db;
    }

    method Depth() returns (n: nat)
      requires Valid()
      ensures n == View().Depth() <= MEM_QUEUE_CAP
    {
      n := |exec| + |data| + |media|;
    }

    /** The code as written. */
    method PushScan(path: Path, lane: Lane)
      requires Valid()
      modifies this
      ensures Valid()
      ensures (View(), spillBuf) == PushWhole(AsWritten, old(View()), old(spillBuf), path, lane)
      ensures gate == old(gate) && backlog == old(backlog)
      decreases |exec| + |data| + |media|
    {
      hide ValidQueue;
      PushKeeps(AsWritten, View(), path, lane);
      if path in queued {
        return;
      }
      ghost var q := View();
      queued := queued + {path};
      var total := |exec| + |data| + |media|;
      if total >= MEM_QUEUE_CAP {
        var victim: Path;
        if media != [] {
          victim, media := media[|media| - 1], media[..|media| - 1];
        } else if data != [] {
          victim, data := data[|data| - 1], data[..|data| - 1];
        } else {
          victim, exec := exec[|exec| - 1], exec[..|exec| - 1];
        }
        queued := queued - {victim};
        assert PushLocked(AsWritten, q, path, lane) == Evicting(View(), victim);
        spillBuf := spillBuf + [victim];
        PushScan(path, lane);
        return;
      }
      match lane {
        case Exec => exec := exec + [path];
        case Data => data := data + [path];
        case Churn => data := data + [path];
        case Media => media := media + [path];
      }
      assert PushLocked(AsWritten, q, path, lane) == Stored(View());
    }

    method TakeSpillBuf() returns (paths: seq<Path>)
      modifies this`spillBuf
      ensures paths == old(spillBuf) && spillBuf == []
    {
      paths := spillBuf;
      spillBuf := [];
    }

    method PushGateDetection(path: Path, signature: string)
      requires Valid()
      modifies this`gate
      ensures Valid() && gate == old(gate) + [GateDetection(path, signature)]
    {
      gate := gate + [GateDetection(path, signature)];
    }

    method Persist(paths: seq<Path>, now: int)
      modifies db`pending
      ensures db.pending == Spilled(old(db.pending), paths, now)
    {
      if paths == [] {
        return;
      }
      db.SpillPending(paths, now);
    }

    /** The part of `pop` that looks at the lanes. */
    method PopLanes() returns (r: Option<Task>)
      requires Valid()
      modifies this`gate, this`exec, this`data, this`media, this`backlog, this`queued
      ensures Valid()
      ensures match PopLocked(old(View()))
              case None => r == None && View() == old(View())
              case Some((task, q')) => r == Some(task) && View() == q'
    {
      PopKeeps(View());
      if gate != [] {
        r := Some(gate[0]);
        gate := gate[1..];
        return;
      }
      var scan: Option<Path> := None;
      if exec != [] {
        scan, exec := Some(exec[0]), exec[1..];
      } else if data != [] {
        scan, data := Some(data[0]), data[1..];
      } else if media != [] {
        scan, media := Some(media[0]), media[1..];
      } else if backlog != [] {
        scan, backlog := Some(backlog[0]), backlog[1..];
      }
      if scan.Some? {
        queued := queued - {scan.value};
        return Some(Scan(scan.value));
      }
      return None;
    }

    /** The part of `pop` that takes a batch from the table into the backlog. */
    method ReloadBacklog(batch: seq<Path>)
      requires Valid()
      modifies this`backlog, this`queued
      ensures Valid() && View() == Reload(old(View()), batch)
    {
      var i := |batch|;
      while i > 0
        invariant 0 <= i <= |batch|
        invariant View() == Reload(old(View()), batch[i..])
      {
        i := i - 1;
        assert batch[i..][1..] == batch[i + 1..];
        if batch[i] !in queued {
          queued := queued + {batch[i]};
          backlog := [batch[i]] + backlog;
        }
      }
      assert batch[0..] == batch;
      ReloadKeeps(old(View()), batch);
    }

    /** One call of `pop`; where the code waits on the condition variable the model stops with `WouldWait`. */
    method Pop(exit: bool) returns (r: PopOutcome)
      requires Valid()
      modifies this, db`pending
      ensures Valid() && spillBuf == old(spillBuf)
      ensures (r, View(), db.pending) == PopWhole(old(View()), old(db.pending), exit)
      // With the exit flag set nothing is handed out and nothing is touched.
      ensures exit <==> r == Exited
      ensures exit ==> View() == old(View()) && db.pending == old(db.pending)
    {
      while true
        invariant Valid() && spillBuf == old(spillBuf)
        invariant PopWhole(View(), db.pending, exit) == PopWhole(old(View()), old(db.pending), exit)
        decreases |db.pending|
      {
        if exit {
          return Exited;
        }
        var task := PopLanes();
        if task.Some? {
          return Got(task.value);
        }
        ghost var rows := db.pending;
        var batch := db.TakePending(DB_BATCH);
        assert batch != [] ==> |db.pending| < |rows|;
        if batch == [] {
          return WouldWait;
        }
        ReloadBacklog(batch);
      }
    }

    /** Everything still queued, in draining order; the queue is left empty. */
    method Drain() returns (paths: seq<Path>)
      requires Valid()
      modifies this
      ensures Valid() && View() == EmptyQueue && spillBuf == old(spillBuf)
      ensures paths == DrainPaths(old(View()))
    {
      paths := GatePaths(gate);
      paths := paths + exec;
      paths := paths + data;
      paths := paths + media;
      paths := paths + backlog;
      Regroup(GatePaths(gate), exec, data, media, backlog);
      gate, exec, data, media, backlog, queued := [], [], [], [], [], {};
    }
  }
}
