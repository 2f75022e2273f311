/** The five deques behave like one list of (class, arrival) entries, for every sequence of critical sections. */
module QueueOrder {
  import opened Base
  import opened Pending
  import opened ScanQueues

  /** Classes in draining order: 0 gate, 1 exec, 2 data and churn, 3 media, 4 backlog. */
  datatype Entry = Entry(cls: nat, task: Task)

  /** One list in arrival order (reloaded backlog counts as arriving first), and the paths
      the dedup set names although no entry carries them. */
  datatype Ledger = Ledger(list: seq<Entry>, phantoms: set<Path>)

  datatype Op =
    | PushOp(path: Path, lane: Lane)
    | GateOp(path: Path, signature: string)
    | PopOp
    | ReloadOp(batch: seq<Path>)
    | DrainOp

  datatype Out = Nothing | Popped(task: Task) | GaveUp(victim: Path) | Drained(paths: seq<Path>)

  function ClassOf(lane: Lane): nat {
    match lane
    case Exec => 1
    case Data => 2
    case Churn => 2
    case Media => 3
  }

  ghost predicate Listed(list: seq<Entry>, p: Path) {
    exists i :: 0 <= i < |list| && list[i].cls > 0 && list[i].task == Scan(p)
  }

  predicate Live(e: Entry) {
    1 <= e.cls <= 3
  }

  function LiveCount(list: seq<Entry>): nat {
    if list == [] then 0 else (if Live(list[0]) then 1 else 0) + LiveCount(list[1..])
  }

  /** Entry i is the earliest of the best class present. */
  ghost predicate IsBest(list: seq<Entry>, i: int) {
    && 0 <= i < |list|
    && forall j :: 0 <= j < |list| ==> list[i].cls < list[j].cls || (list[i].cls == list[j].cls && i <= j)
  }

  /** Entry i is the newest of the worst live class present. */
  ghost predicate IsWorst(list: seq<Entry>, i: int) {
    && 0 <= i < |list| && Live(list[i])
    && forall j :: 0 <= j < |list| && Live(list[j]) ==>
                     list[j].cls < list[i].cls || (list[j].cls == list[i].cls && j <= i)
  }

  function RemoveAt(list: seq<Entry>, i: nat): seq<Entry>
    requires i < |list|
  {
    list[..i] + list[i + 1..]
  }

  /** The paths of a batch that are not known yet, as backlog entries in batch order. */
  ghost function FreshEntries(a: Ledger, batch: seq<Path>): seq<Entry> {
    if batch == [] then []
    else
      var rest := FreshEntries(a, batch[1..]);
      if Listed(rest + a.list, batch[0]) || batch[0] in a.phantoms then rest
      else [Entry(4, Scan(batch[0]))] + rest
  }

  /** The list machine. */
  ghost predicate ListStep(form: Form, a: Ledger, op: Op, out: Out, a': Ledger) {
    match op
    case PushOp(path, lane) =>
      if Listed(a.list, path) || path in a.phantoms then out == Nothing && a' == a
      else if LiveCount(a.list) < MEM_QUEUE_CAP then
        out == Nothing && a' == a.(list := a.list + [Entry(ClassOf(lane), Scan(path))])
      else
        exists i :: IsWorst(a.list, i) && a.list[i].task.Scan? && out == GaveUp(a.list[i].task.path)
                    && a' == Ledger(RemoveAt(a.list, i), if form == AsMeant then a.phantoms else a.phantoms + {path})
    case GateOp(path, signature) =>
      out == Nothing && a' == a.(list := a.list + [Entry(0, GateDetection(path, signature))])
    case PopOp =>
      if a.list == [] then out == Nothing && a' == a
      else exists i :: IsBest(a.list, i) && out == Popped(a.list[i].task)
                       && a' == a.(list := RemoveAt(a.list, i))
    case ReloadOp(batch) =>
      out == Nothing && a' == a.(list := FreshEntries(a, batch) + a.list)
    case DrainOp =>
      out.Drained? && DrainsTo(a.list, out.paths) && a' == Ledger([], {})
  }

  /** The paths in the order repeated pops would deliver them. */
  ghost predicate DrainsTo(list: seq<Entry>, paths: seq<Path>)
    decreases |paths|
  {
    if paths == [] then list == []
    else exists i :: IsBest(list, i) && list[i].task.path == paths[0] && DrainsTo(RemoveAt(list, i), paths[1..])
  }

  /** The deques. */
  function Perform(form: Form, q: Queue, op: Op): (Queue, Out) {
    match op
    case PushOp(path, lane) =>
      (match PushLocked(form, q, path, lane)
       case Ignored => (q, Nothing)
       case Stored(q') => (q', Nothing)
       case Evicting(q', victim) => (q', GaveUp(victim)))
    case GateOp(path, signature) => (q.(gate := q.gate + [GateDetection(path, signature)]), Nothing)
    case PopOp =>
      (match PopLocked(q)
       case None => (q, Nothing)
       case Some((task, q')) => (q', Popped(task)))
    case ReloadOp(batch) => (Reload(q, batch), Nothing)
    case DrainOp => (EmptyQueue, Drained(DrainPaths(q)))
  }

  // ------------------------------------------------------------------
  // Projection of the list onto one class

  function Proj(list: seq<Entry>, c: nat): seq<Task> {
    if list == [] then []
    else (if list[0].cls == c then [list[0].task] else []) + Proj(list[1..], c)
  }

  ghost predicate SameLanes(list: seq<Entry>, q: Queue) {
    && Proj(list, 0) == q.gate
    && Proj(list, 1) == Scans(q.exec)
    && Proj(list, 2) == Scans(q.data)
    && Proj(list, 3) == Scans(q.media)
    && Proj(list, 4) == Scans(q.backlog)
    && (forall i :: 0 <= i < |list| ==> list[i].cls <= 4)
  }

  ghost predicate SameNames(phantoms: set<Path>, q: Queue) {
    && (forall p :: p in q.queued <==> q.InLane(p) || p in phantoms)
    && (forall p :: p in phantoms ==> !q.InLane(p))
  }

  ghost predicate Represents(a: Ledger, q: Queue) {
    ValidQueue(q) && SameLanes(a.list, q) && SameNames(a.phantoms, q)
  }

  lemma {:induction false} ProjConcat(l1: seq<Entry>, l2: seq<Entry>, c: nat)
    ensures Proj(l1 + l2, c) == Proj(l1, c) + Proj(l2, c)
  {
    if l1 == [] {
      assert l1 + l2 == l2;
    } else {
      assert (l1 + l2)[1..] == l1[1..] + l2;
      var here := if l1[0].cls == c then [l1[0].task] else [];
      calc {
        Proj(l1 + l2, c);
        here + Proj(l1[1..] + l2, c);
        { ProjConcat(l1[1..], l2, c); }
        here + (Proj(l1[1..], c) + Proj(l2, c));
        (here + Proj(l1[1..], c)) + Proj(l2, c);
        Proj(l1, c) + Proj(l2, c);
      }
    }
  }

  lemma ProjAppend(list: seq<Entry>, e: Entry, c: nat)
    ensures Proj(list + [e], c) == if e.cls == c then Proj(list, c) + [e.task] else Proj(list, c)
  {
    ProjConcat(list, [e], c);
    assert Proj([e], c) == if e.cls == c then [e.task] else [];
  }

  lemma {:induction false} ProjHas(list: seq<Entry>, c: nat, t: Task)
    ensures t in Proj(list, c) <==> exists i :: 0 <= i < |list| && list[i].cls == c && list[i].task == t
  {
    if list != [] {
      ProjHas(list[1..], c, t);
      assert list == [list[0]] + list[1..];
      if list[0].cls == c && list[0].task == t {
        assert t in Proj(list, c);
      }
      if t in Proj(list[1..], c) {
        var i :| 0 <= i < |list[1..]| && list[1..][i].cls == c && list[1..][i].task == t;
        assert list[i + 1].cls == c;
      }
      if i :| 0 <= i < |list| && list[i].cls == c && list[i].task == t {
        assert i == 0 || list[1..][i - 1] == list[i];
      }
    }
  }

  /** Splitting at an entry: its class loses it, the other classes are untouched. */
  lemma ProjRemove(list: seq<Entry>, i: nat, c: nat)
    requires i < |list|
    ensures Proj(list, c) ==
            Proj(list[..i], c) + (if list[i].cls == c then [list[i].task] else []) + Proj(list[i + 1..], c)
    ensures Proj(RemoveAt(list, i), c) == Proj(list[..i], c) + Proj(list[i + 1..], c)
  {
    assert list == list[..i] + list[i..];
    ProjConcat(list[..i], list[i..], c);
    assert list[i..][1..] == list[i + 1..];
    ProjConcat(list[..i], list[i + 1..], c);
  }

  ghost predicate Absent(list: seq<Entry>, c: nat) {
    forall j :: 0 <= j < |list| ==> list[j].cls != c
  }

  lemma {:induction false} ProjAbsent(list: seq<Entry>, c: nat)
    requires Absent(list, c)
    ensures Proj(list, c) == []
  {
    if list != [] {
      ProjAbsent(list[1..], c);
    }
  }

  lemma {:induction false} FirstOf(list: seq<Entry>, c: nat) returns (i: nat)
    requires Proj(list, c) != []
    ensures i < |list| && list[i].cls == c
    ensures forall j :: 0 <= j < i ==> list[j].cls != c
  {
    if list[0].cls == c {
      i := 0;
    } else {
      var k := FirstOf(list[1..], c);
      i := k + 1;
      assert forall j :: 0 < j < i ==> list[j] == list[1..][j - 1];
    }
  }

  lemma {:induction false} LastIndexOf(list: seq<Entry>, c: nat) returns (i: nat)
    requires Proj(list, c) != []
    ensures i < |list| && list[i].cls == c
    ensures forall j :: i < j < |list| ==> list[j].cls != c
  {
    var n := |list| - 1;
    if list[n].cls == c {
      i := n;
    } else {
      assert list == list[..n] + [list[n]];
      ProjAppend(list[..n], list[n], c);
      i := LastIndexOf(list[..n], c);
      assert forall j :: i < j < n ==> list[j] == list[..n][j];
    }
  }

  lemma {:induction false} LiveCountIsDepth(list: seq<Entry>)
    ensures LiveCount(list) == |Proj(list, 1)| + |Proj(list, 2)| + |Proj(list, 3)|
  {
    if list != [] {
      LiveCountIsDepth(list[1..]);
    }
  }

  lemma ScansHas(paths: seq<Path>, p: Path)
    ensures Scan(p) in Scans(paths) <==> p in paths
  {
    if p in paths {
      var i :| 0 <= i < |paths| && paths[i] == p;
      assert Scans(paths)[i] == Scan(p);
    }
  }

  lemma ListedIsInLane(a: Ledger, q: Queue, p: Path)
    requires Represents(a, q)
    ensures Listed(a.list, p) <==> q.InLane(p)
  {
    ScansHas(q.exec, p);
    ScansHas(q.data, p);
    ScansHas(q.media, p);
    ScansHas(q.backlog, p);
    ProjHas(a.list, 1, Scan(p));
    ProjHas(a.list, 2, Scan(p));
    ProjHas(a.list, 3, Scan(p));
    ProjHas(a.list, 4, Scan(p));
  }

  // ------------------------------------------------------------------
  // Each critical section is one step of the list machine

  ghost predicate Matches(form: Form, a: Ledger, q: Queue, op: Op, a': Ledger) {
    var (q', out) := Perform(form, q, op);
    ListStep(form, a, op, out, a') && Represents(a', q')
  }

  lemma AppendScan(list: seq<Entry>, c: nat, s: seq<Path>, path: Path)
    requires Proj(list, c) == Scans(s)
    ensures Proj(list + [Entry(c, Scan(path))], c) == Scans(s + [path])
    ensures forall d: nat :: d != c ==> Proj(list + [Entry(c, Scan(path))], d) == Proj(list, d)
  {
    forall d: nat
      ensures Proj(list + [Entry(c, Scan(path))], d) == if c == d then Proj(list, d) + [Scan(path)] else Proj(list, d)
    {
      ProjAppend(list, Entry(c, Scan(path)), d);
    }
    assert Scans(s + [path]) == Scans(s) + [Scan(path)];
  }

  lemma StoreMatches(form: Form, a: Ledger, q: Queue, path: Path, lane: Lane) returns (a': Ledger)
    requires Represents(a, q) && path !in q.queued && q.Depth() < MEM_QUEUE_CAP
    ensures Matches(form, a, q, PushOp(path, lane), a')
  {
    var c := ClassOf(lane);
    a' := a.(list := a.list + [Entry(c, Scan(path))]);
    ListedIsInLane(a, q, path);
    LiveCountIsDepth(a.list);
    AppendScan(a.list, c, if c == 1 then q.exec else if c == 2 then q.data else q.media, path);
    StoreKeeps(q, path, lane);
    StoreNames(a, q, path, lane);
  }

  lemma StoreNames(a: Ledger, q: Queue, path: Path, lane: Lane)
    requires Represents(a, q) && path !in q.queued && q.Depth() < MEM_QUEUE_CAP
    ensures SameNames(a.phantoms, Store(q.(queued := q.queued + {path}), path, lane))
  {
    StoreKeeps(q, path, lane);
  }

  /** Removing the last entry of class c. */
  lemma RemoveLast(list: seq<Entry>, i: nat, c: nat, s: seq<Path>)
    requires i < |list| && list[i].cls == c && Proj(list, c) == Scans(s)
    requires forall j :: i < j < |list| ==> list[j].cls != c
    ensures s != [] && list[i].task == Scan(LastOf(s))
    ensures Proj(RemoveAt(list, i), c) == Scans(Init(s))
    ensures forall d: nat :: d != c ==> Proj(RemoveAt(list, i), d) == Proj(list, d)
  {
    forall d: nat
      ensures Proj(list, d) ==
              Proj(list[..i], d) + (if list[i].cls == d then [list[i].task] else []) + Proj(list[i + 1..], d)
      ensures Proj(RemoveAt(list, i), d) == Proj(list[..i], d) + Proj(list[i + 1..], d)
    {
      ProjRemove(list, i, d);
    }
    ProjAbsent(list[i + 1..], c);
    assert Proj(list, c) == Proj(list[..i], c) + [list[i].task];
    assert Scans(s)[|s| - 1] == list[i].task;
    assert Scans(Init(s)) == Scans(s)[..|s| - 1];
  }

  /** Removing the first entry of class c. */
  lemma RemoveFirst(list: seq<Entry>, i: nat, c: nat)
    requires i < |list| && list[i].cls == c
    requires forall j :: 0 <= j < i ==> list[j].cls != c
    ensures Proj(list, c) == [list[i].task] + Proj(RemoveAt(list, i), c)
    ensures forall d: nat :: d != c ==> Proj(RemoveAt(list, i), d) == Proj(list, d)
  {
    forall d: nat
      ensures Proj(list, d) ==
              Proj(list[..i], d) + (if list[i].cls == d then [list[i].task] else []) + Proj(list[i + 1..], d)
      ensures Proj(RemoveAt(list, i), d) == Proj(list[..i], d) + Proj(list[i + 1..], d)
    {
      ProjRemove(list, i, d);
    }
    ProjAbsent(list[..i], c);
  }

  lemma NoneOf(list: seq<Entry>, c: nat)
    requires Proj(list, c) == []
    ensures Absent(list, c)
  {
    forall j | 0 <= j < |list|
      ensures list[j].cls != c
    {
      ProjHas(list, c, list[j].task);
    }
  }

  /** The newest entry of class c, when the worse live classes are empty, is the one to give up. */
  lemma GiveUpNewest(list: seq<Entry>, c: nat, s: seq<Path>) returns (i: nat)
    requires 1 <= c <= 3 && s != [] && Proj(list, c) == Scans(s)
    requires forall d: nat :: c < d <= 3 ==> Proj(list, d) == []
    ensures IsWorst(list, i) && list[i].task == Scan(LastOf(s))
    ensures Proj(RemoveAt(list, i), c) == Scans(Init(s))
    ensures forall d: nat :: d != c ==> Proj(RemoveAt(list, i), d) == Proj(list, d)
  {
    assert |Scans(s)| > 0;
    i := LastIndexOf(list, c);
    RemoveLast(list, i, c, s);
    forall j | 0 <= j < |list| && Live(list[j])
      ensures list[j].cls < c || (list[j].cls == c && j <= i)
    {
      if list[j].cls > c {
        NoneOf(list, list[j].cls);
      }
    }
  }

  lemma EvictNames(form: Form, a: Ledger, q: Queue, path: Path, lane: Lane)
    requires ValidQueue(q) && SameNames(a.phantoms, q) && Overflows(q, path)
    ensures SameNames(if form == AsMeant then a.phantoms else a.phantoms + {path},
                      PushLocked(form, q, path, lane).queue)
  {
    var q' := PushLocked(form, q, path, lane).queue;
    var victim := Victim(q);
    DropVictimKeeps(q);
    assert q' == DropVictim(q).(queued := q'.queued);
    assert q'.queued == if form == AsMeant then q.queued - {victim} else q.queued - {victim} + {path};
  }

  lemma EvictLanes(list: seq<Entry>, q: Queue) returns (i: nat)
    requires SameLanes(list, q) && q.Depth() > 0
    ensures IsWorst(list, i) && list[i].task == Scan(Victim(q))
    ensures SameLanes(RemoveAt(list, i), DropVictim(q))
  {
    hide Proj, Scans;
    var q' := DropVictim(q);
    if q.media != [] {
      i := GiveUpNewest(list, 3, q.media);
      assert q' == q.(media := Init(q.media), queued := q'.queued);
    } else if q.data != [] {
      i := GiveUpNewest(list, 2, q.data);
      assert q' == q.(data := Init(q.data), queued := q'.queued);
    } else {
      i := GiveUpNewest(list, 1, q.exec);
      assert q' == q.(exec := Init(q.exec), queued := q'.queued);
    }
  }

  lemma EvictMatches(form: Form, a: Ledger, q: Queue, path: Path, lane: Lane) returns (a': Ledger)
    requires Represents(a, q) && Overflows(q, path)
    ensures Matches(form, a, q, PushOp(path, lane), a')
  {
    hide Proj, Scans, ValidQueue;
    var i := EvictLanes(a.list, q);
    var phantoms := if form == AsMeant then a.phantoms else a.phantoms + {path};
    a' := Ledger(RemoveAt(a.list, i), phantoms);
    var q' := PushLocked(form, q, path, lane).queue;
    assert Perform(form, q, PushOp(path, lane)) == (q', GaveUp(Victim(q)));
    assert SameLanes(a'.list, q') by {
      assert q' == DropVictim(q).(queued := q'.queued);
    }
    assert ValidQueue(q') by { PushKeeps(form, q, path, lane); }
    EvictNames(form, a, q, path, lane);
    assert ListStep(form, a, PushOp(path, lane), GaveUp(Victim(q)), a') by {
      ListedIsInLane(a, q, path);
      LiveCountIsDepth(a.list);
    }
  }

  /** The earliest entry of class c, when the better classes are empty, is the one to take. */
  lemma TakeEarliest(list: seq<Entry>, c: nat) returns (i: nat)
    requires Proj(list, c) != []
    requires forall d: nat :: d < c ==> Proj(list, d) == []
    ensures IsBest(list, i) && list[i].task == Proj(list, c)[0]
    ensures Proj(RemoveAt(list, i), c) == Proj(list, c)[1..]
    ensures forall d: nat :: d != c ==> Proj(RemoveAt(list, i), d) == Proj(list, d)
  {
    i := FirstOf(list, c);
    RemoveFirst(list, i, c);
    forall j | 0 <= j < |list|
      ensures c < list[j].cls || (c == list[j].cls && i <= j)
    {
      if list[j].cls < c {
        NoneOf(list, list[j].cls);
      }
    }
  }

  lemma EmptyList(list: seq<Entry>, q: Queue)
    requires SameLanes(list, q) && q.gate == [] && q.exec == q.data == q.media == q.backlog == []
    ensures list == []
  {
    if list != [] {
      NoneOf(list, list[0].cls);
    }
  }

  lemma PopNames(a: Ledger, q: Queue)
    requires Represents(a, q) && PopLocked(q).Some?
    ensures SameNames(a.phantoms, PopLocked(q).value.1) && ValidQueue(PopLocked(q).value.1)
  {
    PopKeeps(q);
  }

  lemma TakeScan(list: seq<Entry>, c: nat, s: seq<Path>, q: Queue) returns (i: nat)
    requires SameLanes(list, q) && Proj(list, c) == Scans(s) && s != []
    requires forall d: nat :: d < c ==> Proj(list, d) == []
    ensures IsBest(list, i) && list[i].task == Scan(s[0])
    ensures Proj(RemoveAt(list, i), c) == Scans(s[1..])
    ensures c != 0 ==> Proj(RemoveAt(list, i), 0) == q.gate
    ensures c != 1 ==> Proj(RemoveAt(list, i), 1) == Scans(q.exec)
    ensures c != 2 ==> Proj(RemoveAt(list, i), 2) == Scans(q.data)
    ensures c != 3 ==> Proj(RemoveAt(list, i), 3) == Scans(q.media)
    ensures c != 4 ==> Proj(RemoveAt(list, i), 4) == Scans(q.backlog)
  {
    assert |Scans(s)| > 0;
    i := TakeEarliest(list, c);
    assert Scans(s)[1..] == Scans(s[1..]);
  }

  lemma PopLanes(list: seq<Entry>, q: Queue) returns (i: nat)
    requires SameLanes(list, q) && PopLocked(q).Some?
    ensures IsBest(list, i) && list[i].task == PopLocked(q).value.0
    ensures SameLanes(RemoveAt(list, i), PopLocked(q).value.1)
  {
    hide Proj, Scans;
    if q.gate != [] {
      i := TakeEarliest(list, 0);
    } else if q.exec != [] {
      i := TakeScan(list, 1, q.exec, q);
    } else if q.data != [] {
      i := TakeScan(list, 2, q.data, q);
    } else if q.media != [] {
      i := TakeScan(list, 3, q.media, q);
    } else {
      i := TakeScan(list, 4, q.backlog, q);
    }
  }

  lemma PopMatches(form: Form, a: Ledger, q: Queue) returns (a': Ledger)
    requires Represents(a, q)
    ensures Matches(form, a, q, PopOp, a')
  {
    if PopLocked(q) == None {
      EmptyList(a.list, q);
      a' := a;
    } else {
      var i := PopLanes(a.list, q);
      PopNames(a, q);
      a' := a.(list := RemoveAt(a.list, i));
    }
  }

  lemma PrependBacklog(list: seq<Entry>, q: Queue, path: Path)
    requires SameLanes(list, q)
    ensures SameLanes([Entry(4, Scan(path))] + list, q.(queued := q.queued + {path}, backlog := [path] + q.backlog))
  {
    var l := [Entry(4, Scan(path))] + list;
    assert l[1..] == list;
    assert Scans([path] + q.backlog) == [Scan(path)] + Scans(q.backlog);
    assert Proj(l, 0) == Proj(list, 0);
    assert Proj(l, 1) == Proj(list, 1);
    assert Proj(l, 2) == Proj(list, 2);
    assert Proj(l, 3) == Proj(list, 3);
    assert Proj(l, 4) == [Scan(path)] + Proj(list, 4);
  }

  lemma {:induction false} ReloadMatches(form: Form, a: Ledger, q: Queue, batch: seq<Path>) returns (a': Ledger)
    requires Represents(a, q)
    ensures a' == a.(list := FreshEntries(a, batch) + a.list)
    ensures Represents(a', Reload(q, batch))
  {
    if batch == [] {
      assert FreshEntries(a, batch) + a.list == a.list;
      a' := a;
    } else {
      var b := ReloadMatches(form, a, q, batch[1..]);
      var q1 := Reload(q, batch[1..]);
      ReloadKeeps(q1, [batch[0]]);
      assert Reload(q1, [batch[0]]) == ReloadOne(q1, batch[0]);
      ListedIsInLane(b, q1, batch[0]);
      a' := a.(list := FreshEntries(a, batch) + a.list);
      if batch[0] !in q1.queued {
        PrependBacklog(b.list, q1, batch[0]);
        assert a'.list == [Entry(4, Scan(batch[0]))] + b.list;
      }
    }
  }

  lemma GateMatches(form: Form, a: Ledger, q: Queue, path: Path, signature: string) returns (a': Ledger)
    requires Represents(a, q)
    ensures Matches(form, a, q, GateOp(path, signature), a')
  {
    var e := Entry(0, GateDetection(path, signature));
    a' := a.(list := a.list + [e]);
    forall c: nat
      ensures Proj(a'.list, c) == if c == 0 then Proj(a.list, c) + [e.task] else Proj(a.list, c)
    {
      ProjAppend(a.list, e, c);
    }
  }

  lemma DrainIsPop(q: Queue)
    ensures match PopLocked(q)
            case None => DrainPaths(q) == []
            case Some((task, q')) => DrainPaths(q) == [task.path] + DrainPaths(q')
  {
    var live := q.exec + (q.data + (q.media + q.backlog));
    if q.gate != [] {
      assert GatePaths(q.gate) == [q.gate[0].path] + GatePaths(q.gate[1..]);
      Regrouped(q.gate[0].path, GatePaths(q.gate[1..]), live);
    } else {
      assert GatePaths(q.gate) + live == live;
      DrainLiveIsPop(q);
    }
  }

  lemma Regrouped(x: Path, a: seq<Path>, b: seq<Path>)
    ensures ([x] + a) + b == [x] + (a + b)
  {
  }

  lemma DrainLiveIsPop(q: Queue)
    requires q.gate == []
    ensures match PopLocked(q)
            case None => q.exec + (q.data + (q.media + q.backlog)) == []
            case Some((task, q')) =>
              q.exec + (q.data + (q.media + q.backlog)) == [task.path] + (q'.exec + (q'.data + (q'.media + q'.backlog)))
  {
    if q.exec != [] {
      assert q.exec == [q.exec[0]] + q.exec[1..];
    } else if q.data != [] {
      assert q.data == [q.data[0]] + q.data[1..];
    } else if q.media != [] {
      assert q.media == [q.media[0]] + q.media[1..];
    } else if q.backlog != [] {
      assert q.backlog == [q.backlog[0]] + q.backlog[1..];
    }
  }

  lemma {:induction false} DrainMatches(a: Ledger, q: Queue)
    requires Represents(a, q)
    ensures DrainsTo(a.list, DrainPaths(q))
    decreases |DrainPaths(q)|
  {
    DrainIsPop(q);
    match PopLocked(q)
    case None => EmptyList(a.list, q);
    case Some((task, q')) =>
      var i := PopLanes(a.list, q);
      PopNames(a, q);
      DrainMatches(a.(list := RemoveAt(a.list, i)), q');
      assert DrainPaths(q)[1..] == DrainPaths(q');
  }

  lemma StepMatches(form: Form, a: Ledger, q: Queue, op: Op) returns (a': Ledger)
    requires Represents(a, q)
    ensures Matches(form, a, q, op, a')
  {
    match op
    case PushOp(path, lane) =>
      if path in q.queued {
        ListedIsInLane(a, q, path);
        a' := a;
      } else if Overflows(q, path) {
        a' := EvictMatches(form, a, q, path, lane);
      } else {
        a' := StoreMatches(form, a, q, path, lane);
      }
    case GateOp(path, signature) => a' := GateMatches(form, a, q, path, signature);
    case PopOp => a' := PopMatches(form, a, q);
    case ReloadOp(batch) => a' := ReloadMatches(form, a, q, batch);
    case DrainOp =>
      DrainMatches(a, q);
      a' := Ledger([], {});
  }

  // ------------------------------------------------------------------
  // Whole runs

  function Outputs(form: Form, q: Queue, ops: seq<Op>): seq<Out>
    decreases |ops|
  {
    if ops == [] then []
    else
      var (q', out) := Perform(form, q, ops[0]);
      [out] + Outputs(form, q', ops[1..])
  }

  ghost predicate ListRun(form: Form, a: Ledger, ops: seq<Op>, outs: seq<Out>)
    decreases |ops|
  {
    && |outs| == |ops|
    && (ops == [] || exists a' :: ListStep(form, a, ops[0], outs[0], a') && ListRun(form, a', ops[1..], outs[1..]))
  }

  /** Every run of the deques, of either form, gives outputs the single list gives. */
  lemma {:induction false} QueueRefinesList(form: Form, a: Ledger, q: Queue, ops: seq<Op>)
    requires Represents(a, q)
    ensures ListRun(form, a, ops, Outputs(form, q, ops))
    decreases |ops|
  {
    if ops != [] {
      var a' := StepMatches(form, a, q, ops[0]);
      var (q', out) := Perform(form, q, ops[0]);
      QueueRefinesList(form, a', q', ops[1..]);
      assert Outputs(form, q, ops)[1..] == Outputs(form, q', ops[1..]);
    }
  }

  /** The list machine leaves no choice: what is popped or given up, and what is left, is determined. */
  lemma ListStepDetermined(form: Form, a: Ledger, op: Op, o1: Out, a1: Ledger, o2: Out, a2: Ledger)
    requires ListStep(form, a, op, o1, a1) && ListStep(form, a, op, o2, a2)
    ensures o1 == o2 && a1 == a2
  {
    match op
    case DrainOp => DrainDetermined(a.list, o1.paths, o2.paths);
    case _ =>
      forall i, j
        ensures IsBest(a.list, i) && IsBest(a.list, j) ==> i == j
        ensures IsWorst(a.list, i) && IsWorst(a.list, j) ==> i == j
      {
        OnlyOne(a.list, i, j);
      }
  }

  lemma OnlyOne(list: seq<Entry>, i: int, j: int)
    ensures IsBest(list, i) && IsBest(list, j) ==> i == j
    ensures IsWorst(list, i) && IsWorst(list, j) ==> i == j
  {
    if 0 <= i < |list| && 0 <= j < |list| && list[i].cls == list[j].cls {
    }
  }

  lemma {:induction false} DrainDetermined(list: seq<Entry>, ps: seq<Path>, qs: seq<Path>)
    requires DrainsTo(list, ps) && DrainsTo(list, qs)
    ensures ps == qs
    decreases |ps|
  {
    if ps != [] && qs != [] {
      var i :| IsBest(list, i) && list[i].task.path == ps[0] && DrainsTo(RemoveAt(list, i), ps[1..]);
      var j :| IsBest(list, j) && list[j].task.path == qs[0] && DrainsTo(RemoveAt(list, j), qs[1..]);
      OnlyOne(list, i, j);
      DrainDetermined(RemoveAt(list, i), ps[1..], qs[1..]);
      assert ps == [ps[0]] + ps[1..] && qs == [qs[0]] + qs[1..];
    }
  }

  const EmptyLedger := Ledger([], {})

  /** From the fresh queue on, the deques answer every sequence of calls as the empty list does,
      and the list has no other answers to give. */
  lemma FreshQueueRefinesList(form: Form, ops: seq<Op>, outs: seq<Out>)
    ensures ListRun(form, EmptyLedger, ops, outs) <==> outs == Outputs(form, EmptyQueue, ops)
  {
    assert Represents(EmptyLedger, EmptyQueue);
    QueueRefinesList(form, EmptyLedger, EmptyQueue, ops);
    if ListRun(form, EmptyLedger, ops, outs) {
      ListRunDetermined(form, EmptyLedger, ops, outs, Outputs(form, EmptyQueue, ops));
    }
  }

  lemma {:induction false} ListRunDetermined(form: Form, a: Ledger, ops: seq<Op>, o1: seq<Out>, o2: seq<Out>)
    requires ListRun(form, a, ops, o1) && ListRun(form, a, ops, o2)
    ensures o1 == o2
    decreases |ops|
  {
    if ops != [] {
      var a1 :| ListStep(form, a, ops[0], o1[0], a1) && ListRun(form, a1, ops[1..], o1[1..]);
      var a2 :| ListStep(form, a, ops[0], o2[0], a2) && ListRun(form, a2, ops[1..], o2[1..]);
      ListStepDetermined(form, a, ops[0], o1[0], a1, o2[0], a2);
      ListRunDetermined(form, a1, ops[1..], o1[1..], o2[1..]);
      assert o1 == [o1[0]] + o1[1..] && o2 == [o2[0]] + o2[1..];
    }
  }
}
