/** The catch-up sweep: after lost kernel events, every watched mount is walked into `pending_scans`. */
module Catchup {
  import opened Base
  import opened Pending
  import opened Database
  import opened Exclusions
  import opened Walker

  const SWEEP_FLUSH_BATCH: nat := 500

  predicate TakesFile(fs: Fs, rules: Rules, p: Path) {
    !IsExcluded(rules, p) && p in fs && fs[p].File?
  }

  /** A directory by its type; whether it can be listed shows later. */
  predicate TakesDir(fs: Fs, rules: Rules, p: Path) {
    !IsExcluded(rules, p) && p in fs && (fs[p].Dir? || fs[p].Unreadable?)
  }

  function FilesIn(fs: Fs, rules: Rules, dir: Path, names: seq<string>): seq<Path> {
    if names == [] then []
    else
      var child := dir + [names[|names| - 1]];
      FilesIn(fs, rules, dir, names[..|names| - 1]) + if TakesFile(fs, rules, child) then [child] else []
  }

  function DirsIn(fs: Fs, rules: Rules, dir: Path, names: seq<string>): seq<Path> {
    if names == [] then []
    else
      var child := dir + [names[|names| - 1]];
      DirsIn(fs, rules, dir, names[..|names| - 1]) + if TakesDir(fs, rules, child) then [child] else []
  }

  /** The recursive specification: a directory's own files, then its subdirectories, last first.
      The directory itself is not tested against the exclusions. */
  ghost function SweepDir(fs: Fs, rules: Rules, dir: Path): seq<Path>
    decreases Below(fs, dir), 1, 0
  {
    if dir in fs && fs[dir].Dir? then
      FilesIn(fs, rules, dir, fs[dir].names) + SweepNames(fs, rules, dir, fs[dir].names)
    else []
  }

  ghost function SweepNames(fs: Fs, rules: Rules, dir: Path, names: seq<string>): seq<Path>
    requires dir in fs
    decreases Below(fs, dir), 0, |names|
  {
    if names == [] then []
    else
      var child := dir + [names[|names| - 1]];
      ChildBelow(fs, dir, names[|names| - 1]);
      (if TakesDir(fs, rules, child) then SweepDir(fs, rules, child) else [])
      + SweepNames(fs, rules, dir, names[..|names| - 1])
  }

  ghost function SweepStack(fs: Fs, rules: Rules, stack: seq<Path>): seq<Path> {
    if stack == [] then []
    else SweepDir(fs, rules, stack[|stack| - 1]) + SweepStack(fs, rules, stack[..|stack| - 1])
  }

  ghost function SweepMounts(fs: Fs, rules: Rules, mounts: seq<Path>): seq<Path> {
    if mounts == [] then [] else SweepDir(fs, rules, mounts[0]) + SweepMounts(fs, rules, mounts[1..])
  }

  /** A file below the mount with no excluded node on its chain, the mount itself not counted. */
  ghost predicate Swept(fs: Fs, rules: Rules, mount: Path, p: Path) {
    && mount <= p && mount != p && p in fs && fs[p].File?
    && (forall k :: |mount| < k <= |p| ==> !IsExcluded(rules, p[..k]))
    && (forall k :: |mount| <= k < |p| ==> Lists(fs, p[..k], p[k]))
  }

  lemma SweptStep(fs: Fs, rules: Rules, mount: Path, p: Path)
    requires mount <= p && mount != p
    ensures var child := mount + [p[|mount|]];
            Swept(fs, rules, mount, p) <==>
              && Lists(fs, mount, p[|mount|]) && !IsExcluded(rules, child) && p in fs && fs[p].File?
              && (child == p || Swept(fs, rules, child, p))
  {
    var n := |mount|;
    var child := mount + [p[n]];
    assert p[..n] == mount && p[..n + 1] == child && child <= p && p[..|p|] == p;
  }

  lemma {:induction false} FilesInIff(fs: Fs, rules: Rules, dir: Path, names: seq<string>, p: Path)
    ensures p in FilesIn(fs, rules, dir, names) <==>
              |p| == |dir| + 1 && dir <= p && p[|dir|] in names && TakesFile(fs, rules, p)
  {
    if names != [] {
      var n := |names| - 1;
      FilesInIff(fs, rules, dir, names[..n], p);
      assert names == names[..n] + [names[n]];
      if |p| == |dir| + 1 && dir <= p {
        assert p == dir + [p[|dir|]];
      }
    }
  }

  /** The sweep of a directory collects exactly the files it is meant to. */
  lemma {:induction false} SweepDirIff(fs: Fs, rules: Rules, dir: Path, p: Path)
    ensures p in SweepDir(fs, rules, dir) <==> Swept(fs, rules, dir, p)
    decreases Below(fs, dir), 1, 0
  {
    if dir <= p && dir != p {
      SweptStep(fs, rules, dir, p);
    }
    if dir in fs && fs[dir].Dir? {
      FilesInIff(fs, rules, dir, fs[dir].names, p);
      SweepNamesIff(fs, rules, dir, fs[dir].names, p);
      if dir <= p && |p| == |dir| + 1 {
        assert p == dir + [p[|dir|]];
      }
    }
  }

  lemma {:induction false} SweepNamesIff(fs: Fs, rules: Rules, dir: Path, names: seq<string>, p: Path)
    requires dir in fs
    ensures p in SweepNames(fs, rules, dir, names) <==>
              && dir <= p && dir != p && p[|dir|] in names
              && !IsExcluded(rules, dir + [p[|dir|]]) && Swept(fs, rules, dir + [p[|dir|]], p)
    decreases Below(fs, dir), 0, |names|
  {
    if names != [] {
      var n := |names| - 1;
      var child := dir + [names[n]];
      ChildBelow(fs, dir, names[n]);
      SweepDirIff(fs, rules, child, p);
      SweepNamesIff(fs, rules, dir, names[..n], p);
      assert names == names[..n] + [names[n]];
      if Swept(fs, rules, child, p) {
        assert p[..|child|] == child;
        assert Lists(fs, p[..|child|], p[|child|]);
        assert dir <= child <= p && p[|dir|] == child[|dir|];
      }
    }
  }

  lemma {:induction false} SweepMountsIff(fs: Fs, rules: Rules, mounts: seq<Path>, p: Path)
    ensures p in SweepMounts(fs, rules, mounts) <==> exists i :: 0 <= i < |mounts| && Swept(fs, rules, mounts[i], p)
  {
    if mounts != [] {
      SweepDirIff(fs, rules, mounts[0], p);
      SweepMountsIff(fs, rules, mounts[1..], p);
      if i :| 0 <= i < |mounts| && Swept(fs, rules, mounts[i], p) {
        assert i == 0 || Swept(fs, rules, mounts[1..][i - 1], p);
      }
      if j :| 0 <= j < |mounts[1..]| && Swept(fs, rules, mounts[1..][j], p) {
        assert mounts[j + 1] == mounts[1..][j];
      }
    }
  }

  // ------------------------------------------------------------------
  // The stack

  ghost function SweepCost(fs: Fs, dir: Path): nat
    decreases Below(fs, dir), 1, 0
  {
    if dir in fs && fs[dir].Dir? then 1 + SweepCostNames(fs, dir, fs[dir].names) else 1
  }

  ghost function SweepCostNames(fs: Fs, dir: Path, names: seq<string>): nat
    requires dir in fs
    decreases Below(fs, dir), 0, |names|
  {
    if names == [] then 0
    else
      ChildBelow(fs, dir, names[|names| - 1]);
      SweepCost(fs, dir + [names[|names| - 1]]) + SweepCostNames(fs, dir, names[..|names| - 1])
  }

  ghost function SweepCostStack(fs: Fs, stack: seq<Path>): nat {
    if stack == [] then 0
    else SweepCost(fs, stack[|stack| - 1]) + SweepCostStack(fs, stack[..|stack| - 1])
  }

  /** How many directories the sweep visits: the mount and every one it pushes, whether it can be listed or not. */
  ghost function VisitsDir(fs: Fs, rules: Rules, dir: Path): (n: nat)
    ensures n > 0
    decreases Below(fs, dir), 1, 0
  {
    if dir in fs && fs[dir].Dir? then 1 + VisitsNames(fs, rules, dir, fs[dir].names) else 1
  }

  ghost function VisitsNames(fs: Fs, rules: Rules, dir: Path, names: seq<string>): nat
    requires dir in fs
    decreases Below(fs, dir), 0, |names|
  {
    if names == [] then 0
    else
      var child := dir + [names[|names| - 1]];
      ChildBelow(fs, dir, names[|names| - 1]);
      (if TakesDir(fs, rules, child) then VisitsDir(fs, rules, child) else 0)
      + VisitsNames(fs, rules, dir, names[..|names| - 1])
  }

  ghost function VisitsStack(fs: Fs, rules: Rules, stack: seq<Path>): nat {
    if stack == [] then 0
    else VisitsDir(fs, rules, stack[|stack| - 1]) + VisitsStack(fs, rules, stack[..|stack| - 1])
  }

  ghost function VisitsMounts(fs: Fs, rules: Rules, mounts: seq<Path>): nat {
    if mounts == [] then 0 else VisitsDir(fs, rules, mounts[0]) + VisitsMounts(fs, rules, mounts[1..])
  }

  lemma SweepPushed(fs: Fs, rules: Rules, stack: seq<Path>, dir: Path)
    ensures SweepStack(fs, rules, stack + [dir]) == SweepDir(fs, rules, dir) + SweepStack(fs, rules, stack)
    ensures SweepCostStack(fs, stack + [dir]) == SweepCost(fs, dir) + SweepCostStack(fs, stack)
    ensures VisitsStack(fs, rules, stack + [dir]) == VisitsDir(fs, rules, dir) + VisitsStack(fs, rules, stack)
  {
    assert (stack + [dir])[..|stack + [dir]| - 1] == stack;
  }

  lemma {:induction false} DirsPushed(fs: Fs, rules: Rules, stack: seq<Path>, dir: Path, names: seq<string>)
    requires dir in fs
    ensures SweepStack(fs, rules, stack + DirsIn(fs, rules, dir, names)) ==
            SweepNames(fs, rules, dir, names) + SweepStack(fs, rules, stack)
    ensures SweepCostStack(fs, stack + DirsIn(fs, rules, dir, names)) <=
            SweepCostNames(fs, dir, names) + SweepCostStack(fs, stack)
    ensures VisitsStack(fs, rules, stack + DirsIn(fs, rules, dir, names)) ==
            VisitsNames(fs, rules, dir, names) + VisitsStack(fs, rules, stack)
    decreases |names|
  {
    hide SweepDir, SweepStack, SweepCost, SweepCostStack, VisitsDir, VisitsStack, TakesDir;
    if names == [] {
      assert stack + DirsIn(fs, rules, dir, names) == stack;
    } else {
      var n := |names| - 1;
      var child, init := dir + [names[n]], stack + DirsIn(fs, rules, dir, names[..n]);
      DirsPushed(fs, rules, stack, dir, names[..n]);
      if TakesDir(fs, rules, child) {
        assert stack + DirsIn(fs, rules, dir, names) == init + [child];
        SweepPushed(fs, rules, init, child);
        Assoc(SweepDir(fs, rules, child), SweepNames(fs, rules, dir, names[..n]), SweepStack(fs, rules, stack));
      } else {
        assert DirsIn(fs, rules, dir, names) == DirsIn(fs, rules, dir, names[..n]);
        assert SweepNames(fs, rules, dir, names) == SweepNames(fs, rules, dir, names[..n]);
      }
    }
  }

  lemma EmptyStack(fs: Fs, rules: Rules)
    ensures SweepStack(fs, rules, []) == [] && VisitsStack(fs, rules, []) == 0
  {
  }

  /** The subdirectories a visit to `dir` pushes. */
  function Pushed(fs: Fs, rules: Rules, dir: Path): seq<Path> {
    if dir in fs && fs[dir].Dir? then DirsIn(fs, rules, dir, fs[dir].names) else []
  }

  function Files(fs: Fs, rules: Rules, dir: Path): seq<Path> {
    if dir in fs && fs[dir].Dir? then FilesIn(fs, rules, dir, fs[dir].names) else []
  }

  /** One turn of the walk: the files of the directory on top, then what is left with its subdirectories pushed. */
  lemma VisitOne(fs: Fs, rules: Rules, rest: seq<Path>, dir: Path)
    ensures SweepStack(fs, rules, rest + [dir]) ==
            Files(fs, rules, dir) + SweepStack(fs, rules, rest + Pushed(fs, rules, dir))
    ensures SweepCostStack(fs, rest + Pushed(fs, rules, dir)) < SweepCostStack(fs, rest + [dir])
    ensures VisitsStack(fs, rules, rest + [dir]) == 1 + VisitsStack(fs, rules, rest + Pushed(fs, rules, dir))
  {
    hide SweepStack, SweepCostStack, VisitsStack;
    SweepPushed(fs, rules, rest, dir);
    if dir in fs && fs[dir].Dir? {
      var names := fs[dir].names;
      DirsPushed(fs, rules, rest, dir, names);
      Assoc(FilesIn(fs, rules, dir, names), SweepNames(fs, rules, dir, names), SweepStack(fs, rules, rest));
    } else {
      assert rest + [] == rest;
    }
  }

  // ------------------------------------------------------------------
  // The sweep itself

  /** What the sweep has put into the table or still holds in its batch. */
  ghost predicate Recorded(before: Table, now: Table, batch: seq<Path>, done: seq<Path>) {
    && ValidTable(now)
    && forall p :: (p in Paths(now) || p in batch) <==> (p in Paths(before) || p in done)
  }

  lemma RecordedFlush(before: Table, now: Table, batch: seq<Path>, done: seq<Path>, t: int)
    requires Recorded(before, now, batch, done)
    ensures Recorded(before, Spilled(now, batch, t), [], done)
  {
    SpilledKeeps(now, batch, t);
  }

  lemma RecordedMore(before: Table, now: Table, batch: seq<Path>, done: seq<Path>, p: Path)
    requires Recorded(before, now, batch, done)
    ensures Recorded(before, now, batch + [p], done + [p])
  {
  }

  lemma RecordedAll(before: Table, now: Table, done: seq<Path>)
    requires Recorded(before, now, [], done)
    ensures ValidTable(now) && forall p :: p in Paths(now) <==> p in Paths(before) || p in done
  {
  }

  class Sweep {
    const db: Db
    var batch: seq<Path>
    var stack: seq<Path>
    var walked: nat
    ghost var done: seq<Path>
    ghost const before: Table

    constructor (db: Db)
      requires ValidTable(db.pending)
      ensures this.db == db && batch == [] && walked == 0 && done == [] && before == db.pending
      ensures Consistent()
    {
      this.db := db;
      batch, stack, walked, done := [], [], 0, [];
      before := db.pending;
    }

    ghost predicate Consistent()
      reads this, db
    {
      Recorded(before, db.pending, batch, done) && walked == |done|
    }

    method Flush(now: int)
      requires Consistent()
      modifies this`batch, db`pending
      ensures Consistent() && batch == []
    {
      if batch == [] {
        return;
      }
      RecordedFlush(before, db.pending, batch, done, now);
      db.SpillPending(batch, now);
      batch := [];
    }

    /** One directory's entries: files into the batch, subdirectories onto the stack. */
    method ListDir(fs: Fs, rules: Rules, dir: Path, names: seq<string>, now: int)
      requires Consistent()
      modifies this`batch, this`stack, this`walked, this`done, db`pending
      ensures Consistent()
      ensures done == old(done) + FilesIn(fs, rules, dir, names)
      ensures stack == old(stack) + DirsIn(fs, rules, dir, names)
    {
      var i := 0;
      while i < |names|
        invariant 0 <= i <= |names| && Consistent()
        invariant done == old(done) + FilesIn(fs, rules, dir, names[..i])
        invariant stack == old(stack) + DirsIn(fs, rules, dir, names[..i])
      {
        var path := dir + [names[i]];
        assert names[..i + 1][..i] == names[..i];
        i := i + 1;
        if IsExcluded(rules, path) {
          continue;
        }
        if path in fs && (fs[path].Dir? || fs[path].Unreadable?) {
          stack := stack + [path];
          continue;
        }
        if path !in fs || !fs[path].File? {
          continue;
        }
        RecordedMore(before, db.pending, batch, done, path);
        batch := batch + [path];
        walked := walked + 1;
        done := done + [path];
        if |batch| >= SWEEP_FLUSH_BATCH {
          Flush(now);
        }
      }
      assert names[..i] == names;
    }

    /** One mount. `exitAfter` is the number of directories visited before the exit flag shows, if it does. */
    method WalkMount(fs: Fs, rules: Rules, mount: Path, exitAfter: Option<nat>, visited: nat, now: int)
      returns (interrupted: bool, visits: nat)
      requires Consistent()
      modifies this`batch, this`stack, this`walked, this`done, db`pending
      ensures Consistent()
      ensures interrupted <==> exitAfter.Some? && exitAfter.value < visited + VisitsDir(fs, rules, mount)
      ensures !interrupted ==> visits == visited + VisitsDir(fs, rules, mount)
      ensures old(done) <= done <= old(done) + SweepDir(fs, rules, mount)
      ensures !interrupted ==> done == old(done) + SweepDir(fs, rules, mount)
    {
      hide Recorded, SweepDir, SweepStack, SweepCostStack, VisitsDir, VisitsStack, FilesIn, DirsIn;
      visits := visited;
      stack := [mount];
      SweepPushed(fs, rules, [], mount);
      EmptyStack(fs, rules);
      assert [] + [mount] == [mount];
      ghost var total := old(done) + SweepDir(fs, rules, mount);
      while stack != []
        invariant Consistent() && old(done) <= done
        invariant done + SweepStack(fs, rules, stack) == total
        invariant visits + VisitsStack(fs, rules, stack) == visited + VisitsDir(fs, rules, mount)
        invariant visits == visited || (exitAfter.Some? ==> visits <= exitAfter.value)
        decreases SweepCostStack(fs, stack)
      {
        var n := |stack| - 1;
        var dir, rest := stack[n], stack[..n];
        assert stack == rest + [dir];
        VisitOne(fs, rules, rest, dir);
        Assoc(done, Files(fs, rules, dir), SweepStack(fs, rules, rest + Pushed(fs, rules, dir)));
        stack := rest;
        if exitAfter.Some? && visits >= exitAfter.value {
          return true, visits;
        }
        visits := visits + 1;
        if dir !in fs || !fs[dir].Dir? {
          assert rest + Pushed(fs, rules, dir) == rest && done + Files(fs, rules, dir) == done;
          continue;
        }
        ListDir(fs, rules, dir, fs[dir].names, now);
      }
      return false, visits;
    }
  }

  lemma PrefixOfSum(a: seq<Path>, b: seq<Path>, c: seq<Path>)
    requires a <= b
    ensures a <= b + c
  {
  }

  /** `run_catchup` over a file system that holds still. */
  method RunCatchup(db: Db, fs: Fs, rules: Rules, mounts: seq<Path>, exitAfter: Option<nat>, now: int)
    returns (walked: nat, interrupted: bool, ghost done: seq<Path>)
    requires ValidTable(db.pending)
    modifies db
    ensures ValidTable(db.pending) && walked == |done| && done <= SweepMounts(fs, rules, mounts)
    ensures forall p :: p in Paths(db.pending) <==> p in Paths(old(db.pending)) || p in done
    // The sweep is cut short exactly when the flag shows before the last directory is visited; recorded is "completed".
    ensures interrupted <==> exitAfter.Some? && exitAfter.value < VisitsMounts(fs, rules, mounts)
    ensures !interrupted ==>
              forall p :: p in Paths(db.pending) <==>
                            || p in Paths(old(db.pending))
                            || exists i :: 0 <= i < |mounts| && Swept(fs, rules, mounts[i], p)
    ensures db.records ==
            old(db.records).InsertScan("catchup").FinishScan(old(db.records).nextScan, walked, 0, Completed)
  {
    hide SweepDir, Swept, VisitsDir, Recorded;
    var scanId := db.InsertScan("catchup");
    var sweep := new Sweep(db);
    var visits: nat := 0;
    interrupted := false;
    ghost var all := SweepMounts(fs, rules, mounts);
    var i := 0;
    while i < |mounts| && !interrupted
      invariant 0 <= i <= |mounts| && sweep.Consistent() && sweep.db == db && fresh(sweep)
      invariant sweep.before == old(db.pending) && db.records == old(db.records).InsertScan("catchup")
      invariant interrupted ==> sweep.done <= all
      invariant interrupted ==> exitAfter.Some? && exitAfter.value < VisitsMounts(fs, rules, mounts)
      invariant !interrupted ==> visits + VisitsMounts(fs, rules, mounts[i..]) == VisitsMounts(fs, rules, mounts)
      invariant !interrupted ==> visits == 0 || (exitAfter.Some? ==> visits <= exitAfter.value)
      invariant !interrupted ==> sweep.done + SweepMounts(fs, rules, mounts[i..]) == all
      decreases |mounts| - i
    {
      ghost var held := sweep.done;
      assert mounts[i..][1..] == mounts[i + 1..];
      Assoc(held, SweepDir(fs, rules, mounts[i]), SweepMounts(fs, rules, mounts[i + 1..]));
      interrupted, visits := sweep.WalkMount(fs, rules, mounts[i], exitAfter, visits, now);
      PrefixOfSum(sweep.done, held + SweepDir(fs, rules, mounts[i]), SweepMounts(fs, rules, mounts[i + 1..]));
      i := i + 1;
    }
    sweep.Flush(now);
    RecordedAll(sweep.before, db.pending, sweep.done);
    walked, done := sweep.walked, sweep.done;
    db.FinishScan(scanId, walked, 0, Completed);
    if !interrupted {
      assert mounts[i..] == [] && done == all;
      forall p
        ensures p in all <==> exists j :: 0 <= j < |mounts| && Swept(fs, rules, mounts[j], p)
      {
        SweepMountsIff(fs, rules, mounts, p);
      }
    }
  }
}
