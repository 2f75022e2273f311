/** The depth-first walk of a scan: an explicit stack of paths over a file system that is looked up entry by entry. */
module Walker {
  import opened Base
  import opened Exclusions

  /** What `symlink_metadata` and `read_dir` say of a path. A path not in the map cannot be stat'ed. */
  datatype Kind = File | Dir(names: seq<string>) | Unreadable | Symlink | Special

  type Fs = map<Path, Kind>

  datatype Policy = Policy(skip: Path, rules: Rules)

  predicate Admits(policy: Policy, p: Path) {
    !(policy.skip <= p) && !IsExcluded(policy.rules, p)
  }

  ghost function Below(fs: Fs, p: Path): set<Path> {
    set q | q in fs.Keys && p <= q
  }

  /** The recursive specification: the files under p in the order the walk meets them (last name first). */
  ghost function Visit(fs: Fs, policy: Policy, p: Path): seq<Path>
    decreases Below(fs, p), 1, 0
  {
    if !Admits(policy, p) || p !in fs then []
    else
      match fs[p]
      case File => [p]
      case Dir(names) => VisitNames(fs, policy, p, names)
      case _ => []
  }

  ghost function VisitNames(fs: Fs, policy: Policy, p: Path, names: seq<string>): seq<Path>
    requires p in fs
    decreases Below(fs, p), 0, |names|
  {
    if names == [] then []
    else
      var child := p + [names[|names| - 1]];
      ChildBelow(fs, p, names[|names| - 1]);
      Visit(fs, policy, child) + VisitNames(fs, policy, p, names[..|names| - 1])
  }

  lemma ChildBelow(fs: Fs, p: Path, name: string)
    requires p in fs
    ensures Below(fs, p + [name]) < Below(fs, p)
  {
    assert p in Below(fs, p) && p !in Below(fs, p + [name]);
    forall q | q in Below(fs, p + [name])
      ensures q in Below(fs, p)
    {
      assert p <= p + [name] <= q;
    }
  }

  ghost function VisitStack(fs: Fs, policy: Policy, stack: seq<Path>): seq<Path> {
    if stack == [] then []
    else Visit(fs, policy, stack[|stack| - 1]) + VisitStack(fs, policy, stack[..|stack| - 1])
  }

  function Children(p: Path, names: seq<string>): (ps: seq<Path>)
    ensures |ps| == |names| && forall i :: 0 <= i < |names| ==> ps[i] == p + [names[i]]
  {
    seq(|names|, i requires 0 <= i < |names| => p + [names[i]])
  }

  /** How many stack entries the walk of p pops in all. */
  ghost function Cost(fs: Fs, policy: Policy, p: Path): nat
    decreases Below(fs, p), 1, 0
  {
    if !Admits(policy, p) || p !in fs || !fs[p].Dir? then 1 else 1 + CostNames(fs, policy, p, fs[p].names)
  }

  ghost function CostNames(fs: Fs, policy: Policy, p: Path, names: seq<string>): nat
    requires p in fs
    decreases Below(fs, p), 0, |names|
  {
    if names == [] then 0
    else
      ChildBelow(fs, p, names[|names| - 1]);
      Cost(fs, policy, p + [names[|names| - 1]]) + CostNames(fs, policy, p, names[..|names| - 1])
  }

  ghost function CostStack(fs: Fs, policy: Policy, stack: seq<Path>): nat {
    if stack == [] then 0
    else Cost(fs, policy, stack[|stack| - 1]) + CostStack(fs, policy, stack[..|stack| - 1])
  }

  lemma PushedOne(fs: Fs, policy: Policy, stack: seq<Path>, p: Path)
    ensures VisitStack(fs, policy, stack + [p]) == Visit(fs, policy, p) + VisitStack(fs, policy, stack)
    ensures CostStack(fs, policy, stack + [p]) == Cost(fs, policy, p) + CostStack(fs, policy, stack)
  {
    assert (stack + [p])[..|stack + [p]| - 1] == stack;
  }

  /** Pushing a directory's entries and walking on is walking the directory and then the rest. */
  lemma {:induction false} PushedChildren(fs: Fs, policy: Policy, stack: seq<Path>, p: Path, names: seq<string>)
    requires p in fs
    ensures VisitStack(fs, policy, stack + Children(p, names)) ==
            VisitNames(fs, policy, p, names) + VisitStack(fs, policy, stack)
    ensures CostStack(fs, policy, stack + Children(p, names)) ==
            CostNames(fs, policy, p, names) + CostStack(fs, policy, stack)
    decreases |names|
  {
    hide Visit, VisitStack, Cost, CostStack;
    if names == [] {
      assert stack + Children(p, names) == stack;
    } else {
      var n := |names| - 1;
      var child, init := p + [names[n]], stack + Children(p, names[..n]);
      assert stack + Children(p, names) == init + [child];
      PushedOne(fs, policy, init, child);
      PushedChildren(fs, policy, stack, p, names[..n]);
      calc {
        VisitStack(fs, policy, init + [child]);
        Visit(fs, policy, child) + (VisitNames(fs, policy, p, names[..n]) + VisitStack(fs, policy, stack));
        { Assoc(Visit(fs, policy, child), VisitNames(fs, policy, p, names[..n]), VisitStack(fs, policy, stack)); }
        VisitNames(fs, policy, p, names) + VisitStack(fs, policy, stack);
      }
    }
  }

  lemma Assoc(a: seq<Path>, b: seq<Path>, c: seq<Path>)
    ensures a + (b + c) == a + b + c
  {
  }

  class FileWalker {
    var stack: seq<Path>
    const policy: Policy

    constructor (roots: seq<Path>, policy: Policy)
      ensures stack == roots && this.policy == policy
    {
      stack := roots;
      this.policy := policy;
    }

    /** The next file, from the file system as it is during this call. */
    method Next(fs: Fs) returns (r: Option<Path>)
      modifies this
      ensures match r
              case None => stack == [] && VisitStack(fs, policy, old(stack)) == []
              case Some(p) =>
                && VisitStack(fs, policy, old(stack)) == [p] + VisitStack(fs, policy, stack)
                && p in fs && fs[p].File? && !(policy.skip <= p) && !IsExcluded(policy.rules, p)
                && CostStack(fs, policy, stack) < CostStack(fs, policy, old(stack))
      ensures r.Some? && Antichain(old(stack)) && TreeLike(fs) ==> Antichain(stack + [r.value])
    {
      hide IsExcluded;
      while stack != []
        invariant VisitStack(fs, policy, stack) == VisitStack(fs, policy, old(stack))
        invariant CostStack(fs, policy, stack) <= CostStack(fs, policy, old(stack))
        invariant Antichain(old(stack)) && TreeLike(fs) ==> Antichain(stack)
        decreases CostStack(fs, policy, stack)
      {
        var n := |stack| - 1;
        var entry := stack[n];
        assert stack == stack[..n] + [entry];
        ghost var was := stack;
        stack := stack[..n];
        if policy.skip <= entry || IsExcluded(policy.rules, entry) {
          continue;
        }
        if entry !in fs {
          continue;
        }
        match fs[entry] {
          case File =>
            return Some(entry);
          case Dir(names) =>
            var i := 0;
            while i < |names|
              invariant 0 <= i <= |names|
              invariant stack == was[..n] + Children(entry, names[..i])
            {
              assert Children(entry, names[..i + 1]) == Children(entry, names[..i]) + [entry + [names[i]]];
              stack := stack + [entry + [names[i]]];
              i := i + 1;
            }
            assert names[..i] == names;
            PushedChildren(fs, policy, was[..n], entry, names);
            ChildrenAntichain(fs, was[..n], entry);
          case _ =>
        }
      }
      return None;
    }
  }

  // ------------------------------------------------------------------
  // Exactly which files, and each of them once

  /** No entry of the stack lies under another. */
  ghost predicate Antichain(stack: seq<Path>) {
    forall i, j :: 0 <= i < |stack| && 0 <= j < |stack| && stack[i] <= stack[j] ==> i == j
  }

  /** A directory lists a name once. */
  ghost predicate TreeLike(fs: Fs) {
    forall p :: p in fs && fs[p].Dir? ==> Distinct(fs[p].names)
  }

  lemma PrefixOfChild(a: Path, p: Path, name: string)
    ensures a <= p + [name] ==> a <= p || p <= a
    ensures p + [name] <= a ==> p <= a
  {
    if a <= p + [name] && |a| > |p| {
      assert a == p + [name];
    }
    if p + [name] <= a {
      assert p <= p + [name] <= a;
    }
  }

  lemma ChildrenAntichain(fs: Fs, rest: seq<Path>, p: Path)
    requires p in fs && fs[p].Dir?
    ensures Antichain(rest + [p]) && TreeLike(fs) ==> Antichain(rest + Children(p, fs[p].names))
  {
    var names := fs[p].names;
    var now := rest + Children(p, names);
    if Antichain(rest + [p]) && TreeLike(fs) {
      forall i, j | 0 <= i < |now| && 0 <= j < |now|
        ensures now[i] <= now[j] ==> i == j
      {
        ChildrenApart(rest, p, names, i, j);
      }
    }
  }

  lemma ChildrenApart(rest: seq<Path>, p: Path, names: seq<string>, i: nat, j: nat)
    requires Antichain(rest + [p]) && Distinct(names) && i < |rest| + |names| && j < |rest| + |names|
    ensures var now := rest + Children(p, names); now[i] <= now[j] ==> i == j
  {
    var m := |rest|;
    var was := rest + [p];
    assert was[m] == p && forall k :: 0 <= k < m ==> was[k] == rest[k];
    if i < m && j >= m {
      PrefixOfChild(rest[i], p, names[j - m]);
    } else if i >= m && j < m {
      PrefixOfChild(rest[j], p, names[i - m]);
    } else if i >= m && j >= m {
      var a, b := p + [names[i - m]], p + [names[j - m]];
      assert a[|p|] == names[i - m] && b[|p|] == names[j - m];
    }
  }

  /** A file with no skipped, excluded, symlinked or unlisted node on its chain from the root. */
  ghost predicate Reaches(fs: Fs, policy: Policy, root: Path, p: Path) {
    && root <= p && p in fs && fs[p].File?
    && (forall k :: |root| <= k <= |p| ==> Admits(policy, p[..k]))
    && (forall k :: |root| <= k < |p| ==> Lists(fs, p[..k], p[k]))
  }

  predicate Lists(fs: Fs, dir: Path, name: string) {
    dir in fs && fs[dir].Dir? && name in fs[dir].names
  }

  lemma ReachesStep(fs: Fs, policy: Policy, root: Path, p: Path)
    requires root <= p && root != p
    ensures Reaches(fs, policy, root, p) <==>
              Admits(policy, root) && Lists(fs, root, p[|root|]) && Reaches(fs, policy, root + [p[|root|]], p)
  {
    var n := |root|;
    assert p[..n] == root && p[..n + 1] == root + [p[n]];
    assert root + [p[n]] <= p;
  }

  /** The walk yields exactly the files that are reached. */
  lemma {:induction false} VisitIff(fs: Fs, policy: Policy, root: Path, p: Path)
    ensures p in Visit(fs, policy, root) <==> Reaches(fs, policy, root, p)
    decreases Below(fs, root), 1, 0
  {
    assert root <= p ==> p[..|root|] == root;
    if root <= p && root != p {
      ReachesStep(fs, policy, root, p);
    }
    if Admits(policy, root) && root in fs && fs[root].Dir? {
      VisitNamesIff(fs, policy, root, fs[root].names, p);
    }
  }

  lemma {:induction false} VisitNamesIff(fs: Fs, policy: Policy, root: Path, names: seq<string>, p: Path)
    requires root in fs
    ensures p in VisitNames(fs, policy, root, names) <==>
              root <= p && root != p && p[|root|] in names && Reaches(fs, policy, root + [p[|root|]], p)
    decreases Below(fs, root), 0, |names|
  {
    if names != [] {
      var n := |names| - 1;
      ChildBelow(fs, root, names[n]);
      VisitIff(fs, policy, root + [names[n]], p);
      VisitNamesIff(fs, policy, root, names[..n], p);
      assert names == names[..n] + [names[n]];
      if Reaches(fs, policy, root + [names[n]], p) {
        assert root <= root + [names[n]] <= p;
        assert p[|root|] == (root + [names[n]])[|root|];
      }
    }
  }

  lemma {:induction false} VisitStackIff(fs: Fs, policy: Policy, stack: seq<Path>, p: Path)
    ensures p in VisitStack(fs, policy, stack) <==>
              exists i :: 0 <= i < |stack| && Reaches(fs, policy, stack[i], p)
  {
    if stack != [] {
      var n := |stack| - 1;
      VisitIff(fs, policy, stack[n], p);
      VisitStackIff(fs, policy, stack[..n], p);
      if i :| 0 <= i < |stack| && Reaches(fs, policy, stack[i], p) {
        assert i == n || Reaches(fs, policy, stack[..n][i], p);
      }
    }
  }

  /** Read off the file system and the two lists alone: the walk from some roots yields exactly the regular
      files below one of them all of whose ancestors from there on list the next name, such that neither the
      file nor any of these ancestors lies in the skipped directory or is excluded. */
  lemma WalkYieldsIff(fs: Fs, policy: Policy, roots: seq<Path>, p: Path)
    ensures p in VisitStack(fs, policy, roots) <==>
              && p in fs && fs[p].File?
              && exists i :: 0 <= i < |roots| && roots[i] <= p
                   && (forall k :: |roots[i]| <= k <= |p| ==>
                         !(policy.skip <= p[..k]) && !IsExcluded(policy.rules, p[..k]))
                   && (forall k :: |roots[i]| <= k < |p| ==>
                         p[..k] in fs && fs[p[..k]].Dir? && p[k] in fs[p[..k]].names)
  {
    VisitStackIff(fs, policy, roots, p);
    forall i | 0 <= i < |roots| && roots[i] <= p
      ensures Reaches(fs, policy, roots[i], p) <==>
                && p in fs && fs[p].File?
                && (forall k :: |roots[i]| <= k <= |p| ==>
                      !(policy.skip <= p[..k]) && !IsExcluded(policy.rules, p[..k]))
                && (forall k :: |roots[i]| <= k < |p| ==>
                      p[..k] in fs && fs[p[..k]].Dir? && p[k] in fs[p[..k]].names)
    {
      ReachesMeans(fs, policy, roots[i], p);
    }
  }

  lemma ReachesMeans(fs: Fs, policy: Policy, root: Path, p: Path)
    requires root <= p
    ensures Reaches(fs, policy, root, p) <==>
              && p in fs && fs[p].File?
              && (forall k :: |root| <= k <= |p| ==> !(policy.skip <= p[..k]) && !IsExcluded(policy.rules, p[..k]))
              && (forall k :: |root| <= k < |p| ==> p[..k] in fs && fs[p[..k]].Dir? && p[k] in fs[p[..k]].names)
  {
    hide IsExcluded;
    if Reaches(fs, policy, root, p) {
      forall k | |root| <= k <= |p|
        ensures !(policy.skip <= p[..k]) && !IsExcluded(policy.rules, p[..k])
      {
        assert Admits(policy, p[..k]);
      }
      forall k | |root| <= k < |p|
        ensures p[..k] in fs && fs[p[..k]].Dir? && p[k] in fs[p[..k]].names
      {
        assert Lists(fs, p[..k], p[k]);
      }
    }
  }

  /** In particular nothing in the quarantine directory is ever yielded, whatever the roots and the settings. */
  lemma SkippedNever(fs: Fs, policy: Policy, roots: seq<Path>, p: Path)
    requires policy.skip <= p
    ensures p !in VisitStack(fs, policy, roots)
  {
    WalkYieldsIff(fs, policy, roots, p);
    assert p[..|p|] == p;
  }

  lemma DistinctConcat(a: seq<Path>, b: seq<Path>)
    requires Distinct(a) && Distinct(b) && forall x :: x in a ==> x !in b
    ensures Distinct(a + b)
  {
    assert forall i :: 0 <= i < |a| ==> (a + b)[i] == a[i] && a[i] in a;
    assert forall i :: |a| <= i < |a + b| ==> (a + b)[i] == b[i - |a|] && b[i - |a|] in b;
  }

  lemma {:induction false} VisitOnce(fs: Fs, policy: Policy, p: Path)
    requires TreeLike(fs)
    ensures Distinct(Visit(fs, policy, p))
    decreases Below(fs, p), 1, 0
  {
    if Admits(policy, p) && p in fs && fs[p].Dir? {
      VisitNamesOnce(fs, policy, p, fs[p].names);
    }
  }

  lemma {:induction false} VisitNamesOnce(fs: Fs, policy: Policy, p: Path, names: seq<string>)
    requires TreeLike(fs) && p in fs && Distinct(names)
    ensures Distinct(VisitNames(fs, policy, p, names))
    decreases Below(fs, p), 0, |names|
  {
    if names != [] {
      var n := |names| - 1;
      var child := p + [names[n]];
      ChildBelow(fs, p, names[n]);
      DistinctInit(names);
      VisitOnce(fs, policy, child);
      VisitNamesOnce(fs, policy, p, names[..n]);
      forall x | x in Visit(fs, policy, child)
        ensures x !in VisitNames(fs, policy, p, names[..n])
      {
        VisitIff(fs, policy, child, x);
        VisitNamesIff(fs, policy, p, names[..n], x);
        assert x[|p|] == child[|p|];
      }
      DistinctConcat(Visit(fs, policy, child), VisitNames(fs, policy, p, names[..n]));
    }
  }

  /** With roots that do not overlap, every reached file is yielded exactly once. */
  lemma {:induction false} EachFileOnce(fs: Fs, policy: Policy, stack: seq<Path>)
    requires TreeLike(fs) && Antichain(stack)
    ensures Distinct(VisitStack(fs, policy, stack))
  {
    if stack != [] {
      var n := |stack| - 1;
      var rest := stack[..n];
      assert forall i :: 0 <= i < n ==> rest[i] == stack[i];
      VisitOnce(fs, policy, stack[n]);
      EachFileOnce(fs, policy, rest);
      forall x | x in Visit(fs, policy, stack[n])
        ensures x !in VisitStack(fs, policy, rest)
      {
        VisitIff(fs, policy, stack[n], x);
        VisitStackIff(fs, policy, rest, x);
        if x in VisitStack(fs, policy, rest) {
          var i :| 0 <= i < n && Reaches(fs, policy, rest[i], x);
          assert stack[i] <= x && stack[n] <= x;
          PrefixesCompare(stack[i], stack[n], x);
        }
      }
      DistinctConcat(Visit(fs, policy, stack[n]), VisitStack(fs, policy, rest));
    }
  }

  lemma PrefixesCompare(a: Path, b: Path, x: Path)
    requires a <= x && b <= x
    ensures a <= b || b <= a
  {
    assert a == x[..|a|] && b == x[..|b|];
  }

  /** A directory that is excluded, by a prefix or because its own name carries an excluded extension,
      takes its whole subtree out of the walk. */
  lemma ExcludedDirPrunes(fs: Fs, policy: Policy, root: Path, dir: Path, p: Path)
    requires root <= dir <= p && IsExcluded(policy.rules, dir)
    ensures p !in Visit(fs, policy, root)
  {
    VisitIff(fs, policy, root, p);
    assert p[..|dir|] == dir;
  }

  // ------------------------------------------------------------------
  // A file system that changes elsewhere does not disturb the walk

  ghost predicate SameBelow(fs: Fs, fs': Fs, p: Path) {
    forall q :: p <= q ==> (q in fs <==> q in fs') && (q in fs ==> fs[q] == fs'[q])
  }

  lemma SameBelowChild(fs: Fs, fs': Fs, p: Path, name: string)
    requires SameBelow(fs, fs', p)
    ensures SameBelow(fs, fs', p + [name])
  {
    forall q | p + [name] <= q
      ensures (q in fs <==> q in fs') && (q in fs ==> fs[q] == fs'[q])
    {
      PrefixOfChild(q, p, name);
    }
  }

  lemma {:induction false} VisitFrame(fs: Fs, fs': Fs, policy: Policy, p: Path)
    requires SameBelow(fs, fs', p)
    ensures Visit(fs, policy, p) == Visit(fs', policy, p)
    decreases Below(fs, p), 1, 0
  {
    assert p <= p;
    if Admits(policy, p) && p in fs && fs[p].Dir? {
      VisitNamesFrame(fs, fs', policy, p, fs[p].names);
    }
  }

  lemma {:induction false} VisitNamesFrame(fs: Fs, fs': Fs, policy: Policy, p: Path, names: seq<string>)
    requires p in fs && p in fs' && SameBelow(fs, fs', p)
    ensures VisitNames(fs, policy, p, names) == VisitNames(fs', policy, p, names)
    decreases Below(fs, p), 0, |names|
  {
    if names != [] {
      var n := |names| - 1;
      var child := p + [names[n]];
      ChildBelow(fs, p, names[n]);
      SameBelowChild(fs, fs', p, names[n]);
      VisitFrame(fs, fs', policy, child);
      VisitNamesFrame(fs, fs', policy, p, names[..n]);
    }
  }

  lemma {:induction false} VisitStackFrame(fs: Fs, fs': Fs, policy: Policy, stack: seq<Path>)
    requires forall i :: 0 <= i < |stack| ==> SameBelow(fs, fs', stack[i])
    ensures VisitStack(fs, policy, stack) == VisitStack(fs', policy, stack)
  {
    if stack != [] {
      var n := |stack| - 1;
      VisitFrame(fs, fs', policy, stack[n]);
      assert forall i :: 0 <= i < n ==> stack[..n][i] == stack[i];
      VisitStackFrame(fs, fs', policy, stack[..n]);
    }
  }

  // ------------------------------------------------------------------
  // Removing a file never makes the walk longer

  lemma {:induction false} CostFrame(fs: Fs, gone: Path, policy: Policy, p: Path)
    requires gone in fs && fs[gone].File?
    ensures Cost(fs - {gone}, policy, p) == Cost(fs, policy, p)
    decreases Below(fs, p), 1, 0
  {
    if Admits(policy, p) && p in fs && fs[p].Dir? {
      CostNamesFrame(fs, gone, policy, p, fs[p].names);
    }
  }

  lemma {:induction false} CostNamesFrame(fs: Fs, gone: Path, policy: Policy, p: Path, names: seq<string>)
    requires gone in fs && fs[gone].File? && p in fs && p != gone
    ensures CostNames(fs - {gone}, policy, p, names) == CostNames(fs, policy, p, names)
    decreases Below(fs, p), 0, |names|
  {
    if names != [] {
      var n := |names| - 1;
      ChildBelow(fs, p, names[n]);
      CostFrame(fs, gone, policy, p + [names[n]]);
      CostNamesFrame(fs, gone, policy, p, names[..n]);
    }
  }

  lemma {:induction false} CostStackFrame(fs: Fs, gone: Path, policy: Policy, stack: seq<Path>)
    requires gone in fs && fs[gone].File?
    ensures CostStack(fs - {gone}, policy, stack) == CostStack(fs, policy, stack)
  {
    if stack != [] {
      CostFrame(fs, gone, policy, stack[|stack| - 1]);
      CostStackFrame(fs, gone, policy, stack[..|stack| - 1]);
    }
  }

  /** Removing a file that is not under the stack leaves the rest of the walk as it was. */
  lemma RemovedElsewhere(fs: Fs, gone: Path, policy: Policy, stack: seq<Path>)
    requires Antichain(stack + [gone])
    ensures VisitStack(fs - {gone}, policy, stack) == VisitStack(fs, policy, stack)
  {
    var all := stack + [gone];
    forall i | 0 <= i < |stack|
      ensures SameBelow(fs, fs - {gone}, stack[i])
    {
      assert all[i] == stack[i] && all[|stack|] == gone;
    }
    VisitStackFrame(fs, fs - {gone}, policy, stack);
  }
}
