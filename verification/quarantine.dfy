/** The quarantine directory over a file system in which every single operation may fail. */
module QuarantineStore {
  import opened Base
  import opened Bytes

  /** A regular file: its bytes and its st_mode, type bits included. */
  datatype FileData = FileData(bytes: seq<Byte>, mode: nat)

  type Files = map<Path, FileData>

  /** What the operating system does with the k-th operation: a failing copy may leave anything behind. */
  datatype Fault = NoFault | CrossDevice | Fails(leftover: Option<seq<Byte>>)

  datatype Io = Done | Exdev | Error

  const PERM_BITS: nat := 0x1000

  /** `mode & 0o7777`. */
  function PermOf(mode: nat): nat {
    mode % PERM_BITS
  }

  function WithPerm(mode: nat, perm: nat): nat {
    mode / PERM_BITS * PERM_BITS + perm % PERM_BITS
  }

  lemma WithPermLaws(mode: nat, a: nat, b: nat)
    ensures WithPerm(WithPerm(mode, a), b) == WithPerm(mode, b)
    ensures PermOf(WithPerm(mode, a)) == PermOf(a)
    ensures WithPerm(mode, PermOf(mode)) == mode
  {
  }

  /** Which operations succeed, by their number in the order in which they are asked for. */
  type Schedule = nat -> Fault

  ghost predicate AllFine(faults: Schedule, c: nat, n: nat) {
    forall k :: c <= k < c + n ==> faults(k) == NoFault
  }

  /** A move begun as operation c goes through: by rename, or by copy and remove across devices. */
  predicate MoveDone(faults: Schedule, c: nat) {
    faults(c) == NoFault || (faults(c) == CrossDevice && faults(c + 1) == NoFault && faults(c + 2) == NoFault)
  }

  /** How many operations a move that goes through takes. */
  function MoveOps(faults: Schedule, c: nat): nat {
    if faults(c) == NoFault then 1 else 3
  }

  /** A `put` begun as operation c gets the file out of its place: it is looked at, and the move goes through. */
  predicate PutMoves(faults: Schedule, c: nat) {
    faults(c) == NoFault && MoveDone(faults, c + 1)
  }

  /** And the blob can then be locked. */
  predicate PutSucceeds(faults: Schedule, c: nat) {
    PutMoves(faults, c) && faults(c + 1 + MoveOps(faults, c + 1)) == NoFault
  }

  /** A `restore` begun as operation c: directories, unlock, copy, mode, remove. */
  predicate RestoreDone(faults: Schedule, c: nat) {
    && faults(c) == NoFault && faults(c + 1) == NoFault && faults(c + 2) == NoFault
    && faults(c + 3) == NoFault && faults(c + 4) == NoFault
  }

  class Disk {
    var files: Files
    var clock: nat
    const faults: Schedule

    constructor (files: Files, faults: Schedule)
      ensures this.files == files && this.faults == faults && clock == 0
    {
      this.files, this.faults, clock := files, faults, 0;
    }

    method NextFault() returns (f: Fault)
      modifies this`clock
      ensures f == faults(old(clock)) && clock == old(clock) + 1
    {
      f := faults(clock);
      clock := clock + 1;
    }

    method Stat(path: Path) returns (r: Option<FileData>)
      modifies this`clock
      ensures r == if faults(old(clock)) == NoFault && path in files then Some(files[path]) else None
      ensures clock == old(clock) + 1
    {
      var f := NextFault();
      r := if f == NoFault && path in files then Some(files[path]) else None;
    }

    method Rename(from: Path, to: Path) returns (r: Io)
      modifies this
      ensures r == Done <==> from in old(files) && faults(old(clock)) == NoFault
      ensures r == Exdev <==> from in old(files) && faults(old(clock)) == CrossDevice
      ensures r == Done ==> files == (old(files) - {from})[to := old(files)[from]]
      ensures r != Done ==> files == old(files)
      ensures clock == old(clock) + 1
    {
      var f := NextFault();
      if from !in files || f.Fails? {
        return Error;
      }
      if f == CrossDevice {
        return Exdev;
      }
      files := (files - {from})[to := files[from]];
      return Done;
    }

    /** Bytes and permission bits; the target is truncated first, so copying a file onto itself empties it. */
    method Copy(from: Path, to: Path) returns (ok: bool)
      modifies this
      ensures ok <==> from in old(files) && faults(old(clock)) == NoFault
      ensures ok && from != to ==> files == old(files)[to := old(files)[from]]
      ensures forall q :: q != to ==> (q in files <==> q in old(files)) && (q in files ==> files[q] == old(files)[q])
      ensures clock == old(clock) + 1
    {
      var f := NextFault();
      if from !in files {
        return false;
      }
      var mode := files[from].mode;
      if f == NoFault {
        files := files[to := FileData(if from == to then [] else files[from].bytes, mode)];
        return true;
      }
      if f.Fails? && f.leftover.Some? {
        files := files[to := FileData(f.leftover.value, mode)];
      }
      return false;
    }

    method Chmod(path: Path, perm: nat) returns (ok: bool)
      modifies this
      ensures ok <==> path in old(files) && faults(old(clock)) == NoFault
      ensures ok ==> files == old(files)[path := old(files)[path].(mode := WithPerm(old(files)[path].mode, perm))]
      ensures !ok ==> files == old(files)
      ensures clock == old(clock) + 1
    {
      var f := NextFault();
      if path !in files || f != NoFault {
        return false;
      }
      files := files[path := files[path].(mode := WithPerm(files[path].mode, perm))];
      return true;
    }

    method Remove(path: Path) returns (ok: bool)
      modifies this
      ensures ok <==> path in old(files) && faults(old(clock)) == NoFault
      ensures files == if ok then old(files) - {path} else old(files)
      ensures clock == old(clock) + 1
    {
      var f := NextFault();
      if path !in files || f != NoFault {
        return false;
      }
      files := files - {path};
      return true;
    }

    method CreateDirs() returns (ok: bool)
      modifies this`clock
      ensures ok <==> faults(old(clock)) == NoFault
      ensures clock == old(clock) + 1
    {
      var f := NextFault();
      ok := f == NoFault;
    }

    /** The next n operations all succeed. */
    ghost predicate Healthy(n: nat)
      reads this
    {
      AllFine(faults, clock, n)
    }
  }

  // ------------------------------------------------------------------
  // What each quarantine operation may do to the files

  ghost predicate Untouched(before: Files, after: Files, except: set<Path>) {
    forall q :: q !in except ==> (q in before <==> q in after) && (q in before ==> before[q] == after[q])
  }

  /** The file has gone to the blob, which nobody may open. */
  function PutAway(files: Files, path: Path, blob: Path): Files
    requires path in files
  {
    (files - {path})[blob := files[path].(mode := WithPerm(files[path].mode, 0))]
  }

  function BroughtBack(files: Files, blob: Path, original: Path, mode: nat): Files
    requires blob in files
  {
    (files - {blob})[original := files[blob].(mode := WithPerm(files[blob].mode, mode))]
  }

  /** The blob copied to its place and given its mode, the blob still there. */
  function Refilled(files: Files, blob: Path, original: Path, mode: nat): Files
    requires blob in files
  {
    files[original := files[blob].(mode := WithPerm(files[blob].mode, mode))]
  }

  lemma RefilledIsBroughtBack(files: Files, blob: Path, original: Path, mode: nat)
    requires blob in files && blob != original
    ensures var unlocked := files[blob := files[blob].(mode := WithPerm(files[blob].mode, 0x100))];
            Refilled(unlocked, blob, original, mode) - {blob} == BroughtBack(files, blob, original, mode)
  {
    WithPermLaws(files[blob].mode, 0x100, mode);
  }

  /** A failed `put`: the whole file is still at its place or it is in the blob, mode included. */
  ghost predicate PutFailure(before: Files, after: Files, path: Path, blob: Path) {
    && Untouched(before, after, {path, blob})
    && (path in before ==>
          if path in after then after[path] == before[path]
          else blob in after && after[blob] == before[path])
  }

  /** A failed `restore`: the blob still holds every byte. */
  ghost predicate RestoreFailure(before: Files, after: Files, blob: Path, original: Path) {
    && Untouched(before, after, {blob, original})
    && (blob in before ==> blob in after && after[blob].bytes == before[blob].bytes)
    && (blob !in before ==> blob !in after)
  }

  datatype PutResult = Stored(blobPath: Path, size: nat, originalMode: nat) | PutError

  function Digit(d: nat): char
    requires d < 10
  {
    "0123456789"[d]
  }

  function Decimal(n: nat): (s: string)
    ensures s != []
  {
    if n < 10 then [Digit(n)] else Decimal(n / 10) + [Digit(n % 10)]
  }

  /** `{threat_id}.quar` in the quarantine directory. */
  function BlobPath(dir: Path, threatId: nat): Path {
    dir + [Decimal(threatId) + ".quar"]
  }

  lemma {:induction false} DecimalInjective(m: nat, n: nat)
    ensures Decimal(m) == Decimal(n) ==> m == n
  {
    if Decimal(m) == Decimal(n) {
      var a, b := Decimal(m), Decimal(n);
      assert a[|a| - 1] == b[|b| - 1];
      if m >= 10 && n >= 10 {
        assert a[..|a| - 1] == Decimal(m / 10) && b[..|b| - 1] == Decimal(n / 10);
        DecimalInjective(m / 10, n / 10);
      }
    }
  }

  /** Every threat has a blob of its own, inside the directory. */
  lemma BlobPathInjective(dir: Path, m: nat, n: nat)
    ensures BlobPath(dir, m) == BlobPath(dir, n) ==> m == n
    ensures dir <= BlobPath(dir, m)
  {
    if BlobPath(dir, m) == BlobPath(dir, n) {
      var a, b := Decimal(m) + ".quar", Decimal(n) + ".quar";
      assert BlobPath(dir, m)[|dir|] == a && BlobPath(dir, n)[|dir|] == b;
      assert a[..|a| - 5] == Decimal(m) && b[..|b| - 5] == Decimal(n);
      DecimalInjective(m, n);
    }
  }

  /** As long as only the mode of the blob and the file at the original place have changed, nothing is lost. */
  lemma StillWhole(before: Files, after: Files, blob: Path, original: Path)
    requires blob != original
    requires forall q :: q != original ==> (q in after <==> q in before)
    requires forall q :: q != original && q != blob && q in before ==> after[q] == before[q]
    requires blob in before ==> after[blob].bytes == before[blob].bytes
    ensures RestoreFailure(before, after, blob, original)
  {
  }

  lemma RefilledTwice(files: Files, blob: Path, original: Path, mode: nat)
    requires blob in files && blob != original
    ensures var copied := files[original := files[blob]];
            copied[original := copied[original].(mode := WithPerm(copied[original].mode, mode))] ==
            Refilled(files, blob, original, mode)
  {
  }

  /** A restore that succeeds: the file is back with every byte and these permission bits, the blob is gone,
      and nothing else is touched. */
  lemma BroughtBackMeans(files: Files, blob: Path, original: Path, mode: nat)
    requires blob in files && blob != original
    ensures var after := BroughtBack(files, blob, original, mode);
            && original in after && after[original].bytes == files[blob].bytes
            && PermOf(after[original].mode) == PermOf(mode)
            && blob !in after && Untouched(files, after, {original, blob})
  {
    WithPermLaws(files[blob].mode, mode, 0);
  }

  /** Putting a file away and bringing it back is the identity on the whole file system. */
  lemma PutThenRestore(files: Files, path: Path, blob: Path)
    requires path in files && blob !in files
    ensures BroughtBack(PutAway(files, path, blob), blob, path, PermOf(files[path].mode)) == files
  {
    var mode := files[path].mode;
    WithPermLaws(mode, 0, PermOf(mode));
    assert path != blob;
  }

  class Quarantine {
    const dir: Path
    const disk: Disk

    constructor (dir: Path, disk: Disk)
      ensures this.dir == dir && this.disk == disk
    {
      this.dir, this.disk := dir, disk;
    }

    /** rename, or copy and remove across devices. */
    method MoveFile(from: Path, to: Path) returns (ok: bool)
      requires from != to
      modifies disk
      ensures ok <==> from in old(disk.files) && MoveDone(disk.faults, old(disk.clock))
      ensures ok ==> disk.files == (old(disk.files) - {from})[to := old(disk.files)[from]]
      ensures ok ==> disk.clock == old(disk.clock) + MoveOps(disk.faults, old(disk.clock))
      ensures !ok ==> Untouched(old(disk.files), disk.files, {to})
    {
      var r := disk.Rename(from, to);
      match r {
        case Done => return true;
        case Exdev =>
          var copied := disk.Copy(from, to);
          if !copied {
            return false;
          }
          ok := disk.Remove(from);
          assert ok ==> disk.files == (old(disk.files) - {from})[to := old(disk.files)[from]];
        case Error => return false;
      }
    }

    method Put(threatId: nat, path: Path) returns (r: PutResult)
      requires !(dir <= path)
      modifies disk
      ensures r.Stored? <==>
                path in old(disk.files) && PutSucceeds(disk.faults, old(disk.clock))
      ensures r.Stored? ==>
                && r.blobPath == BlobPath(dir, threatId)
                && disk.files == PutAway(old(disk.files), path, r.blobPath)
                && r.size == |old(disk.files)[path].bytes| && r.originalMode == PermOf(old(disk.files)[path].mode)
      // The blob has every byte and no permission bit; the file is gone from its place; nothing else is touched.
      ensures r.Stored? ==>
                && path !in disk.files && r.blobPath in disk.files
                && disk.files[r.blobPath].bytes == old(disk.files)[path].bytes
                && PermOf(disk.files[r.blobPath].mode) == 0
                && Untouched(old(disk.files), disk.files, {path, r.blobPath})
      ensures r.PutError? ==> PutFailure(old(disk.files), disk.files, path, BlobPath(dir, threatId))
      ensures r.PutError? && (path !in old(disk.files) || disk.faults(old(disk.clock)) != NoFault) ==>
                disk.files == old(disk.files)
      // Where a failed put leaves the file: in its blob exactly when only the lock failed.
      ensures r.PutError? && path in old(disk.files) ==>
                (path !in disk.files <==> PutMoves(disk.faults, old(disk.clock)))
      ensures old(disk.Healthy(3)) && path in old(disk.files) ==> r.Stored?
    {
      var blobPath := BlobPath(dir, threatId);
      assert dir <= blobPath;
      var metadata := disk.Stat(path);
      if metadata.None? {
        return PutError;
      }
      var size := |metadata.value.bytes|;
      var originalMode := PermOf(metadata.value.mode);
      var moved := MoveFile(path, blobPath);
      if !moved {
        return PutError;
      }
      var locked := disk.Chmod(blobPath, 0);
      if !locked {
        return PutError;
      }
      WithPermLaws(old(disk.files)[path].mode, 0, 0);
      return Stored(blobPath, size, originalMode);
    }

    method Restore(blobPath: Path, original: Path, mode: nat) returns (ok: bool)
      requires blobPath != original
      modifies disk
      ensures ok ==> blobPath in old(disk.files)
                     && disk.files == BroughtBack(old(disk.files), blobPath, original, mode)
      ensures !ok ==> RestoreFailure(old(disk.files), disk.files, blobPath, original)
      ensures ok <==> blobPath in old(disk.files) && RestoreDone(disk.faults, old(disk.clock))
    {
      hide WithPerm, RestoreFailure, BroughtBack, Refilled, Untouched;
      ghost var before := disk.files;
      StillWhole(before, before, blobPath, original);
      var made := disk.CreateDirs();
      if !made {
        return false;
      }
      var readable := disk.Chmod(blobPath, 0x100);
      if !readable {
        return false;
      }
      ghost var unlocked := disk.files;
      var copied := disk.Copy(blobPath, original);
      StillWhole(before, disk.files, blobPath, original);
      if !copied {
        return false;
      }
      assert disk.files == unlocked[original := unlocked[blobPath]];
      var restored := disk.Chmod(original, mode);
      StillWhole(before, disk.files, blobPath, original);
      if !restored {
        return false;
      }
      RefilledTwice(unlocked, blobPath, original, mode);
      RefilledIsBroughtBack(before, blobPath, original, mode);
      ok := disk.Remove(blobPath);
    }

    method Delete(blobPath: Path) returns (ok: bool)
      modifies disk
      ensures ok <==> blobPath in old(disk.files) && disk.faults(old(disk.clock)) == NoFault
      ensures disk.files == if ok then old(disk.files) - {blobPath} else old(disk.files)
    {
      ok := disk.Remove(blobPath);
    }
  }

  /** The first n operations succeed, the next one is refused, then all is well again. */
  function FailsAt(n: nat): Schedule {
    k => if k == n then Fails(None) else NoFault
  }

  /** A concrete case: on a disk with one file on which only the lock of the blob is refused,
      `put` reports failure, the file is gone from its place, and the blob holds it with its mode. */
  method LockRefused(dir: Path, path: Path, file: FileData) returns (r: PutResult, after: Files)
    requires !(dir <= path)
    ensures r == PutError && after == map[BlobPath(dir, 1) := file]
  {
    var disk := new Disk(map[path := file], FailsAt(2));
    var quarantine := new Quarantine(dir, disk);
    BlobPathInjective(dir, 1, 1);
    r := quarantine.Put(1, path);
    after := disk.files;
    assert after.Keys == {BlobPath(dir, 1)};
  }
}
