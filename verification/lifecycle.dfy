/** Detection, quarantine, restore and delete as one state machine over the tables and the files,
    with any number of scanners, workers and client handlers and a failure possible in every file operation. */
module Lifecycle {
  import opened Base
  import opened Database
  import opened QuarantineStore
  import Scanner

  /** What a scanner or worker holds between two of its critical sections. */
  datatype Token =
    | NoToken
    | Recorded(threatId: nat, path: Path)
    | Measured(threatId: nat, path: Path, size: nat, mode: nat)
    | PutDone(threatId: nat, path: Path, size: nat, mode: nat)

  /** `seen` and `vault` are history: the file of each threat as `put` found it when it read size and mode,
      and as it was when it was moved. The outside world may act in between. */
  datatype State = State(records: Records, files: Files, tokens: seq<Token>,
                         seen: map<nat, FileData>, vault: map<nat, FileData>)

  datatype Step =
    | NewScan(kind: string)
    | EndScan(scanId: nat, filesScanned: nat, threatsFound: nat, status: ScanStatus)
    | Detect(t: nat, scanId: nat, path: Path, signature: string)
    | LeaveInPlace(t: nat)
    | Measure(t: nat)
    | PutOk(t: nat)
    | PutFails(t: nat, after: Files)
    | Record(t: nat)
    | RestoreOk(id: nat)
    | RestoreFails(id: nat, after: Files)
    | DeleteOk(id: nat)
    | Outside(after: Files)

  /** Files under the quarantine directory are the daemon's alone. */
  ghost predicate SameInside(dir: Path, before: Files, after: Files) {
    forall q :: dir <= q ==> (q in before <==> q in after) && (q in before ==> before[q] == after[q])
  }

  ghost predicate Enabled(dir: Path, s: State, step: Step) {
    match step
    case NewScan(_) => true
    case EndScan(_, _, _, _) => true
    case Detect(t, scanId, path, _) =>
      t < |s.tokens| && s.tokens[t].NoToken? && scanId in s.records.scans && !(dir <= path)
    case LeaveInPlace(t) => t < |s.tokens| && s.tokens[t].Recorded?
    case Measure(t) => t < |s.tokens| && s.tokens[t].Recorded? && s.tokens[t].path in s.files
    case PutOk(t) => t < |s.tokens| && s.tokens[t].Measured? && s.tokens[t].path in s.files
    case PutFails(t, after) =>
      t < |s.tokens|
      && (s.tokens[t].Recorded? || s.tokens[t].Measured?)
      && (s.tokens[t].Recorded? ==> after == s.files)
      && PutFailure(s.files, after, s.tokens[t].path, BlobPath(dir, s.tokens[t].threatId))
    case Record(t) => t < |s.tokens| && s.tokens[t].PutDone?
    case RestoreOk(id) => s.records.GetQuarantine(id).Some? && s.records.GetQuarantine(id).value.blobPath in s.files
    case RestoreFails(id, after) =>
      && s.records.GetQuarantine(id).Some?
      && var row := s.records.GetQuarantine(id).value;
         RestoreFailure(s.files, after, row.blobPath, row.originalPath)
    case DeleteOk(id) => s.records.GetQuarantine(id).Some? && s.records.GetQuarantine(id).value.blobPath in s.files
    case Outside(after) => SameInside(dir, s.files, after)
  }

  /** A handler that has removed the blob flips the status and drops the row under the same lock. */
  function Resolved(r: Records, id: nat, status: ThreatStatus): Records
    requires id in r.quarantine
  {
    r.SetThreatStatus(r.quarantine[id].threatId, status).DeleteQuarantine(id)
  }

  ghost function Apply(dir: Path, s: State, step: Step): State
    requires Enabled(dir, s, step)
  {
    match step
    case NewScan(kind) => s.(records := s.records.InsertScan(kind))
    case EndScan(id, n, m, status) => s.(records := s.records.FinishScan(id, n, m, status))
    case Detect(t, scanId, path, signature) =>
      s.(records := s.records.InsertThreat(scanId, path, signature),
         tokens := s.tokens[t := Recorded(s.records.nextThreat, path)])
    case LeaveInPlace(t) => s.(tokens := s.tokens[t := NoToken])
    case Measure(t) =>
      var k := s.tokens[t];
      var file := s.files[k.path];
      s.(seen := s.seen[k.threatId := file],
         tokens := s.tokens[t := Measured(k.threatId, k.path, |file.bytes|, PermOf(file.mode))])
    case PutOk(t) =>
      var k := s.tokens[t];
      s.(files := PutAway(s.files, k.path, BlobPath(dir, k.threatId)),
         vault := s.vault[k.threatId := s.files[k.path]],
         tokens := s.tokens[t := PutDone(k.threatId, k.path, k.size, k.mode)])
    case PutFails(t, after) => s.(files := after, tokens := s.tokens[t := NoToken])
    case Record(t) =>
      var k := s.tokens[t];
      s.(records := s.records.SetThreatStatus(k.threatId, Quarantined)
                     .InsertQuarantine(QuarantineRow(k.threatId, k.path, BlobPath(dir, k.threatId), k.mode, k.size)),
         tokens := s.tokens[t := NoToken])
    case RestoreOk(id) =>
      var row := s.records.quarantine[id];
      s.(files := BroughtBack(s.files, row.blobPath, row.originalPath, row.originalMode),
         records := Resolved(s.records, id, Restored))
    case RestoreFails(id, after) => s.(files := after)
    case DeleteOk(id) =>
      s.(files := s.files - {s.records.quarantine[id].blobPath}, records := Resolved(s.records, id, Deleted))
    case Outside(after) => s.(files := after)
  }

  ghost predicate Legal(dir: Path, s: State, steps: seq<Step>)
    decreases |steps|
  {
    steps == [] || (Enabled(dir, s, steps[0]) && Legal(dir, Apply(dir, s, steps[0]), steps[1..]))
  }

  ghost function After(dir: Path, s: State, steps: seq<Step>): State
    requires Legal(dir, s, steps)
    decreases |steps|
  {
    if steps == [] then s else After(dir, Apply(dir, s, steps[0]), steps[1..])
  }

  // ------------------------------------------------------------------
  // The invariant

  function TokenId(k: Token): Option<nat> {
    match k
    case NoToken => None
    case Recorded(id, _) => Some(id)
    case Measured(id, _, _, _) => Some(id)
    case PutDone(id, _, _, _) => Some(id)
  }

  /** A row's threat is quarantined, its blob is its own, and the blob holds the file that was put away. */
  ghost predicate RowOk(dir: Path, s: State, q: nat)
    requires q in s.records.quarantine
  {
    var row := s.records.quarantine[q];
    var id := row.threatId;
    && id in s.records.threats && s.records.threats[id].status == Quarantined
    && row.blobPath == BlobPath(dir, id) && !(dir <= row.originalPath)
    && KeptSafe(dir, s, id) && LookedAt(s, id, row.size, row.originalMode)
  }

  ghost predicate KeptSafe(dir: Path, s: State, id: nat) {
    && id in s.vault && BlobPath(dir, id) in s.files
    && s.files[BlobPath(dir, id)].bytes == s.vault[id].bytes
  }

  ghost predicate LookedAt(s: State, id: nat, size: nat, mode: nat) {
    id in s.seen && size == |s.seen[id].bytes| && mode == PermOf(s.seen[id].mode)
  }

  /** A held threat is detected only, has no row yet, and once put away its blob is safe. */
  ghost predicate TokenOk(dir: Path, s: State, k: Token) {
    match k
    case NoToken => true
    case Recorded(id, path) => HeldOk(dir, s, id, path)
    case Measured(id, path, size, mode) => HeldOk(dir, s, id, path) && LookedAt(s, id, size, mode)
    case PutDone(id, path, size, mode) =>
      HeldOk(dir, s, id, path) && LookedAt(s, id, size, mode) && KeptSafe(dir, s, id)
  }

  ghost predicate HeldOk(dir: Path, s: State, id: nat, path: Path) {
    id in s.records.threats && s.records.threats[id].status == Detected && !(dir <= path)
  }

  ghost predicate OneRowEach(r: Records) {
    forall p, q :: p in r.quarantine && q in r.quarantine && r.quarantine[p].threatId == r.quarantine[q].threatId
                   ==> p == q
  }

  ghost predicate HasRow(r: Records, id: nat) {
    exists q :: q in r.quarantine && r.quarantine[q].threatId == id
  }

  ghost predicate NoQuarantinedWithoutRow(r: Records) {
    forall id :: id in r.threats && r.threats[id].status == Quarantined ==> HasRow(r, id)
  }

  ghost predicate TokensApart(tokens: seq<Token>) {
    forall i, j :: 0 <= i < j < |tokens| && TokenId(tokens[i]).Some? ==> TokenId(tokens[i]) != TokenId(tokens[j])
  }

  ghost predicate Inv(dir: Path, s: State) {
    && s.records.Valid()
    && (forall q :: q in s.records.quarantine ==> RowOk(dir, s, q))
    && OneRowEach(s.records)
    && NoQuarantinedWithoutRow(s.records)
    && (forall i :: 0 <= i < |s.tokens| ==> TokenOk(dir, s, s.tokens[i]))
    && TokensApart(s.tokens)
  }

  // ------------------------------------------------------------------
  // Files: what each kind of change leaves alone

  /** Every blob of a threat other than `id` is as before. */
  ghost predicate OtherBlobsKept(dir: Path, before: Files, after: Files, id: nat) {
    forall k: nat :: k != id ==>
      (BlobPath(dir, k) in before <==> BlobPath(dir, k) in after)
      && (BlobPath(dir, k) in before ==> before[BlobPath(dir, k)].bytes == after[BlobPath(dir, k)].bytes)
  }

  lemma BlobsApart(dir: Path, before: Files, after: Files, path: Path, id: nat)
    requires !(dir <= path) && Untouched(before, after, {path, BlobPath(dir, id)})
    ensures OtherBlobsKept(dir, before, after, id)
  {
    forall k: nat | k != id
      ensures BlobPath(dir, k) !in {path, BlobPath(dir, id)}
    {
      BlobPathInjective(dir, k, id);
    }
  }

  lemma InsideKept(dir: Path, before: Files, after: Files, id: nat)
    requires SameInside(dir, before, after)
    ensures OtherBlobsKept(dir, before, after, id)
    ensures BlobPath(dir, id) in before ==>
              BlobPath(dir, id) in after && before[BlobPath(dir, id)] == after[BlobPath(dir, id)]
  {
    forall k: nat
      ensures dir <= BlobPath(dir, k)
    {
      BlobPathInjective(dir, k, k);
    }
  }

  lemma PutAwayTouches(files: Files, path: Path, blob: Path)
    requires path in files && path != blob
    ensures Untouched(files, PutAway(files, path, blob), {path, blob})
    ensures PutAway(files, path, blob)[blob].bytes == files[path].bytes
  {
  }

  lemma BroughtBackTouches(files: Files, blob: Path, original: Path, mode: nat)
    requires blob in files && original != blob
    ensures Untouched(files, BroughtBack(files, blob, original, mode), {original, blob})
    ensures BroughtBack(files, blob, original, mode)[original].bytes == files[blob].bytes
    ensures PermOf(BroughtBack(files, blob, original, mode)[original].mode) == PermOf(mode)
  {
    WithPermLaws(files[blob].mode, mode, 0);
  }

  // ------------------------------------------------------------------
  // Each step keeps the invariant

  /** Some threads may have let go of their threats; nothing else about the threads changed. */
  ghost predicate LetGo(before: seq<Token>, after: seq<Token>) {
    |after| == |before| && forall i :: 0 <= i < |after| ==> after[i] == before[i] || after[i].NoToken?
  }

  /** A change of files that spares the blobs of every row and every put-away token. */
  lemma FilesStep(dir: Path, s: State, s': State, id: nat)
    requires Inv(dir, s) && s'.records == s.records && s'.seen == s.seen && s'.vault == s.vault
    requires OtherBlobsKept(dir, s.files, s'.files, id)
    requires KeptBlob(dir, s, s', id)
    requires LetGo(s.tokens, s'.tokens)
    ensures Inv(dir, s')
  {
    forall k: nat | KeptSafe(dir, s, k)
      ensures KeptSafe(dir, s', k)
    {
    }
    forall q | q in s'.records.quarantine
      ensures RowOk(dir, s', q)
    {
      assert RowOk(dir, s, q);
    }
    forall i | 0 <= i < |s'.tokens|
      ensures TokenOk(dir, s', s'.tokens[i])
    {
      assert TokenOk(dir, s, s.tokens[i]);
    }
  }

  ghost predicate KeptBlob(dir: Path, s: State, s': State, id: nat) {
    var blob := BlobPath(dir, id);
    blob in s.files ==> blob in s'.files && s'.files[blob].bytes == s.files[blob].bytes
  }

  lemma RowsIgnoreHeld(dir: Path, s: State, t: nat, q: nat)
    requires Inv(dir, s) && t < |s.tokens| && TokenId(s.tokens[t]).Some? && q in s.records.quarantine
    ensures s.records.quarantine[q].threatId != TokenId(s.tokens[t]).value
  {
    assert RowOk(dir, s, q) && TokenOk(dir, s, s.tokens[t]);
  }

  lemma DetectKeeps(dir: Path, s: State, step: Step)
    requires Inv(dir, s) && step.Detect? && Enabled(dir, s, step)
    ensures Inv(dir, Apply(dir, s, step))
  {
    var s' := Apply(dir, s, step);
    var id := s.records.nextThreat;
    InsertThreatKeeps(s.records, step.scanId, step.path, step.signature);
    forall q | q in s'.records.quarantine
      ensures RowOk(dir, s', q)
    {
      assert RowOk(dir, s, q);
    }
    forall k | k in s'.records.threats && s'.records.threats[k].status == Quarantined
      ensures HasRow(s'.records, k)
    {
      assert HasRow(s.records, k);
    }
    forall i | 0 <= i < |s'.tokens|
      ensures TokenOk(dir, s', s'.tokens[i])
      ensures i != step.t ==> TokenId(s'.tokens[i]) != Some(id)
    {
      assert TokenOk(dir, s, s.tokens[i]);
    }
  }

  lemma MeasureKeeps(dir: Path, s: State, step: Step)
    requires Inv(dir, s) && step.Measure? && Enabled(dir, s, step)
    ensures Inv(dir, Apply(dir, s, step))
  {
    var t := step.t;
    var s' := Apply(dir, s, step);
    assert TokenOk(dir, s, s.tokens[t]);
    forall q | q in s'.records.quarantine
      ensures RowOk(dir, s', q)
    {
      assert RowOk(dir, s, q);
      RowsIgnoreHeld(dir, s, t, q);
    }
    forall i | 0 <= i < |s'.tokens|
      ensures TokenOk(dir, s', s'.tokens[i])
    {
      assert TokenOk(dir, s, s.tokens[i]);
      assert i != t ==> TokenId(s.tokens[i]) != TokenId(s.tokens[t]);
    }
  }

  lemma PutOkKeeps(dir: Path, s: State, step: Step)
    requires Inv(dir, s) && step.PutOk? && Enabled(dir, s, step)
    ensures Inv(dir, Apply(dir, s, step))
  {
    var t := step.t;
    var k := s.tokens[t];
    var s' := Apply(dir, s, step);
    var blob := BlobPath(dir, k.threatId);
    assert TokenOk(dir, s, k);
    BlobPathInjective(dir, k.threatId, k.threatId);
    PutAwayTouches(s.files, k.path, blob);
    BlobsApart(dir, s.files, s'.files, k.path, k.threatId);
    forall id: nat | id != k.threatId && KeptSafe(dir, s, id)
      ensures KeptSafe(dir, s', id)
    {
    }
    forall q | q in s'.records.quarantine
      ensures RowOk(dir, s', q)
    {
      assert RowOk(dir, s, q);
      RowsIgnoreHeld(dir, s, t, q);
    }
    forall i | 0 <= i < |s'.tokens|
      ensures TokenOk(dir, s', s'.tokens[i])
    {
      assert TokenOk(dir, s, s.tokens[i]);
      assert i != t ==> TokenId(s.tokens[i]) != TokenId(s.tokens[t]);
    }
  }

  lemma PutFailsKeeps(dir: Path, s: State, step: Step)
    requires Inv(dir, s) && step.PutFails? && Enabled(dir, s, step)
    ensures Inv(dir, Apply(dir, s, step))
  {
    var t := step.t;
    var k := s.tokens[t];
    var s' := Apply(dir, s, step);
    assert TokenOk(dir, s, k);
    BlobsApart(dir, s.files, s'.files, k.path, k.threatId);
    forall id: nat | id != k.threatId && KeptSafe(dir, s, id)
      ensures KeptSafe(dir, s', id)
    {
    }
    forall q | q in s'.records.quarantine
      ensures RowOk(dir, s', q)
    {
      assert RowOk(dir, s, q);
      RowsIgnoreHeld(dir, s, t, q);
    }
    forall i | 0 <= i < |s'.tokens|
      ensures TokenOk(dir, s', s'.tokens[i])
    {
      assert TokenOk(dir, s, s.tokens[i]);
      assert i != t ==> TokenId(s.tokens[i]) != TokenId(s.tokens[t]);
    }
  }

  /** The tables after a row is recorded. */
  lemma RecordTables(r: Records, row: QuarantineRow)
    requires r.Valid() && OneRowEach(r) && NoQuarantinedWithoutRow(r)
    requires row.threatId in r.threats && !HasRow(r, row.threatId)
    ensures var r' := r.SetThreatStatus(row.threatId, Quarantined).InsertQuarantine(row);
            && r'.Valid() && OneRowEach(r') && NoQuarantinedWithoutRow(r')
            && r'.quarantine == r.quarantine[r.nextQuarantine := row] && r.nextQuarantine !in r.quarantine
            && r'.threats == r.threats[row.threatId := r.threats[row.threatId].(status := Quarantined)]
  {
    var r' := r.SetThreatStatus(row.threatId, Quarantined).InsertQuarantine(row);
    assert forall q :: q in r.quarantine ==> r.quarantine[q].threatId != row.threatId;
    forall id | id in r'.threats && r'.threats[id].status == Quarantined
      ensures HasRow(r', id)
    {
      if id == row.threatId {
        assert r'.quarantine[r.nextQuarantine].threatId == id;
      } else {
        assert HasRow(r, id);
        var q :| q in r.quarantine && r.quarantine[q].threatId == id;
        assert q in r'.quarantine && r'.quarantine[q].threatId == id;
      }
    }
  }

  lemma RecordKeeps(dir: Path, s: State, step: Step)
    requires Inv(dir, s) && step.Record? && Enabled(dir, s, step)
    ensures Inv(dir, Apply(dir, s, step))
  {
    var t := step.t;
    var k := s.tokens[t];
    var s' := Apply(dir, s, step);
    assert TokenOk(dir, s, k);
    forall q | q in s.records.quarantine
      ensures RowOk(dir, s, q) && s.records.quarantine[q].threatId != k.threatId
    {
      RowsIgnoreHeld(dir, s, t, q);
    }
    RecordTables(s.records, QuarantineRow(k.threatId, k.path, BlobPath(dir, k.threatId), k.mode, k.size));
    forall i | 0 <= i < |s'.tokens|
      ensures TokenOk(dir, s', s'.tokens[i])
    {
      assert TokenOk(dir, s, s.tokens[i]);
      assert i != t ==> TokenId(s.tokens[i]) != TokenId(s.tokens[t]);
    }
  }

  /** The tables after an item is resolved. */
  lemma ResolvedTables(r: Records, id: nat, status: ThreatStatus)
    requires r.Valid() && OneRowEach(r) && NoQuarantinedWithoutRow(r) && id in r.quarantine && status != Quarantined
    ensures var r' := Resolved(r, id, status); var gone := r.quarantine[id].threatId;
            && r'.Valid() && OneRowEach(r') && NoQuarantinedWithoutRow(r')
            && r'.quarantine == r.quarantine - {id}
            && r'.threats == r.threats[gone := r.threats[gone].(status := status)]
            && forall q :: q in r'.quarantine ==> r.quarantine[q].threatId != gone
  {
    var r' := Resolved(r, id, status);
    var gone := r.quarantine[id].threatId;
    forall k | k in r'.threats && r'.threats[k].status == Quarantined
      ensures HasRow(r', k)
    {
      assert k != gone && HasRow(r, k);
      var q :| q in r.quarantine && r.quarantine[q].threatId == k;
      assert q in r'.quarantine && r'.quarantine[q].threatId == k;
    }
  }

  /** Restore and delete alike: the row's blob goes, its status is settled, the row goes. */
  lemma ResolveKeeps(dir: Path, s: State, s': State, id: nat, status: ThreatStatus)
    requires Inv(dir, s) && id in s.records.quarantine && (status == Restored || status == Deleted)
    requires s' == s.(files := s'.files, records := Resolved(s.records, id, status))
    requires OtherBlobsKept(dir, s.files, s'.files, s.records.quarantine[id].threatId)
    ensures Inv(dir, s')
  {
    var gone := s.records.quarantine[id].threatId;
    ResolvedTables(s.records, id, status);
    forall k: nat | k != gone && KeptSafe(dir, s, k)
      ensures KeptSafe(dir, s', k)
    {
    }
    forall q | q in s'.records.quarantine
      ensures RowOk(dir, s', q)
    {
      assert RowOk(dir, s, q);
    }
    forall i | 0 <= i < |s'.tokens|
      ensures TokenOk(dir, s', s'.tokens[i])
    {
      assert TokenOk(dir, s, s.tokens[i]);
      if TokenId(s.tokens[i]).Some? {
        RowsIgnoreHeld(dir, s, i, id);
      }
    }
  }

  lemma RowFileFacts(dir: Path, s: State, id: nat)
    requires Inv(dir, s) && id in s.records.quarantine
    ensures RowOk(dir, s, id) && s.records.GetQuarantine(id) == Some(s.records.quarantine[id])
    ensures s.records.quarantine[id].originalPath != s.records.quarantine[id].blobPath
  {
    assert RowOk(dir, s, id);
    BlobPathInjective(dir, s.records.quarantine[id].threatId, 0);
  }

  lemma StepKeeps(dir: Path, s: State, step: Step)
    requires Inv(dir, s) && Enabled(dir, s, step)
    ensures Inv(dir, Apply(dir, s, step))
  {
    hide Inv, RowOk, TokenOk;
    var s' := Apply(dir, s, step);
    match step
    case NewScan(_) => ScanTableKeeps(dir, s, step);
    case EndScan(_, _, _, _) => ScanTableKeeps(dir, s, step);
    case Detect(_, _, _, _) => DetectKeeps(dir, s, step);
    case LeaveInPlace(t) => FilesStep(dir, s, s', 0);
    case Measure(_) => MeasureKeeps(dir, s, step);
    case PutOk(_) => PutOkKeeps(dir, s, step);
    case PutFails(_, _) => PutFailsKeeps(dir, s, step);
    case Record(_) => RecordKeeps(dir, s, step);
    case RestoreOk(id) =>
      RestoreFiles(dir, s, id);
      ResolveKeeps(dir, s, s', id, Restored);
    case RestoreFails(id, after) => RestoreFailsKeeps(dir, s, id, after);
    case DeleteOk(id) =>
      DeleteFiles(dir, s, id);
      ResolveKeeps(dir, s, s', id, Deleted);
    case Outside(after) =>
      InsideKept(dir, s.files, after, 0);
      FilesStep(dir, s, s', 0);
  }

  lemma ScanTableKeeps(dir: Path, s: State, step: Step)
    requires Inv(dir, s) && (step.NewScan? || step.EndScan?)
    ensures Inv(dir, Apply(dir, s, step))
  {
    var s' := Apply(dir, s, step);
    forall q | q in s'.records.quarantine
      ensures RowOk(dir, s', q)
    {
      assert RowOk(dir, s, q);
    }
    forall k | k in s'.records.threats && s'.records.threats[k].status == Quarantined
      ensures HasRow(s'.records, k)
    {
      assert HasRow(s.records, k);
    }
    forall i | 0 <= i < |s'.tokens|
      ensures TokenOk(dir, s', s'.tokens[i])
    {
      assert TokenOk(dir, s, s.tokens[i]);
    }
  }

  lemma RestoreFiles(dir: Path, s: State, id: nat)
    requires Inv(dir, s) && id in s.records.quarantine && s.records.quarantine[id].blobPath in s.files
    ensures var row := s.records.quarantine[id];
            var after := BroughtBack(s.files, row.blobPath, row.originalPath, row.originalMode);
            OtherBlobsKept(dir, s.files, after, row.threatId)
  {
    var row := s.records.quarantine[id];
    RowFileFacts(dir, s, id);
    BroughtBackTouches(s.files, row.blobPath, row.originalPath, row.originalMode);
    var after := BroughtBack(s.files, row.blobPath, row.originalPath, row.originalMode);
    BlobsApart(dir, s.files, after, row.originalPath, row.threatId);
  }

  lemma DeleteFiles(dir: Path, s: State, id: nat)
    requires Inv(dir, s) && id in s.records.quarantine
    ensures var row := s.records.quarantine[id]; OtherBlobsKept(dir, s.files, s.files - {row.blobPath}, row.threatId)
  {
    var row := s.records.quarantine[id];
    RowFileFacts(dir, s, id);
    BlobsApart(dir, s.files, s.files - {row.blobPath}, row.originalPath, row.threatId);
  }

  lemma RestoreFailsKeeps(dir: Path, s: State, id: nat, after: Files)
    requires Inv(dir, s) && Enabled(dir, s, RestoreFails(id, after))
    ensures Inv(dir, s.(files := after))
  {
    var row := s.records.quarantine[id];
    RowFileFacts(dir, s, id);
    BlobsApart(dir, s.files, after, row.originalPath, row.threatId);
    FilesStep(dir, s, s.(files := after), row.threatId);
  }

  /** The lifecycle invariant holds in every reachable state. */
  lemma {:induction false} RunKeeps(dir: Path, s: State, steps: seq<Step>)
    requires Inv(dir, s) && Legal(dir, s, steps)
    ensures Inv(dir, After(dir, s, steps))
    decreases |steps|
  {
    if steps != [] {
      StepKeeps(dir, s, steps[0]);
      RunKeeps(dir, Apply(dir, s, steps[0]), steps[1..]);
    }
  }

  // ------------------------------------------------------------------
  // What the invariant means

  ghost function RowsFor(r: Records, id: nat): set<nat> {
    set q | q in r.quarantine && r.quarantine[q].threatId == id
  }

  /** A threat is quarantined exactly when it has exactly one row, and otherwise it has none. */
  lemma QuarantinedIffOneRow(dir: Path, s: State, id: nat)
    requires Inv(dir, s) && id in s.records.threats
    ensures s.records.threats[id].status == Quarantined <==> |RowsFor(s.records, id)| == 1
    ensures s.records.threats[id].status != Quarantined <==> RowsFor(s.records, id) == {}
  {
    if HasRow(s.records, id) {
      var q :| q in s.records.quarantine && s.records.quarantine[q].threatId == id;
      assert RowOk(dir, s, q);
      assert RowsFor(s.records, id) == {q};
    } else {
      assert RowsFor(s.records, id) == {};
    }
  }

  /** Every row is visible through the joins, its blob exists, and no two rows share one. */
  lemma RowsHaveOwnBlobs(dir: Path, s: State, p: nat, q: nat)
    requires Inv(dir, s) && p in s.records.quarantine && q in s.records.quarantine
    ensures s.records.GetQuarantine(p) == Some(s.records.quarantine[p])
    ensures s.records.quarantine[p].blobPath in s.files
    ensures s.records.quarantine[p].blobPath == s.records.quarantine[q].blobPath ==> p == q
  {
    assert RowOk(dir, s, p) && RowOk(dir, s, q);
    BlobPathInjective(dir, s.records.quarantine[p].threatId, s.records.quarantine[q].threatId);
  }

  /** From an empty database, over any files and with any number of threads: in every reachable state
      the invariant holds, and no row shows that was not put there by a recorded detection. */
  lemma ReachableKeeps(dir: Path, files: Files, n: nat, steps: seq<Step>)
    requires Legal(dir, Empty(files, n), steps)
    ensures Inv(dir, After(dir, Empty(files, n), steps))
    ensures forall q :: q in After(dir, Empty(files, n), steps).records.quarantine ==>
              After(dir, Empty(files, n), steps).records.GetQuarantine(q).Some?
  {
    RunKeeps(dir, Empty(files, n), steps);
    var s := After(dir, Empty(files, n), steps);
    forall q | q in s.records.quarantine
      ensures s.records.GetQuarantine(q).Some?
    {
      RowFileFacts(dir, s, q);
    }
  }

  ghost function Empty(files: Files, n: nat): State {
    State(NoRecords, files, seq(n, _ => NoToken), map[], map[])
  }

  /** Whatever happened in between, a restore that succeeds puts back the bytes the file had when it was
      moved away, with the permissions it had when `put` looked at it. */
  lemma RestoreGivesBack(dir: Path, s: State, id: nat)
    requires Inv(dir, s) && Enabled(dir, s, RestoreOk(id))
    ensures var row := s.records.quarantine[id];
            var s' := Apply(dir, s, RestoreOk(id));
            && row.threatId in s.vault && row.originalPath in s'.files
            && s'.files[row.originalPath].bytes == s.vault[row.threatId].bytes
            && row.threatId in s.seen
            && PermOf(s'.files[row.originalPath].mode) == PermOf(s.seen[row.threatId].mode)
            && s'.records.threats[row.threatId].status == Restored && RowsFor(s'.records, row.threatId) == {}
  {
    var row := s.records.quarantine[id];
    RowFileFacts(dir, s, id);
    BroughtBackTouches(s.files, row.blobPath, row.originalPath, row.originalMode);
    StepKeeps(dir, s, RestoreOk(id));
    QuarantinedIffOneRow(dir, Apply(dir, s, RestoreOk(id)), row.threatId);
  }

  predicate MovesTo(before: ThreatStatus, after: ThreatStatus) {
    before == after || (before == Detected && after == Quarantined)
    || (before == Quarantined && (after == Restored || after == Deleted))
  }

  predicate Precedes(before: ThreatStatus, after: ThreatStatus) {
    MovesTo(before, after) || (before == Detected && after != Detected)
  }

  /** One step moves a status along detected, quarantined, restored or deleted, and removes no threat. */
  lemma StatusStep(dir: Path, s: State, step: Step, id: nat)
    requires Inv(dir, s) && Enabled(dir, s, step) && id in s.records.threats
    ensures var r' := Apply(dir, s, step).records;
            && id in r'.threats && MovesTo(s.records.threats[id].status, r'.threats[id].status)
            && r'.threats[id].(status := s.records.threats[id].status) == s.records.threats[id]
  {
    hide PutFailure, RestoreFailure, SameInside, PutAway, BroughtBack, WithPerm, BlobPath;
    match step
    case Record(t) => assert TokenOk(dir, s, s.tokens[t]);
    case RestoreOk(q) => assert RowOk(dir, s, q);
    case DeleteOk(q) => assert RowOk(dir, s, q);
    case _ =>
  }

  /** Over any run the history is append-only and no status ever goes back. */
  lemma {:induction false} StatusRun(dir: Path, s: State, steps: seq<Step>, id: nat)
    requires Inv(dir, s) && Legal(dir, s, steps) && id in s.records.threats
    ensures var r' := After(dir, s, steps).records;
            && id in r'.threats && Precedes(s.records.threats[id].status, r'.threats[id].status)
            && r'.threats[id].(status := s.records.threats[id].status) == s.records.threats[id]
    decreases |steps|
  {
    if steps != [] {
      StepKeeps(dir, s, steps[0]);
      StatusStep(dir, s, steps[0], id);
      StatusRun(dir, Apply(dir, s, steps[0]), steps[1..], id);
    }
  }

  /** No thread holds the threat. */
  ghost predicate Unheld(s: State, id: nat) {
    forall i :: 0 <= i < |s.tokens| ==> TokenId(s.tokens[i]) != Some(id)
  }

  /** A detected threat nobody holds stays detected, never gets a quarantine row, and whatever its blob
      holds stays there: no handler can restore or delete it any more. */
  lemma {:induction false} DroppedForGood(dir: Path, s: State, steps: seq<Step>, id: nat)
    requires Inv(dir, s) && Legal(dir, s, steps)
    requires id in s.records.threats && s.records.threats[id].status == Detected && Unheld(s, id)
    ensures var s' := After(dir, s, steps); var blob := BlobPath(dir, id);
            && id in s'.records.threats && s'.records.threats[id].status == Detected
            && RowsFor(s'.records, id) == {}
            && (blob in s'.files <==> blob in s.files)
            && (blob in s.files ==> s'.files[blob].bytes == s.files[blob].bytes)
    decreases |steps|
  {
    hide Inv, Unheld;
    if steps == [] {
      QuarantinedIffOneRow(dir, s, id);
    } else {
      StepKeeps(dir, s, steps[0]);
      DroppedStep(dir, s, steps[0], id);
      DroppedBlob(dir, s, steps[0], id);
      DroppedForGood(dir, Apply(dir, s, steps[0]), steps[1..], id);
    }
  }

  /** Which failed puts strand a file, and what that means: when the move went through, the file is out of
      its place for good. Over every continuation its threat stays detected without a row, and its bytes lie
      in a blob no handler reaches. When the move did not, the file is still at its place. */
  lemma FailedPutFate(dir: Path, s: State, t: nat, after: Files, steps: seq<Step>)
    requires Inv(dir, s) && Enabled(dir, s, PutFails(t, after)) && s.tokens[t].path in s.files
    requires Legal(dir, Apply(dir, s, PutFails(t, after)), steps)
    ensures var id, path := s.tokens[t].threatId, s.tokens[t].path; var blob := BlobPath(dir, id);
            var s' := After(dir, Apply(dir, s, PutFails(t, after)), steps);
            && id in s'.records.threats && s'.records.threats[id].status == Detected && RowsFor(s'.records, id) == {}
            && (if path in after then after[path] == s.files[path]
                else blob in s'.files && s'.files[blob].bytes == s.files[path].bytes)
  {
    var k := s.tokens[t];
    var s1 := Apply(dir, s, PutFails(t, after));
    StepKeeps(dir, s, PutFails(t, after));
    assert TokenOk(dir, s, k);
    forall i | 0 <= i < |s1.tokens|
      ensures TokenId(s1.tokens[i]) != Some(k.threatId)
    {
      assert i != t ==> TokenId(s.tokens[i]) != TokenId(s.tokens[t]);
    }
    DroppedForGood(dir, s1, steps, k.threatId);
  }

  /** No step of anybody touches the blob of a threat that is detected and unheld. */
  lemma DroppedBlob(dir: Path, s: State, step: Step, id: nat)
    requires Inv(dir, s) && Enabled(dir, s, step)
    requires id in s.records.threats && s.records.threats[id].status == Detected && Unheld(s, id)
    ensures var s' := Apply(dir, s, step); var blob := BlobPath(dir, id);
            && (blob in s'.files <==> blob in s.files)
            && (blob in s.files ==> s'.files[blob].bytes == s.files[blob].bytes)
  {
    hide Unheld, PutFailure, RestoreFailure;
    var s' := Apply(dir, s, step);
    match step
    case PutOk(t) =>
      var k := s.tokens[t];
      HeldElsewhere(dir, s, t, id);
      BlobPathInjective(dir, k.threatId, k.threatId);
      PutAwayTouches(s.files, k.path, BlobPath(dir, k.threatId));
      BlobsApart(dir, s.files, s'.files, k.path, k.threatId);
    case PutFails(t, after) =>
      HeldElsewhere(dir, s, t, id);
      if s.tokens[t].Measured? {
        FailedTouches(s.files, after, s.tokens[t].path, BlobPath(dir, s.tokens[t].threatId));
        BlobsApart(dir, s.files, after, s.tokens[t].path, s.tokens[t].threatId);
      }
    case RestoreOk(q) =>
      RowElsewhere(dir, s, q, id);
      RestoreFiles(dir, s, q);
    case RestoreFails(q, after) =>
      RowElsewhere(dir, s, q, id);
      var row := s.records.quarantine[q];
      RestoreTouches(s.files, after, row.blobPath, row.originalPath);
      BlobsApart(dir, s.files, after, row.originalPath, row.threatId);
    case DeleteOk(q) =>
      RowElsewhere(dir, s, q, id);
      DeleteFiles(dir, s, q);
    case Outside(after) => InsideKept(dir, s.files, after, id);
    case _ =>
  }

  lemma FailedTouches(before: Files, after: Files, path: Path, blob: Path)
    requires PutFailure(before, after, path, blob)
    ensures Untouched(before, after, {path, blob})
  {
  }

  lemma RestoreTouches(before: Files, after: Files, blob: Path, original: Path)
    requires RestoreFailure(before, after, blob, original)
    ensures Untouched(before, after, {original, blob})
  {
    assert {original, blob} == {blob, original};
  }

  lemma HeldElsewhere(dir: Path, s: State, t: nat, id: nat)
    requires Inv(dir, s) && t < |s.tokens| && TokenId(s.tokens[t]).Some? && Unheld(s, id)
    ensures s.tokens[t].threatId != id && !(dir <= s.tokens[t].path)
  {
    assert TokenOk(dir, s, s.tokens[t]) && TokenId(s.tokens[t]) != Some(id);
  }

  lemma RowElsewhere(dir: Path, s: State, q: nat, id: nat)
    requires Inv(dir, s) && q in s.records.quarantine
    requires id in s.records.threats && s.records.threats[id].status == Detected
    ensures var row := s.records.quarantine[q];
            row.threatId != id && row.blobPath == BlobPath(dir, row.threatId) && !(dir <= row.originalPath)
  {
    assert RowOk(dir, s, q);
  }

  lemma DroppedStep(dir: Path, s: State, step: Step, id: nat)
    requires Inv(dir, s) && Enabled(dir, s, step)
    requires id in s.records.threats && s.records.threats[id].status == Detected && Unheld(s, id)
    ensures var s' := Apply(dir, s, step);
            id in s'.records.threats && s'.records.threats[id].status == Detected && Unheld(s', id)
  {
    hide Inv, Enabled, TokenId;
    StatusStep(dir, s, step, id);
    NotRecorded(dir, s, step, id);
    UnheldStays(dir, s, step, id);
  }

  /** Only the thread that holds a threat records its row. */
  lemma NotRecorded(dir: Path, s: State, step: Step, id: nat)
    requires Inv(dir, s) && Enabled(dir, s, step)
    requires id in s.records.threats && s.records.threats[id].status == Detected && Unheld(s, id)
    ensures Apply(dir, s, step).records.threats[id].status != Quarantined
  {
    hide PutFailure, RestoreFailure, SameInside, PutAway, BroughtBack, BlobPath;
    match step
    case Record(t) => assert TokenId(s.tokens[t]) != Some(id);
    case Detect(_, _, _, _) => assert s.records.nextThreat != id;
    case RestoreOk(q) => assert RowOk(dir, s, q);
    case DeleteOk(q) => assert RowOk(dir, s, q);
    case _ =>
  }

  /** Only a new detection gives a thread a threat to hold, and that one is new. */
  lemma UnheldStays(dir: Path, s: State, step: Step, id: nat)
    requires Inv(dir, s) && Enabled(dir, s, step) && id in s.records.threats && Unheld(s, id)
    ensures Unheld(Apply(dir, s, step), id)
  {
    hide PutFailure, RestoreFailure, SameInside, PutAway, BroughtBack, BlobPath;
    var s' := Apply(dir, s, step);
    forall i | 0 <= i < |s'.tokens|
      ensures TokenId(s'.tokens[i]) != Some(id)
    {
      assert TokenId(s.tokens[i]) != Some(id);
    }
  }

  // ------------------------------------------------------------------
  // The handlers and the detection path, as code

  datatype Reply = Success | NotFound | ServerError

  /** The part of the state that is not stored: what the threads hold, and history. */
  datatype Held = Held(tokens: seq<Token>, seen: map<nat, FileData>, vault: map<nat, FileData>)

  ghost function Rest(s: State): Held {
    Held(s.tokens, s.seen, s.vault)
  }

  /** What one detection adds to the tables: a history row under the next key, its status saying whether the
      file is in quarantine, and a quarantine row for it if it is. Everything else is as it was. */
  ghost predicate DetectionRows(before: Records, after: Records, scanId: nat, path: Path, signature: string,
                                row: Option<QuarantineRow>) {
    && after.scans == before.scans && after.nextScan == before.nextScan
    && after.nextThreat == before.nextThreat + 1
    && (var status := if row.Some? then Quarantined else Detected;
        after.threats == before.threats[before.nextThreat := ThreatRow(scanId, path, signature, status)])
    && after.nextQuarantine == before.nextQuarantine + (if row.Some? then 1 else 0)
    && after.quarantine ==
       if row.Some? then before.quarantine[before.nextQuarantine := row.value] else before.quarantine
  }

  /** What a restore or delete does to the tables: the row goes, the status of its threat is settled. */
  ghost predicate ItemResolved(before: Records, after: Records, id: nat, status: ThreatStatus)
    requires id in before.quarantine && before.quarantine[id].threatId in before.threats
  {
    var threat := before.quarantine[id].threatId;
    && after == before.(threats := after.threats, quarantine := after.quarantine)
    && after.quarantine == before.quarantine - {id}
    && after.threats == before.threats[threat := before.threats[threat].(status := status)]
  }

  lemma LeftInPlace(dir: Path, s: State, t: nat)
    requires t < |s.tokens| && s.tokens[t].Recorded?
    ensures Legal(dir, s, [LeaveInPlace(t)])
    ensures After(dir, s, [LeaveInPlace(t)]) == s.(tokens := s.tokens[t := NoToken])
  {
    OneStep(dir, s, LeaveInPlace(t));
  }

  /** The whole of a put that succeeds, with no other thread in between. */
  lemma PutThrough(dir: Path, s: State, t: nat)
    requires t < |s.tokens| && s.tokens[t].Recorded? && s.tokens[t].path in s.files
    ensures var id, path := s.tokens[t].threatId, s.tokens[t].path;
            var file, blob := s.files[path], BlobPath(dir, id);
            var row := QuarantineRow(id, path, blob, PermOf(file.mode), |file.bytes|);
            var steps := [Measure(t), PutOk(t), Record(t)];
            && Legal(dir, s, steps)
            && After(dir, s, steps) ==
               State(s.records.SetThreatStatus(id, Quarantined).InsertQuarantine(row), PutAway(s.files, path, blob),
                     s.tokens[t := NoToken], s.seen[id := file], s.vault[id := file])
  {
    hide Legal, After, PutAway;
    var s1 := Apply(dir, s, Measure(t));
    var s2 := Apply(dir, s1, PutOk(t));
    OneStep(dir, s2, Record(t));
    MoreSteps(dir, s1, PutOk(t), [Record(t)]);
    MoreSteps(dir, s, Measure(t), [PutOk(t), Record(t)]);
    assert [Measure(t)] + [PutOk(t), Record(t)] == [Measure(t), PutOk(t), Record(t)];
    assert [PutOk(t)] + [Record(t)] == [PutOk(t), Record(t)];
    assert Apply(dir, s2, Record(t)).tokens == s.tokens[t := NoToken];
  }

  /** The whole of a put that fails, before or after it has looked at the file. */
  lemma PutRefused(dir: Path, s: State, t: nat, after: Files, looks: bool)
    requires t < |s.tokens| && s.tokens[t].Recorded?
    requires if looks then s.tokens[t].path in s.files else after == s.files
    requires PutFailure(s.files, after, s.tokens[t].path, BlobPath(dir, s.tokens[t].threatId))
    ensures var id := s.tokens[t].threatId;
            var steps := if looks then [Measure(t), PutFails(t, after)] else [PutFails(t, after)];
            && Legal(dir, s, steps)
            && After(dir, s, steps) ==
               s.(files := after, tokens := s.tokens[t := NoToken],
                  seen := if looks then s.seen[id := s.files[s.tokens[t].path]] else s.seen)
  {
    hide Legal, After, PutFailure;
    if looks {
      var s1 := Apply(dir, s, Measure(t));
      OneStep(dir, s1, PutFails(t, after));
      MoreSteps(dir, s, Measure(t), [PutFails(t, after)]);
      assert [Measure(t)] + [PutFails(t, after)] == [Measure(t), PutFails(t, after)];
      assert Apply(dir, s1, PutFails(t, after)).tokens == s.tokens[t := NoToken];
    } else {
      OneStep(dir, s, PutFails(t, after));
    }
  }

  class Daemon {
    const db: Db
    const quarantine: Quarantine

    constructor (db: Db, quarantine: Quarantine)
      ensures this.db == db && this.quarantine == quarantine
    {
      this.db, this.quarantine := db, quarantine;
    }

    ghost function View(held: Held): State
      reads this, db, quarantine.disk
    {
      State(db.records, quarantine.disk.files, held.tokens, held.seen, held.vault)
    }

    /** QUARANTINE_RESTORE, under the database lock throughout: one step of the machine, or a refusal. */
    method RestoreItem(id: nat, ghost held: Held) returns (r: Reply)
      requires Inv(quarantine.dir, View(held))
      modifies db`records, quarantine.disk
      ensures r == NotFound <==> id !in old(db.records).quarantine
      ensures r == NotFound ==> View(held) == old(View(held))
      ensures r == Success ==>
                && Enabled(quarantine.dir, old(View(held)), RestoreOk(id))
                && View(held) == Apply(quarantine.dir, old(View(held)), RestoreOk(id))
      ensures r == ServerError ==>
                && Enabled(quarantine.dir, old(View(held)), RestoreFails(id, quarantine.disk.files))
                && View(held) == Apply(quarantine.dir, old(View(held)), RestoreFails(id, quarantine.disk.files))
      ensures r == Success <==>
                id in old(db.records).quarantine && RestoreDone(quarantine.disk.faults, old(quarantine.disk.clock))
      // On success the row is gone, the file is back; otherwise the tables are as they were and the blob is whole.
      ensures r != Success ==> db.records == old(db.records)
      ensures r == Success ==>
                && old(db.records).quarantine[id].threatId in old(db.records).threats
                && ItemResolved(old(db.records), db.records, id, Restored)
    {
      hide Inv, RowOk;
      var found := db.records.GetQuarantine(id);
      if id in db.records.quarantine {
        RowFileFacts(quarantine.dir, View(held), id);
        BlobThere(quarantine.dir, View(held), id);
      }
      if found.None? {
        return NotFound;
      }
      var row := found.value;
      var restored := quarantine.Restore(row.blobPath, row.originalPath, row.originalMode);
      if !restored {
        return ServerError;
      }
      db.SetThreatStatus(row.threatId, Restored);
      db.DeleteQuarantine(id);
      return Success;
    }

    /** QUARANTINE_DELETE, likewise. */
    method DeleteItem(id: nat, ghost held: Held) returns (r: Reply)
      requires Inv(quarantine.dir, View(held))
      modifies db`records, quarantine.disk
      ensures r == NotFound <==> id !in old(db.records).quarantine
      ensures r == Success ==>
                && Enabled(quarantine.dir, old(View(held)), DeleteOk(id))
                && View(held) == Apply(quarantine.dir, old(View(held)), DeleteOk(id))
      ensures r != Success ==> View(held) == old(View(held))
      ensures r == Success <==>
                id in old(db.records).quarantine && quarantine.disk.faults(old(quarantine.disk.clock)) == NoFault
      ensures r == Success ==>
                && old(db.records).quarantine[id].threatId in old(db.records).threats
                && ItemResolved(old(db.records), db.records, id, Deleted)
                && quarantine.disk.files == old(quarantine.disk.files) - {old(db.records).quarantine[id].blobPath}
    {
      hide Inv, RowOk;
      var found := db.records.GetQuarantine(id);
      if id in db.records.quarantine {
        RowFileFacts(quarantine.dir, View(held), id);
        BlobThere(quarantine.dir, View(held), id);
      }
      if found.None? {
        return NotFound;
      }
      var row := found.value;
      var deleted := quarantine.Delete(row.blobPath);
      if !deleted {
        return ServerError;
      }
      db.SetThreatStatus(row.threatId, Deleted);
      db.DeleteQuarantine(id);
      return Success;
    }

    /** What both detection paths do once the history row is written: leave the file alone, or put it away
        and record the row. The fate of the file is known from the operations that were refused. */
    method Settle(threatId: nat, path: Path, autoQuarantine: bool, ghost t: nat, ghost held: Held)
      returns (r: Option<PutResult>, ghost steps: seq<Step>)
      requires Inv(quarantine.dir, View(held))
      requires t < |held.tokens| && held.tokens[t] == Recorded(threatId, path) && !(quarantine.dir <= path)
      modifies db`records, quarantine.disk
      ensures Legal(quarantine.dir, old(View(held)), steps)
      ensures var s' := After(quarantine.dir, old(View(held)), steps);
              s' == View(Rest(s')) && s'.tokens == held.tokens[t := NoToken]
      ensures r.Some? <==> autoQuarantine
      ensures r.None? ==> steps == [LeaveInPlace(t)]
      ensures r.None? ==> db.records == old(db.records) && quarantine.disk.files == old(quarantine.disk.files)
      ensures r == Some(PutError) ==> db.records == old(db.records)
      ensures r == Some(PutError) ==>
                || steps == [PutFails(t, quarantine.disk.files)]
                || steps == [Measure(t), PutFails(t, quarantine.disk.files)]
      ensures r == Some(PutError) && path in old(quarantine.disk.files) ==>
                (path !in quarantine.disk.files <==> PutMoves(quarantine.disk.faults, old(quarantine.disk.clock)))
      ensures r.Some? && r.value.Stored? && path in old(quarantine.disk.files) ==>
                var file := old(quarantine.disk.files)[path];
                r.value == Stored(BlobPath(quarantine.dir, threatId), |file.bytes|, PermOf(file.mode))
      ensures r.Some? && r.value.Stored? ==>
                && steps == [Measure(t), PutOk(t), Record(t)] && path !in quarantine.disk.files
                && var row := QuarantineRow(threatId, path, r.value.blobPath, r.value.originalMode, r.value.size);
                   db.records == old(db.records).SetThreatStatus(threatId, Quarantined).InsertQuarantine(row)
      ensures autoQuarantine ==>
                (r.value.Stored? <==>
                   && path in old(quarantine.disk.files)
                   && PutSucceeds(quarantine.disk.faults, old(quarantine.disk.clock)))
    {
      hide Inv, Legal, After, Enabled, Apply, Untouched;
      ghost var dir := quarantine.dir;
      ghost var s0 := View(held);
      if !autoQuarantine {
        steps := [LeaveInPlace(t)];
        LeftInPlace(dir, s0, t);
        return None, steps;
      }
      ghost var looks := path in quarantine.disk.files && quarantine.disk.faults(quarantine.disk.clock) == NoFault;
      var put := quarantine.Put(threatId, path);
      r := Some(put);
      if put.Stored? {
        db.SetThreatStatus(threatId, Quarantined);
        db.InsertQuarantine(QuarantineRow(threatId, path, put.blobPath, put.originalMode, put.size));
        steps := [Measure(t), PutOk(t), Record(t)];
        PutThrough(dir, s0, t);
        BlobPathInjective(dir, threatId, threatId);
      } else {
        ghost var fails := PutFails(t, quarantine.disk.files);
        steps := if looks then [Measure(t), fails] else [fails];
        PutRefused(dir, s0, t, quarantine.disk.files, looks);
      }
    }

    /** `handle_detection`: nothing for a file that is gone; else record, put away, record the row,
        each part one step of the machine. */
    method HandleDetection(scanId: nat, path: Path, signature: string, autoQuarantine: bool,
                           ghost t: nat, ghost held: Held)
      returns (quarantined: bool, ghost steps: seq<Step>)
      requires Inv(quarantine.dir, View(held))
      requires t < |held.tokens| && held.tokens[t].NoToken? && scanId in db.records.scans && !(quarantine.dir <= path)
      modifies db`records, quarantine.disk
      ensures Legal(quarantine.dir, old(View(held)), steps)
      ensures var s' := After(quarantine.dir, old(View(held)), steps);
              s' == View(Rest(s')) && s'.tokens == held.tokens && Inv(quarantine.dir, s')
      ensures quarantined ==>
                steps == [Detect(t, scanId, path, signature), Measure(t), PutOk(t), Record(t)]
      // One look at the file, then the put: exactly when the file ends up quarantined, and where it is if not.
      ensures var faults, c := quarantine.disk.faults, old(quarantine.disk.clock) + 1;
              var seen := path in old(quarantine.disk.files) && faults(c - 1) == NoFault;
              && (!seen ==> steps == [] && quarantine.disk.files == old(quarantine.disk.files))
              && (quarantined <==> seen && autoQuarantine && PutSucceeds(faults, c))
              && (seen && autoQuarantine && !quarantined ==>
                    && |steps| > 1 && steps[|steps| - 1] == PutFails(t, quarantine.disk.files)
                    && (path !in quarantine.disk.files <==> PutMoves(faults, c)))
      ensures autoQuarantine && path in old(quarantine.disk.files) && old(quarantine.disk.Healthy(4)) ==> quarantined
      // The tables: one history row for every file seen, whatever the setting; a quarantine row if it was put away.
      ensures path !in old(quarantine.disk.files) || quarantine.disk.faults(old(quarantine.disk.clock)) != NoFault ==>
                db.records == old(db.records)
      ensures path in old(quarantine.disk.files) && quarantine.disk.faults(old(quarantine.disk.clock)) == NoFault ==>
                var id, file := old(db.records).nextThreat, old(quarantine.disk.files)[path];
                var row := QuarantineRow(id, path, BlobPath(quarantine.dir, id), PermOf(file.mode), |file.bytes|);
                DetectionRows(old(db.records), db.records, scanId, path, signature,
                              if quarantined then Some(row) else None)
    {
      hide Inv, Legal, After;
      ghost var dir := quarantine.dir;
      ghost var s0 := View(held);
      ghost var detect := Detect(t, scanId, path, signature);
      var metadata := quarantine.disk.Stat(path);
      if metadata.None? {
        quarantined := false;
        steps := [];
        NoSteps(dir, s0);
        return;
      }
      var threatId := db.InsertThreat(scanId, path, signature);
      ghost var s1 := Apply(dir, s0, detect);
      StepKeeps(dir, s0, detect);
      ghost var rest;
      var put;
      put, rest := Settle(threatId, path, autoQuarantine, t, Rest(s1));
      quarantined := put.Some? && put.value.Stored?;
      steps := [detect] + rest;
      MoreSteps(dir, s0, detect, rest);
      RunKeeps(dir, s0, steps);
      assert s1.tokens[t := NoToken] == held.tokens;
    }

    /** The same part of an on-demand scan: no look beforehand, and a put that fails sets the status again.
        The tables change exactly as the scan job has it, for the outcome the put had. */
    method RecordInfected(scanId: nat, path: Path, signature: string, autoQuarantine: bool,
                          ghost t: nat, ghost held: Held)
      returns (ghost put: Scanner.Put, ghost steps: seq<Step>)
      requires Inv(quarantine.dir, View(held))
      requires t < |held.tokens| && held.tokens[t].NoToken? && scanId in db.records.scans && !(quarantine.dir <= path)
      modifies db`records, quarantine.disk
      ensures Legal(quarantine.dir, old(View(held)), steps)
      ensures var s' := After(quarantine.dir, old(View(held)), steps);
              s' == View(Rest(s')) && s'.tokens == held.tokens && Inv(quarantine.dir, s')
      ensures db.records == Scanner.InfectedRecords(old(db.records), scanId, path, signature, autoQuarantine, put)
      ensures path in old(quarantine.disk.files) ==>
                var id, file := old(db.records).nextThreat, old(quarantine.disk.files)[path];
                var row := QuarantineRow(id, path, BlobPath(quarantine.dir, id), PermOf(file.mode), |file.bytes|);
                DetectionRows(old(db.records), db.records, scanId, path, signature,
                              if put.Moved? then Some(row) else None)
      ensures path !in old(quarantine.disk.files) ==>
                !put.Moved? && DetectionRows(old(db.records), db.records, scanId, path, signature, None)
      ensures !autoQuarantine ==> !put.Moved? && quarantine.disk.files == old(quarantine.disk.files)
      ensures autoQuarantine ==> (Scanner.TookAway(put) <==> path !in quarantine.disk.files)
      ensures autoQuarantine && path in old(quarantine.disk.files) ==>
                var c := old(quarantine.disk.clock);
                && (Scanner.TookAway(put) <==> PutMoves(quarantine.disk.faults, c))
                && (put.Moved? <==> PutSucceeds(quarantine.disk.faults, c))
    {
      hide Inv, Legal, After;
      ghost var dir := quarantine.dir;
      ghost var s0 := View(held);
      ghost var detect := Detect(t, scanId, path, signature);
      var threatId := db.InsertThreat(scanId, path, signature);
      ghost var s1 := Apply(dir, s0, detect);
      StepKeeps(dir, s0, detect);
      ghost var rest;
      var r;
      r, rest := Settle(threatId, path, autoQuarantine, t, Rest(s1));
      steps := [detect] + rest;
      MoreSteps(dir, s0, detect, rest);
      RunKeeps(dir, s0, steps);
      assert s1.tokens[t := NoToken] == held.tokens;
      put := Scanner.PutFailed(path !in quarantine.disk.files);
      if r.Some? {
        match r.value {
          case Stored(blobPath, size, mode) => put := Scanner.Moved(blobPath, mode, size);
          case PutError =>
            db.SetThreatStatus(threatId, Detected);
            assert db.records == s1.records;
        }
      }
    }
  }

  lemma BlobThere(dir: Path, s: State, id: nat)
    requires Inv(dir, s) && id in s.records.quarantine
    ensures s.records.quarantine[id].blobPath in s.files
  {
    RowFileFacts(dir, s, id);
  }

  lemma NoSteps(dir: Path, s: State)
    ensures Legal(dir, s, []) && After(dir, s, []) == s
  {
  }

  lemma OneStep(dir: Path, s: State, step: Step)
    requires Enabled(dir, s, step)
    ensures Legal(dir, s, [step]) && After(dir, s, [step]) == Apply(dir, s, step)
  {
    assert [step][1..] == [];
  }

  lemma MoreSteps(dir: Path, s: State, step: Step, rest: seq<Step>)
    requires Enabled(dir, s, step) && Legal(dir, Apply(dir, s, step), rest)
    ensures Legal(dir, s, [step] + rest) && After(dir, s, [step] + rest) == After(dir, Apply(dir, s, step), rest)
  {
    assert ([step] + rest)[1..] == rest;
  }
}
