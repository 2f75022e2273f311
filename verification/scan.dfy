/** One on-demand scan: the counting pass, the scanning pass, its counters, cancellation and history row. */
module Scanner {
  import opened Base
  import opened Database
  import opened Exclusions
  import opened Walker

  const PROGRESS_EVERY: nat := 100

  /** What the engine says of one file; `Lost` is a dead connection. */
  datatype Verdict = Clean | Infected(signature: string) | EngineError | Skipped | Lost

  /** `put` either moved the file away, or failed before moving it, or failed after. */
  datatype Put = Moved(blobPath: Path, originalMode: nat, size: nat) | PutFailed(moved: bool)

  /** Everything the outside world decides while one file is in flight. */
  datatype FileEvent =
    FileEvent(verdict: Verdict, detectionSent: bool, put: Put, progressSent: bool, cancelRequested: bool)

  datatype ScanResult =
    | Finished(scanId: nat, filesScanned: nat, threatsFound: nat, quarantined: nat, skipped: nat, cancelled: bool)
    | ConnectionLost(scanId: nat, filesScanned: nat, threatsFound: nat)

  /** The cancel flag is raised while this file is in flight: by a request, or because the client is gone. */
  predicate Raises(e: FileEvent, filesScanned: nat, filesTotal: nat) {
    || e.cancelRequested
    || (e.verdict.Infected? && !e.detectionSent)
    || ((filesScanned % PROGRESS_EVERY == 0 || filesScanned == filesTotal) && !e.progressSent)
  }

  lemma RaisesMeans(e: FileEvent, filesScanned: nat, filesTotal: nat)
    ensures Raises(e, filesScanned, filesTotal) <==>
              || e.cancelRequested
              || (e.verdict.Infected? && !e.detectionSent)
              || (!e.progressSent && (filesScanned % PROGRESS_EVERY == 0 || filesScanned == filesTotal))
  {
  }

  method CountFiles(fs: Fs, roots: seq<Path>, policy: Policy) returns (total: nat)
    ensures total == |VisitStack(fs, policy, roots)|
  {
    var walker := new FileWalker(roots, policy);
    total := 0;
    while true
      invariant fresh(walker) && walker.policy == policy
      invariant total + |VisitStack(fs, policy, walker.stack)| == |VisitStack(fs, policy, roots)|
      decreases CostStack(fs, policy, walker.stack)
    {
      var entry := walker.Next(fs);
      if entry.None? {
        return;
      }
      total := total + 1;
    }
  }

  /** The rows this scan has written so far add up with its counters. */
  ghost predicate Accounted(r: Records, scanId: nat, filesScanned: nat, threatsFound: nat, quarantined: nat,
                            skipped: nat) {
    && r.Valid() && scanId in r.scans
    && |r.ThreatsOf(scanId)| == threatsFound
    && |r.RowsOf(scanId)| == quarantined
    && quarantined <= threatsFound && threatsFound + skipped <= filesScanned
  }

  lemma AfterThreat(r: Records, scanId: nat, path: Path, signature: string,
                    n: nat, found: nat, quarantined: nat, skipped: nat)
    requires Accounted(r, scanId, n, found, quarantined, skipped)
    ensures Accounted(r.InsertThreat(scanId, path, signature), scanId, n + 1, found + 1, quarantined, skipped)
    ensures quarantined <= found
  {
    InsertThreatKeeps(r, scanId, path, signature);
  }

  lemma AfterStatus(r: Records, scanId: nat, id: nat, status: ThreatStatus,
                    n: nat, found: nat, quarantined: nat, skipped: nat)
    requires Accounted(r, scanId, n, found, quarantined, skipped)
    ensures Accounted(r.SetThreatStatus(id, status), scanId, n, found, quarantined, skipped)
  {
    SetThreatStatusKeeps(r, id, status, scanId);
  }

  lemma AfterRow(r: Records, scanId: nat, row: QuarantineRow, n: nat, found: nat, quarantined: nat, skipped: nat)
    requires Accounted(r, scanId, n, found, quarantined, skipped) && quarantined < found
    requires row.threatId in r.threats && r.threats[row.threatId].scanId == scanId
    ensures Accounted(r.SetThreatStatus(row.threatId, Quarantined).InsertQuarantine(row),
                      scanId, n, found, quarantined + 1, skipped)
  {
    SetThreatStatusKeeps(r, row.threatId, Quarantined, scanId);
    InsertQuarantineKeeps(r.SetThreatStatus(row.threatId, Quarantined), row);
  }

  /** What one infected file adds to the tables. */
  function InfectedRecords(r: Records, scanId: nat, entry: Path, signature: string, autoQuarantine: bool, put: Put):
    Records
  {
    var added := r.InsertThreat(scanId, entry, signature);
    if !autoQuarantine then added
    else
      match put
      case Moved(blobPath, mode, size) =>
        added.SetThreatStatus(r.nextThreat, Quarantined)
        .InsertQuarantine(QuarantineRow(r.nextThreat, entry, blobPath, mode, size))
      case PutFailed(_) => added.SetThreatStatus(r.nextThreat, Detected)
  }

  /** The put got the file out of its place, whether or not it then succeeded. */
  predicate TookAway(put: Put) {
    put.Moved? || put.moved
  }

  lemma InfectedRecordsMean(r: Records, scanId: nat, entry: Path, signature: string, autoQuarantine: bool, put: Put)
    requires r.Valid()
    ensures var r' := InfectedRecords(r, scanId, entry, signature, autoQuarantine, put);
            var away := autoQuarantine && put.Moved?;
            && r'.scans == r.scans && r'.nextScan == r.nextScan && r'.nextThreat == r.nextThreat + 1
            && r'.threats ==
               r.threats[r.nextThreat := ThreatRow(scanId, entry, signature, if away then Quarantined else Detected)]
            && r'.nextQuarantine == r.nextQuarantine + (if away then 1 else 0)
            && r'.quarantine ==
               (if away
                then r.quarantine[r.nextQuarantine :=
                                    QuarantineRow(r.nextThreat, entry, put.blobPath, put.originalMode, put.size)]
                else r.quarantine)
  {
  }

  class ScanJob {
    const db: Db
    const policy: Policy
    const autoQuarantine: bool
    const scanId: nat
    var fs: Fs
    var filesScanned: nat
    var threatsFound: nat
    var quarantined: nat
    var skipped: nat

    constructor (db: Db, policy: Policy, autoQuarantine: bool, fs: Fs, scanId: nat)
      requires db.records.Valid() && scanId in db.records.scans
      requires db.records.ThreatsOf(scanId) == db.records.RowsOf(scanId) == {}
      ensures this.db == db && this.policy == policy && this.fs == fs && this.scanId == scanId
      ensures this.autoQuarantine == autoQuarantine
      ensures filesScanned == threatsFound == 0 && Consistent(0)
    {
      this.db, this.policy, this.autoQuarantine, this.fs, this.scanId := db, policy, autoQuarantine, fs, scanId;
      filesScanned, threatsFound, quarantined, skipped := 0, 0, 0, 0;
    }

    ghost function Standing(): Tally
      reads this, db
    {
      Tally(db.records, fs, threatsFound, quarantined, skipped)
    }

    /** The books balance; `inFlight` is 1 while a file is being dealt with and not yet counted. */
    ghost predicate Consistent(inFlight: nat)
      reads this, db
    {
      Accounted(db.records, scanId, filesScanned + inFlight, threatsFound, quarantined, skipped)
    }

    /** An infected file: the history row first, then the file, then the quarantine row. */
    method Infected(entry: Path, signature: string, put: Put)
      requires Consistent(0) && entry in fs && fs[entry].File?
      modifies this`threatsFound, this`quarantined, this`fs, db`records
      ensures Consistent(1)
      ensures threatsFound == old(threatsFound) + 1
      ensures quarantined == old(quarantined) + if autoQuarantine && put.Moved? then 1 else 0
      ensures db.records == InfectedRecords(old(db.records), scanId, entry, signature, autoQuarantine, put)
      ensures fs == if autoQuarantine && TookAway(put) then old(fs) - {entry} else old(fs)
    {
      hide Accounted;
      AfterThreat(db.records, scanId, entry, signature, filesScanned, threatsFound, quarantined, skipped);
      threatsFound := threatsFound + 1;
      var threatId := db.InsertThreat(scanId, entry, signature);
      if autoQuarantine {
        match put {
          case Moved(blobPath, originalMode, size) =>
            fs := fs - {entry};
            var row := QuarantineRow(threatId, entry, blobPath, originalMode, size);
            AfterRow(db.records, scanId, row, filesScanned + 1, threatsFound, quarantined, skipped);
            db.SetThreatStatus(threatId, Quarantined);
            db.InsertQuarantine(row);
            quarantined := quarantined + 1;
          case PutFailed(moved) =>
            if moved {
              fs := fs - {entry};
            }
            AfterStatus(db.records, scanId, threatId, Detected, filesScanned + 1, threatsFound, quarantined, skipped);
            db.SetThreatStatus(threatId, Detected);
        }
      }
    }

    /** One turn of the scan loop: the verdict, the counters, the progress message, the cancel flag. */
    method File(entry: Path, e: FileEvent, filesTotal: nat) returns (lost: bool, cancel: bool)
      requires Consistent(0) && entry in fs && fs[entry].File?
      modifies this, db`records
      ensures Consistent(0) && (lost <==> e.verdict == Lost)
      // What the verdict leads to: rows, file and counters.
      ensures TallyStep(old(Standing()), Standing(), scanId, entry, e, autoQuarantine)
      ensures filesScanned == old(filesScanned) + if lost then 0 else 1
      ensures db.records.scans == old(db.records).scans
      // The flag: a request, a client that is gone, a progress message that could not be sent.
      ensures !lost ==>
                (cancel <==>
                   || e.cancelRequested
                   || (e.verdict.Infected? && !e.detectionSent)
                   || (!e.progressSent && (filesScanned % PROGRESS_EVERY == 0 || filesScanned == filesTotal)))
    {
      lost, cancel := false, false;
      match e.verdict {
        case Infected(signature) =>
          if !e.detectionSent {
            cancel := true;
          }
          Infected(entry, signature, e.put);
        case Skipped =>
          skipped := skipped + 1;
        case Lost =>
          return true, false;
        case Clean =>
        case EngineError =>
      }
      filesScanned := filesScanned + 1;
      if filesScanned % PROGRESS_EVERY == 0 || filesScanned == filesTotal {
        if !e.progressSent {
          cancel := true;
        }
      }
      if e.cancelRequested {
        cancel := true;
      }
    }
  }

  ghost predicate RaisedBefore(events: nat -> FileEvent, n: nat, filesTotal: nat) {
    exists k: nat :: k < n && Raises(events(k), k + 1, filesTotal)
  }

  lemma RaisedStep(events: nat -> FileEvent, n: nat, filesTotal: nat)
    ensures !RaisedBefore(events, 0, filesTotal)
    ensures RaisedBefore(events, n + 1, filesTotal) <==>
              RaisedBefore(events, n, filesTotal) || Raises(events(n), n + 1, filesTotal)
  {
    if k: nat :| k < n && Raises(events(k), k + 1, filesTotal) {
      assert k < n + 1;
    }
  }

  lemma RaisedLimits(events: nat -> FileEvent, n: nat, filesTotal: nat)
    requires n > 0 ==> !RaisedBefore(events, n - 1, filesTotal)
    ensures forall k: nat :: Raises(events(k), k + 1, filesTotal) ==> n <= k + 1
    ensures RaisedBefore(events, n, filesTotal) <==> exists k: nat :: k < n && Raises(events(k), k + 1, filesTotal)
  {
  }

  // ------------------------------------------------------------------
  // What a scan leaves behind, file by file

  function Infections(events: nat -> FileEvent, n: nat): nat {
    if n == 0 then 0 else Infections(events, n - 1) + if events(n - 1).verdict.Infected? then 1 else 0
  }

  function Skips(events: nat -> FileEvent, n: nat): nat {
    if n == 0 then 0 else Skips(events, n - 1) + if events(n - 1).verdict.Skipped? then 1 else 0
  }

  /** The put of an infected file succeeds. */
  predicate Succeeds(e: FileEvent) {
    e.verdict.Infected? && e.put.Moved?
  }

  function Successes(events: nat -> FileEvent, n: nat): nat {
    if n == 0 then 0 else Successes(events, n - 1) + if Succeeds(events(n - 1)) then 1 else 0
  }

  function Quarantines(events: nat -> FileEvent, n: nat, autoQuarantine: bool): nat {
    if autoQuarantine then Successes(events, n) else 0
  }

  lemma CountsStep(events: nat -> FileEvent, n: nat, autoQuarantine: bool)
    ensures Infections(events, 0) == Skips(events, 0) == Quarantines(events, 0, autoQuarantine) == 0
    ensures Infections(events, n + 1) == Infections(events, n) + if events(n).verdict.Infected? then 1 else 0
    ensures Skips(events, n + 1) == Skips(events, n) + if events(n).verdict.Skipped? then 1 else 0
    ensures Quarantines(events, n + 1, autoQuarantine) ==
            Quarantines(events, n, autoQuarantine)
            + if autoQuarantine && events(n).verdict.Infected? && events(n).put.Moved? then 1 else 0
  {
  }

  /** The history row of an infected file. */
  function ThreatRowFor(scanId: nat, path: Path, e: FileEvent, autoQuarantine: bool): ThreatRow
    requires e.verdict.Infected?
  {
    ThreatRow(scanId, path, e.verdict.signature, if autoQuarantine && e.put.Moved? then Quarantined else Detected)
  }

  /** The quarantine row of a file that was put away. */
  function RowFor(threatId: nat, path: Path, e: FileEvent): QuarantineRow
    requires Succeeds(e)
  {
    QuarantineRow(threatId, path, e.put.blobPath, e.put.originalMode, e.put.size)
  }

  /** The k-th visited file has its own threat row, numbered in the order of the infected files. */
  ghost predicate ThreatWritten(before: Records, after: Records, scanId: nat, visited: seq<Path>,
                                events: nat -> FileEvent, autoQuarantine: bool, k: nat)
    requires k < |visited| && events(k).verdict.Infected?
  {
    var id := before.nextThreat + Infections(events, k);
    id in after.threats && after.threats[id] == ThreatRowFor(scanId, visited[k], events(k), autoQuarantine)
  }

  /** And its own quarantine row, if it was put away. */
  ghost predicate RowWritten(before: Records, after: Records, visited: seq<Path>, events: nat -> FileEvent, k: nat)
    requires k < |visited| && Succeeds(events(k))
  {
    var q := before.nextQuarantine + Successes(events, k);
    && q in after.quarantine
    && after.quarantine[q] == RowFor(before.nextThreat + Infections(events, k), visited[k], events(k))
  }

  /** A table has been appended to: `n` new keys, and every old row is as it was. */
  ghost predicate Appended<Row(!new)>(before: map<nat, Row>, after: map<nat, Row>, next: nat, n: nat) {
    && (forall id :: id in after <==> id in before || next <= id < next + n)
    && (forall id :: id in before ==> after[id] == before[id])
  }

  ghost predicate ThreatsWritten(before: Records, after: Records, scanId: nat, visited: seq<Path>,
                                 events: nat -> FileEvent, autoQuarantine: bool) {
    forall k: nat :: k < |visited| && events(k).verdict.Infected? ==>
      ThreatWritten(before, after, scanId, visited, events, autoQuarantine, k)
  }

  ghost predicate RowsWritten(before: Records, after: Records, visited: seq<Path>,
                              events: nat -> FileEvent, autoQuarantine: bool) {
    forall k: nat :: k < |visited| && autoQuarantine && Succeeds(events(k)) ==>
      RowWritten(before, after, visited, events, k)
  }

  /** The rows a scan has written for the files it visited: these, and no others. */
  ghost predicate Written(before: Records, after: Records, scanId: nat, visited: seq<Path>,
                          events: nat -> FileEvent, autoQuarantine: bool) {
    var threats, rows := Infections(events, |visited|), Quarantines(events, |visited|, autoQuarantine);
    && after.nextThreat == before.nextThreat + threats && after.nextQuarantine == before.nextQuarantine + rows
    && Appended(before.threats, after.threats, before.nextThreat, threats)
    && Appended(before.quarantine, after.quarantine, before.nextQuarantine, rows)
    && ThreatsWritten(before, after, scanId, visited, events, autoQuarantine)
    && RowsWritten(before, after, visited, events, autoQuarantine)
  }

  lemma {:induction false} InfectionsGrow(events: nat -> FileEvent, k: nat, n: nat)
    requires k < n
    ensures Infections(events, k) <= Infections(events, n) && Successes(events, k) <= Successes(events, n)
    ensures events(k).verdict.Infected? ==> Infections(events, k) < Infections(events, n)
    ensures Succeeds(events(k)) ==> Successes(events, k) < Successes(events, n)
  {
    if k < n - 1 {
      InfectionsGrow(events, k, n - 1);
    }
  }

  lemma NothingWritten(r: Records, scanId: nat, events: nat -> FileEvent, autoQuarantine: bool)
    requires r.Valid()
    ensures Written(r, r, scanId, [], events, autoQuarantine)
  {
  }

  lemma AppendedMore<Row(!new)>(before: map<nat, Row>, r: map<nat, Row>, next: nat, n: nat, row: Row)
    requires Appended(before, r, next, n) && forall id :: id in before ==> id < next
    ensures Appended(before, r[next + n := row], next, n + 1)
  {
  }

  /** A threat row written before is still there after one more file. */
  lemma ThreatKept(before: Records, r: Records, r': Records, scanId: nat, visited: seq<Path>, entry: Path,
                   events: nat -> FileEvent, autoQuarantine: bool, k: nat, row: ThreatRow)
    requires k < |visited| && events(k).verdict.Infected?
    requires ThreatWritten(before, r, scanId, visited, events, autoQuarantine, k)
    requires r.nextThreat == before.nextThreat + Infections(events, |visited|)
    requires r'.threats == r.threats[r.nextThreat := row] || r'.threats == r.threats
    ensures ThreatWritten(before, r', scanId, visited + [entry], events, autoQuarantine, k)
  {
    hide Infections;
    InfectionsGrow(events, k, |visited|);
    assert (visited + [entry])[k] == visited[k];
  }

  lemma ThreatsMore(before: Records, r: Records, r': Records, scanId: nat, visited: seq<Path>, entry: Path,
                    events: nat -> FileEvent, autoQuarantine: bool)
    requires ThreatsWritten(before, r, scanId, visited, events, autoQuarantine)
    requires r.nextThreat == before.nextThreat + Infections(events, |visited|)
    requires var e := events(|visited|);
             if e.verdict.Infected? then
               r'.threats == r.threats[r.nextThreat := ThreatRowFor(scanId, entry, e, autoQuarantine)]
             else r'.threats == r.threats
    ensures ThreatsWritten(before, r', scanId, visited + [entry], events, autoQuarantine)
  {
    hide Infections, ThreatWritten;
    var n, e := |visited|, events(|visited|);
    forall k: nat | k < n + 1 && events(k).verdict.Infected?
      ensures ThreatWritten(before, r', scanId, visited + [entry], events, autoQuarantine, k)
    {
      if k < n {
        assert ThreatWritten(before, r, scanId, visited, events, autoQuarantine, k);
        ThreatKept(before, r, r', scanId, visited, entry, events, autoQuarantine, k,
                   if e.verdict.Infected? then ThreatRowFor(scanId, entry, e, autoQuarantine)
                   else ThreatRow(0, [], "", Detected));
      } else {
        ThreatAdded(before, r, r', scanId, visited, entry, events, autoQuarantine);
      }
    }
  }

  lemma ThreatAdded(before: Records, r: Records, r': Records, scanId: nat, visited: seq<Path>, entry: Path,
                    events: nat -> FileEvent, autoQuarantine: bool)
    requires r.nextThreat == before.nextThreat + Infections(events, |visited|)
    requires events(|visited|).verdict.Infected?
    requires r'.threats == r.threats[r.nextThreat := ThreatRowFor(scanId, entry, events(|visited|), autoQuarantine)]
    ensures ThreatWritten(before, r', scanId, visited + [entry], events, autoQuarantine, |visited|)
  {
    hide Infections;
  }

  lemma RowKept(before: Records, r: Records, r': Records, visited: seq<Path>, entry: Path,
                events: nat -> FileEvent, k: nat, row: QuarantineRow)
    requires k < |visited| && Succeeds(events(k)) && RowWritten(before, r, visited, events, k)
    requires r.nextQuarantine == before.nextQuarantine + Successes(events, |visited|)
    requires r'.quarantine == r.quarantine[r.nextQuarantine := row] || r'.quarantine == r.quarantine
    ensures RowWritten(before, r', visited + [entry], events, k)
  {
    hide Infections, Successes;
    InfectionsGrow(events, k, |visited|);
    assert (visited + [entry])[k] == visited[k];
  }

  lemma RowAdded(before: Records, r: Records, r': Records, visited: seq<Path>, entry: Path, events: nat -> FileEvent)
    requires r.nextThreat == before.nextThreat + Infections(events, |visited|)
    requires r.nextQuarantine == before.nextQuarantine + Successes(events, |visited|)
    requires Succeeds(events(|visited|))
    requires r'.quarantine == r.quarantine[r.nextQuarantine := RowFor(r.nextThreat, entry, events(|visited|))]
    ensures RowWritten(before, r', visited + [entry], events, |visited|)
  {
    hide Infections, Successes;
  }

  lemma RowsMore(before: Records, r: Records, r': Records, visited: seq<Path>, entry: Path,
                 events: nat -> FileEvent, autoQuarantine: bool)
    requires RowsWritten(before, r, visited, events, autoQuarantine)
    requires r.nextThreat == before.nextThreat + Infections(events, |visited|)
    requires r.nextQuarantine == before.nextQuarantine + Quarantines(events, |visited|, autoQuarantine)
    requires var e := events(|visited|);
             if autoQuarantine && Succeeds(e)
             then r'.quarantine == r.quarantine[r.nextQuarantine := RowFor(r.nextThreat, entry, e)]
             else r'.quarantine == r.quarantine
    ensures RowsWritten(before, r', visited + [entry], events, autoQuarantine)
  {
    hide Infections, Successes, RowWritten;
    var n, e := |visited|, events(|visited|);
    forall k: nat | k < n + 1 && autoQuarantine && Succeeds(events(k))
      ensures RowWritten(before, r', visited + [entry], events, k)
    {
      if k < n {
        assert RowWritten(before, r, visited, events, k);
        RowKept(before, r, r', visited, entry, events, k,
                if Succeeds(e) then RowFor(r.nextThreat, entry, e) else QuarantineRow(0, [], [], 0, 0));
      } else {
        RowAdded(before, r, r', visited, entry, events);
      }
    }
  }

  /** One more file. */
  lemma WrittenMore(before: Records, r: Records, r': Records, scanId: nat, visited: seq<Path>, entry: Path,
                    events: nat -> FileEvent, autoQuarantine: bool)
    requires before.Valid() && r.Valid() && Written(before, r, scanId, visited, events, autoQuarantine)
    requires var e := events(|visited|);
             if e.verdict.Infected?
             then r' == InfectedRecords(r, scanId, entry, e.verdict.signature, autoQuarantine, e.put)
             else r' == r
    ensures Written(before, r', scanId, visited + [entry], events, autoQuarantine)
  {
    hide InfectedRecords, ThreatsWritten, RowsWritten, Appended, Infections, Quarantines;
    var e := events(|visited|);
    CountsStep(events, |visited|, autoQuarantine);
    if e.verdict.Infected? {
      InfectedRecordsMean(r, scanId, entry, e.verdict.signature, autoQuarantine, e.put);
      AppendedMore(before.threats, r.threats, before.nextThreat, Infections(events, |visited|),
                   r'.threats[r.nextThreat]);
      if autoQuarantine && e.put.Moved? {
        AppendedMore(before.quarantine, r.quarantine, before.nextQuarantine,
                     Quarantines(events, |visited|, autoQuarantine), r'.quarantine[r.nextQuarantine]);
      }
    }
    ThreatsMore(before, r, r', scanId, visited, entry, events, autoQuarantine);
    RowsMore(before, r, r', visited, entry, events, autoQuarantine);
  }

  /** The files put away, or moved and stranded, in the course of a scan. */
  ghost function Gone(visited: seq<Path>, events: nat -> FileEvent, autoQuarantine: bool): set<Path> {
    set k: nat | k < |visited| && autoQuarantine && events(k).verdict.Infected? && TookAway(events(k).put) :: visited[k]
  }

  lemma GoneMore(visited: seq<Path>, entry: Path, events: nat -> FileEvent, autoQuarantine: bool)
    ensures var e := events(|visited|);
            Gone(visited + [entry], events, autoQuarantine) ==
            Gone(visited, events, autoQuarantine)
            + if autoQuarantine && e.verdict.Infected? && TookAway(e.put) then {entry} else {}
  {
    var more := visited + [entry];
    assert forall k: nat :: k < |visited| ==> more[k] == visited[k];
    assert more[|visited|] == entry;
    forall p | p in Gone(visited, events, autoQuarantine)
      ensures p in Gone(more, events, autoQuarantine)
    {
      var k: nat :| k < |visited| && autoQuarantine && events(k).verdict.Infected? && TookAway(events(k).put)
                    && visited[k] == p;
      assert more[k] == p;
    }
  }

  /** Everything a scan changes, before and after it has dealt with some files. */
  datatype Tally = Tally(records: Records, fs: Fs, threatsFound: nat, quarantined: nat, skipped: nat)

  ghost predicate Tallied(from: Tally, to: Tally, scanId: nat, visited: seq<Path>, events: nat -> FileEvent,
                          autoQuarantine: bool) {
    && Written(from.records, to.records, scanId, visited, events, autoQuarantine)
    && to.fs == from.fs - Gone(visited, events, autoQuarantine)
    && to.threatsFound == from.threatsFound + Infections(events, |visited|)
    && to.quarantined == from.quarantined + Quarantines(events, |visited|, autoQuarantine)
    && to.skipped == from.skipped + Skips(events, |visited|)
  }

  /** One file: rows and file by its verdict, and the counters likewise. */
  ghost predicate TallyStep(t: Tally, t': Tally, scanId: nat, entry: Path, e: FileEvent, autoQuarantine: bool) {
    match e.verdict
    case Infected(signature) =>
      && t'.records == InfectedRecords(t.records, scanId, entry, signature, autoQuarantine, e.put)
      && t'.fs == (if autoQuarantine && TookAway(e.put) then t.fs - {entry} else t.fs)
      && t'.threatsFound == t.threatsFound + 1 && t'.skipped == t.skipped
      && t'.quarantined == t.quarantined + (if autoQuarantine && e.put.Moved? then 1 else 0)
    case Skipped => t' == t.(skipped := t.skipped + 1)
    case _ => t' == t
  }

  lemma TallyStart(t: Tally, scanId: nat, events: nat -> FileEvent, autoQuarantine: bool)
    requires t.records.Valid()
    ensures Tallied(t, t, scanId, [], events, autoQuarantine)
  {
    NothingWritten(t.records, scanId, events, autoQuarantine);
    NoneGone(t.fs, events, autoQuarantine);
  }

  lemma TallyMore(from: Tally, t: Tally, t': Tally, scanId: nat, visited: seq<Path>, entry: Path,
                  events: nat -> FileEvent, autoQuarantine: bool)
    requires from.records.Valid() && t.records.Valid() && Tallied(from, t, scanId, visited, events, autoQuarantine)
    requires TallyStep(t, t', scanId, entry, events(|visited|), autoQuarantine)
    ensures Tallied(from, t', scanId, visited + [entry], events, autoQuarantine)
  {
    hide Written, Gone, InfectedRecords, Infections, Quarantines, Skips;
    CountsStep(events, |visited|, autoQuarantine);
    WrittenMore(from.records, t.records, t'.records, scanId, visited, entry, events, autoQuarantine);
    GoneMore(visited, entry, events, autoQuarantine);
  }

  lemma NoneGone(fs: Fs, events: nat -> FileEvent, autoQuarantine: bool)
    ensures fs - Gone([], events, autoQuarantine) == fs
  {
    assert Gone([], events, autoQuarantine) == {};
  }

  /** The files visited so far and those still on the stack make up the walk of the scan. */
  ghost predicate OnWalk(fs0: Fs, fs: Fs, policy: Policy, roots: seq<Path>, visited: seq<Path>, stack: seq<Path>) {
    TreeLike(fs0) && Antichain(roots) ==>
      && TreeLike(fs) && Antichain(stack)
      && visited + VisitStack(fs, policy, stack) == VisitStack(fs0, policy, roots)
  }

  /** Every file visited is a regular file outside the skipped directory that is not excluded. */
  ghost predicate Scannable(fs0: Fs, policy: Policy, visited: seq<Path>) {
    forall p :: p in visited ==> p in fs0 && fs0[p].File? && !(policy.skip <= p) && !IsExcluded(policy.rules, p)
  }

  /** One turn of the walk: `stack` before the next file was taken off, `rest` after. */
  lemma OnWalkMore(fs0: Fs, was: Fs, fs: Fs, policy: Policy, roots: seq<Path>, visited: seq<Path>,
                   stack: seq<Path>, rest: seq<Path>, entry: Path)
    requires OnWalk(fs0, was, policy, roots, visited, stack)
    requires entry in was && was[entry].File? && (fs == was || fs == was - {entry})
    requires VisitStack(was, policy, stack) == [entry] + VisitStack(was, policy, rest)
    requires Antichain(stack) && TreeLike(was) ==> Antichain(rest + [entry])
    ensures OnWalk(fs0, fs, policy, roots, visited + [entry], rest)
    ensures CostStack(fs, policy, rest) == CostStack(was, policy, rest)
  {
    hide VisitStack, CostStack, Antichain, TreeLike;
    YieldedFileGone(was, fs, entry, policy, rest);
    Assoc(visited, [entry], VisitStack(was, policy, rest));
  }

  /** What dealing with one yielded file does to the rest of the walk: nothing. */
  lemma YieldedFileGone(fs: Fs, fs': Fs, entry: Path, policy: Policy, stack: seq<Path>)
    requires entry in fs && fs[entry].File? && (fs' == fs || fs' == fs - {entry})
    ensures CostStack(fs', policy, stack) == CostStack(fs, policy, stack)
    ensures TreeLike(fs) && Antichain(stack + [entry]) ==>
              TreeLike(fs') && Antichain(stack) && VisitStack(fs', policy, stack) == VisitStack(fs, policy, stack)
  {
    CostStackFrame(fs, entry, policy, stack);
    if TreeLike(fs) && Antichain(stack + [entry]) {
      RemovedElsewhere(fs, entry, policy, stack);
      assert forall i :: 0 <= i < |stack| ==> (stack + [entry])[i] == stack[i];
    }
  }

  lemma BooksValid(r: Records, scanId: nat, n: nat, found: nat, quarantined: nat, skipped: nat)
    requires Accounted(r, scanId, n, found, quarantined, skipped)
    ensures r.Valid()
  {
  }

  /** The scanning pass: one file after another until the walk ends, the flag shows or the connection is gone. */
  method ScanFiles(job: ScanJob, roots: seq<Path>, filesTotal: nat, cancelAtStart: bool, events: nat -> FileEvent)
    returns (lost: bool, cancelled: bool, ghost visited: seq<Path>)
    requires job.Consistent(0) && job.filesScanned == 0
    modifies job, job.db`records
    ensures job.Consistent(0) && job.filesScanned == |visited| && job.db.records.scans == old(job.db.records).scans
    // Exactly the rows of the files visited, the counts to go with them, and the files that are gone.
    ensures Tallied(old(job.Standing()), job.Standing(), job.scanId, visited, events, job.autoQuarantine)
    ensures Scannable(old(job.fs), job.policy, visited)
    ensures cancelAtStart ==> cancelled && !lost && visited == []
    ensures cancelled <==> cancelAtStart || RaisedBefore(events, |visited|, filesTotal)
    ensures visited != [] ==> !RaisedBefore(events, |visited| - 1, filesTotal)
    ensures lost ==> events(|visited|).verdict == Lost
    ensures TreeLike(old(job.fs)) && Antichain(roots) ==>
              && visited <= VisitStack(old(job.fs), job.policy, roots)
              && (!lost && !cancelled ==> visited == VisitStack(old(job.fs), job.policy, roots))
  {
    hide VisitStack, CostStack, Antichain, TreeLike, RaisedBefore, Raises, Accounted, Tallied, TallyStep, OnWalk;
    hide IsExcluded, InfectedRecords;
    var walker := new FileWalker(roots, job.policy);
    lost, cancelled, visited := false, cancelAtStart, [];
    RaisedStep(events, 0, filesTotal);
    ghost var from, fs0 := job.Standing(), job.fs;
    BooksValid(job.db.records, job.scanId, 0, job.threatsFound, job.quarantined, job.skipped);
    TallyStart(from, job.scanId, events, job.autoQuarantine);
    WalkStart(fs0, job.policy, roots);
    while true
      invariant fresh(walker) && walker.policy == job.policy && job.Consistent(0)
      invariant job.filesScanned == |visited| && !lost && job.db.records.scans == old(job.db.records).scans
      invariant Tallied(from, job.Standing(), job.scanId, visited, events, job.autoQuarantine)
      invariant OnWalk(fs0, job.fs, job.policy, roots, visited, walker.stack)
      invariant Scannable(fs0, job.policy, visited) && forall p :: p in job.fs ==> p in fs0 && fs0[p] == job.fs[p]
      invariant cancelAtStart ==> cancelled && visited == []
      invariant cancelled <==> cancelAtStart || RaisedBefore(events, |visited|, filesTotal)
      invariant visited != [] ==> !RaisedBefore(events, |visited| - 1, filesTotal)
      decreases CostStack(job.fs, job.policy, walker.stack)
    {
      ghost var stack := walker.stack;
      var next := walker.Next(job.fs);
      if next.None? || cancelled {
        if TreeLike(fs0) && Antichain(roots) { WalkEnd(fs0, job.fs, job.policy, roots, visited, stack); }
        return;
      }
      var entry := next.value;
      var e := events(job.filesScanned);
      ghost var was, tally := job.fs, job.Standing();
      BooksValid(tally.records, job.scanId, job.filesScanned, job.threatsFound, job.quarantined, job.skipped);
      var cancel;
      lost, cancel := job.File(entry, e, filesTotal);
      if lost {
        LostStep(tally, job.Standing(), job.scanId, entry, e, job.autoQuarantine);
        if TreeLike(fs0) && Antichain(roots) { WalkEnd(fs0, job.fs, job.policy, roots, visited, stack); }
        return;
      }
      RaisesMeans(e, job.filesScanned, filesTotal);
      TallyMore(from, tally, job.Standing(), job.scanId, visited, entry, events, job.autoQuarantine);
      OnWalkMore(fs0, was, job.fs, job.policy, roots, visited, stack, walker.stack, entry);
      RaisedStep(events, |visited|, filesTotal);
      visited := visited + [entry];
      cancelled := cancelled || cancel;
    }
  }

  lemma LostStep(t: Tally, t': Tally, scanId: nat, entry: Path, e: FileEvent, autoQuarantine: bool)
    requires TallyStep(t, t', scanId, entry, e, autoQuarantine) && e.verdict.Lost?
    ensures t' == t
  {
  }

  lemma WalkStart(fs: Fs, policy: Policy, roots: seq<Path>)
    ensures OnWalk(fs, fs, policy, roots, [], roots)
  {
    assert [] + VisitStack(fs, policy, roots) == VisitStack(fs, policy, roots);
  }

  lemma WalkEnd(fs0: Fs, fs: Fs, policy: Policy, roots: seq<Path>, visited: seq<Path>, stack: seq<Path>)
    requires OnWalk(fs0, fs, policy, roots, visited, stack) && TreeLike(fs0) && Antichain(roots)
    ensures visited <= VisitStack(fs0, policy, roots)
    ensures VisitStack(fs, policy, stack) == [] ==> visited == VisitStack(fs0, policy, roots)
  {
  }

  /** The rows of the scan table itself play no part in this. */
  lemma WrittenFrom(before: Records, kind: string, after: Records, scanId: nat, visited: seq<Path>,
                    events: nat -> FileEvent, autoQuarantine: bool, n: nat, found: nat, status: ScanStatus)
    requires Written(before.InsertScan(kind), after, scanId, visited, events, autoQuarantine)
    ensures Written(before, after.FinishScan(scanId, n, found, status), scanId, visited, events, autoQuarantine)
  {
    hide Appended, Infections, Quarantines;
    var b, a := before.InsertScan(kind), after.FinishScan(scanId, n, found, status);
    assert a.threats == after.threats && a.quarantine == after.quarantine;
    forall k: nat | k < |visited| && events(k).verdict.Infected?
      ensures ThreatWritten(before, a, scanId, visited, events, autoQuarantine, k)
    {
      assert ThreatWritten(b, after, scanId, visited, events, autoQuarantine, k);
    }
    forall k: nat | k < |visited| && autoQuarantine && Succeeds(events(k))
      ensures RowWritten(before, a, visited, events, k)
    {
      assert RowWritten(b, after, visited, events, k);
    }
  }

  /** The counting pass and the scanning pass over `roots`, file after file, each file with its event.
      `requestedEarly`: a cancel request arrives before the first file, while the files are being counted. */
  method RunScan(db: Db, kind: string, fs: Fs, roots: seq<Path>, policy: Policy, autoQuarantine: bool,
                 greeted: bool, announced: bool, requestedEarly: bool, events: nat -> FileEvent)
    returns (r: ScanResult, filesTotal: nat, ghost visited: seq<Path>, ghost after: Fs)
    requires db.records.Valid()
    modifies db`records
    ensures db.records.Valid() && r.scanId == old(db.records).nextScan && r.filesScanned == |visited|
    ensures filesTotal == |VisitStack(fs, policy, roots)|
    // The history row agrees with the threat rows on every way out.
    ensures r.scanId in db.records.scans
    ensures var row := db.records.scans[r.scanId];
            && row.threatsFound == r.threatsFound == |db.records.ThreatsOf(r.scanId)|
            && row.kind == kind && row.filesScanned == r.filesScanned
            && row.status == (if r.ConnectionLost? then Failed else if r.cancelled then Cancelled else Completed)
    ensures r.threatsFound <= r.filesScanned
    ensures r.Finished? ==>
              && r.quarantined == |db.records.RowsOf(r.scanId)| <= r.threatsFound
              && r.threatsFound + r.skipped <= r.filesScanned
    // The counts are those of the verdicts, and the rows are exactly those of the infected files visited.
    ensures r.threatsFound == Infections(events, r.filesScanned)
    ensures r.Finished? ==>
              && r.skipped == Skips(events, r.filesScanned)
              && r.quarantined == Quarantines(events, r.filesScanned, autoQuarantine)
    ensures Written(old(db.records), db.records, r.scanId, visited, events, autoQuarantine)
    ensures after == fs - Gone(visited, events, autoQuarantine)
    ensures Scannable(fs, policy, visited)
    // Cancellation: at most the file in flight is still counted.
    ensures !greeted || !announced || requestedEarly ==> r.Finished? && r.filesScanned == 0
    ensures forall k: nat :: Raises(events(k), k + 1, filesTotal) ==> r.filesScanned <= k + 1
    ensures r.Finished? ==>
              (r.cancelled <==>
                 || !greeted || !announced || requestedEarly
                 || exists k: nat :: k < r.filesScanned && Raises(events(k), k + 1, filesTotal))
    // Progress: nothing else stops the scan, and no file is passed over or met twice.
    ensures r.ConnectionLost? ==> events(r.filesScanned).verdict == Lost
    ensures TreeLike(fs) && Antichain(roots) ==> visited <= VisitStack(fs, policy, roots)
    ensures TreeLike(fs) && Antichain(roots) && r.Finished? && !r.cancelled ==>
              visited == VisitStack(fs, policy, roots) && r.filesScanned == filesTotal
  {
    hide VisitStack, Antichain, TreeLike, Raises, Gone, Infections, Skips, Quarantines, Written, Scannable;
    var scanId := db.InsertScan(kind);
    assert db.records.ThreatsOf(scanId) == {} && db.records.RowsOf(scanId) == {};
    var cancelled := !greeted;
    filesTotal := CountFiles(fs, roots, policy);
    if requestedEarly {
      cancelled := true;
    }
    if !announced {
      cancelled := true;
    }
    var job := new ScanJob(db, policy, autoQuarantine, fs, scanId);
    var lost;
    lost, cancelled, visited := ScanFiles(job, roots, filesTotal, cancelled, events);
    RaisedLimits(events, |visited|, filesTotal);
    after := job.fs;
    WrittenFrom(old(db.records), kind, db.records, scanId, visited, events, autoQuarantine,
                job.filesScanned, job.threatsFound,
                if lost then Failed else if cancelled then Cancelled else Completed);
    var status := if lost then Failed else if cancelled then Cancelled else Completed;
    FinishScanKeeps(db.records, scanId, job.filesScanned, job.threatsFound, status);
    db.FinishScan(scanId, job.filesScanned, job.threatsFound, status);
    if lost {
      r := ConnectionLost(scanId, job.filesScanned, job.threatsFound);
    } else {
      r := Finished(scanId, job.filesScanned, job.threatsFound, job.quarantined, job.skipped, cancelled);
    }
  }

  // ------------------------------------------------------------------
  // Cancel requests

  /** The registry of running scans and their cancel flags. */
  class ActiveScans {
    var flags: map<nat, bool>

    constructor ()
      ensures flags == map[]
    {
      flags := map[];
    }

    /** SCAN_CANCEL: raises the flag of the scan asked for, or of every scan, and reports how many were newly raised. */
    method Cancel(requested: Option<nat>) returns (cancelled: nat)
      modifies this
      ensures flags.Keys == old(flags).Keys
      ensures forall id :: id in flags ==> (flags[id] <==> old(flags)[id] || requested == None || requested == Some(id))
      ensures cancelled == |set id | id in old(flags) && flags[id] && !old(flags)[id]|
    {
      cancelled := 0;
      ghost var raised: set<nat> := {};
      var left := flags.Keys;
      while left != {}
        invariant left <= flags.Keys == old(flags).Keys && cancelled == |raised|
        invariant forall id :: id in left ==> flags[id] == old(flags)[id]
        invariant forall id :: id in flags && id !in left ==>
                    (flags[id] <==> old(flags)[id] || requested == None || requested == Some(id))
        invariant forall id :: id in raised <==> id in flags && id !in left && flags[id] && !old(flags)[id]
        decreases left
      {
        var id :| id in left;
        left := left - {id};
        if requested.Some? && requested.value != id {
          continue;
        }
        var was := flags[id];
        flags := flags[id := true];
        if !was {
          cancelled := cancelled + 1;
          raised := raised + {id};
        }
      }
      assert raised == set id | id in old(flags) && flags[id] && !old(flags)[id];
    }
  }
}
