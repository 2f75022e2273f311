/** The daemon's database: scan history, the append-only threat history, quarantine rows and pending scans. */
module Database {
  import opened Base
  import opened Pending

  datatype ScanStatus = Running | Completed | Cancelled | Failed

  datatype ThreatStatus = Detected | Quarantined | Restored | Deleted

  datatype ScanRow = ScanRow(kind: string, filesScanned: nat, threatsFound: nat, status: ScanStatus)

  datatype ThreatRow = ThreatRow(scanId: nat, path: Path, signature: string, status: ThreatStatus)

  datatype QuarantineRow =
    QuarantineRow(threatId: nat, originalPath: Path, blobPath: Path, originalMode: nat, size: nat)

  /** Three tables with AUTOINCREMENT keys: a key is never handed out twice. */
  datatype Records =
    Records(scans: map<nat, ScanRow>, threats: map<nat, ThreatRow>, quarantine: map<nat, QuarantineRow>,
            nextScan: nat, nextThreat: nat, nextQuarantine: nat)
  {
    function InsertScan(kind: string): Records {
      this.(scans := scans[nextScan := ScanRow(kind, 0, 0, Running)], nextScan := nextScan + 1)
    }

    function FinishScan(id: nat, filesScanned: nat, threatsFound: nat, status: ScanStatus): Records {
      if id in scans then
        this.(scans := scans[id := ScanRow(scans[id].kind, filesScanned, threatsFound, status)])
      else this
    }

    function InsertThreat(scanId: nat, path: Path, signature: string): Records {
      this.(threats := threats[nextThreat := ThreatRow(scanId, path, signature, Detected)],
            nextThreat := nextThreat + 1)
    }

    function SetThreatStatus(id: nat, status: ThreatStatus): Records {
      if id in threats then this.(threats := threats[id := threats[id].(status := status)]) else this
    }

    function InsertQuarantine(row: QuarantineRow): Records {
      this.(quarantine := quarantine[nextQuarantine := row], nextQuarantine := nextQuarantine + 1)
    }

    function DeleteQuarantine(id: nat): Records {
      this.(quarantine := quarantine - {id})
    }

    /** `get_quarantine` reads through two inner joins: a row shows only with its threat and that threat's scan. */
    function GetQuarantine(id: nat): Option<QuarantineRow> {
      if id in quarantine && quarantine[id].threatId in threats && threats[quarantine[id].threatId].scanId in scans
      then Some(quarantine[id])
      else None
    }

    /** The threat history rows of one scan. */
    ghost function ThreatsOf(scanId: nat): set<nat> {
      set t | t in threats && threats[t].scanId == scanId
    }

    /** The quarantine rows of one scan. */
    ghost function RowsOf(scanId: nat): set<nat> {
      set q | q in quarantine && quarantine[q].threatId in threats && threats[quarantine[q].threatId].scanId == scanId
    }

    /** Keys in use lie below the counters and foreign keys resolve. */
    ghost predicate Valid() {
      && (forall s :: s in scans ==> s < nextScan)
      && (forall t :: t in threats ==> t < nextThreat && threats[t].scanId in scans)
      && (forall q :: q in quarantine ==> q < nextQuarantine && quarantine[q].threatId in threats)
    }
  }

  /** A new scan has a fresh key, is running, has counted nothing, and no threat or quarantine row yet. */
  lemma InsertScanKeeps(r: Records, kind: string)
    requires r.Valid()
    ensures var r' := r.InsertScan(kind);
            && r'.Valid() && r.nextScan !in r.scans && r.nextScan in r'.scans
            && r'.scans - {r.nextScan} == r.scans
            && r'.scans[r.nextScan] == ScanRow(kind, 0, 0, Running)
            && r'.ThreatsOf(r.nextScan) == {} && r'.RowsOf(r.nextScan) == {}
  {
  }

  /** A new threat row adds one to its scan and disturbs no quarantine row. */
  lemma InsertThreatKeeps(r: Records, scanId: nat, path: Path, signature: string)
    requires r.Valid() && scanId in r.scans
    ensures var r' := r.InsertThreat(scanId, path, signature);
            && r'.Valid() && r.nextThreat !in r.threats
            && r'.ThreatsOf(scanId) == r.ThreatsOf(scanId) + {r.nextThreat}
            && |r'.ThreatsOf(scanId)| == |r.ThreatsOf(scanId)| + 1
            && r'.RowsOf(scanId) == r.RowsOf(scanId)
  {
    var r' := r.InsertThreat(scanId, path, signature);
    assert r.nextThreat !in r.threats;
    assert r'.ThreatsOf(scanId) == r.ThreatsOf(scanId) + {r.nextThreat};
    assert r'.RowsOf(scanId) == r.RowsOf(scanId);
  }

  /** A status change disturbs no key of any table. */
  lemma SetThreatStatusKeeps(r: Records, id: nat, status: ThreatStatus, scanId: nat)
    requires r.Valid()
    ensures var r' := r.SetThreatStatus(id, status);
            r'.Valid() && r'.ThreatsOf(scanId) == r.ThreatsOf(scanId) && r'.RowsOf(scanId) == r.RowsOf(scanId)
  {
    var r' := r.SetThreatStatus(id, status);
    assert r'.ThreatsOf(scanId) == r.ThreatsOf(scanId);
    assert r'.RowsOf(scanId) == r.RowsOf(scanId);
  }

  /** A new quarantine row adds one to the scan its threat belongs to. */
  lemma InsertQuarantineKeeps(r: Records, row: QuarantineRow)
    requires r.Valid() && row.threatId in r.threats
    ensures var r' := r.InsertQuarantine(row); var scanId := r.threats[row.threatId].scanId;
            && r'.Valid() && r'.ThreatsOf(scanId) == r.ThreatsOf(scanId)
            && r'.RowsOf(scanId) == r.RowsOf(scanId) + {r.nextQuarantine}
            && |r'.RowsOf(scanId)| == |r.RowsOf(scanId)| + 1
  {
    var r' := r.InsertQuarantine(row);
    var scanId := r.threats[row.threatId].scanId;
    assert r.nextQuarantine !in r.quarantine;
    assert r'.RowsOf(scanId) == r.RowsOf(scanId) + {r.nextQuarantine};
  }

  lemma FinishScanKeeps(r: Records, id: nat, filesScanned: nat, threatsFound: nat, status: ScanStatus)
    requires r.Valid()
    ensures var r' := r.FinishScan(id, filesScanned, threatsFound, status);
            && r'.Valid() && r'.ThreatsOf(id) == r.ThreatsOf(id) && r'.RowsOf(id) == r.RowsOf(id)
            && (id in r.scans ==>
                  r'.scans == r.scans[id := ScanRow(r.scans[id].kind, filesScanned, threatsFound, status)])
            && (id !in r.scans ==> r' == r)
  {
  }

  const NoRecords := Records(map[], map[], map[], 1, 1, 1)

  class Db {
    var pending: Table
    var records: Records

    constructor ()
      ensures pending == [] && records == NoRecords
    {
      pending, records := [], NoRecords;
    }

    /** INSERT OR IGNORE, one path at a time, in one transaction. */
    method SpillPending(paths: seq<Path>, now: int)
      modifies this`pending
      ensures pending == Spilled(old(pending), paths, now)
    {
      if paths == [] {
        return;
      }
      var i := 0;
      while i < |paths|
        invariant 0 <= i <= |paths|
        invariant pending == Spilled(old(pending), paths[..i], now)
      {
        assert paths[..i + 1][..i] == paths[..i];
        pending := InsertOrIgnore(pending, paths[i], now);
        i := i + 1;
      }
      assert paths[..i] == paths;
    }

    /** The oldest rows, at most `limit`, removed from the table. */
    method TakePending(limit: nat) returns (paths: seq<Path>)
      modifies this`pending
      ensures paths == Taken(old(pending), limit) && pending == Left(old(pending), limit)
    {
      paths := Taken(pending, limit);
      if paths != [] {
        pending := Left(pending, limit);
      }
    }

    method InsertScan(kind: string) returns (id: nat)
      modifies this`records
      ensures id == old(records).nextScan && records == old(records).InsertScan(kind)
    {
      id := records.nextScan;
      records := records.InsertScan(kind);
    }

    method FinishScan(id: nat, filesScanned: nat, threatsFound: nat, status: ScanStatus)
      modifies this`records
      ensures records == old(records).FinishScan(id, filesScanned, threatsFound, status)
    {
      records := records.FinishScan(id, filesScanned, threatsFound, status);
    }

    method InsertThreat(scanId: nat, path: Path, signature: string) returns (id: nat)
      modifies this`records
      ensures id == old(records).nextThreat && records == old(records).InsertThreat(scanId, path, signature)
    {
      id := records.nextThreat;
      records := records.InsertThreat(scanId, path, signature);
    }

    method SetThreatStatus(id: nat, status: ThreatStatus)
      modifies this`records
      ensures records == old(records).SetThreatStatus(id, status)
    {
      records := records.SetThreatStatus(id, status);
    }

    method InsertQuarantine(row: QuarantineRow)
      modifies this`records
      ensures records == old(records).InsertQuarantine(row)
    {
      records := records.InsertQuarantine(row);
    }

    method DeleteQuarantine(id: nat)
      modifies this`records
      ensures records == old(records).DeleteQuarantine(id)
    {
      records := records.DeleteQuarantine(id);
    }
  }
}
