/** The `pending_scans` table: one row per path, read back in `queued_at` order. */
module Pending {
  import opened Base

  datatype PendingRow = PendingRow(path: Path, queuedAt: int)

  /** The table, listed in the order its ordered query returns it (ties in insertion order). */
  type Table = seq<PendingRow>

  function Paths(rows: Table): (ps: seq<Path>)
    ensures |ps| == |rows|
    ensures forall i :: 0 <= i < |rows| ==> ps[i] == rows[i].path
  {
    seq(|rows|, i requires 0 <= i < |rows| => rows[i].path)
  }

  ghost predicate Sorted(rows: Table) {
    forall i, j :: 0 <= i <= j < |rows| ==> rows[i].queuedAt <= rows[j].queuedAt
  }

  /** Primary key on `path`, and the order of the query. */
  ghost predicate ValidTable(rows: Table) {
    Sorted(rows) && Distinct(Paths(rows))
  }

  /** A row takes its place after every row that is not younger. */
  function InsertByTime(rows: Table, row: PendingRow): Table {
    if rows == [] || rows[|rows| - 1].queuedAt <= row.queuedAt then rows + [row]
    else InsertByTime(rows[..|rows| - 1], row) + [rows[|rows| - 1]]
  }

  function InsertOrIgnore(rows: Table, path: Path, now: int): Table {
    if path in Paths(rows) then rows else InsertByTime(rows, PendingRow(path, now))
  }

  /** `spill_pending`: one transaction over a whole batch. */
  function Spilled(rows: Table, paths: seq<Path>, now: int): Table {
    if paths == [] then rows
    else InsertOrIgnore(Spilled(rows, paths[..|paths| - 1], now), paths[|paths| - 1], now)
  }

  function Taken(rows: Table, limit: nat): seq<Path> {
    Paths(rows)[..if limit <= |rows| then limit else |rows|]
  }

  function Left(rows: Table, limit: nat): Table {
    rows[if limit <= |rows| then limit else |rows|..]
  }

  lemma {:induction false} InsertByTimeSplits(rows: Table, row: PendingRow) returns (k: nat)
    requires Sorted(rows)
    ensures k <= |rows| && InsertByTime(rows, row) == rows[..k] + [row] + rows[k..]
    ensures forall i :: 0 <= i < k ==> rows[i].queuedAt <= row.queuedAt
    ensures forall i :: k <= i < |rows| ==> row.queuedAt < rows[i].queuedAt
  {
    if rows == [] || rows[|rows| - 1].queuedAt <= row.queuedAt {
      k := |rows|;
    } else {
      var init := rows[..|rows| - 1];
      k := InsertByTimeSplits(init, row);
      assert rows[..k] == init[..k];
      assert rows[k..] == init[k..] + [rows[|rows| - 1]];
    }
  }

  lemma InsertedSorted(rows: Table, row: PendingRow, k: nat)
    requires Sorted(rows) && k <= |rows|
    requires forall i :: 0 <= i < k ==> rows[i].queuedAt <= row.queuedAt
    requires forall i :: k <= i < |rows| ==> row.queuedAt < rows[i].queuedAt
    ensures Sorted(rows[..k] + [row] + rows[k..])
  {
    var out := rows[..k] + [row] + rows[k..];
    forall i, j | 0 <= i <= j < |out|
      ensures out[i].queuedAt <= out[j].queuedAt
    {
      assert out[i] == if i < k then rows[i] else if i == k then row else rows[i - 1];
      assert out[j] == if j < k then rows[j] else if j == k then row else rows[j - 1];
    }
  }

  /** INSERT OR IGNORE keeps the key and the order, adds exactly the missing path and touches no other row. */
  lemma {:induction false} InsertOrIgnoreKeeps(rows: Table, path: Path, now: int)
    requires ValidTable(rows)
    ensures ValidTable(InsertOrIgnore(rows, path, now))
    ensures forall r :: r in InsertOrIgnore(rows, path, now) <==>
              r in rows || (path !in Paths(rows) && r == PendingRow(path, now))
    ensures forall p :: p in Paths(InsertOrIgnore(rows, path, now)) <==> p in Paths(rows) || p == path
  {
    if path !in Paths(rows) {
      var row := PendingRow(path, now);
      var k := InsertByTimeSplits(rows, row);
      assert Paths(InsertByTime(rows, row)) == Paths(rows)[..k] + [path] + Paths(rows)[k..];
      InsertedOnce(Paths(rows), path, k);
      InsertedOnce(rows, row, k);
      InsertedSorted(rows, row, k);
    }
  }

  /** Spilling any batch, with any repeats, leaves one row per path and loses neither old rows nor new paths. */
  lemma {:induction false} SpilledKeeps(rows: Table, paths: seq<Path>, now: int)
    requires ValidTable(rows)
    ensures ValidTable(Spilled(rows, paths, now))
    ensures forall r :: r in rows ==> r in Spilled(rows, paths, now)
    ensures forall p :: p in Paths(Spilled(rows, paths, now)) <==> p in Paths(rows) || p in paths
  {
    if paths != [] {
      var init := paths[..|paths| - 1];
      SpilledKeeps(rows, init, now);
      InsertOrIgnoreKeeps(Spilled(rows, init, now), paths[|paths| - 1], now);
      assert paths == init + [paths[|paths| - 1]];
    }
  }

  /** Taking a batch splits the table: nothing is in both parts or in neither. */
  lemma TakeSplits(rows: Table, limit: nat)
    requires ValidTable(rows)
    ensures ValidTable(Left(rows, limit)) && Distinct(Taken(rows, limit))
    ensures Paths(rows) == Taken(rows, limit) + Paths(Left(rows, limit))
    ensures forall p :: p in Paths(rows) <==> p in Taken(rows, limit) || p in Paths(Left(rows, limit))
    ensures forall p :: !(p in Taken(rows, limit) && p in Paths(Left(rows, limit)))
    ensures limit > 0 && rows != [] ==> |Left(rows, limit)| < |rows|
    ensures |Taken(rows, limit)| == if limit <= |rows| then limit else |rows|
  {
    var m := if limit <= |rows| then limit else |rows|;
    assert Paths(Left(rows, limit)) == Paths(rows)[m..];
    assert Paths(rows) == Taken(rows, limit) + Paths(Left(rows, limit));
    forall i, j | 0 <= i < j < |Left(rows, limit)|
      ensures Paths(Left(rows, limit))[i] != Paths(Left(rows, limit))[j]
    {
      assert Paths(rows)[m + i] != Paths(rows)[m + j];
    }
  }

  /** And nothing in the batch is younger than anything that stays. */
  lemma TakenAreOldest(rows: Table, limit: nat, i: nat, j: nat)
    requires ValidTable(rows) && i < |Taken(rows, limit)| && j < |Left(rows, limit)|
    ensures Taken(rows, limit)[i] == rows[i].path && rows[i].queuedAt <= Left(rows, limit)[j].queuedAt
  {
    var m := if limit <= |rows| then limit else |rows|;
    assert Left(rows, limit)[j] == rows[m + j];
  }
}
