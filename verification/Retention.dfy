/** The disk watchdog's eviction loop over the segment table. */
module Retention {
  const HIGH_WATER_MARK: real := 0.85
  const LOW_WATER_MARK: real := 0.80

  /** A row: its id, start time, and how many nonempty file paths it has. */
  datatype Row = Row(id: int, start: int, paths: nat)

  /** A disk reading; an error reads as zero usage. */
  datatype Reading = Usage(perc: real) | Failed

  function Perc(r: Reading): real {
    match r
    case Usage(p) => p
    case Failed => 0.0
  }

  function PathCount(rows: seq<Row>): nat {
    if rows == [] then 0 else rows[0].paths + PathCount(rows[1..])
  }

  /** Nothing left is older than anything evicted. */
  predicate OldestFirst(evicted: seq<Row>, left: seq<Row>) {
    forall e, s :: e in evicted && s in left ==> e.start <= s.start
  }

  predicate Oldest(r: Row, rows: seq<Row>) {
    r in rows && forall s :: s in rows ==> r.start <= s.start
  }

  function Without(rows: seq<Row>, k: nat): seq<Row>
    requires k < |rows|
  {
    rows[..k] + rows[k + 1..]
  }

  /** The table. SQL gives the oldest rows in no particular order among equal start times; this
      table has them in the order it finds them, and promises only what SQL does. */
  class SegmentRepo {
    var rows: seq<Row>

    constructor (rows: seq<Row>)
      ensures this.rows == rows
    {
      this.rows := rows;
    }

    method FindOldest() returns (k: nat)
      requires rows != []
      ensures k < |rows| && Oldest(rows[k], rows)
    {
      k := 0;
      var i := 1;
      while i < |rows|
        invariant 1 <= i <= |rows| && k < i
        invariant forall j :: 0 <= j < i ==> rows[k].start <= rows[j].start
      {
        if rows[i].start < rows[k].start {
          k := i;
        }
        i := i + 1;
      }
    }

    /** DELETE of the limit oldest rows, returning their nonempty paths: here their number. */
    method PruneOldest(limit: nat) returns (paths: nat, ghost evicted: seq<Row>)
      modifies this
      ensures |evicted| == if |old(rows)| < limit then |old(rows)| else limit
      ensures multiset(old(rows)) == multiset(evicted) + multiset(rows)
      ensures OldestFirst(evicted, rows)
      ensures paths == PathCount(evicted)
      ensures |rows| == |old(rows)| - |evicted|
      ensures limit == 0 ==> rows == old(rows)
    {
      hide Without, OldestFirst;
      paths := 0;
      evicted := [];
      NoneTaken(rows);
      var n := 0;
      while n < limit && rows != []
        invariant 0 <= n <= limit && |evicted| == n && |rows| + n == |old(rows)|
        invariant multiset(old(rows)) == multiset(evicted) + multiset(rows)
        invariant OldestFirst(evicted, rows)
        invariant paths == PathCount(evicted)
        invariant n == 0 ==> rows == old(rows)
      {
        var k := FindOldest();
        PathCountSnoc(evicted, rows[k]);
        TakeOut(rows, k);
        TakeOldest(evicted, rows, k);
        paths := paths + rows[k].paths;
        evicted := evicted + [rows[k]];
        rows := Without(rows, k);
        n := n + 1;
      }
    }
  }

  lemma {:induction false} PathCountSnoc(rows: seq<Row>, r: Row)
    ensures PathCount(rows + [r]) == PathCount(rows) + r.paths
  {
    if rows == [] {
      assert rows + [r] == [r] && [r][1..] == [];
    } else {
      PathCountSnoc(rows[1..], r);
      assert (rows + [r])[1..] == rows[1..] + [r];
    }
  }

  lemma NoneTaken(rows: seq<Row>)
    ensures OldestFirst([], rows)
  {
  }

  lemma TakeOldest(evicted: seq<Row>, rows: seq<Row>, k: nat)
    requires k < |rows| && Oldest(rows[k], rows) && OldestFirst(evicted, rows)
    ensures OldestFirst(evicted + [rows[k]], Without(rows, k))
  {
    assert forall s :: s in Without(rows, k) ==> s in rows;
  }

  lemma TakeOut(rows: seq<Row>, k: nat)
    requires k < |rows|
    ensures multiset(rows) == multiset(Without(rows, k)) + multiset{rows[k]}
    ensures |Without(rows, k)| == |rows| - 1
  {
    assert rows == rows[..k] + [rows[k]] + rows[k + 1..];
  }

  /** One pass of the loop: the reading that admitted it and the rows it deleted. */
  datatype Batch = Batch(before: real, evicted: seq<Row>)

  function AllEvicted(bs: seq<Batch>): seq<Row> {
    if bs == [] then [] else AllEvicted(bs[..|bs| - 1]) + bs[|bs| - 1].evicted
  }

  /** Every pass was admitted by a reading above the low mark and took three rows a camera, or all
      that were left of the table's size rows. */
  predicate Admitted(bs: seq<Batch>, disk: nat -> Reading, cameras: nat, size: nat) {
    forall i :: 0 <= i < |bs| ==> PassOk(bs, i, disk, cameras, size)
  }

  /** The disk is known to be more than 80 per cent full; at least 85. */
  predicate AboveLow(r: Reading) {
    r.Usage? && r.perc > 0.8
  }

  predicate AtHigh(r: Reading) {
    r.Usage? && r.perc >= 0.85
  }

  predicate PassOk(bs: seq<Batch>, i: nat, disk: nat -> Reading, cameras: nat, size: nat)
    requires i < |bs|
  {
    && bs[i].before == Perc(disk(i)) && AboveLow(disk(i))
    && |bs[i].evicted| == Fewer(3 * cameras, size - |AllEvicted(bs[..i])|)
  }

  function Fewer(a: int, b: int): int {
    if a < b then a else b
  }

  /** The first k passes each freed some file. */
  predicate Freeing(bs: seq<Batch>, k: int) {
    forall i :: 0 <= i < k && i < |bs| ==> PathCount(bs[i].evicted) > 0
  }

  lemma OldestFirstAgain(done: seq<Row>, mid: seq<Row>, evicted: seq<Row>, left: seq<Row>)
    requires OldestFirst(done, mid) && OldestFirst(evicted, left)
    requires multiset(mid) == multiset(evicted) + multiset(left)
    ensures OldestFirst(done + evicted, left)
  {
    forall e, s | e in done + evicted && s in left
      ensures e.start <= s.start
    {
      assert s in multiset(mid);
      assert s in mid;
    }
  }

  /** What the passes evicted and what is left make up the table, oldest evicted first. */
  ghost predicate Pruned(table: seq<Row>, bs: seq<Batch>, left: seq<Row>) {
    && multiset(table) == multiset(AllEvicted(bs)) + multiset(left)
    && |table| == |AllEvicted(bs)| + |left|
    && OldestFirst(AllEvicted(bs), left)
  }

  lemma NothingYet(table: seq<Row>, disk: nat -> Reading, cameras: nat)
    ensures Pruned(table, [], table) && Admitted([], disk, cameras, |table|) && Freeing([], 0)
    ensures AllEvicted([]) == []
  {
  }

  lemma EvictedFromTable(table: seq<Row>, bs: seq<Batch>, left: seq<Row>)
    requires Pruned(table, bs, left)
    ensures |AllEvicted(bs)| <= |table|
  {
  }

  lemma LeftOver(table: seq<Row>, bs: seq<Batch>, left: seq<Row>)
    requires Pruned(table, bs, left)
    ensures |left| == |table| - |AllEvicted(bs)|
  {
  }

  lemma OnePass(table: seq<Row>, bs: seq<Batch>, mid: seq<Row>, b: Batch, left: seq<Row>)
    requires Pruned(table, bs, mid)
    requires multiset(mid) == multiset(b.evicted) + multiset(left) && |mid| == |b.evicted| + |left|
    requires OldestFirst(b.evicted, left)
    ensures Pruned(table, bs + [b], left)
    ensures |AllEvicted(bs + [b])| == |AllEvicted(bs)| + |b.evicted|
  {
    OldestFirstAgain(AllEvicted(bs), mid, b.evicted, left);
    assert (bs + [b])[..|bs|] == bs;
  }

  lemma PathsNeedRows(rows: seq<Row>)
    requires PathCount(rows) > 0
    ensures rows != []
  {
  }

  predicate AllHavePaths(rows: seq<Row>) {
    forall r :: r in rows ==> r.paths > 0
  }

  lemma {:induction false} PathPerRow(rows: seq<Row>)
    requires AllHavePaths(rows)
    ensures PathCount(rows) >= |rows|
  {
    if rows != [] {
      assert rows[0] in rows;
      PathPerRow(rows[1..]);
    }
  }

  /** Where every row has a file, a batch that frees none had no rows to take. */
  lemma DryBatch(table: seq<Row>, bs: seq<Batch>, mid: seq<Row>, evicted: seq<Row>, left: seq<Row>)
    requires Pruned(table, bs, mid) && AllHavePaths(table)
    requires multiset(mid) == multiset(evicted) + multiset(left)
    requires PathCount(evicted) == 0
    ensures evicted == []
  {
    forall r | r in evicted
      ensures r.paths > 0
    {
      assert r in multiset(mid);
      assert r in multiset(table);
      assert r in table;
    }
    PathPerRow(evicted);
  }

  /** One tick of the watchdog, for any disk readings and any database failures: disk(k) is the k-th
      reading taken, and the k-th deletion goes through when dbOk(k). The ghost results tell how the
      batches went. Without active cameras the batches are empty and nothing is evicted, however
      full the disk is. With one, and a file for every row, the loop only stops at the low mark,
      with an empty table, or at a failed deletion. */
  method EnforceDiskWatermark(repo: SegmentRepo, disk: nat -> Reading, dbOk: nat -> bool,
                              activeCameras: nat)
      returns (warned: bool, ghost batches: seq<Batch>)
    modifies repo
    ensures Pruned(old(repo.rows), batches, repo.rows)
    ensures batches != [] ==> AtHigh(disk(0))
    ensures Admitted(batches, disk, activeCameras, |old(repo.rows)|) && Freeing(batches, |batches| - 1)
    ensures |batches| <= |old(repo.rows)| + 1
    ensures AtHigh(disk(0)) ==>
              || !dbOk(|batches|)
              || (|batches| > 0 && (!AboveLow(disk(|batches|))
                                    || PathCount(batches[|batches| - 1].evicted) == 0))
    ensures activeCameras == 0 ==> repo.rows == old(repo.rows)
    ensures AtHigh(disk(0))
            && activeCameras > 0 && AllHavePaths(old(repo.rows)) ==>
              !dbOk(|batches|) || !AboveLow(disk(|batches|)) || repo.rows == []
    ensures warned <==> AboveLow(disk(0)) && !AtHigh(disk(0))
  {
    hide Pruned, Admitted, AllEvicted, PathCount, AllHavePaths;
    NothingYet(repo.rows, disk, activeCameras);
    batches := [];
    warned := false;
    var first := disk(0);
    var diskPerc := Perc(first);
    if diskPerc < HIGH_WATER_MARK || first.Failed? {
      warned := diskPerc > LOW_WATER_MARK;
      return;
    }
    var batchN := activeCameras * 3;
    var checks: nat := 0;
    while diskPerc > LOW_WATER_MARK
      invariant checks == |batches| <= |AllEvicted(batches)| <= |old(repo.rows)|
      invariant diskPerc == Perc(disk(checks)) && (checks == 0 ==> diskPerc >= HIGH_WATER_MARK)
      invariant Pruned(old(repo.rows), batches, repo.rows)
      invariant Admitted(batches, disk, activeCameras, |old(repo.rows)|) && Freeing(batches, |batches|)
      invariant activeCameras == 0 ==> repo.rows == old(repo.rows)
      decreases |repo.rows|
    {
      if !dbOk(checks) {
        return;
      }
      ghost var mid := repo.rows;
      var paths, evicted := repo.PruneOldest(batchN);
      ghost var b := Batch(diskPerc, evicted);
      OnePass(old(repo.rows), batches, mid, b, repo.rows);
      LeftOver(old(repo.rows), batches, mid);
      AdmittedSnoc(batches, b, disk, activeCameras, |old(repo.rows)|);
      ghost var done := batches;
      batches := batches + [b];
      if paths == 0 {
        if AllHavePaths(old(repo.rows)) {
          DryBatch(old(repo.rows), done, mid, evicted, repo.rows);
        }
        break;
      }
      PathsNeedRows(evicted);
      EvictedFromTable(old(repo.rows), batches, repo.rows);
      checks := checks + 1;
      diskPerc := Perc(disk(checks));
    }
  }

  lemma AdmittedSnoc(bs: seq<Batch>, b: Batch, disk: nat -> Reading, cameras: nat, size: nat)
    requires Admitted(bs, disk, cameras, size) && Freeing(bs, |bs|)
    requires b.before == Perc(disk(|bs|)) && AboveLow(disk(|bs|))
    requires |b.evicted| == Fewer(3 * cameras, size - |AllEvicted(bs)|)
    ensures Admitted(bs + [b], disk, cameras, size) && Freeing(bs + [b], |bs|)
    ensures PathCount(b.evicted) > 0 ==> Freeing(bs + [b], |bs| + 1)
  {
    var all := bs + [b];
    assert all[..|bs|] == bs;
    forall i: nat | i < |bs|
      ensures PassOk(all, i, disk, cameras, size)
    {
      assert PassOk(bs, i, disk, cameras, size);
      assert all[i] == bs[i] && all[..i] == bs[..i];
    }
    hide AllEvicted, PathCount, Fewer;
  }
}
