/**
 * The load task that copies every legacy table into its staging table:
 * per table, update then insert then mark-deleted, the first two cut into
 * chunks of `insertChunkSize` keys, with counters kept in a metrics map and
 * each table in its own transaction.
 */
module LoadOracleData {
  import opened Wrappers
  import opened StagingSql

  const DefaultInsertChunkSize := 4000
  const TableKeysMismatch := "keys of foreign_tables and staging_tables must be equal"

  // ---------------------------------------------------------------------
  // Sequences of keys and their chunks (itertools.batched)
  // ---------------------------------------------------------------------

  predicate Distinct<T(==)>(xs: seq<T>)
  {
    forall i, j :: 0 <= i < j < |xs| ==> xs[i] != xs[j]
  }

  function Elements<T>(xs: seq<T>): set<T>
  {
    set x | x in xs
  }

  /** `xs` lists every element of `s` exactly once, in some order. */
  predicate IsEnumeration<T(==)>(xs: seq<T>, s: set<T>)
  {
    Distinct(xs) && Elements(xs) == s
  }

  /** Consecutive chunks of at most `n` elements, in order; only the last may be shorter. */
  function Chunks<T>(xs: seq<T>, n: nat): seq<seq<T>>
    requires n >= 1
    decreases |xs|
  {
    if |xs| == 0 then []
    else if |xs| <= n then [xs]
    else [xs[..n]] + Chunks(xs[n..], n)
  }

  function Flatten<T>(cs: seq<seq<T>>): seq<T>
  {
    if cs == [] then [] else cs[0] + Flatten(cs[1..])
  }

  function Sizes<T>(cs: seq<seq<T>>): (r: seq<nat>)
    ensures |r| == |cs| && forall i :: 0 <= i < |cs| ==> r[i] == |cs[i]|
  {
    if cs == [] then [] else [|cs[0]|] + Sizes(cs[1..])
  }

  function Sum(s: seq<nat>): nat
  {
    if s == [] then 0 else s[0] + Sum(s[1..])
  }

  /** The sizes of the chunks of a list of `len` elements. */
  function ChunkSizes(len: nat, n: nat): seq<nat>
    requires n >= 1
    decreases len
  {
    if len == 0 then []
    else if len <= n then [len]
    else [n] + ChunkSizes(len - n, n)
  }

  lemma {:induction false} ChunksFlattenToInput<T>(xs: seq<T>, n: nat)
    requires n >= 1
    ensures Flatten(Chunks(xs, n)) == xs
    decreases |xs|
  {
    if |xs| == 0 {
    } else if |xs| <= n {
      assert Flatten([xs]) == xs + Flatten([]);
    } else {
      ChunksFlattenToInput(xs[n..], n);
      var cs := [xs[..n]] + Chunks(xs[n..], n);
      assert cs[1..] == Chunks(xs[n..], n);
      assert xs == xs[..n] + xs[n..];
    }
  }

  lemma {:induction false} ChunksAreBounded<T>(xs: seq<T>, n: nat)
    requires n >= 1
    ensures var cs := Chunks(xs, n);
      forall i :: 0 <= i < |cs| ==> 1 <= |cs[i]| <= n && (i < |cs| - 1 ==> |cs[i]| == n)
    decreases |xs|
  {
    if |xs| > n {
      ChunksAreBounded(xs[n..], n);
      var cs := Chunks(xs, n);
      forall i | 0 <= i < |cs| ensures 1 <= |cs[i]| <= n && (i < |cs| - 1 ==> |cs[i]| == n) {
        if i > 0 {
          assert cs[i] == Chunks(xs[n..], n)[i - 1];
        }
      }
    }
  }

  lemma {:induction false} ChunkSizesOfChunks<T>(xs: seq<T>, n: nat)
    requires n >= 1
    ensures Sizes(Chunks(xs, n)) == ChunkSizes(|xs|, n)
    decreases |xs|
  {
    if |xs| > n {
      ChunkSizesOfChunks(xs[n..], n);
      var cs := Chunks(xs, n);
      assert cs[1..] == Chunks(xs[n..], n);
    }
  }

  lemma {:induction false} ChunkSizesSumToLength(len: nat, n: nat)
    requires n >= 1
    ensures Sum(ChunkSizes(len, n)) == len
    decreases len
  {
    if len > n {
      ChunkSizesSumToLength(len - n, n);
      var cs := ChunkSizes(len, n);
      assert cs[1..] == ChunkSizes(len - n, n);
    }
  }

  /** One step of the chunk loop: the remaining chunks are the next chunk, then the chunks after it. */
  lemma ChunksStep<T>(xs: seq<T>, i: nat, j: nat, n: nat)
    requires n >= 1 && i < |xs| && j == (if i + n <= |xs| then i + n else |xs|)
    ensures Chunks(xs[i..], n) == [xs[i..j]] + Chunks(xs[j..], n)
  {
    if |xs| - i > n {
      assert xs[i..][..n] == xs[i..j];
      assert xs[i..][n..] == xs[j..];
    } else {
      assert xs[i..] == xs[i..j];
      assert xs[j..] == [];
    }
  }

  lemma SumAppend(s: seq<nat>, x: nat)
    ensures Sum(s + [x]) == Sum(s) + x
  {
    if s != [] {
      assert (s + [x])[1..] == s[1..] + [x];
      SumAppend(s[1..], x);
    }
  }

  lemma SizesAppend<T>(cs: seq<seq<T>>, c: seq<T>)
    ensures Sizes(cs + [c]) == Sizes(cs) + [|c|]
  {
  }

  lemma {:induction false} DistinctLength<T>(xs: seq<T>)
    requires Distinct(xs)
    ensures |Elements(xs)| == |xs|
  {
    if xs != [] {
      var last := xs[|xs| - 1];
      var init := xs[..|xs| - 1];
      assert Distinct(init);
      DistinctLength(init);
      assert xs == init + [last];
      assert Elements(xs) == Elements(init) + {last};
      assert last !in Elements(init);
    }
  }

  lemma ElementsSplit<T>(xs: seq<T>, i: nat, j: nat)
    requires i <= j <= |xs|
    ensures Elements(xs[..j]) == Elements(xs[..i]) + Elements(xs[i..j])
  {
    assert xs[..j] == xs[..i] + xs[i..j];
  }

  /** Writing a key twice leaves only the second write. */
  lemma OverwriteTwice<K, V>(m: map<K, V>, k: K, a: V, b: V)
    ensures m[k := a][k := b] == m[k := b]
  {
  }

  /** The chunk loop's bookkeeping after one more chunk. */
  lemma ChunkLoopStep<T>(xs: seq<T>, i: nat, j: nat, n: nat, done: seq<seq<T>>, counts: seq<nat>)
    requires n >= 1 && i < |xs| && j == (if i + n <= |xs| then i + n else |xs|)
    requires done + Chunks(xs[i..], n) == Chunks(xs, n)
    requires counts == Sizes(done) && Sum(counts) == i
    ensures (done + [xs[i..j]]) + Chunks(xs[j..], n) == Chunks(xs, n)
    ensures counts + [j - i] == Sizes(done + [xs[i..j]])
    ensures Sum(counts + [j - i]) == j
  {
    ChunksStep(xs, i, j, n);
    assert (done + [xs[i..j]]) + Chunks(xs[j..], n) == done + ([xs[i..j]] + Chunks(xs[j..], n));
    SumAppend(counts, j - i);
    SizesAppend(done, xs[i..j]);
  }

  /** The chunk loop's bookkeeping once every element has been chunked. */
  lemma ChunkLoopDone<T>(xs: seq<T>, n: nat, done: seq<seq<T>>, counts: seq<nat>)
    requires n >= 1
    requires done + Chunks(xs[|xs|..], n) == Chunks(xs, n)
    requires counts == Sizes(done) && Sum(counts) == |xs|
    ensures done == Chunks(xs, n) && Flatten(done) == xs
    ensures counts == ChunkSizes(|xs|, n) && Sum(counts) == |xs|
  {
    assert xs[|xs|..] == [];
    assert done + [] == done;
    ChunkSizesOfChunks(xs, n);
    ChunksFlattenToInput(xs, n);
  }

  /** Moving one element from the rest to the end of the list keeps it an enumeration of what was moved. */
  lemma EnumerateStep<T>(xs: seq<T>, rest: set<T>, s: set<T>, k: T)
    requires Distinct(xs) && Elements(xs) !! rest && Elements(xs) + rest == s && k in rest
    ensures Distinct(xs + [k]) && Elements(xs + [k]) !! rest - {k} && Elements(xs + [k]) + (rest - {k}) == s
  {
    assert Elements(xs + [k]) == Elements(xs) + {k};
  }

  /** The rows a select query returns, as a list: every selected key once, in the database's order. */
  method EnumerateKeys<T>(s: set<T>) returns (xs: seq<T>)
    ensures IsEnumeration(xs, s)
  {
    xs := [];
    var rest := s;
    while rest != {}
      invariant Distinct(xs)
      invariant Elements(xs) !! rest
      invariant Elements(xs) + rest == s
      decreases |rest|
    {
      var k :| k in rest;
      EnumerateStep(xs, rest, s, k);
      xs := xs + [k];
      rest := rest - {k};
    }
  }

  // ---------------------------------------------------------------------
  // Metrics
  // ---------------------------------------------------------------------

  /** A metric value: a counter, or a list of chunk sizes (joined with commas in the log). */
  datatype Metric = Count(n: int) | ChunkList(sizes: seq<nat>)

  type Metrics = map<string, Metric>

  /** The current value of a counter; a counter not yet set is 0. */
  function CountOf(m: Metrics, name: string): int
  {
    if name in m && m[name].Count? then m[name].n else 0
  }

  /** `increment(name, value)`: add to a counter, leaving every other metric as it is. */
  function Increment(m: Metrics, name: string, value: int): Metrics
  {
    m[name := Count(CountOf(m, name) + value)]
  }

  /** An increment adds `value` to its own counter (0 if unset) and leaves every other metric alone. */
  lemma IncrementTouchesOnlyItsCounter(m: Metrics, name: string, value: int)
    ensures Increment(m, name, value).Keys == m.Keys + {name}
    ensures CountOf(Increment(m, name, value), name) == CountOf(m, name) + value
    ensures forall other :: other in m && other != name ==> Increment(m, name, value)[other] == m[other]
  {
  }

  /** The metrics `do_insert` records for one table: both counters and the chunk-size list. */
  function InsertMetrics(m: Metrics, table: string, sizes: seq<nat>): Metrics
  {
    Increment(Increment(m, "count.insert.total", Sum(sizes)), "count.insert." + table, Sum(sizes))
      ["count.insert.chunk." + table := ChunkList(sizes)]
  }

  /** The metrics `do_update` records for one table. */
  function UpdateMetrics(m: Metrics, table: string, sizes: seq<nat>): Metrics
  {
    Increment(Increment(m, "count.update.total", Sum(sizes)), "count.update." + table, Sum(sizes))
      ["count.update.chunk." + table := ChunkList(sizes)]
  }

  /** The metrics `do_mark_deleted` records: the total is incremented, the per-table counter is SET. */
  function DeleteMetrics(m: Metrics, table: string, count: nat): Metrics
  {
    Increment(m, "count.delete.total", count)["count.delete." + table := Count(count)]
  }

  lemma PrefixedNamesDiffer(prefix: string, table: string)
    ensures prefix + "chunk." + table != prefix + "total"
    ensures prefix + "chunk." + table != prefix + table
  {
    assert |prefix + "chunk." + table| > |prefix + "total"|;
    assert |prefix + "chunk." + table| > |prefix + table|;
  }

  /** Both insert counters grow by the insert total (for a table not itself named "total"). */
  lemma InsertCountersGrowByTotal(m: Metrics, table: string, sizes: seq<nat>)
    requires table != "total"
    ensures CountOf(InsertMetrics(m, table, sizes), "count.insert.total") == CountOf(m, "count.insert.total") + Sum(sizes)
    ensures CountOf(InsertMetrics(m, table, sizes), "count.insert." + table) == CountOf(m, "count.insert." + table) + Sum(sizes)
    ensures InsertMetrics(m, table, sizes)["count.insert.chunk." + table] == ChunkList(sizes)
  {
    PrefixedNamesDiffer("count.insert.", table);
    assert ("count.insert." + table)[13..] == table && "count.insert.total"[13..] == "total";
  }

  /** Both update counters grow by the update total (for a table not itself named "total"). */
  lemma UpdateCountersGrowByTotal(m: Metrics, table: string, sizes: seq<nat>)
    requires table != "total"
    ensures CountOf(UpdateMetrics(m, table, sizes), "count.update.total") == CountOf(m, "count.update.total") + Sum(sizes)
    ensures CountOf(UpdateMetrics(m, table, sizes), "count.update." + table) == CountOf(m, "count.update." + table) + Sum(sizes)
    ensures UpdateMetrics(m, table, sizes)["count.update.chunk." + table] == ChunkList(sizes)
  {
    PrefixedNamesDiffer("count.update.", table);
    assert ("count.update." + table)[13..] == table && "count.update.total"[13..] == "total";
  }

  // ---------------------------------------------------------------------
  // One table pass and one run, as functions of the state before
  // ---------------------------------------------------------------------

  /** The step of a table's load during which a database error is raised. */
  datatype Step = UpdateStep | InsertStep | DeleteStep

  datatype LoadCounts = LoadCounts(inserted: nat, updated: nat, deleted: nat)

  /** `do_update`: every matched row takes the source columns and `transformed_at = NULL`. */
  function UpdatePass(f: ForeignTable, s: StagingTable): StagingTable
  {
    ApplyUpdate(f, s, UpdatedKeys(f, s), true)
  }

  /** `do_insert`: every new key's source row is added. */
  function InsertPass(f: ForeignTable, s: StagingTable): StagingTable
  {
    ApplyInsert(f, s, NewKeys(f, s))
  }

  /** `do_mark_deleted`: vanished live rows are flagged, stamped and reset for transform. */
  function DeletePass(f: ForeignTable, s: StagingTable, now: Timestamp): StagingTable
  {
    ApplyMarkDeleted(f, s, Some(now))
  }

  /** `load_data_for_table` when every statement succeeds: update, then insert, then mark-deleted. */
  function TablePass(f: ForeignTable, s: StagingTable, now: Timestamp): StagingTable
  {
    DeletePass(f, InsertPass(f, UpdatePass(f, s)), now)
  }

  /**
   * What `load_data_for_table` returns or raises. A chunk size below one makes
   * `itertools.batched` raise in `do_update`, before anything is written or counted.
   */
  function TableResult(f: ForeignTable, s: StagingTable, fault: Option<Step>, chunkSize: int): Result<LoadCounts, Step>
  {
    if chunkSize < 1 || fault == Some(UpdateStep) then Err(UpdateStep)
    else if fault == Some(InsertStep) then Err(InsertStep)
    else if fault == Some(DeleteStep) then Err(DeleteStep)
    else
      var s1 := UpdatePass(f, s);
      var s2 := InsertPass(f, s1);
      Ok(LoadCounts(|NewKeys(f, s1)|, |UpdatedKeys(f, s)|, |DeletedKeys(f, s2)|))
  }

  /** The metrics after one table's attempt: the steps that completed before a failure keep their counts. */
  function TableMetrics(m: Metrics, table: string, f: ForeignTable, s: StagingTable, fault: Option<Step>, chunkSize: int): Metrics
  {
    if chunkSize < 1 || fault == Some(UpdateStep) then m
    else
      var s1 := UpdatePass(f, s);
      var m1 := UpdateMetrics(m, table, ChunkSizes(|UpdatedKeys(f, s)|, chunkSize));
      if fault == Some(InsertStep) then m1
      else
        var m2 := InsertMetrics(m1, table, ChunkSizes(|NewKeys(f, s1)|, chunkSize));
        if fault == Some(DeleteStep) then m2
        else DeleteMetrics(m2, table, |DeletedKeys(f, InsertPass(f, s1))|)
  }

  /** A table's staging rows after its transaction: the full pass when it commits, the old rows when it rolls back. */
  function TableAfterRun(f: ForeignTable, s: StagingTable, fault: Option<Step>, chunkSize: int, now: Timestamp): StagingTable
  {
    if TableResult(f, s, fault, chunkSize).Ok? then TablePass(f, s, now) else s
  }

  /** A table's staging rows when `load_data_for_table` returns or raises, before any rollback. */
  function TableAttempt(f: ForeignTable, s: StagingTable, fault: Option<Step>, chunkSize: int, now: Timestamp): StagingTable
  {
    if chunkSize < 1 || fault == Some(UpdateStep) then s
    else if fault == Some(InsertStep) then UpdatePass(f, s)
    else if fault == Some(DeleteStep) then InsertPass(f, UpdatePass(f, s))
    else TablePass(f, s, now)
  }

  function FaultOf(faults: map<string, Step>, table: string): Option<Step>
  {
    if table in faults then Some(faults[table]) else None
  }

  predicate Covers(names: seq<string>, foreign: map<string, ForeignTable>, staging: map<string, StagingTable>)
  {
    forall n :: n in names ==> n in foreign && n in staging
  }

  /** The metrics after attempting the tables `names` in order. */
  function RunMetrics(m: Metrics, names: seq<string>, foreign: map<string, ForeignTable>,
                      staging: map<string, StagingTable>, faults: map<string, Step>, chunkSize: int): Metrics
    requires Covers(names, foreign, staging)
    decreases |names|
  {
    if names == [] then m
    else
      var last := names[|names| - 1];
      TableMetrics(RunMetrics(m, names[..|names| - 1], foreign, staging, faults, chunkSize),
                   last, foreign[last], staging[last], FaultOf(faults, last), chunkSize)
  }

  /** The staging tables after attempting the tables `names` in order, each committed or rolled back. */
  function RunStaging(staging: map<string, StagingTable>, names: seq<string>, foreign: map<string, ForeignTable>,
                      faults: map<string, Step>, chunkSize: int, now: Timestamp): map<string, StagingTable>
    requires Covers(names, foreign, staging)
    decreases |names|
  {
    if names == [] then staging
    else
      var last := names[|names| - 1];
      RunStaging(staging, names[..|names| - 1], foreign, faults, chunkSize, now)
        [last := TableAfterRun(foreign[last], staging[last], FaultOf(faults, last), chunkSize, now)]
  }

  /** The tables logged with "table load error", in order. */
  function FailedTables(names: seq<string>, foreign: map<string, ForeignTable>,
                        staging: map<string, StagingTable>, faults: map<string, Step>, chunkSize: int): seq<string>
    requires Covers(names, foreign, staging)
    decreases |names|
  {
    if names == [] then []
    else
      var last := names[|names| - 1];
      FailedTables(names[..|names| - 1], foreign, staging, faults, chunkSize) +
        (if TableResult(foreign[last], staging[last], FaultOf(faults, last), chunkSize).Err? then [last] else [])
  }

  // ---------------------------------------------------------------------
  // Properties of a table pass
  // ---------------------------------------------------------------------

  /** After a pass every source key has a staging row; a key new to staging holds the source row, live. */
  lemma PassStagesEverySourceRow(f: ForeignTable, s: StagingTable, now: Timestamp)
    ensures var p := TablePass(f, s, now);
      f.Keys <= p.Keys && p.Keys == s.Keys + f.Keys &&
      forall k :: k in f && k !in s ==>
        p[k].values == f[k].values && p[k].lastUpdDate == f[k].lastUpdDate && !p[k].isDeleted
  {
    var s1 := UpdatePass(f, s);
    var s2 := InsertPass(f, s1);
    forall k | k in f && k !in s
      ensures TablePass(f, s, now)[k] == s2[k] && s2[k] == NewStagingRow(f[k])
    {
      assert k in NewKeys(f, s1);
      assert k !in DeletedKeys(f, s2);
    }
  }

  /**
   * After a pass every staging row whose key is not in the source is a
   * tombstone; the rows this pass flagged carry `deleted_at = now` and
   * `transformed_at = NULL`.
   */
  lemma PassTombstonesVanishedRows(f: ForeignTable, s: StagingTable, now: Timestamp)
    ensures var p := TablePass(f, s, now);
      (forall k :: k in p && k !in f ==> p[k].isDeleted) &&
      (forall k :: k in DeletedKeys(f, s) ==>
         p[k].deletedAt == Some(now) && p[k].transformedAt == None && p[k].values == s[k].values)
  {
    var s1 := UpdatePass(f, s);
    var s2 := InsertPass(f, s1);
    forall k | k in s2 && k !in f ensures s2[k] == s[k] {
      assert k !in UpdatedKeys(f, s);
    }
    assert DeletedKeys(f, s2) == DeletedKeys(f, s);
  }

  /** Every row the update step rewrote holds the source columns and needs re-transform after the pass. */
  lemma PassResetsUpdatedRows(f: ForeignTable, s: StagingTable, now: Timestamp)
    ensures var p := TablePass(f, s, now);
      forall k :: k in UpdatedKeys(f, s) ==>
        p[k].values == f[k].values && p[k].lastUpdDate == f[k].lastUpdDate &&
        p[k].transformedAt == None && p[k].isDeleted == s[k].isDeleted
  {
    var s1 := UpdatePass(f, s);
    var s2 := InsertPass(f, s1);
    forall k | k in UpdatedKeys(f, s) ensures s2[k] == s1[k] && k !in DeletedKeys(f, s2) {
    }
  }

  /** The counts a successful pass reports are the sizes of the three key sets of the state before. */
  lemma PassCountsAreKeySetSizes(f: ForeignTable, s: StagingTable, chunkSize: int)
    requires chunkSize >= 1
    ensures TableResult(f, s, None, chunkSize) ==
      Ok(LoadCounts(|NewKeys(f, s)|, |UpdatedKeys(f, s)|, |DeletedKeys(f, s)|))
  {
    var s1 := UpdatePass(f, s);
    var s2 := InsertPass(f, s1);
    assert NewKeys(f, s1) == NewKeys(f, s);
    forall k | k in s2 ensures (k in DeletedKeys(f, s2)) == (k in DeletedKeys(f, s)) {
      if k !in f {
        assert s2[k] == s1[k];
        assert s1[k] == s[k] by { assert k !in UpdatedKeys(f, s); }
      }
    }
    assert DeletedKeys(f, s2) == DeletedKeys(f, s);
  }

  /** After a pass, the source has no new, updated or vanished rows left against the staging table. */
  lemma PassLeavesNothingToDo(f: ForeignTable, s: StagingTable, now: Timestamp)
    ensures var p := TablePass(f, s, now);
      NewKeys(f, p) == {} && UpdatedKeys(f, p) == {} && DeletedKeys(f, p) == {}
  {
    var s1 := UpdatePass(f, s);
    var s2 := InsertPass(f, s1);
    var p := TablePass(f, s, now);
    PassStagesEverySourceRow(f, s, now);
    PassTombstonesVanishedRows(f, s, now);
    assert NewKeys(f, p) == {};
    forall k | k in f && k in p ensures !OlderThan(p[k].lastUpdDate, f[k].lastUpdDate) {
      assert p[k].lastUpdDate == s2[k].lastUpdDate;
      if k in s && k !in UpdatedKeys(f, s) {
        assert s2[k] == s1[k] == s[k];
      }
    }
  }

  /** A pass that finds nothing to do leaves the staging table as it is. */
  lemma QuietPassChangesNothing(f: ForeignTable, p: StagingTable, now: Timestamp)
    requires NewKeys(f, p) == {} && UpdatedKeys(f, p) == {} && DeletedKeys(f, p) == {}
    ensures TablePass(f, p, now) == p
  {
    assert UpdatePass(f, p) == p by {
      var u := UpdatePass(f, p);
      assert u.Keys == p.Keys;
      forall k | k in p ensures u[k] == p[k] { }
    }
    assert InsertPass(f, p) == p by {
      assert InsertSelectRows(f, p, {}) == map[];
      assert p + map[] == p;
    }
    NothingToMarkIsNoChange(f, p, Some(now));
  }

  /**
   * A second pass over an unchanged source finds no new, updated or deleted
   * rows, and leaves the staging table exactly as the first pass left it.
   */
  lemma SecondPassIsQuiet(f: ForeignTable, s: StagingTable, now: Timestamp, later: Timestamp, chunkSize: int)
    requires chunkSize >= 1
    ensures var p := TablePass(f, s, now);
      TableResult(f, p, None, chunkSize) == Ok(LoadCounts(0, 0, 0)) &&
      TablePass(f, p, later) == p
  {
    var p := TablePass(f, s, now);
    PassLeavesNothingToDo(f, s, now);
    PassCountsAreKeySetSizes(f, p, chunkSize);
    QuietPassChangesNothing(f, p, later);
  }

  /**
   * A key that was tombstoned and reappears in the source with a newer
   * watermark is rewritten but stays flagged deleted: the three statements
   * have no revive path.
   */
  lemma ReappearingKeyStaysTombstoned(f: ForeignTable, s: StagingTable, now: Timestamp, k: Key)
    requires k in f && k in s && s[k].isDeleted
    requires OlderThan(s[k].lastUpdDate, f[k].lastUpdDate)
    ensures var p := TablePass(f, s, now);
      p[k].isDeleted && p[k].values == f[k].values && p[k].deletedAt == s[k].deletedAt
  {
    assert k in UpdatedKeys(f, s);
    PassResetsUpdatedRows(f, s, now);
    var s2 := InsertPass(f, UpdatePass(f, s));
    assert k !in DeletedKeys(f, s2);
  }

  /** The two statements `do_update` and `do_insert` execute once per chunk of keys. */
  datatype ChunkStatement = UpdateFromSource | InsertSelect

  /** One chunk's statement: the update resets `transformed_at`, the insert copies absent rows. */
  function ExecuteChunk(stmt: ChunkStatement, f: ForeignTable, s: StagingTable, chunk: set<Key>): StagingTable
  {
    match stmt
    case UpdateFromSource => ApplyUpdate(f, s, chunk, true)
    case InsertSelect => ApplyInsert(f, s, chunk)
  }

  /** The staging rows after the chunks `keys[..i]` and then `keys[i..j]`. */
  lemma ExecuteChunkStep(stmt: ChunkStatement, f: ForeignTable, s0: StagingTable, keys: seq<Key>, i: nat, j: nat)
    requires i <= j <= |keys|
    ensures ExecuteChunk(stmt, f, ExecuteChunk(stmt, f, s0, Elements(keys[..i])), Elements(keys[i..j]))
         == ExecuteChunk(stmt, f, s0, Elements(keys[..j]))
  {
    ElementsSplit(keys, i, j);
    match stmt
    case UpdateFromSource => UpdateChunksCompose(f, s0, Elements(keys[..i]), Elements(keys[i..j]), true);
    case InsertSelect => InsertChunksCompose(f, s0, Elements(keys[..i]), Elements(keys[i..j]));
  }

  /** Executing a statement on no keys changes nothing. */
  lemma ExecuteNoKeys(stmt: ChunkStatement, f: ForeignTable, s: StagingTable)
    ensures ExecuteChunk(stmt, f, s, {}) == s
  {
    match stmt
    case UpdateFromSource =>
    case InsertSelect =>
      assert InsertSelectRows(f, s, {}) == map[];
      assert s + map[] == s;
  }

  /**
   * The `for batch in itertools.batched(ids, n)` loop of `do_update` and
   * `do_insert`: execute the statement once per chunk and collect the chunk
   * sizes. The chunks together cover every key exactly once.
   */
  method ExecuteInBatches(stmt: ChunkStatement, f: ForeignTable, s0: StagingTable, keys: seq<Key>, n: nat)
    returns (s: StagingTable, chunkCount: seq<nat>, ghost batches: seq<seq<Key>>)
    requires n >= 1
    ensures s == ExecuteChunk(stmt, f, s0, Elements(keys))
    ensures batches == Chunks(keys, n) && Flatten(batches) == keys
    ensures chunkCount == Sizes(batches) && chunkCount == ChunkSizes(|keys|, n) && Sum(chunkCount) == |keys|
  {
    s := s0;
    chunkCount := [];
    batches := [];
    var i := 0;
    assert Elements(keys[..0]) == {};
    ExecuteNoKeys(stmt, f, s0);
    while i < |keys|
      invariant 0 <= i <= |keys|
      invariant batches + Chunks(keys[i..], n) == Chunks(keys, n)
      invariant chunkCount == Sizes(batches) && Sum(chunkCount) == i
      invariant s == ExecuteChunk(stmt, f, s0, Elements(keys[..i]))
    {
      var j := if i + n <= |keys| then i + n else |keys|;
      var batch := keys[i..j];
      ChunkLoopStep(keys, i, j, n, batches, chunkCount);
      ExecuteChunkStep(stmt, f, s0, keys, i, j);
      s := ExecuteChunk(stmt, f, s, Elements(batch));
      chunkCount := chunkCount + [|batch|];
      batches := batches + [batch];
      i := j;
    }
    assert keys[..i] == keys;
    ChunkLoopDone(keys, n, batches, chunkCount);
  }

  lemma RunStep(m: Metrics, names: seq<string>, i: nat, foreign: map<string, ForeignTable>,
                staging: map<string, StagingTable>, faults: map<string, Step>, chunkSize: int, now: Timestamp)
    requires i < |names| && Covers(names, foreign, staging)
    ensures Covers(names[..i], foreign, staging) && Covers(names[..i + 1], foreign, staging)
    ensures RunMetrics(m, names[..i + 1], foreign, staging, faults, chunkSize) ==
      TableMetrics(RunMetrics(m, names[..i], foreign, staging, faults, chunkSize),
                   names[i], foreign[names[i]], staging[names[i]], FaultOf(faults, names[i]), chunkSize)
    ensures FailedTables(names[..i + 1], foreign, staging, faults, chunkSize) ==
      FailedTables(names[..i], foreign, staging, faults, chunkSize) +
        (if TableResult(foreign[names[i]], staging[names[i]], FaultOf(faults, names[i]), chunkSize).Err? then [names[i]] else [])
    ensures RunStaging(staging, names[..i + 1], foreign, faults, chunkSize, now) ==
      RunStaging(staging, names[..i], foreign, faults, chunkSize, now)
        [names[i] := TableAfterRun(foreign[names[i]], staging[names[i]], FaultOf(faults, names[i]), chunkSize, now)]
  {
    assert names[..i + 1][..i] == names[..i];
  }

  /** Each table's final rows depend only on its own attempt; untouched tables keep their rows. */
  lemma {:induction false} RunStagingPointwise(staging: map<string, StagingTable>, names: seq<string>,
                                               foreign: map<string, ForeignTable>, faults: map<string, Step>,
                                               chunkSize: int, now: Timestamp)
    requires Covers(names, foreign, staging)
    ensures RunStaging(staging, names, foreign, faults, chunkSize, now).Keys == staging.Keys
    ensures forall n :: n in staging ==>
      RunStaging(staging, names, foreign, faults, chunkSize, now)[n] ==
        (if n in names then TableAfterRun(foreign[n], staging[n], FaultOf(faults, n), chunkSize, now) else staging[n])
  {
    if names != [] {
      var init := names[..|names| - 1];
      assert Covers(init, foreign, staging);
      RunStagingPointwise(staging, init, foreign, faults, chunkSize, now);
      forall n | n in staging
        ensures (n in names) == (n in init || n == names[|names| - 1])
      {
        assert names == init + [names[|names| - 1]];
      }
    }
  }

  /** One iteration of `load_data`: the state after `names[..i]` and table `names[i]` is the state after `names[..i + 1]`. */
  lemma LoadDataStep(m0: Metrics, names: seq<string>, i: nat, foreign: map<string, ForeignTable>,
                     s0: map<string, StagingTable>, faults: map<string, Step>, chunkSize: int, now: Timestamp,
                     staging: map<string, StagingTable>, metrics: Metrics, failed: seq<string>, ok: bool,
                     staging': map<string, StagingTable>, metrics': Metrics)
    requires i < |names| && Distinct(names) && Covers(names, foreign, s0)
    requires staging == RunStaging(s0, names[..i], foreign, faults, chunkSize, now)
    requires metrics == RunMetrics(m0, names[..i], foreign, s0, faults, chunkSize)
    requires failed == FailedTables(names[..i], foreign, s0, faults, chunkSize)
    requires names[i] in staging
    requires ok == TableResult(foreign[names[i]], staging[names[i]], FaultOf(faults, names[i]), chunkSize).Ok?
    requires metrics' == TableMetrics(metrics, names[i], foreign[names[i]], staging[names[i]], FaultOf(faults, names[i]), chunkSize)
    requires staging' == staging[names[i] := TableAfterRun(foreign[names[i]], staging[names[i]], FaultOf(faults, names[i]), chunkSize, now)]
    ensures Covers(names[..i + 1], foreign, s0)
    ensures staging' == RunStaging(s0, names[..i + 1], foreign, faults, chunkSize, now)
    ensures metrics' == RunMetrics(m0, names[..i + 1], foreign, s0, faults, chunkSize)
    ensures failed + (if ok then [] else [names[i]]) == FailedTables(names[..i + 1], foreign, s0, faults, chunkSize)
  {
    assert names[i] !in names[..i];
    RunStep(m0, names, i, foreign, s0, faults, chunkSize, now);
    RunStagingPointwise(s0, names[..i], foreign, faults, chunkSize, now);
    assert staging[names[i]] == s0[names[i]];
  }

  /** A commit keeps what the attempt wrote; a rollback restores the rows from before. */
  lemma AttemptThenRollback(f: ForeignTable, s: StagingTable, fault: Option<Step>, chunkSize: int, now: Timestamp)
    ensures TableAfterRun(f, s, fault, chunkSize, now) ==
      (if TableResult(f, s, fault, chunkSize).Ok? then TableAttempt(f, s, fault, chunkSize, now) else s)
  {
  }

  /** Rewriting a key with its own value changes nothing. */
  lemma WriteBack<K, V>(m: map<K, V>, k: K)
    requires k in m
    ensures m[k := m[k]] == m
  {
  }

  // ---------------------------------------------------------------------
  // The task
  // ---------------------------------------------------------------------

  class LoadOracleDataTask {
    /** The iteration order of the `foreign_tables` dictionary. */
    const tableNames: seq<string>
    /** The legacy table contents, by table name (read only). */
    const foreignTables: map<string, ForeignTable>
    /** The staging table contents, by table name: the database state the session writes. */
    var stagingTables: map<string, StagingTable>
    /** The task's metrics. */
    var metrics: Metrics
    const insertChunkSize: int

    ghost predicate Valid()
      reads this
    {
      && Distinct(tableNames)
      && (forall n :: n in tableNames <==> n in foreignTables)
      && foreignTables.Keys == stagingTables.Keys
    }

    /** The part of `__init__` after its key check. */
    constructor (names: seq<string>, foreign: map<string, ForeignTable>, staging: map<string, StagingTable>, chunkSize: int)
      requires Distinct(names) && (forall n :: n in names <==> n in foreign)
      requires foreign.Keys == staging.Keys
      ensures Valid()
      ensures tableNames == names && foreignTables == foreign && stagingTables == staging
      ensures insertChunkSize == chunkSize && metrics == map[]
    {
      tableNames := names;
      foreignTables := foreign;
      stagingTables := staging;
      insertChunkSize := chunkSize;
      metrics := map[];
    }

    /**
     * `__init__`: refuse table dictionaries whose key sets differ. `names`
     * is the iteration order of the foreign dictionary.
     */
    static method Create(names: seq<string>, foreign: map<string, ForeignTable>, staging: map<string, StagingTable>,
                         chunkSize: int := DefaultInsertChunkSize)
      returns (r: Result<LoadOracleDataTask, string>)
      requires Distinct(names) && (forall n :: n in names <==> n in foreign)
      ensures r.Err? <==> foreign.Keys != staging.Keys
      ensures r.Err? ==> r.error == TableKeysMismatch
      ensures r.Ok? ==>
        (fresh(r.value) && r.value.Valid() && r.value.tableNames == names &&
         r.value.foreignTables == foreign && r.value.stagingTables == staging &&
         r.value.insertChunkSize == chunkSize && r.value.metrics == map[])
    {
      if foreign.Keys != staging.Keys {
        return Err(TableKeysMismatch);
      }
      var task := new LoadOracleDataTask(names, foreign, staging, chunkSize);
      return Ok(task);
    }

    /**
     * `do_update`: select the updatable keys, update them chunk by chunk with
     * `transformed_at = NULL`, then record the counters and chunk sizes.
     * `ids` is the order the select returned, `batches` the chunks executed.
     */
    method DoUpdate(table: string) returns (total: nat, ghost ids: seq<Key>, ghost batches: seq<seq<Key>>)
      requires Valid() && table in foreignTables && insertChunkSize >= 1
      modifies this
      ensures Valid()
      ensures stagingTables == old(stagingTables)[table := UpdatePass(foreignTables[table], old(stagingTables)[table])]
      ensures total == |UpdatedKeys(foreignTables[table], old(stagingTables)[table])|
      ensures metrics == UpdateMetrics(old(metrics), table, ChunkSizes(total, insertChunkSize))
      ensures IsEnumeration(ids, UpdatedKeys(foreignTables[table], old(stagingTables)[table]))
      ensures batches == Chunks(ids, insertChunkSize) && Flatten(batches) == ids
    {
      var f := foreignTables[table];
      var s0 := stagingTables[table];
      var keys := EnumerateKeys(UpdatedKeys(f, s0));
      ids := keys;
      var s1, updateChunkCount;
      s1, updateChunkCount, batches := ExecuteInBatches(UpdateFromSource, f, s0, keys, insertChunkSize);
      DistinctLength(keys);
      stagingTables := stagingTables[table := s1];
      total := Sum(updateChunkCount);
      metrics := Increment(metrics, "count.update.total", total);
      metrics := Increment(metrics, "count.update." + table, total);
      metrics := metrics["count.update.chunk." + table := ChunkList(updateChunkCount)];
    }

    /**
     * `do_insert`: select the new keys, insert them chunk by chunk, then
     * record the counters and chunk sizes.
     */
    method DoInsert(table: string) returns (total: nat, ghost ids: seq<Key>, ghost batches: seq<seq<Key>>)
      requires Valid() && table in foreignTables && insertChunkSize >= 1
      modifies this
      ensures Valid()
      ensures stagingTables == old(stagingTables)[table := InsertPass(foreignTables[table], old(stagingTables)[table])]
      ensures total == |NewKeys(foreignTables[table], old(stagingTables)[table])|
      ensures metrics == InsertMetrics(old(metrics), table, ChunkSizes(total, insertChunkSize))
      ensures IsEnumeration(ids, NewKeys(foreignTables[table], old(stagingTables)[table]))
      ensures batches == Chunks(ids, insertChunkSize) && Flatten(batches) == ids
    {
      var f := foreignTables[table];
      var s0 := stagingTables[table];
      var keys := EnumerateKeys(NewKeys(f, s0));
      ids := keys;
      var s1, insertChunkCount;
      s1, insertChunkCount, batches := ExecuteInBatches(InsertSelect, f, s0, keys, insertChunkSize);
      DistinctLength(keys);
      stagingTables := stagingTables[table := s1];
      total := Sum(insertChunkCount);
      metrics := Increment(metrics, "count.insert.total", total);
      metrics := Increment(metrics, "count.insert." + table, total);
      metrics := metrics["count.insert.chunk." + table := ChunkList(insertChunkCount)];
    }

    /** `do_mark_deleted`: one statement, stamped with `now`; the row count is the number flagged. */
    method DoMarkDeleted(table: string, now: Timestamp) returns (deleteCount: nat)
      requires Valid() && table in foreignTables
      modifies this
      ensures Valid()
      ensures stagingTables == old(stagingTables)[table := DeletePass(foreignTables[table], old(stagingTables)[table], now)]
      ensures deleteCount == |DeletedKeys(foreignTables[table], old(stagingTables)[table])|
      ensures metrics == DeleteMetrics(old(metrics), table, deleteCount)
    {
      var f := foreignTables[table];
      var s0 := stagingTables[table];
      stagingTables := stagingTables[table := ApplyMarkDeleted(f, s0, Some(now))];
      deleteCount := |DeletedKeys(f, s0)|;
      metrics := Increment(metrics, "count.delete.total", deleteCount);
      metrics := metrics["count.delete." + table := Count(deleteCount)];
    }

    /**
     * `load_data_for_table`: update, insert, mark-deleted, in that order.
     * `fault` is the step whose statement raises a database error, if any;
     * on an error the staging rows written so far are left for the caller's
     * transaction to roll back.
     */
    method LoadDataForTable(table: string, fault: Option<Step>, now: Timestamp) returns (r: Result<LoadCounts, Step>)
      requires Valid() && table in foreignTables
      modifies this
      ensures Valid()
      ensures r == TableResult(foreignTables[table], old(stagingTables)[table], fault, insertChunkSize)
      ensures metrics == TableMetrics(old(metrics), table, foreignTables[table], old(stagingTables)[table], fault, insertChunkSize)
      ensures stagingTables == old(stagingTables)[table := TableAttempt(foreignTables[table], old(stagingTables)[table], fault, insertChunkSize, now)]
    {
      ghost var all := stagingTables;
      if insertChunkSize < 1 || fault == Some(UpdateStep) {
        WriteBack(all, table);
        return Err(UpdateStep);
      }
      ghost var f, s, m := foreignTables[table], stagingTables[table], metrics;
      ghost var s1 := UpdatePass(f, s);
      ghost var m1 := UpdateMetrics(m, table, ChunkSizes(|UpdatedKeys(f, s)|, insertChunkSize));
      var updated, _, _ := DoUpdate(table);
      assert stagingTables == all[table := s1] && metrics == m1;
      if fault == Some(InsertStep) {
        return Err(InsertStep);
      }
      ghost var s2 := InsertPass(f, s1);
      ghost var m2 := InsertMetrics(m1, table, ChunkSizes(|NewKeys(f, s1)|, insertChunkSize));
      var inserted, _, _ := DoInsert(table);
      OverwriteTwice(all, table, s1, s2);
      assert stagingTables == all[table := s2] && metrics == m2;
      if fault == Some(DeleteStep) {
        return Err(DeleteStep);
      }
      var deleted := DoMarkDeleted(table, now);
      OverwriteTwice(all, table, s2, TablePass(f, s, now));
      r := Ok(LoadCounts(inserted, updated, deleted));
    }

    /**
     * One iteration of `load_data`: `load_data_for_table` inside its own
     * transaction. An exception rolls the table's rows back and is logged;
     * `ok` is false exactly then.
     */
    method LoadTableInTransaction(table: string, fault: Option<Step>, now: Timestamp) returns (ok: bool)
      requires Valid() && table in foreignTables
      modifies this
      ensures Valid()
      ensures ok == TableResult(foreignTables[table], old(stagingTables)[table], fault, insertChunkSize).Ok?
      ensures metrics == TableMetrics(old(metrics), table, foreignTables[table], old(stagingTables)[table], fault, insertChunkSize)
      ensures stagingTables == old(stagingTables)[table := TableAfterRun(foreignTables[table], old(stagingTables)[table], fault, insertChunkSize, now)]
    {
      ghost var all := stagingTables;
      var before := stagingTables[table];
      ghost var attempt := TableAttempt(foreignTables[table], before, fault, insertChunkSize, now);
      AttemptThenRollback(foreignTables[table], before, fault, insertChunkSize, now);
      var r := LoadDataForTable(table, fault, now);
      ok := r.Ok?;
      if !ok {
        OverwriteTwice(all, table, attempt, before);
        stagingTables := stagingTables[table := before];
      }
    }

    /**
     * `load_data`: every table in order, each in its own transaction. A
     * table whose load raises is rolled back and logged; the loop goes on.
     * Returns the tables logged as failed.
     */
    method LoadData(faults: map<string, Step>, now: Timestamp) returns (failed: seq<string>)
      requires Valid()
      modifies this
      ensures Valid()
      ensures Covers(tableNames, foreignTables, old(stagingTables))
      ensures stagingTables == RunStaging(old(stagingTables), tableNames, foreignTables, faults, insertChunkSize, now)
      ensures metrics == RunMetrics(old(metrics), tableNames, foreignTables, old(stagingTables), faults, insertChunkSize)
      ensures failed == FailedTables(tableNames, foreignTables, old(stagingTables), faults, insertChunkSize)
    {
      ghost var s0 := stagingTables;
      var i := 0;
      failed := [];
      assert tableNames[..0] == [];
      while i < |tableNames|
        invariant 0 <= i <= |tableNames|
        invariant Valid() && Covers(tableNames, foreignTables, s0)
        invariant stagingTables == RunStaging(s0, tableNames[..i], foreignTables, faults, insertChunkSize, now)
        invariant metrics == RunMetrics(old(metrics), tableNames[..i], foreignTables, s0, faults, insertChunkSize)
        invariant failed == FailedTables(tableNames[..i], foreignTables, s0, faults, insertChunkSize)
      {
        var name := tableNames[i];
        ghost var staging, m := stagingTables, metrics;
        RunStagingPointwise(s0, tableNames[..i], foreignTables, faults, insertChunkSize, now);
        var ok := LoadTableInTransaction(name, FaultOf(faults, name), now);
        LoadDataStep(old(metrics), tableNames, i, foreignTables, s0, faults, insertChunkSize, now,
                     staging, m, failed, ok, stagingTables, metrics);
        if !ok {
          failed := failed + [name];
        }
        i := i + 1;
      }
      assert tableNames[..i] == tableNames;
    }
  }
}
