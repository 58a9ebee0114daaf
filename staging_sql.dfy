/**
 * The three set-based statements that copy a legacy (foreign) table into its
 * staging table, as relations over keyed tables.
 *
 * A table is a map from its primary-key tuple to the rest of the row, so
 * "the whole key tuple is (not) in the other table" is map membership, for
 * one-column and many-column keys alike.
 */
module StagingSql {
  import opened Wrappers

  /** A column value of a legacy row. */
  datatype Value = Null | Int(i: int) | Text(s: string) | Bool(b: bool) | Time(t: int)

  /** A primary-key tuple `(id1, id2, ...)`. */
  type Key = seq<Value>

  /** A point in time (a `timestamp` column). */
  type Timestamp = int

  /** The shape of a table: its columns in declaration order and its primary key columns. */
  datatype TableDef = TableDef(name: string, columns: seq<string>, primaryKey: seq<string>)

  /**
   * A foreign row: the values of all its columns other than the watermark,
   * and the nullable `last_upd_date` watermark.
   */
  datatype ForeignRow = ForeignRow(values: seq<Value>, lastUpdDate: Option<Timestamp>)

  /** A staging row: the foreign columns plus the staging-only bookkeeping columns. */
  datatype StagingRow = StagingRow(
    values: seq<Value>,
    lastUpdDate: Option<Timestamp>,
    isDeleted: bool,
    transformedAt: Option<Timestamp>,
    deletedAt: Option<Timestamp>)

  type ForeignTable = map<Key, ForeignRow>
  type StagingTable = map<Key, StagingRow>

  const IsDeletedColumn := "is_deleted"

  // ---------------------------------------------------------------------
  // INSERT INTO staging (...) SELECT ..., FALSE FROM foreign WHERE key NOT IN staging
  // ---------------------------------------------------------------------

  /** The target column list of the insert: every source column in order, then `is_deleted`. */
  function InsertColumns(source: TableDef): (cols: seq<string>)
    ensures |cols| == |source.columns| + 1
    ensures cols[..|source.columns|] == source.columns
    ensures cols[|source.columns|] == IsDeletedColumn
  {
    source.columns + [IsDeletedColumn]
  }

  /** The primary keys the select-new-rows query returns. */
  function NewKeys(src: ForeignTable, dst: StagingTable): set<Key>
  {
    set k | k in src && k !in dst
  }

  /** The staging row a copied foreign row becomes; the nullable columns take their NULL default. */
  function NewStagingRow(f: ForeignRow): StagingRow
  {
    StagingRow(f.values, f.lastUpdDate, false, None, None)
  }

  /**
   * The rows the insert-from-select adds when it is restricted to the keys of
   * one chunk (the statement's properties are `InsertSelectCopiesAbsentRows`).
   */
  function InsertSelectRows(src: ForeignTable, dst: StagingTable, chunk: set<Key>): (rows: StagingTable)
    ensures rows.Keys == (src.Keys * chunk) - dst.Keys
  {
    map k | k in src && k in chunk && k !in dst :: NewStagingRow(src[k])
  }

  /**
   * The insert-select builder: the insert statement, given by the table it
   * produces, and the select it reads from, given by the rows it returns.
   * The select returns the chunk's source rows whose key is absent from the
   * destination, each as a live staging row; the insert adds exactly those
   * and keeps every existing row.
   */
  function BuildInsertSelect(src: ForeignTable, dst: StagingTable, chunk: set<Key>): (r: (StagingTable, StagingTable))
    ensures r.1.Keys == (src.Keys * chunk) - dst.Keys
    ensures forall k :: k in r.1 ==> r.1[k] == NewStagingRow(src[k])
    ensures r.0.Keys == dst.Keys + r.1.Keys
    ensures forall k :: k in dst ==> r.0[k] == dst[k]
    ensures forall k :: k in r.1 ==> r.0[k] == r.1[k]
  {
    var rows := InsertSelectRows(src, dst, chunk);
    (dst + rows, rows)
  }

  /** The destination after executing the insert statement the builder returns for one chunk. */
  function ApplyInsert(src: ForeignTable, dst: StagingTable, chunk: set<Key>): (r: StagingTable)
    ensures r.Keys == dst.Keys + NewKeys(src, dst) * chunk
  {
    BuildInsertSelect(src, dst, chunk).0
  }

  /**
   * The insert selects exactly the source rows of the chunk whose key tuple
   * is absent from the destination, each copied with `is_deleted = false`;
   * every existing row is left as it is.
   */
  lemma InsertSelectCopiesAbsentRows(src: ForeignTable, dst: StagingTable, chunk: set<Key>)
    ensures var rows := InsertSelectRows(src, dst, chunk);
      && rows.Keys == (src.Keys * chunk) - dst.Keys
      && (forall k :: k in rows ==>
            rows[k].values == src[k].values && rows[k].lastUpdDate == src[k].lastUpdDate &&
            !rows[k].isDeleted && rows[k].transformedAt == None && rows[k].deletedAt == None)
    ensures var r := ApplyInsert(src, dst, chunk);
      && r.Keys == dst.Keys + ((src.Keys * chunk) - dst.Keys)
      && (forall k :: k in dst ==> r[k] == dst[k])
      && (forall k :: k in r && k !in dst ==> r[k] == NewStagingRow(src[k]))
  {
  }

  // ---------------------------------------------------------------------
  // UPDATE staging SET col = foreign.col, ... WHERE key = key AND staging.last_upd_date < foreign.last_upd_date
  // ---------------------------------------------------------------------

  /**
   * SQL's `a < b` in a WHERE clause: a comparison with NULL is unknown, and an
   * unknown condition does not select the row.
   */
  predicate OlderThan(a: Option<Timestamp>, b: Option<Timestamp>)
  {
    a.Some? && b.Some? && a.value < b.value
  }

  /** The keys the update statement matches: in both tables, with a strictly older staging watermark. */
  function UpdatedKeys(src: ForeignTable, dst: StagingTable): set<Key>
  {
    set k | k in src && k in dst && OlderThan(dst[k].lastUpdDate, src[k].lastUpdDate)
  }

  /** `SET col1 = foreign.col1, ...`: every source column, and no staging-only column. */
  function CopySourceColumns(st: StagingRow, f: ForeignRow): StagingRow
  {
    st.(values := f.values, lastUpdDate := f.lastUpdDate)
  }

  /**
   * The destination after executing the update statement restricted to the
   * keys of one chunk. `resetTransformed` adds the load task's extra
   * `transformed_at = NULL` to the SET list.
   */
  function ApplyUpdate(src: ForeignTable, dst: StagingTable, chunk: set<Key>, resetTransformed: bool): (r: StagingTable)
    ensures r.Keys == dst.Keys
  {
    map k | k in dst ::
      if k in chunk && k in src && OlderThan(dst[k].lastUpdDate, src[k].lastUpdDate) then
        var row := CopySourceColumns(dst[k], src[k]);
        if resetTransformed then row.(transformedAt := None) else row
      else dst[k]
  }

  /**
   * The update rewrites exactly the matched rows of the chunk: each takes
   * every source column, keeps `is_deleted` and `deleted_at`, and loses
   * `transformed_at` only when the task asks for it. Every other row is
   * left as it is.
   */
  lemma UpdateOverwritesMatchedRows(src: ForeignTable, dst: StagingTable, chunk: set<Key>, reset: bool)
    ensures var r := ApplyUpdate(src, dst, chunk, reset);
      && r.Keys == dst.Keys
      && (forall k :: k in chunk && k in UpdatedKeys(src, dst) ==>
            r[k].values == src[k].values && r[k].lastUpdDate == src[k].lastUpdDate &&
            r[k].isDeleted == dst[k].isDeleted && r[k].deletedAt == dst[k].deletedAt &&
            r[k].transformedAt == (if reset then None else dst[k].transformedAt))
      && (forall k :: k in dst && !(k in chunk && k in UpdatedKeys(src, dst)) ==> r[k] == dst[k])
  {
  }

  // ---------------------------------------------------------------------
  // UPDATE staging SET is_deleted = TRUE WHERE is_deleted = FALSE AND key NOT IN foreign
  // ---------------------------------------------------------------------

  /** The keys the mark-deleted statement matches: live staging rows whose key vanished from the source. */
  function DeletedKeys(src: ForeignTable, dst: StagingTable): set<Key>
  {
    set k | k in dst && !dst[k].isDeleted && k !in src
  }

  /**
   * The destination after executing the mark-deleted statement. With
   * `stamp == Some(now)` the SET list also carries the load task's
   * `transformed_at = NULL, deleted_at = now`.
   */
  function ApplyMarkDeleted(src: ForeignTable, dst: StagingTable, stamp: Option<Timestamp>): (r: StagingTable)
    ensures r.Keys == dst.Keys
  {
    map k | k in dst ::
      if !dst[k].isDeleted && k !in src then
        var row := dst[k].(isDeleted := true);
        if stamp.Some? then row.(transformedAt := None, deletedAt := stamp) else row
      else dst[k]
  }

  /**
   * Mark-deleted flips `is_deleted` on exactly the live rows whose key
   * vanished from the source, keeping their columns; with the task's stamp
   * they also get `transformed_at = NULL` and `deleted_at = now`. Every
   * other row is left as it is.
   */
  lemma MarkDeletedFlagsVanishedRows(src: ForeignTable, dst: StagingTable, stamp: Option<Timestamp>)
    ensures var r := ApplyMarkDeleted(src, dst, stamp);
      && r.Keys == dst.Keys
      && (forall k :: k in DeletedKeys(src, dst) ==>
            r[k].isDeleted && r[k].values == dst[k].values && r[k].lastUpdDate == dst[k].lastUpdDate &&
            (stamp.Some? ==> r[k].transformedAt == None && r[k].deletedAt == stamp) &&
            (stamp.None? ==> r[k].transformedAt == dst[k].transformedAt && r[k].deletedAt == dst[k].deletedAt))
      && (forall k :: k in dst && k !in DeletedKeys(src, dst) ==> r[k] == dst[k])
  {
  }

  // ---------------------------------------------------------------------
  // Properties of the three statements
  // ---------------------------------------------------------------------

  /** The insert never touches a key the update can match: new keys are absent, updated keys present. */
  lemma NewAndUpdatedKeysDisjoint(src: ForeignTable, dst: StagingTable)
    ensures NewKeys(src, dst) !! UpdatedKeys(src, dst)
    ensures NewKeys(src, dst) + UpdatedKeys(src, dst) <= src.Keys
  {
  }

  /** Equal (or NULL) watermarks mean no change, whatever the other columns hold. */
  lemma UpdateNeedsStrictlyOlderWatermark(src: ForeignTable, dst: StagingTable, chunk: set<Key>, reset: bool, k: Key)
    requires k in src && k in dst
    requires !OlderThan(dst[k].lastUpdDate, src[k].lastUpdDate)
    ensures ApplyUpdate(src, dst, chunk, reset)[k] == dst[k]
  {
    assert k !in UpdatedKeys(src, dst);
  }

  /** The update does not set `is_deleted`: a tombstoned row that reappears in the source stays tombstoned. */
  lemma UpdateKeepsTombstones(src: ForeignTable, dst: StagingTable, chunk: set<Key>, reset: bool)
    ensures forall k :: k in dst ==> ApplyUpdate(src, dst, chunk, reset)[k].isDeleted == dst[k].isDeleted
  {
  }

  /** A second mark-deleted with the same source flags nothing and changes nothing. */
  lemma MarkDeletedIdempotent(src: ForeignTable, dst: StagingTable, stamp1: Option<Timestamp>, stamp2: Option<Timestamp>)
    ensures DeletedKeys(src, ApplyMarkDeleted(src, dst, stamp1)) == {}
    ensures ApplyMarkDeleted(src, ApplyMarkDeleted(src, dst, stamp1), stamp2) == ApplyMarkDeleted(src, dst, stamp1)
  {
    var once := ApplyMarkDeleted(src, dst, stamp1);
    forall k | k in once ensures k !in DeletedKeys(src, once) {
      if k in DeletedKeys(src, dst) {
        assert once[k].isDeleted;
      } else {
        assert once[k] == dst[k];
      }
    }
    NothingToMarkIsNoChange(src, once, stamp2);
  }

  /** Mark-deleted with nothing to flag leaves the destination as it is. */
  lemma NothingToMarkIsNoChange(src: ForeignTable, dst: StagingTable, stamp: Option<Timestamp>)
    requires DeletedKeys(src, dst) == {}
    ensures ApplyMarkDeleted(src, dst, stamp) == dst
  {
    var r := ApplyMarkDeleted(src, dst, stamp);
    assert r.Keys == dst.Keys;
    forall k | k in dst ensures r[k] == dst[k] {
      assert k !in DeletedKeys(src, dst);
    }
  }

  /** The mark-deleted count is the number of rows flipped from live to deleted. */
  lemma MarkDeletedFlipsExactlyDeletedKeys(src: ForeignTable, dst: StagingTable, stamp: Option<Timestamp>)
    ensures DeletedKeys(src, dst) ==
      set k | k in dst && !dst[k].isDeleted && ApplyMarkDeleted(src, dst, stamp)[k].isDeleted
  {
  }

  /** Inserting two chunks one after the other is inserting their union. */
  lemma InsertChunksCompose(src: ForeignTable, dst: StagingTable, a: set<Key>, b: set<Key>)
    ensures ApplyInsert(src, ApplyInsert(src, dst, a), b) == ApplyInsert(src, dst, a + b)
  {
    var mid := ApplyInsert(src, dst, a);
    var lhs := ApplyInsert(src, mid, b);
    var rhs := ApplyInsert(src, dst, a + b);
    assert lhs.Keys == rhs.Keys;
    forall k | k in lhs ensures lhs[k] == rhs[k] {
      if k in dst {
        assert lhs[k] == mid[k] == dst[k];
      } else if k in mid {
        assert lhs[k] == mid[k] == NewStagingRow(src[k]);
      }
    }
  }

  /**
   * Updating two chunks one after the other is updating their union: a row
   * the first chunk rewrote carries the source watermark afterwards, so the
   * second chunk cannot match it again.
   */
  lemma UpdateChunksCompose(src: ForeignTable, dst: StagingTable, a: set<Key>, b: set<Key>, reset: bool)
    ensures ApplyUpdate(src, ApplyUpdate(src, dst, a, reset), b, reset) == ApplyUpdate(src, dst, a + b, reset)
  {
    var mid := ApplyUpdate(src, dst, a, reset);
    var lhs := ApplyUpdate(src, mid, b, reset);
    var rhs := ApplyUpdate(src, dst, a + b, reset);
    assert lhs.Keys == rhs.Keys;
    forall k | k in lhs ensures lhs[k] == rhs[k] {
      if k in a && k in UpdatedKeys(src, dst) {
        assert mid[k].lastUpdDate == src[k].lastUpdDate;
        assert k !in UpdatedKeys(src, mid);
      }
    }
  }
}
