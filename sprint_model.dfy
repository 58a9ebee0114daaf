/**
 * `EtlSprintModel`: syncs one sprint into the `gh_sprint` dimension table.
 * The compared values include the sprint's quad id, resolved through
 * `ghid_map[QUAD]`.
 */
module SprintModel {
  import opened Wrappers
  import opened EtlDimension

  /** The columns of `gh_sprint` besides id, ghid and `t_modified`. */
  datatype SprintAttrs = SprintAttrs(name: string, start: string, end: string, duration: int, quadId: Option<int>)

  /** The fields of one sprint record that the sync reads. */
  datatype SprintPayload = SprintPayload(ghid: Ghid, name: string, start: string, end: string, length: int, quadGhid: Ghid)

  /** The dimension values the insert writes and the update compares; a missing QUAD map raises. */
  function NewValues(p: SprintPayload, ghidMap: GhidMap): (r: Result<SprintAttrs, EtlError>)
    ensures r.Err? <==> QUAD !in ghidMap
    ensures r.Ok? ==> && r.value.name == p.name && r.value.start == p.start && r.value.end == p.end
                      && r.value.duration == p.length && r.value.quadId == QuadIdFor(ghidMap, p.quadGhid).value
  {
    match QuadIdFor(ghidMap, p.quadGhid)
    case Err(e) => Err(e)
    case Ok(q) => Ok(SprintAttrs(p.name, p.start, p.end, p.length, q))
  }

  /** What `_select` returns: the row's six columns, or six Nones when no row matches. */
  datatype SprintSelection = SprintSelection(
    id: Option<int>, name: Option<string>, start: Option<string>, end: Option<string>,
    duration: Option<int>, quadId: Option<int>)

  /** The compared tuple `(name, start, end, duration, quad_id)` of a selection. */
  function OldValues(s: SprintSelection): (Option<string>, Option<string>, Option<string>, Option<int>, Option<int>)
  {
    (s.name, s.start, s.end, s.duration, s.quadId)
  }

  /** The same tuple built from the new values. */
  function Compared(a: SprintAttrs): (Option<string>, Option<string>, Option<string>, Option<int>, Option<int>)
  {
    (Some(a.name), Some(a.start), Some(a.end), Some(a.duration), a.quadId)
  }

  /** `_select`: the first row with the ghid, or the all-None tuple. */
  function SelectSprint(t: DimTable<SprintAttrs>, g: Ghid): (r: SprintSelection)
    ensures Lookup(t, g).None? ==> r == SprintSelection(None, None, None, None, None, None)
    ensures Lookup(t, g).Some? ==> r.id == Some(t[Lookup(t, g).value].id)
    ensures Lookup(t, g).Some? ==> forall a :: OldValues(r) == Compared(a) <==> a == t[Lookup(t, g).value].attrs
  {
    match Lookup(t, g)
    case None => SprintSelection(None, None, None, None, None, None)
    case Some(k) =>
      var a := t[k].attrs;
      SprintSelection(Some(t[k].id), Some(a.name), Some(a.start), Some(a.end), Some(a.duration), a.quadId)
  }

  /**
   * The intended outcome of `sync_sprint`: a missing QUAD map raises before
   * any write; otherwise the dimension sync with the resolved values.
   */
  function SyncSprintSpec(t: DimTable<SprintAttrs>, nextId: int, p: SprintPayload, ghidMap: GhidMap, now: Timestamp): Result<Synced<SprintAttrs>, EtlError>
  {
    match NewValues(p, ghidMap)
    case Err(e) => Err(e)
    case Ok(a) => Ok(SyncDimension(t, nextId, p.ghid, a, now))
  }

  /**
   * A sync with a QUAD map stores the sprint's values, quad id included,
   * under the returned id; a second sync reports NONE with the same id and
   * table; a change of quad mapping alone makes the next sync an UPDATE.
   */
  lemma SyncSprintTracksQuad(t: DimTable<SprintAttrs>, nextId: int, p: SprintPayload, m1: GhidMap, m2: GhidMap, now: Timestamp, later: Timestamp)
    requires TableValid(t, nextId) && QUAD in m1 && QUAD in m2
    ensures var r1 := SyncSprintSpec(t, nextId, p, m1, now);
      && r1.Ok?
      && var s := r1.value;
      var k := Lookup(s.table, p.ghid);
      && k.Some? && s.table[k.value].id == s.id
      && s.table[k.value].attrs.quadId == QuadIdFor(m1, p.quadGhid).value
      && SyncSprintSpec(s.table, s.nextId, p, m1, later) == Ok(Synced(s.table, s.nextId, s.id, NONE))
      && (QuadIdFor(m1, p.quadGhid) != QuadIdFor(m2, p.quadGhid) ==>
            SyncSprintSpec(s.table, s.nextId, p, m2, later).value.change == UPDATE)
  {
    var a1 := NewValues(p, m1).value;
    SyncStoresThePayload(t, nextId, p.ghid, a1, now);
    SyncTwiceIsQuiet(t, nextId, p.ghid, a1, now, later);
  }

  class EtlSprintModel {
    var sprints: DimTable<SprintAttrs>
    var nextSprintId: int

    ghost predicate Valid()
      reads this
    {
      TableValid(sprints, nextSprintId)
    }

    constructor ()
      ensures Valid() && sprints == []
    {
      sprints := [];
      nextSprintId := 1;
    }

    /** `_select`, which only reads the table. */
    method Select(g: Ghid) returns (r: SprintSelection)
      ensures r == SelectSprint(sprints, g)
    {
      r := SelectSprint(sprints, g);
    }

    /** `_insert_dimensions`: the id of the inserted row, or None when the ghid is stored; a missing QUAD map raises first. */
    method InsertDimensions(p: SprintPayload, ghidMap: GhidMap) returns (r: Result<Option<int>, EtlError>)
      requires Valid()
      modifies this
      ensures Valid()
      ensures QUAD !in ghidMap ==> r == Err(MissingEntityMap) && sprints == old(sprints) && nextSprintId == old(nextSprintId)
      ensures QUAD in ghidMap ==>
        && r.Ok?
        && (sprints, r.value) == InsertOnConflictDoNothing(old(sprints), old(nextSprintId), p.ghid, NewValues(p, ghidMap).value)
        && nextSprintId == NextIdAfter(old(nextSprintId), r.value)
        && (r.value.Some? <==> Lookup(old(sprints), p.ghid).None?)
    {
      var values := NewValues(p, ghidMap);
      if values.Err? {
        return Err(values.error);
      }
      InsertOnConflictAddsOnlyNewGhids(sprints, nextSprintId, p.ghid, values.value);
      var newRowId := None;
      var (table, row) := InsertOnConflictDoNothing(sprints, nextSprintId, p.ghid, values.value);
      if row.Some? {
        newRowId := row;
        sprints := table;
        nextSprintId := nextSprintId + 1;
      }
      r := Ok(newRowId);
    }

    /**
     * `_update_dimensions`: compares the five values with the selected row
     * and overwrites them when they differ (UPDATE); no row gives
     * `(None, NONE)` without raising.
     */
    method UpdateDimensions(p: SprintPayload, ghidMap: GhidMap, now: Timestamp) returns (r: Result<(Option<int>, EtlChangeType), EtlError>)
      requires Valid()
      modifies this
      ensures Valid()
      ensures nextSprintId == old(nextSprintId)
      ensures QUAD !in ghidMap ==> r == Err(MissingEntityMap) && sprints == old(sprints)
      ensures QUAD in ghidMap && Lookup(old(sprints), p.ghid).None? ==> r == Ok((None, NONE)) && sprints == old(sprints)
      ensures QUAD in ghidMap && Lookup(old(sprints), p.ghid).Some? ==>
        var s := SyncDimension(old(sprints), old(nextSprintId), p.ghid, NewValues(p, ghidMap).value, now);
        r == Ok((Some(s.id), s.change)) && sprints == s.table
    {
      var changeType := NONE;
      var newValues := NewValues(p, ghidMap);
      if newValues.Err? {
        return Err(newValues.error);
      }
      var selected := Select(p.ghid);
      if selected.id.Some? && Compared(newValues.value) != OldValues(selected) {
        changeType := UPDATE;
        UpdateWhereIdRewritesOneRow(sprints, nextSprintId, Lookup(sprints, p.ghid).value, newValues.value, now);
        sprints := UpdateWhereId(sprints, selected.id.value, newValues.value, now);
      }
      r := Ok((selected.id, changeType));
    }

    /** `sync_sprint`: insert, else select and compare; equal to the intended sync, and never `(None, NONE)`. */
    method SyncSprint(p: SprintPayload, ghidMap: GhidMap, now: Timestamp) returns (r: Result<(Option<int>, EtlChangeType), EtlError>)
      requires Valid()
      modifies this
      ensures Valid()
      ensures var spec := SyncSprintSpec(old(sprints), old(nextSprintId), p, ghidMap, now);
        && (spec.Err? ==> r == Err(MissingEntityMap) && sprints == old(sprints) && nextSprintId == old(nextSprintId))
        && (spec.Ok? ==> r == Ok((Some(spec.value.id), spec.value.change)) && sprints == spec.value.table && nextSprintId == spec.value.nextId)
    {
      var changeType := NONE;
      var inserted := InsertDimensions(p, ghidMap);
      match inserted
      case Err(e) =>
        return Err(e);
      case Ok(sprintId) =>
        if sprintId.Some? {
          changeType := INSERT;
        }
        if sprintId.None? {
          r := UpdateDimensions(p, ghidMap, now);
          return;
        }
        r := Ok((sprintId, changeType));
    }
  }
}
