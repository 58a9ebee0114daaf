/**
 * What the analytics ETL dimension models share: the three-valued change
 * kind, the `ghid_map` of database ids, and the effect of their SQL
 * statements on a dimension table — `insert ... on conflict(ghid) do nothing
 * returning id`, `select ... where ghid = :ghid` read with `fetchone()`, and
 * `update ... where id = :id`. A table is the sequence of its rows in scan
 * order, so that "the first row a query returns" has a meaning.
 */
module EtlDimension {
  import opened Wrappers

  /** The outcome of syncing one entity. */
  datatype EtlChangeType = NONE | INSERT | UPDATE

  /** The entity kinds of the ETL whose ids the `ghid_map` holds. */
  datatype EtlEntityType = DELIVERABLE | QUAD | SPRINT

  /** A GitHub id, the natural key of every dimension table. */
  type Ghid = string

  /** A value of `current_timestamp`. */
  type Timestamp = int

  /** A calendar day, such as the run's `effective_date`. */
  type Day = int

  /** `ghid_map`: for each entity kind, the database id of every ghid synced so far. */
  type GhidMap = map<EtlEntityType, map<Ghid, int>>

  /** The exceptions a sync can raise. */
  datatype EtlError =
    | NoRowSelected    // `fetchone()` returned None and the code unpacks it
    | MissingEntityMap // `ghid_map[EtlEntityType.QUAD]` raises KeyError
    | InvalidDate      // PostgreSQL rejects a date literal
    | SqlSyntaxError   // PostgreSQL rejects the statement text

  /**
   * `ghid_map[EtlEntityType.QUAD].get(quad_ghid)`: the quad's database id,
   * None when the quad is unmapped; KeyError when there is no QUAD map.
   */
  function QuadIdFor(ghidMap: GhidMap, quadGhid: Ghid): Result<Option<int>, EtlError>
  {
    if QUAD !in ghidMap then Err(MissingEntityMap)
    else if quadGhid in ghidMap[QUAD] then Ok(Some(ghidMap[QUAD][quadGhid]))
    else Ok(None)
  }

  /** A dimension row: its serial id, its ghid, the entity's attributes and `t_modified`. */
  datatype DimRow<A> = DimRow(id: int, ghid: Ghid, attrs: A, tModified: Option<Timestamp>)

  /** A dimension table, in scan order. */
  type DimTable<A> = seq<DimRow<A>>

  /** `ghid` is unique (the `on conflict(ghid)` target), ids are unique and below the next serial value. */
  predicate TableValid<A>(t: DimTable<A>, nextId: int)
  {
    && (forall i, j :: 0 <= i < j < |t| ==> t[i].ghid != t[j].ghid)
    && (forall i, j :: 0 <= i < j < |t| ==> t[i].id != t[j].id)
    && (forall i :: 0 <= i < |t| ==> t[i].id < nextId)
  }

  /** The position of the first row with ghid `g`, which `where ghid = :ghid` with `fetchone()` reads. */
  function Lookup<A>(t: DimTable<A>, g: Ghid): (r: Option<nat>)
    ensures r.None? <==> forall i :: 0 <= i < |t| ==> t[i].ghid != g
    ensures r.Some? ==> r.value < |t| && t[r.value].ghid == g && forall j :: 0 <= j < r.value ==> t[j].ghid != g
  {
    if t == [] then None
    else if t[0].ghid == g then Some(0)
    else
      var rest := Lookup(t[1..], g);
      if rest.None? then None else Some(rest.value + 1)
  }

  /** In a valid table the row of a ghid is the only one with that ghid. */
  lemma LookupFindsTheOnlyRow<A>(t: DimTable<A>, nextId: int, g: Ghid, i: nat)
    requires TableValid(t, nextId) && i < |t| && t[i].ghid == g
    ensures Lookup(t, g) == Some(i)
  {
  }

  /**
   * `insert ... on conflict(ghid) do nothing returning id`: a new ghid is
   * appended with the next serial id, which is returned; a known ghid
   * leaves the table alone and returns no row.
   */
  function InsertOnConflictDoNothing<A>(t: DimTable<A>, nextId: int, g: Ghid, a: A): (DimTable<A>, Option<int>)
  {
    if Lookup(t, g).Some? then (t, None) else (t + [DimRow(nextId, g, a, None)], Some(nextId))
  }

  /** The serial value after an insert attempt. */
  function NextIdAfter(nextId: int, returned: Option<int>): int
  {
    if returned.Some? then nextId + 1 else nextId
  }

  /** An insert returns an id exactly for a new ghid, and afterwards that ghid's row holds the inserted values. */
  lemma InsertOnConflictAddsOnlyNewGhids<A>(t: DimTable<A>, nextId: int, g: Ghid, a: A)
    requires TableValid(t, nextId)
    ensures var (t', returned) := InsertOnConflictDoNothing(t, nextId, g, a);
      && TableValid(t', NextIdAfter(nextId, returned))
      && (returned.Some? <==> Lookup(t, g).None?)
      && (returned.Some? ==> returned == Some(nextId) && t' == t + [DimRow(nextId, g, a, None)] && Lookup(t', g) == Some(|t|))
      && (returned.None? ==> t' == t)
  {
    var (t', returned) := InsertOnConflictDoNothing(t, nextId, g, a);
    if returned.Some? {
      LookupFindsTheOnlyRow(t', nextId + 1, g, |t|);
    }
  }

  /** `update ... set <attrs>, t_modified = current_timestamp where id = :id`. */
  function UpdateWhereId<A>(t: DimTable<A>, id: int, a: A, now: Timestamp): (r: DimTable<A>)
    ensures |r| == |t|
  {
    seq(|t|, i requires 0 <= i < |t| => if t[i].id == id then t[i].(attrs := a, tModified := Some(now)) else t[i])
  }

  /** In a valid table the update by id rewrites exactly the one row with that id, in place. */
  lemma UpdateWhereIdRewritesOneRow<A>(t: DimTable<A>, nextId: int, k: nat, a: A, now: Timestamp)
    requires TableValid(t, nextId) && k < |t|
    ensures UpdateWhereId(t, t[k].id, a, now) == t[k := t[k].(attrs := a, tModified := Some(now))]
    ensures TableValid(UpdateWhereId(t, t[k].id, a, now), nextId)
  {
    var r := UpdateWhereId(t, t[k].id, a, now);
    forall i | 0 <= i < |t| ensures r[i] == t[k := t[k].(attrs := a, tModified := Some(now))][i] {
      if i != k {
        assert t[i].id != t[k].id;
      }
    }
  }

  /** The outcome of the intended dimension sync: the new table and serial value, the row's id and the change kind. */
  datatype Synced<A> = Synced(table: DimTable<A>, nextId: int, id: int, change: EtlChangeType)

  /**
   * The dimension sync every model intends: insert a new ghid (INSERT);
   * otherwise select its row and, if the attributes differ, overwrite them
   * and stamp `t_modified` (UPDATE), or leave the row alone (NONE).
   */
  function SyncDimension<A(==)>(t: DimTable<A>, nextId: int, g: Ghid, a: A, now: Timestamp): Synced<A>
  {
    match Lookup(t, g)
    case None => Synced(t + [DimRow(nextId, g, a, None)], nextId + 1, nextId, INSERT)
    case Some(k) =>
      if t[k].attrs == a then Synced(t, nextId, t[k].id, NONE)
      else Synced(UpdateWhereId(t, t[k].id, a, now), nextId, t[k].id, UPDATE)
  }

  /**
   * After a sync the ghid's row holds the payload's attributes under the
   * returned id; the change kind says which path was taken; the table stays
   * valid; every other row is kept in place.
   */
  lemma SyncStoresThePayload<A>(t: DimTable<A>, nextId: int, g: Ghid, a: A, now: Timestamp)
    requires TableValid(t, nextId)
    ensures var s := SyncDimension(t, nextId, g, a, now);
      && TableValid(s.table, s.nextId)
      && Lookup(s.table, g).Some?
      && s.table[Lookup(s.table, g).value].attrs == a
      && s.table[Lookup(s.table, g).value].id == s.id
      && (s.change == INSERT <==> Lookup(t, g).None?)
      && (s.change == NONE <==> Lookup(t, g).Some? && t[Lookup(t, g).value].attrs == a)
      && (s.change == NONE ==> s.table == t)
      && (forall i :: 0 <= i < |t| && t[i].ghid != g ==> i < |s.table| && s.table[i] == t[i])
  {
    var s := SyncDimension(t, nextId, g, a, now);
    match Lookup(t, g)
    case None =>
      InsertOnConflictAddsOnlyNewGhids(t, nextId, g, a);
    case Some(k) =>
      if t[k].attrs != a {
        UpdateWhereIdRewritesOneRow(t, nextId, k, a, now);
        LookupFindsTheOnlyRow(s.table, nextId, g, k);
      }
  }

  /** Syncing the same payload twice: the second sync changes nothing, reports NONE and returns the same id. */
  lemma SyncTwiceIsQuiet<A>(t: DimTable<A>, nextId: int, g: Ghid, a: A, now: Timestamp, later: Timestamp)
    requires TableValid(t, nextId)
    ensures var s1 := SyncDimension(t, nextId, g, a, now);
      var s2 := SyncDimension(s1.table, s1.nextId, g, a, later);
      s2 == Synced(s1.table, s1.nextId, s1.id, NONE)
  {
    SyncStoresThePayload(t, nextId, g, a, now);
  }

  /** A new ghid is reported as INSERT with the next serial id; so a first and a repeated sync give INSERT then NONE. */
  lemma SyncNewGhidInsertsThenIsQuiet<A>(t: DimTable<A>, nextId: int, g: Ghid, a: A, now: Timestamp, later: Timestamp)
    requires TableValid(t, nextId) && Lookup(t, g).None?
    ensures var s1 := SyncDimension(t, nextId, g, a, now);
      var s2 := SyncDimension(s1.table, s1.nextId, g, a, later);
      s1.change == INSERT && s1.id == nextId && s2.change == NONE && s2.id == nextId
  {
    SyncTwiceIsQuiet(t, nextId, g, a, now, later);
  }
}
