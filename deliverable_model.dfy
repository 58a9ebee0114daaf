/**
 * `EtlDeliverableModel`: syncs one deliverable into the `gh_deliverable`
 * dimension table and upserts its quad assignment into the
 * `gh_deliverable_quad_map` fact table, keyed on the deliverable and the
 * ETL run's effective date.
 */
module DeliverableModel {
  import opened Wrappers
  import opened EtlDimension

  /** The columns of `gh_deliverable` besides id, ghid and `t_modified`. */
  datatype DeliverableAttrs = DeliverableAttrs(title: string, pillar: string)

  /** The fields of one deliverable record that the sync reads. */
  datatype DeliverablePayload = DeliverablePayload(ghid: Ghid, title: string, pillar: string, quadGhid: Ghid)
  {
    /** The dimension values the insert writes and the update compares. */
    function Attrs(): DeliverableAttrs
    {
      DeliverableAttrs(title, pillar)
    }
  }

  /** The conflict target of the fact upsert: `(deliverable_id, d_effective)`. */
  datatype FactKey = FactKey(deliverableId: int, effective: Day)

  /** A `gh_deliverable_quad_map` row without its key columns. */
  datatype FactRow = FactRow(id: int, quadId: Option<int>, tModified: Option<Timestamp>)

  /** The fact table; keying it on the conflict target makes that target unique. */
  type FactTable = map<FactKey, FactRow>

  /** Fact ids are unique and below the next serial value. */
  predicate FactsValid(facts: FactTable, nextId: int)
  {
    && (forall k :: k in facts ==> facts[k].id < nextId)
    && (forall k1, k2 :: k1 in facts && k2 in facts && k1 != k2 ==> facts[k1].id != facts[k2].id)
  }

  /** The outcome of a fact upsert: the new table, the next serial value and the returned id. */
  datatype Upserted = Upserted(facts: FactTable, nextId: int, id: int)

  /**
   * `insert ... on conflict(deliverable_id, d_effective) do update set
   * (quad_id, t_modified) = (:quad_id, current_timestamp) returning id`.
   */
  function UpsertFact(facts: FactTable, nextId: int, key: FactKey, quadId: Option<int>, now: Timestamp): Upserted
  {
    if key in facts then Upserted(facts[key := facts[key].(quadId := quadId, tModified := Some(now))], nextId, facts[key].id)
    else Upserted(facts[key := FactRow(nextId, quadId, None)], nextId + 1, nextId)
  }

  /**
   * After an upsert the key's row holds the new quad id under the returned
   * id; a known key keeps its id, a new key takes the next serial value;
   * every other row is untouched and the table stays valid.
   */
  lemma UpsertFactOverwritesQuad(facts: FactTable, nextId: int, key: FactKey, quadId: Option<int>, now: Timestamp)
    requires FactsValid(facts, nextId)
    ensures var u := UpsertFact(facts, nextId, key, quadId, now);
      && FactsValid(u.facts, u.nextId)
      && u.facts.Keys == facts.Keys + {key}
      && key in u.facts && u.facts[key].quadId == quadId && u.facts[key].id == u.id
      && (key in facts ==> u.id == facts[key].id && u.nextId == nextId)
      && (key !in facts ==> u.id == nextId && u.nextId == nextId + 1)
      && (forall k :: k in facts && k != key ==> u.facts[k] == facts[k])
  {
    var u := UpsertFact(facts, nextId, key, quadId, now);
    if key !in facts {
      forall k1, k2 | k1 in u.facts && k2 in u.facts && k1 != k2 ensures u.facts[k1].id != u.facts[k2].id {
        if k1 != key && k2 != key {
          assert facts[k1].id != facts[k2].id;
        }
      }
    }
  }

  /** Upserting a key again adds no row and keeps the row's id: one fact row per key however often the sync runs. */
  lemma UpsertFactTwiceKeepsOneRow(facts: FactTable, nextId: int, key: FactKey, q1: Option<int>, q2: Option<int>, now: Timestamp, later: Timestamp)
    requires FactsValid(facts, nextId)
    ensures var u1 := UpsertFact(facts, nextId, key, q1, now);
      var u2 := UpsertFact(u1.facts, u1.nextId, key, q2, later);
      && u2.facts.Keys == u1.facts.Keys
      && u2.id == u1.id
      && u2.nextId == u1.nextId
      && u2.facts[key] == FactRow(u1.id, q2, Some(later))
  {
    UpsertFactOverwritesQuad(facts, nextId, key, q1, now);
  }

  /** The intended state after `sync_deliverable` when it returns normally. */
  datatype DeliverableSynced = DeliverableSynced(dim: Synced<DeliverableAttrs>, fact: Upserted)

  /**
   * What `sync_deliverable` does to both tables: the dimension sync, then
   * the fact upsert for the id it obtained, with the quad id looked up in
   * `ghid_map[QUAD]`; without a QUAD map the dimension change stands and
   * the fact lookup raises.
   */
  function SyncDeliverableSpec(t: DimTable<DeliverableAttrs>, nextId: int, facts: FactTable, nextFactId: int,
                                effective: Day, p: DeliverablePayload, ghidMap: GhidMap, now: Timestamp): Result<DeliverableSynced, EtlError>
  {
    var s := SyncDimension(t, nextId, p.ghid, p.Attrs(), now);
    match QuadIdFor(ghidMap, p.quadGhid)
    case Err(e) => Err(e)
    case Ok(q) => Ok(DeliverableSynced(s, UpsertFact(facts, nextFactId, FactKey(s.id, effective), q, now)))
  }

  /**
   * A sync stores the payload under the returned id, writes the fact row of
   * that id and effective date with the looked-up quad id, and a second
   * sync of the same payload reports NONE with the same id, the same
   * dimension table and no new fact row.
   */
  lemma SyncDeliverableTwice(t: DimTable<DeliverableAttrs>, nextId: int, facts: FactTable, nextFactId: int,
                             effective: Day, p: DeliverablePayload, ghidMap: GhidMap, now: Timestamp, later: Timestamp)
    requires TableValid(t, nextId) && FactsValid(facts, nextFactId) && QUAD in ghidMap
    ensures var r1 := SyncDeliverableSpec(t, nextId, facts, nextFactId, effective, p, ghidMap, now);
      && r1.Ok?
      && var s1 := r1.value;
      var r2 := SyncDeliverableSpec(s1.dim.table, s1.dim.nextId, s1.fact.facts, s1.fact.nextId, effective, p, ghidMap, later);
      && FactKey(s1.dim.id, effective) in s1.fact.facts
      && s1.fact.facts[FactKey(s1.dim.id, effective)].quadId == (if p.quadGhid in ghidMap[QUAD] then Some(ghidMap[QUAD][p.quadGhid]) else None)
      && r2.Ok?
      && r2.value.dim == Synced(s1.dim.table, s1.dim.nextId, s1.dim.id, NONE)
      && r2.value.fact.facts.Keys == s1.fact.facts.Keys
      && r2.value.fact.id == s1.fact.id
  {
    var s := SyncDimension(t, nextId, p.ghid, p.Attrs(), now);
    var q := QuadIdFor(ghidMap, p.quadGhid).value;
    SyncTwiceIsQuiet(t, nextId, p.ghid, p.Attrs(), now, later);
    UpsertFactTwiceKeepsOneRow(facts, nextFactId, FactKey(s.id, effective), q, q, now, later);
    UpsertFactOverwritesQuad(facts, nextFactId, FactKey(s.id, effective), q, now);
  }

  class EtlDeliverableModel {
    var deliverables: DimTable<DeliverableAttrs>
    var nextDeliverableId: int
    var facts: FactTable
    var nextFactId: int
    /** `effective_date` of the ETL run. */
    const effectiveDate: Day

    ghost predicate Valid()
      reads this
    {
      TableValid(deliverables, nextDeliverableId) && FactsValid(facts, nextFactId)
    }

    constructor (effective: Day)
      ensures Valid()
      ensures deliverables == [] && facts == map[] && effectiveDate == effective
    {
      deliverables := [];
      nextDeliverableId := 1;
      facts := map[];
      nextFactId := 1;
      effectiveDate := effective;
    }

    /** `_insert_dimensions`: the id of the inserted row, or None when the ghid is already stored. */
    method InsertDimensions(p: DeliverablePayload) returns (newRowId: Option<int>)
      requires Valid()
      modifies this
      ensures Valid()
      ensures (deliverables, newRowId) == InsertOnConflictDoNothing(old(deliverables), old(nextDeliverableId), p.ghid, p.Attrs())
      ensures nextDeliverableId == NextIdAfter(old(nextDeliverableId), newRowId)
      ensures newRowId.Some? <==> Lookup(old(deliverables), p.ghid).None?
      ensures facts == old(facts) && nextFactId == old(nextFactId)
    {
      InsertOnConflictAddsOnlyNewGhids(deliverables, nextDeliverableId, p.ghid, p.Attrs());
      newRowId := None;
      var (table, row) := InsertOnConflictDoNothing(deliverables, nextDeliverableId, p.ghid, p.Attrs());
      if row.Some? {
        newRowId := row;
        deliverables := table;
        nextDeliverableId := nextDeliverableId + 1;
      }
    }

    /**
     * `_update_dimensions`: selects the ghid's row, overwrites title and
     * pillar when either differs (UPDATE) or leaves it (NONE); a ghid with
     * no row makes the unpacking of `fetchone()` raise.
     */
    method UpdateDimensions(p: DeliverablePayload, now: Timestamp) returns (r: Result<(Option<int>, EtlChangeType), EtlError>)
      requires Valid()
      modifies this
      ensures Valid()
      ensures Lookup(old(deliverables), p.ghid).None? ==> r == Err(NoRowSelected) && deliverables == old(deliverables)
      ensures Lookup(old(deliverables), p.ghid).Some? ==>
        var s := SyncDimension(old(deliverables), old(nextDeliverableId), p.ghid, p.Attrs(), now);
        r == Ok((Some(s.id), s.change)) && deliverables == s.table
      ensures nextDeliverableId == old(nextDeliverableId) && facts == old(facts) && nextFactId == old(nextFactId)
    {
      var changeType := NONE;
      var pos := Lookup(deliverables, p.ghid);
      if pos.None? {
        return Err(NoRowSelected);
      }
      var row := deliverables[pos.value];
      if row.attrs != p.Attrs() {
        changeType := UPDATE;
        UpdateWhereIdRewritesOneRow(deliverables, nextDeliverableId, pos.value, p.Attrs(), now);
        deliverables := UpdateWhereId(deliverables, row.id, p.Attrs(), now);
      }
      r := Ok((Some(row.id), changeType));
    }

    /** `_insert_facts`: upserts the fact row of this deliverable and the effective date; a missing QUAD map raises before the write. */
    method InsertFacts(deliverableId: int, p: DeliverablePayload, ghidMap: GhidMap, now: Timestamp) returns (r: Result<int, EtlError>)
      requires Valid()
      modifies this
      ensures Valid()
      ensures QUAD !in ghidMap ==> r == Err(MissingEntityMap) && facts == old(facts) && nextFactId == old(nextFactId)
      ensures QUAD in ghidMap ==>
        var u := UpsertFact(old(facts), old(nextFactId), FactKey(deliverableId, effectiveDate), QuadIdFor(ghidMap, p.quadGhid).value, now);
        r == Ok(u.id) && facts == u.facts && nextFactId == u.nextId
      ensures deliverables == old(deliverables) && nextDeliverableId == old(nextDeliverableId)
    {
      var quadId := QuadIdFor(ghidMap, p.quadGhid);
      if quadId.Err? {
        return Err(quadId.error);
      }
      var key := FactKey(deliverableId, effectiveDate);
      UpsertFactOverwritesQuad(facts, nextFactId, key, quadId.value, now);
      var u := UpsertFact(facts, nextFactId, key, quadId.value, now);
      facts, nextFactId := u.facts, u.nextId;
      r := Ok(u.id);
    }

    /**
     * `sync_deliverable`: insert, else select and update, then upsert the
     * fact row. It never reaches the failing unpacking, and without a QUAD
     * map it raises after the dimension write.
     */
    method SyncDeliverable(p: DeliverablePayload, ghidMap: GhidMap, now: Timestamp) returns (r: Result<(Option<int>, EtlChangeType), EtlError>)
      requires Valid()
      modifies this
      ensures Valid()
      ensures var spec := SyncDeliverableSpec(old(deliverables), old(nextDeliverableId), old(facts), old(nextFactId), effectiveDate, p, ghidMap, now);
        var s := SyncDimension(old(deliverables), old(nextDeliverableId), p.ghid, p.Attrs(), now);
        && deliverables == s.table && nextDeliverableId == s.nextId
        && (spec.Ok? ==> r == Ok((Some(s.id), s.change)) && facts == spec.value.fact.facts && nextFactId == spec.value.fact.nextId)
        && (spec.Err? ==> r == Err(MissingEntityMap) && facts == old(facts) && nextFactId == old(nextFactId))
    {
      ghost var s := SyncDimension(deliverables, nextDeliverableId, p.ghid, p.Attrs(), now);
      SyncStoresThePayload(deliverables, nextDeliverableId, p.ghid, p.Attrs(), now);
      var changeType := NONE;
      var deliverableId := InsertDimensions(p);
      if deliverableId.Some? {
        changeType := INSERT;
      }
      if deliverableId.None? {
        var u := UpdateDimensions(p, now);
        match u
        case Err(e) =>
          return Err(e);
        case Ok((id, change)) =>
          deliverableId, changeType := id, change;
      }
      assert deliverables == s.table && nextDeliverableId == s.nextId && deliverableId == Some(s.id) && changeType == s.change;
      if deliverableId.Some? {
        var f := InsertFacts(deliverableId.value, p, ghidMap, now);
        if f.Err? {
          return Err(f.error);
        }
      }
      r := Ok((deliverableId, changeType));
    }
  }
}
