/**
 * The opportunity models: the null-safe getters and predicates of
 * `Opportunity` and `OpportunitySummary`, the unique constraints of the
 * versioned `Parent` / `Child` tables and of `OpportunitySummary`, and
 * `Parent.new_version`, which moves the `CurrentChild` pointer to the new
 * version of its parent.
 */
module OpportunityModels {
  import opened Wrappers

  /** A calendar date, as a day number; only its order matters here. */
  type Date = int

  /** An `opportunity_status_id` lookup value. */
  type StatusId = int

  /** A `uuid` primary key. */
  type Uuid = nat

  // ---------------------------------------------------------------------
  // Opportunity, OpportunitySummary, CurrentOpportunitySummary, Agency
  // ---------------------------------------------------------------------

  /** The columns of `OpportunitySummary` this model reads. */
  datatype OpportunitySummary = OpportunitySummary(
    opportunitySummaryId: int,
    opportunityId: int,
    isForecast: bool,
    revisionNumber: Option<int>,
    postDate: Option<Date>,
    isDeleted: Option<bool>)

  /** The `current_opportunity_summary` row: one summary of the opportunity, and its status. */
  datatype CurrentOpportunitySummary = CurrentOpportunitySummary(
    opportunitySummary: OpportunitySummary,
    opportunityStatus: StatusId)

  /** An agency record, with the top-level agency it belongs to, if any. */
  datatype Agency = Agency(agencyCode: string, agencyName: string, topLevelAgency: Option<Agency>)

  /** The relationships of `Opportunity` this model reads. */
  datatype Opportunity = Opportunity(
    opportunityId: int,
    agencyCode: Option<string>,
    agencyRecord: Option<Agency>,
    currentOpportunitySummary: Option<CurrentOpportunitySummary>,
    allOpportunitySummaries: seq<OpportunitySummary>)

  /**
   * `can_summary_be_public`: a summary is public on `currentDate` unless it is
   * deleted (a null `is_deleted` is falsy) or its post date is unset or later.
   */
  predicate CanSummaryBePublic(s: OpportunitySummary, currentDate: Date)
  {
    if s.isDeleted == Some(true) then false
    else if s.postDate.None? || s.postDate.value > currentDate then false
    else true
  }

  lemma CanSummaryBePublicExactly(s: OpportunitySummary, currentDate: Date)
    ensures CanSummaryBePublic(s, currentDate) <==>
      s.isDeleted != Some(true) && s.postDate.Some? && s.postDate.value <= currentDate
  {
  }

  /** A summary that is public on one day stays public on every later day. */
  lemma PublicStaysPublic(s: OpportunitySummary, d1: Date, d2: Date)
    requires d1 <= d2 && CanSummaryBePublic(s, d1)
    ensures CanSummaryBePublic(s, d2)
  {
  }

  /** A deleted summary is never public, and neither is one without a post date. */
  lemma NeverPublic(s: OpportunitySummary, d: Date)
    requires s.isDeleted == Some(true) || s.postDate.None?
    ensures !CanSummaryBePublic(s, d)
  {
  }

  /** The list comprehension of `all_forecasts` / `all_non_forecasts`: the summaries with `is_forecast == forecast`, in order. */
  function SummariesWhere(ss: seq<OpportunitySummary>, forecast: bool): (r: seq<OpportunitySummary>)
    ensures |r| <= |ss|
    ensures forall i :: 0 <= i < |r| ==> r[i].isForecast == forecast && r[i] in ss
  {
    if ss == [] then []
    else (if ss[0].isForecast == forecast then [ss[0]] else []) + SummariesWhere(ss[1..], forecast)
  }

  /** `all_forecasts`: every forecast summary, including historical and deleted ones. */
  function AllForecasts(o: Opportunity): seq<OpportunitySummary>
  {
    SummariesWhere(o.allOpportunitySummaries, true)
  }

  /** `all_non_forecasts`: every non-forecast summary, including historical and deleted ones. */
  function AllNonForecasts(o: Opportunity): seq<OpportunitySummary>
  {
    SummariesWhere(o.allOpportunitySummaries, false)
  }

  /** Filtering distributes over concatenation: order is kept, and nothing is invented or reordered. */
  lemma {:induction false} SummariesWhereAppend(a: seq<OpportunitySummary>, b: seq<OpportunitySummary>, forecast: bool)
    ensures SummariesWhere(a + b, forecast) == SummariesWhere(a, forecast) + SummariesWhere(b, forecast)
    decreases |a|
  {
    if a == [] {
      assert a + b == b;
    } else {
      assert (a + b)[0] == a[0];
      assert (a + b)[1..] == a[1..] + b;
      SummariesWhereAppend(a[1..], b, forecast);
    }
  }

  /** A summary is kept exactly when it is in the list and has the wanted `is_forecast`. */
  lemma {:induction false} SummariesWhereMembership(ss: seq<OpportunitySummary>, forecast: bool, s: OpportunitySummary)
    ensures s in SummariesWhere(ss, forecast) <==> s in ss && s.isForecast == forecast
    decreases |ss|
  {
    if ss != [] {
      SummariesWhereMembership(ss[1..], forecast, s);
      assert s in ss <==> s == ss[0] || s in ss[1..];
    }
  }

  /** The forecasts and the non-forecasts split the summaries: lengths add up, and together they are the same multiset. */
  lemma {:induction false} ForecastsPartitionSummaries(ss: seq<OpportunitySummary>)
    ensures |SummariesWhere(ss, true)| + |SummariesWhere(ss, false)| == |ss|
    ensures multiset(SummariesWhere(ss, true)) + multiset(SummariesWhere(ss, false)) == multiset(ss)
    decreases |ss|
  {
    if ss != [] {
      ForecastsPartitionSummaries(ss[1..]);
      assert ss == [ss[0]] + ss[1..];
    }
  }

  /** `all_forecasts` and `all_non_forecasts` partition `all_opportunity_summaries`. */
  lemma AllForecastsAndNonForecastsPartition(o: Opportunity)
    ensures |AllForecasts(o)| + |AllNonForecasts(o)| == |o.allOpportunitySummaries|
    ensures multiset(AllForecasts(o)) + multiset(AllNonForecasts(o)) == multiset(o.allOpportunitySummaries)
    ensures forall s :: s in AllForecasts(o) <==> s in o.allOpportunitySummaries && s.isForecast
    ensures forall s :: s in AllNonForecasts(o) <==> s in o.allOpportunitySummaries && !s.isForecast
  {
    ForecastsPartitionSummaries(o.allOpportunitySummaries);
    forall s ensures s in AllForecasts(o) <==> s in o.allOpportunitySummaries && s.isForecast {
      SummariesWhereMembership(o.allOpportunitySummaries, true, s);
    }
    forall s ensures s in AllNonForecasts(o) <==> s in o.allOpportunitySummaries && !s.isForecast {
      SummariesWhereMembership(o.allOpportunitySummaries, false, s);
    }
  }

  /** `summary`: the current summary, or None when there is no current pointer. */
  function Summary(o: Opportunity): (r: Option<OpportunitySummary>)
    ensures r.None? <==> o.currentOpportunitySummary.None?
    ensures r.Some? ==> r.value == o.currentOpportunitySummary.value.opportunitySummary
  {
    if o.currentOpportunitySummary.None? then None
    else Some(o.currentOpportunitySummary.value.opportunitySummary)
  }

  /** `opportunity_status`: the current pointer's status, or None when there is no current pointer. */
  function OpportunityStatus(o: Opportunity): (r: Option<StatusId>)
    ensures r.None? <==> o.currentOpportunitySummary.None?
    ensures r.Some? ==> r.value == o.currentOpportunitySummary.value.opportunityStatus
  {
    if o.currentOpportunitySummary.None? then None
    else Some(o.currentOpportunitySummary.value.opportunityStatus)
  }

  /** The summary and the status come from the same pointer: both are set or neither is. */
  lemma SummaryAndStatusTogether(o: Opportunity)
    ensures Summary(o).Some? <==> OpportunityStatus(o).Some?
    ensures Summary(o).Some? ==>
      o.currentOpportunitySummary == Some(CurrentOpportunitySummary(Summary(o).value, OpportunityStatus(o).value))
  {
  }

  /** `agency_name`: the agency record's name, or None when no record was found. */
  function AgencyName(o: Opportunity): (r: Option<string>)
    ensures r.None? <==> o.agencyRecord.None?
    ensures r.Some? ==> r.value == o.agencyRecord.value.agencyName
  {
    if o.agencyRecord.Some? then Some(o.agencyRecord.value.agencyName) else None
  }

  /** `top_level_agency_name`: the top-level agency's name, when both the record and its top-level agency exist. */
  function TopLevelAgencyName(o: Opportunity): (r: Option<string>)
    ensures r.Some? <==> o.agencyRecord.Some? && o.agencyRecord.value.topLevelAgency.Some?
    ensures r.Some? ==> r.value == o.agencyRecord.value.topLevelAgency.value.agencyName
  {
    if o.agencyRecord.Some? && o.agencyRecord.value.topLevelAgency.Some? then
      Some(o.agencyRecord.value.topLevelAgency.value.agencyName)
    else None
  }

  /** A top-level agency name is only ever reported alongside an agency name. */
  lemma TopLevelNameNeedsAgencyName(o: Opportunity)
    ensures TopLevelAgencyName(o).Some? ==> AgencyName(o).Some?
  {
  }

  // ---------------------------------------------------------------------
  // Unique constraints (NULLS NOT DISTINCT)
  // ---------------------------------------------------------------------

  /**
   * With `postgresql_nulls_not_distinct=True` two NULLs compare equal, so an
   * optional column is compared with plain equality. Without it (PostgreSQL's
   * default) a NULL never matches anything, itself included.
   */
  predicate NullsDistinctEqual<T(==)>(a: Option<T>, b: Option<T>)
  {
    a.Some? && b.Some? && a.value == b.value
  }

  /** The `OpportunitySummary` constraint: one row per `(is_forecast, revision_number, opportunity_id)`. */
  predicate SummariesUnique(rows: map<int, OpportunitySummary>)
  {
    forall a, b :: a in rows && b in rows && a != b ==>
      (rows[a].isForecast, rows[a].revisionNumber, rows[a].opportunityId) !=
      (rows[b].isForecast, rows[b].revisionNumber, rows[b].opportunityId)
  }

  /** The same constraint with PostgreSQL's default NULL semantics. */
  predicate SummariesUniqueNullsDistinct(rows: map<int, OpportunitySummary>)
  {
    forall a, b :: a in rows && b in rows && a != b ==>
      !(rows[a].isForecast == rows[b].isForecast &&
        NullsDistinctEqual(rows[a].revisionNumber, rows[b].revisionNumber) &&
        rows[a].opportunityId == rows[b].opportunityId)
  }

  /** Under the declared constraint an opportunity has at most one unrevised forecast and one unrevised non-forecast. */
  lemma AtMostOneUnrevisedSummary(rows: map<int, OpportunitySummary>, a: int, b: int)
    requires SummariesUnique(rows) && a in rows && b in rows
    requires rows[a].revisionNumber.None? && rows[b].revisionNumber.None?
    requires rows[a].opportunityId == rows[b].opportunityId && rows[a].isForecast == rows[b].isForecast
    ensures a == b
  {
  }

  /** Why the constraint says `nulls_not_distinct`: with default NULL semantics two unrevised copies would be accepted. */
  lemma DefaultNullsAllowDuplicateSummaries()
    ensures var s := OpportunitySummary(1, 7, false, None, None, None);
      var rows := map[1 := s, 2 := s.(opportunitySummaryId := 2)];
      SummariesUniqueNullsDistinct(rows) && !SummariesUnique(rows)
  {
    var s := OpportunitySummary(1, 7, false, None, None, None);
    var rows := map[1 := s, 2 := s.(opportunitySummaryId := 2)];
    assert rows[1].revisionNumber == rows[2].revisionNumber;
  }

  /** The columns of a `Parent` version this model reads; `end` is null on the open version. */
  datatype ParentRow = ParentRow(opportunityId: int, title: string, otherField: Option<string>, end: Option<Date>)

  /** The columns of a `Child` version this model reads. */
  datatype ChildRow = ChildRow(opportunityId: int, isForecast: bool, description: string, end: Option<Date>)

  /** The `Parent` constraint: one row per `(opportunity_id, end)`, nulls equal. */
  predicate ParentsUnique(parents: map<Uuid, ParentRow>)
  {
    forall a, b :: a in parents && b in parents && a != b ==>
      (parents[a].opportunityId, parents[a].end) != (parents[b].opportunityId, parents[b].end)
  }

  /** The `Child` constraint: one row per `(opportunity_id, is_forecast, end)`, nulls equal. */
  predicate ChildrenUnique(children: map<Uuid, ChildRow>)
  {
    forall a, b :: a in children && b in children && a != b ==>
      (children[a].opportunityId, children[a].isForecast, children[a].end) !=
      (children[b].opportunityId, children[b].isForecast, children[b].end)
  }

  /** The open (`end IS NULL`) versions of an opportunity's parent. */
  function OpenParents(parents: map<Uuid, ParentRow>, opportunityId: int): set<Uuid>
  {
    set p | p in parents && parents[p].opportunityId == opportunityId && parents[p].end.None?
  }

  /** At most one open parent version per opportunity. */
  lemma AtMostOneOpenParent(parents: map<Uuid, ParentRow>, opportunityId: int)
    requires ParentsUnique(parents)
    ensures forall a, b :: a in OpenParents(parents, opportunityId) && b in OpenParents(parents, opportunityId) ==> a == b
  {
  }

  /**
   * `Child.parent`: the open parent version with the child's opportunity,
   * if there is one. The unique constraint makes the choice unambiguous.
   */
  function ChildParent(parents: map<Uuid, ParentRow>, child: ChildRow): (r: Option<Uuid>)
    requires ParentsUnique(parents)
    ensures r.None? <==> OpenParents(parents, child.opportunityId) == {}
    ensures r.Some? ==> r.value in parents && parents[r.value].opportunityId == child.opportunityId && parents[r.value].end.None?
    ensures r.Some? ==> OpenParents(parents, child.opportunityId) == {r.value}
  {
    var open := OpenParents(parents, child.opportunityId);
    if open == {} then None
    else
      var p :| p in open;
      AtMostOneOpenParent(parents, child.opportunityId);
      assert open == {p};
      Some(p)
  }

  /** At most one open child version per opportunity and forecast flag. */
  lemma AtMostOneOpenChild(children: map<Uuid, ChildRow>, a: Uuid, b: Uuid)
    requires ChildrenUnique(children) && a in children && b in children
    requires children[a].opportunityId == children[b].opportunityId && children[a].isForecast == children[b].isForecast
    requires children[a].end.None? && children[b].end.None?
    ensures a == b
  {
  }

  /** With default NULL semantics the `Parent` constraint would admit two open versions. */
  lemma DefaultNullsAllowTwoOpenParents()
    ensures var parents := map[1 := ParentRow(7, "a", None, None), 2 := ParentRow(7, "b", None, None)];
      (forall a, b :: a in parents && b in parents && a != b ==>
        !(parents[a].opportunityId == parents[b].opportunityId && NullsDistinctEqual(parents[a].end, parents[b].end))) &&
      !ParentsUnique(parents) && |OpenParents(parents, 7)| == 2
  {
    var parents := map[1 := ParentRow(7, "a", None, None), 2 := ParentRow(7, "b", None, None)];
    assert OpenParents(parents, 7) == {1, 2};
  }

  // ---------------------------------------------------------------------
  // CurrentChild and Parent.new_version
  // ---------------------------------------------------------------------

  /** The primary key `(parent_id, child_id)` of a `current_child` row. */
  datatype PointerKey = PointerKey(parentId: Uuid, childId: Uuid)

  /** `Parent.current_child` is a one-to-one relationship: at most one pointer row per parent. */
  predicate OnePointerPerParent(pointers: map<PointerKey, StatusId>)
  {
    forall a, b :: a in pointers && b in pointers && a.parentId == b.parentId ==> a == b
  }

  /** The pointer rows of one parent. */
  function PointersOf(pointers: map<PointerKey, StatusId>, parentId: Uuid): set<PointerKey>
  {
    set k | k in pointers && k.parentId == parentId
  }

  /** `Parent.current_child`: the parent's pointer row, if it has one. */
  function CurrentChildOf(pointers: map<PointerKey, StatusId>, parentId: Uuid): (r: Option<PointerKey>)
    requires OnePointerPerParent(pointers)
    ensures r.None? <==> PointersOf(pointers, parentId) == {}
    ensures r.Some? ==> r.value in pointers && r.value.parentId == parentId && PointersOf(pointers, parentId) == {r.value}
  {
    var mine := PointersOf(pointers, parentId);
    if mine == {} then None
    else
      var k :| k in mine;
      assert mine == {k};
      Some(k)
  }

  /**
   * The pointer table after `new_version` moved it: the prior row is deleted
   * and a row for the new version, with the same child and status, is added.
   * When the new version keeps the old id both are the same key, and the
   * session's flush turns the delete and the add into one update.
   */
  function MovedPointers(pointers: map<PointerKey, StatusId>, prior: PointerKey, newParentId: Uuid): map<PointerKey, StatusId>
    requires prior in pointers
  {
    (pointers - {prior})[PointerKey(newParentId, prior.childId) := pointers[prior]]
  }

  /** Moving the pointer leaves exactly one row for the new version, on the same child with the same status. */
  lemma MovedPointerIsTheOnlyOne(pointers: map<PointerKey, StatusId>, prior: PointerKey, newParentId: Uuid)
    requires OnePointerPerParent(pointers) && prior in pointers
    requires newParentId == prior.parentId || PointersOf(pointers, newParentId) == {}
    ensures var moved := MovedPointers(pointers, prior, newParentId);
      && OnePointerPerParent(moved)
      && PointersOf(moved, newParentId) == {PointerKey(newParentId, prior.childId)}
      && moved[PointerKey(newParentId, prior.childId)] == pointers[prior]
      && (newParentId != prior.parentId ==> prior !in moved && PointersOf(moved, prior.parentId) == {})
      && (forall k :: k in pointers && k.parentId != prior.parentId && k.parentId != newParentId ==> k in moved && moved[k] == pointers[k])
      && moved.Keys <= pointers.Keys - {prior} + {PointerKey(newParentId, prior.childId)}
  {
    var moved := MovedPointers(pointers, prior, newParentId);
    var nk := PointerKey(newParentId, prior.childId);
    forall k | k in moved && k.parentId == newParentId ensures k == nk {
      assert k == nk || (k in pointers && k != prior);
    }
    assert PointersOf(moved, newParentId) == {nk};
  }

  /** The pointer table `new_version` leaves: the current child moved to `newId`, or the table as it was without one. */
  function PointersAfterNewVersion(pointers: map<PointerKey, StatusId>, parentId: Uuid, newId: Uuid): map<PointerKey, StatusId>
    requires OnePointerPerParent(pointers)
  {
    var prior := CurrentChildOf(pointers, parentId);
    if prior.Some? then MovedPointers(pointers, prior.value, newId) else pointers
  }

  /** The versioned tables `new_version` works on. */
  class OpportunityVersions {
    var parents: map<Uuid, ParentRow>
    var children: map<Uuid, ChildRow>
    var currentChildren: map<PointerKey, StatusId>

    /** The unique constraints and the one-to-one `current_child` relationship. */
    ghost predicate Valid()
      reads this
    {
      ParentsUnique(parents) && ChildrenUnique(children) && OnePointerPerParent(currentChildren)
    }

    constructor (parents0: map<Uuid, ParentRow>, children0: map<Uuid, ChildRow>, pointers0: map<PointerKey, StatusId>)
      requires ParentsUnique(parents0) && ChildrenUnique(children0) && OnePointerPerParent(pointers0)
      ensures Valid()
      ensures parents == parents0 && children == children0 && currentChildren == pointers0
    {
      parents := parents0;
      children := children0;
      currentChildren := pointers0;
    }

    /**
     * `Parent.new_version`. The `VersionMixin` step is not part of this model:
     * its result is given as `versioned`, the parent table it leaves (which
     * keeps the `(opportunity_id, end)` constraint), and `newId`, the id of the
     * version `self` now is: the old id, or a fresh one nothing points at yet.
     */
    method NewVersion(parentId: Uuid, versioned: map<Uuid, ParentRow>, newId: Uuid)
      requires Valid() && parentId in parents
      requires ParentsUnique(versioned) && newId in versioned
      requires newId == parentId || PointersOf(currentChildren, newId) == {}
      modifies this
      ensures Valid()
      ensures parents == versioned && children == old(children)
      ensures currentChildren == PointersAfterNewVersion(old(currentChildren), parentId, newId)
    {
      var prior := CurrentChildOf(currentChildren, parentId);
      parents := versioned;
      if prior.Some? {
        MovedPointerIsTheOnlyOne(currentChildren, prior.value, newId);
        currentChildren := MovedPointers(currentChildren, prior.value, newId);
      }
    }
  }

  /**
   * After `new_version` on a parent with a current child, the new version has
   * exactly one pointer, to the same child with the same status, and (for a
   * fresh id) the old version has none; other parents' pointers are kept.
   */
  lemma NewVersionMovesThePointer(pointers: map<PointerKey, StatusId>, parentId: Uuid, newId: Uuid)
    requires OnePointerPerParent(pointers) && CurrentChildOf(pointers, parentId).Some?
    requires newId == parentId || PointersOf(pointers, newId) == {}
    ensures var prior := CurrentChildOf(pointers, parentId).value;
      var moved := MovedPointers(pointers, prior, newId);
      && OnePointerPerParent(moved)
      && CurrentChildOf(moved, newId) == Some(PointerKey(newId, prior.childId))
      && moved[PointerKey(newId, prior.childId)] == pointers[prior]
      && (newId != parentId ==> CurrentChildOf(moved, parentId).None?)
  {
    var prior := CurrentChildOf(pointers, parentId).value;
    MovedPointerIsTheOnlyOne(pointers, prior, newId);
  }

  /**
   * `new_version` keeps the one-pointer invariant and changes no other
   * parent's current child; without a current child it adds and deletes no
   * pointer row, so the new version has none either.
   */
  lemma NewVersionKeepsOtherPointers(pointers: map<PointerKey, StatusId>, parentId: Uuid, newId: Uuid)
    requires OnePointerPerParent(pointers)
    requires newId == parentId || PointersOf(pointers, newId) == {}
    ensures OnePointerPerParent(PointersAfterNewVersion(pointers, parentId, newId))
    ensures var after := PointersAfterNewVersion(pointers, parentId, newId);
      forall p :: p != parentId && p != newId ==> CurrentChildOf(after, p) == CurrentChildOf(pointers, p)
    ensures CurrentChildOf(pointers, parentId).None? ==>
      var after := PointersAfterNewVersion(pointers, parentId, newId);
      after == pointers && CurrentChildOf(after, newId).None?
  {
    var after := PointersAfterNewVersion(pointers, parentId, newId);
    var prior := CurrentChildOf(pointers, parentId);
    if prior.Some? {
      MovedPointerIsTheOnlyOne(pointers, prior.value, newId);
      forall p | p != parentId && p != newId
        ensures CurrentChildOf(after, p) == CurrentChildOf(pointers, p)
      {
        assert PointersOf(after, p) == PointersOf(pointers, p);
      }
    }
  }
}
