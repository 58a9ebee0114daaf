/**
 * `EtlQuadModel`: syncs one quad into the `gh_quad` dimension table. The
 * quad's dates arrive as `%Y-%m-%d` strings, are stored as PostgreSQL dates
 * and are rendered back with `strftime` before the comparison.
 *
 * Two forms of the update path are modelled: the code as written, whose
 * select cannot tell quads apart and whose update statement is never
 * filled in, and the evidently intended one, which the class implements.
 */
module QuadModel {
  import opened Wrappers
  import opened EtlDimension

  // ---------------------------------------------------------------- dates

  /** A calendar date, as a PostgreSQL `date` column holds it. */
  datatype Date = Date(year: nat, month: nat, day: nat)

  predicate IsLeapYear(y: int)
  {
    y % 4 == 0 && (y % 100 != 0 || y % 400 == 0)
  }

  function DaysInMonth(y: int, m: int): int
  {
    if m == 2 then (if IsLeapYear(y) then 29 else 28)
    else if m == 4 || m == 6 || m == 9 || m == 11 then 30
    else 31
  }

  /** A Gregorian date with a four-digit year, the range `%Y` renders without padding questions. */
  predicate ValidDate(d: Date)
  {
    1000 <= d.year <= 9999 && 1 <= d.month <= 12 && 1 <= d.day <= DaysInMonth(d.year, d.month)
  }

  predicate IsDigit(c: char)
  {
    '0' <= c <= '9'
  }

  predicate AllDigits(s: string)
  {
    forall i :: 0 <= i < |s| ==> IsDigit(s[i])
  }

  function DigitChar(n: nat): (c: char)
    requires n < 10
    ensures IsDigit(c)
  {
    (48 + n) as char
  }

  function DigitValue(c: char): (n: nat)
    requires IsDigit(c)
    ensures n < 10 && DigitChar(n) == c
  {
    c as int - 48
  }

  function Pow10(w: nat): (r: nat)
    ensures r >= 1
  {
    if w == 0 then 1 else 10 * Pow10(w - 1)
  }

  /** The low `width` decimal digits of `n`, most significant first, zero-padded. */
  function Digits(n: nat, width: nat): (s: string)
    ensures |s| == width && AllDigits(s)
  {
    if width == 0 then "" else Digits(n / 10, width - 1) + [DigitChar(n % 10)]
  }

  /** The value of a string of decimal digits. */
  function Number(s: string): nat
    requires AllDigits(s)
  {
    if s == [] then 0 else Number(s[..|s| - 1]) * 10 + DigitValue(s[|s| - 1])
  }

  lemma {:induction false} NumberOfDigits(n: nat, width: nat)
    requires n < Pow10(width)
    ensures Number(Digits(n, width)) == n
  {
    if width > 0 {
      var s := Digits(n, width);
      assert s[..|s| - 1] == Digits(n / 10, width - 1);
      NumberOfDigits(n / 10, width - 1);
    }
  }

  lemma {:induction false} DigitsOfNumber(s: string)
    requires AllDigits(s)
    ensures Digits(Number(s), |s|) == s
  {
    if s != [] {
      var init := s[..|s| - 1];
      var n := Number(s);
      assert n / 10 == Number(init) && n % 10 == DigitValue(s[|s| - 1]);
      DigitsOfNumber(init);
      assert s == init + [s[|s| - 1]];
    }
  }

  /** `strftime("%Y-%m-%d")`. */
  function Format(d: Date): (s: string)
    ensures |s| == 10
  {
    Digits(d.year, 4) + "-" + Digits(d.month, 2) + "-" + Digits(d.day, 2)
  }

  /** The shape `Format` produces: four digits, a dash, two digits, a dash, two digits. */
  predicate Canonical(s: string)
  {
    && |s| == 10 && s[4] == '-' && s[7] == '-'
    && AllDigits(s[..4]) && AllDigits(s[5..7]) && AllDigits(s[8..])
  }

  /** The date a canonical `YYYY-MM-DD` literal of a valid date denotes; None for any other literal. */
  function Parse(s: string): Option<Date>
  {
    if !Canonical(s) then None
    else
      var d := Date(Number(s[..4]), Number(s[5..7]), Number(s[8..]));
      if ValidDate(d) then Some(d) else None
  }

  /** Rendering a valid date and reading it back gives the date. */
  lemma FormatThenParse(d: Date)
    requires ValidDate(d)
    ensures Parse(Format(d)) == Some(d)
  {
    var s := Format(d);
    assert s[..4] == Digits(d.year, 4);
    assert s[5..7] == Digits(d.month, 2);
    assert s[8..] == Digits(d.day, 2);
    NumberOfDigits(d.year, 4);
    NumberOfDigits(d.month, 2);
    NumberOfDigits(d.day, 2);
  }

  /** A string that parses is the rendering of the date it parses to. */
  lemma ParseThenFormat(s: string)
    requires Parse(s).Some?
    ensures ValidDate(Parse(s).value) && Format(Parse(s).value) == s
  {
    DigitsOfNumber(s[..4]);
    DigitsOfNumber(s[5..7]);
    DigitsOfNumber(s[8..]);
    assert s == s[..4] + "-" + s[5..7] + "-" + s[8..];
  }

  /** So comparing a stored date's rendering with a parsable string compares the dates. */
  lemma FormatMatchesIffSameDate(stored: Date, s: string)
    requires ValidDate(stored) && Parse(s).Some?
    ensures Format(stored) == s <==> stored == Parse(s).value
  {
    ParseThenFormat(s);
    FormatThenParse(stored);
  }

  // ---------------------------------------------------------------- quads

  /** The columns of `gh_quad` besides id, ghid and `t_modified`. */
  datatype QuadAttrs = QuadAttrs(name: string, start: Date, end: Date, duration: int)

  /** The fields of one quad record that the sync reads. */
  datatype QuadPayload = QuadPayload(ghid: Ghid, name: string, start: string, end: string, length: int)

  /** The stored values of a payload, when PostgreSQL accepts both date literals. */
  function ParsedAttrs(p: QuadPayload): Option<QuadAttrs>
  {
    match (Parse(p.start), Parse(p.end))
    case (Some(s), Some(e)) => Some(QuadAttrs(p.name, s, e, p.length))
    case _ => None
  }

  /** `new_values`: the payload's `(name, start, end, int(length))`. */
  function NewQuadValues(p: QuadPayload): (string, string, string, int)
  {
    (p.name, p.start, p.end, p.length)
  }

  /** `old_values`: a stored row's values with its dates rendered by `strftime`. */
  function OldQuadValues(a: QuadAttrs): (string, string, string, int)
  {
    (a.name, Format(a.start), Format(a.end), a.duration)
  }

  /** Every stored quad has valid dates, besides the dimension-table invariant. */
  predicate QuadsValid(t: DimTable<QuadAttrs>, nextId: int)
  {
    TableValid(t, nextId) && forall i :: 0 <= i < |t| ==> ValidDate(t[i].attrs.start) && ValidDate(t[i].attrs.end)
  }

  /** The string comparison of the code decides the same as comparing the stored values with the parsed payload. */
  lemma ValuesMatchIffSameAttrs(a: QuadAttrs, p: QuadPayload)
    requires ValidDate(a.start) && ValidDate(a.end) && ParsedAttrs(p).Some?
    ensures NewQuadValues(p) == OldQuadValues(a) <==> a == ParsedAttrs(p).value
  {
    FormatMatchesIffSameDate(a.start, p.start);
    FormatMatchesIffSameDate(a.end, p.end);
  }

  /**
   * The intended `syncQuad`: an unparsable date makes the insert fail;
   * otherwise the dimension sync with the parsed values.
   */
  function SyncQuadSpec(t: DimTable<QuadAttrs>, nextId: int, p: QuadPayload, now: Timestamp): Result<Synced<QuadAttrs>, EtlError>
  {
    match ParsedAttrs(p)
    case None => Err(InvalidDate)
    case Some(a) => Ok(SyncDimension(t, nextId, p.ghid, a, now))
  }

  /** Storing values with valid dates keeps every stored date valid. */
  lemma SyncKeepsDatesValid(t: DimTable<QuadAttrs>, nextId: int, g: Ghid, a: QuadAttrs, now: Timestamp)
    requires QuadsValid(t, nextId) && ValidDate(a.start) && ValidDate(a.end)
    ensures var s := SyncDimension(t, nextId, g, a, now); QuadsValid(s.table, s.nextId)
  {
    var s := SyncDimension(t, nextId, g, a, now);
    SyncStoresThePayload(t, nextId, g, a, now);
    forall i | 0 <= i < |s.table| ensures ValidDate(s.table[i].attrs.start) && ValidDate(s.table[i].attrs.end) {
      if i < |t| && t[i].ghid != g {
        assert s.table[i] == t[i];
      } else {
        assert s.table[i].ghid == g;
        LookupFindsTheOnlyRow(s.table, s.nextId, g, i);
      }
    }
  }

  /**
   * The intended sync keeps every stored date valid, returns the id of the
   * payload's own row, reports UPDATE exactly when a compared value
   * differs, and a second sync is quiet.
   */
  lemma SyncQuadReturnsItsOwnRow(t: DimTable<QuadAttrs>, nextId: int, p: QuadPayload, now: Timestamp, later: Timestamp)
    requires QuadsValid(t, nextId) && ParsedAttrs(p).Some?
    ensures var r := SyncQuadSpec(t, nextId, p, now);
      && r.Ok?
      && QuadsValid(r.value.table, r.value.nextId)
      && var k := Lookup(r.value.table, p.ghid);
      && k.Some? && r.value.table[k.value].id == r.value.id
      && (r.value.change == UPDATE <==> Lookup(t, p.ghid).Some? && NewQuadValues(p) != OldQuadValues(t[Lookup(t, p.ghid).value].attrs))
      && SyncQuadSpec(r.value.table, r.value.nextId, p, later) == Ok(Synced(r.value.table, r.value.nextId, r.value.id, NONE))
  {
    var a := ParsedAttrs(p).value;
    SyncStoresThePayload(t, nextId, p.ghid, a, now);
    SyncTwiceIsQuiet(t, nextId, p.ghid, a, now, later);
    SyncKeepsDatesValid(t, nextId, p.ghid, a, now);
    var k := Lookup(t, p.ghid);
    if k.Some? {
      ValuesMatchIffSameAttrs(t[k.value].attrs, p);
    }
  }

  // ------------------------------------------------ the code as written

  /** Line 78's predicate `ghid = ghid` holds on every row, so `fetchone()` reads the first row of the table. */
  function SelectAsWritten(t: DimTable<QuadAttrs>, g: Ghid): (r: Option<DimRow<QuadAttrs>>)
    ensures r.None? <==> t == []
    ensures r.Some? ==> r.value == t[0]
  {
    if t == [] then None else Some(t[0])
  }

  /**
   * `_updateDimensions` as written: compares with whatever row the select
   * read, and when the values differ the update statement reaches
   * PostgreSQL with its `{...}` placeholders unfilled, which it rejects.
   */
  function UpdateDimensionsAsWritten(t: DimTable<QuadAttrs>, p: QuadPayload): Result<(Option<int>, EtlChangeType), EtlError>
  {
    match SelectAsWritten(t, p.ghid)
    case None => Err(NoRowSelected)
    case Some(row) =>
      if NewQuadValues(p) == OldQuadValues(row.attrs) then Ok((Some(row.id), NONE))
      else Err(SqlSyntaxError)
  }

  /** `syncQuad` as written: the insert (which parses the dates), then the update path above. */
  function SyncQuadAsWritten(t: DimTable<QuadAttrs>, nextId: int, p: QuadPayload): Result<Synced<QuadAttrs>, EtlError>
  {
    match ParsedAttrs(p)
    case None => Err(InvalidDate)
    case Some(a) =>
      if Lookup(t, p.ghid).None? then Ok(Synced(t + [DimRow(nextId, p.ghid, a, None)], nextId + 1, nextId, INSERT))
      else if NewQuadValues(p) == OldQuadValues(t[0].attrs) then Ok(Synced(t, nextId, t[0].id, NONE))
      else Err(SqlSyntaxError)
  }

  /** The as-written sync is the insert followed by the as-written update path. */
  lemma SyncQuadAsWrittenComposes(t: DimTable<QuadAttrs>, nextId: int, p: QuadPayload)
    requires ParsedAttrs(p).Some? && Lookup(t, p.ghid).Some?
    ensures var u := UpdateDimensionsAsWritten(t, p);
      && (u.Err? ==> SyncQuadAsWritten(t, nextId, p) == Err(u.error))
      && (u.Ok? ==> u.value.0.Some? && SyncQuadAsWritten(t, nextId, p) == Ok(Synced(t, nextId, u.value.0.value, u.value.1)))
  {
  }

  /**
   * As written, a sync never reports UPDATE and never changes a stored
   * quad: an existing quad either matches the first row (NONE, with the
   * first row's id, whatever the quad) or the sync fails.
   */
  lemma AsWrittenNeverUpdates(t: DimTable<QuadAttrs>, nextId: int, p: QuadPayload)
    ensures var r := SyncQuadAsWritten(t, nextId, p);
      && (r.Ok? ==> r.value.change != UPDATE)
      && (r.Ok? && r.value.change == NONE ==> r.value.table == t && r.value.id == t[0].id)
      && (r.Ok? && r.value.change == INSERT ==> r.value.table[..|t|] == t)
  {
  }

  /**
   * Line 78: when the first stored quad has the same values as another
   * one, re-syncing the other quad unchanged reports the first quad's id as
   * written; the intended sync reports the quad's own id.
   */
  lemma AsWrittenReportsAnotherQuadsId(t: DimTable<QuadAttrs>, nextId: int, p: QuadPayload, k: nat, now: Timestamp)
    requires QuadsValid(t, nextId) && 0 < k < |t| && p.ghid == t[k].ghid
    requires t[0].attrs == t[k].attrs && ParsedAttrs(p) == Some(t[k].attrs)
    ensures SyncQuadAsWritten(t, nextId, p) == Ok(Synced(t, nextId, t[0].id, NONE))
    ensures SyncQuadSpec(t, nextId, p, now) == Ok(Synced(t, nextId, t[k].id, NONE))
    ensures t[0].id != t[k].id
  {
    LookupFindsTheOnlyRow(t, nextId, p.ghid, k);
    ValuesMatchIffSameAttrs(t[0].attrs, p);
  }

  /**
   * Line 87: a changed name, date or duration makes the sync fail as
   * written, even for the quad stored first; the intended sync rewrites
   * that row and reports UPDATE.
   */
  lemma AsWrittenChangeFails(t: DimTable<QuadAttrs>, nextId: int, p: QuadPayload, now: Timestamp)
    requires QuadsValid(t, nextId) && |t| > 0 && p.ghid == t[0].ghid
    requires ParsedAttrs(p).Some? && ParsedAttrs(p).value != t[0].attrs
    ensures SyncQuadAsWritten(t, nextId, p) == Err(SqlSyntaxError)
    ensures SyncQuadSpec(t, nextId, p, now)
      == Ok(Synced(t[0 := t[0].(attrs := ParsedAttrs(p).value, tModified := Some(now))], nextId, t[0].id, UPDATE))
  {
    LookupFindsTheOnlyRow(t, nextId, p.ghid, 0);
    ValuesMatchIffSameAttrs(t[0].attrs, p);
    UpdateWhereIdRewritesOneRow(t, nextId, 0, ParsedAttrs(p).value, now);
  }

  /**
   * Line 78 in its common form: re-syncing unchanged any stored quad whose
   * values differ from the first row's makes the as-written sync compare
   * with the first row and reach the failing update of line 87; the
   * intended sync reports NONE with the quad's own id.
   */
  lemma AsWrittenResyncOfLaterQuadFails(t: DimTable<QuadAttrs>, nextId: int, p: QuadPayload, k: nat, now: Timestamp)
    requires QuadsValid(t, nextId) && 0 < k < |t| && p.ghid == t[k].ghid
    requires ParsedAttrs(p) == Some(t[k].attrs) && t[0].attrs != t[k].attrs
    ensures SyncQuadAsWritten(t, nextId, p) == Err(SqlSyntaxError)
    ensures SyncQuadSpec(t, nextId, p, now) == Ok(Synced(t, nextId, t[k].id, NONE))
  {
    LookupFindsTheOnlyRow(t, nextId, p.ghid, k);
    ValuesMatchIffSameAttrs(t[0].attrs, p);
  }

  // ------------------------------------------------- the intended class

  class EtlQuadModel {
    var quads: DimTable<QuadAttrs>
    var nextQuadId: int

    ghost predicate Valid()
      reads this
    {
      QuadsValid(quads, nextQuadId)
    }

    constructor ()
      ensures Valid() && quads == []
    {
      quads := [];
      nextQuadId := 1;
    }

    /** `_insertDimensions`: an unparsable date literal fails the statement; otherwise insert, or None for a stored ghid. */
    method InsertDimensions(p: QuadPayload) returns (r: Result<Option<int>, EtlError>)
      requires Valid()
      modifies this
      ensures Valid()
      ensures ParsedAttrs(p).None? ==> r == Err(InvalidDate) && quads == old(quads) && nextQuadId == old(nextQuadId)
      ensures ParsedAttrs(p).Some? ==>
        && r.Ok?
        && (quads, r.value) == InsertOnConflictDoNothing(old(quads), old(nextQuadId), p.ghid, ParsedAttrs(p).value)
        && nextQuadId == NextIdAfter(old(nextQuadId), r.value)
        && (r.value.Some? <==> Lookup(old(quads), p.ghid).None?)
    {
      var values := ParsedAttrs(p);
      if values.None? {
        return Err(InvalidDate);
      }
      var a := values.value;
      InsertOnConflictAddsOnlyNewGhids(quads, nextQuadId, p.ghid, a);
      SyncKeepsDatesValid(quads, nextQuadId, p.ghid, a, 0);
      var newRowId := None;
      var (table, row) := InsertOnConflictDoNothing(quads, nextQuadId, p.ghid, a);
      if row.Some? {
        newRowId := row;
        quads := table;
        nextQuadId := nextQuadId + 1;
      }
      r := Ok(newRowId);
    }

    /**
     * `_updateDimensions` with the select bound to the quad's ghid and the
     * update's values filled in: UPDATE when a compared value differs,
     * NONE otherwise; no row makes the unpacking raise.
     */
    method UpdateDimensions(p: QuadPayload, now: Timestamp) returns (r: Result<(Option<int>, EtlChangeType), EtlError>)
      requires Valid()
      modifies this
      ensures Valid()
      ensures nextQuadId == old(nextQuadId)
      ensures Lookup(old(quads), p.ghid).None? ==> r == Err(NoRowSelected) && quads == old(quads)
      ensures Lookup(old(quads), p.ghid).Some? && ParsedAttrs(p).Some? ==>
        var s := SyncDimension(old(quads), old(nextQuadId), p.ghid, ParsedAttrs(p).value, now);
        r == Ok((Some(s.id), s.change)) && quads == s.table
      ensures Lookup(old(quads), p.ghid).Some? && ParsedAttrs(p).None? ==> r == Err(InvalidDate)
      ensures r.Err? ==> quads == old(quads)
    {
      var changeType := NONE;
      var k := Lookup(quads, p.ghid);
      if k.None? {
        return Err(NoRowSelected);
      }
      var row := quads[k.value];
      if NewQuadValues(p) != OldQuadValues(row.attrs) {
        changeType := UPDATE;
        var values := ParsedAttrs(p);
        if values.None? {
          return Err(InvalidDate);
        }
        ValuesMatchIffSameAttrs(row.attrs, p);
        SyncKeepsDatesValid(quads, nextQuadId, p.ghid, values.value, now);
        UpdateWhereIdRewritesOneRow(quads, nextQuadId, k.value, values.value, now);
        quads := UpdateWhereId(quads, row.id, values.value, now);
      } else {
        FormatThenParse(row.attrs.start);
        FormatThenParse(row.attrs.end);
        assert ParsedAttrs(p).Some? ==> row.attrs == ParsedAttrs(p).value by {
          if ParsedAttrs(p).Some? {
            ValuesMatchIffSameAttrs(row.attrs, p);
          }
        }
      }
      r := Ok((Some(row.id), changeType));
    }

    /** `syncQuad`, as intended: agrees with the intended sync on every payload. */
    method SyncQuad(p: QuadPayload, now: Timestamp) returns (r: Result<(Option<int>, EtlChangeType), EtlError>)
      requires Valid()
      modifies this
      ensures Valid()
      ensures var spec := SyncQuadSpec(old(quads), old(nextQuadId), p, now);
        && (spec.Err? ==> r == Err(InvalidDate) && quads == old(quads) && nextQuadId == old(nextQuadId))
        && (spec.Ok? ==> r == Ok((Some(spec.value.id), spec.value.change)) && quads == spec.value.table && nextQuadId == spec.value.nextId)
    {
      var changeType := NONE;
      var inserted := InsertDimensions(p);
      match inserted
      case Err(e) =>
        return Err(e);
      case Ok(quadId) =>
        if quadId.Some? {
          changeType := INSERT;
        }
        if quadId.None? {
          r := UpdateDimensions(p, now);
          return;
        }
        r := Ok((quadId, changeType));
    }
  }
}
