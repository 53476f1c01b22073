/** The decompression-table lookup: which MN90 row applies to a dive of a
    given depth and effective bottom time, and the five stop times it prescribes. */
module Decompression {
  import opened Wrappers

  /** One row of the MN90 table. The row covers depths in the half-open
      interval (p1, p2] and durations in (d1, d2]; each stop cell (15, 12, 9,
      6 and 3 metres, in minutes) may be empty in the table. */
  datatype Row = Row(p1: int, p2: int, d1: int, d2: int,
                     s15: Option<int>, s12: Option<int>, s9: Option<int>,
                     s6: Option<int>, s3: Option<int>)

  /** The table, in the order its rows were loaded. */
  type Table = seq<Row>

  /** What the lookup hands to the rest of the planner: the five stop times
      in minutes and whether the lookup failed. */
  datatype Schedule = Schedule(m15: int, m12: int, m9: int, m6: int, m3: int, error: bool)

  /** The schedule reported when no row applies: all stops zero, error set. */
  const NoMatch: Schedule := Schedule(0, 0, 0, 0, 0, true)

  /** The row's intervals contain the dive: lower bounds strict, upper bounds
      inclusive. So a matching row has non-empty intervals, and a dive sitting
      on a row's lower bound never matches it. */
  predicate Matches(row: Row, depth: int, duration: int)
    ensures Matches(row, depth, duration) ==> row.p1 < row.p2 && row.d1 < row.d2
    ensures depth == row.p1 || duration == row.d1 ==> !Matches(row, depth, duration)
    ensures depth == row.p2 && duration == row.d2 ==> (Matches(row, depth, duration) <==> row.p1 < row.p2 && row.d1 < row.d2)
  {
    row.p1 < depth <= row.p2 && row.d1 < duration <= row.d2
  }

  /** Some row of the table contains the dive. */
  predicate Covered(t: Table, depth: int, duration: int) {
    exists i :: 0 <= i < |t| && Matches(t[i], depth, duration)
  }

  /** Row `i` contains the dive and no earlier row does. */
  predicate IsFirstMatch(t: Table, i: int, depth: int, duration: int) {
    && 0 <= i < |t|
    && Matches(t[i], depth, duration)
    && forall j :: 0 <= j < i ==> !Matches(t[j], depth, duration)
  }

  /** Reference definition of the row the lookup must pick: the index of the
      first row, in table order, that contains the dive. */
  function FirstMatch(t: Table, depth: int, duration: int): (r: Option<nat>)
    ensures r.Some? <==> Covered(t, depth, duration)
    ensures r.Some? ==> IsFirstMatch(t, r.value, depth, duration)
  {
    if |t| == 0 then None
    else if Matches(t[0], depth, duration) then Some(0)
    else
      match FirstMatch(t[1..], depth, duration)
      case None =>
        assert forall i :: 1 <= i < |t| ==> t[i] == t[1..][i - 1];
        None
      case Some(k) => Some(k + 1)
  }

  /** The rows whose intervals contain the dive, in table order: the boolean
      mask planner.py builds over the whole table. */
  function MatchingRows(t: Table, depth: int, duration: int): (m: Table)
    ensures |m| <= |t|
    ensures forall k :: 0 <= k < |m| ==> Matches(m[k], depth, duration)
    ensures forall i :: 0 <= i < |t| && Matches(t[i], depth, duration) ==> t[i] in m
    ensures |m| > 0 <==> Covered(t, depth, duration)
    ensures |m| > 0 ==> m[0] == t[FirstMatch(t, depth, duration).value]
  {
    if |t| == 0 then []
    else
      var rest := MatchingRows(t[1..], depth, duration);
      assert forall i :: 1 <= i < |t| ==> t[i] == t[1..][i - 1];
      if Matches(t[0], depth, duration) then [t[0]] + rest else rest
  }

  /** The stop times of one row, an empty cell read as zero minutes. */
  function StopsOf(row: Row): (s: Schedule)
    ensures !s.error
    ensures row.s15.Some? ==> s.m15 == row.s15.value
    ensures row.s15.None? ==> s.m15 == 0
    ensures row.s12.Some? ==> s.m12 == row.s12.value
    ensures row.s12.None? ==> s.m12 == 0
    ensures row.s9.Some? ==> s.m9 == row.s9.value
    ensures row.s9.None? ==> s.m9 == 0
    ensures row.s6.Some? ==> s.m6 == row.s6.value
    ensures row.s6.None? ==> s.m6 == 0
    ensures row.s3.Some? ==> s.m3 == row.s3.value
    ensures row.s3.None? ==> s.m3 == 0
  {
    Schedule(row.s15.GetOr(0), row.s12.GetOr(0), row.s9.GetOr(0),
             row.s6.GetOr(0), row.s3.GetOr(0), false)
  }

  /** The lookup: an empty table or a dive no row contains gives the
      all-zero schedule with the error flag; otherwise the stops of the first
      matching row. */
  function Lookup(depth: int, duration: int, t: Table): (s: Schedule)
    ensures s.error <==> !Covered(t, depth, duration)
    ensures s.error ==> s == NoMatch
    ensures !s.error ==> exists i :: IsFirstMatch(t, i, depth, duration) && s == StopsOf(t[i])
  {
    if |t| == 0 then NoMatch
    else
      var m := MatchingRows(t, depth, duration);
      if |m| == 0 then NoMatch else StopsOf(m[0])
  }

  /** Whatever row is the first match, the lookup reports exactly its stops. */
  lemma LookupFirstMatch(t: Table, i: int, depth: int, duration: int)
    requires IsFirstMatch(t, i, depth, duration)
    ensures Lookup(depth, duration, t) == StopsOf(t[i])
  {
    var f := FirstMatch(t, depth, duration);
    assert f.Some? && IsFirstMatch(t, f.value, depth, duration);
    assert f.value == i;
  }

  /** A dive beyond every row's maximum depth is never planned. */
  lemma TooDeepNoMatch(t: Table, depth: int, duration: int)
    requires forall i :: 0 <= i < |t| ==> t[i].p2 < depth
    ensures Lookup(depth, duration, t) == NoMatch
  {
  }

  /** A value on a row's upper bound belongs to that row; a value on its
      lower bound never does. */
  lemma BoundaryBelongsToUpperRow(row: Row, depth: int, duration: int)
    ensures row.p1 < depth <= row.p2 && row.d1 < row.d2 ==> Matches(row, depth, row.d2)
    ensures row.d1 < duration <= row.d2 && row.p1 < row.p2 ==> Matches(row, row.p2, duration)
    ensures !Matches(row, depth, row.d1) && !Matches(row, row.p1, duration)
  {
  }

  /** The row the lookup picks always lies strictly above its lower bounds. */
  lemma PickedRowLowerBoundsStrict(t: Table, depth: int, duration: int)
    requires Covered(t, depth, duration)
    ensures exists i :: && IsFirstMatch(t, i, depth, duration)
                        && t[i].p1 != depth && t[i].d1 != duration
                        && Lookup(depth, duration, t) == StopsOf(t[i])
  {
    var i := FirstMatch(t, depth, duration).value;
    LookupFirstMatch(t, i, depth, duration);
  }

  /** Two rows whose depth or duration intervals do not overlap. */
  predicate RowsDisjoint(a: Row, b: Row) {
    a.p2 <= b.p1 || b.p2 <= a.p1 || a.d2 <= b.d1 || b.d2 <= a.d1
  }

  /** The construction rule of the MN90 table: no dive lies in two rows. */
  predicate WellFormed(t: Table) {
    forall i, j :: 0 <= i < |t| && 0 <= j < |t| && i != j ==> RowsDisjoint(t[i], t[j])
  }

  /** In a table built without overlaps the matching row is unique, so the
      lookup returns it whatever its position. */
  lemma LookupInWellFormedTable(t: Table, k: int, depth: int, duration: int)
    requires WellFormed(t)
    requires 0 <= k < |t| && Matches(t[k], depth, duration)
    ensures forall j :: 0 <= j < |t| && j != k ==> !Matches(t[j], depth, duration)
    ensures Lookup(depth, duration, t) == StopsOf(t[k])
  {
    forall j | 0 <= j < |t| && j != k
      ensures !Matches(t[j], depth, duration)
    {
      assert RowsDisjoint(t[j], t[k]);
    }
    LookupFirstMatch(t, k, depth, duration);
  }
}
