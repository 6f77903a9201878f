/**
 * The three tables the session pipeline reads and writes, held in memory:
 * `session_metrics`, `reference_metrics` and `comparative_results`, with the
 * next value of each SERIAL id column.  Also the "latest by key" selection
 * that every `ORDER BY ... DESC LIMIT 1` query performs.
 */
module Tables {
  import opened Wrappers
  import opened Telemetry

  /** A `session_metrics` row; `avgs` holds the rounded averages, `rawData` the request document. */
  datatype SessionMetric = SessionMetric(id: nat, userId: int, sessionDate: int, avgs: Metrics, rawData: string)

  /** A `reference_metrics` row; `computed_date` is a nullable column. */
  datatype ReferenceMetric = ReferenceMetric(id: nat, avgs: Metrics, computedDate: Option<int>)

  /** The `raw_comparison` document: the session's rounded averages, the baseline and the differences. */
  datatype Snapshot = Snapshot(sessionMetricId: nat, session: Metrics, reference: Metrics, differences: Metrics)

  /** A `comparative_results` row. */
  datatype ComparativeResult = ComparativeResult(
    id: nat, userId: int, sessionMetricId: nat, diffs: Metrics, comparisonDate: int, rawComparison: Snapshot)

  /** The whole store, with the next id each SERIAL column will hand out. */
  datatype Store = Store(
    sessions: seq<SessionMetric>,
    references: seq<ReferenceMetric>,
    comparisons: seq<ComparativeResult>,
    nextSessionId: nat,
    nextComparisonId: nat)

  /**
   * In an `ORDER BY key DESC` listing, a row with key `a` may come before one
   * with key `b`.  PostgreSQL puts NULL keys first in a descending order.
   */
  predicate SortsFirst(a: Option<int>, b: Option<int>) {
    a.None? || (b.Some? && a.value >= b.value)
  }

  /**
   * `WHERE keep ORDER BY key DESC LIMIT 1`: some kept row that sorts first,
   * or None when no row is kept.  Which of several tied rows is returned is
   * not promised.
   */
  function Latest<T>(rows: seq<T>, keep: T -> bool, key: T -> Option<int>): (r: Option<T>)
    ensures r.None? <==> forall x :: x in rows ==> !keep(x)
    ensures r.Some? ==> r.value in rows && keep(r.value)
    ensures r.Some? ==> forall x :: x in rows && keep(x) ==> SortsFirst(key(r.value), key(x))
  {
    if |rows| == 0 then None
    else
      var front, last := rows[..|rows| - 1], rows[|rows| - 1];
      assert rows == front + [last];
      var best := Latest(front, keep, key);
      if !keep(last) then best
      else if best.Some? && SortsFirst(key(best.value), key(last)) then best
      else Some(last)
  }

  /** `r` is a baseline a `ORDER BY computed_date DESC LIMIT 1` query may return. */
  predicate IsLatestReference(r: ReferenceMetric, references: seq<ReferenceMetric>) {
    r in references && forall x :: x in references ==> SortsFirst(r.computedDate, x.computedDate)
  }

  /** `s` is a row the query for the user's most recent session may return. */
  predicate IsLatestSessionOf(s: SessionMetric, sessions: seq<SessionMetric>, userId: int) {
    && s in sessions
    && s.userId == userId
    && forall t :: t in sessions && t.userId == userId ==> t.sessionDate <= s.sessionDate
  }

  /** `c` is a row the query for the comparison of session `sessionId` of the user may return. */
  predicate IsLatestComparisonFor(c: ComparativeResult, comparisons: seq<ComparativeResult>, userId: int, sessionId: nat) {
    && c in comparisons
    && c.userId == userId && c.sessionMetricId == sessionId
    && forall d :: d in comparisons && d.userId == userId && d.sessionMetricId == sessionId ==>
         d.comparisonDate <= c.comparisonDate
  }

  /** The current baseline: the reference row with the greatest `computed_date`. */
  function LatestReference(references: seq<ReferenceMetric>): (r: Option<ReferenceMetric>)
    ensures r.None? <==> |references| == 0
    ensures r.Some? ==> IsLatestReference(r.value, references)
  {
    var r := Latest(references, (x: ReferenceMetric) => true, (x: ReferenceMetric) => x.computedDate);
    assert |references| > 0 ==> references[0] in references;
    r
  }

  /**
   * Because NULLs sort first, the current baseline has no `computed_date`
   * exactly when some baseline has none.
   */
  lemma NullDateIsCurrent(references: seq<ReferenceMetric>)
    ensures (exists x :: x in references && x.computedDate.None?) <==>
            LatestReference(references).Some? && LatestReference(references).value.computedDate.None?
  {
    if exists x :: x in references && x.computedDate.None? {
      var x :| x in references && x.computedDate.None?;
      assert SortsFirst(LatestReference(references).value.computedDate, x.computedDate);
    }
  }

  /** The user's session with the greatest `session_date`. */
  function LatestSessionOf(sessions: seq<SessionMetric>, userId: int): (r: Option<SessionMetric>)
    ensures r.None? <==> forall s :: s in sessions ==> s.userId != userId
    ensures r.Some? ==> IsLatestSessionOf(r.value, sessions, userId)
  {
    Latest(sessions, (s: SessionMetric) => s.userId == userId, (s: SessionMetric) => Some(s.sessionDate))
  }

  /** The comparison of that user and that session with the greatest `comparison_date`. */
  function LatestComparisonFor(comparisons: seq<ComparativeResult>, userId: int, sessionId: nat): (r: Option<ComparativeResult>)
    ensures r.None? <==> forall c :: c in comparisons ==> c.userId != userId || c.sessionMetricId != sessionId
    ensures r.Some? ==> IsLatestComparisonFor(r.value, comparisons, userId, sessionId)
  {
    Latest(comparisons,
           (c: ComparativeResult) => c.userId == userId && c.sessionMetricId == sessionId,
           (c: ComparativeResult) => Some(c.comparisonDate))
  }

  /** Comparison `c` belongs to a stored session of the same user, and its snapshot agrees with both rows. */
  predicate Linked(c: ComparativeResult, sessions: seq<SessionMetric>) {
    && c.rawComparison.sessionMetricId == c.sessionMetricId
    && c.rawComparison.differences == c.diffs
    && exists j :: 0 <= j < |sessions| && sessions[j].id == c.sessionMetricId
                   && sessions[j].userId == c.userId && sessions[j].avgs == c.rawComparison.session
  }

  /**
   * What the append-only writes keep true: SERIAL values start at 1; ids are positive, increasing in
   * insertion order and below the next SERIAL value; every comparison is
   * linked to its session; and comparisons are made for increasing session
   * ids, so no session has more than one.
   */
  predicate Consistent(db: Store) {
    && db.nextSessionId > 0 && db.nextComparisonId > 0
    && (forall i :: 0 <= i < |db.sessions| ==> 0 < db.sessions[i].id < db.nextSessionId)
    && (forall i, j :: 0 <= i < j < |db.sessions| ==> db.sessions[i].id < db.sessions[j].id)
    && (forall i :: 0 <= i < |db.comparisons| ==> 0 < db.comparisons[i].id < db.nextComparisonId)
    && (forall i, j :: 0 <= i < j < |db.comparisons| ==>
          db.comparisons[i].id < db.comparisons[j].id
          && db.comparisons[i].sessionMetricId < db.comparisons[j].sessionMetricId)
    && (forall i :: 0 <= i < |db.comparisons| ==> Linked(db.comparisons[i], db.sessions))
  }

  /** In a consistent store no session has two comparisons, and every comparison names an existing session id. */
  lemma AtMostOneComparisonPerSession(db: Store, i: nat, j: nat)
    requires Consistent(db)
    requires i < |db.comparisons| && j < |db.comparisons|
    ensures db.comparisons[i].sessionMetricId == db.comparisons[j].sessionMetricId ==> i == j
    ensures db.comparisons[i].sessionMetricId < db.nextSessionId
  {
  }
}
