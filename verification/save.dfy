/**
 * The `/save_session_data` handler: reduce the telemetry, append one
 * `session_metrics` row, look up the current baseline and, only when there is
 * one, append one `comparative_results` row with the signed differences.
 *
 * `SaveSession` is the handler as a function of the store before the request;
 * `MetricsDb.SaveSessionData` performs the same writes step by step on the
 * store's tables and is proved to end in the state `SaveSession` describes.
 */
module Save {
  import opened Wrappers
  import opened Rounding
  import opened Telemetry
  import opened Tables

  /** The request body: `user_id`, `session_data`, and the whole body as stored in `raw_data`. */
  datatype Submission = Submission(userId: Option<int>, sessionData: SessionData, raw: string)

  /** The `comparison_id` and `comparison` members of a success response. */
  datatype ComparisonOut = ComparisonOut(comparisonId: nat, comparison: Snapshot)

  datatype SaveResponse =
    | SaveFailure(message: string)
    | SaveSuccess(message: string, sessionMetricId: nat, comparison: Option<ComparisonOut>)

  const MsgNoUserId := "user_id no proporcionado"
  const MsgSaved := "Datos de sesión guardados exitosamente"
  const MsgSavedNoReference := "Datos de sesión guardados, pero no hay métricas de referencia para comparación"

  /** `not user_id`: the field is missing (or null) or the number 0. */
  predicate IsFalsy(userId: Option<int>) {
    userId.None? || userId.value == 0
  }

  function RoundMetrics(m: Metrics): Metrics {
    Metrics(Round2(m.attention), Round2(m.gazeX), Round2(m.gazeY))
  }

  /** The signed differences session minus baseline, each rounded. */
  function Differences(session: Metrics, reference: Metrics): Metrics {
    Metrics(Round2(session.attention - reference.attention),
            Round2(session.gazeX - reference.gazeX),
            Round2(session.gazeY - reference.gazeY))
  }

  /** The `session_metrics` row a save inserts. */
  function SessionRow(id: nat, userId: int, sessionDate: int, sub: Submission): SessionMetric {
    SessionMetric(id, userId, sessionDate, RoundMetrics(SessionAverages(sub.sessionData)), sub.raw)
  }

  /** The `comparative_results` row a save inserts against baseline `ref`. */
  function ComparisonRow(id: nat, userId: int, sessionId: nat, comparisonDate: int,
                         averages: Metrics, ref: ReferenceMetric): ComparativeResult {
    var diffs := Differences(averages, ref.avgs);
    ComparativeResult(id, userId, sessionId, diffs, comparisonDate,
                      Snapshot(sessionId, RoundMetrics(averages), ref.avgs, diffs))
  }

  /**
   * The store after the request and the response.  `sessionDate` and
   * `comparisonDate` are the two readings of the clock.
   */
  function SaveSession(db: Store, sub: Submission, sessionDate: int, comparisonDate: int): (Store, SaveResponse) {
    if IsFalsy(sub.userId) then (db, SaveFailure(MsgNoUserId))
    else
      var userId := sub.userId.value;
      var sessionId := db.nextSessionId;
      var db1 := db.(sessions := db.sessions + [SessionRow(sessionId, userId, sessionDate, sub)],
                     nextSessionId := sessionId + 1);
      match LatestReference(db1.references)
      case None => (db1, SaveSuccess(MsgSavedNoReference, sessionId, None))
      case Some(ref) =>
        var comp := ComparisonRow(db1.nextComparisonId, userId, sessionId, comparisonDate,
                                  SessionAverages(sub.sessionData), ref);
        (db1.(comparisons := db1.comparisons + [comp], nextComparisonId := comp.id + 1),
         SaveSuccess(MsgSaved, sessionId, Some(ComparisonOut(comp.id, comp.rawComparison))))
  }

  // ---------------------------------------------------------------------------
  // Properties of a save

  /** A missing or falsy `user_id` fails with its message and writes nothing. */
  lemma MissingUserIdWritesNothing(db: Store, sub: Submission, sessionDate: int, comparisonDate: int)
    requires IsFalsy(sub.userId)
    ensures SaveSession(db, sub, sessionDate, comparisonDate) == (db, SaveFailure(MsgNoUserId))
  {
  }

  /**
   * A save with a user appends exactly one session row, holding the user, the
   * rounded averages and the raw body, under a fresh id that the response
   * returns; earlier rows, the baselines and earlier comparisons are kept.
   */
  lemma SaveAppendsOneSession(db: Store, sub: Submission, sessionDate: int, comparisonDate: int)
    requires Consistent(db)
    requires !IsFalsy(sub.userId)
    ensures var (db', resp) := SaveSession(db, sub, sessionDate, comparisonDate);
            && resp.SaveSuccess?
            && db'.sessions == db.sessions + [db'.sessions[|db.sessions|]]
            && db'.sessions[|db.sessions|].id == resp.sessionMetricId
            && (forall s :: s in db.sessions ==> s.id != resp.sessionMetricId)
            && db'.sessions[|db.sessions|].userId == sub.userId.value
            && db'.sessions[|db.sessions|].sessionDate == sessionDate
            && db'.sessions[|db.sessions|].avgs == RoundMetrics(SessionAverages(sub.sessionData))
            && db'.sessions[|db.sessions|].rawData == sub.raw
            && db'.references == db.references
            && db.comparisons <= db'.comparisons
  {
  }

  /**
   * A comparison row is appended if and only if there is a baseline; it
   * carries the request's user and the new session's id, so no earlier
   * session ever gains a comparison.
   */
  lemma ComparisonIffReference(db: Store, sub: Submission, sessionDate: int, comparisonDate: int)
    requires !IsFalsy(sub.userId)
    ensures var (db', resp) := SaveSession(db, sub, sessionDate, comparisonDate);
            && (|db.references| == 0 ==> db'.comparisons == db.comparisons)
            && (|db.references| > 0 ==>
                  && |db'.comparisons| == |db.comparisons| + 1
                  && db'.comparisons[..|db.comparisons|] == db.comparisons
                  && db'.comparisons[|db.comparisons|].userId == sub.userId.value
                  && db'.comparisons[|db.comparisons|].sessionMetricId == resp.sessionMetricId)
  {
  }

  /**
   * Each stored difference is the rounded difference between the unrounded
   * session average and the value of a baseline with the greatest
   * `computed_date`; it is negative exactly when the baseline exceeds the
   * session value by more than half a hundredth.
   */
  lemma ComparisonDifferences(db: Store, sub: Submission, sessionDate: int, comparisonDate: int)
    requires !IsFalsy(sub.userId)
    requires |db.references| > 0
    ensures var (db', resp) := SaveSession(db, sub, sessionDate, comparisonDate);
            var c := db'.comparisons[|db'.comparisons| - 1];
            var avgs := SessionAverages(sub.sessionData);
            exists ref :: && IsLatestReference(ref, db.references)
                          && c.diffs.attention == Round2(avgs.attention - ref.avgs.attention)
                          && c.diffs.gazeX == Round2(avgs.gazeX - ref.avgs.gazeX)
                          && c.diffs.gazeY == Round2(avgs.gazeY - ref.avgs.gazeY)
                          && c.rawComparison == Snapshot(c.sessionMetricId, RoundMetrics(avgs), ref.avgs, c.diffs)
                          && (c.diffs.attention < 0.0 <==> ref.avgs.attention - avgs.attention > 1.0 / 200.0)
                          && (c.diffs.gazeX < 0.0 <==> ref.avgs.gazeX - avgs.gazeX > 1.0 / 200.0)
                          && (c.diffs.gazeY < 0.0 <==> ref.avgs.gazeY - avgs.gazeY > 1.0 / 200.0)
  {
    var ref := LatestReference(db.references).value;
    var avgs := SessionAverages(sub.sessionData);
    Round2Negative(avgs.attention - ref.avgs.attention);
    Round2Negative(avgs.gazeX - ref.avgs.gazeX);
    Round2Negative(avgs.gazeY - ref.avgs.gazeY);
  }

  /**
   * The response carries `comparison` and `comparison_id` exactly when a
   * baseline was found, and then they are the stored row's id and snapshot
   * and the message is the plain success one; otherwise its message says
   * there were no reference metrics.
   */
  lemma ResponseShape(db: Store, sub: Submission, sessionDate: int, comparisonDate: int)
    requires !IsFalsy(sub.userId)
    ensures var (db', resp) := SaveSession(db, sub, sessionDate, comparisonDate);
            && resp.SaveSuccess?
            && resp.sessionMetricId == db.nextSessionId
            && (resp.comparison.Some? <==> |db.references| > 0)
            && (resp.message == MsgSavedNoReference <==> |db.references| == 0)
            && (resp.comparison.Some? ==> resp.message == MsgSaved)
            && (resp.comparison.Some? ==>
                  var c := db'.comparisons[|db'.comparisons| - 1];
                  resp.comparison.value == ComparisonOut(c.id, c.rawComparison))
  {
  }

  /** Appending a session row under the next SERIAL id keeps the store consistent. */
  lemma InsertSessionConsistent(db: Store, row: SessionMetric)
    requires Consistent(db)
    requires row.id == db.nextSessionId
    ensures Consistent(db.(sessions := db.sessions + [row], nextSessionId := row.id + 1))
  {
    var db' := db.(sessions := db.sessions + [row], nextSessionId := row.id + 1);
    forall i | 0 <= i < |db'.comparisons|
      ensures Linked(db'.comparisons[i], db'.sessions)
    {
      var c := db.comparisons[i];
      assert Linked(c, db.sessions);
      var j :| 0 <= j < |db.sessions| && db.sessions[j].id == c.sessionMetricId
               && db.sessions[j].userId == c.userId && db.sessions[j].avgs == c.rawComparison.session;
      assert db'.sessions[j] == db.sessions[j];
    }
  }

  /**
   * Appending, under the next SERIAL id, a comparison for the most recently
   * inserted session, which has no comparison yet, keeps the store consistent.
   */
  lemma InsertComparisonConsistent(db: Store, c: ComparativeResult)
    requires Consistent(db)
    requires |db.sessions| > 0
    requires c.id == db.nextComparisonId
    requires c.sessionMetricId == db.nextSessionId - 1 == db.sessions[|db.sessions| - 1].id
    requires c.userId == db.sessions[|db.sessions| - 1].userId
    requires c.rawComparison.session == db.sessions[|db.sessions| - 1].avgs
    requires c.rawComparison.sessionMetricId == c.sessionMetricId && c.rawComparison.differences == c.diffs
    requires forall i :: 0 <= i < |db.comparisons| ==> db.comparisons[i].sessionMetricId < c.sessionMetricId
    ensures Consistent(db.(comparisons := db.comparisons + [c], nextComparisonId := c.id + 1))
  {
    assert Linked(c, db.sessions);
  }

  /** A save keeps the store consistent. */
  lemma SavePreservesConsistency(db: Store, sub: Submission, sessionDate: int, comparisonDate: int)
    requires Consistent(db)
    ensures Consistent(SaveSession(db, sub, sessionDate, comparisonDate).0)
  {
    if !IsFalsy(sub.userId) {
      var userId := sub.userId.value;
      var row := SessionRow(db.nextSessionId, userId, sessionDate, sub);
      var db1 := db.(sessions := db.sessions + [row], nextSessionId := row.id + 1);
      InsertSessionConsistent(db, row);
      match LatestReference(db1.references)
      case None =>
      case Some(ref) =>
        var c := ComparisonRow(db1.nextComparisonId, userId, row.id, comparisonDate,
                               SessionAverages(sub.sessionData), ref);
        forall i | 0 <= i < |db.comparisons|
          ensures db.comparisons[i].sessionMetricId < c.sessionMetricId
        {
          AtMostOneComparisonPerSession(db, i, i);
        }
        InsertComparisonConsistent(db1, c);
    }
  }

  /** The telemetry batch of the two scenarios below. */
  function ScenarioBatch(): SessionData {
    SessionData(Some([AttentionRecord(Some(0.8)), AttentionRecord(Some(0.6))]),
                Some([GazeRecord(Some(100.0), Some(50.0))]))
  }

  /**
   * Two morphcast scores 0.8 and 0.6 and one gaze point (100, 50) average to
   * 0.7, 100 and 50, which rounding leaves as they are.
   */
  lemma ScenarioAverages()
    ensures SessionAverages(ScenarioBatch()) == Metrics(0.7, 100.0, 50.0)
    ensures RoundMetrics(Metrics(0.7, 100.0, 50.0)) == Metrics(0.7, 100.0, 50.0)
  {
    assert AttentionValues(ScenarioBatch().morphcast.value) == [0.8, 0.6];
    assert GazeXValues(ScenarioBatch().gazeRecorder.value) == [100.0];
    assert GazeYValues(ScenarioBatch().gazeRecorder.value) == [50.0];
    Round2OfHundredths(70);
    Round2OfHundredths(10000);
    Round2OfHundredths(5000);
  }

  /** That batch with no baseline: the row stores 0.70, 100 and 50 and no comparison is made. */
  lemma ScenarioWithoutBaseline(userId: int, raw: string, sessionDate: int, comparisonDate: int)
    requires userId != 0
    ensures var sub := Submission(Some(userId), ScenarioBatch(), raw);
            var (db', resp) := SaveSession(Store([], [], [], 1, 1), sub, sessionDate, comparisonDate);
            && db'.sessions == [SessionMetric(1, userId, sessionDate, Metrics(0.7, 100.0, 50.0), raw)]
            && db'.comparisons == []
            && resp == SaveSuccess(MsgSavedNoReference, 1, None)
  {
    ScenarioAverages();
  }

  /**
   * The same batch against the baseline (0.5, 90, 60): the differences are
   * 0.20, 10 and -10.
   */
  lemma ScenarioWithBaseline(userId: int, raw: string, sessionDate: int, comparisonDate: int, computed: int)
    requires userId != 0
    ensures var sub := Submission(Some(userId), ScenarioBatch(), raw);
            var db := Store([], [ReferenceMetric(1, Metrics(0.5, 90.0, 60.0), Some(computed))], [], 1, 1);
            var (db', resp) := SaveSession(db, sub, sessionDate, comparisonDate);
            && |db'.comparisons| == 1
            && db'.comparisons[0].diffs == Metrics(0.2, 10.0, -10.0)
            && resp.SaveSuccess? && resp.message == MsgSaved && resp.comparison.Some?
  {
    ScenarioAverages();
    var ref := ReferenceMetric(1, Metrics(0.5, 90.0, 60.0), Some(computed));
    assert LatestReference([ref]) == Some(ref);
    Round2OfHundredths(20);
    Round2OfHundredths(1000);
    Round2OfHundredths(-1000);
    assert Differences(Metrics(0.7, 100.0, 50.0), ref.avgs) == Metrics(0.2, 10.0, -10.0);
  }

  /**
   * The store as the handler sees it: the three tables as sequences that
   * inserts extend, and the two SERIAL counters.
   */
  class MetricsDb {
    var sessions: seq<SessionMetric>
    var references: seq<ReferenceMetric>
    var comparisons: seq<ComparativeResult>
    var nextSessionId: nat
    var nextComparisonId: nat

    function Contents(): Store
      reads this
    {
      Store(sessions, references, comparisons, nextSessionId, nextComparisonId)
    }

    predicate Valid()
      reads this
    {
      Consistent(Contents())
    }

    /** Empty session and comparison tables over the given baselines. */
    constructor (references: seq<ReferenceMetric>)
      ensures Valid()
      ensures Contents() == Store([], references, [], 1, 1)
    {
      this.sessions := [];
      this.references := references;
      this.comparisons := [];
      this.nextSessionId := 1;
      this.nextComparisonId := 1;
    }

    /** One `/save_session_data` request. */
    method SaveSessionData(sub: Submission, sessionDate: int, comparisonDate: int) returns (resp: SaveResponse)
      requires Valid()
      modifies this
      ensures Valid()
      ensures (Contents(), resp) == SaveSession(old(Contents()), sub, sessionDate, comparisonDate)
    {
      ghost var before := Contents();
      SavePreservesConsistency(before, sub, sessionDate, comparisonDate);
      if IsFalsy(sub.userId) {
        return SaveFailure(MsgNoUserId);
      }
      var userId := sub.userId.value;
      var averages := SessionAverages(sub.sessionData);

      var sessionId := nextSessionId;
      sessions := sessions + [SessionRow(sessionId, userId, sessionDate, sub)];
      nextSessionId := nextSessionId + 1;

      var reference := LatestReference(references);
      if reference.None? {
        return SaveSuccess(MsgSavedNoReference, sessionId, None);
      }
      var comp := ComparisonRow(nextComparisonId, userId, sessionId, comparisonDate, averages, reference.value);
      comparisons := comparisons + [comp];
      nextComparisonId := nextComparisonId + 1;
      resp := SaveSuccess(MsgSaved, sessionId, Some(ComparisonOut(comp.id, comp.rawComparison)));
    }
  }
}
