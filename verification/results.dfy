/**
 * The `/get_results` handler: for one user, the most recent session, the
 * current baseline and the most recent comparison of that very session.  It
 * only reads the store.
 */
module Results {
  import opened Wrappers
  import opened Telemetry
  import opened Tables
  import opened PyInt
  import opened Save

  datatype ResultsResponse =
    | ResultsFailure(message: string)
    | ResultsOk(sessionData: Option<SessionMetric>,
              referenceData: Option<ReferenceMetric>,
              comparativeData: Option<ComparativeResult>)
      /** An exception escaped the handler: the server answers with its generic error page. */
    | Unhandled

  const MsgInvalidUserId := "user_id inválido"

  /**
   * The handler as it would be with the baseline's `computed_date` reported
   * as null when the column is NULL, instead of formatted unconditionally.
   * `userIdArg` is the `user_id` query parameter, None when it is absent.
   * It never ends in `Unhandled`.
   */
  function GetResultsNullSafe(db: Store, userIdArg: Option<string>): (r: ResultsResponse)
    ensures r == ResultsFailure(MsgNoUserId) <==> userIdArg.None? || userIdArg == Some("")
    ensures r == ResultsFailure(MsgInvalidUserId) <==>
              userIdArg.Some? && userIdArg.value != "" && ParseInt(userIdArg.value).None?
    ensures r.ResultsOk? <==> userIdArg.Some? && userIdArg.value != "" && ParseInt(userIdArg.value).Some?
    ensures r.ResultsOk? ==>
              var userId := ParseInt(userIdArg.value).value;
              && (r.sessionData.None? <==> forall s :: s in db.sessions ==> s.userId != userId)
              && (r.sessionData.Some? ==> IsLatestSessionOf(r.sessionData.value, db.sessions, userId))
              && (r.referenceData.None? <==> |db.references| == 0)
              && (r.referenceData.Some? ==> IsLatestReference(r.referenceData.value, db.references))
              && (r.sessionData.None? ==> r.comparativeData.None?)
              && (r.sessionData.Some? ==>
                    var sessionId := r.sessionData.value.id;
                    && (r.comparativeData.None? <==>
                          forall c :: c in db.comparisons ==> c.userId != userId || c.sessionMetricId != sessionId)
                    && (r.comparativeData.Some? ==>
                          IsLatestComparisonFor(r.comparativeData.value, db.comparisons, userId, sessionId)))
  {
    if userIdArg.None? || userIdArg.value == "" then ResultsFailure(MsgNoUserId)
    else match ParseInt(userIdArg.value)
      case None => ResultsFailure(MsgInvalidUserId)
      case Some(userId) =>
        var session := LatestSessionOf(db.sessions, userId);
        var reference := LatestReference(db.references);
        var comparison :=
          if session.Some? then LatestComparisonFor(db.comparisons, userId, session.value.id) else None;
        ResultsOk(session, reference, comparison)
  }

  /**
   * The handler as written: the same reads, then the chosen baseline's
   * `computed_date` is formatted with `isoformat()`.  On a NULL date that
   * raises outside the handler's only `try`, so the request fails unhandled.
   * Because NULLs sort first, that happens whenever any baseline lacks a date.
   */
  function GetResults(db: Store, userIdArg: Option<string>): (r: ResultsResponse)
    ensures r.Unhandled? <==>
              && userIdArg.Some? && userIdArg.value != "" && ParseInt(userIdArg.value).Some?
              && exists x :: x in db.references && x.computedDate.None?
    ensures !r.Unhandled? ==> r == GetResultsNullSafe(db, userIdArg)
  {
    NullDateIsCurrent(db.references);
    var r := GetResultsNullSafe(db, userIdArg);
    if r.ResultsOk? && r.referenceData.Some? && r.referenceData.value.computedDate.None? then Unhandled
    else r
  }

  /**
   * One baseline without a date makes every well-formed request fail as
   * written, while the null-safe handler answers it.
   */
  lemma NullDatedBaselineCrashes(userId: int, m: Metrics)
    ensures GetResults(Store([], [ReferenceMetric(1, m, None)], [], 1, 1), Some(Show(userId))) == Unhandled
    ensures GetResultsNullSafe(Store([], [ReferenceMetric(1, m, None)], [], 1, 1), Some(Show(userId)))
            == ResultsOk(None, Some(ReferenceMetric(1, m, None)), None)
  {
    ParseShow(userId);
    assert ReferenceMetric(1, m, None) in [ReferenceMetric(1, m, None)];
  }

  /**
   * A user without sessions still gets a success, with no session and no
   * comparison, as long as every baseline has a date.
   */
  lemma NoSessionsStillSucceeds(db: Store, userId: int)
    requires forall s :: s in db.sessions ==> s.userId != userId
    requires forall x :: x in db.references ==> x.computedDate.Some?
    ensures GetResults(db, Some(Show(userId))).ResultsOk?
    ensures GetResults(db, Some(Show(userId))).sessionData.None?
    ensures GetResults(db, Some(Show(userId))).comparativeData.None?
  {
    ParseShow(userId);
  }

  /** A row appended with a later date than all of the user's rows is the user's latest session. */
  lemma LatestAfterAppend(sessions: seq<SessionMetric>, row: SessionMetric)
    requires forall s :: s in sessions && s.userId == row.userId ==> s.sessionDate < row.sessionDate
    ensures LatestSessionOf(sessions + [row], row.userId) == Some(row)
  {
  }

  /** The only comparison of a user's session is the latest one for it. */
  lemma OnlyComparison(comparisons: seq<ComparativeResult>, c: ComparativeResult)
    requires forall d :: d in comparisons ==> d.sessionMetricId != c.sessionMetricId
    ensures LatestComparisonFor(comparisons + [c], c.userId, c.sessionMetricId) == Some(c)
  {
  }

  /**
   * For the numeral of a user id, the handler answers with that user's latest
   * session, the latest baseline, and the latest comparison of that session.
   */
  lemma ResultsForUser(db: Store, userId: int)
    ensures var session := LatestSessionOf(db.sessions, userId);
            GetResultsNullSafe(db, Some(Show(userId)))
            == ResultsOk(session, LatestReference(db.references),
                         if session.Some? then LatestComparisonFor(db.comparisons, userId, session.value.id) else None)
  {
    ParseShow(userId);
  }

  /** No comparison names the session id a consistent store hands out next. */
  lemma NextSessionUncompared(db: Store)
    requires Consistent(db)
    ensures forall d :: d in db.comparisons ==> d.sessionMetricId != db.nextSessionId
  {
    forall d | d in db.comparisons
      ensures d.sessionMetricId != db.nextSessionId
    {
      var i :| 0 <= i < |db.comparisons| && db.comparisons[i] == d;
      AtMostOneComparisonPerSession(db, i, i);
    }
  }

  /**
   * Reading back right after a save (with a clock that moved past the user's
   * earlier sessions) gives the row just stored, the baseline it was compared
   * with, and exactly the comparison the save reported, if any.
   */
  lemma ResultsAfterSaveNullSafe(db: Store, sub: Submission, sessionDate: int, comparisonDate: int)
    requires Consistent(db)
    requires !IsFalsy(sub.userId)
    requires forall s :: s in db.sessions && s.userId == sub.userId.value ==> s.sessionDate < sessionDate
    ensures var (db', resp) := SaveSession(db, sub, sessionDate, comparisonDate);
            var r := GetResultsNullSafe(db', Some(Show(sub.userId.value)));
            && r.ResultsOk?
            && r.sessionData == Some(db'.sessions[|db.sessions|])
            && r.sessionData.value.id == resp.sessionMetricId
            && r.referenceData == LatestReference(db.references)
            && (r.comparativeData.Some? <==> resp.comparison.Some?)
            && (resp.comparison.Some? ==>
                  && r.comparativeData.value.id == resp.comparison.value.comparisonId
                  && r.comparativeData.value.rawComparison == resp.comparison.value.comparison)
  {
    var userId := sub.userId.value;
    ResultsForUser(SaveSession(db, sub, sessionDate, comparisonDate).0, userId);
    var sessionId := db.nextSessionId;
    var row := SessionRow(sessionId, userId, sessionDate, sub);
    LatestAfterAppend(db.sessions, row);
    NextSessionUncompared(db);
    match LatestReference(db.references)
    case None =>
    case Some(ref) =>
      var c := ComparisonRow(db.nextComparisonId, userId, sessionId, comparisonDate,
                             SessionAverages(sub.sessionData), ref);
      OnlyComparison(db.comparisons, c);
  }

  /** The handler as written gives the same read-back when every baseline has a date. */
  lemma ResultsAfterSave(db: Store, sub: Submission, sessionDate: int, comparisonDate: int)
    requires Consistent(db)
    requires !IsFalsy(sub.userId)
    requires forall s :: s in db.sessions && s.userId == sub.userId.value ==> s.sessionDate < sessionDate
    requires forall x :: x in db.references ==> x.computedDate.Some?
    ensures var (db', resp) := SaveSession(db, sub, sessionDate, comparisonDate);
            var r := GetResults(db', Some(Show(sub.userId.value)));
            && r.ResultsOk?
            && r.sessionData == Some(db'.sessions[|db.sessions|])
            && r.sessionData.value.id == resp.sessionMetricId
            && r.referenceData == LatestReference(db.references)
            && (r.comparativeData.Some? <==> resp.comparison.Some?)
            && (resp.comparison.Some? ==>
                  && r.comparativeData.value.id == resp.comparison.value.comparisonId
                  && r.comparativeData.value.rawComparison == resp.comparison.value.comparison)
  {
    ResultsAfterSaveNullSafe(db, sub, sessionDate, comparisonDate);
    var db' := SaveSession(db, sub, sessionDate, comparisonDate).0;
    assert db'.references == db.references;
    var arg := Some(Show(sub.userId.value));
    assert GetResults(db', arg) == GetResultsNullSafe(db', arg);
  }
}
