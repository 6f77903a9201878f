/**
 * Reduction of one submitted batch of telemetry to three averages: the mean
 * attention score of the Morphcast records and the mean gaze coordinates of
 * the GazeRecorder records.  A record whose field is missing contributes 0
 * but still counts; an absent or empty list gives 0.
 */
module Telemetry {
  import opened Wrappers

  /** One Morphcast event: its `data.attention.avg`, or None when any key on that path is missing. */
  datatype AttentionRecord = AttentionRecord(avg: Option<real>)

  /** One GazeRecorder event: its `data.x` and `data.y`, each None when missing. */
  datatype GazeRecord = GazeRecord(x: Option<real>, y: Option<real>)

  /**
   * The `session_data` document.  A list is None when it is absent, null or any
   * other falsy JSON value (`{}`, `""`, `0`, `false`): the handler treats all of
   * these as no records.  An absent `session_data` gives None for both lists.
   */
  datatype SessionData = SessionData(morphcast: Option<seq<AttentionRecord>>, gazeRecorder: Option<seq<GazeRecord>>)

  /** The three averages of a session, or the three values of a baseline, or three differences. */
  datatype Metrics = Metrics(attention: real, gazeX: real, gazeY: real)

  /** Python's `sum`: a left fold from 0. */
  function Sum(s: seq<real>): real {
    if |s| == 0 then 0.0 else Sum(s[..|s| - 1]) + s[|s| - 1]
  }

  /** The arithmetic mean, with 0 for the empty list. */
  function Mean(s: seq<real>): real {
    if |s| == 0 then 0.0 else Sum(s) / |s| as real
  }

  /** The values `f` reads from each record, in order. */
  function Values<T>(records: seq<T>, f: T -> real): (vs: seq<real>)
    ensures |vs| == |records|
    ensures forall i :: 0 <= i < |records| ==> vs[i] == f(records[i])
  {
    seq(|records|, i requires 0 <= i < |records| => f(records[i]))
  }

  /** `.get('avg', 0)`: the score a record contributes, 0 when it has none. */
  function AttentionOf(r: AttentionRecord): real {
    r.avg.GetOr(0.0)
  }

  /** `.get('x', 0)` */
  function GazeXOf(g: GazeRecord): real {
    g.x.GetOr(0.0)
  }

  /** `.get('y', 0)` */
  function GazeYOf(g: GazeRecord): real {
    g.y.GetOr(0.0)
  }

  function AttentionValues(records: seq<AttentionRecord>): seq<real> {
    Values(records, AttentionOf)
  }

  function GazeXValues(records: seq<GazeRecord>): seq<real> {
    Values(records, GazeXOf)
  }

  function GazeYValues(records: seq<GazeRecord>): seq<real> {
    Values(records, GazeYOf)
  }

  /** `avg_attention` before rounding. */
  function AvgAttention(morphcast: Option<seq<AttentionRecord>>): real {
    if morphcast.None? || |morphcast.value| == 0 then 0.0
    else Mean(AttentionValues(morphcast.value))
  }

  /** `avg_x` before rounding. */
  function AvgGazeX(gaze: Option<seq<GazeRecord>>): real {
    if gaze.None? || |gaze.value| == 0 then 0.0
    else Mean(GazeXValues(gaze.value))
  }

  /** `avg_y` before rounding. */
  function AvgGazeY(gaze: Option<seq<GazeRecord>>): real {
    if gaze.None? || |gaze.value| == 0 then 0.0
    else Mean(GazeYValues(gaze.value))
  }

  /** The three unrounded averages of a submission. */
  function SessionAverages(data: SessionData): Metrics {
    Metrics(AvgAttention(data.morphcast), AvgGazeX(data.gazeRecorder), AvgGazeY(data.gazeRecorder))
  }

  // ---------------------------------------------------------------------------
  // Properties of the reduction

  lemma {:induction false} SumAppend(a: seq<real>, b: seq<real>)
    ensures Sum(a + b) == Sum(a) + Sum(b)
  {
    if |b| == 0 {
      assert a + b == a;
    } else {
      var b' := b[..|b| - 1];
      assert (a + b)[..|a + b| - 1] == a + b';
      SumAppend(a, b');
    }
  }

  /** Every term in `[lo, hi]` puts the sum between `n * lo` and `n * hi`. */
  lemma {:induction false} SumBounds(s: seq<real>, lo: real, hi: real)
    requires forall i :: 0 <= i < |s| ==> lo <= s[i] <= hi
    ensures |s| as real * lo <= Sum(s) <= |s| as real * hi
  {
    if |s| > 0 {
      var p := s[..|s| - 1];
      SumBounds(p, lo, hi);
      assert |s| as real * lo == |p| as real * lo + lo;
      assert |s| as real * hi == |p| as real * hi + hi;
    }
  }

  /** The mean of values that all lie in `[lo, hi]` lies in `[lo, hi]`. */
  lemma MeanBounds(s: seq<real>, lo: real, hi: real)
    requires |s| > 0
    requires forall i :: 0 <= i < |s| ==> lo <= s[i] <= hi
    ensures lo <= Mean(s) <= hi
  {
    SumBounds(s, lo, hi);
    var n := |s| as real;
    assert Mean(s) * n == Sum(s);
  }

  /** An absent or empty Morphcast list gives an attention average of exactly 0. */
  lemma AvgAttentionEmpty(morphcast: Option<seq<AttentionRecord>>)
    requires morphcast.None? || morphcast == Some([])
    ensures AvgAttention(morphcast) == 0.0
  {
  }

  /**
   * Otherwise the attention average times the number of records is the sum of
   * the scores, a missing score counting as 0.
   */
  lemma AvgAttentionIsMean(records: seq<AttentionRecord>)
    requires |records| > 0
    ensures AvgAttention(Some(records)) * |records| as real == Sum(AttentionValues(records))
  {
  }

  /** A record without a score pulls the average toward 0: it adds 0 to the sum and 1 to the count. */
  lemma MissingAttentionCounts(records: seq<AttentionRecord>)
    ensures AvgAttention(Some(records + [AttentionRecord(None)])) * (|records| + 1) as real
            == Sum(AttentionValues(records))
  {
    var vs := AttentionValues(records + [AttentionRecord(None)]);
    assert vs == AttentionValues(records) + [0.0];
    assert vs[..|vs| - 1] == AttentionValues(records);
  }

  /** Removing the last record removes its value from the end of the sum. */
  lemma SumLast<T>(a: seq<T>, f: T -> real)
    requires |a| > 0
    ensures Sum(Values(a, f)) == Sum(Values(a[..|a| - 1], f)) + f(a[|a| - 1])
  {
    assert Values(a, f)[..|a| - 1] == Values(a[..|a| - 1], f);
  }

  /** Reading the values of a concatenation reads those of each part. */
  lemma ValuesAppend<T>(a: seq<T>, b: seq<T>, f: T -> real)
    ensures Values(a + b, f) == Values(a, f) + Values(b, f)
  {
  }

  /** Adding one more value at the end adds it to the sum. */
  lemma SumSnoc(s: seq<real>, v: real)
    ensures Sum(s + [v]) == Sum(s) + v
  {
    assert (s + [v])[..|s|] == s;
  }

  /** Removing the record at `j` removes its value from the sum. */
  lemma SumRemoveAt<T>(b: seq<T>, j: nat, f: T -> real)
    requires j < |b|
    ensures Sum(Values(b, f)) == Sum(Values(b[..j] + b[j + 1..], f)) + f(b[j])
  {
    var l, r := b[..j], b[j + 1..];
    assert b == l + [b[j]] + r;
    ValuesAppend(l + [b[j]], r, f);
    ValuesAppend(l, [b[j]], f);
    ValuesAppend(l, r, f);
    var vl, vr := Values(l, f), Values(r, f);
    assert Values([b[j]], f) == [f(b[j])];
    SumSnoc(vl, f(b[j]));
    SumAppend(vl + [f(b[j])], vr);
    SumAppend(vl, vr);
  }

  /** The elements of a sequence are those before `j`, the one at `j` and those after. */
  lemma MultisetAround<T>(s: seq<T>, j: nat)
    requires j < |s|
    ensures multiset(s) == multiset(s[..j] + s[j + 1..]) + multiset{s[j]}
  {
    assert s == s[..j] + [s[j]] + s[j + 1..];
    assert multiset(s) == multiset(s[..j]) + multiset{s[j]} + multiset(s[j + 1..]);
  }

  /** Adding the same element to two multisets keeps them equal or unequal. */
  lemma MultisetCancel<T>(a: multiset<T>, b: multiset<T>, x: T)
    requires a + multiset{x} == b + multiset{x}
    ensures a == b
  {
    assert a == a + multiset{x} - multiset{x};
    assert b == b + multiset{x} - multiset{x};
  }

  /** Taking the same element out of two equal multisets leaves equal multisets. */
  lemma MultisetRemoveAt<T>(a: seq<T>, b: seq<T>, j: nat)
    requires |a| > 0 && j < |b| && b[j] == a[|a| - 1]
    requires multiset(a) == multiset(b)
    ensures multiset(a[..|a| - 1]) == multiset(b[..j] + b[j + 1..])
  {
    MultisetAround(a, |a| - 1);
    assert a[..|a| - 1] + a[|a|..] == a[..|a| - 1];
    MultisetAround(b, j);
    MultisetCancel(multiset(a[..|a| - 1]), multiset(b[..j] + b[j + 1..]), b[j]);
  }

  /** `sum` does not depend on the order of the records it adds up. */
  lemma {:induction false} SumPermutation<T>(a: seq<T>, b: seq<T>, f: T -> real)
    requires multiset(a) == multiset(b)
    ensures Sum(Values(a, f)) == Sum(Values(b, f))
    decreases |a|
  {
    assert |a| == |multiset(a)| == |multiset(b)| == |b|;
    if |a| > 0 {
      var x := a[|a| - 1];
      assert x in multiset(b);
      var j :| 0 <= j < |b| && b[j] == x;
      MultisetRemoveAt(a, b, j);
      SumPermutation(a[..|a| - 1], b[..j] + b[j + 1..], f);
      SumLast(a, f);
      SumRemoveAt(b, j, f);
    }
  }

  /** Inserting a record anywhere gives the same multiset of records as appending it. */
  lemma InsertPermutes(front: seq<AttentionRecord>, x: AttentionRecord, back: seq<AttentionRecord>)
    ensures multiset(front + [x] + back) == multiset(front + back + [x])
  {
  }

  /** Reordering the Morphcast records leaves the attention average unchanged. */
  lemma AttentionOrderIrrelevant(r1: seq<AttentionRecord>, r2: seq<AttentionRecord>)
    requires multiset(r1) == multiset(r2)
    ensures AvgAttention(Some(r1)) == AvgAttention(Some(r2))
  {
    assert |r1| == |multiset(r1)| == |multiset(r2)| == |r2|;
    SumPermutation(r1, r2, AttentionOf);
  }

  /**
   * A record without a score counts as 0 however the records are ordered: in
   * any arrangement of the records plus one without a score, the average times
   * the count is the sum of the other scores.
   */
  lemma MissingAttentionInAnyOrder(records: seq<AttentionRecord>, arranged: seq<AttentionRecord>)
    requires multiset(arranged) == multiset(records + [AttentionRecord(None)])
    ensures AvgAttention(Some(arranged)) * (|records| + 1) as real == Sum(AttentionValues(records))
  {
    AttentionOrderIrrelevant(arranged, records + [AttentionRecord(None)]);
    MissingAttentionCounts(records);
  }

  /** In particular, a record without a score counts as 0 at any position, not only at the end. */
  lemma MissingAttentionAnywhere(front: seq<AttentionRecord>, back: seq<AttentionRecord>)
    ensures AvgAttention(Some(front + [AttentionRecord(None)] + back)) * (|front + back| + 1) as real
            == Sum(AttentionValues(front + back))
  {
    InsertPermutes(front, AttentionRecord(None), back);
    MissingAttentionInAnyOrder(front + back, front + [AttentionRecord(None)] + back);
  }

  /** An absent or empty GazeRecorder list gives 0 for both coordinates. */
  lemma AvgGazeEmpty(gaze: Option<seq<GazeRecord>>)
    requires gaze.None? || gaze == Some([])
    ensures AvgGazeX(gaze) == 0.0 && AvgGazeY(gaze) == 0.0
  {
  }

  /**
   * The two gaze averages are independent: the x average reads only the x
   * fields and the y average only the y fields of the same list.
   */
  lemma GazeAxesIndependent(g1: seq<GazeRecord>, g2: seq<GazeRecord>)
    requires |g1| == |g2|
    ensures (forall i :: 0 <= i < |g1| ==> g1[i].x == g2[i].x) ==> AvgGazeX(Some(g1)) == AvgGazeX(Some(g2))
    ensures (forall i :: 0 <= i < |g1| ==> g1[i].y == g2[i].y) ==> AvgGazeY(Some(g1)) == AvgGazeY(Some(g2))
  {
    if forall i :: 0 <= i < |g1| ==> g1[i].x == g2[i].x {
      assert GazeXValues(g1) == GazeXValues(g2);
    }
    if forall i :: 0 <= i < |g1| ==> g1[i].y == g2[i].y {
      assert GazeYValues(g1) == GazeYValues(g2);
    }
  }

  /** Reordering the GazeRecorder records leaves both gaze averages unchanged. */
  lemma GazeOrderIrrelevant(g1: seq<GazeRecord>, g2: seq<GazeRecord>)
    requires multiset(g1) == multiset(g2)
    ensures AvgGazeX(Some(g1)) == AvgGazeX(Some(g2))
    ensures AvgGazeY(Some(g1)) == AvgGazeY(Some(g2))
  {
    assert |g1| == |multiset(g1)| == |multiset(g2)| == |g2|;
    SumPermutation(g1, g2, GazeXOf);
    SumPermutation(g1, g2, GazeYOf);
  }

  /** A missing coordinate counts as 0 and the record still counts in the denominator. */
  lemma MissingGazeCounts(records: seq<GazeRecord>)
    ensures AvgGazeX(Some(records + [GazeRecord(None, None)])) * (|records| + 1) as real
            == Sum(GazeXValues(records))
    ensures AvgGazeY(Some(records + [GazeRecord(None, None)])) * (|records| + 1) as real
            == Sum(GazeYValues(records))
  {
    var xs := GazeXValues(records + [GazeRecord(None, None)]);
    var ys := GazeYValues(records + [GazeRecord(None, None)]);
    assert xs[..|xs| - 1] == GazeXValues(records);
    assert ys[..|ys| - 1] == GazeYValues(records);
  }

  /**
   * Each average lies between the smallest and the largest value its records
   * contribute; an absent or empty list contributes the 0 it defaults to.
   */
  lemma AveragesWithinRange(data: SessionData, lo: real, hi: real)
    requires data.morphcast.None? || data.morphcast.value == [] ==> lo <= 0.0 <= hi
    requires data.gazeRecorder.None? || data.gazeRecorder.value == [] ==> lo <= 0.0 <= hi
    requires data.morphcast.Some? ==> forall r :: r in data.morphcast.value ==> lo <= r.avg.GetOr(0.0) <= hi
    requires data.gazeRecorder.Some? ==> forall g :: g in data.gazeRecorder.value ==>
               lo <= g.x.GetOr(0.0) <= hi && lo <= g.y.GetOr(0.0) <= hi
    ensures lo <= SessionAverages(data).attention <= hi
    ensures lo <= SessionAverages(data).gazeX <= hi
    ensures lo <= SessionAverages(data).gazeY <= hi
  {
    if data.morphcast.Some? && |data.morphcast.value| > 0 {
      var rs := data.morphcast.value;
      assert forall i :: 0 <= i < |rs| ==> rs[i] in rs;
      MeanBounds(AttentionValues(rs), lo, hi);
    }
    if data.gazeRecorder.Some? && |data.gazeRecorder.value| > 0 {
      var gs := data.gazeRecorder.value;
      assert forall i :: 0 <= i < |gs| ==> gs[i] in gs;
      MeanBounds(GazeXValues(gs), lo, hi);
      MeanBounds(GazeYValues(gs), lo, hi);
    }
  }
}
