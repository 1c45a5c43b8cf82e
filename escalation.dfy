/**
 * What each step of the detect branch of scripts/xrfi.py does to the mask,
 * as functions of the mask before the step: manual channel flags (line 78),
 * the OR of the value detector's per-baseline bitmaps (82-97), channel and
 * integration escalation (100-106) and the autocorrelation vote (111-125).
 * The detectors themselves are inputs: `Outliers` is what the thresholding of
 * lines 94-95 marked for one series, `Anomalies` what the integration test
 * of line 121 marked for one series.
 */
module Escalation {

  import opened Wrappers
  import opened Channels
  import opened Records

  /** The outlier bitmap of one series, per time of that series. */
  datatype Outliers = Outliers(key: SeriesKey, hits: map<int, seq<bool>>)

  /** The times at which the integration test found one series anomalous. */
  datatype Anomalies = Anomalies(key: SeriesKey, times: set<int>)

  /** Every row of a bitmap is at a time of the mask and has `nchan` channels. */
  predicate Fits(hits: map<int, seq<bool>>, keys: set<int>, nchan: nat)
  {
    forall t :: t in hits ==> t in keys && |hits[t]| == nchan
  }

  predicate AllFit(dets: seq<Outliers>, keys: set<int>, nchan: nat)
  {
    forall k :: 0 <= k < |dets| ==> Fits(dets[k].hits, keys, nchan)
  }

  // ---------------------------------------------------------------- manual flags

  /** Line 78: the listed channels are set at every time. */
  function WithManualFlags(m: Mask, chans: seq<nat>): (r: Mask)
    ensures r.Keys == m.Keys
    ensures forall t :: t in r ==> |r[t]| == |m[t]|
  {
    map t | t in m :: ForceOn(m[t], chans)
  }

  /** After line 78 a cell is set iff its channel is listed or it was set before. */
  lemma ManualFlagsAt(m: Mask, chans: seq<nat>, t: int, c: nat)
    requires t in m && c < |m[t]|
    ensures WithManualFlags(m, chans)[t][c] <==> c in chans || m[t][c]
  {
  }

  // ---------------------------------------------------------------- value merge

  function MergeHits(m: Mask, hits: map<int, seq<bool>>, nchan: nat): (r: Mask)
    requires Shaped(m, nchan) && Fits(hits, m.Keys, nchan)
    ensures r.Keys == m.Keys && Shaped(r, nchan)
  {
    map t | t in m :: if t in hits then Or(m[t], hits[t]) else m[t]
  }

  /**
   * Lines 83-97 after the first n series of the loop: a copy of the mask
   * OR-ed with the bitmap of every cross-correlation series among them.
   */
  function WithOutliers(m: Mask, dets: seq<Outliers>, n: nat, nchan: nat): (r: Mask)
    requires n <= |dets| && Shaped(m, nchan) && AllFit(dets, m.Keys, nchan)
    ensures r.Keys == m.Keys && Shaped(r, nchan)
  {
    if n == 0 then m
    else
      var prev := WithOutliers(m, dets, n - 1, nchan);
      var d := dets[n - 1];
      assert Fits(d.hits, prev.Keys, nchan);
      if d.key.bl.IsAuto() then prev else MergeHits(prev, d.hits, nchan)
  }

  /**
   * The index of the last cross-correlation among the first n series of the
   * loop: the series whose `data_times` (line 91) is still bound when line
   * 100 reads it.
   */
  function LastCrossIndex(dets: seq<Outliers>, n: nat): (r: Option<nat>)
    requires n <= |dets|
    ensures r.None? <==> forall k :: 0 <= k < n ==> dets[k].key.bl.IsAuto()
    ensures r.Some? ==>
      && r.value < n && !dets[r.value].key.bl.IsAuto()
      && forall k :: r.value < k < n ==> dets[k].key.bl.IsAuto()
  {
    if n == 0 then None
    else if !dets[n - 1].key.bl.IsAuto() then Some(n - 1)
    else LastCrossIndex(dets, n - 1)
  }

  /** The times of that last cross-correlation series, if there is one. */
  function LastCrossTimes(dets: seq<Outliers>, n: nat): Option<set<int>>
    requires n <= |dets|
  {
    match LastCrossIndex(dets, n)
    case None => None
    case Some(k) => Some(dets[k].hits.Keys)
  }

  /**
   * Merging never clears a flag, and a cell is set afterwards iff it was set
   * before or some cross-correlation series flagged it; autocorrelation
   * bitmaps contribute nothing.
   */
  lemma {:induction false} WithOutliersIsOr(m: Mask, dets: seq<Outliers>, n: nat, nchan: nat, t: int, c: nat)
    requires n <= |dets| && Shaped(m, nchan) && AllFit(dets, m.Keys, nchan) && t in m && c < nchan
    ensures WithOutliers(m, dets, n, nchan)[t][c] <==>
      m[t][c] || exists k :: 0 <= k < n && !dets[k].key.bl.IsAuto() && t in dets[k].hits && dets[k].hits[t][c]
  {
    if n > 0 {
      WithOutliersIsOr(m, dets, n - 1, nchan, t, c);
    }
  }

  // ---------------------------------------------------------------- escalation

  /** The number of times in `ts` at which channel c is flagged. */
  function CountIn(m: Mask, ts: set<int>, c: nat): nat
    requires forall t :: t in ts ==> t in m && c < |m[t]|
  {
    |set t | t in ts && m[t][c]|
  }

  /** Adding one more time to `ts` adds its flag to the count. */
  lemma CountInAdd(m: Mask, ts: set<int>, t: int, c: nat)
    requires forall u :: u in ts ==> u in m && c < |m[u]|
    requires t in m && c < |m[t]| && t !in ts
    ensures CountIn(m, ts + {t}, c) == CountIn(m, ts, c) + (if m[t][c] then 1 else 0)
  {
    var before := set u | u in ts && m[u][c];
    var after := set u | u in ts + {t} && m[u][c];
    assert after == before + (if m[t][c] then {t} else {});
  }

  /** Line 100: per channel, the number of times in `ts` at which it is flagged. */
  function ChannelCounts(m: Mask, ts: set<int>, nchan: nat): (cnt: seq<nat>)
    requires Shaped(m, nchan) && ts <= m.Keys
    ensures |cnt| == nchan
    ensures forall c :: 0 <= c < nchan ==> cnt[c] <= |ts|
  {
    var cnt := seq(nchan, c requires 0 <= c < nchan => CountIn(m, ts, c));
    assert forall c :: 0 <= c < nchan ==> cnt[c] <= |ts| by {
      forall c | 0 <= c < nchan
        ensures cnt[c] <= |ts|
      {
        SubsetNoLarger((set t | t in ts && m[t][c]), ts);
      }
    }
    cnt
  }

  /** `n > top * thresh`, the comparison of lines 101 and 103 with an exact threshold. */
  predicate Exceeds(n: nat, top: nat, thresh: real)
  {
    n as real > top as real * thresh
  }

  /**
   * Line 101: a channel is escalated iff its count is strictly greater than
   * `ch_thresh` times the largest count (not times the number of times).
   */
  function ChannelMask(cnt: seq<nat>, chThresh: real): (r: seq<bool>)
    requires |cnt| > 0
    ensures |r| == |cnt|
    ensures forall c :: 0 <= c < |cnt| ==> (r[c] <==> Exceeds(cnt[c], MaxOf(cnt), chThresh))
  {
    var top := MaxOf(cnt);
    seq(|cnt|, c requires 0 <= c < |cnt| => Exceeds(cnt[c], top, chThresh))
  }

  /** Lines 103-106 for one time. */
  function EscalateRow(v: seq<bool>, chMsk: seq<bool>, intThresh: real): seq<bool>
    requires |v| == |chMsk|
  {
    if Exceeds(CountOn(v), |v|, intThresh) then AllOn(|v|) else Or(v, chMsk)
  }

  /** Lines 102-106: integration escalation, else the channel mask OR-ed in, at every time. */
  function WithIntegrationEscalation(m: Mask, chMsk: seq<bool>, intThresh: real): (r: Mask)
    requires Shaped(m, |chMsk|)
    ensures r.Keys == m.Keys && Shaped(r, |chMsk|)
  {
    map t | t in m :: EscalateRow(m[t], chMsk, intThresh)
  }

  /**
   * Lines 83-106: merge, then escalate with the counts over the last
   * cross-correlation series' times. Without any cross-correlation series
   * `data_times` is unbound at line 100 and the run aborts: `None`.
   */
  function ValueFlagged(m: Mask, nchan: nat, dets: seq<Outliers>, chThresh: real, intThresh: real): (r: Option<Mask>)
    requires nchan > 0 && Shaped(m, nchan) && AllFit(dets, m.Keys, nchan)
    ensures r.Some? <==> LastCrossIndex(dets, |dets|).Some?
    ensures r.Some? ==> r.value.Keys == m.Keys && Shaped(r.value, nchan)
  {
    var merged := WithOutliers(m, dets, |dets|, nchan);
    match LastCrossIndex(dets, |dets|)
    case None => None
    case Some(k) =>
      assert Fits(dets[k].hits, m.Keys, nchan) && merged.Keys == m.Keys;
      assert forall t :: t in dets[k].hits.Keys ==> t in merged.Keys;
      var cnt := ChannelCounts(merged, dets[k].hits.Keys, nchan);
      Some(WithIntegrationEscalation(merged, ChannelMask(cnt, chThresh), intThresh))
  }

  /**
   * One time after escalation: all channels if more than `size*int_thresh`
   * were flagged, else its old flags OR the channel mask; no flag is cleared.
   */
  lemma EscalateRowKeepsFlags(v: seq<bool>, chMsk: seq<bool>, intThresh: real)
    requires |v| == |chMsk|
    ensures |EscalateRow(v, chMsk, intThresh)| == |v|
    ensures Exceeds(CountOn(v), |v|, intThresh) ==> EscalateRow(v, chMsk, intThresh) == AllOn(|v|)
    ensures !Exceeds(CountOn(v), |v|, intThresh) ==>
      forall c :: 0 <= c < |v| ==> (EscalateRow(v, chMsk, intThresh)[c] <==> v[c] || chMsk[c])
    ensures forall c :: 0 <= c < |v| && v[c] ==> EscalateRow(v, chMsk, intThresh)[c]
  {
  }

  /** When `ch_thresh` is below 1, a channel with the largest positive count is always escalated. */
  lemma BusiestChannelEscalates(cnt: seq<nat>, chThresh: real)
    requires |cnt| > 0 && MaxOf(cnt) > 0 && chThresh < 1.0
    ensures exists c :: 0 <= c < |cnt| && cnt[c] == MaxOf(cnt) && ChannelMask(cnt, chThresh)[c]
  {
    var c :| 0 <= c < |cnt| && cnt[c] == MaxOf(cnt);
    var mx := MaxOf(cnt) as real;
    assert mx * chThresh < mx * 1.0;
    assert ChannelMask(cnt, chThresh)[c];
  }

  /** When `ch_thresh` is at least 1, no channel is escalated. */
  lemma NoEscalationAtOrAboveOne(cnt: seq<nat>, chThresh: real)
    requires |cnt| > 0 && chThresh >= 1.0
    ensures forall c :: 0 <= c < |cnt| ==> !ChannelMask(cnt, chThresh)[c]
  {
    var mx := MaxOf(cnt) as real;
    assert mx * 1.0 <= mx * chThresh;
  }

  /**
   * The rule of line 101 is the documented fraction rule (a channel flagged in
   * more than `ch_thresh` of the times) when the busiest channel is flagged at
   * every one of the `n` counted times.
   */
  lemma FractionRuleWhenSaturated(cnt: seq<nat>, n: nat, chThresh: real, c: nat)
    requires |cnt| > 0 && c < |cnt| && n > 0 && MaxOf(cnt) == n
    ensures ChannelMask(cnt, chThresh)[c] <==> cnt[c] as real / n as real > chThresh
  {
    assert ChannelMask(cnt, chThresh)[c] == Exceeds(cnt[c], MaxOf(cnt), chThresh);
    QuotientAbove(cnt[c], n, chThresh);
  }

  /**
   * The test of line 103 is the documented `--int_thresh` rule: more than
   * `int_thresh` of the channels of the integration are flagged.
   */
  lemma IntegrationFractionRule(v: seq<bool>, intThresh: real)
    requires |v| > 0
    ensures Exceeds(CountOn(v), |v|, intThresh) <==> CountOn(v) as real / |v| as real > intThresh
  {
    QuotientAbove(CountOn(v), |v|, intThresh);
  }

  lemma QuotientAbove(x: nat, n: nat, y: real)
    requires n > 0
    ensures Exceeds(x, n, y) <==> x as real / n as real > y
  {
    var d := n as real;
    var q := x as real / d;
    assert x as real == q * d;
    if q > y {
      assert (q - y) * d > 0.0;
    }
    if Exceeds(x, n, y) {
      assert (q - y) * d > 0.0;
    }
  }

  // ---------------------------------------------------------------- autocorrelation vote

  /** Series `a` votes for time t: it is an autocorrelation and the test marked t. */
  predicate VotesFor(a: Anomalies, t: int)
  {
    a.key.bl.IsAuto() && t in a.times
  }

  /** `new_mask[t]` after the first n series of the loop of lines 113-123: their votes for t. */
  function VoteCount(anoms: seq<Anomalies>, n: nat, t: int): (v: nat)
    requires n <= |anoms|
    ensures v <= n
  {
    if n == 0 then 0
    else VoteCount(anoms, n - 1, t) + (if VotesFor(anoms[n - 1], t) then 1 else 0)
  }

  /** Lines 124-125: every time with more than one vote becomes fully flagged. */
  function WithVotes(m: Mask, anoms: seq<Anomalies>): (r: Mask)
    ensures r.Keys == m.Keys
    ensures forall t :: t in r ==> |r[t]| == |m[t]|
  {
    map t | t in m :: if VoteCount(anoms, |anoms|, t) > 1 then AllOn(|m[t]|) else m[t]
  }

  /** A time has a vote iff some series voted for it. */
  lemma {:induction false} SomeVote(anoms: seq<Anomalies>, n: nat, t: int)
    requires n <= |anoms|
    ensures VoteCount(anoms, n, t) > 0 <==> exists k :: 0 <= k < n && VotesFor(anoms[k], t)
  {
    if n > 0 {
      SomeVote(anoms, n - 1, t);
    }
  }

  /** More than one vote iff two different series voted for the time. */
  lemma {:induction false} ConfirmedByTwo(anoms: seq<Anomalies>, n: nat, t: int)
    requires n <= |anoms|
    ensures VoteCount(anoms, n, t) > 1 <==>
      exists k1, k2 :: 0 <= k1 < k2 < n && VotesFor(anoms[k1], t) && VotesFor(anoms[k2], t)
  {
    if n > 0 {
      ConfirmedByTwo(anoms, n - 1, t);
      SomeVote(anoms, n - 1, t);
      if VoteCount(anoms, n, t) > 1 && VoteCount(anoms, n - 1, t) <= 1 {
        var k1 :| 0 <= k1 < n - 1 && VotesFor(anoms[k1], t);
        assert VotesFor(anoms[k1], t) && VotesFor(anoms[n - 1], t);
      }
      if exists k1, k2 :: 0 <= k1 < k2 < n && VotesFor(anoms[k1], t) && VotesFor(anoms[k2], t) {
        var k1, k2 :| 0 <= k1 < k2 < n && VotesFor(anoms[k1], t) && VotesFor(anoms[k2], t);
        if k2 == n - 1 {
          assert VoteCount(anoms, n - 1, t) > 0;
        }
      }
    }
  }

  /**
   * After the vote a time is fully flagged when two different series voted
   * for it, and keeps its mask when at most one did.
   */
  lemma VotesFlagConfirmed(m: Mask, anoms: seq<Anomalies>, t: int)
    requires t in m
    ensures (exists k1, k2 :: 0 <= k1 < k2 < |anoms| && VotesFor(anoms[k1], t) && VotesFor(anoms[k2], t)) ==>
      WithVotes(m, anoms)[t] == AllOn(|m[t]|)
    ensures !(exists k1, k2 :: 0 <= k1 < k2 < |anoms| && VotesFor(anoms[k1], t) && VotesFor(anoms[k2], t)) ==>
      WithVotes(m, anoms)[t] == m[t]
  {
    ConfirmedByTwo(anoms, |anoms|, t);
  }

  /**
   * Votes are counted per (pol, baseline) series, not per antenna: one
   * antenna whose autocorrelations in two polarizations both mark a time
   * gets that time fully flagged on its own.
   */
  lemma OneAntennaTwoPolarizations(m: Mask, anoms: seq<Anomalies>, k1: nat, k2: nat, t: int)
    requires t in m && k1 < k2 < |anoms|
    requires anoms[k1].key.bl == anoms[k2].key.bl && anoms[k1].key.bl.IsAuto()
    requires t in anoms[k1].times && t in anoms[k2].times
    ensures WithVotes(m, anoms)[t] == AllOn(|m[t]|)
  {
    assert VotesFor(anoms[k1], t) && VotesFor(anoms[k2], t);
    VotesFlagConfirmed(m, anoms, t);
  }

  /**
   * Value flagging keeps every flag the mask had and every flag a
   * cross-correlation bitmap raised.
   */
  lemma ValueFlaggedKeepsFlags(m: Mask, nchan: nat, dets: seq<Outliers>, chThresh: real, intThresh: real, t: int, c: nat)
    requires nchan > 0 && Shaped(m, nchan) && AllFit(dets, m.Keys, nchan)
    requires ValueFlagged(m, nchan, dets, chThresh, intThresh).Some? && t in m && c < nchan
    requires m[t][c] || exists k :: 0 <= k < |dets| && !dets[k].key.bl.IsAuto() && t in dets[k].hits && dets[k].hits[t][c]
    ensures ValueFlagged(m, nchan, dets, chThresh, intThresh).value[t][c]
  {
    var merged := WithOutliers(m, dets, |dets|, nchan);
    WithOutliersIsOr(m, dets, |dets|, nchan, t, c);
    var k := LastCrossIndex(dets, |dets|).value;
    assert Fits(dets[k].hits, m.Keys, nchan) && merged.Keys == m.Keys;
    assert forall u :: u in dets[k].hits.Keys ==> u in merged.Keys;
    var cnt := ChannelCounts(merged, dets[k].hits.Keys, nchan);
    EscalateRowKeepsFlags(merged[t], ChannelMask(cnt, chThresh), intThresh);
  }

  /**
   * Escalating a row a second time with the same channel mask leaves it as
   * it is iff the first pass filled it, or OR-ing in the channel mask left it
   * full or below the integration threshold.
   */
  lemma EscalateRowTwice(v: seq<bool>, chMsk: seq<bool>, intThresh: real)
    requires |v| == |chMsk|
    ensures EscalateRow(EscalateRow(v, chMsk, intThresh), chMsk, intThresh) == EscalateRow(v, chMsk, intThresh) <==>
      || Exceeds(CountOn(v), |v|, intThresh)
      || !Exceeds(CountOn(Or(v, chMsk)), |v|, intThresh)
      || Or(v, chMsk) == AllOn(|v|)
  {
    var n := |v|;
    if Exceeds(CountOn(v), n, intThresh) {
      assert Or(AllOn(n), chMsk) == AllOn(n);
    } else {
      var w := Or(v, chMsk);
      assert Or(w, chMsk) == w;
    }
  }

  // The scenario of one outlier: four times, four channels, one cross-correlation baseline.

  const CLEAR: seq<bool> := [false, false, false, false]
  const CHANNEL3: seq<bool> := [false, false, false, true]
  const SCENARIO_MASK: Mask := map[0 := CLEAR, 1 := CLEAR, 2 := CLEAR, 3 := CLEAR]
  const SCENARIO_DETS: seq<Outliers> :=
    [Outliers(SeriesKey(0, Baseline(1, 2)), map[0 := CLEAR, 1 := CLEAR, 2 := CHANNEL3, 3 := CLEAR])]

  lemma ScenarioMerge()
    ensures AllFit(SCENARIO_DETS, SCENARIO_MASK.Keys, 4)
    ensures WithOutliers(SCENARIO_MASK, SCENARIO_DETS, 1, 4) == map[0 := CLEAR, 1 := CLEAR, 2 := CHANNEL3, 3 := CLEAR]
  {
    assert Fits(SCENARIO_DETS[0].hits, SCENARIO_MASK.Keys, 4);
    assert Or(CLEAR, CLEAR) == CLEAR && Or(CLEAR, CHANNEL3) == CHANNEL3;
    assert WithOutliers(SCENARIO_MASK, SCENARIO_DETS, 0, 4) == SCENARIO_MASK;
  }

  lemma ScenarioCounts()
    ensures ChannelCounts(map[0 := CLEAR, 1 := CLEAR, 2 := CHANNEL3, 3 := CLEAR], {0, 1, 2, 3}, 4) == [0, 0, 0, 1]
  {
    var merged: Mask := map[0 := CLEAR, 1 := CLEAR, 2 := CHANNEL3, 3 := CLEAR];
    var ts := {0, 1, 2, 3};
    var cnt := ChannelCounts(merged, ts, 4);
    assert cnt[3] == 1 by {
      assert (set t | t in ts && merged[t][3]) == {2};
      assert cnt[3] == CountIn(merged, ts, 3) == |{2}|;
    }
    forall c | 0 <= c < 3
      ensures cnt[c] == 0
    {
      assert (set t | t in ts && merged[t][c]) == {};
      assert cnt[c] == CountIn(merged, ts, c);
    }
  }

  lemma ScenarioChannelMask()
    ensures ChannelMask([0, 0, 0, 1], 0.33) == CHANNEL3
  {
    assert MaxOf([0, 0, 0, 1]) == 1;
  }

  lemma ScenarioRows()
    ensures EscalateRow(CLEAR, CHANNEL3, 0.99) == CHANNEL3
    ensures EscalateRow(CHANNEL3, CHANNEL3, 0.99) == CHANNEL3
  {
    assert CountOn(CLEAR) == 0 && CountOn(CHANNEL3) == 1;
    assert !Exceeds(0, 4, 0.99) && !Exceeds(1, 4, 0.99);
    assert Or(CLEAR, CHANNEL3) == CHANNEL3 && Or(CHANNEL3, CHANNEL3) == CHANNEL3;
  }

  lemma ScenarioEscalation()
    ensures WithIntegrationEscalation(map[0 := CLEAR, 1 := CLEAR, 2 := CHANNEL3, 3 := CLEAR], CHANNEL3, 0.99) ==
      map[0 := CHANNEL3, 1 := CHANNEL3, 2 := CHANNEL3, 3 := CHANNEL3]
  {
    ScenarioRows();
  }

  /**
   * One outlier at (time 2, channel 3), `ch_thresh` 0.33 and `int_thresh`
   * 0.99: because line 101 compares with the largest count (1) rather than
   * the number of times (4), channel 3 ends up flagged at every time,
   * although the outlier covers only a quarter of them.
   */
  lemma SingleOutlierEscalatesItsChannel()
    ensures AllFit(SCENARIO_DETS, SCENARIO_MASK.Keys, 4)
    ensures ValueFlagged(SCENARIO_MASK, 4, SCENARIO_DETS, 0.33, 0.99) ==
      Some(map[0 := CHANNEL3, 1 := CHANNEL3, 2 := CHANNEL3, 3 := CHANNEL3])
  {
    ScenarioMerge();
    ScenarioCounts();
    ScenarioChannelMask();
    ScenarioEscalation();
    assert LastCrossIndex(SCENARIO_DETS, 1) == Some(0);
    assert SCENARIO_DETS[0].hits.Keys == {0, 1, 2, 3};
  }

  /**
   * Escalating every time a second time with the same channel mask changes
   * nothing when, at every time, `EscalateRowTwice` says the row is stable.
   */
  lemma EscalationTwiceWhenStable(m: Mask, chMsk: seq<bool>, intThresh: real)
    requires Shaped(m, |chMsk|)
    requires forall t :: t in m ==>
      || Exceeds(CountOn(m[t]), |m[t]|, intThresh)
      || !Exceeds(CountOn(Or(m[t], chMsk)), |m[t]|, intThresh)
      || Or(m[t], chMsk) == AllOn(|m[t]|)
    ensures WithIntegrationEscalation(WithIntegrationEscalation(m, chMsk, intThresh), chMsk, intThresh) ==
      WithIntegrationEscalation(m, chMsk, intThresh)
  {
    var once := WithIntegrationEscalation(m, chMsk, intThresh);
    forall t | t in m
      ensures WithIntegrationEscalation(once, chMsk, intThresh)[t] == once[t]
    {
      EscalateRowTwice(m[t], chMsk, intThresh);
    }
  }

  /**
   * With only one series, a cross-correlation whose bitmap is clear at every
   * time of the mask, the value branch is the escalation of the mask itself
   * with the counts over all its times.
   */
  lemma ClearCrossSeries(m: Mask, nchan: nat, d: Outliers, chThresh: real, intThresh: real)
    requires nchan > 0 && Shaped(m, nchan) && !d.key.bl.IsAuto() && d.hits.Keys == m.Keys
    requires forall t :: t in d.hits ==> d.hits[t] == seq(nchan, _ => false)
    ensures AllFit([d], m.Keys, nchan)
    ensures ValueFlagged(m, nchan, [d], chThresh, intThresh) ==
      Some(WithIntegrationEscalation(m, ChannelMask(ChannelCounts(m, m.Keys, nchan), chThresh), intThresh))
  {
    assert Fits(d.hits, m.Keys, nchan);
    forall t | t in m
      ensures Or(m[t], d.hits[t]) == m[t]
    {
    }
    assert WithOutliers(m, [d], 0, nchan) == m;
    assert WithOutliers(m, [d], 1, nchan) == MergeHits(m, d.hits, nchan) == m;
    assert LastCrossIndex([d], 1) == Some(0);
  }

  // A second value pass: two times, three channels, one cross-correlation series with clear bitmaps.

  const ROW_A: seq<bool> := [true, false, false]
  const ROW_B: seq<bool> := [false, true, false]
  const ROW_C: seq<bool> := [true, true, false]
  const REPASS_MASK: Mask := map[0 := ROW_A, 1 := ROW_B]
  const REPASS_ONCE: Mask := map[0 := ROW_C, 1 := ROW_C]
  const REPASS_FULL: Mask := map[0 := AllOn(3), 1 := AllOn(3)]
  const REPASS_SERIES: Outliers :=
    Outliers(SeriesKey(0, Baseline(1, 2)), map[0 := [false, false, false], 1 := [false, false, false]])

  lemma RepassSeries(m: Mask)
    requires m.Keys == {0, 1}
    ensures !REPASS_SERIES.key.bl.IsAuto() && REPASS_SERIES.hits.Keys == m.Keys
    ensures forall t :: t in REPASS_SERIES.hits ==> REPASS_SERIES.hits[t] == seq(3, _ => false)
  {
    assert [false, false, false] == seq(3, _ => false);
  }

  lemma RepassCountsFirst()
    ensures ChannelCounts(REPASS_MASK, REPASS_MASK.Keys, 3) == [1, 1, 0]
  {
    var m := REPASS_MASK;
    var ts := m.Keys;
    assert ts == {0, 1};
    var cnt := ChannelCounts(m, ts, 3);
    assert cnt[0] == 1 by {
      assert (set t | t in ts && m[t][0]) == {0};
      assert cnt[0] == CountIn(m, ts, 0) == |{0}|;
    }
    assert cnt[1] == 1 by {
      assert (set t | t in ts && m[t][1]) == {1};
      assert cnt[1] == CountIn(m, ts, 1) == |{1}|;
    }
    assert cnt[2] == 0 by {
      assert (set t | t in ts && m[t][2]) == {};
      assert cnt[2] == CountIn(m, ts, 2);
    }
  }

  lemma RepassCountsSecond()
    ensures ChannelCounts(REPASS_ONCE, REPASS_ONCE.Keys, 3) == [2, 2, 0]
  {
    var m := REPASS_ONCE;
    var ts := m.Keys;
    assert ts == {0, 1};
    var cnt := ChannelCounts(m, ts, 3);
    forall c | 0 <= c < 2
      ensures cnt[c] == 2
    {
      assert (set t | t in ts && m[t][c]) == {0, 1};
      assert cnt[c] == CountIn(m, ts, c) == |{0, 1}|;
    }
    assert cnt[2] == 0 by {
      assert (set t | t in ts && m[t][2]) == {};
      assert cnt[2] == CountIn(m, ts, 2);
    }
  }

  lemma RepassChannelMasks()
    ensures ChannelMask([1, 1, 0], 0.6) == ROW_C
    ensures ChannelMask([2, 2, 0], 0.6) == ROW_C
  {
    assert MaxOf([1, 1, 0]) == 1;
    assert MaxOf([2, 2, 0]) == 2;
  }

  lemma RepassCountOn()
    ensures CountOn(ROW_A) == 1 && CountOn(ROW_B) == 1 && CountOn(ROW_C) == 2
  {
    assert ROW_A[..2] == [true, false] && [true, false][..1] == [true] && [true][..0] == [];
    assert ROW_B[..2] == [false, true] && [false, true][..1] == [false] && [false][..0] == [];
    assert ROW_C[..2] == [true, true] && [true, true][..1] == [true];
  }

  lemma RepassRows()
    ensures EscalateRow(ROW_A, ROW_C, 0.5) == ROW_C
    ensures EscalateRow(ROW_B, ROW_C, 0.5) == ROW_C
    ensures EscalateRow(ROW_C, ROW_C, 0.5) == AllOn(3)
  {
    RepassCountOn();
    assert !Exceeds(1, 3, 0.5) && Exceeds(2, 3, 0.5);
    assert Or(ROW_A, ROW_C) == ROW_C && Or(ROW_B, ROW_C) == ROW_C;
  }

  lemma RepassEscalations()
    ensures WithIntegrationEscalation(REPASS_MASK, ROW_C, 0.5) == REPASS_ONCE
    ensures WithIntegrationEscalation(REPASS_ONCE, ROW_C, 0.5) == REPASS_FULL
  {
    RepassRows();
  }

  lemma RepassFirst()
    ensures AllFit([REPASS_SERIES], REPASS_MASK.Keys, 3)
    ensures ValueFlagged(REPASS_MASK, 3, [REPASS_SERIES], 0.6, 0.5) == Some(REPASS_ONCE)
  {
    RepassSeries(REPASS_MASK);
    ClearCrossSeries(REPASS_MASK, 3, REPASS_SERIES, 0.6, 0.5);
    RepassCountsFirst();
    RepassChannelMasks();
    RepassEscalations();
  }

  lemma RepassSecond()
    ensures AllFit([REPASS_SERIES], REPASS_ONCE.Keys, 3)
    ensures ValueFlagged(REPASS_ONCE, 3, [REPASS_SERIES], 0.6, 0.5) == Some(REPASS_FULL)
  {
    RepassSeries(REPASS_ONCE);
    ClearCrossSeries(REPASS_ONCE, 3, REPASS_SERIES, 0.6, 0.5);
    RepassCountsSecond();
    RepassChannelMasks();
    RepassEscalations();
  }

  /**
   * The value branch is not idempotent: after one pass every channel is set
   * at all times or at none, yet a second pass with the same bitmaps,
   * `ch_thresh` 0.6 and `int_thresh` 0.5 fills both integrations, because
   * the channel mask OR-ed in by the first pass pushes each row over
   * `size*int_thresh`.
   */
  lemma SecondValuePassFillsRows()
    ensures AllFit([REPASS_SERIES], REPASS_MASK.Keys, 3) && AllFit([REPASS_SERIES], REPASS_ONCE.Keys, 3)
    ensures ValueFlagged(REPASS_MASK, 3, [REPASS_SERIES], 0.6, 0.5) == Some(REPASS_ONCE)
    ensures forall c :: 0 <= c < 3 ==>
      (REPASS_ONCE[0][c] && REPASS_ONCE[1][c]) || (!REPASS_ONCE[0][c] && !REPASS_ONCE[1][c])
    ensures ValueFlagged(REPASS_ONCE, 3, [REPASS_SERIES], 0.6, 0.5) == Some(REPASS_FULL)
    ensures REPASS_FULL != REPASS_ONCE
  {
    RepassFirst();
    RepassSecond();
    assert REPASS_FULL[0][2] != REPASS_ONCE[0][2];
  }
}
