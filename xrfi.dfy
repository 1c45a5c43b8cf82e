/**
 * The detect branch of scripts/xrfi.py (lines 62-125) as an object whose
 * fields are the dictionaries and lists the script updates in place: the
 * gathering loop, the manual flags, the value merge with its escalation, and
 * the autocorrelation vote. Each method is stated against the specification
 * functions of Records and Escalation.
 */
module Xrfi {

  import opened Wrappers
  import opened Channels
  import opened Records
  import opened Escalation

  /** `--flagmode`; any string other than val, int and both acts as `ManualOnly` (none). */
  datatype FlagMode = Val | Int | Both | ManualOnly

  predicate UsesValues(mode: FlagMode)
  {
    mode == Val || mode == Both
  }

  predicate UsesVotes(mode: FlagMode)
  {
    mode == Int || mode == Both
  }

  /**
   * The value detector's output for every series, in the order of the loop of
   * lines 87-88: each (pol, bl) series once, with one row per time of that
   * series.
   */
  predicate OutliersCover(dets: seq<Outliers>, series: map<SeriesKey, set<int>>, nchan: nat)
  {
    && (forall k :: 0 <= k < |dets| ==> dets[k].key in series && dets[k].hits.Keys == series[dets[k].key])
    && (forall k :: 0 <= k < |dets| ==> forall t :: t in dets[k].hits ==> |dets[k].hits[t]| == nchan)
    && (forall k1, k2 :: 0 <= k1 < k2 < |dets| ==> dets[k1].key != dets[k2].key)
    && (forall key :: key in series ==> exists k :: 0 <= k < |dets| && dets[k].key == key)
  }

  /** The integration test's output for every series, in the order of the loop of lines 113-114. */
  predicate AnomaliesCover(anoms: seq<Anomalies>, series: map<SeriesKey, set<int>>)
  {
    && (forall k :: 0 <= k < |anoms| ==> anoms[k].key in series && anoms[k].times <= series[anoms[k].key])
    && (forall k1, k2 :: 0 <= k1 < k2 < |anoms| ==> anoms[k1].key != anoms[k2].key)
    && (forall key :: key in series ==> exists k :: 0 <= k < |anoms| && anoms[k].key == key)
  }

  /** Series times within the mask's times give bitmaps that fit the mask. */
  lemma CoverFits(dets: seq<Outliers>, series: map<SeriesKey, set<int>>, keys: set<int>, nchan: nat)
    requires OutliersCover(dets, series, nchan)
    requires forall key :: key in series ==> series[key] <= keys
    ensures AllFit(dets, keys, nchan)
  {
    forall k | 0 <= k < |dets|
      ensures Fits(dets[k].hits, keys, nchan)
    {
      assert dets[k].hits.Keys == series[dets[k].key];
    }
  }

  /** Lines 64-78: the initial OR of the records' flags with the manual channels set. */
  function ManualMask(nchan: nat, recs: seq<Record>, chans: seq<nat>): (m: Mask)
    requires WellShaped(recs, nchan)
    ensures Shaped(m, nchan) && m.Keys == RecordTimes(recs, |recs|)
    ensures forall key :: key in SeriesTimes(recs, |recs|) ==> SeriesTimes(recs, |recs|)[key] <= m.Keys
  {
    InitialMaskKeys(recs, |recs|, nchan);
    SeriesWithinMask(recs, |recs|, nchan);
    WithManualFlags(InitialMask(recs, |recs|, nchan), chans)
  }

  /** Lines 111-125 when `mode` asks for them. */
  function Voted(m: Mask, mode: FlagMode, anoms: seq<Anomalies>): (r: Mask)
    ensures r.Keys == m.Keys && forall t :: t in r ==> |r[t]| == |m[t]|
  {
    if UsesVotes(mode) then WithVotes(m, anoms) else m
  }

  /**
   * Lines 62-125: the mask the detect branch leaves for one dataset, or None
   * when it stops at line 100 for want of a cross-correlation series.
   */
  function DetectedMask(nchan: nat, recs: seq<Record>, chans: seq<nat>, mode: FlagMode,
                        dets: seq<Outliers>, anoms: seq<Anomalies>, chThresh: real, intThresh: real): (r: Option<Mask>)
    requires nchan > 0 && WellShaped(recs, nchan)
    requires OutliersCover(dets, SeriesTimes(recs, |recs|), nchan)
    ensures r.Some? <==> !UsesValues(mode) || LastCrossIndex(dets, |dets|).Some?
    ensures r.Some? ==> r.value.Keys == RecordTimes(recs, |recs|) && Shaped(r.value, nchan)
  {
    var manual := ManualMask(nchan, recs, chans);
    CoverFits(dets, SeriesTimes(recs, |recs|), manual.Keys, nchan);
    if !UsesValues(mode) then Some(Voted(manual, mode, anoms))
    else
      match ValueFlagged(manual, nchan, dets, chThresh, intThresh)
      case None => None
      case Some(v) => Some(Voted(v, mode, anoms))
  }

  /**
   * Two different series voted for t: the (pol, baseline) series with
   * indices k1 and k2 are autocorrelations whose integration test marked t.
   */
  predicate Confirmed(anoms: seq<Anomalies>, t: int)
  {
    exists k1, k2 :: 0 <= k1 < k2 < |anoms| && VotesFor(anoms[k1], t) && VotesFor(anoms[k2], t)
  }

  /** A record of `recs` at time t has channel c flagged. */
  predicate RecordFlag(recs: seq<Record>, t: int, c: nat)
  {
    exists k :: 0 <= k < |recs| && recs[k].t == t && c < |recs[k].flags| && recs[k].flags[c]
  }

  /**
   * The initial OR and the manual channels tell whether (t, c) is set after
   * line 78.
   */
  lemma ManualMaskAt(nchan: nat, recs: seq<Record>, chans: seq<nat>, t: int, c: nat)
    requires WellShaped(recs, nchan) && c < nchan
    ensures var manual := ManualMask(nchan, recs, chans);
      && (t in manual <==> exists k :: 0 <= k < |recs| && recs[k].t == t)
      && (t in manual ==> (manual[t][c] <==> c in chans || RecordFlag(recs, t, c)))
  {
    InitialMaskIsOr(recs, nchan, t, c);
    var initial := InitialMask(recs, |recs|, nchan);
    if t in initial {
      ManualFlagsAt(initial, chans, t, c);
    }
  }

  /**
   * With `flagmode` int or none nothing but the initial OR, the manual
   * channels and (for int) the vote decide a cell; the branch of lines 82-106
   * is skipped entirely and the run never stops early.
   */
  lemma WithoutValueFlagging(nchan: nat, recs: seq<Record>, chans: seq<nat>, mode: FlagMode,
                             dets: seq<Outliers>, anoms: seq<Anomalies>, chThresh: real, intThresh: real, t: int, c: nat)
    requires nchan > 0 && WellShaped(recs, nchan)
    requires OutliersCover(dets, SeriesTimes(recs, |recs|), nchan)
    requires !UsesValues(mode) && c < nchan
    ensures DetectedMask(nchan, recs, chans, mode, dets, anoms, chThresh, intThresh).Some?
    ensures var r := DetectedMask(nchan, recs, chans, mode, dets, anoms, chThresh, intThresh).value;
      && (t in r <==> exists k :: 0 <= k < |recs| && recs[k].t == t)
      && (t in r ==> (r[t][c] <==> (UsesVotes(mode) && Confirmed(anoms, t)) || c in chans || RecordFlag(recs, t, c)))
  {
    var manual := ManualMask(nchan, recs, chans);
    ManualMaskAt(nchan, recs, chans, t, c);
    assert DetectedMask(nchan, recs, chans, mode, dets, anoms, chThresh, intThresh) == Some(Voted(manual, mode, anoms));
    if UsesVotes(mode) && t in manual {
      VotesFlagConfirmed(manual, anoms, t);
    }
  }

  /**
   * No step of the detect branch clears a flag: a cell set in a record, a
   * manual channel, or (when values are flagged) a cell a cross-correlation
   * bitmap raised is set in the final mask.
   */
  lemma EarlierFlagsSurvive(nchan: nat, recs: seq<Record>, chans: seq<nat>, mode: FlagMode,
                            dets: seq<Outliers>, anoms: seq<Anomalies>, chThresh: real, intThresh: real, t: int, c: nat)
    requires nchan > 0 && WellShaped(recs, nchan)
    requires OutliersCover(dets, SeriesTimes(recs, |recs|), nchan)
    requires DetectedMask(nchan, recs, chans, mode, dets, anoms, chThresh, intThresh).Some?
    requires t in DetectedMask(nchan, recs, chans, mode, dets, anoms, chThresh, intThresh).value && c < nchan
    requires || c in chans
             || RecordFlag(recs, t, c)
             || (UsesValues(mode) && exists k :: 0 <= k < |dets| && !dets[k].key.bl.IsAuto() && t in dets[k].hits && dets[k].hits[t][c])
    ensures DetectedMask(nchan, recs, chans, mode, dets, anoms, chThresh, intThresh).value[t][c]
  {
    var manual := ManualMask(nchan, recs, chans);
    ManualMaskAt(nchan, recs, chans, t, c);
    CoverFits(dets, SeriesTimes(recs, |recs|), manual.Keys, nchan);
    var v := manual;
    if UsesValues(mode) {
      ValueFlaggedKeepsFlags(manual, nchan, dets, chThresh, intThresh, t, c);
      v := ValueFlagged(manual, nchan, dets, chThresh, intThresh).value;
    }
    assert v[t][c];
    assert DetectedMask(nchan, recs, chans, mode, dets, anoms, chThresh, intThresh) == Some(Voted(v, mode, anoms));
    if UsesVotes(mode) {
      VotesFlagConfirmed(v, anoms, t);
    }
  }

  /** With `flagmode` int or both, a time two series voted for is flagged at every channel. */
  lemma ConfirmedFullyFlagged(nchan: nat, recs: seq<Record>, chans: seq<nat>, mode: FlagMode,
                              dets: seq<Outliers>, anoms: seq<Anomalies>, chThresh: real, intThresh: real, t: int)
    requires nchan > 0 && WellShaped(recs, nchan)
    requires OutliersCover(dets, SeriesTimes(recs, |recs|), nchan)
    requires UsesVotes(mode) && DetectedMask(nchan, recs, chans, mode, dets, anoms, chThresh, intThresh).Some?
    requires t in DetectedMask(nchan, recs, chans, mode, dets, anoms, chThresh, intThresh).value && Confirmed(anoms, t)
    ensures DetectedMask(nchan, recs, chans, mode, dets, anoms, chThresh, intThresh).value[t] == AllOn(nchan)
  {
    var manual := ManualMask(nchan, recs, chans);
    CoverFits(dets, SeriesTimes(recs, |recs|), manual.Keys, nchan);
    var v := if UsesValues(mode) then ValueFlagged(manual, nchan, dets, chThresh, intThresh).value else manual;
    assert DetectedMask(nchan, recs, chans, mode, dets, anoms, chThresh, intThresh) == Some(Voted(v, mode, anoms));
    VotesFlagConfirmed(v, anoms, t);
  }

  class MaskBuilder {
    const nchan: nat
    /** `mask`: time -> flag vector. */
    var mask: Mask
    /** `times`: the distinct times in record order. */
    var times: seq<int>
    /** The time keys of `data[pol][bl]`, per series. */
    var series: map<SeriesKey, set<int>>
    /** `window`, once a cross-correlation has been read. */
    var window: Option<seq<int>>

    ghost predicate Valid()
      reads this
    {
      && nchan > 0
      && Shaped(mask, nchan)
      && (forall key :: key in series ==> series[key] <= mask.Keys)
    }

    /** Lines 62-75: the state left by the gathering pass. */
    constructor Gather(nchan: nat, recs: seq<Record>)
      requires nchan > 0 && WellShaped(recs, nchan)
      ensures Valid() && this.nchan == nchan
      ensures mask == InitialMask(recs, |recs|, nchan) && mask.Keys == RecordTimes(recs, |recs|)
      ensures times == TimeList(recs, |recs|)
      ensures series == SeriesTimes(recs, |recs|)
      ensures window == FirstWindow(recs, |recs|)
    {
      var m, ts, sr, w := GatherRecords(nchan, recs);
      InitialMaskKeys(recs, |recs|, nchan);
      SeriesWithinMask(recs, |recs|, nchan);
      this.nchan := nchan;
      mask, times, series, window := m, ts, sr, w;
    }

    /** Line 78: the manual channels are set at every time; nothing else changes. */
    method FlagChannels(chans: seq<nat>)
      requires Valid()
      requires forall c :: c in chans ==> c < nchan
      modifies this
      ensures Valid() && times == old(times) && series == old(series) && window == old(window)
      ensures mask == WithManualFlags(old(mask), chans)
    {
      var m := mask;
      var todo := mask.Keys;
      while todo != {}
        invariant todo <= mask.Keys && m.Keys == mask.Keys
        invariant forall t :: t in m ==> m[t] == if t in todo then mask[t] else ForceOn(mask[t], chans)
        invariant unchanged(this)
        decreases todo
      {
        Inhabited(todo);
        var t :| t in todo;
        m := m[t := ForceOn(m[t], chans)];
        todo := todo - {t};
      }
      assert forall t :: t in m ==> m[t] == WithManualFlags(mask, chans)[t];
      mask := m;
    }

    /**
     * Lines 83-97: a copy of the mask OR-ed with the bitmap of every
     * cross-correlation series, which then replaces the mask. Returns the
     * times of the last cross-correlation series, the `data_times` that line
     * 100 reads, or None when there is none.
     */
    method MergeOutliers(dets: seq<Outliers>) returns (last: Option<set<int>>)
      requires Valid() && AllFit(dets, mask.Keys, nchan)
      modifies this
      ensures Valid() && times == old(times) && series == old(series) && window == old(window)
      ensures mask == WithOutliers(old(mask), dets, |dets|, nchan)
      ensures last == LastCrossTimes(dets, |dets|)
    {
      var newMask := mask;
      last := None;
      var k := 0;
      while k < |dets|
        invariant 0 <= k <= |dets|
        invariant unchanged(this)
        invariant newMask == WithOutliers(mask, dets, k, nchan)
        invariant last == LastCrossTimes(dets, k)
      {
        var d := dets[k];
        if !d.key.bl.IsAuto() {
          assert Fits(d.hits, newMask.Keys, nchan);
          newMask := MergeBitmap(newMask, d.hits, nchan);
          last := Some(d.hits.Keys);
        }
        k := k + 1;
      }
      mask := newMask;
    }

    /** Line 100: per channel, the number of times in `ts` at which the channel is flagged. */
    method CountChannels(ts: set<int>) returns (cnt: seq<nat>)
      requires Valid() && ts <= mask.Keys
      ensures cnt == ChannelCounts(mask, ts, nchan)
    {
      cnt := seq(nchan, _ => 0);
      var todo := ts;
      ghost var done: set<int> := {};
      while todo != {}
        invariant todo <= ts && done == ts - todo
        invariant |cnt| == nchan
        invariant forall c :: 0 <= c < nchan ==> cnt[c] == CountIn(mask, done, c)
        decreases todo
      {
        Inhabited(todo);
        var t :| t in todo;
        forall c | 0 <= c < nchan
          ensures CountIn(mask, done + {t}, c) == CountIn(mask, done, c) + (if mask[t][c] then 1 else 0)
        {
          CountInAdd(mask, done, t, c);
        }
        cnt := AddRow(cnt, mask[t]);
        done := done + {t};
        todo := todo - {t};
      }
      assert done == ts;
    }

    /** Lines 102-106: every time is escalated to all channels, or OR-ed with `chMsk`. */
    method EscalateIntegrations(chMsk: seq<bool>, intThresh: real)
      requires Valid() && |chMsk| == nchan
      modifies this
      ensures Valid() && times == old(times) && series == old(series) && window == old(window)
      ensures mask == WithIntegrationEscalation(old(mask), chMsk, intThresh)
    {
      var m := mask;
      var todo := mask.Keys;
      while todo != {}
        invariant Valid() && todo <= mask.Keys && m.Keys == mask.Keys
        invariant forall t :: t in m ==>
          m[t] == if t in todo then mask[t] else EscalateRow(mask[t], chMsk, intThresh)
        invariant unchanged(this)
        decreases todo
      {
        Inhabited(todo);
        var t :| t in todo;
        if Exceeds(CountOn(m[t]), |m[t]|, intThresh) {
          m := m[t := AllOn(|m[t]|)];
        } else {
          m := m[t := Or(m[t], chMsk)];
        }
        todo := todo - {t};
      }
      assert forall t :: t in m ==> m[t] == WithIntegrationEscalation(mask, chMsk, intThresh)[t];
      mask := m;
    }

    /**
     * Lines 82-106, the `val`/`both` branch. `ok` is false when there is no
     * cross-correlation series: `data_times` is then unbound at line 100 and
     * the script stops there, after the merge of line 97.
     */
    method FlagByValue(dets: seq<Outliers>, chThresh: real, intThresh: real) returns (ok: bool)
      requires Valid() && OutliersCover(dets, series, nchan)
      modifies this
      ensures Valid() && times == old(times) && series == old(series) && window == old(window)
      ensures ok == LastCrossIndex(dets, |dets|).Some?
      ensures ok ==> mask == ValueFlagged(old(mask), nchan, dets, chThresh, intThresh).value
      ensures !ok ==> mask == WithOutliers(old(mask), dets, |dets|, nchan)
    {
      assert AllFit(dets, mask.Keys, nchan) by {
        forall k | 0 <= k < |dets|
          ensures Fits(dets[k].hits, mask.Keys, nchan)
        {
          assert dets[k].hits.Keys == series[dets[k].key];
        }
      }
      var last := MergeOutliers(dets);
      if last.None? {
        return false;
      }
      var cnt := CountChannels(last.value);
      var chMsk := ChannelMask(cnt, chThresh);
      EscalateIntegrations(chMsk, intThresh);
      ok := true;
    }

    /**
     * Lines 112-125, the `int`/`both` branch: count the autocorrelation
     * series voting for each time, then flag every channel of each time with
     * more than one vote.
     */
    method FlagByVotes(anoms: seq<Anomalies>)
      requires Valid() && AnomaliesCover(anoms, series)
      modifies this
      ensures Valid() && times == old(times) && series == old(series) && window == old(window)
      ensures mask == WithVotes(old(mask), anoms)
    {
      var votes := CountVotes(anoms);
      forall t | t in votes
        ensures t in mask
      {
        SomeVote(anoms, |anoms|, t);
        var k :| 0 <= k < |anoms| && VotesFor(anoms[k], t);
        assert anoms[k].times <= series[anoms[k].key];
      }
      FlagConfirmed(votes, anoms);
    }

    /** Lines 124-125: each time with more than one vote is flagged at every channel. */
    method FlagConfirmed(votes: map<int, nat>, ghost anoms: seq<Anomalies>)
      requires Valid() && votes.Keys <= mask.Keys
      requires forall t :: t in votes <==> VoteCount(anoms, |anoms|, t) > 0
      requires forall t :: t in votes ==> votes[t] == VoteCount(anoms, |anoms|, t)
      modifies this
      ensures Valid() && times == old(times) && series == old(series) && window == old(window)
      ensures mask == WithVotes(old(mask), anoms)
    {
      var m := mask;
      var todo := votes.Keys;
      while todo != {}
        invariant todo <= votes.Keys && m.Keys == mask.Keys
        invariant forall t :: t in m ==>
          m[t] == if t in votes && t !in todo && votes[t] > 1 then AllOn(|mask[t]|) else mask[t]
        invariant unchanged(this)
        decreases todo
      {
        Inhabited(todo);
        var t :| t in todo;
        if votes[t] > 1 {
          m := m[t := AllOn(|m[t]|)];
        }
        todo := todo - {t};
      }
      assert forall t :: t in m ==> m[t] == WithVotes(mask, anoms)[t];
      mask := m;
    }
  }

  /**
   * Lines 112-122: `new_mask[t]` counts the autocorrelation series whose
   * integration test flagged time t; a time no series flagged has no entry.
   */
  method CountVotes(anoms: seq<Anomalies>) returns (votes: map<int, nat>)
    ensures forall t :: t in votes <==> VoteCount(anoms, |anoms|, t) > 0
    ensures forall t :: t in votes ==> votes[t] == VoteCount(anoms, |anoms|, t)
  {
    votes := map[];
    var k := 0;
    while k < |anoms|
      invariant 0 <= k <= |anoms|
      invariant forall t :: t in votes <==> VoteCount(anoms, k, t) > 0
      invariant forall t :: t in votes ==> votes[t] == VoteCount(anoms, k, t)
    {
      var a := anoms[k];
      if a.key.bl.IsAuto() {
        var todo := a.times;
        ghost var before := votes;
        while todo != {}
          invariant todo <= a.times
          invariant forall t :: t in votes <==> t in before || (t in a.times && t !in todo)
          invariant forall t :: t in votes ==>
            votes[t] == (if t in before then before[t] else 0) + (if t in a.times && t !in todo then 1 else 0)
          decreases todo
        {
          Inhabited(todo);
          var t :| t in todo;
          votes := votes[t := (if t in votes then votes[t] else 0) + 1];
          todo := todo - {t};
        }
      }
      k := k + 1;
    }
  }

  /**
   * Lines 63-75: one pass over the records, building `times`, `mask`,
   * `window` and the time keys of `data`.
   */
  method GatherRecords(nchan: nat, recs: seq<Record>)
    returns (m: Mask, ts: seq<int>, sr: map<SeriesKey, set<int>>, w: Option<seq<int>>)
    requires WellShaped(recs, nchan)
    ensures m == InitialMask(recs, |recs|, nchan)
    ensures ts == TimeList(recs, |recs|)
    ensures sr == SeriesTimes(recs, |recs|)
    ensures w == FirstWindow(recs, |recs|)
  {
    m, ts, sr, w := map[], [], map[], None;
    var k := 0;
    while k < |recs|
      invariant 0 <= k <= |recs|
      invariant m == InitialMask(recs, k, nchan)
      invariant ts == TimeList(recs, k)
      invariant sr == SeriesTimes(recs, k)
      invariant w == FirstWindow(recs, k)
    {
      var r := recs[k];
      GatherStep(recs, k, nchan);
      if |ts| == 0 || ts[|ts| - 1] != r.t {
        ts := ts + [r.t];
      }
      m := m[r.t := if r.t in m then Or(m[r.t], r.flags) else r.flags];
      if w.None? && !r.bl.IsAuto() {
        w := Some(Crosstalk.Window(|r.data|));
      }
      var key := SeriesKey(r.pol, r.bl);
      sr := sr[key := (if key in sr then sr[key] else {}) + {r.t}];
      k := k + 1;
    }
  }

  /** Lines 95-96: `new_mask[t] |= m[i]` for every time of one series' bitmap. */
  method MergeBitmap(m: Mask, hits: map<int, seq<bool>>, nchan: nat) returns (r: Mask)
    requires Shaped(m, nchan) && Fits(hits, m.Keys, nchan)
    ensures r == MergeHits(m, hits, nchan)
  {
    r := m;
    var todo := hits.Keys;
    while todo != {}
      invariant todo <= hits.Keys
      invariant r.Keys == m.Keys && Shaped(r, nchan)
      invariant forall t :: t in r ==> r[t] == if t in hits && t !in todo then Or(m[t], hits[t]) else m[t]
      decreases todo
    {
      Inhabited(todo);
      var t :| t in todo;
      r := r[t := Or(r[t], hits[t])];
      todo := todo - {t};
    }
    assert forall t :: t in r ==> r[t] == MergeHits(m, hits, nchan)[t];
  }

  /**
   * Lines 62-125 for one dataset: gather, flag the manual channels, then
   * flag by value and by vote as `mode` says. `ok` is false when the run
   * stops at line 100.
   */
  method Detect(nchan: nat, recs: seq<Record>, chans: seq<nat>, mode: FlagMode,
                dets: seq<Outliers>, anoms: seq<Anomalies>, chThresh: real, intThresh: real)
    returns (b: MaskBuilder, ok: bool)
    requires nchan > 0 && WellShaped(recs, nchan) && forall c :: c in chans ==> c < nchan
    requires OutliersCover(dets, SeriesTimes(recs, |recs|), nchan)
    requires AnomaliesCover(anoms, SeriesTimes(recs, |recs|))
    ensures b.Valid() && b.nchan == nchan && b.times == TimeList(recs, |recs|)
    ensures ok <==> DetectedMask(nchan, recs, chans, mode, dets, anoms, chThresh, intThresh).Some?
    ensures ok ==> b.mask == DetectedMask(nchan, recs, chans, mode, dets, anoms, chThresh, intThresh).value
  {
    b := new MaskBuilder.Gather(nchan, recs);
    b.FlagChannels(chans);
    ghost var manual := b.mask;
    assert manual == ManualMask(nchan, recs, chans);
    CoverFits(dets, b.series, manual.Keys, nchan);
    ghost var valued := if UsesValues(mode) then ValueFlagged(manual, nchan, dets, chThresh, intThresh) else Some(manual);
    assert DetectedMask(nchan, recs, chans, mode, dets, anoms, chThresh, intThresh) ==
      if valued.None? then None else Some(Voted(valued.value, mode, anoms));
    ok := true;
    if UsesValues(mode) {
      ok := b.FlagByValue(dets, chThresh, intThresh);
      if !ok {
        return;
      }
    }
    assert b.mask == valued.value;
    if UsesVotes(mode) {
      b.FlagByVotes(anoms);
    }
  }
}
