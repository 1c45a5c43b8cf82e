/**
 * The records of one dataset pass and what the gathering loop of the script
 * (scripts/xrfi.py, lines 64-75) derives from them: the list of distinct
 * times, the initial mask, the times of every (polarization, baseline)
 * series and the crosstalk window. Each is defined on the first n records,
 * so that the gathering loop can be stated one record at a time.
 */
module Records {

  import opened Wrappers
  import opened Channels
  import Crosstalk

  /** A complex visibility sample. */
  datatype Complex = Complex(re: real, im: real)

  const ZERO: Complex := Complex(0.0, 0.0)

  /** An antenna pair (i, j); a pair with i == j is an autocorrelation. */
  datatype Baseline = Baseline(i: nat, j: nat)
  {
    predicate IsAuto()
    {
      i == j
    }
  }

  /** One record of the dataset: time, baseline, polarization, samples and flags. */
  datatype Record = Record(t: int, bl: Baseline, pol: int, data: seq<Complex>, flags: seq<bool>)

  /** The key of one series `data[pol][bl]`. */
  datatype SeriesKey = SeriesKey(pol: int, bl: Baseline)

  function KeyOf(r: Record): SeriesKey
  {
    SeriesKey(r.pol, r.bl)
  }

  /** Every record carries `nchan` samples and `nchan` flags. */
  predicate WellShaped(recs: seq<Record>, nchan: nat)
  {
    forall k :: 0 <= k < |recs| ==> |recs[k].data| == nchan && |recs[k].flags| == nchan
  }

  /** The set of times of the first n records. */
  function RecordTimes(recs: seq<Record>, n: nat): set<int>
    requires n <= |recs|
  {
    if n == 0 then {} else RecordTimes(recs, n - 1) + {recs[n - 1].t}
  }

  lemma {:induction false} RecordTimesAre(recs: seq<Record>, n: nat, t: int)
    requires n <= |recs|
    ensures t in RecordTimes(recs, n) <==> exists k :: 0 <= k < n && recs[k].t == t
  {
    if n > 0 {
      RecordTimesAre(recs, n - 1, t);
    }
  }

  /** `times` after n records: a time is appended when it differs from the last one kept (line 65). */
  function TimeList(recs: seq<Record>, n: nat): seq<int>
    requires n <= |recs|
  {
    if n == 0 then []
    else
      var ts := TimeList(recs, n - 1);
      var t := recs[n - 1].t;
      if |ts| == 0 || ts[|ts| - 1] != t then ts + [t] else ts
  }

  /** `mask` after n records of `mask[t] = mask.get(t, 0) | f` (line 66). */
  function InitialMask(recs: seq<Record>, n: nat, nchan: nat): (m: Mask)
    requires n <= |recs| && WellShaped(recs, nchan)
    ensures Shaped(m, nchan)
  {
    if n == 0 then map[]
    else
      var prev := InitialMask(recs, n - 1, nchan);
      var r := recs[n - 1];
      prev[r.t := if r.t in prev then Or(prev[r.t], r.flags) else r.flags]
  }

  /** The time keys of `data[pol][bl]` after n records of `data[pol][bl][t] = d` (lines 72-75). */
  function SeriesTimes(recs: seq<Record>, n: nat): map<SeriesKey, set<int>>
    requires n <= |recs|
  {
    if n == 0 then map[]
    else
      var prev := SeriesTimes(recs, n - 1);
      var r := recs[n - 1];
      prev[KeyOf(r) := (if KeyOf(r) in prev then prev[KeyOf(r)] else {}) + {r.t}]
  }

  /** `window` after n records: set from the first cross-correlation's size (lines 68-70). */
  function FirstWindow(recs: seq<Record>, n: nat): Option<seq<int>>
    requires n <= |recs|
  {
    if n == 0 then None
    else
      var w := FirstWindow(recs, n - 1);
      var r := recs[n - 1];
      if w.None? && !r.bl.IsAuto() then Some(Crosstalk.Window(|r.data|)) else w
  }

  /** The initial mask has an entry for exactly the times of the records. */
  lemma {:induction false} InitialMaskKeys(recs: seq<Record>, n: nat, nchan: nat)
    requires n <= |recs| && WellShaped(recs, nchan)
    ensures InitialMask(recs, n, nchan).Keys == RecordTimes(recs, n)
  {
    if n > 0 {
      InitialMaskKeys(recs, n - 1, nchan);
    }
  }

  /** Every time of every series has an entry in the initial mask. */
  lemma {:induction false} SeriesWithinMask(recs: seq<Record>, n: nat, nchan: nat)
    requires n <= |recs| && WellShaped(recs, nchan)
    ensures forall key :: key in SeriesTimes(recs, n) ==> SeriesTimes(recs, n)[key] <= InitialMask(recs, n, nchan).Keys
  {
    if n > 0 {
      SeriesWithinMask(recs, n - 1, nchan);
      var prev := SeriesTimes(recs, n - 1);
      var keys := InitialMask(recs, n - 1, nchan).Keys;
      var r := recs[n - 1];
      assert InitialMask(recs, n, nchan).Keys == keys + {r.t};
      forall key | key in SeriesTimes(recs, n)
        ensures SeriesTimes(recs, n)[key] <= keys + {r.t}
      {
        if key == KeyOf(r) {
          assert SeriesTimes(recs, n)[key] == (if key in prev then prev[key] else {}) + {r.t};
        } else {
          assert SeriesTimes(recs, n)[key] == prev[key];
        }
      }
    }
  }

  /** What one more record adds to each of the four. */
  lemma GatherStep(recs: seq<Record>, n: nat, nchan: nat)
    requires n < |recs| && WellShaped(recs, nchan)
    ensures var r := recs[n];
      var ts := TimeList(recs, n);
      var m := InitialMask(recs, n, nchan);
      var sr := SeriesTimes(recs, n);
      var w := FirstWindow(recs, n);
      && TimeList(recs, n + 1) == (if |ts| == 0 || ts[|ts| - 1] != r.t then ts + [r.t] else ts)
      && InitialMask(recs, n + 1, nchan) == m[r.t := if r.t in m then Or(m[r.t], r.flags) else r.flags]
      && SeriesTimes(recs, n + 1) == sr[KeyOf(r) := (if KeyOf(r) in sr then sr[KeyOf(r)] else {}) + {r.t}]
      && FirstWindow(recs, n + 1) == (if w.None? && !r.bl.IsAuto() then Some(Crosstalk.Window(|r.data|)) else w)
  {
  }

  /** The initial mask at t is the channel-wise OR of the flags of all records at t. */
  lemma {:induction false} InitialMaskIsOr(recs: seq<Record>, nchan: nat, t: int, c: nat)
    requires WellShaped(recs, nchan) && c < nchan
    ensures t in InitialMask(recs, |recs|, nchan) <==> exists k :: 0 <= k < |recs| && recs[k].t == t
    ensures t in InitialMask(recs, |recs|, nchan) ==>
      (InitialMask(recs, |recs|, nchan)[t][c] <==> exists k :: 0 <= k < |recs| && recs[k].t == t && recs[k].flags[c])
  {
    InitialMaskKeys(recs, |recs|, nchan);
    RecordTimesAre(recs, |recs|, t);
    InitialMaskPrefixIsOr(recs, |recs|, nchan, t, c);
  }

  lemma {:induction false} InitialMaskPrefixIsOr(recs: seq<Record>, n: nat, nchan: nat, t: int, c: nat)
    requires n <= |recs| && WellShaped(recs, nchan) && c < nchan
    ensures t in InitialMask(recs, n, nchan) ==>
      (InitialMask(recs, n, nchan)[t][c] <==> exists k :: 0 <= k < n && recs[k].t == t && recs[k].flags[c])
  {
    if n > 0 {
      InitialMaskPrefixIsOr(recs, n - 1, nchan, t, c);
      InitialMaskKeys(recs, n - 1, nchan);
      RecordTimesAre(recs, n - 1, t);
    }
  }

  /** `times` never holds the same time twice in a row. */
  lemma {:induction false} TimeListNoRepeats(recs: seq<Record>, n: nat)
    requires n <= |recs|
    ensures forall i :: 0 <= i < |TimeList(recs, n)| - 1 ==> TimeList(recs, n)[i] != TimeList(recs, n)[i + 1]
  {
    if n > 0 {
      TimeListNoRepeats(recs, n - 1);
    }
  }

  /** `times` holds exactly the times of the records, and ends with the latest record's. */
  lemma {:induction false} TimeListHoldsRecordTimes(recs: seq<Record>, n: nat)
    requires n <= |recs|
    ensures forall x :: x in TimeList(recs, n) <==> x in RecordTimes(recs, n)
    ensures n > 0 ==> |TimeList(recs, n)| > 0 && TimeList(recs, n)[|TimeList(recs, n)| - 1] == recs[n - 1].t
  {
    if n > 0 {
      TimeListHoldsRecordTimes(recs, n - 1);
    }
  }

  /** On a time-ordered dataset `times` is strictly increasing: every time is kept exactly once. */
  lemma {:induction false} TimeListIncreasing(recs: seq<Record>, n: nat)
    requires n <= |recs|
    requires forall i, j :: 0 <= i < j < |recs| ==> recs[i].t <= recs[j].t
    ensures forall i, j :: 0 <= i < j < |TimeList(recs, n)| ==> TimeList(recs, n)[i] < TimeList(recs, n)[j]
  {
    if n > 0 {
      var t := recs[n - 1].t;
      TimeListIncreasing(recs, n - 1);
      TimeListHoldsRecordTimes(recs, n - 1);
      var ts := TimeList(recs, n - 1);
      forall x | x in ts
        ensures x <= t
      {
        RecordTimesAre(recs, n - 1, x);
      }
      if |ts| > 0 && ts[|ts| - 1] != t {
        assert ts[|ts| - 1] < t;
      }
    }
  }

  /** `data[pol][bl]` holds exactly the times of the records of that (pol, bl) series. */
  lemma {:induction false} SeriesTimesAre(recs: seq<Record>, n: nat, key: SeriesKey, t: int)
    requires n <= |recs|
    ensures (key in SeriesTimes(recs, n) && t in SeriesTimes(recs, n)[key]) <==>
      exists k :: 0 <= k < n && KeyOf(recs[k]) == key && recs[k].t == t
  {
    if n > 0 {
      SeriesTimesAre(recs, n - 1, key, t);
    }
  }

  /**
   * The window exists iff some record is a cross-correlation, and then it is
   * the window for the sample count of the first such record.
   */
  lemma {:induction false} FirstWindowOfFirstCross(recs: seq<Record>, n: nat)
    requires n <= |recs|
    ensures FirstWindow(recs, n).Some? <==> exists k :: 0 <= k < n && !recs[k].bl.IsAuto()
    ensures FirstWindow(recs, n).Some? ==>
      exists k :: 0 <= k < n && !recs[k].bl.IsAuto() && (forall j :: 0 <= j < k ==> recs[j].bl.IsAuto())
        && FirstWindow(recs, n).value == Crosstalk.Window(|recs[k].data|)
  {
    if n > 0 {
      FirstWindowOfFirstCross(recs, n - 1);
      var prev := FirstWindow(recs, n - 1);
      if prev.Some? {
        var k :| 0 <= k < n - 1 && !recs[k].bl.IsAuto() && (forall j :: 0 <= j < k ==> recs[j].bl.IsAuto())
          && prev.value == Crosstalk.Window(|recs[k].data|);
        assert FirstWindow(recs, n) == prev;
      } else if !recs[n - 1].bl.IsAuto() {
        assert forall j :: 0 <= j < n - 1 ==> recs[j].bl.IsAuto();
        assert FirstWindow(recs, n).value == Crosstalk.Window(|recs[n - 1].data|);
      }
    }
  }

  /** On a well-shaped dataset with a cross-correlation the window is `Window(nchan)`. */
  lemma FirstWindowHasChannelCount(recs: seq<Record>, nchan: nat)
    requires WellShaped(recs, nchan) && exists k :: 0 <= k < |recs| && !recs[k].bl.IsAuto()
    ensures FirstWindow(recs, |recs|) == Some(Crosstalk.Window(nchan))
  {
    FirstWindowOfFirstCross(recs, |recs|);
  }
}
