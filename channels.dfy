/**
 * Flag vectors over the frequency channels of one integration, and masks:
 * one such vector per integration time. The script keeps these as 0/1
 * numpy arrays; here a vector is a `seq<bool>`.
 */
module Channels {

  /** A mask: for every integration time (in exact ticks) one flag per channel. */
  type Mask = map<int, seq<bool>>

  /** Every vector of `m` has `nchan` channels. */
  predicate Shaped(m: Mask, nchan: nat)
  {
    forall t :: t in m ==> |m[t]| == nchan
  }

  /** Channel-wise OR of two vectors of one length (`a | b`). */
  function Or(a: seq<bool>, b: seq<bool>): seq<bool>
    requires |a| == |b|
  {
    seq(|a|, c requires 0 <= c < |a| => a[c] || b[c])
  }

  /** The all-ones vector that `v |= 1` leaves behind. */
  function AllOn(n: nat): seq<bool>
  {
    seq(n, _ => true)
  }

  /** `v` with the listed channels set (`v[chans] = 1`). */
  function ForceOn(v: seq<bool>, chans: seq<nat>): seq<bool>
  {
    seq(|v|, c requires 0 <= c < |v| => v[c] || c in chans)
  }

  /** Per-channel counts plus one 0/1 vector (one row of `.sum(axis=0)`). */
  function AddRow(cnt: seq<nat>, v: seq<bool>): seq<nat>
    requires |cnt| == |v|
  {
    seq(|cnt|, c requires 0 <= c < |cnt| => cnt[c] + (if v[c] then 1 else 0))
  }

  /** Number of set channels (`v.sum()` on a 0/1 vector). */
  function CountOn(v: seq<bool>): (r: nat)
    ensures r <= |v|
    ensures r == |v| <==> v == AllOn(|v|)
  {
    if v == [] then 0
    else
      var init := v[..|v| - 1];
      assert v == init + [v[|v| - 1]];
      assert v[|v| - 1] && init == AllOn(|init|) ==> v == AllOn(|v|);
      assert v == AllOn(|v|) ==> init == AllOn(|init|);
      CountOn(init) + (if v[|v| - 1] then 1 else 0)
  }

  /**
   * The largest entry (`cnt.max()`): an upper bound of every entry that some
   * entry attains. Like numpy's, it is defined on non-empty vectors only.
   */
  function MaxOf(s: seq<nat>): (r: nat)
    requires |s| > 0
    ensures forall i :: 0 <= i < |s| ==> s[i] <= r
    ensures exists i :: 0 <= i < |s| && s[i] == r
  {
    if |s| == 1 then s[0]
    else
      var m := MaxOf(s[1..]);
      assert exists i :: 1 <= i < |s| && s[i] == m by {
        var i :| 0 <= i < |s[1..]| && s[1..][i] == m;
        assert s[i + 1] == m;
      }
      if m <= s[0] then s[0] else m
  }

  /** A subset of a finite set is no larger than it. */
  lemma {:induction false} SubsetNoLarger(a: set<int>, b: set<int>)
    requires a <= b
    ensures |a| <= |b|
    decreases b
  {
    if a != {} {
      Inhabited(a);
      var x :| x in a;
      SubsetNoLarger(a - {x}, b - {x});
    }
  }

  /** A non-empty set has an element, the fact every loop over a set of keys picks from. */
  lemma Inhabited(s: set<int>)
    requires s != {}
    ensures exists x :: x in s
  {
    if forall x :: x !in s {
      assert false;
    }
  }
}
