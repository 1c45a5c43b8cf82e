/**
 * Persisting and applying a mask (scripts/xrfi.py). For pickling, every
 * flag vector becomes a list of 0/1 integers (line 127); a loaded mask has
 * each list turned back into an array (line 59), which numpy then reads by
 * truthiness: any nonzero entry is a set flag. Masks are stored per
 * dataset epoch; the file name formatting is not modelled, so the store is
 * keyed by the epoch itself.
 */
module MaskStore {

  import opened Wrappers
  import opened Channels
  import opened Records

  /** The pickled form of a mask: time -> list of integers. */
  type Lists = map<int, seq<int>>

  /** `list(v)` of a 0/1 vector. */
  function ToList(v: seq<bool>): (l: seq<int>)
    ensures |l| == |v|
    ensures forall c :: 0 <= c < |v| ==> (l[c] == 1 <==> v[c]) && (l[c] == 0 <==> !v[c])
  {
    seq(|v|, c requires 0 <= c < |v| => if v[c] then 1 else 0)
  }

  /** `n.array(l)` read as flags: nonzero is set. */
  function FromList(l: seq<int>): (v: seq<bool>)
    ensures |v| == |l|
    ensures forall c :: 0 <= c < |l| ==> (v[c] <==> l[c] != 0)
  {
    seq(|l|, c requires 0 <= c < |l| => l[c] != 0)
  }

  function ToLists(m: Mask): (p: Lists)
    ensures p.Keys == m.Keys
  {
    map t | t in m :: ToList(m[t])
  }

  function FromLists(p: Lists): (m: Mask)
    ensures m.Keys == p.Keys
  {
    map t | t in p :: FromList(p[t])
  }

  /** Every entry of the pickled form is 0 or 1. */
  predicate Binary(p: Lists)
  {
    forall t :: t in p ==> forall c :: 0 <= c < |p[t]| ==> p[t][c] == 0 || p[t][c] == 1
  }

  /** Storing and loading gives back the same mask at every time and channel. */
  lemma RoundTrip(m: Mask)
    ensures Binary(ToLists(m))
    ensures FromLists(ToLists(m)) == m
  {
    forall t | t in m
      ensures FromList(ToList(m[t])) == m[t]
    {
    }
  }

  /**
   * A pickled form is reproduced by loading and storing again iff it holds
   * only 0s and 1s; other nonzero entries collapse to 1.
   */
  lemma ListsRoundTrip(p: Lists)
    ensures ToLists(FromLists(p)) == p <==> Binary(p)
  {
    if Binary(p) {
      forall t | t in p
        ensures ToList(FromList(p[t])) == p[t]
      {
      }
    }
    if ToLists(FromLists(p)) == p {
      forall t, c | t in p && 0 <= c < |p[t]|
        ensures p[t][c] == 0 || p[t][c] == 1
      {
        assert p[t] == ToList(FromList(p[t]));
      }
    }
  }

  /** Line 127: every vector of the mask replaced by its list. */
  method Encode(m: Mask) returns (p: Lists)
    ensures p == ToLists(m)
  {
    p := map[];
    var todo := m.Keys;
    while todo != {}
      invariant todo <= m.Keys
      invariant p.Keys == m.Keys - todo
      invariant forall t :: t in p ==> p[t] == ToList(m[t])
      decreases todo
    {
      Inhabited(todo);
      var t :| t in todo;
      p := p[t := ToList(m[t])];
      todo := todo - {t};
    }
    assert forall t :: t in p ==> p[t] == ToLists(m)[t];
  }

  /** Line 59: every list of a loaded mask turned back into flags. */
  method Decode(p: Lists) returns (m: Mask)
    ensures m == FromLists(p)
  {
    m := map[];
    var todo := p.Keys;
    while todo != {}
      invariant todo <= p.Keys
      invariant m.Keys == p.Keys - todo
      invariant forall t :: t in m ==> m[t] == FromList(p[t])
      decreases todo
    {
      Inhabited(todo);
      var t :| t in todo;
      m := m[t := FromList(p[t])];
      todo := todo - {t};
    }
    assert forall t :: t in m ==> m[t] == FromLists(p)[t];
  }

  /** The `.xrfi` files: one pickled mask per dataset epoch. */
  class Store {
    var files: map<int, Lists>

    constructor ()
      ensures files == map[]
    {
      files := map[];
    }

    /** Lines 127-131: the mask is pickled under the epoch, replacing any earlier file. */
    method Write(epoch: int, m: Mask)
      modifies this
      ensures files == old(files)[epoch := ToLists(m)]
    {
      var p := Encode(m);
      files := files[epoch := p];
    }

    /**
     * Lines 51-59: with no file for the epoch the dataset is skipped (None);
     * otherwise the pickled mask is loaded.
     */
    method Load(epoch: int) returns (r: Option<Mask>)
      ensures r.None? <==> epoch !in files
      ensures r.Some? ==> r.value == FromLists(files[epoch])
    {
      if epoch !in files {
        return None;
      }
      var m := Decode(files[epoch]);
      return Some(m);
    }
  }

  /** A write followed by a load of the same epoch gives back the mask written. */
  method WriteThenLoad(s: Store, epoch: int, m: Mask) returns (r: Option<Mask>)
    modifies s
    ensures s.files == old(s.files)[epoch := ToLists(m)]
    ensures r == Some(m)
  {
    s.Write(epoch, m);
    r := s.Load(epoch);
    RoundTrip(m);
  }

  /** What `rfi_mfunc` hands back for one record: the new samples and flags. */
  datatype Applied = Applied(data: seq<Complex>, flags: seq<bool>)

  /**
   * Line 136: the samples with every flagged channel zeroed, and the mask's
   * vector as the new flags. A time missing from the mask is a KeyError and
   * a vector of another length fails to broadcast: both are None.
   */
  function ApplyMask(m: Mask, t: int, data: seq<Complex>): (r: Option<Applied>)
    ensures r.Some? <==> t in m && |m[t]| == |data|
    ensures r.Some? ==> |r.value.data| == |data| && r.value.flags == m[t]
    ensures r.Some? ==> forall c :: 0 <= c < |data| ==>
      r.value.data[c] == (if m[t][c] then ZERO else data[c])
  {
    if t in m && |m[t]| == |data| then
      Some(Applied(seq(|data|, c requires 0 <= c < |data| => if m[t][c] then ZERO else data[c]), m[t]))
    else None
  }

  /** Applying the mask to already masked samples changes nothing more. */
  lemma ApplyIdempotent(m: Mask, t: int, data: seq<Complex>)
    requires ApplyMask(m, t, data).Some?
    ensures ApplyMask(m, t, ApplyMask(m, t, data).value.data) == ApplyMask(m, t, data)
  {
    var once := ApplyMask(m, t, data).value;
    var twice := ApplyMask(m, t, once.data).value;
    assert twice.data == once.data;
  }

  /** Applying a stored and reloaded mask is applying the mask itself. */
  lemma ApplyAfterReload(m: Mask, t: int, data: seq<Complex>)
    ensures ApplyMask(FromLists(ToLists(m)), t, data) == ApplyMask(m, t, data)
  {
    RoundTrip(m);
  }
}
