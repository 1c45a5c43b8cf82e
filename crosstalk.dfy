/**
 * The crosstalk pre-filter's delay-domain window. The transform around it is
 * floating-point and is not modelled; the window itself is integer
 * arithmetic (Python 2 `/` on non-negative sizes, which floors, as Dafny's
 * `/` does on non-negative operands).
 */
module Crosstalk {

  function Abs(x: int): nat
  {
    if x < 0 then -x else x
  }

  /**
   * `N/2 - |k - N/2|` for k in 0..N-1: a triangle that is zero at delay 0
   * (so the constant crosstalk term is removed) and never exceeds N/2.
   */
  function Window(n: nat): (w: seq<int>)
    ensures |w| == n
    ensures forall k :: 0 <= k < n ==> 0 <= w[k] <= n / 2
    ensures n > 0 ==> w[0] == 0
  {
    var h := n / 2;
    var w := seq(n, k => h - Abs(k - h));
    assert forall k :: 0 <= k < n ==> w[k] == h - Abs(k - h);
    w
  }

  /**
   * The window rises by one per delay step up to its peak N/2 at k = N/2,
   * and is symmetric about N/2.
   */
  lemma WindowShape(n: nat)
    ensures n > 0 ==> Window(n)[n / 2] == n / 2
    ensures forall k :: 0 <= k < n / 2 ==> Window(n)[k + 1] == Window(n)[k] + 1
    ensures forall k :: 0 <= k < n && 0 <= 2 * (n / 2) - k < n ==> Window(n)[k] == Window(n)[2 * (n / 2) - k]
  {
    var h := n / 2;
    var w := Window(n);
    assert 2 * h <= n <= 2 * h + 1;
    forall k | 0 <= k < n
      ensures w[k] == if k <= h then k else 2 * h - k
    {
      assert w[k] == h - Abs(k - h);
    }
  }
}
