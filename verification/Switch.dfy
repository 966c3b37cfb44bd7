/** Something that is switched on and off step by step. */
module Switches {

  /** After step k. */
  predicate Switched(lit: seq<bool>, on: seq<bool>, off: seq<bool>, k: nat)
    requires |lit| == |on| + 1 == |off| + 1 && k < |on|
  {
    !(on[k] && off[k]) && (lit[k + 1] <==> on[k] || (lit[k] && !off[k]))
  }

  predicate Stays(steps: seq<bool>, k: nat) {
    forall m :: k <= m < |steps| ==> !steps[m]
  }

  /** It is on at the end exactly if it was switched on and never off since, or was on from the
      start and never switched off. */
  lemma {:induction false} LitIff(lit: seq<bool>, on: seq<bool>, off: seq<bool>)
    requires |lit| == |on| + 1 == |off| + 1
    requires forall k :: 0 <= k < |on| ==> Switched(lit, on, off, k)
    ensures lit[|on|] <==> (exists k :: 0 <= k < |on| && on[k] && Stays(off, k + 1)) || (lit[0] && Stays(off, 0))
    decreases |on|
  {
    if on != [] {
      var n := |on| - 1;
      assert Switched(lit, on, off, n);
      var lit', on', off' := lit[..n + 1], on[..n], off[..n];
      forall k | 0 <= k < n ensures Switched(lit', on', off', k) {
        assert Switched(lit, on, off, k);
      }
      LitIff(lit', on', off');
      LitStep(lit, on, off, n);
    }
  }

  lemma LitStep(lit: seq<bool>, on: seq<bool>, off: seq<bool>, n: nat)
    requires |lit| == |on| + 1 == |off| + 1 && n + 1 == |on| && Switched(lit, on, off, n)
    requires lit[n] <==> (exists k :: 0 <= k < n && on[k] && Stays(off[..n], k + 1)) || (lit[0] && Stays(off[..n], 0))
    ensures lit[n + 1]
            <==> (exists k :: 0 <= k < n + 1 && on[k] && Stays(off, k + 1)) || (lit[0] && Stays(off, 0))
  {
    forall k | 0 <= k <= n ensures Stays(off, k) <==> Stays(off[..n], k) && !off[n] {
      StaysLonger(off, n, k);
    }
    assert Stays(off, n + 1);
  }

  lemma StaysLonger(steps: seq<bool>, n: nat, k: nat)
    requires n + 1 == |steps| && k <= n
    ensures Stays(steps, k) <==> Stays(steps[..n], k) && !steps[n]
  {
    assert forall m :: 0 <= m < n ==> steps[..n][m] == steps[m];
  }

  function Negated(steps: seq<bool>): (r: seq<bool>)
    ensures |r| == |steps| && forall k :: 0 <= k < |steps| ==> r[k] == !steps[k]
  {
    seq(|steps|, k requires 0 <= k < |steps| => !steps[k])
  }

  /** The same said of being off. */
  lemma DarkIff(lit: seq<bool>, on: seq<bool>, off: seq<bool>)
    requires |lit| == |on| + 1 == |off| + 1
    requires forall k :: 0 <= k < |on| ==> Switched(lit, on, off, k)
    ensures !lit[|on|] <==> (exists k :: 0 <= k < |on| && off[k] && Stays(on, k + 1)) || (!lit[0] && Stays(on, 0))
  {
    forall k | 0 <= k < |on| ensures Switched(Negated(lit), off, on, k) {
      assert Switched(lit, on, off, k);
    }
    LitIff(Negated(lit), off, on);
  }
}
