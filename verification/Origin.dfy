/** How something that holds after a run came about in it. */
module Origins {
  import opened Configs
  import opened Pools
  import opened Steps
  import opened Runs

  /** What holds after a run and did not hold at its start came about in one of its steps, and has
      held since. */
  lemma {:induction false} Entered(c: Config, actions: seq<Action>, p: Pool -> bool) returns (n: nat)
    requires ValidateConfigBasic(c).Accepted? && p(After(c, actions)) && !p(Initial(c))
    ensures n < |actions| && !p(After(c, actions[..n]))
    ensures forall m :: n < m <= |actions| ==> p(After(c, actions[..m]))
    decreases |actions|
  {
    if actions == [] {
      assert false;
    } else {
      var k := |actions| - 1;
      assert actions[..k + 1] == actions;
      if p(After(c, actions[..k])) {
        n := Entered(c, actions[..k], p);
        StillSo(c, actions, p, n, k);
      } else {
        n := k;
      }
    }
  }

  lemma StillSo(c: Config, actions: seq<Action>, p: Pool -> bool, n: nat, k: nat)
    requires ValidateConfigBasic(c).Accepted? && p(After(c, actions)) && n < k && k + 1 == |actions|
    requires !p(After(c, actions[..k][..n]))
    requires forall m :: n < m <= k ==> p(After(c, actions[..k][..m]))
    ensures !p(After(c, actions[..n])) && forall m :: n < m <= |actions| ==> p(After(c, actions[..m]))
  {
    assert actions[..k][..n] == actions[..n] && actions[..k + 1] == actions;
    forall m | n < m <= |actions| ensures p(After(c, actions[..m])) {
      if m <= k {
        assert actions[..k][..m] == actions[..m];
      }
    }
  }

  /** What no step undoes still holds at the end. */
  lemma {:induction false} Persists(c: Config, actions: seq<Action>, n: nat, p: Pool -> bool)
    requires ValidateConfigBasic(c).Accepted? && n <= |actions| && p(After(c, actions[..n]))
    requires forall m :: n <= m < |actions| && p(After(c, actions[..m])) ==> p(After(c, actions[..m + 1]))
    ensures p(After(c, actions))
    decreases |actions|
  {
    var k := |actions| - 1;
    assert actions[..|actions|] == actions;
    if n < |actions| {
      forall m | n <= m < k && p(After(c, actions[..k][..m])) ensures p(After(c, actions[..k][..m + 1])) {
        assert actions[..k][..m] == actions[..m] && actions[..k][..m + 1] == actions[..m + 1];
      }
      assert actions[..k][..n] == actions[..n];
      Persists(c, actions[..k], n, p);
      assert actions[..k + 1] == actions;
    }
  }
}
