/**
 * How late an address comes back. Over any run of pool calls, between two
 * allocations of the same address every other usable address was leased.
 */
module PoolReuse {
  import opened Ipam

  /** One completed pool call and its outcome. */
  datatype Event =
    | Allocated(owner: string, address: int)
    | AllocationFailed
    | GivenBack(address: int)
    | Pinned(address: int, owner: string)

  ghost predicate Happens(s: PoolState, e: Event, s': PoolState) {
    match e
    case Allocated(owner, address) => Allocates(s, owner, address, s')
    case AllocationFailed => Exhausted(s) && s' == s
    case GivenBack(address) => s' == Released(s, address)
    case Pinned(address, owner) => s' == Reserved(s, address, owner)
  }

  ghost predicate Run(states: seq<PoolState>, events: seq<Event>) {
    && |states| == |events| + 1
    && states[0].config.Sound() && states[0].cursor < states[0].config.Total()
    && forall i :: 0 <= i < |events| ==> Happens(states[i], events[i], states[i + 1])
  }

  lemma {:induction false} RunKeepsConfig(states: seq<PoolState>, events: seq<Event>, k: nat)
    requires Run(states, events) && k < |states|
    ensures states[k].config == states[0].config && states[k].cursor < states[0].config.Total()
  {
    if k > 0 {
      RunKeepsConfig(states, events, k - 1);
      assert Happens(states[k - 1], events[k - 1], states[k]);
    }
  }

  /** `address` was leased in one of the states after `a`, up to and including `k`. */
  ghost predicate LeasedBetween(states: seq<PoolState>, a: int, k: int, address: int) {
    exists i :: 0 <= i < |states| && a < i <= k && address in states[i].leases
  }

  /** Steps from just after offset `x` to offset `o`, going round a block of `total`. */
  function Ahead(x: int, o: int, total: int): int {
    if o > x then o - x - 1 else o - x - 1 + total
  }

  /** The cursor has passed offset `o` since it left `x`; `lap` means it has been once round. */
  ghost predicate Reached(s: PoolState, x: int, lap: bool, o: int) {
    var total := s.config.Total();
    0 < o < total && (lap || Ahead(x, o, total) < Ahead(x, s.cursor, total))
  }

  /** Every offset passed has been leased. */
  ghost predicate Swept(states: seq<PoolState>, a: int, k: int, x: int, lap: bool)
    requires 0 <= k < |states|
  {
    forall o :: Reached(states[k], x, lap, o) ==> LeasedBetween(states, a, k, states[k].config.network + o)
  }

  lemma Witness(states: seq<PoolState>, a: int, k: int, i: int, address: int)
    requires 0 <= i < |states| && a < i <= k && address in states[i].leases
    ensures LeasedBetween(states, a, k, address)
  {
  }

  lemma SweptLater(states: seq<PoolState>, a: int, k: int, x: int, o: int)
    requires 0 <= k && LeasedBetween(states, a, k, o)
    ensures LeasedBetween(states, a, k + 1, o)
  {
  }

  /** An allocation at offset `r` skips only leased offsets: whatever it passes over has been leased by now. */
  lemma PassedIsLeased(states: seq<PoolState>, events: seq<Event>, a: nat, k: nat, x: int, lap: bool, o: int)
    requires Run(states, events) && a < k < |events| && events[k].Allocated?
    requires states[k].config == states[0].config && states[k].cursor < states[0].config.Total()
    requires Swept(states, a, k, x, lap) && 0 < o < states[0].config.Total()
    requires var c, s := states[0].config, states[k];
             var r := events[k].address - c.network;
             o == r || Reached(s, x, lap, o) || s.Distance(o) < s.Distance(r)
    ensures LeasedBetween(states, a, k + 1, states[0].config.network + o)
  {
    var c, s := states[0].config, states[k];
    var r := events[k].address - c.network;
    assert Happens(s, events[k], states[k + 1]);
    if o == r {
      Witness(states, a, k + 1, k + 1, c.network + o);
    } else if Reached(s, x, lap, o) {
      SweptLater(states, a, k, x, c.network + o);
    } else {
      assert !s.Free(o);
      Witness(states, a, k + 1, k, c.network + o);
    }
  }

  /** So the sweep continues up to and including `r`. */
  lemma AllocationSweeps(states: seq<PoolState>, events: seq<Event>, a: nat, k: nat, x: int, lap: bool)
    returns (lap': bool)
    requires Run(states, events) && a < k < |events| && events[k].Allocated?
    requires 0 < x < states[0].config.Total()
    requires Swept(states, a, k, x, lap)
    ensures Swept(states, a, k + 1, x, lap')
  {
    RunKeepsConfig(states, events, k);
    RunKeepsConfig(states, events, k + 1);
    var s, s', total := states[k], states[k + 1], states[0].config.Total();
    var r := events[k].address - s.config.network;
    assert Happens(s, events[k], s');
    lap' := lap || r == x || Ahead(x, r, total) < Ahead(x, s.cursor, total);
    forall o | Reached(s', x, lap', o)
      ensures LeasedBetween(states, a, k + 1, s'.config.network + o)
    {
      PassedIsLeased(states, events, a, k, x, lap, o);
    }
  }

  lemma {:induction false} SweepGrows(states: seq<PoolState>, events: seq<Event>, a: nat, k: nat, x: int)
    returns (lap: bool)
    requires Run(states, events) && a < k < |states|
    requires events[a].Allocated? && events[a].address == states[0].config.network + x
    ensures 0 < x < states[0].config.Total()
    ensures Swept(states, a, k, x, lap)
  {
    RunKeepsConfig(states, events, a);
    assert Happens(states[a], events[a], states[a + 1]);
    if k == a + 1 {
      RunKeepsConfig(states, events, k);
      lap := false;
      assert forall o :: !Reached(states[k], x, lap, o);
    } else {
      lap := SweepGrows(states, events, a, k - 1, x);
      RunKeepsConfig(states, events, k - 1);
      RunKeepsConfig(states, events, k);
      if events[k - 1].Allocated? {
        lap := AllocationSweeps(states, events, a, k - 1, x, lap);
      } else {
        assert Happens(states[k - 1], events[k - 1], states[k]);
        forall o | Reached(states[k], x, lap, o)
          ensures LeasedBetween(states, a, k, states[k].config.network + o)
        {
          assert Reached(states[k - 1], x, lap, o);
          SweptLater(states, a, k - 1, x, states[k].config.network + o);
        }
      }
    }
  }

  /**
   * Between two allocations `a < b` of one address, every other usable address
   * was leased at some moment: reuse is as late as the block allows.
   */
  lemma ReuseIsLate(states: seq<PoolState>, events: seq<Event>, a: nat, b: nat, other: int)
    requires Run(states, events) && a < b < |events|
    requires events[a].Allocated? && events[b].Allocated? && events[a].address == events[b].address
    requires states[0].config.Usable(other) && other != events[a].address
    ensures exists i :: a < i <= b && other in states[i].leases
  {
    var c, total := states[0].config, states[0].config.Total();
    var x, y := events[a].address - c.network, other - c.network;
    var lap := SweepGrows(states, events, a, b, x);
    RunKeepsConfig(states, events, b);
    var s := states[b];
    if Reached(s, x, lap, y) {
      assert LeasedBetween(states, a, b, c.network + y);
    } else {
      assert Happens(s, events[b], states[b + 1]);
      assert s.Distance(y) < s.Distance(x);
      assert !s.Free(y);
      assert other in s.leases;
    }
  }
}
