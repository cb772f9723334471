/** The coverage chain of an index: how many values one block at each index
    level covers. Level 0 sits directly above a base unit (a data block, or a
    fixed span for the filter index); every level multiplies the coverage of
    the level below by the fan-out, until one level covers all the values. */
module Coverage {

  /** Whether the level-building loop started from coverage `last` stops:
      `last` already reaches `total`, or it is positive and at least doubles at
      every step. In every other case the loop runs forever
      (LoopDivergesOtherwise). */
  predicate Stops(last: nat, fanout: nat, total: nat) {
    last >= total || (last > 0 && fanout >= 2)
  }

  /** Coverage of the level beneath level `k` of chain `c`: `base` beneath
      level 0; at `k == |c|`, the coverage of the top of the chain. */
  function Below(c: seq<nat>, base: nat, k: nat): (v: nat)
    requires k <= |c|
  {
    if k == 0 then base else c[k - 1]
  }

  /** Every level covers `fanout` times what the level beneath it covers. */
  predicate Geometric(c: seq<nat>, base: nat, fanout: nat) {
    forall k {:trigger Below(c, base, k)} :: 0 <= k < |c| ==> c[k] == Below(c, base, k) * fanout
  }

  /** Every level was added because the level beneath it did not yet cover
      `total` values, and the top of the chain does cover them. */
  predicate Shortest(c: seq<nat>, base: nat, total: nat) {
    && (forall k :: 0 <= k < |c| ==> Below(c, base, k) < total)
    && Below(c, base, |c|) >= total
  }

  function Pow(b: nat, e: nat): (r: nat) {
    if e == 0 then 1 else b * Pow(b, e - 1)
  }

  lemma {:induction false} PowAdd(b: nat, m: nat, n: nat)
    ensures Pow(b, m + n) == Pow(b, m) * Pow(b, n)
    decreases m
  {
    if m > 0 {
      PowAdd(b, m - 1, n);
      MulAssocCommute(b, Pow(b, m - 1), Pow(b, n));
    }
  }

  lemma Grows(last: nat, fanout: nat)
    requires last > 0 && fanout >= 2
    ensures last * fanout >= 2 * last
  {
  }

  /** The coverage chain grown from `base` by `fanout` until it reaches
      `total`: the value of `coverage` built by the loop in Index::new. */
  function Chain(base: nat, fanout: nat, total: nat): (c: seq<nat>)
    requires Stops(base, fanout, total)
    ensures Geometric(c, base, fanout)
    ensures Shortest(c, base, total)
    ensures forall k {:trigger Below(c, base, k)} :: 0 <= k < |c| ==> Below(c, base, k) < c[k]
    ensures forall k :: 0 <= k < |c| ==> base < c[k]
    decreases total - base
  {
    if base >= total then []
    else
      Grows(base, fanout);
      var next := base * fanout;
      var c := [next] + Chain(next, fanout, total);
      ExtendChain(c, base, fanout, total);
      c
  }

  /** Putting one level beneath a chain that satisfies the chain properties
      from its first element gives a chain that satisfies them from `base`. */
  lemma ExtendChain(c: seq<nat>, base: nat, fanout: nat, total: nat)
    requires 0 < |c| && c[0] == base * fanout && base < c[0] && base < total
    requires Geometric(c[1..], c[0], fanout) && Shortest(c[1..], c[0], total)
    requires forall k :: 0 <= k < |c| - 1 ==> Below(c[1..], c[0], k) < c[1..][k]
    requires forall k :: 0 <= k < |c| - 1 ==> c[0] < c[1..][k]
    ensures Geometric(c, base, fanout) && Shortest(c, base, total)
    ensures forall k {:trigger Below(c, base, k)} :: 0 <= k < |c| ==> Below(c, base, k) < c[k]
    ensures forall k :: 0 <= k < |c| ==> base < c[k]
  {
    var rest := c[1..];
    forall k | 0 < k < |c|
      ensures c[k] == Below(c, base, k) * fanout
      ensures Below(c, base, k) < total
      ensures Below(c, base, k) < c[k]
      ensures base < c[k]
    {
      BelowTail(c, base, k - 1);
      assert c[k] == rest[k - 1];
    }
    BelowTail(c, base, |rest|);
  }

  /** One step of the loop: below `total`, the chain from `last` is the next
      coverage followed by the chain from that next coverage. */
  lemma ChainStep(last: nat, fanout: nat, total: nat)
    requires Stops(last, fanout, total) && last < total
    ensures last < last * fanout && Stops(last * fanout, fanout, total)
    ensures Chain(last, fanout, total) == [last * fanout] + Chain(last * fanout, fanout, total)
  {
    Grows(last, fanout);
  }

  /** When Stops fails, one more step of the loop leaves it still below
      `total` and still unable to stop: the loop never ends. */
  lemma LoopDivergesOtherwise(last: nat, fanout: nat, total: nat)
    requires !Stops(last, fanout, total)
    ensures last * fanout <= last < total
    ensures !Stops(last * fanout, fanout, total)
  {
    if last > 0 {
      assert fanout <= 1;
      assert last * fanout <= last * 1;
    }
  }

  /** Shifting a chain by one level: the rest of a chain is the chain grown
      from its first element. */
  lemma BelowTail(c: seq<nat>, base: nat, k: nat)
    requires 0 < |c| && k <= |c| - 1
    ensures Below(c[1..], c[0], k) == Below(c, base, k + 1)
  {
  }

  /** Geometric growth and the stopping rule determine the chain: any
      sequence with both properties is the chain Index::new builds. */
  lemma {:induction false} ChainUnique(c: seq<nat>, base: nat, fanout: nat, total: nat)
    requires Stops(base, fanout, total)
    requires Geometric(c, base, fanout) && Shortest(c, base, total)
    ensures c == Chain(base, fanout, total)
    decreases |c|
  {
    if c != [] {
      assert Below(c, base, 0) < total;
      var next, rest := c[0], c[1..];
      Grows(base, fanout);
      forall k | 0 <= k < |rest|
        ensures rest[k] == Below(rest, next, k) * fanout
        ensures Below(rest, next, k) < total
      {
        BelowTail(c, base, k);
      }
      BelowTail(c, base, |rest|);
      ChainUnique(rest, next, fanout, total);
      assert c == [next] + rest;
    }
  }

  /** Along a chain each level covers more than the one beneath it, the
      coverage strictly increases from level to level. */
  lemma {:induction false} Increasing(c: seq<nat>, base: nat, i: nat, j: nat)
    requires forall k {:trigger Below(c, base, k)} :: 0 <= k < |c| ==> Below(c, base, k) < c[k]
    requires i < j < |c|
    ensures c[i] < c[j]
    decreases j - i
  {
    assert Below(c, base, j) == c[j - 1];
    if i < j - 1 {
      Increasing(c, base, i, j - 1);
    }
  }

  /** The coverage chain is strictly increasing. */
  lemma ChainIncreasing(base: nat, fanout: nat, total: nat)
    requires Stops(base, fanout, total)
    ensures forall i, j :: 0 <= i < j < |Chain(base, fanout, total)| ==>
      Chain(base, fanout, total)[i] < Chain(base, fanout, total)[j]
  {
    var c := Chain(base, fanout, total);
    forall i, j | 0 <= i < j < |c| ensures c[i] < c[j] {
      Increasing(c, base, i, j);
    }
  }

  /** Regrouping a product and swapping its last two factors. */
  lemma MulAssocCommute(x: nat, y: nat, z: nat)
    ensures (x * y) * z == x * (z * y)
  {
  }

  /** Closed form of a geometric chain: level `k` covers
      `base * fanout^(k+1)` values. */
  lemma {:induction false} ClosedForm(c: seq<nat>, base: nat, fanout: nat, k: nat)
    requires Geometric(c, base, fanout)
    requires k < |c|
    ensures c[k] == base * Pow(fanout, k + 1)
    decreases k
  {
    if k == 0 {
      assert c[0] == Below(c, base, 0) * fanout;
    } else {
      ClosedForm(c, base, fanout, k - 1);
      assert c[k] == c[k - 1] * fanout by {
        assert c[k] == Below(c, base, k) * fanout;
      }
      MulAssocCommute(base, Pow(fanout, k), fanout);
    }
  }

  /** The height is the least number of levels `h` with
      `base * fanout^h >= total`. */
  lemma HeightIsLeastPower(base: nat, fanout: nat, total: nat)
    requires Stops(base, fanout, total)
    ensures base * Pow(fanout, |Chain(base, fanout, total)|) >= total
    ensures forall h :: 0 <= h < |Chain(base, fanout, total)| ==> base * Pow(fanout, h) < total
  {
    var c := Chain(base, fanout, total);
    forall h | 0 <= h <= |c| ensures Below(c, base, h) == base * Pow(fanout, h) {
      if h > 0 {
        ClosedForm(c, base, fanout, h - 1);
      }
    }
    assert Below(c, base, |c|) == base * Pow(fanout, |c|);
  }

  /** Covering fewer values gives a prefix of the chain for more values. */
  lemma {:induction false} ChainPrefix(base: nat, fanout: nat, small: nat, large: nat)
    requires small <= large
    requires Stops(base, fanout, small) && Stops(base, fanout, large)
    ensures Chain(base, fanout, small) <= Chain(base, fanout, large)
    decreases small - base
  {
    if base < small {
      var next := base * fanout;
      Grows(base, fanout);
      ChainPrefix(next, fanout, small, large);
      assert Chain(base, fanout, small) == [next] + Chain(next, fanout, small);
      assert Chain(base, fanout, large) == [next] + Chain(next, fanout, large);
    }
  }

  lemma MulLtMono(x: nat, y: nat, z: nat)
    requires x < y && z > 0
    ensures x * z < y * z
  {
  }

  /** No level covers `total * fanout` values or more: the largest product
      the loop forms is below that bound. */
  lemma ChainBound(base: nat, fanout: nat, total: nat)
    requires Stops(base, fanout, total)
    ensures forall k :: 0 <= k < |Chain(base, fanout, total)| ==>
      Chain(base, fanout, total)[k] < total * fanout
  {
    var c := Chain(base, fanout, total);
    forall k | 0 <= k < |c| ensures c[k] < total * fanout {
      assert base < total;
      MulLtMono(Below(c, base, k), total, fanout);
    }
  }
}
