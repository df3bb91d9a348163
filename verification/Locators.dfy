/** Block locators (`build_block_locators`): dense near the tip, then doubling steps back to genesis. */
module Locators {
  import opened Basics
  import opened Bytes
  import opened Downloads

  const MAX_LOCATOR_HASHES := 101
  const I32_LIMIT := 0x8000_0000

  /** The greatest tip height for which the doubling step stays within 32 signed bits. */
  const SAFE_HEIGHT := 0x4000_0009

  datatype Overflow = StepOverflow

  /** How far below the tip the j-th locator lies, genesis permitting. */
  function Depth(j: nat): nat {
    if j < 10 then j else 9 + Pow2(j - 10)
  }

  function HeightAt(height: nat, j: nat): nat {
    if Depth(j) >= height then 0 else height - Depth(j)
  }

  function StepAt(j: nat): nat {
    if j <= 10 then 1 else Pow2(j - 10)
  }

  function Wrap32(x: int): int {
    (x + I32_LIMIT) % (2 * I32_LIMIT) - I32_LIMIT
  }

  lemma {:induction false} Pow2Grows(a: nat, b: nat)
    requires a <= b
    ensures 0 < Pow2(a) <= Pow2(b)
    decreases b
  {
    if b > 0 {
      Pow2Grows(if a < b then a else a - 1, b - 1);
    }
  }

  lemma Pow2Values()
    ensures Pow2(30) == 0x4000_0000 && Pow2(31) == I32_LIMIT
  {
    assert Pow2(8) == 256;
    assert Pow2(16) == 0x1_0000;
    assert Pow2(24) == 0x100_0000;
  }

  /** One loop iteration moves from one depth to the next. */
  lemma DepthStep(j: nat)
    ensures Depth(j + 1) == Depth(j) + StepAt(j)
    ensures StepAt(j + 1) == if j >= 10 then 2 * StepAt(j) else StepAt(j)
    ensures StepAt(j) > 0
  {
    if j >= 10 {
      Pow2Grows(0, j - 10);
    }
  }

  lemma StepBounds(j: nat)
    ensures j <= 40 ==> StepAt(j) <= 0x4000_0000 && Depth(j) <= SAFE_HEIGHT
    ensures Depth(40) == SAFE_HEIGHT && StepAt(40) == 0x4000_0000 && Depth(41) == 9 + I32_LIMIT
    ensures j < 40 ==> 2 * StepAt(j) <= 0x4000_0000
  {
    Pow2Values();
    if 10 <= j <= 40 {
      Pow2Grows(j - 10, 30);
    }
    if 10 <= j < 40 {
      Pow2Grows(j - 9, 30);
    }
  }

  /** How many locators there are from the j-th on: up to the first that is genesis. */
  function CountFrom(height: nat, j: nat): (n: nat)
    ensures n > j
    decreases HeightAt(height, j)
  {
    DepthStep(j);
    if HeightAt(height, j) == 0 then j + 1 else CountFrom(height, j + 1)
  }

  /** The locator of the last block of `ancestors`, which lists its chain from genesis on. */
  function LocatorOf(ancestors: seq<BlockHash>): seq<BlockHash>
    requires ancestors != []
  {
    var height := |ancestors| - 1;
    seq(CountFrom(height, 0), j requires 0 <= j => ancestors[HeightAt(height, j)])
  }

  lemma {:induction false} CountIs(height: nat, j: nat, n: nat)
    requires j < n && HeightAt(height, n - 1) == 0 && forall i: nat :: j <= i < n - 1 ==> HeightAt(height, i) > 0
    ensures CountFrom(height, j) == n
    decreases n - j
  {
    if j < n - 1 {
      CountIs(height, j + 1, n);
    }
  }

  /**
   `ancestors` lists the chain from genesis to the tip; `checked` says whether the build panics on
   overflow or wraps. A checked build succeeds exactly up to `SAFE_HEIGHT`; a wrapping build always
   does, because the wrapped step is never used.
   */
  method BuildBlockLocators(ancestors: seq<BlockHash>, checked: bool) returns (r: Result<seq<BlockHash>, Overflow>)
    requires 0 < |ancestors| <= I32_LIMIT
    ensures var height := |ancestors| - 1;
            && (r.Ok? <==> !checked || height <= SAFE_HEIGHT)
            && (r.Ok? ==>
                  var n := |r.value|;
                  && r.value == LocatorOf(ancestors)
                  && 0 < n <= 42 && (height <= SAFE_HEIGHT ==> n <= 41)
                  && (forall j :: 0 <= j < n ==> r.value[j] == ancestors[HeightAt(height, j)])
                  && HeightAt(height, n - 1) == 0
                  && (forall j :: 0 <= j < n - 1 ==> HeightAt(height, j) > 0))
  {
    hide Pow2, LocatorOf;
    var height := |ancestors| - 1;
    var locators := [];
    var current, step := height, 1;
    while true
      invariant |locators| <= 41 && current == HeightAt(height, |locators|)
      invariant |locators| <= 40 ==> step == StepAt(|locators|)
      invariant |locators| == 41 ==> !checked && height > SAFE_HEIGHT && current == 0
      invariant forall j :: 0 <= j < |locators| ==> locators[j] == ancestors[HeightAt(height, j)] && HeightAt(height, j) > 0
      decreases 42 - |locators|
    {
      ghost var j := |locators|;
      DepthStep(j);
      StepBounds(j);
      locators := locators + [ancestors[current]];
      if current == 0 || |locators| >= MAX_LOCATOR_HASHES {
        LocatorIs(ancestors, height, locators);
        return Ok(locators);
      }
      current := if current > step then current - step else 0;
      if |locators| > 10 {
        if checked && step * 2 >= I32_LIMIT {
          return Err(StepOverflow);
        }
        step := Wrap32(step * 2);
      }
    }
  }

  lemma LocatorIs(ancestors: seq<BlockHash>, height: nat, locators: seq<BlockHash>)
    requires |ancestors| == height + 1 && locators != [] && HeightAt(height, |locators| - 1) == 0
    requires forall j: nat :: j < |locators| ==> locators[j] == ancestors[HeightAt(height, j)]
    requires forall j: nat :: j < |locators| - 1 ==> HeightAt(height, j) > 0
    ensures locators == LocatorOf(ancestors)
  {
    CountIs(height, 0, |locators|);
  }

  /** Locators strictly descend until they reach genesis. */
  lemma {:induction false} HeightsDescend(height: nat, i: nat, j: nat)
    requires i < j && HeightAt(height, i) > 0
    ensures HeightAt(height, i) > HeightAt(height, j)
    decreases j
  {
    DepthStep(j - 1);
    if i < j - 1 {
      HeightsDescend(height, i, j - 1);
    }
  }

  /** The first locator at or below a fork lies at most twice as deep as the fork. */
  lemma ForkWithinTwice(height: nat, d: nat, j: nat)
    requires d <= height && HeightAt(height, j) <= height - d
    requires j > 0 ==> HeightAt(height, j - 1) > height - d
    ensures height - HeightAt(height, j) <= 2 * d
  {
    if j > 0 {
      DepthStep(j - 1);
      assert Depth(j - 1) < d;
      if j > 10 {
        assert Depth(j) == 9 + 2 * Pow2(j - 11);
      }
    }
  }

  /** Near the tip every block is named, further down the distance doubles from one locator to the next. */
  lemma Spacing(height: nat, j: nat)
    ensures j <= 10 && j <= height ==> HeightAt(height, j) == height - j
    ensures j >= 11 && HeightAt(height, j + 1) > 0 ==>
              HeightAt(height, j) - HeightAt(height, j + 1) == 2 * (HeightAt(height, j - 1) - HeightAt(height, j))
  {
    DepthStep(j);
    if j >= 11 {
      DepthStep(j - 1);
    }
  }

  lemma {:induction false} CountFacts(height: nat, j: nat)
    ensures var n := CountFrom(height, j);
            HeightAt(height, n - 1) == 0 && forall i: nat :: j <= i < n - 1 ==> HeightAt(height, i) > 0
    decreases HeightAt(height, j)
  {
    DepthStep(j);
    if HeightAt(height, j) > 0 {
      CountFacts(height, j + 1);
    }
  }

  /** A locator starts at the tip, descends strictly and ends at genesis, with at most 42 hashes. */
  lemma LocatorDescends(ancestors: seq<BlockHash>)
    requires 0 < |ancestors| <= I32_LIMIT
    ensures var l, height := LocatorOf(ancestors), |ancestors| - 1;
            && 0 < |l| <= 42 && l[0] == ancestors[height] && HeightAt(height, |l| - 1) == 0
            && (forall j: nat :: j < |l| ==> l[j] == ancestors[HeightAt(height, j)])
            && (forall i: nat, j: nat :: i < j < |l| ==> HeightAt(height, i) > HeightAt(height, j))
  {
    hide Pow2;
    var l, height := LocatorOf(ancestors), |ancestors| - 1;
    CountFacts(height, 0);
    forall i: nat, j: nat | i < j < |l|
      ensures HeightAt(height, i) > HeightAt(height, j)
    {
      HeightsDescend(height, i, j);
    }
    StepBounds(41);
    assert HeightAt(height, 41) == 0;
  }
}
