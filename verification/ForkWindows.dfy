/**
 * Fork-relative start conditions of acceptance checks: the one-pass validation rule, and what it decides.
 */
module ForkWindows {
  import opened Wrappers
  import opened ForkSchedule

  datatype CheckStart = CheckStart(chain: string, beforeFork: Option<Fork>, afterFork: Option<Fork>)

  /** The checks of a scenario in order, reduced to their optional start conditions. */
  type Starts = seq<Option<CheckStart>>

  function ForkOf(start: CheckStart): Option<Fork> {
    if start.beforeFork.Some? then start.beforeFork else start.afterFork
  }

  /** Exactly one side, on layer two, naming an enabled fork. */
  ghost predicate WellFormed(forks: Forks, start: CheckStart) {
    && start.beforeFork.Some? != start.afterFork.Some?
    && start.chain == "l2"
    && BlockOf(forks, ForkOf(start).value).Some?
  }

  /** The check may run while the builder is at `height`. */
  ghost predicate Open(forks: Forks, start: Option<CheckStart>, height: nat)
    requires start.Some? ==> WellFormed(forks, start.value)
  {
    start.Some? ==>
      var block := BlockOf(forks, ForkOf(start.value).value).value;
      if start.value.beforeFork.Some? then height < block else height >= block
  }

  ghost predicate AllWellFormed(forks: Forks, starts: Starts) {
    forall i :: 0 <= i < |starts| && starts[i].Some? ==> WellFormed(forks, starts[i].value)
  }

  /** Builder heights at which each check could run, one after the other: heights never go back. */
  ghost predicate Plays(forks: Forks, starts: Starts, heights: seq<nat>)
    requires AllWellFormed(forks, starts)
  {
    && |heights| == |starts|
    && (forall i, j :: 0 <= i < j < |heights| ==> heights[i] <= heights[j])
    && (forall i :: 0 <= i < |starts| ==> Open(forks, starts[i], heights[i]))
  }

  ghost predicate Schedulable(forks: Forks, starts: Starts)
    requires AllWellFormed(forks, starts)
  {
    exists heights :: Plays(forks, starts, heights)
  }

  // ---------------------------------------------------------------- the earliest run

  /** The block a check waits for, 0 when it waits for none. */
  function WaitsFor(forks: Forks, start: Option<CheckStart>): nat {
    if start.Some? && start.value.afterFork.Some? && BlockOf(forks, start.value.afterFork.value).Some?
    then BlockOf(forks, start.value.afterFork.value).value else 0
  }

  /** The lowest height the builder can have after the first checks: the highest fork they waited for. */
  function Lowest(forks: Forks, starts: Starts): nat {
    if starts == [] then 0 else
    var before := Lowest(forks, starts[..|starts| - 1]);
    var block := WaitsFor(forks, starts[|starts| - 1]);
    if block > before then block else before
  }

  /** The i-th check's window, if it closes at a fork, is still open at the lowest height before it. */
  ghost predicate OpenAt(forks: Forks, starts: Starts, i: nat)
    requires i < |starts| && (starts[i].Some? ==> WellFormed(forks, starts[i].value))
  {
    starts[i].Some? && starts[i].value.beforeFork.Some? ==>
      Lowest(forks, starts[..i]) < BlockOf(forks, starts[i].value.beforeFork.value).value
  }

  /** The rule as validation applies it. */
  ghost predicate WindowsOpen(forks: Forks, starts: Starts)
    requires AllWellFormed(forks, starts)
  {
    forall i :: 0 <= i < |starts| ==> OpenAt(forks, starts, i)
  }

  lemma {:induction false} LowestMonotone(forks: Forks, starts: Starts, i: nat, j: nat)
    requires i <= j <= |starts|
    ensures Lowest(forks, starts[..i]) <= Lowest(forks, starts[..j])
  {
    if i < j {
      assert starts[..j][..j - 1] == starts[..j - 1];
      LowestMonotone(forks, starts, i, j - 1);
    }
  }

  /** No run gets below the lowest heights. */
  lemma {:induction false} LowestIsLeast(forks: Forks, starts: Starts, heights: seq<nat>, i: nat)
    requires AllWellFormed(forks, starts) && Plays(forks, starts, heights) && i < |starts|
    ensures Lowest(forks, starts[..i + 1]) <= heights[i]
  {
    assert starts[..i + 1][..i] == starts[..i];
    if i > 0 {
      LowestIsLeast(forks, starts, heights, i - 1);
      assert heights[i - 1] <= heights[i];
    } else {
      assert starts[..0] == [];
    }
    assert Open(forks, starts[i], heights[i]);
  }

  /** The rule is exact: a schedule of builder heights exists precisely when every window is open. */
  lemma WindowRuleExact(forks: Forks, starts: Starts)
    requires AllWellFormed(forks, starts)
    ensures Schedulable(forks, starts) <==> WindowsOpen(forks, starts)
  {
    if Schedulable(forks, starts) {
      var heights :| Plays(forks, starts, heights);
      forall i | 0 <= i < |starts| ensures OpenAt(forks, starts, i) {
        assert Open(forks, starts[i], heights[i]);
        LowestMonotone(forks, starts, i, i + 1);
        LowestIsLeast(forks, starts, heights, i);
      }
    }
    if WindowsOpen(forks, starts) {
      EarliestPlays(forks, starts);
    }
  }

  lemma EarliestPlays(forks: Forks, starts: Starts)
    requires AllWellFormed(forks, starts) && WindowsOpen(forks, starts)
    ensures Schedulable(forks, starts)
  {
    var heights := seq(|starts|, i requires 0 <= i < |starts| => Lowest(forks, starts[..i + 1]));
    forall i, j | 0 <= i < j < |heights| ensures heights[i] <= heights[j] {
      LowestMonotone(forks, starts, i + 1, j + 1);
    }
    forall i | 0 <= i < |starts| ensures Open(forks, starts[i], heights[i]) {
      assert starts[..i + 1][..i] == starts[..i];
      assert OpenAt(forks, starts, i);
    }
    assert Plays(forks, starts, heights);
  }

  // ---------------------------------------------------------------- validation

  /** One pass over the checks, remembering the latest fork waited for. */
  method ValidateStarts(forks: Forks, starts: Starts) returns (ok: bool)
    ensures ok <==> AllWellFormed(forks, starts) && Schedulable(forks, starts)
  {
    if AllWellFormed(forks, starts) { WindowRuleExact(forks, starts); }
    var latestAfterFork: Option<nat> := None;
    for i := 0 to |starts|
      invariant forall k :: 0 <= k < i && starts[k].Some? ==> WellFormed(forks, starts[k].value)
      invariant forall k :: 0 <= k < i ==> OpenAt(forks, starts, k)
      invariant Lowest(forks, starts[..i]) == if latestAfterFork.Some? then latestAfterFork.value else 0
    {
      assert starts[..i + 1][..i] == starts[..i];
      if starts[i].Some? {
        var start := starts[i].value;
        if start.beforeFork.Some? == start.afterFork.Some? || start.chain != "l2" {
          return false;
        }
        var fork := ForkOf(start).value;
        if BlockOf(forks, fork).None? {
          return false;
        }
        var block := BlockOf(forks, fork).value;
        if start.afterFork.Some? {
          latestAfterFork := if latestAfterFork.None? || block > latestAfterFork.value then Some(block) else latestAfterFork;
        } else {
          if block == 0 || (latestAfterFork.Some? && latestAfterFork.value >= block) {
            assert !OpenAt(forks, starts, i);
            return false;
          }
        }
      }
    }
    assert starts[..|starts|] == starts;
    ok := true;
  }
}
