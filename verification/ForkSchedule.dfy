/**
 * The fork schedule of an acceptance scenario: which schedules validation accepts, the activation
 * timestamps it expects of the generated chain, and their agreement with the chain's own block times.
 */
module ForkSchedule {
  import opened Wrappers

  /** A fork name; configurations may spell names the schedule does not know. */
  datatype Fork = Azul | Beryl | Cobalt | Denim | Zenith | Unknown(name: string)

  const FORKS: seq<Fork> := [Azul, Beryl, Cobalt, Denim, Zenith]

  const U64_MAX: nat := 0xFFFF_FFFF_FFFF_FFFF

  type U64 = x: nat | x <= U64_MAX

  datatype Activation = AtBlock(at: U64) | Disabled(disabled: bool)

  type Forks = map<Fork, Activation>

  /** The activation block of a fork, when it is present and enabled. */
  function BlockOf(forks: Forks, name: Fork): Option<U64> {
    if name in forks && forks[name].AtBlock? then Some(forks[name].at) else None
  }

  // ---------------------------------------------------------------- accepted schedules

  /** All five forks and no other, none half-disabled, enabled ones a prefix in nondecreasing block order. */
  ghost predicate Accepted(forks: Forks) {
    && (forall name :: name in forks <==> name in FORKS)
    && (forall name <- FORKS :: name in forks && forks[name] != Disabled(false))
    && (forall i, j :: 0 <= i < j < |FORKS| && BlockOf(forks, FORKS[j]).Some? ==>
                         BlockOf(forks, FORKS[i]).Some? && BlockOf(forks, FORKS[i]).value <= BlockOf(forks, FORKS[j]).value)
    && (BlockOf(forks, Zenith).Some? && BlockOf(forks, Denim).Some? ==>
          (BlockOf(forks, Zenith).value - BlockOf(forks, Denim).value) % 5 == 0)
  }

  /** What acceptance asks of the k-th fork, given its predecessors. */
  ghost predicate Fits(forks: Forks, k: nat)
    requires k < |FORKS|
  {
    && FORKS[k] in forks && forks[FORKS[k]] != Disabled(false)
    && (BlockOf(forks, FORKS[k]).Some? ==>
          && (forall i :: 0 <= i < k ==> BlockOf(forks, FORKS[i]).Some?)
          && (k > 0 ==> BlockOf(forks, FORKS[k - 1]).value <= BlockOf(forks, FORKS[k]).value)
          && (k == 4 ==> (BlockOf(forks, FORKS[4]).value - BlockOf(forks, FORKS[3]).value) % 5 == 0))
  }

  lemma {:induction false} FitsOrdered(forks: Forks, i: nat, j: nat)
    requires i < j < |FORKS| && BlockOf(forks, FORKS[j]).Some? && forall k :: i <= k <= j ==> Fits(forks, k)
    ensures BlockOf(forks, FORKS[i]).Some? && BlockOf(forks, FORKS[i]).value <= BlockOf(forks, FORKS[j]).value
  {
    assert Fits(forks, j);
    if i < j - 1 {
      FitsOrdered(forks, i, j - 1);
    }
  }

  ghost predicate AllFit(forks: Forks) {
    (forall k :: 0 <= k < |FORKS| ==> Fits(forks, k)) && (forall name :: name in forks ==> name in FORKS)
  }

  lemma FitAccepted(forks: Forks)
    requires AllFit(forks)
    ensures Accepted(forks)
  {
    forall i, j | 0 <= i < j < |FORKS| && BlockOf(forks, FORKS[j]).Some?
      ensures BlockOf(forks, FORKS[i]).Some? && BlockOf(forks, FORKS[i]).value <= BlockOf(forks, FORKS[j]).value
    {
      FitsOrdered(forks, i, j);
    }
    assert Fits(forks, 0) && Fits(forks, 1) && Fits(forks, 2) && Fits(forks, 3) && Fits(forks, 4);
    assert FORKS[3] == Denim && FORKS[4] == Zenith;
  }

  lemma AcceptedFits(forks: Forks)
    requires Accepted(forks)
    ensures AllFit(forks)
  {
    assert FORKS[3] == Denim && FORKS[4] == Zenith;
    forall k | 0 <= k < |FORKS| ensures Fits(forks, k) {
      assert FORKS[k] in FORKS;
    }
  }

  /** One pass over the fork names; the post-Denim subtraction it makes never goes below zero. */
  method ValidateForks(forks: Forks) returns (ok: bool)
    ensures ok <==> Accepted(forks)
  {
    if Accepted(forks) { AcceptedFits(forks); }
    if AllFit(forks) { FitAccepted(forks); }
    var previous: Option<U64> := None;
    var prerequisiteDisabled := false;
    for k := 0 to |FORKS|
      invariant forall i :: 0 <= i < k ==> Fits(forks, i)
      invariant prerequisiteDisabled <==> exists i :: 0 <= i < k && BlockOf(forks, FORKS[i]).None?
      invariant !prerequisiteDisabled ==> previous == if k == 0 then None else BlockOf(forks, FORKS[k - 1])
    {
      var ok := ValidateFork(forks, k, previous, prerequisiteDisabled);
      if !ok {
        return false;
      }
      match forks[FORKS[k]] {
        case Disabled(_) => prerequisiteDisabled := true;
        case AtBlock(at) => previous := Some(at);
      }
    }
    ok := forall name <- forks.Keys :: name in FORKS;
  }

  method ValidateFork(forks: Forks, k: nat, previous: Option<U64>, prerequisiteDisabled: bool) returns (ok: bool)
    requires k < |FORKS|
    requires prerequisiteDisabled <==> exists i :: 0 <= i < k && BlockOf(forks, FORKS[i]).None?
    requires !prerequisiteDisabled ==> previous == if k == 0 then None else BlockOf(forks, FORKS[k - 1])
    ensures ok <==> Fits(forks, k)
  {
    var name := FORKS[k];
    if name !in forks || forks[name] == Disabled(false) {
      return false;
    }
    if forks[name].AtBlock? {
      var at := forks[name].at;
      if prerequisiteDisabled || (previous.Some? && at < previous.value) {
        return false;
      }
      if name == Zenith {
        assert k == 4 && FORKS[3] == Denim;
        var denim := BlockOf(forks, Denim);
        if denim.None? {
          return false;
        }
        var offset: nat := at - denim.value;
        return offset % 5 == 0;
      }
    }
    return true;
  }

  // ---------------------------------------------------------------- the chain's own clock

  const LEGACY_BLOCK_SECONDS: U64 := 2
  const DENIM_BLOCK_MILLIS: U64 := 200

  function SatAdd(a: U64, b: U64): U64 { if a + b <= U64_MAX then a + b else U64_MAX }

  function SatMul(a: U64, b: U64): U64 { if a * b <= U64_MAX then a * b else U64_MAX }

  function SatSub(a: U64, b: U64): U64 { if a >= b then a - b else 0 }

  /** First legacy slot at or after the configured Denim time. */
  function DenimBlock(genesis: U64, denimTime: U64): U64 {
    var span := SatSub(denimTime, genesis);
    span / LEGACY_BLOCK_SECONDS + (if span % LEGACY_BLOCK_SECONDS == 0 then 0 else 1)
  }

  /** Deterministic block time in milliseconds: two-second blocks, then five per second after Denim. */
  function BlockMillis(genesis: U64, denimTime: Option<U64>, n: U64): U64 {
    var legacy := SatMul(SatAdd(genesis, SatMul(n, LEGACY_BLOCK_SECONDS)), 1000);
    if denimTime.None? then legacy else
    var denim := DenimBlock(genesis, denimTime.value);
    if n < denim then legacy else
    SatAdd(SatMul(SatAdd(genesis, SatMul(denim, LEGACY_BLOCK_SECONDS)), 1000),
           SatMul(SatSub(n, denim), DENIM_BLOCK_MILLIS))
  }

  function BlockSeconds(genesis: U64, denimTime: Option<U64>, n: U64): U64 {
    BlockMillis(genesis, denimTime, n) / 1000
  }

  // ---------------------------------------------------------------- expected activation times

  /** The activation timestamp validation expects of the generated chain; `None` on overflow. */
  function Expected(genesis: U64, denim: Option<U64>, block: U64): Option<U64> {
    var time := if denim.Some? && block > denim.value then genesis + denim.value * 2 + (block - denim.value) / 5
                else genesis + block * 2;
    if time <= U64_MAX then Some(time) else None
  }

  /** Exact, unsaturated milliseconds of a block. */
  ghost function TrueMillis(genesis: nat, denim: Option<nat>, n: nat): nat {
    if denim.Some? && n > denim.value then 1000 * (genesis + 2 * denim.value) + 200 * (n - denim.value)
    else 1000 * (genesis + 2 * n)
  }

  /** The Denim time the chain was generated with: the expected timestamp of its block. */
  ghost function DenimTime(genesis: U64, denim: Option<U64>): Option<U64> {
    if denim.None? then None else Expected(genesis, denim, denim.value)
  }

  /** The least block whose legacy time reaches the configured Denim time. */
  lemma DenimBlockLeast(genesis: U64, denimTime: U64, n: nat)
    ensures genesis + 2 * n >= denimTime <==> n >= DenimBlock(genesis, denimTime)
  {
  }

  lemma DenimBlockRoundTrip(genesis: U64, denim: U64)
    requires genesis + 2 * denim <= U64_MAX
    ensures DenimBlock(genesis, genesis + 2 * denim) == denim
  {
  }

  /** The chain's clock is the exact one, cut off at the largest representable millisecond, whatever the Denim time. */
  lemma MillisExact(genesis: U64, denimTime: Option<U64>, n: U64)
    ensures var denim := if denimTime.None? then None else Some(DenimBlock(genesis, denimTime.value));
            var exact := TrueMillis(genesis, denim, n);
            BlockMillis(genesis, denimTime, n) == if exact <= U64_MAX then exact else U64_MAX
  {
  }

  lemma MillisSaturate(genesis: U64, denim: Option<U64>, n: U64)
    requires denim.Some? ==> DenimTime(genesis, denim).Some?
    ensures var exact := TrueMillis(genesis, denim, n);
            BlockMillis(genesis, DenimTime(genesis, denim), n) == if exact <= U64_MAX then exact else U64_MAX
  {
    MillisExact(genesis, DenimTime(genesis, denim), n);
    if denim.Some? {
      DenimBlockRoundTrip(genesis, denim.value);
    }
  }

  /** Validation's rule on a fork block: legacy, or a whole number of seconds after Denim. */
  ghost predicate OnSecond(denim: Option<U64>, block: U64) {
    denim.None? || block <= denim.value || (block - denim.value) % 5 == 0
  }

  /** The expected timestamp is the exact clock in whole seconds, missing only when those do not fit. */
  lemma ExpectedSeconds(genesis: U64, denim: Option<U64>, block: U64)
    ensures var seconds := TrueMillis(genesis, denim, block) / 1000;
            Expected(genesis, denim, block) == if seconds <= U64_MAX then Some(seconds) else None
  {
  }

  lemma ExpectedMillis(genesis: U64, denim: Option<U64>, block: U64)
    requires Expected(genesis, denim, block).Some?
    ensures var exact := TrueMillis(genesis, denim, block);
            var late := if OnSecond(denim, block) then 0 else (block - denim.value) % 5;
            Expected(genesis, denim, block).value * 1000 == exact - 200 * late
  {
  }

  /** A block's second-granular timestamp reaches the activation time exactly from the fork's block on. */
  ghost predicate ActivatesAt(genesis: U64, denim: Option<U64>, block: U64, time: U64) {
    forall n: U64 :: BlockSeconds(genesis, DenimTime(genesis, denim), n) >= time <==> n >= block
  }

  /**
   * Activation by time equals activation by block exactly when the fork sits on a whole second and its
   * time still fits the chain's millisecond clock.
   */
  lemma ActivationExact(genesis: U64, denim: Option<U64>, block: U64)
    requires denim.Some? ==> DenimTime(genesis, denim).Some?
    requires Expected(genesis, denim, block).Some?
    ensures var time := Expected(genesis, denim, block).value;
            ActivatesAt(genesis, denim, block, time) <==> OnSecond(denim, block) && time * 1000 <= U64_MAX
  {
    var time := Expected(genesis, denim, block).value;
    ExpectedMillis(genesis, denim, block);
    if OnSecond(denim, block) && time * 1000 <= U64_MAX {
      forall n: U64 ensures BlockSeconds(genesis, DenimTime(genesis, denim), n) >= time <==> n >= block {
        MillisSaturate(genesis, denim, n);
      }
    } else {
      var n: U64 := if time * 1000 > U64_MAX then block else block - (block - denim.value) % 5;
      MillisSaturate(genesis, denim, n);
      assert (BlockSeconds(genesis, DenimTime(genesis, denim), n) >= time) != (n >= block);
    }
  }

  /** A genesis past the millisecond clock: every block's timestamp stays below its own activation time. */
  lemma ClockSaturates()
    ensures var genesis := U64_MAX / 1000 + 1;
            Expected(genesis, None, 0) == Some(genesis) && !ActivatesAt(genesis, None, 0, genesis)
  {
    ActivationExact(U64_MAX / 1000 + 1, None, 0);
  }

  /** Activation times follow block order. */
  lemma ExpectedMonotone(genesis: U64, denim: Option<U64>, a: U64, b: U64)
    requires a <= b && Expected(genesis, denim, a).Some? && Expected(genesis, denim, b).Some?
    ensures Expected(genesis, denim, a).value <= Expected(genesis, denim, b).value
  {
  }

  // ---------------------------------------------------------------- verified schedules

  datatype Boundary = Boundary(fork: Fork, activation: U64)

  function ExpectedFor(forks: Forks, genesis: U64, fork: Fork): Option<U64> {
    var block := BlockOf(forks, fork);
    if block.None? then None else Expected(genesis, BlockOf(forks, Denim), block.value)
  }

  /** The generated schedule carries exactly the expected timestamps, none of which overflowed. */
  ghost predicate Matches(forks: Forks, genesis: U64, generated: map<Fork, U64>, fork: Fork) {
    && (BlockOf(forks, fork).Some? ==> ExpectedFor(forks, genesis, fork).Some?)
    && ExpectedFor(forks, genesis, fork) == if fork in generated then Some(generated[fork]) else None
  }

  /** The boundaries of the enabled forks among the first `k`, in fork order with their expected times. */
  ghost predicate Lists(forks: Forks, genesis: U64, boundaries: seq<Boundary>, k: nat)
    requires k <= |FORKS|
  {
    && |boundaries| <= k
    && (forall i :: 0 <= i < |boundaries| ==>
                      Some(boundaries[i].activation) == ExpectedFor(forks, genesis, FORKS[i]) && boundaries[i].fork == FORKS[i])
    && (forall i :: |boundaries| <= i < k ==> Inactive(forks, i))
  }

  ghost predicate Inactive(forks: Forks, i: int) {
    0 <= i < |FORKS| ==> BlockOf(forks, FORKS[i]).None?
  }

  lemma EnabledPrefix(forks: Forks, k: nat)
    requires Accepted(forks) && k < |FORKS| && BlockOf(forks, FORKS[k]).Some?
    ensures forall i :: 0 <= i < k ==> !Inactive(forks, i)
  {
  }

  lemma ListsNext(forks: Forks, genesis: U64, boundaries: seq<Boundary>, k: nat)
    requires Accepted(forks) && k < |FORKS| && Lists(forks, genesis, boundaries, k)
    requires ExpectedFor(forks, genesis, FORKS[k]).Some?
    ensures Lists(forks, genesis, boundaries + [Boundary(FORKS[k], ExpectedFor(forks, genesis, FORKS[k]).value)], k + 1)
  {
    EnabledPrefix(forks, k);
    var skipped := Inactive(forks, |boundaries|);
    assert |boundaries| == k;
  }

  /** Checks the generated timestamps fork by fork and lists the boundaries in fork order. */
  method VerifiedForks(forks: Forks, genesis: U64, generated: map<Fork, U64>) returns (r: Option<seq<Boundary>>)
    ensures r.Some? <==> Accepted(forks) && forall k :: 0 <= k < |FORKS| ==> Matches(forks, genesis, generated, FORKS[k])
    ensures r.Some? ==> Lists(forks, genesis, r.value, |FORKS|)
  {
    var valid := ValidateForks(forks);
    if !valid {
      return None;
    }
    var boundaries: seq<Boundary> := [];
    for k := 0 to |FORKS|
      invariant forall i :: 0 <= i < k ==> Matches(forks, genesis, generated, FORKS[i])
      invariant Lists(forks, genesis, boundaries, k)
    {
      var fork := FORKS[k];
      var expected := ExpectedFor(forks, genesis, fork);
      if BlockOf(forks, fork).Some? && expected.None? {
        return None;
      }
      var actual := if fork in generated then Some(generated[fork]) else None;
      if actual != expected {
        return None;
      }
      if actual.Some? {
        ListsNext(forks, genesis, boundaries, k);
        boundaries := boundaries + [Boundary(fork, actual.value)];
      }
    }
    r := Some(boundaries);
  }

  lemma AcceptedOnSecond(forks: Forks, k: nat)
    requires Accepted(forks) && k < |FORKS| && BlockOf(forks, FORKS[k]).Some?
    ensures OnSecond(BlockOf(forks, Denim), BlockOf(forks, FORKS[k]).value)
  {
    assert FORKS[3] == Denim && FORKS[4] == Zenith;
  }

  /**
   * In every verified schedule each boundary separates blocks exactly at its configured block, as long as
   * its time fits the millisecond clock; and boundary times follow fork order.
   */
  lemma VerifiedBoundaries(forks: Forks, genesis: U64, generated: map<Fork, U64>, i: nat, j: nat)
    requires Accepted(forks) && forall k :: 0 <= k < |FORKS| ==> Matches(forks, genesis, generated, FORKS[k])
    requires i <= j < |FORKS| && BlockOf(forks, FORKS[j]).Some?
    ensures FORKS[i] in generated && FORKS[j] in generated && generated[FORKS[i]] <= generated[FORKS[j]]
    ensures ActivatesAt(genesis, BlockOf(forks, Denim), BlockOf(forks, FORKS[j]).value, generated[FORKS[j]])
       <==> generated[FORKS[j]] * 1000 <= U64_MAX
  {
    var denim := BlockOf(forks, Denim);
    assert FORKS[3] == Denim;
    assert Matches(forks, genesis, generated, FORKS[i]) && Matches(forks, genesis, generated, FORKS[j])
        && Matches(forks, genesis, generated, FORKS[3]);
    AcceptedOnSecond(forks, j);
    ExpectedMonotone(genesis, denim, BlockOf(forks, FORKS[i]).value, BlockOf(forks, FORKS[j]).value);
    ActivationExact(genesis, denim, BlockOf(forks, FORKS[j]).value);
  }
}
