/**
 * The sustained-health check: every L2 role is sampled in rounds until a shared window has elapsed.
 *
 * Answers of the nodes and of the clocks are inputs. A `Sample` holds what one role would answer in one round;
 * `settled` and `checked` are the monotonic clock when the window is fixed and when its end is tested.
 */
module Health {
  import opened Wrappers

  type Hash = nat

  datatype Head = Head(number: nat, timestamp: nat, hash: Hash)

  datatype Sample = Sample(head: Option<Head>, host: nat, canonical: nat -> Option<Hash>)

  datatype Round = Round(samples: seq<Sample>, settled: nat, checked: nat)

  datatype Settings = Settings(duration: nat, minimum: nat, maximumAge: nat, maxLag: nat, deadline: nat)

  datatype Verdict = Healthy | Unhealthy | Sampling

  const FUTURE_ALLOWANCE: nat := 5

  function SatSub(a: nat, b: nat): nat {
    if a < b then 0 else a - b
  }

  // ---------------------------------------------------------------- what health means

  /** The role answered with a head no older than allowed and at most five seconds ahead of the host. */
  ghost predicate Fresh(s: Sample, maximumAge: nat) {
    && s.head.Some?
    && s.head.value.timestamp <= s.host + FUTURE_ALLOWANCE
    && s.host <= s.head.value.timestamp + maximumAge
  }

  ghost predicate AllFresh(r: Round, maximumAge: nat) {
    forall i :: 0 <= i < |r.samples| ==> Fresh(r.samples[i], maximumAge)
  }

  ghost function Number(r: Round, i: nat): nat
    requires i < |r.samples| && r.samples[i].head.Some?
  {
    r.samples[i].head.value.number
  }

  ghost predicate WithinLag(r: Round, maxLag: nat)
    requires forall i :: 0 <= i < |r.samples| ==> r.samples[i].head.Some?
  {
    forall i, j :: 0 <= i < |r.samples| && 0 <= j < |r.samples| ==> Number(r, i) <= Number(r, j) + maxLag
  }

  /** All roles report one hash at the height of the lowest sampled head, and the heads sampled there carry it. */
  ghost predicate Agree(r: Round, low: nat, hash: Hash)
    requires forall i :: 0 <= i < |r.samples| ==> r.samples[i].head.Some?
  {
    forall i :: 0 <= i < |r.samples| ==>
      && r.samples[i].canonical(low) == Some(hash)
      && (Number(r, i) == low ==> r.samples[i].head.value.hash == hash)
  }

  ghost predicate Lowest(r: Round, low: nat)
    requires forall i :: 0 <= i < |r.samples| ==> r.samples[i].head.Some?
  {
    && (forall i :: 0 <= i < |r.samples| ==> low <= Number(r, i))
    && (r.samples != [] ==> exists i :: 0 <= i < |r.samples| && Number(r, i) == low)
  }

  ghost predicate Sound(r: Round, s: Settings) {
    && AllFresh(r, s.maximumAge)
    && WithinLag(r, s.maxLag)
    && exists low, hash :: Lowest(r, low) && Agree(r, low, hash)
  }

  ghost function Until(rounds: seq<Round>, s: Settings): nat
    requires rounds != []
  {
    rounds[0].settled + s.duration
  }

  ghost predicate Unended(rounds: seq<Round>, s: Settings, n: nat)
    requires n <= |rounds|
  {
    forall k :: 0 <= k < n ==> rounds[k].checked < Until(rounds, s)
  }

  /** Rounds `0..=n` were all sound, the window ends before the deadline, and none before `n` reached its end. */
  ghost predicate SoundTo(rounds: seq<Round>, s: Settings, n: int)
    requires -1 <= n < |rounds|
  {
    && (forall k :: 0 <= k <= n ==> Sound(rounds[k], s))
    && (n >= 0 ==> Until(rounds, s) < s.deadline)
    && (n >= 0 ==> Unended(rounds, s, n))
  }

  ghost predicate Advanced(first: Round, last: Round, minimum: nat)
    requires |first.samples| == |last.samples|
  {
    forall i :: 0 <= i < |first.samples| ==>
      && first.samples[i].head.Some? && last.samples[i].head.Some?
      && (minimum == 0 || Number(first, i) + minimum <= Number(last, i))
  }

  /** Round `n` is the first at or past the end of the window, all rounds were sound and every role advanced. */
  ghost predicate Sustained(rounds: seq<Round>, s: Settings, n: nat)
    requires n < |rounds| && |rounds[0].samples| == |rounds[n].samples|
  {
    && SoundTo(rounds, s, n)
    && rounds[n].checked >= Until(rounds, s)
    && Advanced(rounds[0], rounds[n], s.minimum)
  }

  // ---------------------------------------------------------------- one round

  ghost predicate Distinct(roles: seq<string>) {
    forall i, j :: 0 <= i < j < |roles| ==> roles[i] != roles[j]
  }

  /** The maps after sampling: the first number of each role stays its baseline, the newest is its latest. */
  ghost predicate Recorded(roles: seq<string>, heads: seq<Head>, was: map<string, nat>,
                           baselines: map<string, nat>, latest: map<string, nat>) {
    && |heads| <= |roles|
    && (forall i :: 0 <= i < |heads| ==>
          && roles[i] in baselines && roles[i] in latest
          && latest[roles[i]] == heads[i].number
          && baselines[roles[i]] == if roles[i] in was then was[roles[i]] else heads[i].number)
    && (forall i :: |heads| <= i < |roles| ==>
          (roles[i] in baselines <==> roles[i] in was) && (roles[i] in was ==> baselines[roles[i]] == was[roles[i]]))
  }

  method SampleHeads(roles: seq<string>, r: Round, s: Settings, was: map<string, nat>, before: map<string, nat>)
    returns (ok: bool, heads: seq<Head>, baselines: map<string, nat>, latest: map<string, nat>)
    requires Distinct(roles) && |r.samples| == |roles|
    ensures ok <==> AllFresh(r, s.maximumAge)
    ensures ok ==> |heads| == |roles| && forall i :: 0 <= i < |heads| ==> r.samples[i].head == Some(heads[i])
    ensures ok ==> Recorded(roles, heads, was, baselines, latest)
  {
    heads, baselines, latest := [], was, before;
    for i := 0 to |roles|
      invariant |heads| == i
      invariant forall k :: 0 <= k < i ==> r.samples[k].head == Some(heads[k]) && Fresh(r.samples[k], s.maximumAge)
      invariant Recorded(roles, heads, was, baselines, latest)
    {
      var sample := r.samples[i];
      if sample.head.None? { return false, heads, baselines, latest; }
      var head := sample.head.value;
      if roles[i] !in baselines { baselines := baselines[roles[i] := head.number]; }
      latest := latest[roles[i] := head.number];
      if SatSub(head.timestamp, sample.host) > FUTURE_ALLOWANCE { return false, heads, baselines, latest; }
      if SatSub(sample.host, head.timestamp) > s.maximumAge { return false, heads, baselines, latest; }
      heads := heads + [head];
    }
    ok := true;
  }

  method Extremes(heads: seq<Head>) returns (low: nat, high: nat)
    ensures forall h <- heads :: low <= h.number <= high
    ensures heads != [] ==> (exists h <- heads :: h.number == low) && (exists h <- heads :: h.number == high)
    ensures heads == [] ==> low == high == 0
  {
    if heads == [] { return 0, 0; }
    low, high := heads[0].number, heads[0].number;
    for i := 1 to |heads|
      invariant forall h <- heads[..i] :: low <= h.number <= high
      invariant (exists h <- heads[..i] :: h.number == low) && (exists h <- heads[..i] :: h.number == high)
    {
      assert heads[..i + 1] == heads[..i] + [heads[i]];
      if heads[i].number < low { low := heads[i].number; }
      if heads[i].number > high { high := heads[i].number; }
    }
    assert heads[..|heads|] == heads;
  }

  ghost predicate Sampled(r: Round, heads: seq<Head>) {
    |heads| == |r.samples| && forall i :: 0 <= i < |heads| ==> r.samples[i].head == Some(heads[i])
  }

  /** Asks every role for its hash at the common height. */
  method Compare(r: Round, heads: seq<Head>, low: nat) returns (ok: bool)
    requires Sampled(r, heads)
    ensures ok <==> exists hash :: Agree(r, low, hash)
  {
    var common: Option<Hash> := None;
    for i := 0 to |heads|
      invariant common.None? <==> i == 0
      invariant forall k :: 0 <= k < i ==> r.samples[k].canonical(low) == common
      invariant forall k :: 0 <= k < i && heads[k].number == low ==> Some(heads[k].hash) == common
    {
      var historical := r.samples[i].canonical(low);
      if historical.None? { return false; }
      if heads[i].number == low && heads[i].hash != historical.value {
        assert Number(r, i) == low;
        return false;
      }
      if common.Some? && common != historical {
        assert r.samples[0].canonical(low) == common;
        return false;
      }
      common := historical;
    }
    ok := true;
    assert Agree(r, low, if common.Some? then common.value else 0);
  }

  lemma LagExact(r: Round, heads: seq<Head>, low: nat, high: nat, maxLag: nat)
    requires Sampled(r, heads)
    requires forall h <- heads :: low <= h.number <= high
    requires heads != [] ==> (exists h <- heads :: h.number == low) && (exists h <- heads :: h.number == high)
    requires heads == [] ==> low == high
    ensures WithinLag(r, maxLag) <==> high - low <= maxLag
    ensures Lowest(r, low) && forall other :: heads != [] && Lowest(r, other) ==> other == low
  {
    forall i | 0 <= i < |heads| ensures low <= Number(r, i) <= high {
      assert heads[i] in heads;
    }
    if heads != [] {
      var a :| a in heads && a.number == low;
      var b :| b in heads && b.number == high;
      var i :| 0 <= i < |heads| && heads[i] == a;
      var j :| 0 <= j < |heads| && heads[j] == b;
      assert Number(r, i) == low && Number(r, j) == high;
    }
  }

  method CheckRound(r: Round, heads: seq<Head>, s: Settings) returns (ok: bool)
    requires Sampled(r, heads) && AllFresh(r, s.maximumAge)
    ensures ok <==> Sound(r, s)
  {
    var low, high := Extremes(heads);
    LagExact(r, heads, low, high, s.maxLag);
    if SatSub(high, low) > s.maxLag { return false; }
    ok := Compare(r, heads, low);
    if ok {
      ghost var hash :| Agree(r, low, hash);
      assert Lowest(r, low) && Agree(r, low, hash);
    } else if heads == [] {
      assert Agree(r, low, 0);
    }
  }

  // ---------------------------------------------------------------- the whole window

  method Progressed(roles: seq<string>, baselines: map<string, nat>, latest: map<string, nat>, minimum: nat)
    returns (ok: bool)
    requires forall i :: 0 <= i < |roles| ==> roles[i] in baselines && roles[i] in latest
    ensures ok <==> forall i :: 0 <= i < |roles| ==> SatSub(latest[roles[i]], baselines[roles[i]]) >= minimum
  {
    for i := 0 to |roles|
      invariant forall k :: 0 <= k < i ==> SatSub(latest[roles[k]], baselines[roles[k]]) >= minimum
    {
      if SatSub(latest[roles[i]], baselines[roles[i]]) < minimum { return false; }
    }
    ok := true;
  }

  ghost predicate Baselined(roles: seq<string>, r: Round, numbers: map<string, nat>)
    requires |r.samples| == |roles|
  {
    forall i :: 0 <= i < |roles| ==> roles[i] in numbers && r.samples[i].head.Some? && numbers[roles[i]] == Number(r, i)
  }

  lemma AdvancedExact(roles: seq<string>, first: Round, last: Round, baselines: map<string, nat>,
                      latest: map<string, nat>, minimum: nat)
    requires |first.samples| == |last.samples| == |roles|
    requires Baselined(roles, first, baselines) && Baselined(roles, last, latest)
    ensures Advanced(first, last, minimum) <==>
              forall i :: 0 <= i < |roles| ==> SatSub(latest[roles[i]], baselines[roles[i]]) >= minimum
  {
    forall i | 0 <= i < |roles|
      ensures SatSub(latest[roles[i]], baselines[roles[i]]) >= minimum
         <==> minimum == 0 || Number(first, i) + minimum <= Number(last, i)
    {
    }
  }

  /** While no earlier round ended the window, only round `n` or a later one after a sound `n` can. */
  lemma Decided(rounds: seq<Round>, s: Settings, n: nat, m: nat)
    requires n < |rounds| && m < |rounds| && |rounds[0].samples| == |rounds[m].samples|
    requires Unended(rounds, s, n) && Sustained(rounds, s, m)
    ensures Sound(rounds[n], s) && Until(rounds, s) < s.deadline
    ensures rounds[n].checked >= Until(rounds, s) ==> m == n
  {
    assert n <= m;
  }

  ghost predicate Conforming(rounds: seq<Round>, roles: nat) {
    forall r <- rounds :: |r.samples| == roles
  }

  ghost predicate Achieved(rounds: seq<Round>, s: Settings, roles: nat)
    requires Conforming(rounds, roles)
  {
    exists n: nat :: n < |rounds| && Sustained(rounds, s, n)
  }

  lemma NotAchieved(rounds: seq<Round>, s: Settings, roles: nat, n: nat)
    requires Conforming(rounds, roles) && n < |rounds| && Unended(rounds, s, n)
    requires !Sound(rounds[n], s) || Until(rounds, s) >= s.deadline
    ensures !Achieved(rounds, s, roles)
  {
    forall m: nat | m < |rounds| ensures !Sustained(rounds, s, m) {
      if Sustained(rounds, s, m) { Decided(rounds, s, n, m); }
    }
  }

  lemma Concluded(rounds: seq<Round>, s: Settings, roles: nat, n: nat)
    requires Conforming(rounds, roles) && n < |rounds| && SoundTo(rounds, s, n)
    requires rounds[n].checked >= Until(rounds, s)
    ensures Achieved(rounds, s, roles) <==> Advanced(rounds[0], rounds[n], s.minimum)
  {
    if Advanced(rounds[0], rounds[n], s.minimum) {
      assert Sustained(rounds, s, n);
    }
    forall m: nat | m < |rounds| && Sustained(rounds, s, m) ensures m == n {
      Decided(rounds, s, n, m);
    }
  }

  /** Reports health exactly when some round ends a sustained window, and keeps sampling only while it may still do so. */
  method Observe(roles: seq<string>, rounds: seq<Round>, s: Settings) returns (v: Verdict)
    requires Distinct(roles) && Conforming(rounds, |roles|)
    ensures v == Healthy <==> Achieved(rounds, s, |roles|)
    ensures v == Sampling <==> SoundTo(rounds, s, |rounds| - 1) && Unended(rounds, s, |rounds|)
  {
    var baselines: map<string, nat>, latest: map<string, nat> := map[], map[];
    var until: Option<nat> := None;
    for n := 0 to |rounds|
      invariant SoundTo(rounds, s, n - 1) && Unended(rounds, s, n)
      invariant until == if n == 0 then None else Some(Until(rounds, s))
      invariant if n == 0 then baselines == map[] else Baselined(roles, rounds[0], baselines)
    {
      var r := rounds[n];
      var ok, heads;
      ok, heads, baselines, latest := SampleHeads(roles, r, s, baselines, latest);
      if ok { ok := CheckRound(r, heads, s); }
      if !ok {
        NotAchieved(rounds, s, |roles|, n);
        return Unhealthy;
      }
      if until.None? {
        until := Some(r.settled + s.duration);
        if until.value >= s.deadline {
          NotAchieved(rounds, s, |roles|, n);
          return Unhealthy;
        }
      }
      assert SoundTo(rounds, s, n) && Baselined(roles, rounds[0], baselines);
      if r.checked >= until.value {
        assert Baselined(roles, r, latest);
        AdvancedExact(roles, rounds[0], r, baselines, latest, s.minimum);
        Concluded(rounds, s, |roles|, n);
        ok := Progressed(roles, baselines, latest, s.minimum);
        return if ok then Healthy else Unhealthy;
      }
    }
    return Sampling;
  }

  /** A required advance takes a second round: the verdict never rests on the baseline alone. */
  lemma SeveralRounds(rounds: seq<Round>, s: Settings, n: nat)
    requires n < |rounds| && |rounds[0].samples| == |rounds[n].samples| && Sustained(rounds, s, n)
    requires s.minimum > 0 && rounds[0].samples != []
    ensures n >= 1 && rounds[n].checked >= rounds[0].settled + s.duration
  {
    assert Number(rounds[0], 0) + s.minimum <= Number(rounds[n], 0);
  }

  /** At the end every role is ahead of every baseline by the minimum, up to the allowed lag. */
  lemma AheadOfEveryBaseline(rounds: seq<Round>, s: Settings, n: nat, i: nat, j: nat)
    requires n < |rounds| && |rounds[0].samples| == |rounds[n].samples| && Sustained(rounds, s, n)
    requires s.minimum > 0 && i < |rounds[0].samples| && j < |rounds[0].samples|
    ensures rounds[0].samples[j].head.Some? && rounds[n].samples[i].head.Some?
    ensures Number(rounds[0], j) + s.minimum <= Number(rounds[n], i) + s.maxLag
  {
    assert Sound(rounds[n], s);
    assert Number(rounds[n], j) <= Number(rounds[n], i) + s.maxLag;
  }
}
