/**
 * Aggregation of sharded acceptance results into one report, and what it means for that report to pass.
 */
module Aggregate {
  import opened Wrappers

  const MAX_BYTES: nat := 20 * 1024 * 1024

  type Id = string

  datatype Status = Passed | Failed | Error | Blocked | Cancelled

  datatype StageResult = StageResult(id: Id, status: Status)

  datatype CheckResult = CheckResult(id: Id, status: Status, evidence: seq<string>)

  datatype ScenarioResult = ScenarioResult(id: Id, status: Status, stages: seq<StageResult>, checks: seq<CheckResult>)

  datatype RunResult = RunResult(schemaVersion: nat, runId: Id, sha: Id, scenarios: seq<ScenarioResult>)

  datatype ExpectedScenario = ExpectedScenario(id: Id, checks: seq<Id>)

  datatype Manifest = Manifest(schemaVersion: nat, runId: Id, sha: Id, scenarios: seq<ExpectedScenario>)

  /**
   * The directory a result came from. `size` is the length of an evidence file that is safe to copy and
   * copies without error; `resolves` says whether the directory itself still canonicalizes.
   */
  datatype Bundle = Bundle(resolves: bool, size: string -> Option<nat>)

  /** A discovered result file: rejected while reading, parsing or validating, or a run in its bundle. */
  datatype Artifact = Rejected | Valid(run: RunResult, bundle: Bundle)

  datatype Entry = Entry(bundle: Bundle, scenario: ScenarioResult)

  // ---------------------------------------------------------------- outcomes

  ghost predicate StagesPassed(stages: seq<StageResult>) {
    forall stage <- stages :: stage.status == Passed
  }

  ghost predicate ChecksPassed(checks: seq<CheckResult>) {
    forall check <- checks :: check.status == Passed
  }

  predicate Has(stages: seq<StageResult>, checks: seq<CheckResult>, status: Status) {
    (exists stage <- stages :: stage.status == status) || (exists check <- checks :: check.status == status)
  }

  function Severity(status: Status): nat {
    match status case Passed => 0 case Failed => 1 case Blocked => 2 case Cancelled => 3 case Error => 4
  }

  /** The most severe status recorded anywhere; a scenario without checks cannot pass. */
  function Outcome(stages: seq<StageResult>, checks: seq<CheckResult>): (r: Status)
    ensures r == Passed <==> checks != [] && StagesPassed(stages) && ChecksPassed(checks)
    ensures r != Passed ==> Has(stages, checks, r) || (r == Error && checks == [])
    ensures forall status: Status :: Has(stages, checks, status) ==> Severity(status) <= Severity(r)
  {
    if Has(stages, checks, Error) then Error
    else if Has(stages, checks, Cancelled) then Cancelled
    else if Has(stages, checks, Blocked) then Blocked
    else if Has(stages, checks, Failed) then Failed
    else if checks == [] then Error
    else Passed
  }

  function OutcomeOf(s: ScenarioResult): Status {
    Outcome(s.stages, s.checks)
  }

  ghost predicate RunPassed(run: RunResult) {
    run.schemaVersion == 1 && run.scenarios != [] && forall s <- run.scenarios :: OutcomeOf(s) == Passed
  }

  // ---------------------------------------------------------------- manifests

  ghost predicate Distinct<T(!new)>(xs: seq<T>) {
    forall i, j :: 0 <= i < j < |xs| ==> xs[i] != xs[j]
  }

  function ScenarioIds(scenarios: seq<ExpectedScenario>): seq<Id> {
    seq(|scenarios|, i requires 0 <= i < |scenarios| => scenarios[i].id)
  }

  ghost predicate SafeChar(c: char) {
    'a' <= c <= 'z' || 'A' <= c <= 'Z' || '0' <= c <= '9' || c == '-' || c == '_'
  }

  ghost predicate SafeId(id: Id) {
    0 < |id| <= 100 && forall c <- id :: SafeChar(c)
  }

  method ValidateId(id: Id) returns (ok: bool)
    ensures ok <==> SafeId(id)
  {
    if |id| == 0 || |id| > 100 || id == "." || id == ".." {
      assert id != "" ==> id[0] in id;
      return false;
    }
    for i := 0 to |id|
      invariant forall j :: 0 <= j < i ==> SafeChar(id[j])
    {
      var c := id[i];
      var alphanumeric := ('a' <= c && c <= 'z') || ('A' <= c && c <= 'Z') || ('0' <= c && c <= '9');
      if !alphanumeric && c != '-' && c != '_' {
        assert id[i] in id;
        return false;
      }
    }
    return true;
  }

  ghost predicate ValidScenario(s: ExpectedScenario) {
    SafeId(s.id) && 0 < |s.checks| <= 1000 && Distinct(s.checks) && forall id <- s.checks :: SafeId(id)
  }

  ghost predicate ValidManifest(m: Manifest) {
    && m.schemaVersion == 1 && m.runId != "" && m.sha != ""
    && 0 < |m.scenarios| <= 100
    && Distinct(ScenarioIds(m.scenarios))
    && forall s <- m.scenarios :: ValidScenario(s)
  }

  method ValidateChecks(checks: seq<Id>) returns (ok: bool)
    ensures ok <==> Distinct(checks) && forall id <- checks :: SafeId(id)
  {
    var seen: set<Id> := {};
    for i := 0 to |checks|
      invariant forall id :: id in seen <==> id in checks[..i]
      invariant Distinct(checks[..i]) && forall id <- checks[..i] :: SafeId(id)
    {
      assert checks[i] in checks;
      var safe := ValidateId(checks[i]);
      if !safe { return false; }
      if checks[i] in seen {
        var j :| 0 <= j < i && checks[j] == checks[i];
        return false;
      }
      assert checks[..i + 1] == checks[..i] + [checks[i]];
      seen := seen + {checks[i]};
    }
    assert checks[..|checks|] == checks;
    return true;
  }

  /** Accepts exactly the manifests whose scenarios and checks are safe, nonempty, bounded and distinct. */
  method LoadExpected(m: Manifest) returns (ok: bool)
    ensures ok <==> ValidManifest(m)
  {
    if m.schemaVersion != 1 || m.runId == "" || m.sha == "" { return false; }
    if |m.scenarios| == 0 || |m.scenarios| > 100 { return false; }
    var seen: set<Id> := {};
    ghost var ids := ScenarioIds(m.scenarios);
    for i := 0 to |m.scenarios|
      invariant forall id :: id in seen <==> exists j :: 0 <= j < i && ids[j] == id
      invariant forall j, k :: 0 <= j < k < i ==> ids[j] != ids[k]
      invariant forall j :: 0 <= j < i ==> ValidScenario(m.scenarios[j])
    {
      var s := m.scenarios[i];
      assert s in m.scenarios && ids[i] == s.id;
      var safe := ValidateId(s.id);
      if !safe || s.id in seen { return false; }
      seen := seen + {s.id};
      if |s.checks| == 0 || |s.checks| > 1000 { return false; }
      var distinct := ValidateChecks(s.checks);
      if !distinct { return false; }
    }
    return true;
  }

  function Ids(checks: seq<CheckResult>): seq<Id> {
    seq(|checks|, i requires 0 <= i < |checks| => checks[i].id)
  }

  // ---------------------------------------------------------------- manifest order

  function Position(order: seq<Id>, id: Id): nat {
    if order == [] || order[0] == id then 0 else 1 + Position(order[1..], id)
  }

  lemma {:induction false} PositionFinds(order: seq<Id>, k: nat)
    requires Distinct(order) && k < |order|
    ensures Position(order, order[k]) == k
  {
    if k > 0 {
      assert order[1..][k - 1] == order[k];
      PositionFinds(order[1..], k - 1);
    }
  }

  lemma {:induction false} PositionInverse(order: seq<Id>, id: Id)
    requires id in order
    ensures Position(order, id) < |order| && order[Position(order, id)] == id
  {
    if order[0] != id { PositionInverse(order[1..], id); }
  }

  function Insert(order: seq<Id>, check: CheckResult, sorted: seq<CheckResult>): seq<CheckResult> {
    if sorted == [] || Position(order, check.id) <= Position(order, sorted[0].id) then [check] + sorted
    else [sorted[0]] + Insert(order, check, sorted[1..])
  }

  /** Stable sort by position in the manifest. */
  function Arrange(order: seq<Id>, checks: seq<CheckResult>): seq<CheckResult> {
    if checks == [] then [] else Insert(order, checks[0], Arrange(order, checks[1..]))
  }

  ghost predicate Ordered(order: seq<Id>, checks: seq<CheckResult>) {
    forall i, j :: 0 <= i < j < |checks| ==> Position(order, checks[i].id) <= Position(order, checks[j].id)
  }

  lemma {:induction false} InsertPermutes(order: seq<Id>, check: CheckResult, sorted: seq<CheckResult>)
    ensures multiset(Insert(order, check, sorted)) == multiset([check] + sorted)
  {
    if sorted != [] && Position(order, check.id) > Position(order, sorted[0].id) {
      InsertPermutes(order, check, sorted[1..]);
      assert [check] + sorted == [check] + [sorted[0]] + sorted[1..];
    }
  }

  lemma {:induction false} ArrangePermutes(order: seq<Id>, checks: seq<CheckResult>)
    ensures multiset(Arrange(order, checks)) == multiset(checks)
  {
    if checks != [] {
      ArrangePermutes(order, checks[1..]);
      InsertPermutes(order, checks[0], Arrange(order, checks[1..]));
      assert checks == [checks[0]] + checks[1..];
    }
  }

  lemma SameMembers(r: seq<CheckResult>, s: seq<CheckResult>, check: CheckResult)
    requires multiset(r) == multiset(s)
    ensures |r| == |s| && (check in r <==> check in s)
  {
    assert |multiset(r)| == |r| && |multiset(s)| == |s|;
    assert check in r <==> check in multiset(r);
    assert check in s <==> check in multiset(s);
  }

  lemma {:induction false} InsertOrdered(order: seq<Id>, check: CheckResult, sorted: seq<CheckResult>)
    requires Ordered(order, sorted)
    ensures Ordered(order, Insert(order, check, sorted))
  {
    if sorted != [] && Position(order, check.id) > Position(order, sorted[0].id) {
      InsertOrdered(order, check, sorted[1..]);
      var rest := Insert(order, check, sorted[1..]);
      InsertPermutes(order, check, sorted[1..]);
      forall j | 0 <= j < |rest| ensures Position(order, sorted[0].id) <= Position(order, rest[j].id) {
        SameMembers(rest, [check] + sorted[1..], rest[j]);
        assert rest[j] == check || rest[j] in sorted[1..];
      }
    }
  }

  lemma {:induction false} ArrangeOrdered(order: seq<Id>, checks: seq<CheckResult>)
    ensures Ordered(order, Arrange(order, checks))
  {
    if checks != [] {
      ArrangeOrdered(order, checks[1..]);
      InsertOrdered(order, checks[0], Arrange(order, checks[1..]));
    }
  }

  /** The result's checks are the wanted ones, each once. */
  ghost predicate SameChecks(wanted: seq<Id>, checks: seq<CheckResult>) {
    && |checks| == |wanted|
    && (forall id <- wanted :: id in Ids(checks))
    && (forall check <- checks :: check.id in wanted)
  }

  /** Compares the two identifier sets and their lengths. */
  method CompareChecks(wanted: seq<Id>, checks: seq<CheckResult>) returns (ok: bool)
    ensures ok <==> SameChecks(wanted, checks)
  {
    var actual := set check <- checks :: check.id;
    var required := set id <- wanted;
    ok := actual == required && |checks| == |wanted|;
    assert forall id :: id in actual <==> id in Ids(checks) by {
      forall id | id in actual ensures id in Ids(checks) {
        var i :| 0 <= i < |checks| && checks[i].id == id;
        assert Ids(checks)[i] == id;
      }
      forall id | id in Ids(checks) ensures id in actual {
        var i :| 0 <= i < |checks| && Ids(checks)[i] == id;
        assert checks[i] in checks && checks[i].id == id;
      }
    }
    assert forall check <- checks :: check.id in actual;
    assert forall id <- wanted :: id in required;
    if SameChecks(wanted, checks) { assert actual == required; }
  }

  /** A nondecreasing walk over 0..n that meets every value climbs by one each time. */
  lemma {:induction false} Climb(order: seq<Id>, checks: seq<CheckResult>, i: nat)
    requires Distinct(order) && SameChecks(order, checks) && Ordered(order, checks) && i < |checks|
    ensures Position(order, checks[i].id) <= i
  {
    var p := Position(order, checks[i].id);
    PositionInverse(order, checks[i].id);
    if i == 0 {
      Met(order, checks, 0);
    } else {
      Climb(order, checks, i - 1);
      var q := Position(order, checks[i - 1].id);
      if p > q + 1 { Met(order, checks, q + 1); }
    }
  }

  /** Every manifest position occurs, and none is skipped between neighbours. */
  lemma Met(order: seq<Id>, checks: seq<CheckResult>, k: nat)
    requires Distinct(order) && SameChecks(order, checks) && k < |order|
    ensures exists i :: 0 <= i < |checks| && Position(order, checks[i].id) == k
  {
    PositionFinds(order, k);
    assert order[k] in Ids(checks);
    var i :| 0 <= i < |checks| && Ids(checks)[i] == order[k];
    assert checks[i].id == order[k];
  }

  lemma {:induction false} Fall(order: seq<Id>, checks: seq<CheckResult>, i: nat)
    requires Distinct(order) && SameChecks(order, checks) && Ordered(order, checks) && i < |checks|
    ensures Position(order, checks[i].id) >= i
    decreases |checks| - i
  {
    var p := Position(order, checks[i].id);
    if i == |checks| - 1 {
      Met(order, checks, i);
    } else {
      Fall(order, checks, i + 1);
      var q := Position(order, checks[i + 1].id);
      PositionInverse(order, checks[i + 1].id);
      if q > p + 1 { Met(order, checks, p + 1); }
    }
  }

  /** Any arrangement of the wanted checks sorted by position is the manifest's own order. */
  lemma SortedIsManifestOrder(order: seq<Id>, checks: seq<CheckResult>)
    requires Distinct(order) && SameChecks(order, checks) && Ordered(order, checks)
    ensures Ids(checks) == order
  {
    forall i | 0 <= i < |checks| ensures checks[i].id == order[i] {
      Climb(order, checks, i);
      Fall(order, checks, i);
      PositionInverse(order, checks[i].id);
    }
  }

  /** Sorting a result whose checks are the wanted ones puts them in manifest order. */
  lemma ArrangeSame(order: seq<Id>, checks: seq<CheckResult>)
    requires Distinct(order) && SameChecks(order, checks)
    ensures Ids(Arrange(order, checks)) == order
  {
    var r := Arrange(order, checks);
    ArrangeOrdered(order, checks);
    ArrangePermutes(order, checks);
    assert |r| == |checks| by {
      assert |multiset(r)| == |r| && |multiset(checks)| == |checks|;
    }
    forall id <- order ensures id in Ids(r) {
      var i :| 0 <= i < |checks| && Ids(checks)[i] == id;
      SameMembers(r, checks, checks[i]);
      var j :| 0 <= j < |r| && r[j] == checks[i];
      assert Ids(r)[j] == id;
    }
    forall c <- r ensures c.id in order {
      SameMembers(r, checks, c);
    }
    SortedIsManifestOrder(order, r);
  }
}
