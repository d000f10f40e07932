/**
 * Assembling the aggregate run: evidence is copied under one shared budget, results are matched against the
 * manifest, and the returned run passes exactly when the inputs are clean.
 */
module AggregateWrite {
  import opened Wrappers
  import opened Aggregate

  // ---------------------------------------------------------------- evidence

  function Join(path: string, part: string): string {
    path + "/" + part
  }

  ghost function Relative(scenario: Id, check: Id, evidence: string): string {
    "evidence/" + scenario + "/" + check + "/" + evidence
  }

  lemma JoinsRelative(scenario: Id, check: Id, evidence: string)
    ensures Join(Join(Join("evidence", scenario), check), evidence) == Relative(scenario, check, evidence)
  {
    assert "evidence" + "/" + scenario == "evidence/" + scenario;
  }

  ghost function Relocate(scenario: Id, check: Id, kept: seq<string>): seq<string> {
    seq(|kept|, i requires 0 <= i < |kept| => Relative(scenario, check, kept[i]))
  }

  ghost predicate Fits(b: Bundle, evidence: string, used: nat) {
    b.size(evidence).Some? && used + b.size(evidence).value <= MAX_BYTES
  }

  ghost function Bytes(b: Bundle, evidence: seq<string>): nat {
    if evidence == [] then 0
    else (match b.size(evidence[0]) case Some(n) => n case None => 0) + Bytes(b, evidence[1..])
  }

  /** What a left-to-right copy keeps, and the counter it leaves. */
  ghost function Copy(b: Bundle, evidence: seq<string>, used: nat): (seq<string>, nat) {
    if evidence == [] then ([], used)
    else if Fits(b, evidence[0], used) then
      var rest := Copy(b, evidence[1..], used + b.size(evidence[0]).value);
      ([evidence[0]] + rest.0, rest.1)
    else Copy(b, evidence[1..], used)
  }

  /** One file after the other: it is kept exactly when it is available and fits what the files kept before leave. */
  lemma {:induction false} CopyNext(b: Bundle, evidence: seq<string>, e: string, used: nat)
    ensures var (kept, total) := Copy(b, evidence, used);
            Copy(b, evidence + [e], used)
            == if b.size(e).Some? && total + b.size(e).value <= MAX_BYTES then (kept + [e], total + b.size(e).value)
               else (kept, total)
  {
    var all := evidence + [e];
    if evidence == [] {
      assert all == [e] == [e] + [] && all[1..] == [];
    } else {
      assert all[0] == evidence[0] && all[1..] == evidence[1..] + [e];
      if Fits(b, evidence[0], used) {
        var next := used + b.size(evidence[0]).value;
        CopyNext(b, evidence[1..], e, next);
        var kept := Copy(b, evidence[1..], next).0;
        assert [evidence[0]] + (kept + [e]) == [evidence[0]] + kept + [e];
      } else {
        CopyNext(b, evidence[1..], e, used);
      }
    }
  }

  ghost predicate Available(b: Bundle, evidence: seq<string>) {
    forall e <- evidence :: b.size(e).Some?
  }

  /** The counter grows by what was kept, never past the budget; nothing is dropped iff everything is available and fits. */
  lemma {:induction false} CopyExact(b: Bundle, evidence: seq<string>, used: nat)
    requires used <= MAX_BYTES
    ensures var (kept, total) := Copy(b, evidence, used);
            && total == used + Bytes(b, kept) <= MAX_BYTES
            && Available(b, kept) && |kept| <= |evidence|
            && (kept == evidence <==> Available(b, evidence) && used + Bytes(b, evidence) <= MAX_BYTES)
            && (|kept| == |evidence| ==> kept == evidence)
  {
    if evidence != [] {
      var rest := evidence[1..];
      assert evidence == [evidence[0]] + rest;
      assert Available(b, evidence) <==> b.size(evidence[0]).Some? && Available(b, rest);
      if Fits(b, evidence[0], used) {
        CopyExact(b, rest, used + b.size(evidence[0]).value);
        var kept := Copy(b, evidence, used).0;
        assert kept[1..] == Copy(b, rest, used + b.size(evidence[0]).value).0;
      } else {
        CopyExact(b, rest, used);
      }
    }
  }

  ghost function CopyCheck(b: Bundle, scenario: Id, check: CheckResult, used: nat): (CheckResult, nat) {
    var (kept, total) := Copy(b, check.evidence, used);
    (CheckResult(check.id, if kept == check.evidence then check.status else Error,
                 Relocate(scenario, check.id, kept)), total)
  }

  ghost function CopyChecks(b: Bundle, scenario: Id, checks: seq<CheckResult>, used: nat): (seq<CheckResult>, nat) {
    if checks == [] then ([], used)
    else
      var (first, next) := CopyCheck(b, scenario, checks[0], used);
      var (rest, total) := CopyChecks(b, scenario, checks[1..], next);
      ([first] + rest, total)
  }

  ghost function CheckBytes(b: Bundle, checks: seq<CheckResult>): nat {
    if checks == [] then 0 else Bytes(b, checks[0].evidence) + CheckBytes(b, checks[1..])
  }

  ghost predicate Sound(b: Bundle, check: CheckResult) {
    check.status == Passed && Available(b, check.evidence)
  }

  ghost predicate AllSound(b: Bundle, checks: seq<CheckResult>) {
    forall c <- checks :: Sound(b, c)
  }

  lemma CopyCheckExact(b: Bundle, scenario: Id, check: CheckResult, used: nat)
    requires used <= MAX_BYTES
    ensures var (copied, total) := CopyCheck(b, scenario, check, used);
            && copied.id == check.id && total <= MAX_BYTES
            && (copied.status == Passed <==> Sound(b, check) && used + Bytes(b, check.evidence) <= MAX_BYTES)
            && (copied.status == Passed ==> total == used + Bytes(b, check.evidence))
  {
    CopyExact(b, check.evidence, used);
  }

  lemma HeadTail(b: Bundle, checks: seq<CheckResult>)
    requires checks != []
    ensures ChecksPassed(checks) <==> checks[0].status == Passed && ChecksPassed(checks[1..])
    ensures AllSound(b, checks) <==> Sound(b, checks[0]) && AllSound(b, checks[1..])
    ensures Ids(checks) == [checks[0].id] + Ids(checks[1..])
  {
    assert checks == [checks[0]] + checks[1..];
  }

  /** Copying keeps every check's place; all stay green iff all were sound and their evidence fits together. */
  lemma {:induction false} CopyChecksExact(b: Bundle, scenario: Id, checks: seq<CheckResult>, used: nat)
    requires used <= MAX_BYTES
    ensures var (copied, total) := CopyChecks(b, scenario, checks, used);
            && Ids(copied) == Ids(checks) && total <= MAX_BYTES
            && (ChecksPassed(copied) <==> AllSound(b, checks) && used + CheckBytes(b, checks) <= MAX_BYTES)
            && (ChecksPassed(copied) ==> total == used + CheckBytes(b, checks))
  {
    if checks != [] {
      CopyCheckExact(b, scenario, checks[0], used);
      var (first, next) := CopyCheck(b, scenario, checks[0], used);
      CopyChecksExact(b, scenario, checks[1..], next);
      var copied := CopyChecks(b, scenario, checks, used).0;
      assert copied[1..] == CopyChecks(b, scenario, checks[1..], next).0;
      HeadTail(b, checks);
      HeadTail(b, copied);
    }
  }

  /** When all checks of a copied bundle pass, each lists its complete evidence under its relocated path. */
  lemma {:induction false} PassedKeepsEvidence(b: Bundle, scenario: Id, checks: seq<CheckResult>, used: nat, k: nat)
    requires used <= MAX_BYTES && k < |checks| && ChecksPassed(CopyChecks(b, scenario, checks, used).0)
    ensures var copied := CopyChecks(b, scenario, checks, used).0;
            |copied| == |checks| && copied[k].evidence == Relocate(scenario, checks[k].id, checks[k].evidence)
  {
    CopyChecksExact(b, scenario, checks, used);
    var copied := CopyChecks(b, scenario, checks, used).0;
    assert |copied| == |Ids(copied)| == |checks|;
    CopyCheckExact(b, scenario, checks[0], used);
    CopyExact(b, checks[0].evidence, used);
    var next := CopyCheck(b, scenario, checks[0], used).1;
    assert copied[1..] == CopyChecks(b, scenario, checks[1..], next).0;
    HeadTail(b, copied);
    if k > 0 { PassedKeepsEvidence(b, scenario, checks[1..], next, k - 1); }
  }

  /** Relocates one check's evidence, dropping what cannot be copied. */
  method CopyCheckEvidence(b: Bundle, scenario: Id, check: CheckResult, used: nat) returns (copied: CheckResult, total: nat)
    requires used <= MAX_BYTES
    ensures (copied, total) == CopyCheck(b, scenario, check, used)
  {
    var es := check.evidence;
    var status := check.status;
    var kept: seq<string> := [];
    var moved: seq<string> := [];
    total := used;
    assert es[0..] == es && kept + Copy(b, es, used).0 == Copy(b, es, used).0;
    for i := 0 to |es|
      invariant total <= MAX_BYTES && |kept| <= i
      invariant Copy(b, es, used) == (kept + Copy(b, es[i..], total).0, Copy(b, es[i..], total).1)
      invariant moved == Relocate(scenario, check.id, kept)
      invariant status == if |kept| == i then check.status else Error
    {
      assert es[i..][1..] == es[i + 1..];
      var size := b.size(es[i]);
      if size.Some? && total + size.value <= MAX_BYTES {
        assert kept + Copy(b, es[i..], total).0
            == kept + [es[i]] + Copy(b, es[i + 1..], total + b.size(es[i]).value).0;
        kept := kept + [es[i]];
        JoinsRelative(scenario, check.id, es[i]);
        moved := moved + [Join(Join(Join("evidence", scenario), check.id), es[i])];
        total := total + size.value;
      } else {
        status := Error;
      }
    }
    CopyExact(b, es, used);
    assert kept + [] == kept;
    copied := CheckResult(check.id, status, moved);
  }

  /** A bundle that no longer resolves is left alone; otherwise every check is copied in turn. */
  method CopyEvidence(b: Bundle, scenario: ScenarioResult, used: nat) returns (checks: seq<CheckResult>, total: nat)
    requires used <= MAX_BYTES
    ensures !b.resolves ==> checks == scenario.checks && total == used
    ensures b.resolves ==> (checks, total) == CopyChecks(b, scenario.id, scenario.checks, used)
  {
    if !b.resolves { return scenario.checks, used; }
    var all := scenario.checks;
    checks, total := [], used;
    assert all[0..] == all && checks + CopyChecks(b, scenario.id, all, used).0 == CopyChecks(b, scenario.id, all, used).0;
    for i := 0 to |all|
      invariant total <= MAX_BYTES
      invariant CopyChecks(b, scenario.id, all, used)
             == (checks + CopyChecks(b, scenario.id, all[i..], total).0, CopyChecks(b, scenario.id, all[i..], total).1)
    {
      assert all[i..][1..] == all[i + 1..];
      CopyCheckExact(b, scenario.id, all[i], total);
      ghost var before := total;
      var copied;
      copied, total := CopyCheckEvidence(b, scenario.id, all[i], total);
      assert checks + CopyChecks(b, scenario.id, all[i..], before).0
          == checks + [copied] + CopyChecks(b, scenario.id, all[i + 1..], total).0;
      checks := checks + [copied];
    }
    assert checks + [] == checks;
  }

  // ---------------------------------------------------------------- one scenario

  lemma {:induction false} InsertBytes(b: Bundle, order: seq<Id>, check: CheckResult, sorted: seq<CheckResult>)
    ensures CheckBytes(b, Insert(order, check, sorted)) == Bytes(b, check.evidence) + CheckBytes(b, sorted)
  {
    if sorted != [] && Position(order, check.id) > Position(order, sorted[0].id) {
      InsertBytes(b, order, check, sorted[1..]);
    }
  }

  lemma {:induction false} ArrangeBytes(b: Bundle, order: seq<Id>, checks: seq<CheckResult>)
    ensures CheckBytes(b, Arrange(order, checks)) == CheckBytes(b, checks)
  {
    if checks != [] {
      ArrangeBytes(b, order, checks[1..]);
      InsertBytes(b, order, checks[0], Arrange(order, checks[1..]));
    }
  }

  lemma ArrangeSound(b: Bundle, order: seq<Id>, checks: seq<CheckResult>)
    ensures AllSound(b, Arrange(order, checks)) <==> AllSound(b, checks)
    ensures ChecksPassed(Arrange(order, checks)) <==> ChecksPassed(checks)
  {
    ArrangePermutes(order, checks);
    forall c ensures c in Arrange(order, checks) <==> c in checks {
      SameMembers(Arrange(order, checks), checks, c);
    }
  }

  /** A result a wanted scenario may pass with. */
  ghost predicate GoodEntry(wanted: ExpectedScenario, e: Entry) {
    && SameChecks(wanted.checks, e.scenario.checks)
    && StagesPassed(e.scenario.stages) && ChecksPassed(e.scenario.checks)
    && (e.bundle.resolves ==> AllSound(e.bundle, e.scenario.checks))
  }

  ghost predicate Good(wanted: ExpectedScenario, entries: seq<Entry>) {
    |entries| == 1 && GoodEntry(wanted, entries[0])
  }

  ghost function EntryBytes(e: Entry): nat {
    if e.bundle.resolves then CheckBytes(e.bundle, e.scenario.checks) else 0
  }

  ghost function WantedBytes(entries: seq<Entry>): nat {
    if |entries| == 1 then EntryBytes(entries[0]) else 0
  }

  /** The wanted scenario and its checks, in the manifest's order, with the derived status. */
  ghost predicate Mirrors(wanted: ExpectedScenario, s: ScenarioResult) {
    s.id == wanted.id && Ids(s.checks) == wanted.checks && s.status == OutcomeOf(s)
  }

  /** A wanted scenario without a usable result: an error, with every check blocked and no evidence. */
  ghost predicate Unreported(wanted: ExpectedScenario, s: ScenarioResult) {
    && s.id == wanted.id && s.status == Error && s.stages == [StageResult("aggregate", Error)]
    && Ids(s.checks) == wanted.checks && forall check <- s.checks :: check.status == Blocked && check.evidence == []
  }

  method Synthetic(wanted: ExpectedScenario) returns (s: ScenarioResult)
    ensures Unreported(wanted, s) && OutcomeOf(s) == Error
  {
    var checks := seq(|wanted.checks|, i requires 0 <= i < |wanted.checks| => CheckResult(wanted.checks[i], Blocked, []));
    s := ScenarioResult(wanted.id, Error, [StageResult("aggregate", Error)], checks);
    assert s.stages[0] in s.stages;
  }

  /** The checks and counter an accepted result contributes. */
  ghost function Moved(b: Bundle, scenario: Id, checks: seq<CheckResult>, used: nat): (seq<CheckResult>, nat) {
    if b.resolves then CopyChecks(b, scenario, checks, used) else (checks, used)
  }

  lemma MovedExact(e: Entry, wanted: ExpectedScenario, used: nat)
    requires ValidScenario(wanted) && SameChecks(wanted.checks, e.scenario.checks) && used <= MAX_BYTES
    ensures var (checks, total) := Moved(e.bundle, e.scenario.id, Arrange(wanted.checks, e.scenario.checks), used);
            && Ids(checks) == wanted.checks && total <= MAX_BYTES
            && (ChecksPassed(checks) <==>
                  && ChecksPassed(e.scenario.checks) && (e.bundle.resolves ==> AllSound(e.bundle, e.scenario.checks))
                  && used + EntryBytes(e) <= MAX_BYTES)
            && (ChecksPassed(checks) ==> total == used + EntryBytes(e))
  {
    var checks := e.scenario.checks;
    ArrangeSame(wanted.checks, checks);
    ArrangeBytes(e.bundle, wanted.checks, checks);
    ArrangeSound(e.bundle, wanted.checks, checks);
    CopyChecksExact(e.bundle, e.scenario.id, Arrange(wanted.checks, checks), used);
    assert AllSound(e.bundle, checks) ==> ChecksPassed(checks);
  }

  /** A check as reported: the recorded one, with what was copied of its evidence, an error if that is not all. */
  ghost predicate CheckReported(b: Bundle, scenario: Id, recorded: CheckResult, used: nat, check: CheckResult) {
    && check.id == recorded.id
    && if !b.resolves then check == recorded
       else
         var kept := Copy(b, recorded.evidence, used).0;
         && check.evidence == Relocate(scenario, recorded.id, kept)
         && check.status == if kept == recorded.evidence then recorded.status else Error
  }

  /** The recorded check of this name, copied under what the checks before it left of the budget. */
  ghost predicate ReportedCheck(e: Entry, scenario: Id, id: Id, used: nat, check: CheckResult) {
    exists recorded <- e.scenario.checks :: recorded.id == id && CheckReported(e.bundle, scenario, recorded, used, check)
  }

  /** The budget used before check `k`. */
  ghost function UsedBefore(b: Bundle, checks: seq<CheckResult>, used: nat, k: nat): nat
    requires k <= |checks|
  {
    if k == 0 then used else Copy(b, checks[k - 1].evidence, UsedBefore(b, checks, used, k - 1)).1
  }

  lemma {:induction false} UsedTail(b: Bundle, scenario: Id, checks: seq<CheckResult>, used: nat, k: nat)
    requires 0 < k <= |checks|
    ensures UsedBefore(b, checks, used, k) == UsedBefore(b, checks[1..], CopyCheck(b, scenario, checks[0], used).1, k - 1)
  {
    if k > 1 { UsedTail(b, scenario, checks, used, k - 1); }
  }

  lemma {:induction false} CopyChecksAt(b: Bundle, scenario: Id, checks: seq<CheckResult>, used: nat, k: nat)
    requires k < |checks| && used <= MAX_BYTES && b.resolves
    ensures var copied := CopyChecks(b, scenario, checks, used).0;
            |copied| == |checks| && CheckReported(b, scenario, checks[k], UsedBefore(b, checks, used, k), copied[k])
    ensures CopyChecks(b, scenario, checks, used).1 == UsedBefore(b, checks, used, |checks|)
  {
    var next := CopyCheck(b, scenario, checks[0], used).1;
    CopyCheckExact(b, scenario, checks[0], used);
    UsedTail(b, scenario, checks, used, |checks|);
    if |checks| > 1 {
      CopyChecksAt(b, scenario, checks[1..], next, if k == 0 then 0 else k - 1);
      if k > 0 { UsedTail(b, scenario, checks, used, k); }
    }
  }

  /** An adopted result: its own stages, and each check as recorded, in manifest order. */
  ghost predicate Adopted(wanted: ExpectedScenario, e: Entry, used: nat, s: ScenarioResult) {
    var arranged := Arrange(wanted.checks, e.scenario.checks);
    && s.id == wanted.id && s.stages == e.scenario.stages && s.status == Outcome(s.stages, s.checks)
    && |s.checks| == |arranged| == |wanted.checks|
    && forall k :: 0 <= k < |s.checks| ==>
         ReportedCheck(e, wanted.id, wanted.checks[k], UsedBefore(e.bundle, arranged, used, k), s.checks[k])
  }

  lemma MovedAdopted(e: Entry, wanted: ExpectedScenario, used: nat, k: nat)
    requires ValidScenario(wanted) && SameChecks(wanted.checks, e.scenario.checks) && used <= MAX_BYTES && k < |wanted.checks|
    ensures var arranged := Arrange(wanted.checks, e.scenario.checks);
            var checks := Moved(e.bundle, wanted.id, arranged, used).0;
            && |checks| == |arranged| == |wanted.checks|
            && ReportedCheck(e, wanted.id, wanted.checks[k], UsedBefore(e.bundle, arranged, used, k), checks[k])
  {
    var arranged := Arrange(wanted.checks, e.scenario.checks);
    ArrangeSame(wanted.checks, e.scenario.checks);
    ArrangePermutes(wanted.checks, e.scenario.checks);
    assert |arranged| == |Ids(arranged)| && Ids(arranged)[k] == arranged[k].id;
    SameMembers(arranged, e.scenario.checks, arranged[k]);
    if e.bundle.resolves { CopyChecksAt(e.bundle, wanted.id, arranged, used, k); }
    var recorded := arranged[k];
    assert recorded in e.scenario.checks && recorded.id == wanted.checks[k];
  }

  lemma AdoptedExact(wanted: ExpectedScenario, e: Entry, used: nat, checks: seq<CheckResult>)
    requires ValidScenario(wanted) && SameChecks(wanted.checks, e.scenario.checks) && used <= MAX_BYTES
    requires checks == Moved(e.bundle, wanted.id, Arrange(wanted.checks, e.scenario.checks), used).0
    ensures Adopted(wanted, e, used,
                    ScenarioResult(wanted.id, Outcome(e.scenario.stages, checks), e.scenario.stages, checks))
    ensures UsedAfter(wanted, [e], used) == Moved(e.bundle, wanted.id, Arrange(wanted.checks, e.scenario.checks), used).1
  {
    var arranged := Arrange(wanted.checks, e.scenario.checks);
    forall k: nat | k < |wanted.checks|
      ensures |checks| == |arranged| == |wanted.checks|
      ensures ReportedCheck(e, wanted.id, wanted.checks[k], UsedBefore(e.bundle, arranged, used, k), checks[k])
    {
      MovedAdopted(e, wanted, used, k);
    }
    assert 0 < |wanted.checks|;
    MovedAdopted(e, wanted, used, 0);
    if e.bundle.resolves { CopyChecksAt(e.bundle, wanted.id, arranged, used, 0); }
  }

  /** The counter after a wanted scenario. */
  ghost function UsedAfter(wanted: ExpectedScenario, entries: seq<Entry>, used: nat): nat {
    if |entries| == 1 && SameChecks(wanted.checks, entries[0].scenario.checks) && entries[0].bundle.resolves then
      var arranged := Arrange(wanted.checks, entries[0].scenario.checks);
      UsedBefore(entries[0].bundle, arranged, used, |arranged|)
    else used
  }

  /** What is reported for a wanted scenario: its one result if that has exactly its checks, else nothing but an error. */
  ghost predicate Reported(wanted: ExpectedScenario, entries: seq<Entry>, used: nat, s: ScenarioResult) {
    if |entries| == 1 && SameChecks(wanted.checks, entries[0].scenario.checks) then Adopted(wanted, entries[0], used, s)
    else Unreported(wanted, s)
  }

  /** Adopts a result whose check set is exact. */
  method AdoptResult(wanted: ExpectedScenario, e: Entry, used: nat) returns (s: ScenarioResult, total: nat)
    requires ValidScenario(wanted) && used <= MAX_BYTES && e.scenario.id == wanted.id
    requires SameChecks(wanted.checks, e.scenario.checks)
    ensures Mirrors(wanted, s) && Adopted(wanted, e, used, s)
    ensures s.checks == Moved(e.bundle, wanted.id, Arrange(wanted.checks, e.scenario.checks), used).0
    ensures total <= MAX_BYTES && total == UsedAfter(wanted, [e], used)
    ensures OutcomeOf(s) == Passed <==> GoodEntry(wanted, e) && used + EntryBytes(e) <= MAX_BYTES
    ensures OutcomeOf(s) == Passed ==> total == used + EntryBytes(e)
  {
    var arranged := e.scenario.(checks := Arrange(wanted.checks, e.scenario.checks));
    var checks;
    checks, total := CopyEvidence(e.bundle, arranged, used);
    MovedExact(e, wanted, used);
    assert |checks| == |Ids(checks)| > 0;
    AdoptedExact(wanted, e, used, checks);
    s := ScenarioResult(e.scenario.id, Outcome(e.scenario.stages, checks), e.scenario.stages, checks);
  }

  /** Represents one wanted scenario: its checks in manifest order, passing iff its only result is good and fits. */
  method BuildScenario(wanted: ExpectedScenario, entries: seq<Entry>, used: nat)
    returns (s: ScenarioResult, total: nat)
    requires ValidScenario(wanted) && used <= MAX_BYTES && forall e <- entries :: e.scenario.id == wanted.id
    ensures Mirrors(wanted, s) && Reported(wanted, entries, used, s)
    ensures total <= MAX_BYTES && total == UsedAfter(wanted, entries, used)
    ensures OutcomeOf(s) == Passed <==> Good(wanted, entries) && used + WantedBytes(entries) <= MAX_BYTES
    ensures OutcomeOf(s) == Passed ==> total == used + WantedBytes(entries)
  {
    var usable := false;
    if |entries| == 1 { usable := CompareChecks(wanted.checks, entries[0].scenario.checks); }
    if usable {
      assert entries[0] in entries && entries == [entries[0]];
      s, total := AdoptResult(wanted, entries[0], used);
    } else {
      s := Synthetic(wanted);
      total := used;
    }
  }

  // ---------------------------------------------------------------- collecting results

  ghost predicate Belongs(m: Manifest, a: Artifact) {
    a.Valid? && a.run.runId == m.runId && a.run.sha == m.sha
  }

  ghost function Matching(b: Bundle, scenarios: seq<ScenarioResult>, id: Id): seq<Entry> {
    if scenarios == [] then []
    else
      var last := scenarios[|scenarios| - 1];
      Matching(b, scenarios[..|scenarios| - 1], id) + if last.id == id then [Entry(b, last)] else []
  }

  /** Every result recorded for a scenario, across all artifacts of this run. */
  ghost function Entries(m: Manifest, artifacts: seq<Artifact>, id: Id): seq<Entry> {
    if artifacts == [] then []
    else
      var last := artifacts[|artifacts| - 1];
      Entries(m, artifacts[..|artifacts| - 1], id)
      + if Belongs(m, last) then Matching(last.bundle, last.run.scenarios, id) else []
  }

  ghost predicate Reports(m: Manifest, a: Artifact, id: Id) {
    Belongs(m, a) && exists s <- a.run.scenarios :: s.id == id
  }

  lemma {:induction false} MatchingExact(b: Bundle, scenarios: seq<ScenarioResult>, id: Id)
    ensures forall e <- Matching(b, scenarios, id) :: e.scenario.id == id
    ensures Matching(b, scenarios, id) != [] <==> exists s <- scenarios :: s.id == id
  {
    if scenarios != [] {
      var init := scenarios[..|scenarios| - 1];
      MatchingExact(b, init, id);
      assert scenarios == init + [scenarios[|scenarios| - 1]];
    }
  }

  lemma {:induction false} EntriesExact(m: Manifest, artifacts: seq<Artifact>, id: Id)
    ensures forall e <- Entries(m, artifacts, id) :: e.scenario.id == id
    ensures Entries(m, artifacts, id) != [] <==> exists a <- artifacts :: Reports(m, a, id)
  {
    if artifacts != [] {
      var init, last := artifacts[..|artifacts| - 1], artifacts[|artifacts| - 1];
      EntriesExact(m, init, id);
      if Belongs(m, last) { MatchingExact(last.bundle, last.run.scenarios, id); }
      assert artifacts == init + [last];
      assert (exists a <- artifacts :: Reports(m, a, id)) <==> (exists a <- init :: Reports(m, a, id)) || Reports(m, last, id);
    }
  }

  type Index = map<Id, seq<Entry>>

  function Lookup(found: Index, id: Id): seq<Entry> {
    if id in found then found[id] else []
  }

  ghost predicate NoEmpty(found: Index) {
    forall id <- found :: found[id] != []
  }

  ghost predicate Filed(found: Index, r: Index, b: Bundle, scenarios: seq<ScenarioResult>) {
    forall id :: Lookup(r, id) == Lookup(found, id) + Matching(b, scenarios, id)
  }

  lemma FileNext(found: Index, r: Index, b: Bundle, scenarios: seq<ScenarioResult>, s: ScenarioResult)
    requires Filed(found, r, b, scenarios)
    ensures Filed(found, r[s.id := Lookup(r, s.id) + [Entry(b, s)]], b, scenarios + [s])
  {
    var next := r[s.id := Lookup(r, s.id) + [Entry(b, s)]];
    assert (scenarios + [s])[..|scenarios|] == scenarios;
    forall id ensures Lookup(next, id) == Lookup(found, id) + Matching(b, scenarios + [s], id) {
      var more := if s.id == id then [Entry(b, s)] else [];
      assert Lookup(next, id) == Lookup(r, id) + more;
      assert Matching(b, scenarios + [s], id) == Matching(b, scenarios, id) + more;
    }
  }

  method File(found: Index, b: Bundle, scenarios: seq<ScenarioResult>) returns (r: Index)
    requires NoEmpty(found)
    ensures NoEmpty(r) && Filed(found, r, b, scenarios)
  {
    r := found;
    for i := 0 to |scenarios|
      invariant NoEmpty(r) && Filed(found, r, b, scenarios[..i])
    {
      var s := scenarios[i];
      FileNext(found, r, b, scenarios[..i], s);
      assert scenarios[..i + 1] == scenarios[..i] + [s];
      r := r[s.id := Lookup(r, s.id) + [Entry(b, s)]];
    }
    assert scenarios[..|scenarios|] == scenarios;
  }

  /** Files every result under its scenario; anything unreadable or from another run is an error. */
  method Collect(m: Manifest, artifacts: seq<Artifact>, discoveryErrors: nat) returns (found: Index, errors: nat)
    ensures NoEmpty(found) && forall id :: Lookup(found, id) == Entries(m, artifacts, id)
    ensures errors == 0 <==> discoveryErrors == 0 && forall a <- artifacts :: Belongs(m, a)
  {
    found, errors := map[], discoveryErrors;
    for i := 0 to |artifacts|
      invariant NoEmpty(found) && forall id :: Lookup(found, id) == Entries(m, artifacts[..i], id)
      invariant errors == 0 <==> discoveryErrors == 0 && forall a <- artifacts[..i] :: Belongs(m, a)
    {
      var a := artifacts[i];
      assert artifacts[..i + 1] == artifacts[..i] + [a];
      assert artifacts[..i + 1][..i] == artifacts[..i];
      if a.Valid? && a.run.runId == m.runId && a.run.sha == m.sha {
        found := File(found, a.bundle, a.run.scenarios);
      } else {
        errors := errors + 1;
        assert forall id :: Entries(m, artifacts[..i + 1], id) == Entries(m, artifacts[..i], id) + [];
      }
    }
    assert artifacts[..|artifacts|] == artifacts;
  }

  // ---------------------------------------------------------------- the whole run

  ghost function WantedEntries(m: Manifest, artifacts: seq<Artifact>, k: nat): seq<Entry>
    requires k < |m.scenarios|
  {
    Entries(m, artifacts, m.scenarios[k].id)
  }

  ghost predicate GoodAt(m: Manifest, artifacts: seq<Artifact>, k: nat)
    requires k < |m.scenarios|
  {
    Good(m.scenarios[k], WantedEntries(m, artifacts, k))
  }

  /** Evidence recorded for the first `n` wanted scenarios. */
  ghost function TotalBytes(m: Manifest, artifacts: seq<Artifact>, n: nat): nat
    requires n <= |m.scenarios|
  {
    if n == 0 then 0 else TotalBytes(m, artifacts, n - 1) + WantedBytes(WantedEntries(m, artifacts, n - 1))
  }

  ghost predicate AllGood(m: Manifest, artifacts: seq<Artifact>, n: nat)
    requires n <= |m.scenarios|
  {
    (forall k: nat :: k < n ==> GoodAt(m, artifacts, k)) && TotalBytes(m, artifacts, n) <= MAX_BYTES
  }

  /** The results are the first scenarios of the manifest and their checks, in the manifest's order. */
  ghost predicate Listed(m: Manifest, results: seq<ScenarioResult>) {
    |results| <= |m.scenarios| && forall k :: 0 <= k < |results| ==> Mirrors(m.scenarios[k], results[k])
  }

  /** The counter before wanted scenario `n`. */
  ghost function UsedAt(m: Manifest, artifacts: seq<Artifact>, n: nat): nat
    requires n <= |m.scenarios|
  {
    if n == 0 then 0 else UsedAfter(m.scenarios[n - 1], WantedEntries(m, artifacts, n - 1), UsedAt(m, artifacts, n - 1))
  }

  ghost predicate ReportedAt(m: Manifest, artifacts: seq<Artifact>, k: nat, s: ScenarioResult)
    requires k < |m.scenarios|
  {
    Reported(m.scenarios[k], WantedEntries(m, artifacts, k), UsedAt(m, artifacts, k), s)
  }

  ghost predicate AllReported(m: Manifest, artifacts: seq<Artifact>, results: seq<ScenarioResult>)
    requires |results| <= |m.scenarios|
  {
    forall k: nat :: k < |results| ==> ReportedAt(m, artifacts, k, results[k])
  }

  lemma ReportedNext(m: Manifest, artifacts: seq<Artifact>, results: seq<ScenarioResult>, s: ScenarioResult)
    requires |results| < |m.scenarios| && AllReported(m, artifacts, results)
    requires ReportedAt(m, artifacts, |results|, s)
    ensures AllReported(m, artifacts, results + [s])
  {
    forall k: nat | k < |results| + 1 ensures ReportedAt(m, artifacts, k, (results + [s])[k]) {
      if k < |results| { assert ReportedAt(m, artifacts, k, results[k]); }
    }
  }

  ghost predicate AllPass(results: seq<ScenarioResult>) {
    forall k :: 0 <= k < |results| ==> OutcomeOf(results[k]) == Passed
  }

  /** What holds once a prefix of the manifest has been assembled. */
  ghost predicate Tally(m: Manifest, artifacts: seq<Artifact>, results: seq<ScenarioResult>, copied: nat)
    requires |results| <= |m.scenarios|
  {
    && copied <= MAX_BYTES
    && (AllPass(results) <==> AllGood(m, artifacts, |results|))
    && (AllPass(results) ==> copied == TotalBytes(m, artifacts, |results|))
  }

  lemma TallyNext(m: Manifest, artifacts: seq<Artifact>, results: seq<ScenarioResult>, copied: nat,
                  s: ScenarioResult, total: nat)
    requires |results| < |m.scenarios| && Tally(m, artifacts, results, copied)
    requires var bytes := WantedBytes(WantedEntries(m, artifacts, |results|));
             && total <= MAX_BYTES
             && (OutcomeOf(s) == Passed <==> GoodAt(m, artifacts, |results|) && copied + bytes <= MAX_BYTES)
             && (OutcomeOf(s) == Passed ==> total == copied + bytes)
    ensures Tally(m, artifacts, results + [s], total)
  {
    var next := results + [s];
    assert AllPass(next) <==> AllPass(results) && OutcomeOf(s) == Passed by {
      assert next[|results|] == s;
      assert forall k :: 0 <= k < |results| ==> next[k] == results[k];
    }
  }

  ghost predicate Taken(m: Manifest, n: nat, id: Id)
    requires n <= |m.scenarios|
  {
    exists k :: 0 <= k < n && m.scenarios[k].id == id
  }

  /** The index without the first `n` wanted scenarios. */
  ghost predicate Remaining(m: Manifest, n: nat, found: Index, rest: Index)
    requires n <= |m.scenarios|
  {
    && (forall id :: id in rest <==> id in found && !Taken(m, n, id))
    && forall id <- rest :: rest[id] == found[id]
  }

  lemma RemainingNext(m: Manifest, n: nat, found: Index, rest: Index)
    requires ValidManifest(m) && n < |m.scenarios| && Remaining(m, n, found, rest)
    ensures Lookup(rest, m.scenarios[n].id) == Lookup(found, m.scenarios[n].id)
    ensures Remaining(m, n + 1, found, rest - {m.scenarios[n].id})
  {
    var ids := ScenarioIds(m.scenarios);
    assert !Taken(m, n, m.scenarios[n].id) by {
      assert forall k :: 0 <= k < n ==> ids[k] != ids[n];
      assert forall k :: 0 <= k < n ==> ids[k] == m.scenarios[k].id;
    }
    assert forall id :: Taken(m, n + 1, id) <==> Taken(m, n, id) || id == m.scenarios[n].id;
  }

  /** What holds of the results, the index and the counter once a prefix of the manifest has been taken. */
  ghost predicate Progress(m: Manifest, artifacts: seq<Artifact>, found: Index,
                           results: seq<ScenarioResult>, rest: Index, copied: nat)
  {
    && |results| <= |m.scenarios| && Listed(m, results)
    && Tally(m, artifacts, results, copied) && copied == UsedAt(m, artifacts, |results|)
    && AllReported(m, artifacts, results)
    && Remaining(m, |results|, found, rest)
  }

  method AssembleNext(m: Manifest, i: nat, entries: seq<Entry>, ghost artifacts: seq<Artifact>, used: nat)
    returns (s: ScenarioResult, total: nat)
    requires ValidManifest(m) && i < |m.scenarios| && used <= MAX_BYTES && used == UsedAt(m, artifacts, i)
    requires entries == WantedEntries(m, artifacts, i)
    ensures Mirrors(m.scenarios[i], s) && total <= MAX_BYTES
    ensures ReportedAt(m, artifacts, i, s) && total == UsedAt(m, artifacts, i + 1)
    ensures OutcomeOf(s) == Passed <==> GoodAt(m, artifacts, i) && used + WantedBytes(entries) <= MAX_BYTES
    ensures OutcomeOf(s) == Passed ==> total == used + WantedBytes(entries)
  {
    assert m.scenarios[i] in m.scenarios;
    EntriesExact(m, artifacts, m.scenarios[i].id);
    s, total := BuildScenario(m.scenarios[i], entries, used);
  }

  lemma ProgressNext(m: Manifest, artifacts: seq<Artifact>, found: Index,
                     results: seq<ScenarioResult>, rest: Index, copied: nat, s: ScenarioResult, total: nat)
    requires ValidManifest(m) && Progress(m, artifacts, found, results, rest, copied) && |results| < |m.scenarios|
    requires Mirrors(m.scenarios[|results|], s) && ReportedAt(m, artifacts, |results|, s)
    requires total == UsedAt(m, artifacts, |results| + 1)
    requires Tally(m, artifacts, results + [s], total)
    ensures Progress(m, artifacts, found, results + [s], rest - {m.scenarios[|results|].id}, total)
  {
    RemainingNext(m, |results|, found, rest);
    ReportedNext(m, artifacts, results, s);
  }

  /** Takes the next wanted scenario out of the index. */
  method TakeNext(m: Manifest, ghost found: Index, ghost artifacts: seq<Artifact>,
                  before: seq<ScenarioResult>, left: Index, used: nat)
    returns (results: seq<ScenarioResult>, rest: Index, copied: nat)
    requires ValidManifest(m) && |before| < |m.scenarios|
    requires Lookup(found, m.scenarios[|before|].id) == WantedEntries(m, artifacts, |before|)
    requires Progress(m, artifacts, found, before, left, used)
    ensures Progress(m, artifacts, found, results, rest, copied) && |results| == |before| + 1
  {
    var wanted := m.scenarios[|before|].id;
    RemainingNext(m, |before|, found, left);
    var s;
    s, copied := AssembleNext(m, |before|, Lookup(left, wanted), artifacts, used);
    TallyNext(m, artifacts, before, used, s, copied);
    ProgressNext(m, artifacts, found, before, left, used, s, copied);
    results, rest := before + [s], left - {wanted};
  }

  /** Takes the wanted scenarios in manifest order out of the index. */
  method Assemble(m: Manifest, found: Index, ghost artifacts: seq<Artifact>)
    returns (results: seq<ScenarioResult>, rest: Index, copied: nat)
    requires ValidManifest(m)
    requires forall id :: Lookup(found, id) == Entries(m, artifacts, id)
    ensures |results| == |m.scenarios| && Progress(m, artifacts, found, results, rest, copied)
  {
    results, rest, copied := [], found, 0;
    for i := 0 to |m.scenarios|
      invariant |results| == i && Progress(m, artifacts, found, results, rest, copied)
    {
      results, rest, copied := TakeNext(m, found, artifacts, results, rest, copied);
    }
  }

  /** What was found below the results directory. */
  datatype Results = Results(artifacts: seq<Artifact>, discoveryErrors: nat)

  function WithoutIntegrity(stages: seq<StageResult>): (r: seq<StageResult>)
    ensures forall stage <- r :: stage.id != "aggregate-integrity" && stage in stages
    ensures forall stage <- stages :: stage.id != "aggregate-integrity" ==> stage in r
  {
    if stages == [] then []
    else (if stages[0].id == "aggregate-integrity" then [] else [stages[0]]) + WithoutIntegrity(stages[1..])
  }

  /** One stage after the other: the others stay, in their order. */
  lemma {:induction false} WithoutIntegrityNext(stages: seq<StageResult>, stage: StageResult)
    ensures WithoutIntegrity(stages + [stage])
         == if stage.id == "aggregate-integrity" then WithoutIntegrity(stages) else WithoutIntegrity(stages) + [stage]
  {
    var all := stages + [stage];
    if stages == [] {
      assert all == [stage] && all[1..] == [];
    } else {
      assert all[0] == stages[0] && all[1..] == stages[1..] + [stage];
      WithoutIntegrityNext(stages[1..], stage);
    }
  }

  /** The same scenario with the one integrity stage, in error, at the end. */
  ghost predicate Marked(s: ScenarioResult, r: ScenarioResult) {
    && r.id == s.id && r.checks == s.checks && r.status == Error
    && r.stages == WithoutIntegrity(s.stages) + [StageResult("aggregate-integrity", Error)]
  }

  /** Records collection errors on a scenario, which then cannot pass. */
  method MarkIntegrity(s: ScenarioResult) returns (r: ScenarioResult)
    ensures Marked(s, r) && OutcomeOf(r) == Error
  {
    var stages := WithoutIntegrity(s.stages) + [StageResult("aggregate-integrity", Error)];
    assert stages[|stages| - 1] in stages;
    r := ScenarioResult(s.id, Outcome(stages, s.checks), stages, s.checks);
  }

  ghost predicate Unexpected(m: Manifest, artifacts: seq<Artifact>) {
    exists a <- artifacts, id :: Reports(m, a, id) && !Taken(m, |m.scenarios|, id)
  }

  /** Something found is not a readable, wanted result of this run. */
  ghost predicate Faulty(m: Manifest, r: Results) {
    r.discoveryErrors != 0 || (exists a <- r.artifacts :: !Belongs(m, a)) || Unexpected(m, r.artifacts)
  }

  /** Each wanted scenario as reported, the first one marked when the results are faulty. */
  ghost predicate Gathered(m: Manifest, r: Results, k: nat, s: ScenarioResult)
    requires k < |m.scenarios|
  {
    if k == 0 && Faulty(m, r) then exists plain :: ReportedAt(m, r.artifacts, k, plain) && Marked(plain, s)
    else ReportedAt(m, r.artifacts, k, s)
  }

  ghost predicate AllGathered(m: Manifest, r: Results, results: seq<ScenarioResult>)
    requires |results| <= |m.scenarios|
  {
    forall k: nat :: k < |results| ==> Gathered(m, r, k, results[k])
  }

  /** Every artifact is readable, of this run and wanted; every wanted scenario has one good result; evidence fits. */
  ghost predicate Clean(m: Manifest, r: Results) {
    && r.discoveryErrors == 0
    && (forall a <- r.artifacts :: Belongs(m, a))
    && !Unexpected(m, r.artifacts)
    && AllGood(m, r.artifacts, |m.scenarios|)
  }

  lemma LeftoverExact(m: Manifest, artifacts: seq<Artifact>, found: Index, rest: Index)
    requires NoEmpty(found) && forall id :: Lookup(found, id) == Entries(m, artifacts, id)
    requires Remaining(m, |m.scenarios|, found, rest)
    ensures |rest| != 0 <==> Unexpected(m, artifacts)
  {
    if id :| id in rest {
      EntriesExact(m, artifacts, id);
      assert found[id] == Lookup(found, id) != [];
      var a :| a in artifacts && Reports(m, a, id);
      assert Unexpected(m, artifacts);
    }
    if Unexpected(m, artifacts) {
      var a, id :| a in artifacts && Reports(m, a, id) && !Taken(m, |m.scenarios|, id);
      EntriesExact(m, artifacts, id);
      assert id in rest;
    }
  }

  method Synthesize(m: Manifest) returns (results: seq<ScenarioResult>)
    requires ValidManifest(m)
    ensures |results| == |m.scenarios| && Listed(m, results) && !AllPass(results)
    ensures forall k :: 0 <= k < |results| ==> Unreported(m.scenarios[k], results[k])
  {
    results := [];
    for i := 0 to |m.scenarios|
      invariant |results| == i && Listed(m, results)
      invariant forall k :: 0 <= k < i ==> Unreported(m.scenarios[k], results[k]) && OutcomeOf(results[k]) == Error
    {
      var s := Synthetic(m.scenarios[i]);
      results := results + [s];
    }
    assert OutcomeOf(results[0]) == Error;
  }

  /** Marking touches the first scenario only. */
  lemma GatheredMarked(m: Manifest, r: Results, results: seq<ScenarioResult>, marked: ScenarioResult)
    requires 0 < |results| <= |m.scenarios| && Listed(m, results) && AllReported(m, r.artifacts, results)
    requires Faulty(m, r) && Marked(results[0], marked) && OutcomeOf(marked) == Error
    ensures var noted := results[0 := marked];
            Listed(m, noted) && AllGathered(m, r, noted) && !AllPass(noted)
  {
    var noted := results[0 := marked];
    forall k: nat | k < |noted| ensures Gathered(m, r, k, noted[k]) {
      assert ReportedAt(m, r.artifacts, k, results[k]);
    }
    assert OutcomeOf(noted[0]) == Error;
  }

  method Gather(m: Manifest, r: Results) returns (results: seq<ScenarioResult>, copied: nat)
    requires ValidManifest(m)
    ensures |results| == |m.scenarios| && Listed(m, results) && copied <= MAX_BYTES
    ensures copied == UsedAt(m, r.artifacts, |m.scenarios|)
    ensures AllGathered(m, r, results)
    ensures AllPass(results) <==> Clean(m, r)
  {
    var found, errors := Collect(m, r.artifacts, r.discoveryErrors);
    var rest;
    results, rest, copied := Assemble(m, found, r.artifacts);
    LeftoverExact(m, r.artifacts, found, rest);
    errors := errors + |rest|;
    assert errors != 0 <==> Faulty(m, r);
    if errors != 0 {
      var marked := MarkIntegrity(results[0]);
      GatheredMarked(m, r, results, marked);
      results := results[0 := marked];
    }
  }

  /** The report of a run whose manifest is not acceptable. */
  ghost function Untrusted(): RunResult {
    RunResult(1, "aggregate-error", "unknown",
              [ScenarioResult("aggregate-error", Error, [StageResult("aggregate", Error)],
                              [CheckResult("artifact-integrity", Error, [])])])
  }

  lemma UntrustedFails()
    ensures !RunPassed(Untrusted())
  {
    var s := Untrusted().scenarios[0];
    assert s.checks[0] in s.checks && s.stages[0] in s.stages;
    assert OutcomeOf(s) != Passed && s in Untrusted().scenarios;
  }

  lemma RunOutcome(run: RunResult)
    ensures RunPassed(run) <==> run.schemaVersion == 1 && run.scenarios != [] && AllPass(run.scenarios)
  {
  }

  /**
   * Aggregates a sharded run. With an acceptable manifest the result always mirrors it, so the publisher's
   * ordered comparison succeeds, and it passes exactly when the artifacts are clean. What it says of each
   * scenario is what its one result recorded, or that there was none to use.
   */
  method Write(manifest: Option<Manifest>, results: Option<Results>) returns (run: RunResult, copied: nat)
    ensures copied <= MAX_BYTES
    ensures !(manifest.Some? && ValidManifest(manifest.value)) ==> !RunPassed(run) && run == Untrusted() && copied == 0
    ensures manifest.Some? && ValidManifest(manifest.value) ==>
              var m := manifest.value;
              && run.runId == m.runId && run.sha == m.sha
              && |run.scenarios| == |m.scenarios| && Listed(m, run.scenarios)
              && (RunPassed(run) <==> results.Some? && Clean(m, results.value))
    ensures manifest.Some? && ValidManifest(manifest.value) && results.None? ==>
              var m := manifest.value;
              copied == 0 && forall k :: 0 <= k < |m.scenarios| ==> Unreported(m.scenarios[k], run.scenarios[k])
    ensures manifest.Some? && ValidManifest(manifest.value) && results.Some? ==>
              var m, r := manifest.value, results.value;
              && copied == UsedAt(m, r.artifacts, |m.scenarios|)
              && AllGathered(m, r, run.scenarios)
  {
    copied := 0;
    var accepted := false;
    if manifest.Some? { accepted := LoadExpected(manifest.value); }
    if !accepted {
      var checks := [CheckResult("artifact-integrity", Error, [])];
      var s := ScenarioResult("aggregate-error", Error, [StageResult("aggregate", Error)], checks);
      run := RunResult(1, "aggregate-error", "unknown", [s]);
      UntrustedFails();
      return;
    }
    var m := manifest.value;
    var scenarios;
    if results.None? {
      scenarios := Synthesize(m);
    } else {
      scenarios, copied := Gather(m, results.value);
    }
    run := RunResult(1, m.runId, m.sha, scenarios);
    RunOutcome(run);
  }

  // ---------------------------------------------------------------- relocated paths

  lemma SplitUnique(a: string, x: string, b: string, y: string)
    requires '/' !in a && '/' !in b && a + "/" + x == b + "/" + y
    ensures a == b && x == y
  {
    var path := a + "/" + x;
    assert path[|a|] == '/' == path[|b|];
    assert |a| == |b|;
    assert a == path[..|a|] == b;
    assert x == path[|a| + 1..] == y;
  }

  lemma SafeHasNoSlash(id: Id)
    requires SafeId(id)
    ensures '/' !in id
  {
    assert !SafeChar('/');
  }

  /** Safe identifiers hold no separator, so a relocated path names its scenario, its check and its file. */
  lemma RelativeInjective(s: Id, c: Id, e: string, t: Id, d: Id, f: string)
    requires SafeId(s) && SafeId(c) && SafeId(t) && SafeId(d)
    requires Relative(s, c, e) == Relative(t, d, f)
    ensures s == t && c == d && e == f
  {
    SafeHasNoSlash(s);
    SafeHasNoSlash(c);
    SafeHasNoSlash(t);
    SafeHasNoSlash(d);
    var rest, other := c + "/" + e, d + "/" + f;
    assert Relative(s, c, e) == "evidence" + "/" + (s + "/" + rest);
    assert Relative(t, d, f) == "evidence" + "/" + (t + "/" + other);
    SplitUnique("evidence", s + "/" + rest, "evidence", t + "/" + other);
    SplitUnique(s, rest, t, other);
    SplitUnique(c, e, d, f);
  }

  lemma ReportedNamed(wanted: ExpectedScenario, entries: seq<Entry>, used: nat, s: ScenarioResult, c: nat, path: string)
    returns (e: string)
    requires forall entry <- entries :: entry.bundle.resolves
    requires Reported(wanted, entries, used, s) && c < |s.checks| && path in s.checks[c].evidence
    ensures |s.checks| == |wanted.checks| && path == Relative(wanted.id, wanted.checks[c], e)
  {
    assert s.checks[c] in s.checks;
    assert entries[0] in entries;
    var arranged := Arrange(wanted.checks, entries[0].scenario.checks);
    var before := UsedBefore(entries[0].bundle, arranged, used, c);
    assert ReportedCheck(entries[0], wanted.id, wanted.checks[c], before, s.checks[c]);
    var recorded :| recorded in entries[0].scenario.checks && recorded.id == wanted.checks[c]
                    && CheckReported(entries[0].bundle, wanted.id, recorded, before, s.checks[c]);
    var kept := Copy(entries[0].bundle, recorded.evidence, before).0;
    var i :| 0 <= i < |kept| && Relocate(wanted.id, recorded.id, kept)[i] == path;
    e := kept[i];
  }

  lemma GatheredNamed(m: Manifest, r: Results, k: nat, s: ScenarioResult, c: nat, path: string) returns (e: string)
    requires AllResolve(r.artifacts) && k < |m.scenarios| && Gathered(m, r, k, s)
    requires c < |s.checks| && path in s.checks[c].evidence
    ensures |s.checks| == |m.scenarios[k].checks| && path == Relative(m.scenarios[k].id, m.scenarios[k].checks[c], e)
  {
    EntriesResolve(m, r.artifacts, m.scenarios[k].id);
    var plain := s;
    if k == 0 && Faulty(m, r) {
      plain :| ReportedAt(m, r.artifacts, k, plain) && Marked(plain, s);
    }
    e := ReportedNamed(m.scenarios[k], WantedEntries(m, r.artifacts, k), UsedAt(m, r.artifacts, k), plain, c, path);
  }

  /** While every bundle resolves, no two checks of the report list the same path. */
  lemma NoCollisions(m: Manifest, r: Results, results: seq<ScenarioResult>, k: nat, c: nat, l: nat, d: nat, path: string)
    requires ValidManifest(m) && AllResolve(r.artifacts)
    requires |results| == |m.scenarios| && AllGathered(m, r, results)
    requires k < |results| && c < |results[k].checks| && path in results[k].checks[c].evidence
    requires l < |results| && d < |results[l].checks| && path in results[l].checks[d].evidence
    ensures k == l && c == d
  {
    var e := GatheredNamed(m, r, k, results[k], c, path);
    var f := GatheredNamed(m, r, l, results[l], d, path);
    var one, other := m.scenarios[k], m.scenarios[l];
    assert ValidScenario(one) && ValidScenario(other);
    assert one.checks[c] in one.checks && other.checks[d] in other.checks;
    RelativeInjective(one.id, one.checks[c], e, other.id, other.checks[d], f);
    var ids := ScenarioIds(m.scenarios);
    assert ids[k] == ids[l];
  }

  // ---------------------------------------------------------------- bundles that resolve

  ghost predicate AllResolve(artifacts: seq<Artifact>) {
    forall a <- artifacts :: a.Valid? ==> a.bundle.resolves
  }

  lemma {:induction false} MatchingBundle(b: Bundle, scenarios: seq<ScenarioResult>, id: Id)
    ensures forall e <- Matching(b, scenarios, id) :: e.bundle == b
  {
    if scenarios != [] { MatchingBundle(b, scenarios[..|scenarios| - 1], id); }
  }

  lemma {:induction false} EntriesResolve(m: Manifest, artifacts: seq<Artifact>, id: Id)
    requires AllResolve(artifacts)
    ensures forall e <- Entries(m, artifacts, id) :: e.bundle.resolves
  {
    if artifacts != [] {
      var init, last := artifacts[..|artifacts| - 1], artifacts[|artifacts| - 1];
      assert artifacts == init + [last];
      EntriesResolve(m, init, id);
      if Belongs(m, last) { MatchingBundle(last.bundle, last.run.scenarios, id); }
    }
  }

  /** Exactly one result, of exactly the wanted checks, with all stages and checks passed and all evidence there. */
  ghost predicate Vouched(wanted: ExpectedScenario, entries: seq<Entry>) {
    && |entries| == 1 && SameChecks(wanted.checks, entries[0].scenario.checks)
    && StagesPassed(entries[0].scenario.stages) && AllSound(entries[0].bundle, entries[0].scenario.checks)
  }

  /** While every bundle resolves, a clean run is one whose every scenario is vouched for by all its evidence. */
  lemma CleanResolved(m: Manifest, r: Results)
    requires AllResolve(r.artifacts)
    ensures Clean(m, r) <==>
              && r.discoveryErrors == 0 && (forall a <- r.artifacts :: Belongs(m, a)) && !Unexpected(m, r.artifacts)
              && (forall k: nat :: k < |m.scenarios| ==> Vouched(m.scenarios[k], WantedEntries(m, r.artifacts, k)))
              && TotalBytes(m, r.artifacts, |m.scenarios|) <= MAX_BYTES
  {
    forall k: nat | k < |m.scenarios|
      ensures GoodAt(m, r.artifacts, k) <==> Vouched(m.scenarios[k], WantedEntries(m, r.artifacts, k))
    {
      EntriesResolve(m, r.artifacts, m.scenarios[k].id);
    }
  }

  /**
   * Evidence is vouched for only while its bundle resolves: here the recorded file is missing and the run is clean.
   * A bundle whose result was just read stops resolving only when something changes it meanwhile.
   */
  lemma UnresolvedBundlePasses(m: Manifest, a: Artifact)
    requires m == Manifest(1, "run", "sha", [ExpectedScenario("s", ["c"])])
    requires a == Valid(RunResult(1, "run", "sha", [ScenarioResult("s", Passed, [], [CheckResult("c", Passed, ["log"])])]),
                        Bundle(false, (path: string) => None))
    ensures ValidManifest(m) && Clean(m, Results([a], 0))
    ensures !Available(a.bundle, a.run.scenarios[0].checks[0].evidence)
  {
    var wanted, s := m.scenarios[0], a.run.scenarios[0];
    assert Entries(m, [a], "s") == [Entry(a.bundle, s)] by {
      assert [a][..0] == [] && a.run.scenarios[..0] == [];
      assert Matching(a.bundle, [s], "s") == [] + [Entry(a.bundle, s)];
    }
    assert SameChecks(wanted.checks, s.checks) by {
      assert Ids(s.checks)[0] == "c" == wanted.checks[0];
    }
    assert GoodAt(m, [a], 0);
    assert TotalBytes(m, [a], 1) == 0;
    assert Taken(m, 1, "s");
    assert "log" in s.checks[0].evidence;
  }
}
