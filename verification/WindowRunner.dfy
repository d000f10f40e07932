/**
 * Running a scenario's checks inside their fork windows.
 *
 * The builder's answers, the deadline tests and the outcome of each check are inputs; the state is the scenario
 * result the runner updates in place, with the samples and check runs it records in order.
 */
module WindowRunner {
  import opened Wrappers

  datatype Status = Passed | Failed | Error | Blocked | Cancelled

  datatype Block = Block(number: nat, timestamp: nat)

  /** One request for the builder's head; `late` and `expired` are the deadline tests after a failure and after the poll. */
  datatype Poll = Poll(answer: Option<Block>, late: bool, expired: bool)

  datatype Start = Anytime | Before(fork: string) | After(fork: string)

  datatype Fork = Fork(name: string, activation: nat)

  datatype Opening = Open | Skip(status: Status) | Abort

  /**
   * Observations in order: a builder head, polled to open a window of a fork or else to confirm a check; a failed
   * request; a check that ran with a minimum block timestamp.
   */
  datatype Event = Saw(block: Block, opening: Option<nat>) | Missed | Ran(check: nat, minimum: nat, status: Status)

  /** What one check meets: whether the deadline has passed, its window, its outcome and the confirmation afterwards. */
  datatype Script = Script(expired: bool, window: seq<Poll>, outcome: nat -> Status, confirm: seq<Poll>)

  /** The deadline is reached while polling. */
  ghost predicate Bounded(polls: seq<Poll>) {
    polls != [] && polls[|polls| - 1].expired
  }

  function Find(forks: seq<Fork>, name: string): (r: Option<nat>)
    ensures r.Some? ==> r.value < |forks| && forks[r.value].name == name && forall i :: 0 <= i < r.value ==> forks[i].name != name
    ensures r.None? ==> forall f <- forks :: f.name != name
  {
    if forks == [] then None
    else if forks[0].name == name then Some(0)
    else match Find(forks[1..], name) case Some(i) => Some(i + 1) case None => None
  }

  // ---------------------------------------------------------------- what the windows mean

  ghost predicate Waiting(polls: seq<Poll>, k: nat)
    requires k <= |polls|
  {
    forall j :: 0 <= j < k ==> !polls[j].expired
  }

  ghost predicate Below(p: Poll, boundary: nat) {
    p.answer.Some? && p.answer.value.timestamp < boundary
  }

  ghost predicate Reached(p: Poll, boundary: nat) {
    p.answer.Some? && p.answer.value.timestamp >= boundary
  }

  /** The first head the builder reports, before the deadline, is below the boundary. */
  ghost predicate BelowFirst(polls: seq<Poll>, boundary: nat) {
    exists k :: 0 <= k < |polls| && Waiting(polls, k) && Below(polls[k], boundary)
             && forall j :: 0 <= j < k ==> polls[j].answer.None?
  }

  /** Some head reported before the deadline is at or past the boundary. */
  ghost predicate ReachesBoundary(polls: seq<Poll>, boundary: nat) {
    exists k :: 0 <= k < |polls| && Waiting(polls, k) && Reached(polls[k], boundary)
  }

  /** Of the first `n` polls the last answer is `j`, later failures being cut short by the deadline. */
  ghost predicate LastAnswer(polls: seq<Poll>, n: nat, j: int)
    requires n <= |polls|
  {
    0 <= j < n && polls[j].answer.Some? && forall k :: j < k < n ==> polls[k].answer.None? && polls[k].late
  }

  ghost predicate Answering(polls: seq<Poll>, n: nat)
    requires n <= |polls|
  {
    exists j :: LastAnswer(polls, n, j)
  }

  lemma AnsweringNext(polls: seq<Poll>, n: nat)
    requires n < |polls|
    ensures Answering(polls, n + 1) <==> polls[n].answer.Some? || (polls[n].late && Answering(polls, n))
  {
    if polls[n].answer.Some? {
      assert LastAnswer(polls, n + 1, n);
    } else if polls[n].late && Answering(polls, n) {
      var j :| LastAnswer(polls, n, j);
      assert LastAnswer(polls, n + 1, j);
    }
    var next := n + 1;
    if Answering(polls, next) {
      var j :| LastAnswer(polls, next, j);
      assert j == n || LastAnswer(polls, n, j);
    }
  }

  ghost predicate Expires(polls: seq<Poll>, e: nat) {
    e < |polls| && Waiting(polls, e) && polls[e].expired
  }

  /** The deadline came while the builder was still answering. */
  ghost predicate Responsive(polls: seq<Poll>) {
    exists e: nat :: Expires(polls, e) && Answering(polls, e + 1)
  }

  /** Nothing after the deadline's poll counts. */
  lemma ExpiryDecides(polls: seq<Poll>, e: nat, boundary: nat)
    requires Expires(polls, e)
    requires forall j :: 0 <= j <= e ==> !Reached(polls[j], boundary)
    ensures !ReachesBoundary(polls, boundary)
    ensures Responsive(polls) <==> Answering(polls, e + 1)
    ensures (forall j :: 0 <= j <= e ==> polls[j].answer.None?) ==> !BelowFirst(polls, boundary)
  {
    forall k: nat | k < |polls| && Waiting(polls, k) ensures k <= e {
    }
  }

  ghost predicate Heard(log: seq<Event>, was: seq<Event>) {
    was <= log && forall k :: |was| <= k < |log| ==> !log[k].Ran?
  }

  ghost predicate SawBelow(log: seq<Event>, k: int, boundary: nat) {
    0 <= k < |log| && log[k].Saw? && log[k].block.timestamp < boundary
  }

  ghost predicate SawReached(log: seq<Event>, k: int, boundary: nat) {
    0 <= k < |log| && log[k].Saw? && log[k].block.timestamp >= boundary
  }

  /** What polling leaves in the log. */
  function Seen(polls: seq<Poll>, opening: Option<nat>): seq<Event> {
    seq(|polls|, i requires 0 <= i < |polls| => Observation(polls[i].answer, opening))
  }

  function Observation(answer: Option<Block>, opening: Option<nat>): Event {
    match answer case Some(block) => Saw(block, opening) case None => Missed
  }

  ghost function Marked(observed: seq<Option<nat>>, fork: nat, answer: Option<Block>, boundary: nat): seq<Option<nat>>
    requires fork < |observed|
  {
    if observed[fork].None? && answer.Some? && answer.value.timestamp >= boundary
    then observed[fork := Some(answer.value.number)] else observed
  }

  lemma SeenNext(polls: seq<Poll>, n: nat, opening: Option<nat>)
    requires n < |polls|
    ensures Seen(polls[..n + 1], opening)
         == Seen(polls[..n], opening) + [Observation(polls[n].answer, opening)]
  {
  }

  /** A record is made of the first block polled at or past the boundary, unless there is one already. */
  ghost predicate Marks(polls: seq<Poll>, boundary: nat, was: Option<nat>, now: Option<nat>) {
    if was.Some? || forall p <- polls :: !Reached(p, boundary) then now == was
    else exists k :: 0 <= k < |polls| && Reached(polls[k], boundary) && now == Some(polls[k].answer.value.number)
                  && forall j :: 0 <= j < k ==> !Reached(polls[j], boundary)
  }

  lemma MarksAt(polls: seq<Poll>, n: nat, boundary: nat, was: Option<nat>)
    requires n < |polls| && forall j :: 0 <= j < n ==> !Reached(polls[j], boundary)
    ensures Marks(polls[..n + 1], boundary, was,
                  if was.None? && Reached(polls[n], boundary) then Some(polls[n].answer.value.number) else was)
  {
    var made := polls[..n + 1];
    if Reached(polls[n], boundary) {
      assert made[n] == polls[n] && made[n] in made;
    }
    assert forall p <- made :: p == polls[n] || exists j :: 0 <= j < n && p == polls[j];
  }

  /** The first `n` polls of a window of `fork` were made, logged and, for that fork only, recorded. */
  ghost predicate Polled(polls: seq<Poll>, n: nat, fork: nat, boundary: nat, log: seq<Event>, was: seq<Event>,
                         observed: seq<Option<nat>>, before: seq<Option<nat>>) {
    && n <= |polls| && log == was + Seen(polls[..n], Some(fork))
    && fork < |observed| == |before| && (forall f :: 0 <= f < |before| && f != fork ==> observed[f] == before[f])
    && Marks(polls[..n], boundary, before[fork], observed[fork])
  }

  lemma PolledNext(polls: seq<Poll>, n: nat, fork: nat, boundary: nat, log: seq<Event>, was: seq<Event>,
                   observed: seq<Option<nat>>)
    requires n < |polls| && fork < |observed| && log == was + Seen(polls[..n], Some(fork))
    requires forall j :: 0 <= j < n ==> !Reached(polls[j], boundary)
    ensures Polled(polls, n + 1, fork, boundary, log + [Observation(polls[n].answer, Some(fork))], was,
                   Marked(observed, fork, polls[n].answer, boundary), observed)
  {
    SeenNext(polls, n, Some(fork));
    MarksAt(polls, n, boundary, observed[fork]);
    var seen, last := Seen(polls[..n], Some(fork)), [Observation(polls[n].answer, Some(fork))];
    assert was + seen + last == was + (seen + last);
  }

  lemma PolledFacts(polls: seq<Poll>, n: nat, fork: nat, boundary: nat, log: seq<Event>, was: seq<Event>,
                    observed: seq<Option<nat>>, before: seq<Option<nat>>)
    requires Polled(polls, n, fork, boundary, log, was, observed, before)
    ensures Keeps(observed, before) && Heard(log, was)
    ensures n > 0 && Below(polls[n - 1], boundary) ==> SawBelow(log, |log| - 1, boundary)
    ensures n > 0 && Reached(polls[n - 1], boundary) ==> SawReached(log, |log| - 1, boundary)
  {
    var seen := Seen(polls[..n], Some(fork));
    assert forall k :: 0 <= k < |seen| ==> log[|was| + k] == seen[k];
  }

  /** While a window of fork `f` was polled, a block at or past its activation was seen. */
  ghost predicate Crossing(schedule: seq<Fork>, log: seq<Event>, k: int, f: nat) {
    f < |schedule| && SawReached(log, k, schedule[f].activation) && log[k].opening == Some(f)
  }

  /** The first crossing of fork `f`, if there was any, is the one recorded. */
  ghost predicate FirstCrossing(schedule: seq<Fork>, log: seq<Event>, f: nat, record: Option<nat>) {
    match record
    case None => forall k :: !Crossing(schedule, log, k, f)
    case Some(number) =>
      exists k :: Crossing(schedule, log, k, f) && log[k].block.number == number
               && forall j :: j < k ==> !Crossing(schedule, log, j, f)
  }

  /** Every fork's record is its first crossing. */
  ghost predicate Witnessed(schedule: seq<Fork>, observed: seq<Option<nat>>, log: seq<Event>) {
    |observed| == |schedule| && forall f :: 0 <= f < |schedule| ==> FirstCrossing(schedule, log, f, observed[f])
  }

  /** A crossing, once recorded, is never changed. */
  ghost predicate Keeps(observed: seq<Option<nat>>, was: seq<Option<nat>>) {
    |observed| == |was| && forall f :: 0 <= f < |was| && was[f].Some? ==> observed[f] == was[f]
  }

  lemma CrossingGrows(schedule: seq<Fork>, log: seq<Event>, event: Event, f: nat, record: Option<nat>)
    requires FirstCrossing(schedule, log, f, record)
    requires record.Some? || !Crossing(schedule, log + [event], |log|, f)
    ensures FirstCrossing(schedule, log + [event], f, record)
  {
    var next := log + [event];
    assert forall k :: k < |log| ==> (Crossing(schedule, next, k, f) <==> Crossing(schedule, log, k, f));
    if record.Some? {
      var k :| Crossing(schedule, log, k, f) && log[k].block.number == record.value
            && forall j :: j < k ==> !Crossing(schedule, log, j, f);
      assert Crossing(schedule, next, k, f) && next[k].block.number == record.value;
    }
  }

  /** An observation that is no first crossing leaves the record right. */
  lemma WitnessedGrows(schedule: seq<Fork>, observed: seq<Option<nat>>, log: seq<Event>, event: Event)
    requires Witnessed(schedule, observed, log)
    requires forall f :: 0 <= f < |schedule| && observed[f].None? ==> !Crossing(schedule, log + [event], |log|, f)
    ensures Witnessed(schedule, observed, log + [event])
  {
    forall f | 0 <= f < |schedule| ensures FirstCrossing(schedule, log + [event], f, observed[f]) {
      CrossingGrows(schedule, log, event, f, observed[f]);
    }
  }

  lemma WitnessedCrossing(schedule: seq<Fork>, observed: seq<Option<nat>>, log: seq<Event>, block: Block, fork: nat)
    requires Witnessed(schedule, observed, log) && fork < |schedule| && block.timestamp >= schedule[fork].activation
    requires observed[fork].None?
    ensures Witnessed(schedule, observed[fork := Some(block.number)], log + [Saw(block, Some(fork))])
  {
    var next := log + [Saw(block, Some(fork))];
    var marked := observed[fork := Some(block.number)];
    forall f | 0 <= f < |schedule| ensures FirstCrossing(schedule, next, f, marked[f]) {
      if f == fork {
        assert Crossing(schedule, next, |log|, f) && next[|log|].block.number == block.number;
        assert forall j :: j < |log| ==> (Crossing(schedule, next, j, f) <==> Crossing(schedule, log, j, f));
      } else {
        CrossingGrows(schedule, log, Saw(block, Some(fork)), f, observed[f]);
      }
    }
  }

  ghost predicate MissedBetween(log: seq<Event>, from: int, to: int) {
    forall k :: 0 <= from <= k < to <= |log| ==> log[k].Missed?
  }

  predicate Scheduled(schedule: seq<Fork>, start: Start) {
    start.Anytime? || Find(schedule, start.fork).Some?
  }

  function Boundary(schedule: seq<Fork>, start: Start): nat
    requires Scheduled(schedule, start) && !start.Anytime?
  {
    schedule[Find(schedule, start.fork).value].activation
  }

  /** What a check that ran records: a pass before a fork stands only if confirmed. */
  ghost function Recorded(schedule: seq<Fork>, start: Start, script: Script): Status
    requires Scheduled(schedule, start)
  {
    if start.After? then script.outcome(Boundary(schedule, start))
    else if start.Before? && script.outcome(0) == Passed && !BelowFirst(script.confirm, Boundary(schedule, start)) then Error
    else script.outcome(0)
  }

  /** What a check records, from its window, its outcome and its confirmation alone. */
  ghost function Verdict(schedule: seq<Fork>, start: Start, script: Script): Status
    requires Scheduled(schedule, start)
  {
    match start
    case Anytime => Recorded(schedule, start, script)
    case Before(_) =>
      if BelowFirst(script.window, Boundary(schedule, start)) then Recorded(schedule, start, script) else Error
    case After(_) =>
      if ReachesBoundary(script.window, Boundary(schedule, start)) then Recorded(schedule, start, script)
      else if Responsive(script.window) then Failed
      else Error
  }

  /** The check recorded at `p` ran right after a head on the required side of its fork. */
  ghost predicate RanInside(schedule: seq<Fork>, log: seq<Event>, p: nat, start: Start)
    requires p < |log| && log[p].Ran?
  {
    && Scheduled(schedule, start)
    && (start.Before? ==> log[p].minimum == 0 && SawBelow(log, p - 1, Boundary(schedule, start)))
    && (start.After? ==>
          log[p].minimum == Boundary(schedule, start) && SawReached(log, p - 1, Boundary(schedule, start)))
  }

  /** The check passed at `p` and the next head reported, at `q`, was still below the fork. */
  ghost predicate PassedBelow(log: seq<Event>, index: nat, boundary: nat, p: nat, q: nat) {
    p < q < |log| && log[p] == Ran(index, 0, Passed) && SawBelow(log, q, boundary) && MissedBetween(log, p + 1, q)
  }

  /** The events one check adds: at most one run, inside its window, and a confirmation if it passed before a fork. */
  ghost predicate Traced(schedule: seq<Fork>, log: seq<Event>, was: seq<Event>, index: nat, start: Start, status: Status) {
    && was <= log
    && (forall k :: |was| <= k < |log| && log[k].Ran? ==> log[k].check == index && RanInside(schedule, log, k, start))
    && (forall j, k :: |was| <= j < k < |log| && log[j].Ran? ==> !log[k].Ran?)
    && (Scheduled(schedule, start) && start.Before? && status == Passed ==>
          exists p, q :: |was| <= p && PassedBelow(log, index, Boundary(schedule, start), p, q))
  }

  lemma TracedFrom(schedule: seq<Fork>, log: seq<Event>, heard: seq<Event>, was: seq<Event>, index: nat, start: Start,
                   status: Status)
    requires Heard(heard, was) && Traced(schedule, log, heard, index, start, status)
    ensures Traced(schedule, log, was, index, start, status)
  {
    assert forall k :: |was| <= k < |heard| ==> log[k] == heard[k];
  }

  // ---------------------------------------------------------------- whole runs

  /** Every check that ran was reached and ran inside its window. */
  ghost predicate Inside(schedule: seq<Fork>, starts: seq<Start>, log: seq<Event>, n: nat) {
    n <= |starts| && forall p :: 0 <= p < |log| && log[p].Ran? ==>
      log[p].check < n && RanInside(schedule, log, p, starts[log[p].check])
  }

  /** Checks run at most once each, in their listed order. */
  ghost predicate InOrder(log: seq<Event>) {
    forall j, k :: 0 <= j < k < |log| && log[j].Ran? && log[k].Ran? ==> log[j].check < log[k].check
  }

  ghost predicate Confirmed(schedule: seq<Fork>, start: Start, log: seq<Event>, i: nat) {
    Scheduled(schedule, start) && !start.Anytime? && exists p, q :: PassedBelow(log, i, Boundary(schedule, start), p, q)
  }

  /** A check before a fork is recorded as passed only between two heads below the activation. */
  ghost predicate ConfirmedBelow(schedule: seq<Fork>, starts: seq<Start>, checks: seq<Status>, log: seq<Event>, n: nat) {
    n <= |starts| && n <= |checks| && forall i :: 0 <= i < n && starts[i].Before? && checks[i] == Passed ==>
      Confirmed(schedule, starts[i], log, i)
  }

  lemma ConfirmedGrows(schedule: seq<Fork>, start: Start, log: seq<Event>, was: seq<Event>, i: nat)
    requires was <= log && Confirmed(schedule, start, was, i)
    ensures Confirmed(schedule, start, log, i)
  {
    var p, q :| PassedBelow(was, i, Boundary(schedule, start), p, q);
    assert PassedBelow(log, i, Boundary(schedule, start), p, q);
  }

  lemma RanInsideGrows(schedule: seq<Fork>, log: seq<Event>, was: seq<Event>, p: nat, start: Start)
    requires was <= log && p < |was| && was[p].Ran? && RanInside(schedule, was, p, start)
    ensures RanInside(schedule, log, p, start)
  {
  }

  lemma InsideGrows(schedule: seq<Fork>, starts: seq<Start>, log: seq<Event>, was: seq<Event>, n: nat)
    requires was <= log && Inside(schedule, starts, was, n)
    ensures forall p :: 0 <= p < |was| && log[p].Ran? ==>
              log[p].check < n && RanInside(schedule, log, p, starts[log[p].check])
  {
    forall p | 0 <= p < |was| && log[p].Ran? ensures log[p].check < n && RanInside(schedule, log, p, starts[log[p].check]) {
      RanInsideGrows(schedule, log, was, p, starts[was[p].check]);
    }
  }

  lemma HeardRun(schedule: seq<Fork>, starts: seq<Start>, checks: seq<Status>, log: seq<Event>, was: seq<Event>, n: nat)
    requires Heard(log, was) && Inside(schedule, starts, was, n) && InOrder(was)
    requires ConfirmedBelow(schedule, starts, checks, was, n)
    ensures Inside(schedule, starts, log, n) && InOrder(log) && ConfirmedBelow(schedule, starts, checks, log, n)
  {
    InsideGrows(schedule, starts, log, was, n);
    forall i | 0 <= i < n && starts[i].Before? && checks[i] == Passed ensures Confirmed(schedule, starts[i], log, i) {
      ConfirmedGrows(schedule, starts[i], log, was, i);
    }
  }

  lemma TracedRun(schedule: seq<Fork>, starts: seq<Start>, before: seq<Status>, checks: seq<Status>, log: seq<Event>,
                  was: seq<Event>, n: nat)
    requires n < |starts| && n < |before| == |checks| && Scheduled(schedule, starts[n])
    requires forall i :: 0 <= i < n ==> checks[i] == before[i]
    requires Inside(schedule, starts, was, n) && InOrder(was) && ConfirmedBelow(schedule, starts, before, was, n)
    requires Traced(schedule, log, was, n, starts[n], checks[n])
    ensures Inside(schedule, starts, log, n + 1) && InOrder(log)
    ensures ConfirmedBelow(schedule, starts, checks, log, n + 1)
  {
    InsideGrows(schedule, starts, log, was, n);
    forall i | 0 <= i <= n && starts[i].Before? && checks[i] == Passed ensures Confirmed(schedule, starts[i], log, i) {
      if i < n { ConfirmedGrows(schedule, starts[i], log, was, i); }
    }
  }

  class ScenarioRun {
    const schedule: seq<Fork>
    var checks: seq<Status>
    var observed: seq<Option<nat>>
    var log: seq<Event>

    constructor (schedule: seq<Fork>, checks: nat)
      ensures this.schedule == schedule
      ensures this.checks == seq(checks, _ => Blocked) && log == [] && observed == seq(|schedule|, _ => None)
    {
      this.schedule := schedule;
      this.checks := seq(checks, _ => Blocked);
      this.observed := seq(|schedule|, _ => None);
      this.log := [];
    }

    /** Logs one answer to a poll for a window of `fork`; the first block at or past the activation is recorded. */
    method Record(fork: nat, answer: Option<Block>)
      requires fork < |schedule| && Witnessed(schedule, observed, log)
      modifies this`observed, this`log
      ensures Witnessed(schedule, observed, log)
      ensures log == old(log) + [Observation(answer, Some(fork))]
      ensures observed == Marked(old(observed), fork, answer, schedule[fork].activation)
    {
      match answer {
        case Some(block) =>
          var active := block.timestamp >= schedule[fork].activation;
          if active && observed[fork].None? {
            WitnessedCrossing(schedule, observed, log, block, fork);
            observed := observed[fork := Some(block.number)];
          } else {
            WitnessedGrows(schedule, observed, log, Saw(block, Some(fork)));
          }
          log := log + [Saw(block, Some(fork))];
        case None =>
          WitnessedGrows(schedule, observed, log, Missed);
          log := log + [Missed];
      }
    }

    /** The polling loop: ends with the first answer before a fork, the first block past it, or the deadline. */
    method PollWindow(before: bool, fork: nat, polls: seq<Poll>) returns (r: Opening, ghost n: nat)
      requires fork < |schedule| && Bounded(polls) && Witnessed(schedule, observed, log)
      modifies this`observed, this`log
      ensures Witnessed(schedule, observed, log) && !r.Abort?
      ensures Polled(polls, n, fork, schedule[fork].activation, log, old(log), observed, old(observed))
      ensures r.Open? ==> n > 0 && if before then Below(polls[n - 1], schedule[fork].activation)
                                   else Reached(polls[n - 1], schedule[fork].activation)
      ensures before ==> r == if BelowFirst(polls, schedule[fork].activation) then Open else Skip(Error)
      ensures !before ==> r == if ReachesBoundary(polls, schedule[fork].activation) then Open
                               else if Responsive(polls) then Skip(Failed) else Skip(Error)
    {
      var boundary := schedule[fork].activation;
      var lastHead: Option<nat> := None;
      var i := 0;
      while true
        invariant i < |polls| && Waiting(polls, i)
        invariant Witnessed(schedule, observed, log)
        invariant log == old(log) + Seen(polls[..i], Some(fork)) && observed == old(observed)
        invariant forall j :: 0 <= j < i ==> !Reached(polls[j], boundary)
        invariant before ==> forall j :: 0 <= j < i ==> polls[j].answer.None?
        invariant lastHead.Some? <==> Answering(polls, i)
        decreases |polls| - i
      {
        var poll := polls[i];
        AnsweringNext(polls, i);
        PolledNext(polls, i, fork, boundary, log, old(log), observed);
        Record(fork, poll.answer);
        match poll.answer {
          case Some(block) =>
            var active := block.timestamp >= boundary;
            if before { return if active then Skip(Error) else Open, i + 1; }
            if active { return Open, i + 1; }
            lastHead := Some(block.number);
          case None =>
            if !poll.late { lastHead := None; }
        }
        if poll.expired {
          ExpiryDecides(polls, i, boundary);
          return Skip(if lastHead.Some? then Failed else Error), i + 1;
        }
        i := i + 1;
      }
    }

    /** Polls the builder until the window of a check opens, is missed or the deadline passes. */
    method OpenWindow(start: Start, polls: seq<Poll>) returns (r: Opening)
      requires !start.Anytime? && Bounded(polls) && Witnessed(schedule, observed, log)
      modifies this`observed, this`log
      ensures Witnessed(schedule, observed, log) && Keeps(observed, old(observed)) && Heard(log, old(log))
      ensures r.Abort? <==> Find(schedule, start.fork).None?
      ensures r.Abort? ==> log == old(log) && observed == old(observed)
      ensures !r.Abort? ==>
                var fork := Find(schedule, start.fork).value;
                exists n: nat :: Polled(polls, n, fork, schedule[fork].activation, log, old(log), observed, old(observed))
      ensures !r.Abort? ==>
                var boundary := schedule[Find(schedule, start.fork).value].activation;
                && (start.Before? ==> r == if BelowFirst(polls, boundary) then Open else Skip(Error))
                && (start.Before? && r.Open? ==> SawBelow(log, |log| - 1, boundary))
                && (start.After? && r.Open? ==> SawReached(log, |log| - 1, boundary))
                && (start.After? ==> r == if ReachesBoundary(polls, boundary) then Open
                                          else if Responsive(polls) then Skip(Failed) else Skip(Error))
    {
      var found := Find(schedule, start.fork);
      if found.None? { return Abort; }
      ghost var n;
      r, n := PollWindow(start.Before?, found.value, polls);
      PolledFacts(polls, n, found.value, schedule[found.value].activation, log, old(log), observed, old(observed));
    }

    /** Confirms that a passed check finished before its fork: the next head the builder reports is still below it. */
    method ConfirmPreFork(fork: string, polls: seq<Poll>) returns (r: Opening)
      requires Bounded(polls) && Witnessed(schedule, observed, log)
      modifies this`log
      ensures Witnessed(schedule, observed, log) && Heard(log, old(log))
      ensures r.Abort? <==> Find(schedule, fork).None?
      ensures !r.Abort? ==>
                var boundary := schedule[Find(schedule, fork).value].activation;
                && r == (if BelowFirst(polls, boundary) then Open else Skip(Error))
                && (r.Open? ==> SawBelow(log, |log| - 1, boundary) && MissedBetween(log, |old(log)|, |log| - 1))
                && exists n: nat :: n <= |polls| && log == old(log) + Seen(polls[..n], None)
    {
      var found := Find(schedule, fork);
      if found.None? { return Abort; }
      var boundary := schedule[found.value].activation;
      var i := 0;
      while true
        invariant i < |polls| && Waiting(polls, i)
        invariant Witnessed(schedule, observed, log) && Heard(log, old(log))
        invariant forall j :: 0 <= j < i ==> polls[j].answer.None?
        invariant MissedBetween(log, |old(log)|, |log|)
        invariant log == old(log) + Seen(polls[..i], None)
        decreases |polls| - i
      {
        var poll := polls[i];
        SeenNext(polls, i, None);
        WitnessedGrows(schedule, observed, log, if poll.answer.Some? then Saw(poll.answer.value, None) else Missed);
        match poll.answer {
          case Some(block) =>
            log := log + [Saw(block, None)];
            return if block.timestamp >= boundary then Skip(Error) else Open;
          case None =>
            log := log + [Missed];
            if poll.expired {
              ExpiryDecides(polls, i, boundary);
              return Skip(Error);
            }
        }
        i := i + 1;
      }
    }

    /** Runs a check whose window is open and records its outcome, demoted if coverage before a fork is unconfirmed. */
    method Perform(index: nat, start: Start, script: Script)
      requires index < |checks| && Bounded(script.confirm) && Witnessed(schedule, observed, log)
      requires Scheduled(schedule, start)
      requires start.Before? ==> SawBelow(log, |log| - 1, Boundary(schedule, start))
      requires start.After? ==> SawReached(log, |log| - 1, Boundary(schedule, start))
      modifies this`checks, this`log
      ensures Witnessed(schedule, observed, log)
      ensures checks == old(checks)[index := Recorded(schedule, start, script)]
      ensures Traced(schedule, log, old(log), index, start, checks[index])
    {
      var minimum := 0;
      if start.After? { minimum := Boundary(schedule, start); }
      var status := script.outcome(minimum);
      checks := checks[index := status];
      WitnessedGrows(schedule, observed, log, Ran(index, minimum, status));
      ghost var p := |log|;
      log := log + [Ran(index, minimum, status)];
      if status == Passed && start.Before? {
        var confirmed := ConfirmPreFork(start.fork, script.confirm);
        if confirmed.Open? {
          assert PassedBelow(log, index, Boundary(schedule, start), p, |log| - 1);
        } else {
          checks := checks[index := Error];
        }
      }
      assert RanInside(schedule, log, p, start);
    }

    /** Runs one check inside its window; `ok` is false when the schedule does not list its fork. */
    method RunCheck(index: nat, start: Start, script: Script) returns (ok: bool)
      requires index < |checks| && Bounded(script.window) && Bounded(script.confirm)
      requires Witnessed(schedule, observed, log)
      modifies this
      ensures Witnessed(schedule, observed, log) && Keeps(observed, old(observed))
      ensures ok <==> Scheduled(schedule, start)
      ensures checks == if ok then old(checks)[index := Verdict(schedule, start, script)] else old(checks)
      ensures ok ==> Traced(schedule, log, old(log), index, start, checks[index])
      ensures !ok ==> Heard(log, old(log))
    {
      if !start.Anytime? {
        var opening := OpenWindow(start, script.window);
        if opening.Abort? { return false; }
        if opening.Skip? {
          checks := checks[index := opening.status];
          return true;
        }
      }
      ghost var heard := log;
      Perform(index, start, script);
      TracedFrom(schedule, log, heard, old(log), index, start, checks[index]);
      ok := true;
    }

    /**
     * Runs the checks in order until the deadline. Every check keeps its place: those reached record their verdict,
     * the others stay blocked, and the observations justify every run and every pass before a fork.
     */
    method Execute(starts: seq<Start>, scripts: seq<Script>) returns (ok: bool, ghost reached: nat)
      requires |checks| == |starts| == |scripts| && log == [] && Witnessed(schedule, observed, log)
      requires forall i :: 0 <= i < |checks| ==> checks[i] == Blocked
      requires forall script <- scripts :: Bounded(script.window) && Bounded(script.confirm)
      modifies this
      ensures |checks| == |starts| && reached <= |starts|
      ensures forall i :: 0 <= i < reached ==>
                Scheduled(schedule, starts[i]) && checks[i] == Verdict(schedule, starts[i], scripts[i])
      ensures forall i :: reached <= i < |checks| ==> checks[i] == Blocked
      ensures reached < |starts| ==> scripts[reached].expired || !Scheduled(schedule, starts[reached])
      ensures ok <==> reached == |starts| || scripts[reached].expired
      ensures Inside(schedule, starts, log, reached) && InOrder(log)
      ensures ConfirmedBelow(schedule, starts, checks, log, reached)
      ensures Witnessed(schedule, observed, log) && Keeps(observed, old(observed))
    {
      reached := 0;
      for i := 0 to |starts|
        invariant reached == i && |checks| == |starts|
        invariant forall k :: 0 <= k < i ==>
                    Scheduled(schedule, starts[k]) && checks[k] == Verdict(schedule, starts[k], scripts[k])
        invariant forall k :: i <= k < |checks| ==> checks[k] == Blocked
        invariant Inside(schedule, starts, log, i) && InOrder(log)
        invariant ConfirmedBelow(schedule, starts, checks, log, i)
        invariant Witnessed(schedule, observed, log) && Keeps(observed, old(observed))
      {
        if scripts[i].expired { return true, i; }
        ghost var was, before := log, checks;
        assert scripts[i] in scripts;
        ok := RunCheck(i, starts[i], scripts[i]);
        if !ok {
          HeardRun(schedule, starts, checks, log, was, i);
          return false, i;
        }
        TracedRun(schedule, starts, before, checks, log, was, i);
        reached := i + 1;
      }
      ok := true;
    }
  }
}
