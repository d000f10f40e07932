/**
 * Runs fed by the websocket stream: every flashblock is classified against the very next message of the
 * stream, if that was already queued. In such runs second finals have only two causes.
 */
module ProcessorStream {
  import opened Wrappers
  import opened Flashblocks
  import opened ProcessorSpec
  import opened ProcessorInvariants
  import opened ProcessorEmissions
  import opened ProcessorWire
  import opened ProcessorRuns
  import opened ProcessorFinals

  // ---------------------------------------------------------------- stream runs

  /** The flashblocks of a run, in order. */
  function Received(evs: seq<Event>): (r: seq<Event>)
    ensures forall ev <- r :: ev.FlashblockReceived?
  {
    if evs == [] then [] else
    Received(evs[..|evs| - 1]) + (if evs[|evs| - 1].FlashblockReceived? then [evs[|evs| - 1]] else [])
  }

  ghost predicate Classified(ev: Event, peek: Option<Flashblock>)
    requires ev.FlashblockReceived?
  {
    PeekVerdict(ev.squash, ev.expected) == Classify(ev.fb, peek)
  }

  /** The i-th flashblock is the i-th message, classified against the next message or against none. */
  ghost predicate Streams(m: seq<Flashblock>, evs: seq<Event>) {
    |Received(evs)| <= |m| && forall i :: 0 <= i < |Received(evs)| ==> Delivered(m, Received(evs)[i], i)
  }

  ghost predicate Delivered(m: seq<Flashblock>, ev: Event, i: nat)
    requires i < |m|
  {
    ev.FlashblockReceived? && ev.fb == m[i] && (Classified(ev, None) || (i + 1 < |m| && Classified(ev, Some(m[i + 1]))))
  }

  /** A final hash comes from the next message being the next block's base. */
  lemma PeekedMessage(m: seq<Flashblock>, ev: Event, i: nat)
    requires i < |m| && Delivered(m, ev, i) && ev.expected.Some?
    ensures i + 1 < |m| && m[i + 1].index == 0 && m[i + 1].block == ev.fb.block + 1 && m[i + 1].base.Some?
    ensures Some(ParentHash(m[i + 1])) == ev.expected
  {
  }

  lemma StreamsFront(m: seq<Flashblock>, front: seq<Event>, last: Event)
    requires Streams(m, front + [last])
    ensures Streams(m, front)
    ensures Received(front + [last]) == Received(front) + (if last.FlashblockReceived? then [last] else [])
  {
    assert (front + [last])[..|front|] == front;
    var r, all := Received(front), Received(front + [last]);
    assert forall i :: 0 <= i < |r| ==> all[i] == r[i];
  }

  /** The message after a peek-final flashblock is the base it was classified against. */
  lemma PeekedNext(m: seq<Flashblock>, front: seq<Event>, last: Event)
    requires Streams(m, front + [last]) && last.FlashblockReceived?
    requires Received(front) != [] && Received(front)[|Received(front)| - 1].expected.Some?
    ensures var r := Received(front)[|Received(front)| - 1];
            && last.fb.index == 0 && last.fb.block == r.fb.block + 1 && last.fb.base.Some?
            && Some(ParentHash(last.fb)) == r.expected
  {
    StreamsFront(m, front, last);
    var r, all := Received(front), Received(front + [last]);
    assert all[|r| - 1] == r[|r| - 1] && all[|r|] == last;
    assert Delivered(m, all[|r| - 1], |r| - 1) && Delivered(m, all[|r|], |r|);
    PeekedMessage(m, r[|r| - 1], |r| - 1);
  }

  // ---------------------------------------------------------------- one step

  /** A base for the next block is dropped as stale, or ends or leaves the in-flight sequence. */
  lemma NextBaseEnds(w: World, s: State, ev: Event)
    requires Inv(s) && s.current.Some? && ev.FlashblockReceived? && ev.fb.index == 0
    requires ev.fb.block == s.current.value + 1
    ensures var o := Step(w, s, ev);
            if Stale(s, ev.fb, ev.env.now) then o == Outcome(s, [])
            else (o.state.current.None? || s.sequence < o.state.sequence)
                 && (s.finalSent ==> !WritesFor(s.sequence, o.log))
  {
    if s.finalSent { OtherBlockWritesNothing(w, s, ev); }
    var a := Accept(w, s, ev.fb, ev.env);
    if a.Accepted? && !a.state.pending {
      AcceptInv(w, s, ev.fb, ev.env);
      AdvanceCarries(w, a.state, ev.fb, ev.expected, ev.env);
    }
  }

  /** Where a peek-final comes from, and where it leaves the processor. */
  lemma PeekLines(w: World, s: State, ev: Event, e: Emission)
    requires Inv(s) && e in Step(w, s, ev).log && e.path == Peek
    ensures ev.FlashblockReceived? && ev.expected == Some(e.hash)
    ensures e.flashblocks != [] && e.flashblocks[0].block == ev.fb.block
    ensures var t := Step(w, s, ev).state;
            t.current.Some? && t.sequence == e.sequence ==> t.current == Some(ev.fb.block)
  {
    StepSound(w, s, ev);
    StepOrigin(w, s, ev);
    StepCarries(w, s, ev);
    StepInv(w, s, ev);
    PeekBlock(w, s, ev, e);
  }

  lemma PeekBlock(w: World, s: State, ev: Event, e: Emission)
    requires Inv(s) && ev.FlashblockReceived? && e.path == Peek
    requires e in Process(w, s, ev.fb, ev.squash, ev.expected, ev.env).log
    ensures e.flashblocks != [] && e.flashblocks[0].block == ev.fb.block
  {
    ProcessLines(w, s, ev.fb, ev.squash, ev.expected, ev.env);
    AcceptOrigin(w, s, ev.fb, ev.env);
    var a := Accept(w, s, ev.fb, ev.env);
    assert a.Accepted? ==> e !in a.log;
    AdvanceCarries(w, a.state, ev.fb, ev.expected, ev.env);
  }

  ghost predicate SameBlock(s: State, t: State) {
    t.sequence == s.sequence && (t.current.Some? ==> t.current == s.current)
  }

  lemma ReplaySameBlock(w: World, s: State, number: nat, env: Env)
    requires s.stored != []
    ensures SameBlock(s, Replay(w, s, number, env).state)
  {
  }

  lemma ConfirmSameBlock(w: World, s: State, number: nat, hash: Hash, env: Env)
    ensures SameBlock(s, Confirm(w, s, number, hash, env).state)
  {
  }

  lemma SignalSameBlock(w: World, s: State, number: nat, hash: Hash, env: Env)
    requires Inv(s)
    ensures SameBlock(s, OnCanonical(w, s, number, hash, env).state)
  {
    var t := Note(s, number, hash);
    if t.pending {
      ReplaySameBlock(w, t, number, env);
    } else {
      ConfirmSameBlock(w, t, number, hash, env);
    }
  }

  /** A guarded final after which its sequence lives on answers a canonical signal for its block. */
  lemma GuardedLines(w: World, s: State, ev: Event, e: Emission)
    requires Inv(s) && e in Step(w, s, ev).log && e.path == Guarded
    ensures var t := Step(w, s, ev).state;
            e.sequence == t.sequence ==>
              && ev.CanonicalBlock? && |Step(w, s, ev).log| == 1 && e.hash == ev.hash
              && e.flashblocks != [] && e.flashblocks[0].block == ev.number && s.current == Some(ev.number)
  {
    match ev
    case FlashblockReceived(fb, squash, expected, env) =>
      ProcessLines(w, s, fb, squash, expected, env);
      AcceptOrigin(w, s, fb, env);
      var a := Accept(w, s, fb, env);
      if a.Accepted? && !a.state.pending {
        AdvanceOrigin(w, a.state, fb, expected, env);
        AdvanceCarries(w, a.state, fb, expected, env);
      }
    case CanonicalBlock(number, hash, env) =>
      if s.pending { CanonicalOrigin(w, s, number, hash, env); }
    case TaskFinished(_) =>
  }

  // ---------------------------------------------------------------- whole runs

  /** The base a peek-final was classified against. */
  ghost predicate PeekedBase(ev: Event, e: Emission) {
    && ev.FlashblockReceived? && ev.fb.index == 0 && ev.fb.base.Some? && e.flashblocks != []
    && ev.fb.block == e.flashblocks[0].block + 1 && ParentHash(ev.fb) == e.hash
  }

  /** Event `n` delivers, too late, the base the earlier peek-final `e` was classified against. */
  ghost predicate DroppedStale(w: World, evs: seq<Event>, e: Emission, i: nat, n: nat) {
    && n < |evs| && i < |Run(w, evs[..n]).log|
    && e.path == Peek && PeekedBase(evs[n], e)
    && evs[n].env.now > evs[n].fb.base.value.timestamp + STALE_THRESHOLD_SECS
  }

  /** Event `n` is the canonical signal for the block on which line `i` was written. */
  ghost predicate SignalledEarly(w: World, evs: seq<Event>, e: Emission, i: nat, n: nat) {
    && n < |evs| && i == |Run(w, evs[..n]).log|
    && e.path == Guarded && evs[n].CanonicalBlock? && e.flashblocks != []
    && evs[n].number == e.flashblocks[0].block && evs[n].hash == e.hash
    && Run(w, evs[..n]).state.current == Some(evs[n].number)
  }

  ghost predicate Outlived(w: World, evs: seq<Event>, e: Emission, i: nat) {
    exists n :: DroppedStale(w, evs, e, i, n) || SignalledEarly(w, evs, e, i, n)
  }

  /** The last flashblock received was the peek-final `e`; the base it saw comes next. */
  ghost predicate BaseAwaited(evs: seq<Event>, s: State, e: Emission) {
    var r := Received(evs);
    && r != [] && e.path == Peek && e.flashblocks != []
    && r[|r| - 1].expected == Some(e.hash) && s.current == Some(r[|r| - 1].fb.block)
    && e.flashblocks[0].block == r[|r| - 1].fb.block
  }

  /** Why the in-flight sequence is still alive after a final of its own. */
  ghost predicate Explained(w: World, evs: seq<Event>) {
    var s, log := Run(w, evs).state, Run(w, evs).log;
    s.current.Some? ==>
      forall i :: 0 <= i < |log| && IsFinal(log[i]) && log[i].sequence == s.sequence ==>
        Outlived(w, evs, log[i], i) || BaseAwaited(evs, s, log[i])
  }

  lemma OutlivedLater(w: World, front: seq<Event>, last: Event, e: Emission, i: nat)
    requires Outlived(w, front, e, i)
    ensures Outlived(w, front + [last], e, i)
  {
    var n :| DroppedStale(w, front, e, i, n) || SignalledEarly(w, front, e, i, n);
    OutlivedAt(w, front, last, e, i, n);
  }

  lemma OutlivedAt(w: World, front: seq<Event>, last: Event, e: Emission, i: nat, n: nat)
    requires n < |front|
    ensures DroppedStale(w, front + [last], e, i, n) == DroppedStale(w, front, e, i, n)
    ensures SignalledEarly(w, front + [last], e, i, n) == SignalledEarly(w, front, e, i, n)
  {
    var evs := front + [last];
    assert evs[..n] == front[..n] && evs[n] == front[n];
  }

  /** The awaited base is dropped as stale, or nothing more is written for the sequence and it ends. */
  lemma AwaitedArrives(w: World, m: seq<Flashblock>, front: seq<Event>, last: Event, s: State, e: Emission)
    requires Streams(m, front + [last]) && last.FlashblockReceived? && Inv(s) && BaseAwaited(front, s, e)
    ensures PeekedBase(last, e)
    ensures var o := Step(w, s, last);
            || (last.env.now > last.fb.base.value.timestamp + STALE_THRESHOLD_SECS && o == Outcome(s, []))
            || ((o.state.current.None? || s.sequence < o.state.sequence)
                && (s.finalSent ==> !WritesFor(s.sequence, o.log)))
  {
    PeekedNext(m, front, last);
    NextBaseEnds(w, s, last);
  }

  /** An old final of the in-flight sequence stays explained. */
  lemma OldExplained(w: World, m: seq<Flashblock>, front: seq<Event>, last: Event, i: nat)
    requires Streams(m, front + [last]) && Explained(w, front) && i < |Run(w, front).log|
    requires var s, e, t := Run(w, front).state, Run(w, front).log[i], Run(w, front + [last]).state;
             s.current.Some? && IsFinal(e) && e.sequence == s.sequence && t.current.Some? && t.sequence == s.sequence
    ensures var t, e := Run(w, front + [last]).state, Run(w, front).log[i];
            Outlived(w, front + [last], e, i) || BaseAwaited(front + [last], t, e)
  {
    var s, e := Run(w, front).state, Run(w, front).log[i];
    if Outlived(w, front, e, i) {
      OutlivedLater(w, front, last, e, i);
    } else {
      AwaitedExplained(w, m, front, last, e, i);
    }
  }

  lemma StaleOutlived(w: World, front: seq<Event>, last: Event, e: Emission, i: nat)
    requires i < |Run(w, front).log| && e.path == Peek && PeekedBase(last, e)
    requires last.env.now > last.fb.base.value.timestamp + STALE_THRESHOLD_SECS
    ensures Outlived(w, front + [last], e, i)
  {
    var evs := front + [last];
    assert evs[..|front|] == front;
    assert DroppedStale(w, evs, e, i, |front|);
  }

  lemma StillAwaited(front: seq<Event>, last: Event, s: State, t: State, e: Emission)
    requires BaseAwaited(front, s, e) && !last.FlashblockReceived? && SameBlock(s, t) && t.current.Some?
    ensures BaseAwaited(front + [last], t, e)
  {
    assert (front + [last])[..|front|] == front;
  }

  lemma OthersSameBlock(w: World, s: State, ev: Event)
    requires Inv(s) && !ev.FlashblockReceived?
    ensures SameBlock(s, Step(w, s, ev).state)
  {
    if ev.CanonicalBlock? { SignalSameBlock(w, s, ev.number, ev.hash, ev.env); }
  }

  lemma AwaitedExplained(w: World, m: seq<Flashblock>, front: seq<Event>, last: Event, e: Emission, i: nat)
    requires Streams(m, front + [last]) && i < |Run(w, front).log|
    requires BaseAwaited(front, Run(w, front).state, e)
    requires var s, t := Run(w, front).state, Run(w, front + [last]).state; t.current.Some? && t.sequence == s.sequence
    ensures Outlived(w, front + [last], e, i) || BaseAwaited(front + [last], Run(w, front + [last]).state, e)
  {
    var s, t := Run(w, front).state, Run(w, front + [last]).state;
    RunFromExtend(w, INITIAL, front, last);
    if last.FlashblockReceived? {
      AwaitedArrives(w, m, front, last, s, e);
      StaleOutlived(w, front, last, e, i);
    } else {
      OthersSameBlock(w, s, last);
      StillAwaited(front, last, s, t, e);
    }
  }

  /** A new final of the sequence it leaves in flight is explained by the event that wrote it. */
  lemma NewExplained(w: World, m: seq<Flashblock>, front: seq<Event>, last: Event, i: nat)
    requires Streams(m, front + [last]) && |Run(w, front).log| <= i < |Run(w, front + [last]).log|
    requires var t, e := Run(w, front + [last]).state, Run(w, front + [last]).log[i];
             IsFinal(e) && e.sequence == t.sequence && t.current.Some?
    ensures var t, e := Run(w, front + [last]).state, Run(w, front + [last]).log[i];
            Outlived(w, front + [last], e, i) || BaseAwaited(front + [last], t, e)
  {
    var evs, s, e := front + [last], Run(w, front).state, Run(w, front + [last]).log[i];
    RunFromExtend(w, INITIAL, front, last);
    StreamsFront(m, front, last);
    assert e in Step(w, s, last).log;
    if e.path == Peek {
      PeekLines(w, s, last, e);
    } else {
      GuardedLines(w, s, last, e);
      assert evs[..|front|] == front;
      assert SignalledEarly(w, evs, e, i, |front|);
    }
  }

  lemma {:induction false} StreamExplained(w: World, m: seq<Flashblock>, evs: seq<Event>)
    requires Streams(m, evs)
    ensures Explained(w, evs)
  {
    if evs != [] {
      var front, last := evs[..|evs| - 1], evs[|evs| - 1];
      assert evs == front + [last];
      StreamsFront(m, front, last);
      StreamExplained(w, m, front);
      ExplainedNext(w, m, front, last);
    }
  }

  lemma ExplainedNext(w: World, m: seq<Flashblock>, front: seq<Event>, last: Event)
    requires Streams(m, front + [last]) && Explained(w, front)
    ensures Explained(w, front + [last])
  {
    var s, t, log, all := Run(w, front).state, Run(w, front + [last]).state, Run(w, front).log, Run(w, front + [last]).log;
    RunFromExtend(w, INITIAL, front, last);
    RunLog(w, front);
    StepCarries(w, s, last);
    forall i | t.current.Some? && 0 <= i < |all| && IsFinal(all[i]) && all[i].sequence == t.sequence
      ensures Outlived(w, front + [last], all[i], i) || BaseAwaited(front + [last], t, all[i])
    {
      if i < |log| {
        assert all[i] == log[i] && log[i] in log;
        OldExplained(w, m, front, last, i);
      } else {
        NewExplained(w, m, front, last, i);
      }
    }
  }

  lemma {:induction false} LogGrows(w: World, evs: seq<Event>, n: nat)
    requires n <= |evs|
    ensures Run(w, evs[..n]).log <= Run(w, evs).log
  {
    if n == |evs| {
      assert evs[..n] == evs;
    } else {
      var front := evs[..|evs| - 1];
      assert front[..n] == evs[..n];
      LogGrows(w, front, n);
    }
  }

  /** The event that wrote a line of a run. */
  ghost predicate WrittenBy(w: World, evs: seq<Event>, j: nat, n: nat) {
    n < |evs| && |Run(w, evs[..n]).log| <= j < |Run(w, evs[..n + 1]).log|
  }

  lemma {:induction false} WriterOf(w: World, evs: seq<Event>, j: nat) returns (n: nat)
    requires j < |Run(w, evs).log|
    ensures WrittenBy(w, evs, j, n)
  {
    var front := evs[..|evs| - 1];
    if j < |Run(w, front).log| {
      n := WriterOf(w, front, j);
      assert front[..n] == evs[..n] && front[..n + 1] == evs[..n + 1];
    } else {
      n := |evs| - 1;
      assert evs[..n + 1] == evs;
    }
  }

  lemma RunAt(w: World, evs: seq<Event>, n: nat)
    requires n < |evs|
    ensures var before := Run(w, evs[..n]);
            var step := Step(w, before.state, evs[n]);
            Run(w, evs[..n + 1]) == Outcome(step.state, before.log + step.log)
  {
    var upTo := evs[..n + 1];
    assert upTo[..n] == evs[..n] && upTo[|upTo| - 1] == evs[n];
  }

  lemma WriterStep(w: World, evs: seq<Event>, j: nat, n: nat)
    requires j < |Run(w, evs).log| && WrittenBy(w, evs, j, n)
    ensures Run(w, evs).log[j] in Step(w, Run(w, evs[..n]).state, evs[n]).log
  {
    RunAt(w, evs, n);
    LogGrows(w, evs, n + 1);
  }

  lemma {:induction false} StreamsPrefix(m: seq<Flashblock>, evs: seq<Event>, n: nat)
    requires Streams(m, evs) && n <= |evs|
    ensures Streams(m, evs[..n])
  {
    if n == |evs| {
      assert evs[..n] == evs;
    } else {
      var front := evs[..|evs| - 1];
      assert evs == front + [evs[|evs| - 1]] && front[..n] == evs[..n];
      StreamsFront(m, front, evs[|evs| - 1]);
      StreamsPrefix(m, front, n);
    }
  }

  /**
   * In a stream run the second final of a sequence is a peek-final, and the first one is either the guarded
   * final a canonical signal for the block drew early, or a peek-final whose own base then arrived more than
   * five seconds late and was dropped. Either event precedes the one that writes the second final. The late
   * base takes a wall clock set back or a timestamp below its parent's: see `ProcessorTiming`.
   */
  lemma SecondFinals(w: World, m: seq<Flashblock>, evs: seq<Event>, i: nat, j: nat)
    requires Streams(m, evs) && i < j < |Run(w, evs).log|
    requires Run(w, evs).log[i].sequence == Run(w, evs).log[j].sequence
    requires IsFinal(Run(w, evs).log[i]) && IsFinal(Run(w, evs).log[j])
    ensures Run(w, evs).log[j].path == Peek
    ensures exists k: nat :: WrittenBy(w, evs, j, k) && Outlived(w, evs[..k], Run(w, evs).log[i], i)
  {
    WireOrder(w, evs, i, j);
    var k := WriterOf(w, evs, j);
    LogGrows(w, evs, k);
    LogGrows(w, evs, k + 1);
    StreamsPrefix(m, evs, k + 1);
    assert evs[..k + 1] == evs[..k] + [evs[k]];
    SecondFinalNext(w, m, evs[..k], evs[k], i, j);
  }

  /** Two lines of one sequence, the second just written: the first is older and the sequence was in flight. */
  lemma FirstIsOlder(s: State, o: Outcome, log: seq<Emission>, i: nat, j: nat)
    requires LogInv(s, log) && Carries(s, o) && |log| <= j < |log + o.log| && i < j
    requires |o.log| <= 2 && (|o.log| == 2 ==> o.log[0].sequence < o.log[1].sequence)
    requires (log + o.log)[i].sequence == (log + o.log)[j].sequence && IsFinal((log + o.log)[i])
    ensures i < |log| && log[i].sequence == s.sequence && s.current.Some? && s.finalSent
    ensures WritesFor(s.sequence, o.log)
  {
    var all := log + o.log;
    assert all[j] == o.log[j - |log|] && all[j] in o.log;
    assert i < |log|;
    assert all[i] == log[i] && log[i] in log;
  }

  lemma SecondFinalNext(w: World, m: seq<Flashblock>, front: seq<Event>, last: Event, i: nat, j: nat)
    requires Streams(m, front + [last]) && |Run(w, front).log| <= j < |Run(w, front + [last]).log| && i < j
    requires var log := Run(w, front + [last]).log;
             log[i].sequence == log[j].sequence && IsFinal(log[i]) && log[j].path == Peek
    ensures Outlived(w, front, Run(w, front + [last]).log[i], i)
  {
    var s, log := Run(w, front).state, Run(w, front).log;
    var o := Step(w, s, last);
    RunFromExtend(w, INITIAL, front, last);
    RunLog(w, front);
    StepCarries(w, s, last);
    StepOrigin(w, s, last);
    FirstIsOlder(s, o, log, i, j);
    StreamsFront(m, front, last);
    StreamExplained(w, m, front);
    assert (log + o.log)[j] in o.log;
    if BaseAwaited(front, s, log[i]) {
      AwaitedArrives(w, m, front, last, s, log[i]);
    }
  }
}
