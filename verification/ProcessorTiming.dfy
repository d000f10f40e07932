/**
 * Stream runs under a wall clock that is not set back and base timestamps that do not fall from a block to the
 * next: a base that is too old leaves its parent's deltas too old as well, so only early signals repeat a final.
 */
module ProcessorTiming {
  import opened Wrappers
  import opened Flashblocks
  import opened ProcessorSpec
  import opened ProcessorInvariants
  import opened ProcessorWire
  import opened ProcessorRuns
  import opened ProcessorFinals
  import opened ProcessorStream

  /** The clock read for flashblocks never goes back. */
  ghost predicate ClockRises(evs: seq<Event>) {
    forall a, b :: 0 <= a < b < |evs| && evs[a].FlashblockReceived? && evs[b].FlashblockReceived? ==>
      evs[a].env.now <= evs[b].env.now
  }

  /** Base timestamps do not fall from a block to the next. */
  ghost predicate BasesRise(m: seq<Flashblock>) {
    forall x <- m, y <- m :: x.base.Some? && y.base.Some? && y.block == x.block + 1 ==>
      x.base.value.timestamp <= y.base.value.timestamp
  }

  /** Every base arrives within the staleness threshold. */
  ghost predicate NoLateBase(evs: seq<Event>) {
    forall n :: 0 <= n < |evs| && evs[n].FlashblockReceived? && evs[n].fb.index == 0 && evs[n].fb.base.Some? ==>
      evs[n].env.now <= evs[n].fb.base.value.timestamp + STALE_THRESHOLD_SECS
  }

  ghost predicate Steady(m: seq<Flashblock>, evs: seq<Event>) {
    (ClockRises(evs) && BasesRise(m)) || NoLateBase(evs)
  }

  lemma SteadyPrefix(m: seq<Flashblock>, evs: seq<Event>, n: nat)
    requires Steady(m, evs) && n <= |evs|
    ensures Steady(m, evs[..n])
  {
  }

  // ---------------------------------------------------------------- what is stored comes from the stream

  lemma {:induction false} EventInStream(m: seq<Flashblock>, evs: seq<Event>, n: nat)
    requires Streams(m, evs) && n < |evs| && evs[n].FlashblockReceived?
    ensures evs[n].fb in m
  {
    var front, last := evs[..|evs| - 1], evs[|evs| - 1];
    assert evs == front + [last];
    StreamsFront(m, front, last);
    if n < |front| {
      EventInStream(m, front, n);
    } else {
      var r := Received(evs);
      assert r[|r| - 1] == last && Delivered(m, r[|r| - 1], |r| - 1);
    }
  }

  /** An event stores at most its own flashblock. */
  ghost predicate StoresOnly(s: State, ev: Event, t: State) {
    forall fb <- t.stored :: fb in s.stored || (ev.FlashblockReceived? && fb == ev.fb)
  }

  lemma AcceptStores(w: World, s: State, ev: Event)
    requires Inv(s) && ev.FlashblockReceived?
    ensures StoresOnly(s, ev, Accept(w, s, ev.fb, ev.env).state)
  {
  }

  lemma AdvanceStores(w: World, s: State, fb: Flashblock, expected: Option<Hash>, env: Env)
    requires s.stored != [] && !s.pending
    ensures var t := Advance(w, s, fb, expected, env).state; t.stored == s.stored || t.stored == []
  {
    var _, _, _ := AdvanceCases(w, s, fb, expected, env);
  }

  lemma ProcessStores(w: World, s: State, ev: Event)
    requires Inv(s) && ev.FlashblockReceived?
    ensures StoresOnly(s, ev, Process(w, s, ev.fb, ev.squash, ev.expected, ev.env).state)
  {
    AcceptInv(w, s, ev.fb, ev.env);
    AcceptStores(w, s, ev);
    var a := Accept(w, s, ev.fb, ev.env);
    if a.Accepted? && !a.state.pending {
      AdvanceStores(w, a.state, ev.fb, ev.expected, ev.env);
    }
  }

  lemma SignalStores(w: World, s: State, ev: Event)
    requires Inv(s) && ev.CanonicalBlock?
    ensures StoresOnly(s, ev, OnCanonical(w, s, ev.number, ev.hash, ev.env).state)
  {
    var t := Note(s, ev.number, ev.hash);
    if t.pending {
      ReplayStores(w, t, ev.number, ev.env);
    } else {
      ConfirmStores(w, t, ev.number, ev.hash, ev.env);
    }
  }

  lemma ReplayStores(w: World, s: State, number: nat, env: Env)
    requires s.stored != []
    ensures var t := Replay(w, s, number, env).state; t.stored == s.stored || t.stored == []
  {
  }

  lemma ConfirmStores(w: World, s: State, number: nat, hash: Hash, env: Env)
    ensures var t := Confirm(w, s, number, hash, env).state; t.stored == s.stored || t.stored == []
  {
  }

  lemma {:induction false} StoredInStream(w: World, m: seq<Flashblock>, evs: seq<Event>)
    requires Streams(m, evs)
    ensures forall fb <- Run(w, evs).state.stored :: fb in m
  {
    if evs != [] {
      var front, last := evs[..|evs| - 1], evs[|evs| - 1];
      var s := Run(w, front).state;
      assert evs == front + [last];
      StreamsFront(m, front, last);
      StoredInStream(w, m, front);
      match last {
        case FlashblockReceived(_, _, _, _) =>
          EventInStream(m, evs, |front|);
          ProcessStores(w, s, last);
        case CanonicalBlock(_, _, _) => SignalStores(w, s, last);
        case TaskFinished(_) =>
      }
    }
  }

  // ---------------------------------------------------------------- the second final

  /** A further final is a delta of the in-flight block that is not too old for the block's own base. */
  lemma SecondFinalFresh(w: World, s: State, ev: Event)
    requires Inv(s) && s.finalSent && ev.FlashblockReceived? && WritesFor(s.sequence, Step(w, s, ev).log)
    ensures s.stored != [] && s.stored[0].base.Some? && s.current == Some(ev.fb.block)
    ensures ev.env.now <= s.stored[0].base.value.timestamp + STALE_THRESHOLD_SECS
  {
    WritesAfterFinalIff(w, s, ev);
    assert DeltaExecutes(w, s, ev);
    var t := Appended(s, ev.fb);
    assert t.stored[0] == s.stored[0];
  }

  /** The base that a peek-final of the in-flight block saw cannot have been too old when its delta is not. */
  lemma NotDroppedStale(w: World, m: seq<Flashblock>, front: seq<Event>, last: Event, e: Emission, i: nat, n: nat)
    requires Streams(m, front + [last]) && Steady(m, front + [last]) && last.FlashblockReceived?
    requires var s := Run(w, front).state;
             && s.stored != [] && s.stored[0].base.Some? && e.flashblocks != [] && e.flashblocks[0] == s.stored[0]
             && last.env.now <= s.stored[0].base.value.timestamp + STALE_THRESHOLD_SECS
    ensures !DroppedStale(w, front, e, i, n)
  {
    var evs, base := front + [last], Run(w, front).state.stored[0];
    if n < |front| && PeekedBase(front[n], e) {
      StreamsFront(m, front, last);
      StoredInStream(w, m, front);
      EventInStream(m, front, n);
      assert evs[n] == front[n] && evs[|front|] == last;
      assert base in m && front[n].fb in m;
    }
  }

  lemma SecondFinalCause(w: World, m: seq<Flashblock>, front: seq<Event>, last: Event, i: nat, j: nat) returns (n: nat)
    requires Streams(m, front + [last]) && Steady(m, front + [last])
    requires |Run(w, front).log| <= j < |Run(w, front + [last]).log| && i < j
    requires var log := Run(w, front + [last]).log;
             log[i].sequence == log[j].sequence && IsFinal(log[i]) && log[j].path == Peek
    ensures last.FlashblockReceived?
    ensures SignalledEarly(w, front, Run(w, front + [last]).log[i], i, n) && front[n].number == last.fb.block
  {
    var s, log := Run(w, front).state, Run(w, front).log;
    var o := Step(w, s, last);
    RunFromExtend(w, INITIAL, front, last);
    RunLog(w, front);
    StepCarries(w, s, last);
    StepOrigin(w, s, last);
    FirstIsOlder(s, o, log, i, j);
    SecondFinalNext(w, m, front, last, i, j);
    assert (log + o.log)[j] in o.log;
    PeekLines(w, s, last, (log + o.log)[j]);
    SecondFinalFresh(w, s, last);
    FirstLineBase(w, front, i);
    n :| DroppedStale(w, front, log[i], i, n) || SignalledEarly(w, front, log[i], i, n);
    NotDroppedStale(w, m, front, last, log[i], i, n);
  }

  /** A line of the in-flight sequence starts with the stored base. */
  lemma FirstLineBase(w: World, evs: seq<Event>, i: nat)
    requires i < |Run(w, evs).log| && Run(w, evs).state.current.Some?
    requires Run(w, evs).log[i].sequence == Run(w, evs).state.sequence
    ensures var e, s := Run(w, evs).log[i], Run(w, evs).state;
            e.flashblocks != [] && s.stored != [] && e.flashblocks[0] == s.stored[0] && s.stored[0].block == s.current.value
  {
    RunNested(w, evs);
    RunSound(w, evs);
    var log := Run(w, evs).log;
    assert log[i] in log;
  }

  /** Event `n` is a signal that draws final `i` of a block of which event `k` then brings another flashblock. */
  ghost predicate SignalledBefore(w: World, evs: seq<Event>, i: nat, n: nat, k: nat)
    requires i < |Run(w, evs).log|
  {
    && k < |evs| && SignalledEarly(w, evs[..k], Run(w, evs).log[i], i, n)
    && evs[k].FlashblockReceived? && evs[n].number == evs[k].fb.block
  }

  /**
   * With a clock and base timestamps that do not fall, or without any late base, the first of two finals of a sequence was always drawn by a
   * canonical signal for the block, and a flashblock of that block, arriving later, wrote the second.
   */
  lemma OnlyEarlySignals(w: World, m: seq<Flashblock>, evs: seq<Event>, i: nat, j: nat) returns (n: nat, k: nat)
    requires Streams(m, evs) && Steady(m, evs) && i < j < |Run(w, evs).log|
    requires Run(w, evs).log[i].sequence == Run(w, evs).log[j].sequence
    requires IsFinal(Run(w, evs).log[i]) && IsFinal(Run(w, evs).log[j])
    ensures WrittenBy(w, evs, j, k) && SignalledBefore(w, evs, i, n, k)
  {
    WireOrder(w, evs, i, j);
    k := WriterOf(w, evs, j);
    WriterPrefix(w, m, evs, i, j, k);
    n := SecondFinalCause(w, m, evs[..k], evs[k], i, j);
    assert evs[..k][n] == evs[n];
  }

  /** The run up to the event that writes line `j` is again a steady stream run, with the same lines so far. */
  lemma WriterPrefix(w: World, m: seq<Flashblock>, evs: seq<Event>, i: nat, j: nat, k: nat)
    requires Streams(m, evs) && Steady(m, evs) && i < j < |Run(w, evs).log| && WrittenBy(w, evs, j, k)
    ensures Streams(m, evs[..k] + [evs[k]]) && Steady(m, evs[..k] + [evs[k]])
    ensures var log := Run(w, evs[..k] + [evs[k]]).log;
            |Run(w, evs[..k]).log| <= j < |log| && log[i] == Run(w, evs).log[i] && log[j] == Run(w, evs).log[j]
  {
    StreamUpTo(m, evs, k);
    LogUpTo(w, evs, k);
  }

  lemma StreamUpTo(m: seq<Flashblock>, evs: seq<Event>, k: nat)
    requires Streams(m, evs) && Steady(m, evs) && k < |evs|
    ensures Streams(m, evs[..k] + [evs[k]]) && Steady(m, evs[..k] + [evs[k]])
  {
    assert evs[..k] + [evs[k]] == evs[..k + 1];
    StreamsPrefix(m, evs, k + 1);
    SteadyPrefix(m, evs, k + 1);
  }

  lemma LogUpTo(w: World, evs: seq<Event>, k: nat)
    requires k < |evs|
    ensures Run(w, evs[..k] + [evs[k]]).log <= Run(w, evs).log
    ensures |Run(w, evs[..k] + [evs[k]]).log| == |Run(w, evs[..k + 1]).log|
  {
    assert evs[..k] + [evs[k]] == evs[..k + 1];
    LogGrows(w, evs, k + 1);
  }

  // ---------------------------------------------------------------- when finals are unique

  /** The signal does not name the block in flight, or none of its block's flashblocks follows. */
  ghost predicate Harmless(w: World, evs: seq<Event>, n: nat)
    requires n < |evs|
  {
    evs[n].CanonicalBlock? ==>
      || Run(w, evs[..n]).state.current != Some(evs[n].number)
      || forall k :: n < k < |evs| && evs[k].FlashblockReceived? ==> evs[k].fb.block != evs[n].number
  }

  /** A steady stream run with harmless signals only writes at most one final per sequence. */
  lemma HarmlessUniqueFinals(w: World, m: seq<Flashblock>, evs: seq<Event>)
    requires Streams(m, evs) && Steady(m, evs) && forall n :: 0 <= n < |evs| ==> Harmless(w, evs, n)
    ensures UniqueFinals(Run(w, evs).log)
  {
    var log := Run(w, evs).log;
    forall i, j | 0 <= i < j < |log| && log[i].sequence == log[j].sequence ensures !(IsFinal(log[i]) && IsFinal(log[j])) {
      if IsFinal(log[i]) && IsFinal(log[j]) {
        var n, k := OnlyEarlySignals(w, m, evs, i, j);
        SignalTooEarly(w, evs, i, n, k);
      }
    }
  }

  lemma SignalTooEarly(w: World, evs: seq<Event>, i: nat, n: nat, k: nat)
    requires i < |Run(w, evs).log| && SignalledBefore(w, evs, i, n, k)
    ensures n < |evs| && !Harmless(w, evs, n)
  {
    assert n < k && evs[..k][n] == evs[n] && evs[..k][..n] == evs[..n];
  }

  /** No signal for a block comes before one of that block's flashblocks. */
  ghost predicate SignalsFollow(evs: seq<Event>) {
    forall n, k :: 0 <= n < k < |evs| && evs[n].CanonicalBlock? && evs[k].FlashblockReceived? ==>
      evs[n].number != evs[k].fb.block
  }

  /**
   * The ordinary run: clock and base timestamps do not fall, and each signal comes once its block's flashblocks
   * are in. Then finals are unique.
   */
  lemma StreamUniqueFinals(w: World, m: seq<Flashblock>, evs: seq<Event>)
    requires Streams(m, evs) && ClockRises(evs) && BasesRise(m) && SignalsFollow(evs)
    ensures UniqueFinals(Run(w, evs).log)
  {
    HarmlessUniqueFinals(w, m, evs);
  }
}
