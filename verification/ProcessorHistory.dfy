/**
 * What the state remembers of the run that led to it: the canonical head, and whether the block in flight was
 * replayed and still awaits confirmation; and what that means for the block after it.
 */
module ProcessorHistory {
  import opened Wrappers
  import opened Flashblocks
  import opened ProcessorSpec
  import opened ProcessorInvariants
  import opened ProcessorRuns
  import opened ProcessorPending
  import opened ProcessorFinals
  import opened ProcessorLaws

  // ---------------------------------------------------------------- the canonical head

  /** The last signal of the highest number. */
  ghost predicate IsHead(evs: seq<Event>, n: nat) {
    && n < |evs| && evs[n].CanonicalBlock?
    && forall k :: 0 <= k < |evs| && evs[k].CanonicalBlock? ==>
         evs[k].number <= evs[n].number && (k > n ==> evs[k].number < evs[n].number)
  }

  ghost predicate Remembers(evs: seq<Event>, canonical: Option<(nat, Hash)>) {
    if forall ev <- evs :: !ev.CanonicalBlock? then canonical == None
    else exists n: nat :: IsHead(evs, n) && canonical == Some((evs[n].number, evs[n].hash))
  }

  lemma RemembersNext(evs: seq<Event>, ev: Event, s: State)
    requires Remembers(evs, s.canonical)
    ensures Remembers(evs + [ev], if ev.CanonicalBlock? then Remembered(s, ev.number, ev.hash) else s.canonical)
  {
    var all := evs + [ev];
    assert ev in all && forall e <- evs :: e in all;
    if n: nat :| IsHead(evs, n) && s.canonical == Some((evs[n].number, evs[n].hash)) {
      assert all[n] == evs[n] && all[n] in all;
      if !ev.CanonicalBlock? || ev.number < evs[n].number {
        assert IsHead(all, n);
      } else {
        assert IsHead(all, |evs|);
      }
    } else if ev.CanonicalBlock? {
      assert forall k :: 0 <= k < |evs| ==> evs[k] in evs;
      assert IsHead(all, |evs|);
    }
  }

  /** The remembered canonical block is that of the last signal with the highest number. */
  lemma {:induction false} CanonicalHeadIs(w: World, evs: seq<Event>)
    ensures Remembers(evs, Run(w, evs).state.canonical)
  {
    if evs != [] {
      var front, last := evs[..|evs| - 1], evs[|evs| - 1];
      var s := Run(w, front).state;
      assert evs == front + [last];
      CanonicalHeadIs(w, front);
      RemembersNext(front, last, s);
      match last {
        case FlashblockReceived(_, _, _, _) => ProcessKeepsCanonical(w, s, last);
        case CanonicalBlock(_, _, _) => SignalNotes(w, s, last);
        case TaskFinished(_) =>
      }
    }
  }

  // ---------------------------------------------------------------- awaiting confirmation

  /** The signal names the block in flight while it is not buffered. */
  ghost predicate Confirms(s: State, ev: Event) {
    ev.CanonicalBlock? && !s.pending && s.current == Some(ev.number)
  }

  ghost predicate AwaitsExactly(w: World, s: State, ev: Event, t: State)
    requires Inv(s)
  {
    t.awaiting <==>
      || BufferReleases(w, s, ev)
      || (s.awaiting && t.current.Some? && t.sequence == s.sequence && !Confirms(s, ev))
  }

  lemma ContinueAwaits(w: World, s: State, fb: Flashblock, squash: bool, expected: Option<Hash>, env: Env)
    requires Inv(s) && Fresh(s, fb)
    ensures var t := Continue(w, s, fb, squash, expected, env).state;
            t.sequence == s.sequence && (t.current.Some? ==> t.awaiting == s.awaiting) && (t.current.None? ==> !t.awaiting)
  {
    ContinueLaw(w, s, fb, squash, expected, env);
    if !Waits(s, fb, squash, expected) { AdvanceLaw(w, s, fb, expected, env); }
  }

  lemma FlashblockAwaits(w: World, s: State, ev: Event)
    requires Inv(s) && (s.awaiting ==> s.current.Some?) && ev.FlashblockReceived?
    ensures AwaitsExactly(w, s, ev, Step(w, s, ev).state)
  {
    FlashblockLaw(w, s, ev);
    match FateOf(s, ev.fb, ev.env.now)
    case Appends =>
      AppendInv(s, ev.fb);
      ContinueAwaits(w, Appended(s, ev.fb), ev.fb, ev.squash, ev.expected, ev.env);
    case Starts =>
      StartedInv(w, s, ev.fb, ev.env);
      ContinueAwaits(w, Started(w, s, ev.fb, ev.env), ev.fb, ev.squash, ev.expected, ev.env);
    case _ =>
  }

  lemma StartedInv(w: World, s: State, fb: Flashblock, env: Env)
    requires Inv(s) && fb.index == 0
    ensures Inv(Started(w, s, fb, env)) && Fresh(Started(w, s, fb, env), fb)
  {
  }

  lemma SignalAwaits(w: World, s: State, ev: Event)
    requires Inv(s) && (s.awaiting ==> s.current.Some?) && ev.CanonicalBlock?
    ensures AwaitsExactly(w, s, ev, Step(w, s, ev).state)
  {
    SignalLaw(w, s, ev);
    var t := s.(canonical := Remembered(s, ev.number, ev.hash));
    if s.pending {
      ReplayLaw(w, t, ev.number, ev.env);
    } else if s.current == Some(ev.number) {
      ConfirmLaw(w, t, ev.number, ev.hash, ev.env);
    }
  }

  lemma StepAwaits(w: World, s: State, ev: Event)
    requires Inv(s) && (s.awaiting ==> s.current.Some?)
    ensures AwaitsExactly(w, s, ev, Step(w, s, ev).state)
  {
    match ev
    case FlashblockReceived(_, _, _, _) => FlashblockAwaits(w, s, ev);
    case CanonicalBlock(_, _, _) => SignalAwaits(w, s, ev);
    case TaskFinished(_) => TaskLaw(w, s, ev);
  }

  /** Event `n` replayed the sequence in flight, and no signal has confirmed the block since. */
  ghost predicate ReplayedSince(w: World, evs: seq<Event>, n: nat) {
    && n < |evs| && BufferReleases(w, Run(w, evs[..n]).state, evs[n])
    && Run(w, evs).state.current.Some? && Run(w, evs[..n]).state.sequence == Run(w, evs).state.sequence
    && forall k :: n < k < |evs| ==> !Confirms(Run(w, evs[..k]).state, evs[k])
  }

  ghost predicate AwaitsConfirmation(w: World, evs: seq<Event>) {
    exists n: nat :: ReplayedSince(w, evs, n)
  }

  lemma ReplayedEarlier(w: World, front: seq<Event>, last: Event, n: nat)
    requires n < |front|
    requires Run(w, front + [last]).state.current.Some? && Run(w, front).state.current.Some?
    requires Run(w, front + [last]).state.sequence == Run(w, front).state.sequence
    ensures ReplayedSince(w, front + [last], n) <==>
              ReplayedSince(w, front, n) && !Confirms(Run(w, front).state, last)
  {
    var evs := front + [last];
    assert evs[..n] == front[..n] && evs[..|front|] == front;
    assert forall k :: n < k < |front| ==> evs[..k] == front[..k] && evs[k] == front[k];
  }

  lemma ReplayedLast(w: World, front: seq<Event>, last: Event)
    ensures ReplayedSince(w, front + [last], |front|) <==>
              && BufferReleases(w, Run(w, front).state, last) && Run(w, front + [last]).state.current.Some?
              && Run(w, front + [last]).state.sequence == Run(w, front).state.sequence
  {
    assert (front + [last])[..|front|] == front;
  }

  /** A replayed block stays in flight, in its sequence. */
  lemma ReplayKeeps(w: World, s: State, ev: Event)
    requires Inv(s) && BufferReleases(w, s, ev)
    ensures var t := Step(w, s, ev).state; t.current.Some? && t.sequence == s.sequence
  {
    SignalLaw(w, s, ev);
    ReplayLaw(w, s.(canonical := Remembered(s, ev.number, ev.hash)), ev.number, ev.env);
  }

  /** The sequence in flight was not replayed by an event at which it was not in flight yet. */
  lemma ReplayedInFlight(w: World, front: seq<Event>, last: Event, n: nat)
    requires ReplayedSince(w, front + [last], n) && n < |front|
    ensures Run(w, front).state.current.Some? && Run(w, front + [last]).state.sequence == Run(w, front).state.sequence
  {
    var evs := front + [last];
    assert evs[..n] == front[..n];
    RunFromExtend(w, INITIAL, front, last);
    StepCarries(w, Run(w, front).state, last);
    CarriesFrom(w, front, n);
  }

  lemma {:induction false} CarriesFrom(w: World, evs: seq<Event>, n: nat)
    requires n <= |evs|
    ensures Run(w, evs[..n]).state.sequence <= Run(w, evs).state.sequence
  {
    if n == |evs| {
      assert evs[..n] == evs;
    } else {
      var front := evs[..|evs| - 1];
      assert front[..n] == evs[..n];
      CarriesFrom(w, front, n);
      StepCarries(w, Run(w, front).state, evs[|evs| - 1]);
    }
  }

  lemma AwaitsNext(w: World, front: seq<Event>, last: Event)
    requires Run(w, front).state.awaiting <==> AwaitsConfirmation(w, front)
    ensures Run(w, front + [last]).state.awaiting <==> AwaitsConfirmation(w, front + [last])
  {
    var s, t := Run(w, front).state, Run(w, front + [last]).state;
    RunFromExtend(w, INITIAL, front, last);
    StepAwaits(w, s, last);
    StepCarries(w, s, last);
    ReplayedLast(w, front, last);
    if BufferReleases(w, s, last) { ReplayKeeps(w, s, last); }
    if t.awaiting && !BufferReleases(w, s, last) {
      var n: nat :| ReplayedSince(w, front, n);
      ReplayedEarlier(w, front, last, n);
    }
    if n: nat :| ReplayedSince(w, front + [last], n) {
      if n < |front| {
        ReplayedInFlight(w, front, last, n);
        ReplayedEarlier(w, front, last, n);
      }
    }
  }

  /** The flag holds exactly when the block in flight was replayed and no signal has confirmed it since. */
  lemma {:induction false} AwaitingExact(w: World, evs: seq<Event>)
    ensures Run(w, evs).state.awaiting <==> AwaitsConfirmation(w, evs)
  {
    if evs != [] {
      var front, last := evs[..|evs| - 1], evs[|evs| - 1];
      assert evs == front + [last];
      AwaitingExact(w, front);
      AwaitsNext(w, front, last);
    }
  }

  // ---------------------------------------------------------------- the next block

  /** The base of the next block, classified against none: fresh, linked and on no known wrong parent. */
  ghost predicate NextBase(s: State, ev: Event)
    requires Inv(s) && s.current.Some?
  {
    && ev.FlashblockReceived? && ev.expected.None? && ev.fb.index == 0 && ev.fb.block == s.current.value + 1
    && !TooOld(s, ev.fb, ev.env.now) && !OnWrongParent(s, ev.fb)
    && (ev.fb.prev == FlashblockId(0, 0) || ev.fb.prev == FlashblockId(s.current.value, s.latest.value))
  }

  /** Its first delta, classified against none: fresh, linked and of the same payload. */
  ghost predicate FirstDelta(base: Flashblock, ev: Event) {
    && ev.FlashblockReceived? && !ev.squash && ev.expected.None?
    && ev.fb.index == 1 && ev.fb.block == base.block && ev.fb.payloadId == base.payloadId
    && (base.base.Some? ==> ev.env.now <= base.base.value.timestamp + 5)
    && (ev.fb.prev == FlashblockId(0, 0) || ev.fb.prev == FlashblockId(base.block, 0))
  }

  lemma BaseStarts(w: World, s: State, ev: Event)
    requires Inv(s) && s.current.Some? && NextBase(s, ev)
    ensures Step(w, s, ev).state == Started(w, s, ev.fb, ev.env)
  {
    FlashblockLaw(w, s, ev);
  }

  lemma DeltaAppends(w: World, s: State, base: Flashblock, ev: Event)
    requires Inv(s) && s.current == Some(base.block) && s.latest == Some(0) && s.stored == [base] && FirstDelta(base, ev)
    ensures Step(w, s, ev) == Continue(w, Appended(s, ev.fb), ev.fb, false, None, ev.env)
    ensures Inv(Appended(s, ev.fb)) && Fresh(Appended(s, ev.fb), ev.fb)
  {
    AppendInv(s, ev.fb);
    FlashblockLaw(w, s, ev);
  }

  /**
   * After a block that was not replayed, the next block is not held back: its first delta is written at once,
   * as a partial of base and delta, exactly when the two execute.
   */
  lemma NextBlockExecutes(w: World, evs: seq<Event>, base: Event, delta: Event)
    requires Run(w, evs).state.current.Some? && NextBase(Run(w, evs).state, base) && FirstDelta(base.fb, delta)
    requires !AwaitsConfirmation(w, evs)
    ensures Run(w, evs + [base]).state.stored == [base.fb]
    ensures var s := Run(w, evs + [base]).state;
            var log := Step(w, s, delta).log;
            && (log != [] <==> Executes(w, Appended(s, delta.fb), delta.fb, None, delta.env))
            && (log != [] ==>
                  && |log| == 1 && log[0].path == Partial && log[0].index == 1 && log[0].flashblocks == [base.fb, delta.fb]
                  && log[0].sequence == Run(w, evs).state.sequence + 1 && log[0].hash == delta.fb.diff.blockHash)
  {
    var s := Run(w, evs).state;
    AwaitingExact(w, evs);
    RunFromExtend(w, INITIAL, evs, base);
    BaseStarts(w, s, base);
    var u := Run(w, evs + [base]).state;
    DeltaAppends(w, u, base.fb, delta);
    FirstDeltaWrites(w, u, base.fb, delta);
  }

  lemma FirstDeltaWrites(w: World, s: State, base: Flashblock, ev: Event)
    requires Inv(s) && s.current == Some(base.block) && s.latest == Some(0) && s.stored == [base] && FirstDelta(base, ev)
    requires !s.pending
    ensures var log := Step(w, s, ev).log;
            && (log != [] <==> Executes(w, Appended(s, ev.fb), ev.fb, None, ev.env))
            && (log != [] ==>
                  && |log| == 1 && log[0].path == Partial && log[0].index == 1 && log[0].flashblocks == [base, ev.fb]
                  && log[0].sequence == s.sequence && log[0].hash == ev.fb.diff.blockHash)
  {
    var t := Appended(s, ev.fb);
    DeltaAppends(w, s, base, ev);
    ContinueLaw(w, t, ev.fb, false, None, ev.env);
    ExecutesIff(w, t, ev.fb, None, ev.env);
    AdvanceLaw(w, t, ev.fb, None, ev.env);
  }
}
