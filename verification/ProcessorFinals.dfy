/**
 * What may still be written for a block after its final, and how the lines of one sequence nest.
 */
module ProcessorFinals {
  import opened Wrappers
  import opened Flashblocks
  import opened ProcessorSpec
  import opened ProcessorInvariants
  import opened ProcessorEmissions
  import opened ProcessorWire
  import opened ProcessorRuns
  import opened ProcessorPending

  // ---------------------------------------------------------------- one step

  /** Inside a sequence the buffer only grows, and every line holds the buffer it was written from. */
  ghost predicate Carries(s: State, o: Outcome) {
    var t := o.state;
    && s.sequence <= t.sequence
    && (t.sequence == s.sequence && t.current.Some? ==> s.current.Some? && s.stored <= t.stored)
    && forall e <- o.log ::
         && s.sequence <= e.sequence <= t.sequence
         && (e.sequence == s.sequence ==> s.current.Some? && s.stored <= e.flashblocks)
         && (e.sequence == t.sequence && t.current.Some? ==> e.flashblocks == t.stored)
  }

  lemma AcceptCarries(w: World, s: State, fb: Flashblock, env: Env)
    requires Inv(s)
    ensures var a := Accept(w, s, fb, env); Carries(s, Outcome(a.state, if a.Accepted? then a.log else []))
  {
  }

  lemma AdvanceCarries(w: World, s: State, fb: Flashblock, expected: Option<Hash>, env: Env)
    requires s.stored != [] && s.current.Some? && !s.pending
    ensures var o := Advance(w, s, fb, expected, env);
            && Carries(s, o) && o.state.sequence == s.sequence
            && forall e <- o.log :: e.sequence == s.sequence && e.flashblocks == s.stored
  {
    var header, db, x := AdvanceCases(w, s, fb, expected, env);
    if Advance(w, s, fb, expected, env).log != [] {
      ExecutionLine(w, s, header, fb.index, Deferred(s.stored, s.executed), s.executed.None?, expected, db, env);
    }
  }

  lemma CarriesBoth(s: State, t: State, u: State, first: seq<Emission>, second: seq<Emission>)
    requires Carries(s, Outcome(t, first)) && Carries(t, Outcome(u, second)) && t.sequence == u.sequence
    requires t.current.Some? && forall e <- second :: e.sequence == t.sequence && e.flashblocks == t.stored
    requires forall e <- first :: e.sequence < t.sequence
    ensures Carries(s, Outcome(u, first + second))
  {
  }

  lemma ProcessCarries(w: World, s: State, ev: Event)
    requires Inv(s) && ev.FlashblockReceived?
    ensures Carries(s, Process(w, s, ev.fb, ev.squash, ev.expected, ev.env))
  {
    AcceptCarries(w, s, ev.fb, ev.env);
    if Accept(w, s, ev.fb, ev.env).Accepted? {
      AdmitCarries(w, s, ev);
    }
  }

  lemma AdmitCarries(w: World, s: State, ev: Event)
    requires Inv(s) && ev.FlashblockReceived? && Accept(w, s, ev.fb, ev.env).Accepted?
    ensures var a := Accept(w, s, ev.fb, ev.env);
            a.state.stored != [] &&
            var o := Continue(w, a.state, ev.fb, ev.squash, ev.expected, ev.env);
            Carries(s, Outcome(o.state, a.log + o.log))
  {
    AcceptInv(w, s, ev.fb, ev.env);
    AcceptCarries(w, s, ev.fb, ev.env);
    AcceptOrigin(w, s, ev.fb, ev.env);
    var a := Accept(w, s, ev.fb, ev.env);
    assert a.log + [] == a.log;
    if !a.state.pending {
      AdvanceCarries(w, a.state, ev.fb, ev.expected, ev.env);
      var o := Advance(w, a.state, ev.fb, ev.expected, ev.env);
      CarriesBoth(s, a.state, o.state, a.log, o.log);
    }
  }

  lemma ConfirmCarries(w: World, s: State, number: nat, hash: Hash, env: Env)
    requires Inv(s) && s.current.Some?
    ensures Carries(s, Confirm(w, s, number, hash, env))
  {
  }

  lemma ReplayCarries(w: World, s: State, number: nat, env: Env)
    requires Inv(s) && s.pending
    ensures Carries(s, Replay(w, s, number, env))
  {
    var o := Replay(w, s, number, env);
    if o.log != [] {
      ExecutionLine(w, s, Assemble(w.converts, s.stored).value, s.stored[|s.stored| - 1].index, Transactions(s.stored),
                    true, None, Db(env.provider(number).value, []), env);
    }
  }

  lemma NoteCarries(s: State, number: nat, hash: Hash, o: Outcome)
    requires Carries(Note(s, number, hash), o)
    ensures Carries(s, o)
  {
  }

  lemma CanonicalCarries(w: World, s: State, ev: Event)
    requires Inv(s) && ev.CanonicalBlock?
    ensures Carries(s, OnCanonical(w, s, ev.number, ev.hash, ev.env))
  {
    var t := Note(s, ev.number, ev.hash);
    assert Inv(t);
    if t.pending {
      ReplayCarries(w, t, ev.number, ev.env);
    } else if t.current == Some(ev.number) {
      ConfirmCarries(w, t, ev.number, ev.hash, ev.env);
    }
    NoteCarries(s, ev.number, ev.hash, OnCanonical(w, s, ev.number, ev.hash, ev.env));
  }

  lemma StepCarries(w: World, s: State, ev: Event)
    requires Inv(s)
    ensures Carries(s, Step(w, s, ev))
  {
    match ev
    case FlashblockReceived(_, _, _, _) => ProcessCarries(w, s, ev);
    case CanonicalBlock(_, _, _) => CanonicalCarries(w, s, ev);
    case TaskFinished(_) =>
  }

  // ---------------------------------------------------------------- nesting of a sequence's lines

  ghost predicate Nested(log: seq<Emission>) {
    forall i, j :: 0 <= i < j < |log| && log[i].sequence == log[j].sequence ==> log[i].flashblocks <= log[j].flashblocks
  }

  ghost predicate Within(s: State, log: seq<Emission>) {
    s.current.Some? ==> forall e <- log :: e.sequence == s.sequence ==> e.flashblocks <= s.stored
  }

  lemma NestedNext(s: State, o: Outcome, log: seq<Emission>)
    requires Nested(log) && Within(s, log) && Carries(s, o) && (forall e <- log :: e.sequence <= s.sequence)
    requires |o.log| == 2 ==> o.log[0].sequence < o.log[1].sequence
    requires |o.log| <= 2
    ensures Nested(log + o.log) && Within(o.state, log + o.log)
  {
    var all := log + o.log;
    forall i, j | 0 <= i < j < |all| && all[i].sequence == all[j].sequence ensures all[i].flashblocks <= all[j].flashblocks {
      if j >= |log| {
        assert all[j] in o.log;
        if i < |log| { assert all[i] in log; }
      }
    }
    forall e <- all | o.state.current.Some? && e.sequence == o.state.sequence ensures e.flashblocks <= o.state.stored {
      assert e in log || e in o.log;
    }
  }

  lemma {:induction false} RunNested(w: World, evs: seq<Event>)
    ensures Nested(Run(w, evs).log) && Within(Run(w, evs).state, Run(w, evs).log)
  {
    if evs != [] {
      var front, last := evs[..|evs| - 1], evs[|evs| - 1];
      var o := Run(w, front);
      RunNested(w, front);
      RunLog(w, front);
      StepCarries(w, o.state, last);
      StepOrigin(w, o.state, last);
      NestedNext(o.state, Step(w, o.state, last), o.log);
    }
  }

  /**
   * A later line of a sequence extends the flashblocks of an earlier one. The two are numbered alike exactly
   * when the earlier is a guarded final and the later was executed with just one more flashblock.
   */
  lemma TieIff(w: World, evs: seq<Event>, i: nat, j: nat)
    requires i < j < |Run(w, evs).log| && Run(w, evs).log[i].sequence == Run(w, evs).log[j].sequence
    ensures var a, b := Run(w, evs).log[i], Run(w, evs).log[j];
            && a.flashblocks <= b.flashblocks
            && (a.index == b.index <==> a.path == Guarded && |b.flashblocks| == |a.flashblocks| + 1)
  {
    RunNested(w, evs);
    WireOrder(w, evs, i, j);
    RunSound(w, evs);
    var log := Run(w, evs).log;
    assert log[i] in log && log[j] in log;
  }

  // ---------------------------------------------------------------- lines after a final

  /** The guards under which a canonical signal replays the buffer of a block. */
  ghost predicate BufferReleases(w: World, s: State, ev: Event)
    requires Inv(s)
  {
    && ev.CanonicalBlock? && s.pending && ev.number == Parent(s.current.value)
    && ev.hash == ParentHash(s.stored[0]) && |s.stored| > 1 && CanReplay(w, s, ev.number, ev.env)
  }

  /** The guards under which a block that has its final gets another line. */
  ghost predicate LineAfterFinal(w: World, s: State, ev: Event)
    requires Inv(s)
  {
    s.finalSent && (DeltaExecutes(w, s, ev) || BufferReleases(w, s, ev))
  }

  ghost predicate WritesFor(sequence: nat, log: seq<Emission>) {
    exists e <- log :: e.sequence == sequence
  }

  lemma OtherBlockWritesNothing(w: World, s: State, ev: Event)
    requires Inv(s) && s.finalSent && ev.FlashblockReceived? && s.current != Some(ev.fb.block)
    ensures !WritesFor(s.sequence, Process(w, s, ev.fb, ev.squash, ev.expected, ev.env).log)
  {
    ProcessLines(w, s, ev.fb, ev.squash, ev.expected, ev.env);
    AcceptOrigin(w, s, ev.fb, ev.env);
    var a := Accept(w, s, ev.fb, ev.env);
    assert a.Accepted? ==> a.log == [];
    if a.Accepted? && Fresh(a.state, ev.fb) && Advances(a.state, ev.fb, ev.squash, ev.expected) {
      AdvanceOrigin(w, a.state, ev.fb, ev.expected, ev.env);
    }
  }

  lemma OwnBlockWrites(w: World, s: State, ev: Event)
    requires Inv(s) && ev.FlashblockReceived? && s.current == Some(ev.fb.block)
    ensures WritesFor(s.sequence, Process(w, s, ev.fb, ev.squash, ev.expected, ev.env).log) <==> DeltaExecutes(w, s, ev)
  {
    SameBlockIff(w, s, ev);
    ProcessLines(w, s, ev.fb, ev.squash, ev.expected, ev.env);
    SameBlockAppends(w, s, ev.fb, ev.env);
    var a, log := Accept(w, s, ev.fb, ev.env), Process(w, s, ev.fb, ev.squash, ev.expected, ev.env).log;
    if log != [] {
      AdvanceOrigin(w, a.state, ev.fb, ev.expected, ev.env);
      assert log == [] + Advance(w, a.state, ev.fb, ev.expected, ev.env).log;
      assert log[0] in log;
    }
  }

  lemma SignalWrites(w: World, s: State, ev: Event)
    requires Inv(s) && s.finalSent && ev.CanonicalBlock?
    ensures WritesFor(s.sequence, OnCanonical(w, s, ev.number, ev.hash, ev.env).log) <==> BufferReleases(w, s, ev)
  {
    if s.pending {
      CanonicalOrigin(w, s, ev.number, ev.hash, ev.env);
      var log := OnCanonical(w, s, ev.number, ev.hash, ev.env).log;
      if ev.number == Parent(s.current.value) { PendingRelease(w, s, ev.hash, ev.env); }
      if log != [] { assert log[0] in log; }
    }
  }

  /** After its final, a block gets a line exactly when a delta executes or its buffer is replayed. */
  lemma WritesAfterFinalIff(w: World, s: State, ev: Event)
    requires Inv(s) && s.finalSent
    ensures WritesFor(s.sequence, Step(w, s, ev).log) <==> LineAfterFinal(w, s, ev)
  {
    match ev
    case FlashblockReceived(fb, _, _, _) =>
      if s.current == Some(fb.block) { OwnBlockWrites(w, s, ev); } else { OtherBlockWritesNothing(w, s, ev); }
    case CanonicalBlock(_, _, _) => SignalWrites(w, s, ev);
    case TaskFinished(_) =>
  }

  /** Nothing of a sequence comes after its final. */
  ghost predicate FinalsLast(log: seq<Emission>) {
    forall i, j :: 0 <= i < j < |log| && log[i].sequence == log[j].sequence ==> !IsFinal(log[i])
  }

  lemma FinalsLastNext(s: State, o: Outcome, log: seq<Emission>)
    requires LogInv(s, log) && Carries(s, o) && (s.finalSent ==> s.current.Some?)
    requires |o.log| <= 2 && (|o.log| == 2 ==> o.log[0].sequence < o.log[1].sequence)
    ensures FinalsLast(log + o.log) <==> FinalsLast(log) && !(s.finalSent && WritesFor(s.sequence, o.log))
  {
    var all := log + o.log;
    assert forall i :: 0 <= i < |log| ==> all[i] == log[i];
    if s.finalSent && WritesFor(s.sequence, o.log) {
      var i :| 0 <= i < |log| && log[i].sequence == s.sequence && IsFinal(log[i]);
      var j :| 0 <= j < |o.log| && o.log[j].sequence == s.sequence;
      assert all[i] == log[i] && all[|log| + j] == o.log[j];
    } else {
      forall i, j | FinalsLast(log) && 0 <= i < j < |all| && all[i].sequence == all[j].sequence ensures !IsFinal(all[i]) {
        if j >= |log| {
          assert all[j] in o.log;
          if i < |log| { assert all[i] in log; }
        }
      }
    }
  }

  lemma FinalsLastStep(w: World, s: State, ev: Event, log: seq<Emission>)
    requires Inv(s) && LogInv(s, log)
    ensures FinalsLast(log + Step(w, s, ev).log) <==> FinalsLast(log) && !LineAfterFinal(w, s, ev)
  {
    StepCarries(w, s, ev);
    StepOrigin(w, s, ev);
    FinalsLastNext(s, Step(w, s, ev), log);
    if s.finalSent { WritesAfterFinalIff(w, s, ev); }
  }

  /** No event of the run passes those guards. */
  ghost predicate NoLineAfterFinal(w: World, evs: seq<Event>) {
    evs != [] ==>
      var front := evs[..|evs| - 1];
      NoLineAfterFinal(w, front) && !LineAfterFinal(w, Run(w, front).state, evs[|evs| - 1])
  }

  /** In a whole run, finals end their sequences if and only if no event passes the guards above. */
  lemma {:induction false} LinesAfterFinalIff(w: World, evs: seq<Event>)
    ensures FinalsLast(Run(w, evs).log) <==> NoLineAfterFinal(w, evs)
  {
    if evs != [] {
      var front, last := evs[..|evs| - 1], evs[|evs| - 1];
      LinesAfterFinalIff(w, front);
      RunLog(w, front);
      FinalsLastStep(w, Run(w, front).state, last, Run(w, front).log);
    }
  }
}
