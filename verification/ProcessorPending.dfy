/**
 * The pending buffer, the canonical signals that release or discard it, and what repeated or
 * contradicting signals do.
 */
module ProcessorPending {
  import opened Wrappers
  import opened Flashblocks
  import opened ProcessorSpec
  import opened ProcessorInvariants
  import opened ProcessorWire
  import opened ProcessorRuns

  // ---------------------------------------------------------------- pending discipline

  /** A canonical signal for the parent of the sequence, carrying the hash its base was built on. */
  ghost predicate Unlocks(base: Flashblock, ev: Event) {
    ev.CanonicalBlock? && ev.number == Parent(base.block) && ev.hash == ParentHash(base)
  }

  /** The sequence is still buffered, was discarded, or has been left behind. */
  ghost predicate Held(base: Flashblock, sequence: nat, s: State) {
    || sequence < s.sequence
    || (sequence == s.sequence && s.current.None?)
    || (sequence == s.sequence && s.pending && s.stored != [] && s.stored[0] == base)
  }

  /** Lines of a held sequence never come from an execution: at most a final built without a database. */
  ghost predicate Unexecuted(sequence: nat, log: seq<Emission>) {
    forall e <- log :: sequence <= e.sequence && (e.sequence == sequence ==> e.path == Guarded && e.db.None?)
  }

  lemma HeldAcceptPending(w: World, s: State, fb: Flashblock, env: Env)
    requires Inv(s) && s.pending
    ensures var a := Accept(w, s, fb, env);
            && Held(s.stored[0], s.sequence, a.state)
            && (a.Accepted? ==> Unexecuted(s.sequence, a.log) && (a.state.pending || s.sequence < a.state.sequence))
  {
    match Validate(s.current.value, s.latest.value, fb)
    case FirstOfNextBlock => assert Accept(w, s, fb, env) == Transition(w, s, fb, env);
    case _ =>
  }

  lemma HeldAccept(w: World, base: Flashblock, sequence: nat, s: State, fb: Flashblock, env: Env)
    requires Inv(s) && Held(base, sequence, s)
    ensures var a := Accept(w, s, fb, env);
            && Held(base, sequence, a.state)
            && (a.Accepted? ==> Unexecuted(sequence, a.log) && (a.state.pending || sequence < a.state.sequence))
  {
    if s.pending && s.sequence == sequence {
      HeldAcceptPending(w, s, fb, env);
    } else if s.current.Some? {
      AcceptOrigin(w, s, fb, env);
      assert s.sequence <= Accept(w, s, fb, env).state.sequence;
    }
  }

  lemma HeldProcess(w: World, base: Flashblock, sequence: nat, s: State, ev: Event)
    requires Inv(s) && Held(base, sequence, s) && ev.FlashblockReceived?
    ensures var o := Step(w, s, ev); Held(base, sequence, o.state) && Unexecuted(sequence, o.log)
  {
    AcceptInv(w, s, ev.fb, ev.env);
    HeldAccept(w, base, sequence, s, ev.fb, ev.env);
    var a := Accept(w, s, ev.fb, ev.env);
    if a.Accepted? && !a.state.pending {
      AdvanceOrigin(w, a.state, ev.fb, ev.expected, ev.env);
      var _, _, _ := AdvanceCases(w, a.state, ev.fb, ev.expected, ev.env);
    }
  }

  lemma HeldCanonical(w: World, base: Flashblock, sequence: nat, s: State, ev: Event)
    requires Inv(s) && Held(base, sequence, s) && ev.CanonicalBlock? && !Unlocks(base, ev)
    ensures var o := OnCanonical(w, s, ev.number, ev.hash, ev.env);
            Held(base, sequence, o.state) && Unexecuted(sequence, o.log)
  {
    if s.pending && s.sequence == sequence {
      HeldPending(w, s, ev);
    }
  }

  lemma HeldPending(w: World, s: State, ev: Event)
    requires Inv(s) && s.pending && ev.CanonicalBlock? && !Unlocks(s.stored[0], ev)
    ensures var o := OnCanonical(w, s, ev.number, ev.hash, ev.env);
            Held(s.stored[0], s.sequence, o.state) && o.log == []
  {
    assert s.stored[0].block == s.current.value;
  }

  lemma HeldStep(w: World, base: Flashblock, sequence: nat, s: State, ev: Event)
    requires Inv(s) && Held(base, sequence, s) && !Unlocks(base, ev)
    ensures var o := Step(w, s, ev); Held(base, sequence, o.state) && Unexecuted(sequence, o.log)
  {
    match ev
    case FlashblockReceived(_, _, _, _) => HeldProcess(w, base, sequence, s, ev);
    case CanonicalBlock(_, _, _) => HeldCanonical(w, base, sequence, s, ev);
    case TaskFinished(_) =>
  }

  /**
   * Pending discipline: from a pending state, as long as no canonical signal names the parent with the
   * hash the buffered base was built on, nothing of the sequence is ever executed.
   */
  lemma {:induction false} PendingDiscipline(w: World, s: State, evs: seq<Event>)
    requires Inv(s) && s.pending && forall ev <- evs :: !Unlocks(s.stored[0], ev)
    ensures var o := RunFrom(w, s, evs);
            Held(s.stored[0], s.sequence, o.state) && Unexecuted(s.sequence, o.log)
  {
    if evs != [] {
      var front, last := evs[..|evs| - 1], evs[|evs| - 1];
      PendingDiscipline(w, s, front);
      HeldStep(w, s.stored[0], s.sequence, RunFrom(w, s, front).state, last);
    }
  }

  /** The node can execute the whole buffer on the parent snapshot. */
  ghost predicate CanReplay(w: World, s: State, number: nat, env: Env) {
    && env.provider(number).Some? && env.executes && s.stored != []
    && Assemble(w.converts, s.stored).Some? && env.headers(Parent(s.stored[0].base.value.number))
  }

  /** A replay executes the whole buffer exactly once and writes one line for it. */
  lemma ReplayWhole(w: World, s: State, number: nat, env: Env)
    requires Inv(s) && s.pending && CanReplay(w, s, number, env)
    ensures var o := Replay(w, s, number, env);
            && o.state.db == Some(Direct(env.provider(number).value, s.stored)) && o.state.executed == s.latest
            && !o.state.pending && o.state.awaiting && o.state.stored == s.stored
            && o.state.revision == s.revision + 1 && o.state.speculation.None?
            && |o.log| == 1 && o.log[0].path == Partial && Some(o.log[0].index) == s.latest
  {
    JoinOps([], [PreExecution], Applied(Transactions(s.stored)));
  }

  lemma ReplayNothing(w: World, s: State, number: nat, env: Env)
    requires Inv(s) && s.pending && !CanReplay(w, s, number, env)
    ensures var o := Replay(w, s, number, env);
            o.log == [] && o.state.db.None? && (o.state.pending <==> env.provider(number).None?)
  {
  }

  lemma ReleaseCases(w: World, s: State, hash: Hash, env: Env)
    requires Inv(s) && s.pending
    ensures var number := Parent(s.current.value);
            var t := Note(s, number, hash);
            OnCanonical(w, s, number, hash, env) ==
            if hash != ParentHash(s.stored[0]) then Outcome(Reset(t), [])
            else if |s.stored| == 1 then Outcome(t.(pending := false), [])
            else Replay(w, t, number, env)
  {
    assert s.stored[|s.stored| - 1].index == |s.stored| - 1;
  }

  /**
   * What a canonical signal for the parent does to a pending buffer: it is executed exactly when the hash
   * matches, there is more than a base, and the node can; it stays pending exactly when only the parent
   * state is missing; a contradicting hash empties it.
   */
  lemma PendingRelease(w: World, s: State, hash: Hash, env: Env)
    requires Inv(s) && s.pending
    ensures var number := Parent(s.current.value);
            var o := OnCanonical(w, s, number, hash, env);
            var matches := hash == ParentHash(s.stored[0]);
            && (o.state.db.Some? <==> matches && |s.stored| > 1 && CanReplay(w, s, number, env))
            && (o.log != [] <==> o.state.db.Some?)
            && (o.state.pending <==> matches && |s.stored| > 1 && env.provider(number).None?)
            && (!matches ==> o.state.stored == [] && o.state.current.None?)
            && (matches && |s.stored| == 1 ==> o.state.stored == s.stored && o.state.executed.None?)
  {
    var number := Parent(s.current.value);
    var t := Note(s, number, hash);
    ReleaseCases(w, s, hash, env);
    assert Inv(t);
    if hash == ParentHash(s.stored[0]) && |s.stored| > 1 {
      if CanReplay(w, t, number, env) {
        ReplayWhole(w, t, number, env);
      } else {
        ReplayNothing(w, t, number, env);
      }
    }
  }

  // ---------------------------------------------------------------- next-base transitions

  /**
   * A base following the in-flight block is buffered exactly when that block was replayed, is unconfirmed and was
   * not discarded for want of a final; either way it starts unexecuted and without a database.
   */
  lemma AwaitingDefers(w: World, s: State, fb: Flashblock, env: Env)
    requires Inv(s) && s.current.Some?
    requires Validate(s.current.value, s.latest.value, fb) == FirstOfNextBlock
    ensures var a := Accept(w, s, fb, env);
            && a.Accepted? && a.state.stored == [fb] && a.state.db.None? && a.state.executed.None?
            && (a.state.pending <==> s.awaiting && (s.finalSent || a.log != []))
            && (!s.finalSent && a.log == [] ==> a.state.revision == s.revision + 1 && a.state.speculation.None?)
            && (s.finalSent || a.log != [] ==> a.state.revision == s.revision && a.state.speculation == s.speculation)
  {
  }

  /** A final built at a next-base transition is never lost and precedes every line of the new block. */
  lemma TransitionFinalKept(w: World, s: State, ev: Event)
    requires Inv(s) && s.current.Some? && !s.finalSent && ev.FlashblockReceived?
    requires !Stale(s, ev.fb, ev.env.now)
    requires ParentMatchesCanonical(s.canonical, ev.fb.block, ParentHash(ev.fb))
    requires Validate(s.current.value, s.latest.value, ev.fb) == FirstOfNextBlock
    ensures var final := BuildFinal(w, s, s.current.value, s.latest.value, ParentHash(ev.fb), ev.env.rootComputes);
            var log := Step(w, s, ev).log;
            && (final.Some? ==> log != [] && log[0] == final.value)
            && forall i :: (if final.Some? then 1 else 0) <= i < |log| ==> log[i].sequence == s.sequence + 1
  {
    AcceptInv(w, s, ev.fb, ev.env);
    var a := Accept(w, s, ev.fb, ev.env);
    assert a == Transition(w, s, ev.fb, ev.env);
    if !a.state.pending {
      AdvanceOrigin(w, a.state, ev.fb, ev.expected, ev.env);
    }
  }

  // ---------------------------------------------------------------- repeated and contradicting signals

  lemma RepeatedNote(s: State, number: nat, hash: Hash)
    ensures Note(Note(s, number, hash), number, hash) == Note(s, number, hash)
  {
  }

  /** The signal releases a pending block 0, which the saturating decrement makes its own parent. */
  ghost predicate ReleasesGenesis(w: World, s: State, number: nat, hash: Hash, env: Env)
    requires Inv(s)
  {
    && s.pending && s.current == Some(0) && number == 0 && hash == ParentHash(s.stored[0])
    && if |s.stored| == 1 then !s.finalSent || s.awaiting else CanReplay(w, s, 0, env)
  }

  /** An immediately repeated canonical signal changes nothing and writes nothing, unless it releases block 0. */
  lemma RepeatedCanonicalIff(w: World, s: State, number: nat, hash: Hash, env: Env)
    requires Inv(s)
    ensures Inv(OnCanonical(w, s, number, hash, env).state)
    ensures var o := OnCanonical(w, s, number, hash, env);
            OnCanonical(w, o.state, number, hash, env) == Outcome(o.state, []) <==> !ReleasesGenesis(w, s, number, hash, env)
  {
    RepeatedNote(s, number, hash);
    CanonicalInv(w, s, number, hash, env);
    var t := Note(s, number, hash);
    assert Inv(t) && OnCanonical(w, s, number, hash, env) == OnCanonical(w, t, number, hash, env);
    if t.pending {
      RepeatedPending(w, t, number, hash, env);
    } else if t.current == Some(number) {
      RepeatedConfirm(w, t, number, hash, env);
    }
  }

  lemma RepeatedPending(w: World, s: State, number: nat, hash: Hash, env: Env)
    requires Inv(s) && s.pending && Note(s, number, hash) == s
    ensures Inv(OnCanonical(w, s, number, hash, env).state)
    ensures var o := OnCanonical(w, s, number, hash, env);
            OnCanonical(w, o.state, number, hash, env) == Outcome(o.state, []) <==> !ReleasesGenesis(w, s, number, hash, env)
  {
    if Parent(s.current.value) != number {
      assert OnCanonical(w, s, number, hash, env) == Outcome(s, []);
    } else if s.current == Some(0) {
      RepeatedGenesis(w, s, hash, env);
    } else {
      RepeatedRelease(w, s, hash, env);
    }
  }

  lemma RepeatedGenesis(w: World, s: State, hash: Hash, env: Env)
    requires Inv(s) && s.pending && s.current == Some(0) && Note(s, 0, hash) == s
    ensures Inv(OnCanonical(w, s, 0, hash, env).state)
    ensures var o := OnCanonical(w, s, 0, hash, env);
            OnCanonical(w, o.state, 0, hash, env) == Outcome(o.state, []) <==> !ReleasesGenesis(w, s, 0, hash, env)
  {
    CanonicalInv(w, s, 0, hash, env);
    ReleaseCases(w, s, hash, env);
    var t := OnCanonical(w, s, 0, hash, env).state;
    assert Note(t, 0, hash) == t;
    if CanReplay(w, s, 0, env) {
      ReplayWhole(w, s, 0, env);
    } else {
      ReplayNothing(w, s, 0, env);
    }
  }

  lemma RepeatedRelease(w: World, s: State, hash: Hash, env: Env)
    requires Inv(s) && s.pending && s.current != Some(0) && Note(s, Parent(s.current.value), hash) == s
    ensures var number := Parent(s.current.value);
            var o := OnCanonical(w, s, number, hash, env);
            Inv(o.state) && OnCanonical(w, o.state, number, hash, env) == Outcome(o.state, [])
  {
    var number := Parent(s.current.value);
    CanonicalInv(w, s, number, hash, env);
    ReleaseCases(w, s, hash, env);
    var o := OnCanonical(w, s, number, hash, env);
    assert Note(o.state, number, hash) == o.state;
    assert o.state.pending || o.state.current != Some(number);
  }

  lemma RepeatedConfirm(w: World, s: State, number: nat, hash: Hash, env: Env)
    requires Inv(s) && !s.pending && s.current == Some(number) && Note(s, number, hash) == s
    ensures Inv(Confirm(w, s, number, hash, env).state)
    ensures var o := Confirm(w, s, number, hash, env);
            OnCanonical(w, o.state, number, hash, env) == Outcome(o.state, [])
  {
    ConfirmInv(w, s, number, hash, env);
  }

  /**
   * A canonical hash the in-flight block does not meet discards it exactly when the block is neither pending
   * nor finished; otherwise the contradiction goes unnoticed. A pending block 0 is its own parent and apart.
   */
  lemma ContradictionResetsIff(w: World, s: State, number: nat, hash: Hash, env: Env)
    requires Inv(s) && s.current == Some(number) && (number > 0 || !s.pending)
    requires BuildFinal(w, s, number, s.latest.value, hash, env.rootComputes).None?
    ensures var o := OnCanonical(w, s, number, hash, env);
            && o.log == []
            && (o.state.current.None? <==> !s.finalSent && !s.pending)
            && (s.finalSent || s.pending ==> o.state == Note(s, number, hash).(awaiting := s.pending && s.awaiting))
  {
    var t := Note(s, number, hash);
    assert BuildFinal(w, t, number, t.latest.value, hash, env.rootComputes)
        == BuildFinal(w, s, number, s.latest.value, hash, env.rootComputes);
  }

  /** The signal for a pending block 0 discards it when it contradicts its base, or when its replay fails. */
  lemma GenesisContradictionIff(w: World, s: State, hash: Hash, env: Env)
    requires Inv(s) && s.pending && s.current == Some(0)
    ensures OnCanonical(w, s, 0, hash, env).state.current.None? <==>
              || hash != ParentHash(s.stored[0])
              || (|s.stored| > 1 && env.provider(0).Some? && !CanReplay(w, s, 0, env))
  {
    ReleaseCases(w, s, hash, env);
    var t := Note(s, 0, hash);
    assert Inv(t);
    if CanReplay(w, t, 0, env) { ReplayWhole(w, t, 0, env); } else { ReplayNothing(w, t, 0, env); }
  }

  /**
   * In every run: a canonical signal contradicting the in-flight block writes nothing, and discards the block
   * exactly when it is not pending and the wire holds no final of it.
   */
  lemma ContradictionInRuns(w: World, evs: seq<Event>, ev: Event)
    requires ev.CanonicalBlock? && ev.number > 0 && Run(w, evs).state.current == Some(ev.number)
    requires var s := Run(w, evs).state;
             BuildFinal(w, s, ev.number, s.latest.value, ev.hash, ev.env.rootComputes).None?
    ensures var before, after := Run(w, evs), Run(w, evs + [ev]);
            && after.log == before.log
            && (after.state.current.None? <==> !before.state.pending && !HasFinal(before.state.sequence, before.log))
            && (after.state.current.Some? ==> after.state.stored == before.state.stored && after.state.db == before.state.db)
  {
    var s := Run(w, evs).state;
    RunFromExtend(w, INITIAL, evs, ev);
    FinalFlagExact(w, evs);
    ContradictionResetsIff(w, s, ev.number, ev.hash, ev.env);
    assert Run(w, evs).log + [] == Run(w, evs).log;
  }

  // ---------------------------------------------------------------- what may start a sequence

  lemma AcceptStarts(w: World, s: State, fb: Flashblock, env: Env)
    requires Inv(s)
    ensures var t := Accept(w, s, fb, env).state;
            && s.canonical == t.canonical && s.sequence <= t.sequence
            && (s.sequence < t.sequence ==> fb.index == 0 && t.stored == [fb])
  {
    if s.current.Some? {
      match Validate(s.current.value, s.latest.value, fb)
      case FirstOfNextBlock => TransitionStarts(w, s, fb, env);
      case _ =>
    }
  }

  lemma TransitionStarts(w: World, s: State, fb: Flashblock, env: Env)
    requires s.current.Some? && s.latest.Some?
    ensures var t := Transition(w, s, fb, env).state;
            t.canonical == s.canonical && t.sequence == s.sequence + 1 && t.stored == [fb]
  {
  }

  lemma AdvanceKeepsSequence(w: World, s: State, fb: Flashblock, expected: Option<Hash>, env: Env)
    requires s.stored != [] && !s.pending
    ensures var t := Advance(w, s, fb, expected, env).state;
            t.canonical == s.canonical && t.sequence == s.sequence && (t.stored == s.stored || t.stored == [])
  {
    var _, _, _ := AdvanceCases(w, s, fb, expected, env);
  }

  /** A base that is at most five seconds old and does not contradict the canonical hash known for its parent. */
  ghost predicate Startable(s: State, fb: Flashblock, now: nat) {
    && fb.index == 0 && (fb.base.Some? ==> now <= fb.base.value.timestamp + 5)
    && (s.canonical.Some? && s.canonical.value.0 == Parent(fb.block) ==> s.canonical.value.1 == ParentHash(fb))
  }

  lemma ProcessStarts(w: World, s: State, ev: Event)
    requires Inv(s) && ev.FlashblockReceived?
    ensures var t := Process(w, s, ev.fb, ev.squash, ev.expected, ev.env).state;
            && s.sequence <= t.sequence
            && (s.sequence < t.sequence ==> (t.stored == [ev.fb] || t.stored == []) && Startable(s, ev.fb, ev.env.now))
  {
    AcceptInv(w, s, ev.fb, ev.env);
    AcceptStarts(w, s, ev.fb, ev.env);
    var a := Accept(w, s, ev.fb, ev.env);
    if a.Accepted? && !a.state.pending {
      AdvanceKeepsSequence(w, a.state, ev.fb, ev.expected, ev.env);
    }
  }

  lemma SignalKeepsSequence(w: World, s: State, ev: Event)
    requires Inv(s) && ev.CanonicalBlock?
    ensures OnCanonical(w, s, ev.number, ev.hash, ev.env).state.sequence == s.sequence
  {
  }

  /** A sequence only ever starts on such a base. */
  lemma SequenceStarts(w: World, s: State, ev: Event)
    requires Inv(s)
    ensures var t := Step(w, s, ev).state;
            && s.sequence <= t.sequence
            && (s.sequence < t.sequence ==>
                  ev.FlashblockReceived? && (t.stored == [ev.fb] || t.stored == []) && Startable(s, ev.fb, ev.env.now))
  {
    match ev
    case FlashblockReceived(_, _, _, _) => ProcessStarts(w, s, ev);
    case CanonicalBlock(_, _, _) => SignalKeepsSequence(w, s, ev);
    case TaskFinished(_) =>
  }

  lemma ProcessKeepsCanonical(w: World, s: State, ev: Event)
    requires Inv(s) && ev.FlashblockReceived?
    ensures Process(w, s, ev.fb, ev.squash, ev.expected, ev.env).state.canonical == s.canonical
  {
    AcceptInv(w, s, ev.fb, ev.env);
    AcceptStarts(w, s, ev.fb, ev.env);
    var a := Accept(w, s, ev.fb, ev.env);
    if a.Accepted? && !a.state.pending {
      AdvanceKeepsSequence(w, a.state, ev.fb, ev.expected, ev.env);
    }
  }

  lemma SignalNotes(w: World, s: State, ev: Event)
    requires Inv(s) && ev.CanonicalBlock?
    ensures OnCanonical(w, s, ev.number, ev.hash, ev.env).state.canonical == Note(s, ev.number, ev.hash).canonical
  {
  }

  /** The canonical head never goes back, whatever resets happen in between. */
  lemma {:induction false} CanonicalHeadAdvances(w: World, s: State, evs: seq<Event>)
    requires Inv(s) && s.canonical.Some?
    ensures var t := RunFrom(w, s, evs).state; t.canonical.Some? && s.canonical.value.0 <= t.canonical.value.0
  {
    if evs != [] {
      var front, last := evs[..|evs| - 1], evs[|evs| - 1];
      CanonicalHeadAdvances(w, s, front);
      var t := RunFrom(w, s, front).state;
      match last {
        case FlashblockReceived(_, _, _, _) => ProcessKeepsCanonical(w, t, last);
        case CanonicalBlock(_, _, _) => SignalNotes(w, t, last);
        case TaskFinished(_) =>
      }
    }
  }

  // ---------------------------------------------------------------- bases that agree with their block

  ghost predicate BaseAgrees(fb: Flashblock) {
    fb.base.Some? ==> fb.base.value.number == fb.block
  }

  /** The in-flight base agrees with its block, and block 0 is not buffered. */
  ghost predicate NoPendingGenesis(s: State) {
    && (s.stored != [] ==> BaseAgrees(s.stored[0]))
    && (s.pending ==> s.current != Some(0))
  }

  lemma AcceptAgrees(w: World, s: State, fb: Flashblock, env: Env)
    requires Inv(s) && NoPendingGenesis(s) && BaseAgrees(fb)
    ensures NoPendingGenesis(Accept(w, s, fb, env).state)
  {
  }

  lemma AdvanceAgrees(w: World, s: State, fb: Flashblock, expected: Option<Hash>, env: Env)
    requires Inv(s) && NoPendingGenesis(s) && s.current.Some? && !s.pending
    ensures NoPendingGenesis(Advance(w, s, fb, expected, env).state)
  {
    if Assemble(w.converts, s.stored).Some? {
      assert s.stored[0].block == s.current.value != 0;
    }
    var _, _, _ := AdvanceCases(w, s, fb, expected, env);
  }

  lemma ProcessAgrees(w: World, s: State, ev: Event)
    requires Inv(s) && NoPendingGenesis(s) && ev.FlashblockReceived? && BaseAgrees(ev.fb)
    ensures NoPendingGenesis(Process(w, s, ev.fb, ev.squash, ev.expected, ev.env).state)
  {
    AcceptInv(w, s, ev.fb, ev.env);
    AcceptAgrees(w, s, ev.fb, ev.env);
    var a := Accept(w, s, ev.fb, ev.env);
    if a.Accepted? && !a.state.pending {
      AdvanceAgrees(w, a.state, ev.fb, ev.expected, ev.env);
    }
  }

  lemma SignalAgrees(w: World, s: State, ev: Event)
    requires Inv(s) && NoPendingGenesis(s) && ev.CanonicalBlock?
    ensures NoPendingGenesis(OnCanonical(w, s, ev.number, ev.hash, ev.env).state)
  {
    var t := Note(s, ev.number, ev.hash);
    if t.pending {
      ReplayAgrees(w, t, ev.number, ev.env);
    } else {
      ConfirmAgrees(w, t, ev.number, ev.hash, ev.env);
    }
  }

  lemma ReplayAgrees(w: World, s: State, number: nat, env: Env)
    requires s.stored != [] && NoPendingGenesis(s)
    ensures NoPendingGenesis(Replay(w, s, number, env).state)
  {
  }

  lemma ConfirmAgrees(w: World, s: State, number: nat, hash: Hash, env: Env)
    requires NoPendingGenesis(s)
    ensures NoPendingGenesis(Confirm(w, s, number, hash, env).state)
  {
  }

  lemma {:induction false} RunAgrees(w: World, evs: seq<Event>)
    requires forall ev <- evs :: ev.FlashblockReceived? ==> BaseAgrees(ev.fb)
    ensures NoPendingGenesis(Run(w, evs).state)
  {
    if evs != [] {
      var front, last := evs[..|evs| - 1], evs[|evs| - 1];
      var s := Run(w, front).state;
      RunAgrees(w, front);
      match last {
        case FlashblockReceived(_, _, _, _) => ProcessAgrees(w, s, last);
        case CanonicalBlock(_, _, _) => SignalAgrees(w, s, last);
        case TaskFinished(_) =>
      }
    }
  }

  /** In runs whose bases agree with their block number, a repeated canonical signal never does anything. */
  lemma RepeatedSignalInRuns(w: World, evs: seq<Event>, ev: Event)
    requires ev.CanonicalBlock? && forall prior <- evs :: prior.FlashblockReceived? ==> BaseAgrees(prior.fb)
    ensures Run(w, evs + [ev] + [ev]) == Run(w, evs + [ev])
  {
    RunAgrees(w, evs);
    RepeatedCanonicalIff(w, Run(w, evs).state, ev.number, ev.hash, ev.env);
    RunFromExtend(w, INITIAL, evs, ev);
    RunFromExtend(w, INITIAL, evs + [ev], ev);
    assert Run(w, evs + [ev]).log + [] == Run(w, evs + [ev]).log;
  }
}
