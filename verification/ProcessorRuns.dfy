/**
 * Theorems about whole runs of the processor: any finite list of flashblocks, canonical signals and
 * background completions, with any answers from the node.
 */
module ProcessorRuns {
  import opened Wrappers
  import opened Flashblocks
  import opened ProcessorSpec
  import opened ProcessorInvariants
  import opened ProcessorEmissions
  import opened ProcessorWire

  /** Runs `evs` from `s`, collecting everything written. */
  ghost function RunFrom(w: World, s: State, evs: seq<Event>): (o: Outcome)
    requires Inv(s)
    ensures Inv(o.state)
  {
    if evs == [] then Outcome(s, []) else
    var before := RunFrom(w, s, evs[..|evs| - 1]);
    var last := Step(w, before.state, evs[|evs| - 1]);
    StepInv(w, before.state, evs[|evs| - 1]);
    Outcome(last.state, before.log + last.log)
  }

  lemma RunFromExtend(w: World, s: State, evs: seq<Event>, ev: Event)
    requires Inv(s)
    ensures var before := RunFrom(w, s, evs);
            var step := Step(w, before.state, ev);
            RunFrom(w, s, evs + [ev]) == Outcome(step.state, before.log + step.log)
  {
    assert (evs + [ev])[..|evs|] == evs;
  }

  /** A run from start-up. Joint state invariant: every state reached is well shaped, exact and cache-live. */
  ghost function Run(w: World, evs: seq<Event>): (o: Outcome)
    ensures Inv(o.state)
  {
    RunFrom(w, INITIAL, evs)
  }

  ghost predicate AllHonest(chain: nat -> StateId, evs: seq<Event>) {
    forall ev <- evs :: Honest(chain, ev)
  }

  // ---------------------------------------------------------------- exactly once, confluence

  lemma {:induction false} RunRooted(w: World, chain: nat -> StateId, evs: seq<Event>)
    requires AllHonest(chain, evs)
    ensures KeepsProvenance(w, chain, Run(w, evs))
  {
    if evs != [] {
      var front, last := evs[..|evs| - 1], evs[|evs| - 1];
      RunRooted(w, chain, front);
      StepRooted(w, chain, Run(w, front).state, last);
    }
  }

  /** Exactly-once refinement: the live database is one direct execution of the executed flashblocks. */
  lemma ExactlyOnce(w: World, chain: nat -> StateId, evs: seq<Event>)
    requires AllHonest(chain, evs)
    ensures var s := Run(w, evs).state;
            s.db.Some? ==>
              s.db.value == Direct(chain(Parent(s.current.value)), s.stored[..s.executed.value + 1])
  {
    RunRooted(w, chain, evs);
  }

  /**
   * Confluence: two runs over one chain that hold the same flashblocks up to the same executed index have
   * equal databases, however their squash verdicts, pending delays and replays differed.
   */
  lemma Confluence(w: World, w': World, chain: nat -> StateId, left: seq<Event>, right: seq<Event>)
    requires AllHonest(chain, left) && AllHonest(chain, right)
    ensures var a, b := Run(w, left).state, Run(w', right).state;
            a.db.Some? && b.db.Some? && a.executed == b.executed
            && a.stored[..a.executed.value + 1] == b.stored[..b.executed.value + 1]
            ==> a.db == b.db
  {
    ExactlyOnce(w, chain, left);
    ExactlyOnce(w', chain, right);
    var a, b := Run(w, left).state, Run(w', right).state;
    if a.db.Some? && b.db.Some? && a.executed == b.executed {
      assert a.stored[..a.executed.value + 1][0] == a.stored[0];
      assert b.stored[..b.executed.value + 1][0] == b.stored[0];
    }
  }

  // ---------------------------------------------------------------- emissions

  lemma {:induction false} RunSound(w: World, evs: seq<Event>)
    ensures forall e <- Run(w, evs).log :: Sound(w, e)
  {
    if evs != [] {
      var front, last := evs[..|evs| - 1], evs[|evs| - 1];
      RunSound(w, front);
      StepSound(w, Run(w, front).state, last);
    }
  }

  /** The final header: everything stored, with the root of executing 0..=executed on the parent state. */
  ghost function FinalHeader(w: World, chain: nat -> StateId, fbs: seq<Flashblock>, executed: nat): Option<Header>
    requires executed < |fbs|
  {
    var assembled := Assemble(w.converts, fbs);
    if assembled.None? then None else
    var db := Direct(chain(Parent(fbs[0].block)), fbs[..executed + 1]);
    Some(assembled.value.(stateRoot := w.root(db.parent, db.bundle)))
  }

  /**
   * Final soundness: any final written with a database present, on any path and with or without a cache
   * hit, carries that header, and its hash is the hash of it.
   */
  lemma FinalSoundness(w: World, chain: nat -> StateId, evs: seq<Event>, e: Emission)
    requires AllHonest(chain, evs) && e in Run(w, evs).log && IsFinal(e) && e.db.Some?
    ensures e.executed.Some? && e.executed.value < |e.flashblocks|
    ensures FinalHeader(w, chain, e.flashblocks, e.executed.value) == Some(e.header)
    ensures w.seal(e.header) == e.hash
    ensures e.path == Peek ==> e.executed.value == |e.flashblocks| - 1
  {
    RunRooted(w, chain, evs);
    RunSound(w, evs);
  }

  /** Every final answers to the event that wrote it: the next base's parent hash, or the signalled hash. */
  lemma {:induction false} FinalTriggered(w: World, evs: seq<Event>, e: Emission) returns (i: nat)
    requires e in Run(w, evs).log && IsFinal(e)
    ensures i < |evs| && e in Step(w, Run(w, evs[..i]).state, evs[i]).log
    ensures Trigger(evs[i], e.path) == Some(e.hash)
  {
    var n := |evs| - 1;
    var front := evs[..n];
    if e in Run(w, front).log {
      i := FinalTriggered(w, front, e);
      assert front[..i] == evs[..i];
    } else {
      i := n;
      StepSound(w, Run(w, front).state, evs[n]);
    }
  }

  lemma DirectCoversIff(parent: StateId, fbs: seq<Flashblock>, n: nat)
    requires n <= |fbs|
    ensures Direct(parent, fbs[..n]) == Direct(parent, fbs) <==> Transactions(fbs[n..]) == []
  {
    var head, tail := fbs[..n], fbs[n..];
    assert fbs == head + tail;
    TransactionsConcat(head, tail);
    assert |Direct(parent, fbs).bundle| == |Direct(parent, head).bundle| + |Transactions(tail)|;
    if Transactions(tail) == [] {
      assert Transactions(head) + Transactions(tail) == Transactions(head);
    }
  }

  /** A final's database covers the whole block exactly when no transaction was left deferred behind it. */
  lemma FinalCoversBlockIff(w: World, evs: seq<Event>, e: Emission)
    requires e in Run(w, evs).log && e.db.Some?
    ensures e.executed.Some? && e.executed.value < |e.flashblocks|
    ensures e.db.value == Direct(e.db.value.parent, e.flashblocks)
       <==> Transactions(e.flashblocks[e.executed.value + 1..]) == []
  {
    RunSound(w, evs);
    DirectCoversIff(e.db.value.parent, e.flashblocks, e.executed.value + 1);
  }

  // ---------------------------------------------------------------- order and uniqueness on the wire

  lemma {:induction false} RunLog(w: World, evs: seq<Event>)
    ensures LogInv(Run(w, evs).state, Run(w, evs).log)
  {
    if evs != [] {
      var front, last := evs[..|evs| - 1], evs[|evs| - 1];
      RunLog(w, front);
      StepLog(w, Run(w, front).state, last, Run(w, front).log);
    }
  }

  /** Wire order, for any two lines of a run; non-final lines are never numbered 0. */
  lemma WireOrder(w: World, evs: seq<Event>, i: nat, j: nat)
    requires i < j < |Run(w, evs).log|
    ensures var a, b := Run(w, evs).log[i], Run(w, evs).log[j];
            && a.sequence <= b.sequence
            && (a.sequence == b.sequence && a.path != Guarded ==> a.index < b.index)
            && (a.sequence == b.sequence && a.path == Guarded ==> a.index <= b.index)
            && (a.sequence == b.sequence && b.path == Guarded ==> a.path == Partial)
            && (a.path == Partial ==> a.index > 0) && (b.path == Partial ==> b.index > 0)
  {
    RunLog(w, evs);
    RunSound(w, evs);
    assert Before(Run(w, evs).log[i], Run(w, evs).log[j]);
    assert Run(w, evs).log[i] in Run(w, evs).log && Run(w, evs).log[j] in Run(w, evs).log;
  }

  /** In every run the flag holds exactly when the in-flight sequence has written a final. */
  lemma FinalFlagExact(w: World, evs: seq<Event>)
    ensures var o := Run(w, evs);
            o.state.finalSent <==> o.state.current.Some? && HasFinal(o.state.sequence, o.log)
  {
    RunLog(w, evs);
  }

  ghost predicate UniqueFinals(log: seq<Emission>) {
    forall i, j :: 0 <= i < j < |log| && log[i].sequence == log[j].sequence ==> !(IsFinal(log[i]) && IsFinal(log[j]))
  }

  /** A peek-final flashblock of the in-flight block gets a line although its sequence already had a final. */
  ghost predicate RepeatsFinal(w: World, s: State, ev: Event)
    requires Inv(s)
  {
    && s.finalSent && ev.FlashblockReceived? && ev.expected.Some?
    && s.current == Some(ev.fb.block) && Step(w, s, ev).log != []
  }

  /** Where lines come from; none is ever attributed to an earlier sequence than the in-flight one. */
  ghost predicate Originates(s: State, ev: Event, log: seq<Emission>) {
    && |log| <= 2
    && (|log| == 2 ==> log[0].sequence < log[1].sequence)
    && forall e <- log ::
         && s.sequence <= e.sequence
         && (e.path == Peek ==> ev.FlashblockReceived? && ev.expected.Some?)
         && (e.path == Peek && e.sequence == s.sequence ==> s.current == Some(ev.fb.block))
  }

  lemma AcceptOrigin(w: World, s: State, fb: Flashblock, env: Env)
    requires Inv(s)
    ensures var a := Accept(w, s, fb, env);
            a.Accepted? ==>
              && |a.log| <= 1 && (forall e <- a.log :: e.sequence == s.sequence && e.path == Guarded)
              && s.sequence <= a.state.sequence && (a.log != [] ==> s.sequence < a.state.sequence)
              && (a.state.sequence == s.sequence ==> s.current == Some(fb.block))
  {
  }

  lemma ProcessOrigin(w: World, s: State, ev: Event)
    requires Inv(s) && ev.FlashblockReceived?
    ensures Originates(s, ev, Step(w, s, ev).log)
  {
    AcceptInv(w, s, ev.fb, ev.env);
    AcceptOrigin(w, s, ev.fb, ev.env);
    var a := Accept(w, s, ev.fb, ev.env);
    if a.Accepted? && !a.state.pending {
      AdvanceOrigin(w, a.state, ev.fb, ev.expected, ev.env);
      var n := Advance(w, a.state, ev.fb, ev.expected, ev.env).log;
      assert Originates(s, ev, a.log) && Originates(s, ev, a.log + n);
    }
  }

  lemma StepOrigin(w: World, s: State, ev: Event)
    requires Inv(s)
    ensures Originates(s, ev, Step(w, s, ev).log)
  {
    match ev
    case FlashblockReceived(_, _, _, _) => ProcessOrigin(w, s, ev);
    case CanonicalBlock(number, hash, env) => if s.pending { CanonicalOrigin(w, s, number, hash, env); }
    case TaskFinished(_) =>
  }

  lemma AdvanceOrigin(w: World, s: State, fb: Flashblock, expected: Option<Hash>, env: Env)
    requires Inv(s) && Fresh(s, fb) && !s.pending
    ensures var o := Advance(w, s, fb, expected, env);
            && |o.log| <= 1
            && forall e <- o.log :: e.sequence == s.sequence && e.path == (if expected.Some? then Peek else Partial)
  {
    var header, db, x := AdvanceCases(w, s, fb, expected, env);
    if Advance(w, s, fb, expected, env).log != [] {
      ExecutionLine(w, s, header, fb.index, Deferred(s.stored, s.executed), s.executed.None?, expected, db, env);
    }
  }

  lemma CanonicalOrigin(w: World, s: State, number: nat, hash: Hash, env: Env)
    requires Inv(s) && s.pending
    ensures var o := OnCanonical(w, s, number, hash, env);
            && |o.log| <= 1
            && forall e <- o.log :: e.sequence == s.sequence && e.path == Partial
  {
  }

  /** Without a repeat, a final written for the in-flight sequence is its first. */
  lemma FirstFinal(w: World, s: State, ev: Event, log: seq<Emission>)
    requires Inv(s) && LogInv(s, log) && !RepeatsFinal(w, s, ev)
    ensures forall e <- Step(w, s, ev).log :: IsFinal(e) && e.sequence == s.sequence ==> !HasFinal(s.sequence, log)
  {
    StepLog(w, s, ev, log);
    StepOrigin(w, s, ev);
    var added := Step(w, s, ev).log;
    forall e <- added | e.path == Guarded && e.sequence == s.sequence ensures !HasFinal(s.sequence, log) {
      var j :| 0 <= j < |added| && added[j] == e;
      assert (log + added)[|log| + j] == e;
      assert forall i :: 0 <= i < |log| ==> Before((log + added)[i], e) && (log + added)[i] == log[i];
    }
  }

  lemma UniqueAppend(log: seq<Emission>, added: seq<Emission>, sequence: nat)
    requires |added| <= 2 && (|added| == 2 ==> added[0].sequence < added[1].sequence)
    requires forall e <- log :: e.sequence <= sequence
    requires forall e <- added :: sequence <= e.sequence
    requires forall e <- added :: IsFinal(e) && e.sequence == sequence ==> !HasFinal(sequence, log)
    ensures UniqueFinals(log) ==> UniqueFinals(log + added)
  {
    var all := log + added;
    forall i, j | UniqueFinals(log) && 0 <= i < j < |all| && all[i].sequence == all[j].sequence
      ensures !(IsFinal(all[i]) && IsFinal(all[j]))
    {
      if j >= |log| {
        assert all[j] == added[j - |log|] && all[j] in added;
        if i < |log| {
          assert all[i] == log[i] && log[i] in log;
        }
      }
    }
  }

  lemma UniquePrefix(log: seq<Emission>, added: seq<Emission>)
    ensures UniqueFinals(log + added) ==> UniqueFinals(log)
  {
    var all := log + added;
    assert forall i :: 0 <= i < |log| ==> all[i] == log[i];
  }

  lemma StepUnique(w: World, s: State, ev: Event, log: seq<Emission>)
    requires Inv(s) && LogInv(s, log)
    ensures UniqueFinals(log + Step(w, s, ev).log) <==> UniqueFinals(log) && !RepeatsFinal(w, s, ev)
  {
    var added := Step(w, s, ev).log;
    UniquePrefix(log, added);
    if RepeatsFinal(w, s, ev) {
      RepeatIsPeek(w, s, ev);
      var i :| 0 <= i < |log| && log[i].sequence == s.sequence && IsFinal(log[i]);
      assert (log + added)[i] == log[i] && (log + added)[|log|] == added[0];
    } else {
      StepOrigin(w, s, ev);
      FirstFinal(w, s, ev, log);
      UniqueAppend(log, added, s.sequence);
    }
  }

  lemma SameBlockAppends(w: World, s: State, fb: Flashblock, env: Env)
    requires Inv(s) && s.current == Some(fb.block)
    ensures var a := Accept(w, s, fb, env); a.Accepted? ==> a.log == [] && a.state.sequence == s.sequence
  {
  }

  lemma RepeatIsPeek(w: World, s: State, ev: Event)
    requires Inv(s) && RepeatsFinal(w, s, ev)
    ensures var log := Step(w, s, ev).log; log[0].sequence == s.sequence && IsFinal(log[0])
  {
    ProcessLines(w, s, ev.fb, ev.squash, ev.expected, ev.env);
    SameBlockAppends(w, s, ev.fb, ev.env);
    var a := Accept(w, s, ev.fb, ev.env);
    AdvanceOrigin(w, a.state, ev.fb, ev.expected, ev.env);
    var o := Advance(w, a.state, ev.fb, ev.expected, ev.env);
    assert a.log + o.log == o.log;
    assert o.log[0] in o.log;
  }

  /** Executing a buffer that ends in `fb` would succeed, and meet the final hash if one is expected. */
  ghost predicate Executes(w: World, s: State, fb: Flashblock, expected: Option<Hash>, env: Env)
    requires s.stored != []
  {
    var header := Assemble(w.converts, s.stored);
    && header.Some? && env.executes
    && env.headers(Parent(fb.block)) && env.headers(Parent(header.value.base.number))
    && (s.db.Some? || env.provider(Parent(fb.block)).Some?)
    && (expected.Some? ==> MeetsFinalHash(w, s, fb, header.value, expected.value, env))
  }

  ghost predicate MeetsFinalHash(w: World, s: State, fb: Flashblock, header: Header, expected: Hash, env: Env)
    requires s.db.Some? || env.provider(Parent(fb.block)).Some?
  {
    var start := if s.db.Some? then s.db.value else Db(env.provider(Parent(fb.block)).value, []);
    var txs := Deferred(s.stored, s.executed);
    var revision := s.revision + if s.executed.None? || txs != [] then 1 else 0;
    var root := RootFor(w, s, header.base.number, revision, Some(Execute(start, s.executed.None?, txs)), env.rootComputes);
    root.Some? && w.seal(header.(stateRoot := root.value)) == expected
  }

  /**
   * The guards of a delta's execution: it arrives fresh, in sequence, of the same payload, not to be
   * squashed or buffered, and the buffer it completes executes.
   */
  ghost predicate DeltaExecutes(w: World, s: State, ev: Event)
    requires Inv(s)
  {
    && ev.FlashblockReceived? && s.current.Some? && !s.pending && !ev.squash
    && Validate(s.current.value, s.latest.value, ev.fb) == NextInSequence && !Stale(s, ev.fb, ev.env.now)
    && ev.fb.payloadId == s.stored[0].payloadId
    && Executes(w, Appended(s, ev.fb), ev.fb, ev.expected, ev.env)
  }

  /** The guards that let a second final through: a delta executes as a peek-final after its block's final. */
  ghost predicate PeekAfterFinal(w: World, s: State, ev: Event)
    requires Inv(s)
  {
    s.finalSent && DeltaExecutes(w, s, ev) && ev.expected.Some?
  }

  ghost function Appended(s: State, fb: Flashblock): State {
    s.(stored := s.stored + [fb], latest := Some(fb.index))
  }

  lemma ExecutesIff(w: World, s: State, fb: Flashblock, expected: Option<Hash>, env: Env)
    requires s.stored != []
    ensures Advance(w, s, fb, expected, env).log != [] <==> Executes(w, s, fb, expected, env)
  {
  }

  /** For the in-flight block a flashblock writes a line exactly when it passes the delta guards. */
  lemma SameBlockIff(w: World, s: State, ev: Event)
    requires Inv(s) && ev.FlashblockReceived? && s.current == Some(ev.fb.block)
    ensures Process(w, s, ev.fb, ev.squash, ev.expected, ev.env).log != [] <==> DeltaExecutes(w, s, ev)
  {
    var a := Accept(w, s, ev.fb, ev.env);
    assert a.Accepted? ==> a == Accepted(Appended(s, ev.fb), []);
    ExecutesIff(w, Appended(s, ev.fb), ev.fb, ev.expected, ev.env);
  }

  lemma RepeatsIff(w: World, s: State, ev: Event)
    requires Inv(s)
    ensures RepeatsFinal(w, s, ev) <==> PeekAfterFinal(w, s, ev)
  {
    if ev.FlashblockReceived? && s.current == Some(ev.fb.block) {
      SameBlockIff(w, s, ev);
    }
  }

  /** No event of the run is a peek-final flashblock let through after its block's final. */
  ghost predicate NeverRepeats(w: World, evs: seq<Event>) {
    evs != [] ==>
      var front := evs[..|evs| - 1];
      NeverRepeats(w, front) && !PeekAfterFinal(w, Run(w, front).state, evs[|evs| - 1])
  }

  /**
   * At-most-once finality, exactly: a run writes two finals for one sequence if and only if some
   * peek-final flashblock was still executed after the sequence's final.
   */
  lemma {:induction false} AtMostOneFinalIff(w: World, evs: seq<Event>)
    ensures UniqueFinals(Run(w, evs).log) <==> NeverRepeats(w, evs)
  {
    if evs != [] {
      var front, last := evs[..|evs| - 1], evs[|evs| - 1];
      AtMostOneFinalIff(w, front);
      RunLog(w, front);
      StepUnique(w, Run(w, front).state, last, Run(w, front).log);
      RepeatsIff(w, Run(w, front).state, last);
    }
  }
}
