/**
 * What every step of the processor keeps: the shape of its eleven fields, exactly-once execution of the
 * stored flashblocks, and the meaning of the speculative state-root cache.
 */
module ProcessorInvariants {
  import opened Wrappers
  import opened Flashblocks
  import opened ProcessorSpec

  /** Stored flashblocks are numbered 0, 1, 2, ... and share one block number and one payload. */
  ghost predicate Sequential(stored: seq<Flashblock>, block: nat) {
    forall i :: 0 <= i < |stored| ==>
                  stored[i].index == i && stored[i].block == block && stored[i].payloadId == stored[0].payloadId
  }

  /** Which fields are present together, and how the three indices are ordered. */
  ghost predicate Shape(s: State) {
    && (s.current.Some? <==> s.latest.Some?)
    && (s.current.Some? <==> s.stored != [])
    && (s.current.Some? ==> Sequential(s.stored, s.current.value) && s.latest.value == |s.stored| - 1)
    && (s.executed.Some? ==> s.current.Some? && s.executed.value <= s.latest.value)
    && (s.pending ==> s.current.Some? && s.db.None?)
    && (s.pending && s.executed.Some? ==> s.executed.value < s.latest.value)
    && (!s.pending ==> (s.db.Some? <==> s.executed.Some?))
    && (s.finalSent ==> s.current.Some?)
    && (s.current.Some? ==> s.sequence > 0)
  }

  /** The incrementally maintained database is the one a single direct execution would give. */
  ghost predicate Exact(s: State)
    requires Shape(s)
  {
    s.db.Some? ==> s.db.value == Direct(s.db.value.parent, s.stored[..s.executed.value + 1])
  }

  /** A speculation launched at the live revision captured the live bundle of the in-flight block. */
  ghost predicate CacheLive(s: State) {
    s.speculation.Some? ==>
      && s.speculation.value.revision <= s.revision
      && (s.db.Some? && s.speculation.value.revision == s.revision ==>
            s.speculation.value.bundle == s.db.value.bundle && s.current == Some(s.speculation.value.block))
  }

  ghost predicate Inv(s: State) {
    Shape(s) && Exact(s) && CacheLive(s)
  }

  // ---------------------------------------------------------------- exactly-once execution

  /** On a sequential buffer, what remains to run is exactly the tail after the last executed index. */
  lemma {:induction false} DeferredIsTail(stored: seq<Flashblock>, block: nat, executed: Option<nat>, from: nat)
    requires Sequential(stored, block)
    requires from == (if executed.None? then 0 else executed.value + 1) <= |stored|
    ensures Deferred(stored, executed) == Transactions(stored[from..])
  {
    if stored != [] {
      var front := stored[..|stored| - 1];
      assert Sequential(front, block);
      if from == |stored| {
        NothingDeferred(stored, block, executed);
      } else {
        DeferredIsTail(front, block, executed, from);
        assert stored[from..][..|stored[from..]| - 1] == front[from..];
      }
    }
  }

  lemma {:induction false} NothingDeferred(stored: seq<Flashblock>, block: nat, executed: Option<nat>)
    requires Sequential(stored, block) && executed.Some? && |stored| <= executed.value + 1
    ensures Deferred(stored, executed) == []
  {
    if stored != [] {
      assert Sequential(stored[..|stored| - 1], block);
      NothingDeferred(stored[..|stored| - 1], block, executed);
    }
  }

  lemma {:induction false} AppliedSplit(stored: seq<Flashblock>, from: nat)
    requires from <= |stored|
    ensures Applied(Transactions(stored)) == Applied(Transactions(stored[..from])) + Applied(Transactions(stored[from..]))
  {
    assert stored == stored[..from] + stored[from..];
    TransactionsConcat(stored[..from], stored[from..]);
  }

  /** Running the deferred tail on an exact database makes it exact for the whole buffer. */
  lemma AdvanceExact(s: State, db: Db)
    requires Shape(s) && Exact(s) && s.current.Some? && !s.pending
    requires if s.db.Some? then db == s.db.value else db.bundle == []
    ensures Execute(db, s.executed.None?, Deferred(s.stored, s.executed)) == Direct(db.parent, s.stored)
  {
    var from := if s.executed.None? then 0 else s.executed.value + 1;
    DeferredIsTail(s.stored, s.current.value, s.executed, from);
    AppliedSplit(s.stored, from);
    TailCompletes(db, s.stored, from, s.executed.None?);
  }

  lemma {:induction false} TailCompletes(db: Db, stored: seq<Flashblock>, from: nat, first: bool)
    requires from <= |stored| && (first ==> from == 0 && db.bundle == [])
    requires !first ==> db == Direct(db.parent, stored[..from])
    requires Applied(Transactions(stored)) == Applied(Transactions(stored[..from])) + Applied(Transactions(stored[from..]))
    ensures Execute(db, first, Transactions(stored[from..])) == Direct(db.parent, stored)
  {
    if first {
      assert stored[from..] == stored;
      JoinOps([], [PreExecution], Applied(Transactions(stored)));
    } else {
      JoinOps([PreExecution], Applied(Transactions(stored[..from])), Applied(Transactions(stored[from..])));
    }
  }

  lemma JoinOps(a: seq<Op>, b: seq<Op>, c: seq<Op>)
    ensures a + b + [] + c == a + (b + c) && [] + (b + c) == b + c && a + b + c == a + (b + c)
  {
  }

  // ---------------------------------------------------------------- steps

  lemma ResetInv(s: State)
    ensures Inv(Reset(s))
  {
  }

  lemma StartInv(s: State, fb: Flashblock)
    requires fb.index == 0 && s.db.None? && CacheLive(s)
    ensures Inv(StartBlock(s, fb)) && Inv(StartBlock(s, fb).(pending := true))
  {
  }

  lemma AppendInv(s: State, fb: Flashblock)
    requires Inv(s) && s.current == Some(fb.block) && fb.index == s.latest.value + 1
    requires fb.payloadId == s.stored[0].payloadId
    ensures Inv(s.(stored := s.stored + [fb], latest := Some(fb.index)))
  {
    var s' := s.(stored := s.stored + [fb], latest := Some(fb.index));
    assert Sequential(s'.stored, fb.block);
    if s.db.Some? {
      assert s'.stored[..s.executed.value + 1] == s.stored[..s.executed.value + 1];
    }
  }

  /** The flashblock just accepted is last, and nothing at or after it has been executed. */
  ghost predicate Fresh(s: State, fb: Flashblock) {
    && s.current == Some(fb.block) && s.latest == Some(fb.index)
    && s.stored != [] && s.stored[|s.stored| - 1] == fb
    && (s.executed.Some? ==> s.executed.value < fb.index)
  }

  lemma TransitionInv(w: World, s: State, fb: Flashblock, env: Env)
    requires Inv(s) && s.current.Some? && fb.index == 0
    ensures var a := Transition(w, s, fb, env); Inv(a.state) && Fresh(a.state, fb)
  {
    var failed := !s.finalSent && BuildFinal(w, s, s.current.value, s.latest.value, ParentHash(fb), env.rootComputes).None?;
    var kept := if failed then Reset(s) else s;
    StartInv(kept.(db := None), fb);
    assert Transition(w, s, fb, env).state == StartBlock(kept.(db := None), fb).(pending := kept.awaiting);
  }

  lemma AcceptInv(w: World, s: State, fb: Flashblock, env: Env)
    requires Inv(s)
    ensures var a := Accept(w, s, fb, env); Inv(a.state) && (a.Accepted? ==> Fresh(a.state, fb))
  {
    ResetInv(s);
    if s.current.None? {
      if fb.index == 0 { StartInv(s, fb); }
    } else {
      match Validate(s.current.value, s.latest.value, fb) {
        case NextInSequence =>
          if fb.payloadId == s.stored[0].payloadId { AppendInv(s, fb); }
        case FirstOfNextBlock => TransitionInv(w, s, fb, env);
        case InvalidNewBlockIndex => if fb.index == 0 { StartInv(s.(db := None), fb); }
        case _ =>
      }
    }
  }

  /** An accepted flashblock that is executed rather than buffered or squashed. */
  ghost predicate Advances(s: State, fb: Flashblock, squash: bool, expected: Option<Hash>) {
    s.stored != [] && !s.pending && !squash && (fb.index == 0 ==> expected.Some?)
  }

  /** What one flashblock writes: nothing, the previous block's final, or that and the line of its own execution. */
  lemma ProcessLines(w: World, s: State, fb: Flashblock, squash: bool, expected: Option<Hash>, env: Env)
    requires Inv(s)
    ensures Inv(Accept(w, s, fb, env).state)
    ensures var log, a := Process(w, s, fb, squash, expected, env).log, Accept(w, s, fb, env);
            || log == []
            || (a.Accepted? && Fresh(a.state, fb) && log == a.log)
            || (a.Accepted? && Fresh(a.state, fb) && Advances(a.state, fb, squash, expected)
                && log == a.log + Advance(w, a.state, fb, expected, env).log)
  {
    AcceptInv(w, s, fb, env);
    var a := Accept(w, s, fb, env);
    if a.Accepted? { assert a.log + [] == a.log; }
  }

  lemma LaunchInv(s: State, block: nat, index: nat, runtime: bool)
    requires Inv(s) && s.current == Some(block)
    ensures Inv(Launch(s, block, index, runtime))
  {
  }

  /** Committing an execution that brought the database up to the whole buffer. */
  lemma CommitInv(s: State, x: Execution, fb: Flashblock, runtime: bool)
    requires Inv(s) && Fresh(s, fb) && !s.pending
    requires x.Executed? && x.db == Direct(x.db.parent, s.stored)
    requires x.changed || (s.db.Some? && x.db.bundle == s.db.value.bundle)
    ensures Inv(Commit(s, x, fb.block, fb.index, runtime))
  {
    var s' := s.(db := Some(x.db), executed := Some(fb.index), finalSent := s.finalSent || x.emission.path == Peek,
    revision := s.revision + (if x.changed then 1 else 0));
    assert s.stored[..fb.index + 1] == s.stored;
    LaunchInv(s', fb.block, fb.index, runtime);
  }

  /** The database an accepted flashblock runs on: the live one, or a fresh one on the parent snapshot. */
  ghost predicate RunsOn(s: State, fb: Flashblock, env: Env, db: Db) {
    if s.db.Some? then db == s.db.value
    else env.provider(Parent(fb.block)).Some? && db == Db(env.provider(Parent(fb.block)).value, [])
  }

  ghost function RunDeferred(w: World, s: State, fb: Flashblock, header: Header, expected: Option<Hash>,
                             db: Db, env: Env): Execution
    requires s.stored != []
  {
    ExecuteFlashblock(w, s, header, fb.index, Deferred(s.stored, s.executed), s.executed.None?, expected, db, env)
  }

  /** Every execution of an accepted flashblock yields the direct database of the whole buffer. */
  lemma ExecutionExact(w: World, s: State, fb: Flashblock, header: Header, expected: Option<Hash>, db: Db, env: Env)
    requires Inv(s) && Fresh(s, fb) && !s.pending && RunsOn(s, fb, env, db)
    ensures var x := RunDeferred(w, s, fb, header, expected, db, env);
            x.Executed? ==>
              && x.db == Direct(db.parent, s.stored)
              && (x.changed || (s.db.Some? && x.db.bundle == s.db.value.bundle))
  {
    AdvanceExact(s, db);
    if s.executed.Some? && Deferred(s.stored, s.executed) == [] {
      assert Execute(db, false, []).bundle == db.bundle;
    }
  }

  /** Executing an accepted flashblock resets, defers, or commits one execution and writes its line. */
  lemma AdvanceCases(w: World, s: State, fb: Flashblock, expected: Option<Hash>, env: Env)
    returns (header: Header, db: Db, x: Execution)
    requires s.stored != [] && !s.pending
    ensures var o := Advance(w, s, fb, expected, env);
            || (o.log == [] && (o.state == Reset(s) || o.state == s.(pending := true, db := None)))
            || (&& Assemble(w.converts, s.stored) == Some(header) && RunsOn(s, fb, env, db)
                && x == RunDeferred(w, s, fb, header, expected, db, env) && x.Executed?
                && o == Outcome(Commit(s, x, fb.block, fb.index, env.runtime), [x.emission]))
  {
    var assembled := Assemble(w.converts, s.stored);
    var bootstrap := env.provider(Parent(fb.block));
    header := if assembled.Some? then assembled.value else Header(Base(0, 0, 0, 0), [], 0, 0);
    db := if s.db.Some? then s.db.value else if bootstrap.Some? then Db(bootstrap.value, []) else Db(0, []);
    x := RunDeferred(w, s, fb, header, expected, db, env);
  }

  lemma AdvanceInv(w: World, s: State, fb: Flashblock, expected: Option<Hash>, env: Env)
    requires Inv(s) && Fresh(s, fb) && !s.pending
    ensures Inv(Advance(w, s, fb, expected, env).state)
  {
    ResetInv(s);
    var header, db, x := AdvanceCases(w, s, fb, expected, env);
    if Advance(w, s, fb, expected, env).log != [] {
      ExecutionExact(w, s, fb, header, expected, db, env);
      CommitInv(s, x, fb, env.runtime);
    }
  }

  lemma ReplayInv(w: World, s: State, number: nat, env: Env)
    requires Inv(s) && s.pending
    ensures Inv(Replay(w, s, number, env).state)
  {
    ResetInv(s);
    assert s.stored[..s.latest.value + 1] == s.stored;
  }

  lemma ConfirmInv(w: World, s: State, number: nat, hash: Hash, env: Env)
    requires Inv(s) && s.current.Some?
    ensures Inv(Confirm(w, s, number, hash, env).state)
  {
    ResetInv(s);
    assert Inv(s.(awaiting := false));
    assert Inv(s.(finalSent := true, awaiting := false));
  }

  lemma CanonicalInv(w: World, s: State, number: nat, hash: Hash, env: Env)
    requires Inv(s)
    ensures Inv(OnCanonical(w, s, number, hash, env).state)
  {
    var t := Note(s, number, hash);
    assert Inv(t);
    ResetInv(t);
    if t.pending {
      ReplayInv(w, t, number, env);
    } else if t.current == Some(number) {
      ConfirmInv(w, t, number, hash, env);
    }
  }

  /** No step leaves the invariant: in particular no value the program unwraps is ever absent. */
  lemma StepInv(w: World, s: State, ev: Event)
    requires Inv(s)
    ensures Inv(Step(w, s, ev).state)
  {
    match ev
    case FlashblockReceived(fb, squash, expected, env) =>
      ResetInv(s);
      AcceptInv(w, s, fb, env);
      var a := Accept(w, s, fb, env);
      if a.Accepted? && !a.state.pending {
        AdvanceInv(w, a.state, fb, expected, env);
      }
    case CanonicalBlock(number, hash, env) => CanonicalInv(w, s, number, hash, env);
    case TaskFinished(provider) =>
  }
}
