/**
 * What every event does, case by case, in terms of numbers, hashes and timestamps only: the processor's decisions
 * stated apart from the functions that make them.
 */
module ProcessorLaws {
  import opened Wrappers
  import opened Flashblocks
  import opened ProcessorSpec
  import opened ProcessorInvariants
  import opened ProcessorRuns

  /** All of the in-flight state is gone, and roots computed for it can no longer be used. */
  ghost predicate Discarded(s: State, canonical: Option<(nat, Hash)>, t: State) {
    t == State(None, None, None, [], None, false, false, canonical, false, s.revision + 1, None, s.sequence)
  }

  // ---------------------------------------------------------------- what becomes of a flashblock

  /** More than five seconds behind the base it belongs to: its own, or for a delta the one in flight. */
  ghost predicate TooOld(s: State, fb: Flashblock, now: nat) {
    if fb.index == 0 then fb.base.Some? && now > fb.base.value.timestamp + 5
    else s.stored != [] && s.stored[0].base.Some? && now > s.stored[0].base.value.timestamp + 5
  }

  /** A base on a parent whose canonical hash is known to be another. */
  ghost predicate OnWrongParent(s: State, fb: Flashblock) {
    && fb.index == 0 && s.canonical.Some? && s.canonical.value.1 != (if fb.base.Some? then fb.base.value.parentHash else 0)
    && (if fb.block == 0 then s.canonical.value.0 == 0 else s.canonical.value.0 + 1 == fb.block)
  }

  datatype Fate = Ignored | Discards | Appends | Starts

  ghost function FateOf(s: State, fb: Flashblock, now: nat): Fate
    requires Inv(s)
  {
    if TooOld(s, fb, now) then Ignored
    else if OnWrongParent(s, fb) then Discards
    else if s.current.None? then if fb.index == 0 then Starts else Ignored
    else
      var block, index := s.current.value, s.latest.value;
      if fb.block == block && fb.index == index then Ignored
      else if fb.prev != FlashblockId(0, 0) && fb.prev != FlashblockId(block, index) then Discards
      else if fb.block == block then
        if fb.index == index + 1 && fb.payloadId == s.stored[0].payloadId then Appends else Discards
      else if fb.index == 0 then Starts
      else Discards
  }

  /** The in-flight block is unfinished when the next block's base arrives. */
  ghost predicate Finishing(s: State, fb: Flashblock) {
    s.current.Some? && fb.block == s.current.value + 1 && !s.finalSent
  }

  ghost function FinalFor(w: World, s: State, fb: Flashblock, env: Env): Option<Emission>
    requires s.current.Some? && s.latest.Some?
  {
    BuildFinal(w, s, s.current.value, s.latest.value, if fb.base.Some? then fb.base.value.parentHash else 0, env.rootComputes)
  }

  /** The previous block could not be finished and is given up. */
  ghost predicate GivesUp(w: World, s: State, fb: Flashblock, env: Env)
    requires Inv(s)
  {
    Finishing(s, fb) && FinalFor(w, s, fb, env).None?
  }

  /**
   * A new sequence holding just its base. It is buffered exactly when the base follows a replayed block that
   * still awaits confirmation and was not given up.
   */
  ghost function Started(w: World, s: State, fb: Flashblock, env: Env): State
    requires Inv(s)
  {
    var lost := GivesUp(w, s, fb, env);
    var buffered := s.current.Some? && fb.block == s.current.value + 1 && s.awaiting && !lost;
    State(Some(fb.block), Some(0), None, [fb], None, buffered, false, s.canonical, false,
          s.revision + (if lost then 1 else 0), if lost then None else s.speculation, s.sequence + 1)
  }

  lemma AcceptLaw(w: World, s: State, fb: Flashblock, env: Env)
    requires Inv(s) && !TooOld(s, fb, env.now) && !OnWrongParent(s, fb)
    ensures var a := Accept(w, s, fb, env);
            match FateOf(s, fb, env.now)
            case Ignored => a == Dropped(s)
            case Discards => a.Dropped? && Discarded(s, s.canonical, a.state)
            case Appends => a == Accepted(Appended(s, fb), [])
            case Starts =>
              a == Accepted(Started(w, s, fb, env),
                            if Finishing(s, fb) && !GivesUp(w, s, fb, env) then [FinalFor(w, s, fb, env).value] else [])
  {
    if s.current.Some? && fb.index == 0 && fb.block == s.current.value + 1 {
      TransitionLaw(w, s, fb, env);
    }
  }

  lemma TransitionLaw(w: World, s: State, fb: Flashblock, env: Env)
    requires Inv(s) && s.current.Some? && fb.block == s.current.value + 1
    ensures Transition(w, s, fb, env)
         == Accepted(Started(w, s, fb, env),
                     if Finishing(s, fb) && !GivesUp(w, s, fb, env) then [FinalFor(w, s, fb, env).value] else [])
  {
  }

  /** The fate of every flashblock: ignored, the end of the in-flight sequence, its next piece, or a new one. */
  lemma FlashblockLaw(w: World, s: State, ev: Event)
    requires Inv(s) && ev.FlashblockReceived?
    ensures var o := Step(w, s, ev);
            match FateOf(s, ev.fb, ev.env.now)
            case Ignored => o == Outcome(s, [])
            case Discards => Discarded(s, s.canonical, o.state) && o.log == []
            case Appends => o == Continue(w, Appended(s, ev.fb), ev.fb, ev.squash, ev.expected, ev.env)
            case Starts =>
              var next := Continue(w, Started(w, s, ev.fb, ev.env), ev.fb, ev.squash, ev.expected, ev.env);
              && o.state == next.state
              && o.log == (if Finishing(s, ev.fb) && !GivesUp(w, s, ev.fb, ev.env)
                           then [FinalFor(w, s, ev.fb, ev.env).value] else []) + next.log
  {
    if !TooOld(s, ev.fb, ev.env.now) && !OnWrongParent(s, ev.fb) {
      AcceptLaw(w, s, ev.fb, ev.env);
      var next := Continue(w, Appended(s, ev.fb), ev.fb, ev.squash, ev.expected, ev.env);
      assert [] + next.log == next.log;
    }
  }

  // ---------------------------------------------------------------- roots and finals

  /** A finished task for this block, launched at this revision. */
  ghost predicate Hit(s: State, block: nat, revision: nat) {
    && s.speculation.Some? && s.speculation.value.block == block && s.speculation.value.revision == revision
    && s.speculation.value.answer.Some?
  }

  /** The root in use: the task's on a hit, else the database's if one is there and can be computed. */
  ghost predicate RootIs(w: World, s: State, block: nat, revision: nat, db: Option<Db>, computes: bool, root: Hash) {
    if Hit(s, block, revision) then root == w.root(s.speculation.value.answer.value, s.speculation.value.bundle)
    else db.Some? && computes && root == w.root(db.value.parent, db.value.bundle)
  }

  lemma RootLaw(w: World, s: State, block: nat, revision: nat, db: Option<Db>, computes: bool, root: Hash)
    ensures RootFor(w, s, block, revision, db, computes) == Some(root) <==> RootIs(w, s, block, revision, db, computes, root)
  {
  }

  /** The stored flashblocks with this root hash to `expected`. */
  ghost predicate SealsTo(w: World, stored: seq<Flashblock>, root: Hash, expected: Hash, h: Header) {
    Assembles(w.converts, stored, h) && w.seal(h.(stateRoot := root)) == expected
  }

  /** A guarded final is written exactly when the stored flashblocks, with the root in use, hash to what is expected. */
  lemma FinalLaw(w: World, s: State, block: nat, latest: nat, expected: Hash, computes: bool, e: Emission)
    ensures BuildFinal(w, s, block, latest, expected, computes) == Some(e) <==>
              exists h: Header, root ::
                && RootIs(w, s, block, s.revision, s.db, computes, root) && SealsTo(w, s.stored, root, expected, h)
                && e == Emission(s.sequence, Guarded, latest + 1, h.(stateRoot := root), expected, s.stored, s.executed, s.db)
  {
    var header := Assemble(w.converts, s.stored);
    var root := RootFor(w, s, block, s.revision, s.db, computes);
    forall h { AssembleLaw(w.converts, s.stored, h); }
    forall r { RootLaw(w, s, block, s.revision, s.db, computes, r); }
    if header.Some? && root.Some? {
      assert RootIs(w, s, block, s.revision, s.db, computes, root.value);
      assert SealsTo(w, s.stored, root.value, expected, header.value) <==> w.seal(header.value.(stateRoot := root.value)) == expected;
    }
  }

  // ---------------------------------------------------------------- what becomes of an accepted flashblock

  ghost predicate Waits(s: State, fb: Flashblock, squash: bool, expected: Option<Hash>) {
    s.pending || squash || (fb.index == 0 && expected.None?)
  }

  /** The bundle changes: pre-execution is due, or some flashblock not yet executed has transactions. */
  ghost predicate BundleChanges(s: State)
    requires s.executed.Some? ==> s.executed.value < |s.stored|
  {
    s.executed.None? || Transactions(s.stored[s.executed.value + 1..]) != []
  }

  ghost function NextRevision(s: State): nat
    requires s.executed.Some? ==> s.executed.value < |s.stored|
  {
    s.revision + if BundleChanges(s) then 1 else 0
  }

  /** All stored flashblocks executed on the live database's parent, or on the parent state of the block. */
  ghost function WholeDb(s: State, fb: Flashblock, env: Env): Db
    requires s.db.Some? || env.provider(Parent(fb.block)).Some?
  {
    Direct(if s.db.Some? then s.db.value.parent else env.provider(Parent(fb.block)).value, s.stored)
  }

  /** The line of a successful execution: a partial as its last flashblock claims, or a final with the root in use. */
  ghost predicate LineOf(w: World, s: State, fb: Flashblock, expected: Option<Hash>, env: Env, db: Db, revision: nat, e: Emission)
    requires s.stored != []
  {
    && e.sequence == s.sequence && e.index == fb.index && e.flashblocks == s.stored
    && e.executed == Some(fb.index) && e.db == Some(db)
    && exists h :: Assembles(w.converts, s.stored, h) &&
         if expected.None? then
           e.path == Partial && e.header == h && e.hash == s.stored[|s.stored| - 1].diff.blockHash
         else
           && e.path == Peek && e.header == h.(stateRoot := e.header.stateRoot) && expected == Some(e.hash)
           && w.seal(e.header) == e.hash
           && RootIs(w, s, h.base.number, revision, Some(db), env.rootComputes, e.header.stateRoot)
  }

  /** The state after a successful execution; from index 10 on a partial launches a new root computation. */
  ghost function Ran(s: State, fb: Flashblock, final: bool, env: Env, db: Db, revision: nat): State {
    s.(db := Some(db), executed := Some(fb.index), revision := revision, finalSent := s.finalSent || final,
    speculation := if !final && fb.index >= 10 && env.runtime
                   then Some(Speculation(fb.block, fb.index, revision, db.bundle, None)) else s.speculation)
  }

  lemma TailChanges(s: State)
    requires Inv(s) && s.current.Some?
    ensures Deferred(s.stored, s.executed) != [] || s.executed.None? <==> BundleChanges(s)
  {
    var from := if s.executed.None? then 0 else s.executed.value + 1;
    DeferredIsTail(s.stored, s.current.value, s.executed, from);
  }

  /** Execution succeeds, and meets the final hash if one is expected. */
  ghost predicate Runs(w: World, s: State, expected: Option<Hash>, env: Env, db: Db, revision: nat)
    requires s.stored != [] && s.stored[0].base.Some?
  {
    && env.executes && env.headers(Parent(s.stored[0].base.value.number))
    && (expected.Some? ==>
          exists h: Header, root ::
            && RootIs(w, s, h.base.number, revision, Some(db), env.rootComputes, root)
            && SealsTo(w, s.stored, root, expected.value, h))
  }

  lemma ExecutionLaw(w: World, s: State, fb: Flashblock, expected: Option<Hash>, env: Env, h: Header, db: Db)
    requires Inv(s) && Fresh(s, fb) && !s.pending && RunsOn(s, fb, env, db) && Assembles(w.converts, s.stored, h)
    ensures var x := RunDeferred(w, s, fb, h, expected, db, env);
            var whole, revision := WholeDb(s, fb, env), NextRevision(s);
            && (x.Executed? <==> Runs(w, s, expected, env, whole, revision))
            && (x.Executed? ==> x.db == whole && x.changed == BundleChanges(s)
                                && LineOf(w, s, fb, expected, env, whole, revision, x.emission))
  {
    AdvanceExact(s, db);
    TailChanges(s);
    LineLaw(w, s, fb, Deferred(s.stored, s.executed), s.executed.None?, expected, env, h, db);
  }

  lemma LineLaw(w: World, s: State, fb: Flashblock, txs: seq<Transaction>, first: bool, expected: Option<Hash>, env: Env,
                h: Header, db: Db)
    requires Assembles(w.converts, s.stored, h)
    ensures var x := ExecuteFlashblock(w, s, h, fb.index, txs, first, expected, db, env);
            var after, revision := Execute(db, first, txs), s.revision + if first || txs != [] then 1 else 0;
            && (x.Executed? <==> Runs(w, s, expected, env, after, revision))
            && (x.Executed? ==> x.db == after && x.changed == (first || txs != [])
                                && LineOf(w, s, fb, expected, env, after, revision, x.emission))
  {
    if expected.Some? {
      OnlyHeader(w, s.stored, h);
      FinalRuns(w, s, expected.value, env, h, Execute(db, first, txs), s.revision + if first || txs != [] then 1 else 0);
    }
  }

  lemma OnlyHeader(w: World, stored: seq<Flashblock>, h: Header)
    requires Assembles(w.converts, stored, h)
    ensures forall g :: Assembles(w.converts, stored, g) ==> g == h
  {
  }

  /** Meeting the final hash is a matter of the one header and the one root there are. */
  lemma FinalRuns(w: World, s: State, expected: Hash, env: Env, h: Header, db: Db, revision: nat)
    requires Assembles(w.converts, s.stored, h)
    ensures (exists g: Header, root ::
               && RootIs(w, s, g.base.number, revision, Some(db), env.rootComputes, root)
               && SealsTo(w, s.stored, root, expected, g))
       <==> var root := RootFor(w, s, h.base.number, revision, Some(db), env.rootComputes);
            root.Some? && w.seal(h.(stateRoot := root.value)) == expected
  {
    OnlyHeader(w, s.stored, h);
    forall root { RootLaw(w, s, h.base.number, revision, Some(db), env.rootComputes, root); }
    var root := RootFor(w, s, h.base.number, revision, Some(db), env.rootComputes);
    if root.Some? && w.seal(h.(stateRoot := root.value)) == expected {
      assert RootIs(w, s, h.base.number, revision, Some(db), env.rootComputes, root.value);
      assert SealsTo(w, s.stored, root.value, expected, h);
    }
  }

  /** The line and the state of an execution. */
  ghost predicate RanAs(w: World, s: State, fb: Flashblock, expected: Option<Hash>, env: Env, o: Outcome)
    requires Inv(s) && Fresh(s, fb) && !s.pending && (s.db.Some? || env.provider(Parent(fb.block)).Some?)
  {
    var db, revision := WholeDb(s, fb, env), NextRevision(s);
    if !(s.stored[0].base.Some? && Runs(w, s, expected, env, db, revision)) then
      Discarded(s, s.canonical, o.state) && o.log == []
    else
      && o.state == Ran(s, fb, expected.Some?, env, db, revision)
      && |o.log| == 1 && LineOf(w, s, fb, expected, env, db, revision, o.log[0])
  }

  lemma CommitLaw(w: World, s: State, fb: Flashblock, expected: Option<Hash>, env: Env, h: Header, db: Db)
    requires Inv(s) && Fresh(s, fb) && !s.pending && RunsOn(s, fb, env, db) && Assembles(w.converts, s.stored, h)
    ensures var x := RunDeferred(w, s, fb, h, expected, db, env);
            RanAs(w, s, fb, expected, env,
                  if x.Failed? then Outcome(Reset(s), [])
                  else Outcome(Commit(s, x, fb.block, fb.index, env.runtime), [x.emission]))
  {
    ExecutionLaw(w, s, fb, expected, env, h, db);
  }

  /** An accepted flashblock that does not wait: deferred, executed together with what was deferred, or the end. */
  lemma AdvanceLaw(w: World, s: State, fb: Flashblock, expected: Option<Hash>, env: Env)
    requires Inv(s) && Fresh(s, fb) && !s.pending
    ensures var o := Advance(w, s, fb, expected, env);
            if Assemble(w.converts, s.stored).None? then Discarded(s, s.canonical, o.state) && o.log == []
            else if s.db.None? && env.provider(Parent(fb.block)).None? then o == Outcome(s.(pending := true), [])
            else if !env.headers(Parent(fb.block)) then o == Outcome(s.(pending := true, db := None), [])
            else RanAs(w, s, fb, expected, env, o)
  {
    var assembled := Assemble(w.converts, s.stored);
    var bootstrap := env.provider(Parent(fb.block));
    if assembled.Some? && (s.db.Some? || bootstrap.Some?) {
      AssembleLaw(w.converts, s.stored, assembled.value);
      var db := if s.db.Some? then s.db.value else Db(bootstrap.value, []);
      CommitLaw(w, s, fb, expected, env, assembled.value, db);
    }
  }

  /** What becomes of an accepted flashblock. */
  lemma ContinueLaw(w: World, s: State, fb: Flashblock, squash: bool, expected: Option<Hash>, env: Env)
    requires Inv(s) && Fresh(s, fb)
    ensures Continue(w, s, fb, squash, expected, env)
         == if Waits(s, fb, squash, expected) then Outcome(s, []) else Advance(w, s, fb, expected, env)
  {
  }

  // ---------------------------------------------------------------- what becomes of a canonical signal

  /** The newest signal of the highest number is remembered. */
  ghost function Remembered(s: State, number: nat, hash: Hash): Option<(nat, Hash)> {
    if s.canonical.Some? && number < s.canonical.value.0 then s.canonical else Some((number, hash))
  }

  ghost predicate ParentOf(number: nat, block: nat) {
    block == number + 1 || (block == 0 && number == 0)
  }

  /** The line of a replayed buffer. */
  ghost predicate ReplayLine(w: World, s: State, db: Db, e: Emission)
    requires Inv(s) && s.current.Some?
  {
    && e.sequence == s.sequence && e.path == Partial && e.index == s.latest.value && e.flashblocks == s.stored
    && Assembles(w.converts, s.stored, e.header) && e.hash == s.stored[|s.stored| - 1].diff.blockHash
    && e.executed == s.latest && e.db == Some(db)
  }

  lemma ReplayLaw(w: World, s: State, number: nat, env: Env)
    requires Inv(s) && s.pending
    ensures var o := Replay(w, s, number, env);
            if env.provider(number).None? then o == Outcome(s, [])
            else if Assemble(w.converts, s.stored).Some? && env.executes
                    && env.headers(Parent(s.stored[0].base.value.number)) then
              var db := Direct(env.provider(number).value, s.stored);
              && o.state == s.(pending := false, db := Some(db), executed := s.latest, awaiting := true,
                               revision := s.revision + 1, speculation := None)
              && |o.log| == 1 && ReplayLine(w, s, db, o.log[0])
            else Discarded(s, s.canonical, o.state) && o.log == []
  {
    if Assemble(w.converts, s.stored).Some? {
      AssembleLaw(w.converts, s.stored, Assemble(w.converts, s.stored).value);
    }
    JoinOps([], [PreExecution], Applied(Transactions(s.stored)));
  }

  lemma ConfirmLaw(w: World, s: State, number: nat, hash: Hash, env: Env)
    requires Inv(s) && s.current == Some(number)
    ensures var o := Confirm(w, s, number, hash, env);
            var final := BuildFinal(w, s, number, s.latest.value, hash, env.rootComputes);
            if s.finalSent then o == Outcome(s.(awaiting := false), [])
            else if final.Some? then o == Outcome(s.(awaiting := false, finalSent := true), [final.value])
            else Discarded(s, s.canonical, o.state) && o.log == []
  {
  }

  /** What every canonical signal does. */
  lemma SignalLaw(w: World, s: State, ev: Event)
    requires Inv(s) && ev.CanonicalBlock?
    ensures Inv(s.(canonical := Remembered(s, ev.number, ev.hash)))
    ensures var o, t := Step(w, s, ev), s.(canonical := Remembered(s, ev.number, ev.hash));
            if !s.pending then
              if s.current == Some(ev.number) then o == Confirm(w, t, ev.number, ev.hash, ev.env) else o == Outcome(t, [])
            else if !ParentOf(ev.number, s.current.value) then o == Outcome(t, [])
            else if s.stored[0].base.Some? && ev.hash != s.stored[0].base.value.parentHash then
              Discarded(s, t.canonical, o.state) && o.log == []
            else if s.stored[0].base.None? && ev.hash != 0 then Discarded(s, t.canonical, o.state) && o.log == []
            else if |s.stored| == 1 then o == Outcome(t.(pending := false), [])
            else o == Replay(w, t, ev.number, ev.env)
  {
    assert Note(s, ev.number, ev.hash) == s.(canonical := Remembered(s, ev.number, ev.hash));
    if s.pending { assert s.stored[|s.stored| - 1].index == |s.stored| - 1; }
  }

  /** A finished background task answers a speculation that has no answer yet, and does nothing else. */
  lemma TaskLaw(w: World, s: State, ev: Event)
    requires Inv(s) && ev.TaskFinished?
    ensures var o := Step(w, s, ev);
            && o.log == [] && o.state == s.(speculation := o.state.speculation)
            && (s.speculation.None? || s.speculation.value.answer.Some? ==> o.state == s)
            && (s.speculation.Some? && s.speculation.value.answer.None? ==>
                  o.state.speculation
                  == Some(s.speculation.value.(answer := ev.provider(Parent(s.speculation.value.block)))))
  {
  }
}
