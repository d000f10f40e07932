/**
 * What a single step writes to the wire, and why a root taken from the speculative cache is the root a
 * fresh computation would give.
 */
module ProcessorEmissions {
  import opened Wrappers
  import opened Flashblocks
  import opened ProcessorSpec
  import opened ProcessorInvariants

  // ---------------------------------------------------------------- provider answers

  /** Every state the provider hands out for a block number during this event is the one `chain` assigns. */
  ghost predicate Consistent(chain: nat -> StateId, provider: nat -> Option<StateId>) {
    forall n :: provider(n).Some? ==> provider(n).value == chain(n)
  }

  ghost predicate Honest(chain: nat -> StateId, ev: Event) {
    match ev
    case FlashblockReceived(_, _, _, env) => Consistent(chain, env.provider)
    case CanonicalBlock(_, _, env) => Consistent(chain, env.provider)
    case TaskFinished(provider) => Consistent(chain, provider)
  }

  /** The live database and the background task both read the snapshot `chain` assigns to the parent. */
  ghost predicate Provenance(chain: nat -> StateId, s: State) {
    && (s.db.Some? && s.current.Some? ==> s.db.value.parent == chain(Parent(s.current.value)))
    && (s.speculation.Some? && s.speculation.value.answer.Some? ==>
          s.speculation.value.answer.value == chain(Parent(s.speculation.value.block)))
  }

  // ---------------------------------------------------------------- the cache

  /** A hit at the live revision is the root of the live bundle over the snapshot the task read. */
  lemma CacheHit(w: World, s: State, block: nat)
    requires Inv(s) && s.db.Some?
    ensures var hit := CachedRoot(w, s, block, s.revision);
            hit.Some? ==> hit.value == w.root(s.speculation.value.answer.value, s.db.value.bundle)
  {
  }

  /**
   * Cache agrees with recomputation: a hit, whatever block it was asked for, returns what
   * `ComputeRoot` returns; and the projected lookup made after a bundle change never hits.
   */
  lemma CacheAgrees(w: World, chain: nat -> StateId, s: State, block: nat)
    requires Inv(s) && Provenance(chain, s)
    ensures s.db.Some? ==>
              var hit := CachedRoot(w, s, block, s.revision);
              hit.Some? ==> hit == ComputeRoot(w, s.db, true)
    ensures CachedRoot(w, s, block, s.revision + 1).None?
  {
    if s.db.Some? && CachedRoot(w, s, block, s.revision).Some? {
      CacheHit(w, s, block);
      assert s.current == Some(s.speculation.value.block);
    }
  }

  /** A root that is just its snapshot and a hash that is just the root: different snapshots stay apart. */
  function Transparent(): World {
    World((p, ops) => p, h => true, (h: Header) => h.stateRoot)
  }

  /**
   * Without a stable provider: a hit returns the recomputed root whatever the root function is, exactly when
   * the task read the snapshot the database was built on.
   */
  lemma CacheAgreesIff(s: State, block: nat)
    requires Inv(s) && s.db.Some? && s.speculation.Some? && s.speculation.value.answer.Some?
    requires s.speculation.value.block == block && s.speculation.value.revision == s.revision
    ensures (forall w: World :: CachedRoot(w, s, block, s.revision) == ComputeRoot(w, s.db, true))
       <==> s.speculation.value.answer.value == s.db.value.parent
  {
    if forall w: World :: CachedRoot(w, s, block, s.revision) == ComputeRoot(w, s.db, true) {
      assert CachedRoot(Transparent(), s, block, s.revision) == ComputeRoot(Transparent(), s.db, true);
    }
    forall w: World ensures CachedRoot(w, s, block, s.revision)
                         == Some(w.root(s.speculation.value.answer.value, s.db.value.bundle)) {
      CacheHit(w, s, block);
    }
  }

  // ---------------------------------------------------------------- emissions

  /**
   * The header on the wire is that of all stored flashblocks. A partial carries the root and the block hash its
   * last flashblock claims; a final is sealed by its own hash.
   */
  ghost predicate Sealed(w: World, e: Emission) {
    && e.flashblocks != [] && e.flashblocks[0].base.Some?
    && var last := e.flashblocks[|e.flashblocks| - 1].diff;
       && e.header.base == e.flashblocks[0].base.value && e.header.base.number != 0
       && e.header.transactions == Transactions(e.flashblocks) && e.header.commitments == last.commitments
       && w.converts(e.header.(stateRoot := last.stateRoot))
       && (e.path == Partial ==> e.header.stateRoot == last.stateRoot && e.hash == last.blockHash)
       && (e.path != Partial ==> w.seal(e.header) == e.hash)
  }

  /**
   * The database behind the line is the direct execution of flashblocks 0..=executed; a line written by an
   * execution covers everything stored and carries the last index, a guarded final the index after it.
   */
  ghost predicate Faithful(e: Emission) {
    && e.flashblocks != [] && Sequential(e.flashblocks, e.flashblocks[0].block)
    && (e.db.Some? ==> e.executed.Some? && e.executed.value < |e.flashblocks|
                       && e.db.value == Direct(e.db.value.parent, e.flashblocks[..e.executed.value + 1]))
    && (e.path != Guarded ==> e.db.Some? && e.executed == Some(e.index) && e.index == |e.flashblocks| - 1)
    && (e.path == Guarded ==> e.index == |e.flashblocks|)
    && (e.path == Partial ==> e.index > 0)
  }

  /** With a database present, a final carries that database's root, over the parent the chain assigns. */
  ghost predicate Rooted(w: World, chain: nat -> StateId, e: Emission) {
    e.flashblocks != [] && e.db.Some? ==>
      && e.db.value.parent == chain(Parent(e.flashblocks[0].block))
      && (e.path != Partial ==> e.header.stateRoot == w.root(e.db.value.parent, e.db.value.bundle))
  }

  /** The hash a final emitted by `ev` on path `p` answers to. */
  ghost function Trigger(ev: Event, p: Path): Option<Hash> {
    match ev
    case FlashblockReceived(fb, _, expected, _) => if p == Peek then expected else Some(ParentHash(fb))
    case CanonicalBlock(_, hash, _) => Some(hash)
    case TaskFinished(_) => None
  }

  ghost predicate Sound(w: World, e: Emission) {
    Faithful(e) && Sealed(w, e)
  }

  lemma FinalSound(w: World, s: State, latest: nat, expected: Hash, computes: bool)
    requires Inv(s) && s.latest == Some(latest)
    ensures var final := BuildFinal(w, s, s.current.value, latest, expected, computes);
            final.Some? ==> Sound(w, final.value) && final.value.hash == expected
  {
  }

  lemma FinalRooted(w: World, chain: nat -> StateId, s: State, latest: nat, expected: Hash, computes: bool)
    requires Inv(s) && Provenance(chain, s) && s.latest == Some(latest)
    ensures var final := BuildFinal(w, s, s.current.value, latest, expected, computes);
            final.Some? ==> Rooted(w, chain, final.value)
  {
    CacheAgrees(w, chain, s, s.current.value);
  }

  /** What any execution writes: final exactly when a final hash was expected, and then sealed with it. */
  lemma ExecutionLine(w: World, s: State, header: Header, index: nat, txs: seq<Transaction>, first: bool,
                      expected: Option<Hash>, db: Db, env: Env)
    requires s.stored != []
    ensures var x := ExecuteFlashblock(w, s, header, index, txs, first, expected, db, env);
            x.Executed? ==>
              var e := x.emission;
              && e.sequence == s.sequence && e.flashblocks == s.stored && e.index == index
              && e.executed == Some(index) && e.db == Some(x.db)
              && (if expected.None? then e.path == Partial && e.header == header
                                         && e.hash == s.stored[|s.stored| - 1].diff.blockHash
                  else e.path == Peek && e.header == header.(stateRoot := e.header.stateRoot)
                       && expected == Some(e.hash) && w.seal(e.header) == e.hash)
  {
  }

  /** The line written when executing an accepted flashblock. */
  lemma ExecutionSound(w: World, s: State, fb: Flashblock, header: Header, expected: Option<Hash>, db: Db, env: Env)
    requires Inv(s) && Fresh(s, fb) && !s.pending && RunsOn(s, fb, env, db) && (fb.index == 0 ==> expected.Some?)
    requires Assemble(w.converts, s.stored) == Some(header)
    ensures var x := RunDeferred(w, s, fb, header, expected, db, env); x.Executed? ==> Sound(w, x.emission)
  {
    var x := RunDeferred(w, s, fb, header, expected, db, env);
    if x.Executed? {
      ExecutionExact(w, s, fb, header, expected, db, env);
      ExecutionLine(w, s, header, fb.index, Deferred(s.stored, s.executed), s.executed.None?, expected, db, env);
      assert s.stored[..fb.index + 1] == s.stored;
      assert Sealed(w, x.emission);
      assert Faithful(x.emission);
    }
  }

  lemma ExecutionRooted(w: World, chain: nat -> StateId, s: State, fb: Flashblock, header: Header,
                        expected: Option<Hash>, db: Db, env: Env)
    requires Inv(s) && Provenance(chain, s) && Fresh(s, fb) && !s.pending
    requires RunsOn(s, fb, env, db) && Consistent(chain, env.provider)
    ensures var x := RunDeferred(w, s, fb, header, expected, db, env);
            x.Executed? ==> x.db.parent == chain(Parent(fb.block)) && Rooted(w, chain, x.emission)
  {
    ExecutionExact(w, s, fb, header, expected, db, env);
    CacheAgrees(w, chain, s, header.base.number);
    assert s.stored[0].block == fb.block;
  }

  lemma CommitProvenance(chain: nat -> StateId, s: State, x: Execution, fb: Flashblock, runtime: bool)
    requires Inv(s) && Fresh(s, fb) && Provenance(chain, s) && x.Executed? && x.db.parent == chain(Parent(fb.block))
    ensures Provenance(chain, Commit(s, x, fb.block, fb.index, runtime))
  {
  }

  // ---------------------------------------------------------------- steps

  /** What one event writes is sound, and each final answers to the hash that triggered it. */
  ghost predicate StepsSoundly(w: World, ev: Event, log: seq<Emission>) {
    forall e <- log :: Sound(w, e) && (e.path != Partial ==> Trigger(ev, e.path) == Some(e.hash))
  }

  lemma AcceptSound(w: World, s: State, ev: Event)
    requires Inv(s) && ev.FlashblockReceived?
    ensures var a := Accept(w, s, ev.fb, ev.env); a.Accepted? ==> StepsSoundly(w, ev, a.log)
  {
    if s.current.Some? {
      FinalSound(w, s, s.latest.value, ParentHash(ev.fb), ev.env.rootComputes);
    }
  }

  lemma AdvanceSound(w: World, s: State, ev: Event)
    requires ev.FlashblockReceived? && Inv(s) && Fresh(s, ev.fb) && !s.pending
    requires ev.fb.index == 0 ==> ev.expected.Some?
    ensures StepsSoundly(w, ev, Advance(w, s, ev.fb, ev.expected, ev.env).log)
  {
    var header, db, x := AdvanceCases(w, s, ev.fb, ev.expected, ev.env);
    if Advance(w, s, ev.fb, ev.expected, ev.env).log != [] {
      ExecutionSound(w, s, ev.fb, header, ev.expected, db, ev.env);
      ExecutionLine(w, s, header, ev.fb.index, Deferred(s.stored, s.executed), s.executed.None?, ev.expected, db, ev.env);
    }
  }

  lemma ReplaySound(w: World, s: State, number: nat, env: Env)
    requires Inv(s) && s.pending && s.latest.value > 0
    ensures forall e <- Replay(w, s, number, env).log :: Sound(w, e) && e.path == Partial
  {
    var o := Replay(w, s, number, env);
    if o.log != [] {
      ExecutionLine(w, s, Assemble(w.converts, s.stored).value, s.latest.value, Transactions(s.stored), true, None,
                    Db(env.provider(number).value, []), env);
      assert s.stored[..s.latest.value + 1] == s.stored;
    }
  }

  lemma ProcessSound(w: World, s: State, ev: Event)
    requires Inv(s) && ev.FlashblockReceived?
    ensures StepsSoundly(w, ev, Process(w, s, ev.fb, ev.squash, ev.expected, ev.env).log)
  {
    ProcessLines(w, s, ev.fb, ev.squash, ev.expected, ev.env);
    AcceptSound(w, s, ev);
    var a := Accept(w, s, ev.fb, ev.env);
    if a.Accepted? && Fresh(a.state, ev.fb) && Advances(a.state, ev.fb, ev.squash, ev.expected) {
      AdvanceSound(w, a.state, ev);
    }
  }

  lemma CanonicalSound(w: World, s: State, ev: Event)
    requires Inv(s) && ev.CanonicalBlock?
    ensures StepsSoundly(w, ev, OnCanonical(w, s, ev.number, ev.hash, ev.env).log)
  {
    var t := Note(s, ev.number, ev.hash);
    assert Inv(t);
    if t.pending {
      if t.latest.value > 0 { ReplaySound(w, t, ev.number, ev.env); }
    } else if t.current == Some(ev.number) {
      FinalSound(w, t, t.latest.value, ev.hash, ev.env.rootComputes);
    }
  }

  lemma StepSound(w: World, s: State, ev: Event)
    requires Inv(s)
    ensures StepsSoundly(w, ev, Step(w, s, ev).log)
  {
    match ev
    case FlashblockReceived(_, _, _, _) => ProcessSound(w, s, ev);
    case CanonicalBlock(_, _, _) => CanonicalSound(w, s, ev);
    case TaskFinished(_) =>
  }

  ghost predicate KeepsProvenance(w: World, chain: nat -> StateId, o: Outcome) {
    Provenance(chain, o.state) && forall e <- o.log :: Rooted(w, chain, e)
  }

  lemma TransitionRooted(w: World, chain: nat -> StateId, s: State, fb: Flashblock, env: Env)
    requires Inv(s) && Provenance(chain, s) && s.current.Some?
    ensures var a := Transition(w, s, fb, env); KeepsProvenance(w, chain, Outcome(a.state, a.log))
  {
    FinalRooted(w, chain, s, s.latest.value, ParentHash(fb), env.rootComputes);
  }

  lemma AcceptRooted(w: World, chain: nat -> StateId, s: State, fb: Flashblock, env: Env)
    requires Inv(s) && Provenance(chain, s)
    ensures var a := Accept(w, s, fb, env);
            KeepsProvenance(w, chain, Outcome(a.state, if a.Accepted? then a.log else []))
  {
    if s.current.Some? && Validate(s.current.value, s.latest.value, fb) == FirstOfNextBlock {
      TransitionRooted(w, chain, s, fb, env);
    } else {
      assert Accept(w, s, fb, env).Accepted? ==> Accept(w, s, fb, env).log == [];
    }
  }

  lemma AdvanceRooted(w: World, chain: nat -> StateId, s: State, fb: Flashblock, expected: Option<Hash>, env: Env)
    requires Inv(s) && Provenance(chain, s) && Fresh(s, fb) && !s.pending && Consistent(chain, env.provider)
    ensures KeepsProvenance(w, chain, Advance(w, s, fb, expected, env))
  {
    var header, db, x := AdvanceCases(w, s, fb, expected, env);
    if Advance(w, s, fb, expected, env).log != [] {
      ExecutionRooted(w, chain, s, fb, header, expected, db, env);
      CommitProvenance(chain, s, x, fb, env.runtime);
    }
  }

  lemma ReplayRooted(w: World, chain: nat -> StateId, s: State, number: nat, env: Env)
    requires Inv(s) && s.pending && Provenance(chain, s) && Consistent(chain, env.provider)
    requires number == Parent(s.current.value)
    ensures KeepsProvenance(w, chain, Replay(w, s, number, env))
  {
    assert s.stored[0].block == s.current.value;
  }

  lemma CanonicalRooted(w: World, chain: nat -> StateId, s: State, number: nat, hash: Hash, env: Env)
    requires Inv(s) && Provenance(chain, s) && Consistent(chain, env.provider)
    ensures KeepsProvenance(w, chain, OnCanonical(w, s, number, hash, env))
  {
    var t := Note(s, number, hash);
    assert Inv(t) && Provenance(chain, t);
    if t.pending {
      if Parent(t.current.value) == number { ReplayRooted(w, chain, t, number, env); }
    } else if t.current == Some(number) {
      FinalRooted(w, chain, t, t.latest.value, hash, env.rootComputes);
    }
  }

  /** Under a stable provider every step keeps provenance, and every line with a database is rooted in it. */
  lemma StepRooted(w: World, chain: nat -> StateId, s: State, ev: Event)
    requires Inv(s) && Provenance(chain, s) && Honest(chain, ev)
    ensures KeepsProvenance(w, chain, Step(w, s, ev))
  {
    match ev
    case FlashblockReceived(fb, squash, expected, env) =>
      AcceptInv(w, s, fb, env);
      AcceptRooted(w, chain, s, fb, env);
      var a := Accept(w, s, fb, env);
      if a.Accepted? && !a.state.pending {
        AdvanceRooted(w, chain, a.state, fb, expected, env);
      }
    case CanonicalBlock(number, hash, env) => CanonicalRooted(w, chain, s, number, hash, env);
    case TaskFinished(_) =>
  }
}
