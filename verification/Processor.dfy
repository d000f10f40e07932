/**
 * The processor as the program writes it: one object whose fields the two entry points update step by
 * step. Every method is proved to take the object from one `State` to the one the specification gives.
 */
module Processor {
  import opened Wrappers
  import opened Flashblocks
  import opened ProcessorSpec
  import opened ProcessorInvariants

  /** A final ready to be written once the state has been updated. */
  datatype PendingFinal = PendingFinal(header: Header, hash: Hash, index: nat)

  ghost function Ready(line: Option<Emission>): Option<PendingFinal> {
    if line.None? then None else Some(PendingFinal(line.value.header, line.value.hash, line.value.index))
  }

  ghost function Lines(line: Option<Emission>): seq<Emission> {
    if line.None? then [] else [line.value]
  }

  class FlashblocksProcessor {
    const world: World

    var current: Option<nat>
    var latest: Option<nat>
    var executed: Option<nat>
    var stored: seq<Flashblock>
    var db: Option<Db>
    var pending: bool
    var awaiting: bool
    var canonical: Option<(nat, Hash)>
    var finalSent: bool
    var revision: nat
    var speculation: Option<Speculation>

    /** How many sequences were started, and every line written so far. */
    ghost var sequence: nat
    ghost var wire: seq<Emission>

    ghost function View(): State
      reads this
    {
      State(current, latest, executed, stored, db, pending, awaiting, canonical, finalSent, revision,
            speculation, sequence)
    }

    ghost predicate Valid()
      reads this
    {
      Inv(View())
    }

    /** The part of validity the unwraps below rely on. */
    ghost predicate Unwrappable()
      reads this
    {
      (current.Some? ==> latest.Some? && stored != []) && (pending ==> current.Some?)
    }

    constructor (world: World)
      ensures this.world == world && View() == INITIAL && wire == [] && Valid()
    {
      this.world := world;
      current, latest, executed, stored, db := None, None, None, [], None;
      pending, awaiting, canonical, finalSent, revision, speculation := false, false, None, false, 0, None;
      sequence, wire := 0, [];
    }

    // -------------------------------------------------------------- per-sequence state

    method ResetState()
      modifies this
      ensures View() == Reset(old(View())) && wire == old(wire)
    {
      current, latest, executed, stored, db := None, None, None, [], None;
      pending, awaiting, finalSent := false, false, false;
      revision, speculation := revision + 1, None;
    }

    method Start(fb: Flashblock)
      modifies this
      ensures View() == StartBlock(old(View()), fb) && wire == old(wire)
    {
      current, latest, executed, stored := Some(fb.block), Some(0), None, [fb];
      pending, awaiting, finalSent := false, false, false;
      sequence := sequence + 1;
    }

    // -------------------------------------------------------------- executing

    /** The transactions of every stored flashblock past the last executed index, by one forward scan. */
    method GatherTransactions() returns (txs: seq<Transaction>)
      ensures txs == Deferred(stored, executed)
    {
      txs := [];
      for i := 0 to |stored|
        invariant txs == Deferred(stored[..i], executed)
      {
        assert stored[..i + 1][..i] == stored[..i];
        if executed.None? || stored[i].index > executed.value {
          txs := txs + stored[i].diff.transactions;
        }
      }
      assert stored[..|stored|] == stored;
    }

    /** Runs transactions one at a time on top of `start`, merging each into the bundle. */
    static method RunTransactions(start: Db, first: bool, txs: seq<Transaction>) returns (after: Db)
      ensures after == Execute(start, first, txs)
    {
      var bundle := start.bundle + (if first then [PreExecution] else []);
      var ran := [];
      for i := 0 to |txs|
        invariant ran == Applied(txs[..i])
      {
        ran := ran + [Apply(txs[i])];
      }
      assert txs[..|txs|] == txs;
      after := Db(start.parent, bundle + ran);
    }

    method ExecuteAndEmit(header: Header, index: nat, txs: seq<Transaction>, first: bool,
                          expected: Option<Hash>, start: Db, env: Env)
      returns (ok: bool, after: Db, emittedFinal: bool, changed: bool)
      requires stored != []
      modifies `wire
      ensures var x := ExecuteFlashblock(world, old(View()), header, index, txs, first, expected, start, env);
              && ok == x.Executed?
              && (ok ==> after == x.db && changed == x.changed && emittedFinal == (x.emission.path == Peek)
                         && wire == old(wire) + [x.emission])
              && (!ok ==> wire == old(wire))
    {
      ok, after, emittedFinal := false, start, false;
      changed := first || txs != [];
      if !env.headers(Parent(header.base.number)) || !env.executes {
        return;
      }
      after := RunTransactions(start, first, txs);
      var sealed := header;
      if expected.Some? {
        var projected := revision + (if changed then 1 else 0);
        var root := LookupRoot(header.base.number, projected);
        if root.None? {
          root := ComputeRoot(world, Some(after), env.rootComputes);
        }
        if root.None? {
          return;
        }
        sealed := header.(stateRoot := root.value);
        if world.seal(sealed) != expected.value {
          return;
        }
        emittedFinal := true;
      }
      ghost var hash := if emittedFinal then expected.value else stored[|stored| - 1].diff.blockHash;
      wire := wire + [Emission(sequence, if emittedFinal then Peek else Partial, index, sealed, hash,
                               stored, Some(index), Some(after))];
      ok := true;
    }

    method LookupRoot(block: nat, expectedRevision: nat) returns (root: Option<Hash>)
      ensures root == CachedRoot(world, View(), block, expectedRevision)
    {
      root := None;
      if speculation.Some? {
        var spec := speculation.value;
        if spec.block == block && spec.revision == expectedRevision && spec.answer.Some? {
          root := Some(world.root(spec.answer.value, spec.bundle));
        }
      }
    }

    method LaunchSpeculation(block: nat, index: nat, runtime: bool)
      modifies `speculation
      ensures View() == Launch(old(View()), block, index, runtime)
    {
      if db.Some? && runtime {
        speculation := Some(Speculation(block, index, revision, db.value.bundle, None));
      }
    }

    // -------------------------------------------------------------- finals

    /** The final for the in-flight block, when its recomputed hash is the expected one. */
    method BuildFinalEmission(block: nat, latestIndex: nat, expected: Hash, computes: bool)
      returns (final: Option<PendingFinal>, ghost line: Option<Emission>)
      ensures final == Ready(BuildFinal(world, View(), block, latestIndex, expected, computes))
      ensures line == BuildFinal(world, View(), block, latestIndex, expected, computes)
    {
      final, line := None, None;
      var assembled := Assemble(world.converts, stored);
      if assembled.None? {
        return;
      }
      var root := LookupRoot(block, revision);
      if root.None? {
        root := ComputeRoot(world, db, computes);
      }
      if root.None? {
        return;
      }
      var header := assembled.value.(stateRoot := root.value);
      if world.seal(header) == expected {
        final := Some(PendingFinal(header, expected, latestIndex + 1));
        line := Some(Emission(sequence, Guarded, latestIndex + 1, header, expected, stored, executed, db));
      }
    }

    method EmitFinalIfPending(final: Option<PendingFinal>, ghost line: Option<Emission>)
      requires final == Ready(line)
      modifies `wire
      ensures wire == old(wire) + Lines(line)
    {
      if final.Some? {
        wire := wire + [line.value];
      }
    }

    // -------------------------------------------------------------- flashblocks

    /** Errors are swallowed: the in-flight state is discarded and the next base starts afresh. */
    method Process(fb: Flashblock, squash: bool, expected: Option<Hash>, env: Env)
      requires Valid()
      modifies this
      ensures Valid()
      ensures var o := ProcessorSpec.Process(world, old(View()), fb, squash, expected, env);
              View() == o.state && wire == old(wire) + o.log
    {
      StepInv(world, View(), FlashblockReceived(fb, squash, expected, env));
      var ok := ProcessInner(fb, squash, expected, env);
      if !ok {
        ResetState();
      }
    }

    method ProcessInner(fb: Flashblock, squash: bool, expected: Option<Hash>, env: Env) returns (ok: bool)
      requires Unwrappable()
      modifies this
      ensures var o := ProcessorSpec.Process(world, old(View()), fb, squash, expected, env);
              && wire == old(wire) + o.log
              && (if ok then View() == o.state else Reset(View()) == o.state)
    {
      ok := true;
      var base := if fb.index == 0 then fb.base else if stored == [] then None else stored[0].base;
      if base.Some? && env.now > base.value.timestamp + STALE_THRESHOLD_SECS {
        return;
      }
      if fb.index == 0 && !ParentMatchesCanonical(canonical, fb.block, ParentHash(fb)) {
        ResetState();
        return;
      }
      ok := AdmitFlashblock(fb, squash, expected, env);
    }

    method AdmitFlashblock(fb: Flashblock, squash: bool, expected: Option<Hash>, env: Env) returns (ok: bool)
      requires Unwrappable()
      modifies this
      ensures var o := Admit(world, old(View()), fb, squash, expected, env);
              && wire == old(wire) + o.log
              && (if ok then View() == o.state else Reset(View()) == o.state)
    {
      ok := true;
      var accepted, final;
      ghost var line;
      accepted, final, line := AcceptFlashblock(fb, env);
      if accepted {
        EmitFinalIfPending(final, line);
        ok := ContinueFlashblock(fb, squash, expected, env);
      }
    }

    method ContinueFlashblock(fb: Flashblock, squash: bool, expected: Option<Hash>, env: Env) returns (ok: bool)
      requires stored != []
      modifies this
      ensures var o := Continue(world, old(View()), fb, squash, expected, env);
              && wire == old(wire) + o.log
              && (if ok then View() == o.state else Reset(View()) == o.state)
    {
      ok := true;
      if pending {
        return;
      }
      if squash || (fb.index == 0 && expected.None?) {
        return;
      }
      ok := AdvanceBlock(fb, expected, env);
    }

    /** Sequence validation, and the state update of each of its verdicts. */
    method AcceptFlashblock(fb: Flashblock, env: Env)
      returns (accepted: bool, final: Option<PendingFinal>, ghost line: Option<Emission>)
      requires Unwrappable()
      modifies this
      ensures wire == old(wire) && final == Ready(line)
      ensures accepted ==> stored != []
      ensures var a := Accept(world, old(View()), fb, env);
              View() == a.state && accepted == a.Accepted? && (accepted ==> a.log == Lines(line))
    {
      accepted, final, line := false, None, None;
      if current.None? {
        if fb.index == 0 {
          Start(fb);
          accepted := true;
        }
        return;
      }
      match Validate(current.value, latest.value, fb) {
        case NextInSequence =>
          if fb.payloadId != stored[0].payloadId {
            ResetState();
          } else {
            stored := stored + [fb];
            latest := Some(fb.index);
            accepted := true;
          }
        case FirstOfNextBlock =>
          final, line := FinishBlock(fb, env);
          accepted := true;
        case Duplicate =>
        case InvalidNewBlockIndex =>
          if fb.index == 0 {
            db := None;
            Start(fb);
            accepted := true;
          } else {
            ResetState();
          }
        case NonSequentialGap => ResetState();
        case NonSequentialPredecessor => ResetState();
      }
    }

    /** The next-base transition: finish or discard the previous block, then start the new one. */
    method FinishBlock(fb: Flashblock, env: Env) returns (final: Option<PendingFinal>, ghost line: Option<Emission>)
      requires Unwrappable() && current.Some?
      modifies this
      ensures wire == old(wire) && final == Ready(line)
      ensures Transition(world, old(View()), fb, env) == Accepted(View(), Lines(line))
    {
      final, line := None, None;
      var deferring := awaiting;
      if !finalSent && stored != [] {
        final, line := BuildFinalEmission(current.value, latest.value, ParentHash(fb), env.rootComputes);
        if final.None? {
          ResetState();
          deferring := false;
        }
      }
      Start(fb);
      db := None;
      if deferring {
        pending := true;
        db := None;
      }
    }

    /** Executes what is deferred up to the accepted flashblock; false when the sequence must be discarded. */
    method AdvanceBlock(fb: Flashblock, expected: Option<Hash>, env: Env) returns (ok: bool)
      requires stored != [] && !pending
      modifies this
      ensures var o := Advance(world, old(View()), fb, expected, env);
              && wire == old(wire) + o.log
              && (if ok then View() == o.state else Reset(View()) == o.state)
    {
      ok := true;
      var assembled := Assemble(world.converts, stored);
      if assembled.None? {
        return false;
      }
      var running := db;
      var parent := Parent(fb.block);
      if running.None? {
        var snapshot := env.provider(parent);
        if snapshot.None? {
          pending := true;
          return;
        }
        running := Some(Db(snapshot.value, []));
      }
      if !env.headers(parent) {
        pending := true;
        db := None;
        return;
      }
      ok := ExecuteDeferred(fb, assembled.value, running.value, expected, env);
    }

    method ExecuteDeferred(fb: Flashblock, header: Header, running: Db, expected: Option<Hash>, env: Env) returns (ok: bool)
      requires stored != []
      modifies this
      ensures var x := ExecuteFlashblock(world, old(View()), header, fb.index, Deferred(old(stored), old(executed)),
                                         old(executed).None?, expected, running, env);
              && ok == x.Executed?
              && (if ok then View() == Commit(old(View()), x, fb.block, fb.index, env.runtime) && wire == old(wire) + [x.emission]
                  else View() == old(View()) && wire == old(wire))
    {
      var txs := GatherTransactions();
      ghost var x := ExecuteFlashblock(world, View(), header, fb.index, txs, executed.None?, expected, running, env);
      var after, emittedFinal, changed;
      ok, after, emittedFinal, changed := ExecuteAndEmit(header, fb.index, txs, executed.None?, expected, running, env);
      if ok {
        CommitExecution(x, after, emittedFinal, changed, fb, env.runtime);
      }
    }

    method CommitExecution(ghost x: Execution, after: Db, emittedFinal: bool, changed: bool, fb: Flashblock, runtime: bool)
      requires x.Executed? && after == x.db && changed == x.changed && emittedFinal == (x.emission.path == Peek)
      modifies this
      ensures View() == Commit(old(View()), x, fb.block, fb.index, runtime) && wire == old(wire)
    {
      db := Some(after);
      executed := Some(fb.index);
      if changed {
        revision := revision + 1;
      }
      if emittedFinal {
        finalSent := true;
      }
      if !emittedFinal && fb.index >= SPECULATIVE_STATE_ROOT_MIN_INDEX {
        LaunchSpeculation(fb.block, fb.index, runtime);
      }
    }

    // -------------------------------------------------------------- canonical signals

    method OnCanonicalBlock(number: nat, hash: Hash, env: Env)
      requires Valid()
      modifies this
      ensures Valid()
      ensures var o := OnCanonical(world, old(View()), number, hash, env);
              View() == o.state && wire == old(wire) + o.log
    {
      CanonicalInv(world, View(), number, hash, env);
      if canonical.None? || number >= canonical.value.0 {
        canonical := Some((number, hash));
      }
      if !pending && current == Some(number) {
        ConfirmBlock(number, hash, env);
        return;
      }
      if !pending {
        return;
      }
      if Parent(current.value) != number {
        return;
      }
      if ParentHash(stored[0]) != hash {
        ResetState();
        return;
      }
      if stored[|stored| - 1].index == 0 {
        pending := false;
        return;
      }
      ReplayBuffer(number, env);
    }

    method ConfirmBlock(number: nat, hash: Hash, env: Env)
      modifies this
      ensures var o := Confirm(world, old(View()), number, hash, env);
              View() == o.state && wire == old(wire) + o.log
    {
      if finalSent {
        awaiting := false;
        return;
      }
      var latestIndex := if latest.Some? then latest.value else 0;
      var final;
      ghost var line;
      final, line := BuildFinalEmission(number, latestIndex, hash, env.rootComputes);
      if final.Some? {
        EmitFinalIfPending(final, line);
        finalSent := true;
        awaiting := false;
      } else {
        ResetState();
      }
    }

    method ReplayBuffer(number: nat, env: Env)
      requires stored != []
      modifies this
      ensures var o := Replay(world, old(View()), number, env);
              View() == o.state && wire == old(wire) + o.log
    {
      var snapshot := env.provider(number);
      if snapshot.None? {
        return;
      }
      var assembled := Assemble(world.converts, stored);
      if assembled.None? {
        ResetState();
        return;
      }
      var merged := stored[|stored| - 1].index;
      var ok, after, _, _ := ExecuteAndEmit(assembled.value, merged, Transactions(stored), true, None,
                                            Db(snapshot.value, []), env);
      if !ok {
        ResetState();
        return;
      }
      CommitReplay(after, merged);
    }

    method CommitReplay(after: Db, merged: nat)
      modifies this
      ensures View() == old(View()).(pending := false, db := Some(after), revision := old(revision) + 1,
              speculation := None, executed := Some(merged), awaiting := true)
      ensures wire == old(wire)
    {
      pending := false;
      db := Some(after);
      revision := revision + 1;
      speculation := None;
      executed := Some(merged);
      awaiting := true;
    }

    // -------------------------------------------------------------- the background task

    /** The background task stores its result into the slot it shares with the processor. */
    method TaskFinishes(provider: nat -> Option<StateId>)
      requires Valid()
      modifies `speculation
      ensures Valid() && View() == FinishTask(old(View()), provider)
    {
      StepInv(world, View(), TaskFinished(provider));
      if speculation.Some? && speculation.value.answer.None? {
        speculation := Some(speculation.value.(answer := provider(Parent(speculation.value.block))));
      }
    }
  }
}
