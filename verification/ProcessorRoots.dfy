/**
 * Where the state root of a final comes from, in any run: no assumption on what the provider answers.
 */
module ProcessorRoots {
  import opened Wrappers
  import opened Flashblocks
  import opened ProcessorSpec
  import opened ProcessorInvariants
  import opened ProcessorEmissions
  import opened ProcessorWire
  import opened ProcessorRuns
  import opened ProcessorStream

  // ---------------------------------------------------------------- one step

  /** The root of the database the final was written with. */
  ghost predicate FreshRoot(w: World, e: Emission) {
    e.db.Some? && e.header.stateRoot == w.root(e.db.value.parent, e.db.value.bundle)
  }

  /** The root a finished background task for this block left behind. */
  ghost predicate TaskRoot(w: World, spec: Speculation, e: Emission) {
    && spec.answer.Some? && e.flashblocks != [] && spec.block == e.flashblocks[0].block
    && e.header.stateRoot == w.root(spec.answer.value, spec.bundle)
    && (e.db.Some? ==> e.db.value.bundle == spec.bundle)
  }

  ghost predicate RootKnown(w: World, s: State, e: Emission) {
    IsFinal(e) ==> FreshRoot(w, e) || (s.speculation.Some? && TaskRoot(w, s.speculation.value, e))
  }

  lemma GuardedRoot(w: World, s: State, expected: Hash, computes: bool)
    requires Inv(s) && s.current.Some?
    ensures var final := BuildFinal(w, s, s.current.value, s.latest.value, expected, computes);
            final.Some? ==> RootKnown(w, s, final.value)
  {
  }

  lemma AcceptRoots(w: World, s: State, fb: Flashblock, env: Env)
    requires Inv(s)
    ensures var a := Accept(w, s, fb, env); a.Accepted? ==> forall e <- a.log :: RootKnown(w, s, e)
    ensures var a := Accept(w, s, fb, env); a.Accepted? ==> a.state.speculation == s.speculation || a.state.speculation.None?
  {
    if s.current.Some? { GuardedRoot(w, s, ParentHash(fb), env.rootComputes); }
  }

  lemma ExecutionRoot(w: World, s: State, fb: Flashblock, header: Header, expected: Option<Hash>, db: Db, env: Env)
    requires Inv(s) && Fresh(s, fb) && !s.pending && RunsOn(s, fb, env, db)
    ensures var x := RunDeferred(w, s, fb, header, expected, db, env); x.Executed? ==> RootKnown(w, s, x.emission)
  {
    ExecutionExact(w, s, fb, header, expected, db, env);
    CacheMisses(w, s, header.base.number);
  }

  lemma CacheMisses(w: World, s: State, block: nat)
    requires Inv(s)
    ensures CachedRoot(w, s, block, s.revision + 1).None?
  {
  }

  lemma AdvanceRoots(w: World, s: State, fb: Flashblock, expected: Option<Hash>, env: Env)
    requires Inv(s) && Fresh(s, fb) && !s.pending
    ensures forall e <- Advance(w, s, fb, expected, env).log :: RootKnown(w, s, e)
  {
    var header, db, x := AdvanceCases(w, s, fb, expected, env);
    if Advance(w, s, fb, expected, env).log != [] {
      ExecutionRoot(w, s, fb, header, expected, db, env);
    }
  }

  lemma ProcessRoots(w: World, s: State, ev: Event)
    requires Inv(s) && ev.FlashblockReceived?
    ensures forall e <- Process(w, s, ev.fb, ev.squash, ev.expected, ev.env).log :: RootKnown(w, s, e)
  {
    ProcessLines(w, s, ev.fb, ev.squash, ev.expected, ev.env);
    AcceptRoots(w, s, ev.fb, ev.env);
    var a := Accept(w, s, ev.fb, ev.env);
    if a.Accepted? && Fresh(a.state, ev.fb) && Advances(a.state, ev.fb, ev.squash, ev.expected) {
      AdvanceRoots(w, a.state, ev.fb, ev.expected, ev.env);
    }
  }

  lemma ConfirmRoots(w: World, s: State, hash: Hash, env: Env)
    requires Inv(s) && s.current.Some?
    ensures forall e <- Confirm(w, s, s.current.value, hash, env).log :: RootKnown(w, s, e)
  {
    GuardedRoot(w, s, hash, env.rootComputes);
  }

  lemma CanonicalRoots(w: World, s: State, ev: Event)
    requires Inv(s) && ev.CanonicalBlock?
    ensures forall e <- OnCanonical(w, s, ev.number, ev.hash, ev.env).log :: RootKnown(w, s, e)
  {
    if s.pending {
      CanonicalOrigin(w, s, ev.number, ev.hash, ev.env);
    } else if s.current == Some(ev.number) {
      var t := Note(s, ev.number, ev.hash);
      assert Inv(t);
      ConfirmRoots(w, t, ev.hash, ev.env);
    }
  }

  lemma StepRoots(w: World, s: State, ev: Event)
    requires Inv(s)
    ensures forall e <- Step(w, s, ev).log :: RootKnown(w, s, e)
  {
    match ev
    case FlashblockReceived(_, _, _, _) => ProcessRoots(w, s, ev);
    case CanonicalBlock(_, _, _) => CanonicalRoots(w, s, ev);
    case TaskFinished(_) =>
  }

  // ---------------------------------------------------------------- the background task

  /** The partial right after which the task was launched. */
  ghost predicate LaunchLine(spec: Speculation, e: Emission) {
    && e.path == Partial && e.index == spec.index && e.index >= SPECULATIVE_STATE_ROOT_MIN_INDEX
    && e.db.Some? && e.db.value.bundle == spec.bundle
    && e.flashblocks != [] && e.flashblocks[0].block == spec.block
  }

  /** What an event does to the speculation: keep or drop it, launch a new one after its own line, or answer it. */
  ghost predicate SpeculationStep(s: State, ev: Event, o: Outcome) {
    var spec := o.state.speculation;
    || spec.None?
    || spec == s.speculation
    || (spec.value.answer.None? && exists e <- o.log :: LaunchLine(spec.value, e))
    || (ev.TaskFinished? && s.speculation.Some?
        && spec.value == s.speculation.value.(answer := ev.provider(Parent(spec.value.block))))
  }

  lemma CommitSpeculation(s: State, x: Execution, fb: Flashblock, runtime: bool)
    requires x.Executed? && x.emission.db == Some(x.db) && x.emission.index == fb.index && x.emission.path != Guarded
    requires x.emission.flashblocks != [] && x.emission.flashblocks[0].block == fb.block
    ensures var spec := Commit(s, x, fb.block, fb.index, runtime).speculation;
            spec == s.speculation || (spec.Some? && spec.value.answer.None? && LaunchLine(spec.value, x.emission))
  {
  }

  lemma AdvanceSpeculation(w: World, s: State, ev: Event)
    requires ev.FlashblockReceived? && Inv(s) && Fresh(s, ev.fb) && !s.pending
    ensures SpeculationStep(s, ev, Advance(w, s, ev.fb, ev.expected, ev.env))
  {
    var o := Advance(w, s, ev.fb, ev.expected, ev.env);
    var header, db, x := AdvanceCases(w, s, ev.fb, ev.expected, ev.env);
    if o.log != [] {
      ExecutionLine(w, s, header, ev.fb.index, Deferred(s.stored, s.executed), s.executed.None?, ev.expected, db, ev.env);
      CommitSpeculation(s, x, ev.fb, ev.env.runtime);
      assert x.emission in o.log;
    }
  }

  lemma ProcessSpeculation(w: World, s: State, ev: Event)
    requires Inv(s) && ev.FlashblockReceived?
    ensures SpeculationStep(s, ev, Process(w, s, ev.fb, ev.squash, ev.expected, ev.env))
  {
    AcceptRoots(w, s, ev.fb, ev.env);
    if Accept(w, s, ev.fb, ev.env).Accepted? {
      AdmitSpeculation(w, s, ev);
    } else {
      DroppedSpeculation(w, s, ev.fb, ev.env);
    }
  }

  lemma DroppedSpeculation(w: World, s: State, fb: Flashblock, env: Env)
    requires Inv(s) && Accept(w, s, fb, env).Dropped?
    ensures var spec := Accept(w, s, fb, env).state.speculation; spec.None? || spec == s.speculation
  {
  }

  lemma AdmitSpeculation(w: World, s: State, ev: Event)
    requires Inv(s) && ev.FlashblockReceived? && Accept(w, s, ev.fb, ev.env).Accepted?
    ensures var a := Accept(w, s, ev.fb, ev.env);
            a.state.stored != [] &&
            var o := Continue(w, a.state, ev.fb, ev.squash, ev.expected, ev.env);
            SpeculationStep(s, ev, Outcome(o.state, a.log + o.log))
  {
    AcceptInv(w, s, ev.fb, ev.env);
    AcceptRoots(w, s, ev.fb, ev.env);
    var a := Accept(w, s, ev.fb, ev.env);
    if !a.state.pending {
      AdvanceSpeculation(w, a.state, ev);
      var o := Advance(w, a.state, ev.fb, ev.expected, ev.env);
      assert forall e <- o.log :: e in a.log + o.log;
    }
  }

  lemma CanonicalSpeculation(w: World, s: State, number: nat, hash: Hash, env: Env)
    requires Inv(s)
    ensures var spec := OnCanonical(w, s, number, hash, env).state.speculation; spec.None? || spec == s.speculation
  {
    var t := Note(s, number, hash);
    if t.pending {
      ReplaySpeculation(w, t, number, env);
    } else {
      ConfirmSpeculation(w, t, number, hash, env);
    }
  }

  lemma ReplaySpeculation(w: World, s: State, number: nat, env: Env)
    requires s.stored != []
    ensures var spec := Replay(w, s, number, env).state.speculation; spec.None? || spec == s.speculation
  {
  }

  lemma ConfirmSpeculation(w: World, s: State, number: nat, hash: Hash, env: Env)
    ensures var spec := Confirm(w, s, number, hash, env).state.speculation; spec.None? || spec == s.speculation
  {
  }

  lemma StepSpeculation(w: World, s: State, ev: Event)
    requires Inv(s)
    ensures SpeculationStep(s, ev, Step(w, s, ev))
  {
    match ev
    case FlashblockReceived(_, _, _, _) => ProcessSpeculation(w, s, ev);
    case CanonicalBlock(number, hash, env) => CanonicalSpeculation(w, s, number, hash, env);
    case TaskFinished(_) =>
  }

  // ---------------------------------------------------------------- whole runs

  ghost predicate Launched(spec: Speculation, log: seq<Emission>, p: nat) {
    p < |log| && LaunchLine(spec, log[p])
  }

  /** Event `n` finished a task with this speculation's answer, after line `p` was written. */
  ghost predicate Answered(w: World, spec: Speculation, evs: seq<Event>, p: nat, n: nat) {
    && n < |evs| && evs[n].TaskFinished? && evs[n].provider(Parent(spec.block)) == spec.answer
    && p < |Run(w, evs[..n]).log|
  }

  /** A speculation follows the line that launched it, and its answer came at a task's end after that line. */
  ghost predicate Traceable(w: World, spec: Speculation, evs: seq<Event>) {
    exists p: nat :: Launched(spec, Run(w, evs).log, p) && AnsweredAfter(w, spec, evs, p)
  }

  ghost predicate AnsweredAfter(w: World, spec: Speculation, evs: seq<Event>, p: nat) {
    spec.answer.Some? ==> exists n: nat :: Answered(w, spec, evs, p, n)
  }

  lemma AnsweredLater(w: World, spec: Speculation, evs: seq<Event>, ev: Event, p: nat)
    requires AnsweredAfter(w, spec, evs, p)
    ensures AnsweredAfter(w, spec, evs + [ev], p)
  {
    if spec.answer.Some? {
      var n: nat :| Answered(w, spec, evs, p, n);
      AnsweredAt(w, spec, evs, ev, p, n);
    }
  }

  lemma AnsweredAt(w: World, spec: Speculation, evs: seq<Event>, ev: Event, p: nat, n: nat)
    requires n < |evs| && Answered(w, spec, evs, p, n)
    ensures Answered(w, spec, evs + [ev], p, n)
  {
    assert (evs + [ev])[..n] == evs[..n];
  }

  lemma AnsweredNow(w: World, spec: Speculation, evs: seq<Event>, ev: Event, p: nat)
    requires ev.TaskFinished? && ev.provider(Parent(spec.block)) == spec.answer && p < |Run(w, evs).log|
    ensures AnsweredAfter(w, spec, evs + [ev], p)
  {
    assert (evs + [ev])[..|evs|] == evs;
    assert Answered(w, spec, evs + [ev], p, |evs|);
  }

  lemma TraceableNext(w: World, evs: seq<Event>, ev: Event, o: Outcome)
    requires var s := Run(w, evs).state;
             && (s.speculation.Some? ==> Traceable(w, s.speculation.value, evs))
             && SpeculationStep(s, ev, o) && o.state.speculation.Some?
    requires Run(w, evs + [ev]).log == Run(w, evs).log + o.log
    ensures Traceable(w, o.state.speculation.value, evs + [ev])
  {
    var s, log, spec := Run(w, evs).state, Run(w, evs).log, o.state.speculation.value;
    if spec.answer.None? && exists e <- o.log :: LaunchLine(spec, e) {
      var k: nat :| k < |o.log| && LaunchLine(spec, o.log[k]);
      assert Launched(spec, log + o.log, |log| + k) && AnsweredAfter(w, spec, evs + [ev], |log| + k);
    } else {
      var p: nat :| Launched(s.speculation.value, log, p) && AnsweredAfter(w, s.speculation.value, evs, p);
      assert Launched(spec, log + o.log, p);
      if o.state.speculation == s.speculation {
        AnsweredLater(w, spec, evs, ev, p);
      } else {
        AnsweredNow(w, spec, evs, ev, p);
      }
    }
  }

  lemma {:induction false} RunTraceable(w: World, evs: seq<Event>)
    ensures var spec := Run(w, evs).state.speculation; spec.Some? ==> Traceable(w, spec.value, evs)
  {
    if evs != [] {
      var front, last := evs[..|evs| - 1], evs[|evs| - 1];
      var o := Step(w, Run(w, front).state, last);
      assert evs == front + [last];
      RunTraceable(w, front);
      StepSpeculation(w, Run(w, front).state, last);
      if o.state.speculation.Some? {
        TraceableNext(w, front, last, o);
      }
    }
  }

  /**
   * The root of `e` is that of the bundle behind line `p` of the run, a partial of the same block number, over
   * the snapshot the provider gave the task that event `n`, after that line, finished; a database written with
   * `e` has that bundle.
   */
  ghost predicate RootOfTask(w: World, evs: seq<Event>, e: Emission, p: nat, n: nat) {
    && p < |Run(w, evs).log| && n < |evs| && evs[n].TaskFinished? && p < |Run(w, evs[..n]).log|
    && var line := Run(w, evs).log[p];
       && line.path == Partial && line.index >= SPECULATIVE_STATE_ROOT_MIN_INDEX && line.db.Some?
       && line.flashblocks != [] && e.flashblocks != [] && line.flashblocks[0].block == e.flashblocks[0].block
       && evs[n].provider(Parent(e.flashblocks[0].block)).Some?
       && e.header.stateRoot == w.root(evs[n].provider(Parent(e.flashblocks[0].block)).value, line.db.value.bundle)
       && (e.db.Some? ==> e.db.value.bundle == line.db.value.bundle)
  }

  ghost predicate FromTask(w: World, evs: seq<Event>, e: Emission) {
    exists p: nat, n: nat :: RootOfTask(w, evs, e, p, n)
  }

  lemma NextRoots(w: World, front: seq<Event>, last: Event, e: Emission)
    requires e in Step(w, Run(w, front).state, last).log && IsFinal(e)
    ensures FreshRoot(w, e) || FromTask(w, front, e)
  {
    var s := Run(w, front).state;
    StepRoots(w, s, last);
    if !FreshRoot(w, e) {
      var spec := s.speculation.value;
      RunTraceable(w, front);
      var p: nat :| Launched(spec, Run(w, front).log, p) && AnsweredAfter(w, spec, front, p);
      var n: nat :| Answered(w, spec, front, p, n);
      assert RootOfTask(w, front, e, p, n);
    }
  }

  /**
   * Every final of every run carries the root of its own database, or the root a background task finished
   * before the event that writes it. A final written without a database is always of the second kind.
   */
  lemma FinalRoots(w: World, evs: seq<Event>, k: nat) returns (i: nat)
    requires k < |Run(w, evs).log| && IsFinal(Run(w, evs).log[k])
    ensures WrittenBy(w, evs, k, i)
    ensures FreshRoot(w, Run(w, evs).log[k]) || FromTask(w, evs[..i], Run(w, evs).log[k])
  {
    i := WriterOf(w, evs, k);
    WriterStep(w, evs, k, i);
    NextRoots(w, evs[..i], evs[i], Run(w, evs).log[k]);
  }
}
