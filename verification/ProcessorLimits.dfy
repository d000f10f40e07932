/**
 * Concrete runs showing that the conditions of the run theorems cannot be dropped. All are runs the
 * subscription can produce: their verdicts are the classifier's against the next message of a stream. Unless it
 * is the point of the run, the provider keeps to one snapshot and the clock stands still.
 */
module ProcessorLimits {
  import opened Wrappers
  import opened Flashblocks
  import opened ProcessorSpec
  import opened ProcessorInvariants
  import opened ProcessorEmissions
  import opened ProcessorWire
  import opened ProcessorRuns
  import opened ProcessorStream

  const BASE := Base(5, 1, 0, 0)

  function Piece(block: nat, i: nat): Flashblock {
    Flashblock(0, block, i, UNLINKED, if i == 0 then Some(BASE) else None, Diff(0, 0, 0, []))
  }

  /** The base of block 6, on a block 5 with hash 7. */
  function NextBase(): Flashblock {
    Flashblock(1, 6, 0, UNLINKED, Some(Base(6, 7, 0, 0)), Diff(0, 0, 0, []))
  }

  function Answering(snapshot: Option<StateId>): Env {
    Env(0, n => snapshot, n => true, true, true, true)
  }

  lemma StreamsNext(m: seq<Flashblock>, evs: seq<Event>, ev: Event)
    requires Streams(m, evs)
    requires ev.FlashblockReceived? ==> |Received(evs)| < |m| && Delivered(m, ev, |Received(evs)|)
    ensures Streams(m, evs + [ev])
    ensures |Received(evs + [ev])| == |Received(evs)| + (if ev.FlashblockReceived? then 1 else 0)
  {
    assert (evs + [ev])[..|evs|] == evs;
    var r, all := Received(evs), Received(evs + [ev]);
    assert all == r + (if ev.FlashblockReceived? then [ev] else []);
    forall i | 0 <= i < |all| ensures i < |m| && Delivered(m, all[i], i) {
      if i < |r| { assert all[i] == r[i]; }
    }
  }

  /** Every state the provider knows is snapshot 7. */
  function OneChain(): nat -> StateId {
    n => 7
  }

  ghost predicate Still(evs: seq<Event>) {
    forall ev <- evs :: ev.FlashblockReceived? ==> ev.env.now == 0
  }

  ghost predicate Ordinary(m: seq<Flashblock>, evs: seq<Event>) {
    Streams(m, evs) && AllHonest(OneChain(), evs) && Still(evs)
  }

  lemma OrdinaryNext(m: seq<Flashblock>, evs: seq<Event>, ev: Event)
    requires Ordinary(m, evs) && Honest(OneChain(), ev) && (ev.FlashblockReceived? ==> ev.env.now == 0)
    requires ev.FlashblockReceived? ==> |Received(evs)| < |m| && Delivered(m, ev, |Received(evs)|)
    ensures Ordinary(m, evs + [ev])
    ensures |Received(evs + [ev])| == |Received(evs)| + (if ev.FlashblockReceived? then 1 else 0)
  {
    StreamsNext(m, evs, ev);
  }

  // ---------------------------------------------------------------- a buffered block

  function Pieces(n: nat): seq<Flashblock> {
    seq(n, i requires 0 <= i < n => Piece(5, i))
  }

  /** Block 5 with its first `n` flashblocks stored and none executed. */
  function Buffered(n: nat): State
    requires n > 0
  {
    INITIAL.(current := Some(5), latest := Some(n - 1), stored := Pieces(n), sequence := 1)
  }

  function Squashed(n: nat): seq<Event> {
    seq(n, i requires 0 <= i < n => Squash(i))
  }

  function Squash(i: nat): Event {
    FlashblockReceived(Piece(5, i), i > 0, None, Answering(Some(7)))
  }

  lemma BufferStep(w: World, n: nat)
    requires n > 1
    ensures Step(w, Buffered(n - 1), Squash(n - 1)) == Outcome(Buffered(n), [])
  {
    assert Pieces(n) == Pieces(n - 1) + [Piece(5, n - 1)];
    assert Accept(w, Buffered(n - 1), Piece(5, n - 1), Answering(Some(7))) == Accepted(Buffered(n), []);
  }

  lemma {:induction false} BufferRun(w: World, n: nat)
    requires n > 0
    ensures Run(w, Squashed(n)) == Outcome(Buffered(n), [])
  {
    assert Squashed(n) == Squashed(n - 1) + [Squash(n - 1)];
    RunFromExtend(w, INITIAL, Squashed(n - 1), Squash(n - 1));
    if n == 1 {
      assert Squashed(0) == [] && Run(w, []) == Outcome(INITIAL, []);
      assert Pieces(1) == [Piece(5, 0)];
    } else {
      BufferRun(w, n - 1);
      BufferStep(w, n);
    }
  }

  lemma {:induction false} SquashedStreams(n: nat, m: seq<Flashblock>)
    requires Pieces(n + 1) <= m
    ensures Ordinary(m, Squashed(n)) && |Received(Squashed(n))| == n
  {
    if n > 0 {
      assert Squashed(n) == Squashed(n - 1) + [Squash(n - 1)];
      assert m[n - 1] == Pieces(n + 1)[n - 1] && m[n] == Pieces(n + 1)[n];
      SquashedStreams(n - 1, m);
      OrdinaryNext(m, Squashed(n - 1), Squash(n - 1));
    }
  }

  lemma {:induction false} NoTransactions(n: nat)
    ensures Transactions(Pieces(n)) == [] && Deferred(Pieces(n), None) == []
  {
    if n > 0 {
      assert Pieces(n)[..n - 1] == Pieces(n - 1);
      NoTransactions(n - 1);
    }
  }

  // ---------------------------------------------------------------- two finals for one block

  /** Block 5 with its first `n` flashblocks executed on `snapshot`. */
  function Executed(n: nat, snapshot: StateId, final: bool): State
    requires n > 0
  {
    Buffered(n).(db := Some(Db(snapshot, [PreExecution])), executed := Some(n - 1), revision := 1, finalSent := final)
  }

  function Delta(i: nat, expected: Option<Hash>): Event {
    FlashblockReceived(Piece(5, i), false, expected, Answering(Some(7)))
  }

  /** A state of block 5 in another sequence, after other resets and signals. */
  function Again(s: State, canonical: Option<(nat, Hash)>, revision: nat, sequence: nat): State {
    s.(canonical := canonical, revision := s.revision + revision, sequence := sequence)
  }

  /** The first delta executed on a deferred base; as a peek-final it writes the block's final. */
  lemma DeltaRuns(expected: Option<Hash>, canonical: Option<(nat, Hash)>, revision: nat, sequence: nat)
    requires expected.None? || expected == Some(7)
    ensures var o := Step(Transparent(), Again(Buffered(1), canonical, revision, sequence), Delta(1, expected));
            && o.state == Again(Executed(2, 7, expected.Some?), canonical, revision, sequence)
            && |o.log| == 1 && o.log[0].path == (if expected.Some? then Peek else Partial) && o.log[0].sequence == sequence
  {
    var w, base, env := Transparent(), Again(Buffered(1), canonical, revision, sequence), Answering(Some(7));
    var s := Again(Buffered(2), canonical, revision, sequence);
    assert Pieces(2) == Pieces(1) + [Piece(5, 1)];
    assert Accept(w, base, Piece(5, 1), env) == Accepted(s, []);
    NoTransactions(2);
    assert Execute(Db(7, []), true, []).bundle == [PreExecution];
    assert Assemble(w.converts, s.stored).Some?;
  }

  /** The block has its final and the next delta still executes as a peek-final. */
  lemma DeltaRepeats(s: State, canonical: Option<(nat, Hash)>)
    requires Inv(s) && s == Executed(2, 7, true).(canonical := canonical)
    ensures PeekAfterFinal(Transparent(), s, Delta(2, Some(7)))
  {
    var w, t := Transparent(), Appended(s, Piece(5, 2));
    assert Assemble(w.converts, t.stored).Some?;
    assert Deferred(t.stored, t.executed) == [] by {
      assert Pieces(2)[..1] == Pieces(1);
      assert t.stored[..2] == Pieces(2);
      assert Deferred(Pieces(2), Some(1)) == [] + [] + [];
    }
    assert Execute(s.db.value, false, []).bundle == s.db.value.bundle;
  }

  lemma BaseStreams(m: seq<Flashblock>)
    requires m != [] && m[0] == Piece(5, 0)
    ensures Squashed(1) == [FlashblockReceived(Piece(5, 0), false, None, Answering(Some(7)))]
    ensures Ordinary(m, Squashed(1)) && |Received(Squashed(1))| == 1
  {
    OrdinaryNext(m, [], Squashed(1)[0]);
    assert [] + Squashed(1) == Squashed(1) == [] + [Squashed(1)[0]];
  }

  function Confirmation(): Event {
    CanonicalBlock(5, 7, Answering(Some(7)))
  }

  ghost predicate FinalOfFive(e: Emission, sequence: nat) {
    && e.path == Guarded && e.index == 2 && e.sequence == sequence && e.hash == 7 && e.flashblocks == Pieces(2)
    && e.header == Header(BASE, [], 7, 0)
  }

  /** A canonical signal confirms block 5 after its first delta. */
  lemma EarlySignal(canonical: Option<(nat, Hash)>, revision: nat, sequence: nat)
    requires canonical.None? || canonical == Some((5, 7))
    ensures var o := Step(Transparent(), Again(Executed(2, 7, false), canonical, revision, sequence), Confirmation());
            && o.state == Again(Executed(2, 7, true), Some((5, 7)), revision, sequence)
            && |o.log| == 1 && FinalOfFive(o.log[0], sequence)
  {
    NoTransactions(2);
    assert Executed(2, 7, false).stored[0] == Piece(5, 0);
  }

  /** A signal that confirms the block early, then a last delta classified as final: two finals of one sequence. */
  lemma EarlySignalRepeatsFinal()
    ensures var m := [Piece(5, 0), Piece(5, 1), Piece(5, 2), NextBase()];
            var evs := Squashed(1) + [Delta(1, None)] + [Confirmation()] + [Delta(2, Some(7))];
            Ordinary(m, evs) && !UniqueFinals(Run(Transparent(), evs).log)
  {
    var w, signal := Transparent(), Confirmation();
    var m := [Piece(5, 0), Piece(5, 1), Piece(5, 2), NextBase()];
    BaseStreams(m);
    OrdinaryNext(m, Squashed(1), Delta(1, None));
    OrdinaryNext(m, Squashed(1) + [Delta(1, None)], signal);
    OrdinaryNext(m, Squashed(1) + [Delta(1, None)] + [signal], Delta(2, Some(7)));
    EarlyState();
    DeltaRepeats(Run(w, Squashed(1) + [Delta(1, None)] + [signal]).state, Some((5, 7)));
    RepeatsLast(w, Squashed(1) + [Delta(1, None)] + [signal], Delta(2, Some(7)));
  }

  /** Block 5 confirmed early, in the first sequence. */
  lemma EarlyState()
    ensures var o := Run(Transparent(), Squashed(1) + [Delta(1, None)] + [Confirmation()]);
            && o.state == Executed(2, 7, true).(canonical := Some((5, 7)))
            && |o.log| == 2 && FinalOfFive(o.log[1], 1)
  {
    var w := Transparent();
    BufferRun(w, 1);
    assert Again(Buffered(1), None, 0, 1) == Buffered(1);
    RunFromExtend(w, INITIAL, Squashed(1), Delta(1, None));
    DeltaRuns(None, None, 0, 1);
    RunFromExtend(w, INITIAL, Squashed(1) + [Delta(1, None)], Confirmation());
    EarlySignal(None, 0, 1);
  }

  /** The delta after an early confirmation, if it is not the last: a partial under the final's own index. */
  lemma PartialAfterFinal()
    ensures var m := [Piece(5, 0), Piece(5, 1), Piece(5, 2)];
            var evs := Squashed(1) + [Delta(1, None)] + [Confirmation()] + [Delta(2, None)];
            var log := Run(Transparent(), evs).log;
            && Ordinary(m, evs) && |log| == 3 && log[1].sequence == log[2].sequence
            && log[1].path == Guarded && log[2].path == Partial && log[1].index == log[2].index == 2
  {
    var w, signal := Transparent(), Confirmation();
    var m := [Piece(5, 0), Piece(5, 1), Piece(5, 2)];
    var evs := Squashed(1) + [Delta(1, None)];
    BaseStreams(m);
    OrdinaryNext(m, Squashed(1), Delta(1, None));
    OrdinaryNext(m, evs, signal);
    OrdinaryNext(m, evs + [signal], Delta(2, None));
    EarlyState();
    var s := Run(w, evs + [signal]).state;
    RunFromExtend(w, INITIAL, evs + [signal], Delta(2, None));
    LateDelta(s);
  }

  lemma LateDelta(s: State)
    requires Inv(s) && s == Executed(2, 7, true).(canonical := Some((5, 7)))
    ensures var log := Step(Transparent(), s, Delta(2, None)).log;
            |log| == 1 && log[0].path == Partial && log[0].index == 2 && log[0].sequence == 1
  {
    var w, t := Transparent(), Appended(s, Piece(5, 2));
    assert Accept(w, s, Piece(5, 2), Answering(Some(7))) == Accepted(t, []);
    assert Assemble(w.converts, t.stored).Some?;
  }

  lemma RepeatsLast(w: World, front: seq<Event>, last: Event)
    requires PeekAfterFinal(w, Run(w, front).state, last)
    ensures !UniqueFinals(Run(w, front + [last]).log)
  {
    assert (front + [last])[..|front|] == front;
    AtMostOneFinalIff(w, front + [last]);
  }

  /** The base of block 6, six seconds late. */
  function LateBase(): Event {
    FlashblockReceived(NextBase(), false, None, Answering(Some(7)).(now := 6))
  }

  /**
   * A peek-final whose base arrives late and is dropped, then another delta before the base is sent again. The
   * clock reads 0, 0, 6, 0: it was set back after the base, as otherwise the delta would be dropped as well.
   */
  lemma StaleBaseRepeatsFinal()
    ensures var m := [Piece(5, 0), Piece(5, 1), NextBase(), Piece(5, 2), NextBase()];
            var evs := Squashed(1) + [Delta(1, Some(7))] + [LateBase()] + [Delta(2, Some(7))];
            Streams(m, evs) && AllHonest(OneChain(), evs) && !UniqueFinals(Run(Transparent(), evs).log)
  {
    var w, evs := Transparent(), Squashed(1) + [Delta(1, Some(7))];
    var m := [Piece(5, 0), Piece(5, 1), NextBase(), Piece(5, 2), NextBase()];
    BaseStreams(m);
    OrdinaryNext(m, Squashed(1), Delta(1, Some(7)));
    StreamsNext(m, evs, LateBase());
    StreamsNext(m, evs + [LateBase()], Delta(2, Some(7)));
    LateState();
    DeltaRepeats(Run(w, evs + [LateBase()]).state, None);
    RepeatsLast(w, evs + [LateBase()], Delta(2, Some(7)));
  }

  lemma LateState()
    ensures Run(Transparent(), Squashed(1) + [Delta(1, Some(7))] + [LateBase()]).state == Executed(2, 7, true)
  {
    FinalState();
    RunFromExtend(Transparent(), INITIAL, Squashed(1) + [Delta(1, Some(7))], LateBase());
  }

  lemma FinalState()
    ensures Run(Transparent(), Squashed(1) + [Delta(1, Some(7))]).state == Executed(2, 7, true)
  {
    BufferRun(Transparent(), 1);
    assert Again(Buffered(1), None, 0, 1) == Buffered(1);
    RunFromExtend(Transparent(), INITIAL, Squashed(1), Delta(1, Some(7)));
    DeltaRuns(Some(7), None, 0, 1);
  }

  // ---------------------------------------------------------------- two finals for one block number

  /** Two flashblocks later than the next: the sequence is discarded. */
  function Gap(): Event {
    FlashblockReceived(Piece(5, 5), false, None, Answering(Some(7)))
  }

  function BaseAgain(): Event {
    FlashblockReceived(Piece(5, 0), false, None, Answering(Some(7)))
  }

  function Discarded(): State {
    INITIAL.(canonical := Some((5, 7)), revision := 2, sequence := 1)
  }

  lemma GapDiscards()
    ensures Step(Transparent(), Executed(2, 7, true).(canonical := Some((5, 7))), Gap()) == Outcome(Discarded(), [])
  {
  }

  lemma BaseRestarts()
    ensures Step(Transparent(), Discarded(), BaseAgain()) == Outcome(Again(Buffered(1), Some((5, 7)), 2, 2), [])
  {
    assert Pieces(1) == [Piece(5, 0)];
  }

  function Restart(): seq<Event> {
    Squashed(1) + [Delta(1, None)] + [Confirmation()] + [Gap()] + [BaseAgain()]
  }

  /** The block is discarded after its final and its base accepted again. */
  lemma RestartState()
    ensures var o := Run(Transparent(), Restart());
            o.state == Again(Buffered(1), Some((5, 7)), 2, 2) && |o.log| == 2 && FinalOfFive(o.log[1], 1)
  {
    var w, evs := Transparent(), Squashed(1) + [Delta(1, None)] + [Confirmation()];
    EarlyState();
    RunFromExtend(w, INITIAL, evs, Gap());
    GapDiscards();
    RunFromExtend(w, INITIAL, evs + [Gap()], BaseAgain());
    BaseRestarts();
  }

  lemma RestartOrdinary(m: seq<Flashblock>)
    requires m == [Piece(5, 0), Piece(5, 1), Piece(5, 5), Piece(5, 0), Piece(5, 1)]
    ensures Ordinary(m, Restart()) && |Received(Restart())| == 4
  {
    BaseStreams(m);
    OrdinaryNext(m, Squashed(1), Delta(1, None));
    OrdinaryNext(m, Squashed(1) + [Delta(1, None)], Confirmation());
    OrdinaryNext(m, Squashed(1) + [Delta(1, None)] + [Confirmation()], Gap());
    OrdinaryNext(m, Squashed(1) + [Delta(1, None)] + [Confirmation()] + [Gap()], BaseAgain());
  }

  lemma RestartFinals()
    ensures var log := Run(Transparent(), Restart() + [Delta(1, None)] + [Confirmation()]).log;
            |log| == 4 && FinalOfFive(log[1], 1) && FinalOfFive(log[3], 2)
  {
    RestartDelta();
    RunFromExtend(Transparent(), INITIAL, Restart() + [Delta(1, None)], Confirmation());
    EarlySignal(Some((5, 7)), 2, 2);
  }

  lemma RestartDelta()
    ensures var o := Run(Transparent(), Restart() + [Delta(1, None)]);
            o.state == Again(Executed(2, 7, false), Some((5, 7)), 2, 2) && |o.log| == 3 && FinalOfFive(o.log[1], 1)
  {
    RestartState();
    RunFromExtend(Transparent(), INITIAL, Restart(), Delta(1, None));
    DeltaRuns(None, Some((5, 7)), 2, 2);
  }

  /** A gap discards the confirmed block, its base is sent again, and the same signal draws the same final again. */
  lemma RestartRepeatsFinal()
    ensures var m := [Piece(5, 0), Piece(5, 1), Piece(5, 5), Piece(5, 0), Piece(5, 1)];
            var evs := Restart() + [Delta(1, None)] + [Confirmation()];
            var log := Run(Transparent(), evs).log;
            Ordinary(m, evs) && |log| == 4 && FinalOfFive(log[1], 1) && FinalOfFive(log[3], 2)
  {
    var m := [Piece(5, 0), Piece(5, 1), Piece(5, 5), Piece(5, 0), Piece(5, 1)];
    RestartOrdinary(m);
    OrdinaryNext(m, Restart(), Delta(1, None));
    OrdinaryNext(m, Restart() + [Delta(1, None)], Confirmation());
    RestartFinals();
  }

  // ---------------------------------------------------------------- contradictions that go unnoticed

  function Contradiction(snapshot: Option<StateId>): Event {
    CanonicalBlock(5, 99, Answering(snapshot))
  }

  /** A canonical hash contradicting a block whose final is already out discards nothing. */
  lemma ContradictionUnnoticed()
    ensures var m := [Piece(5, 0), Piece(5, 1), NextBase()];
            var evs := Squashed(1) + [Delta(1, Some(7))];
            var before, after := Run(Transparent(), evs), Run(Transparent(), evs + [Contradiction(Some(7))]);
            && Ordinary(m, evs + [Contradiction(Some(7))]) && before.state.finalSent && after.state.current == Some(5)
            && after.log == before.log && after.state.stored == before.state.stored
  {
    var w, m := Transparent(), [Piece(5, 0), Piece(5, 1), NextBase()];
    var evs := Squashed(1) + [Delta(1, Some(7))];
    BaseStreams(m);
    OrdinaryNext(m, Squashed(1), Delta(1, Some(7)));
    OrdinaryNext(m, evs, Contradiction(Some(7)));
    FinalState();
    RunFromExtend(w, INITIAL, evs, Contradiction(Some(7)));
    assert Run(w, evs).log + [] == Run(w, evs).log;
  }

  /** The first delta of a block whose parent state is not there yet. */
  function Early(): Event {
    FlashblockReceived(Piece(5, 1), false, None, Answering(None))
  }

  lemma EarlyPends()
    ensures Step(Transparent(), Buffered(1), Early()) == Outcome(Buffered(2).(pending := true), [])
  {
    var w := Transparent();
    assert Pieces(2) == Pieces(1) + [Piece(5, 1)];
    assert Accept(w, Buffered(1), Piece(5, 1), Answering(None)) == Accepted(Buffered(2), []);
    assert Assemble(w.converts, Pieces(2)).Some?;
  }

  /** Nor does one contradicting a block that is still pending, without any final. */
  lemma PendingContradictionUnnoticed()
    ensures var m := [Piece(5, 0), Piece(5, 1)];
            var evs := Squashed(1) + [Early()];
            var before, after := Run(Transparent(), evs), Run(Transparent(), evs + [Contradiction(None)]);
            && Ordinary(m, evs + [Contradiction(None)]) && before.state.pending && before.log == [] && after.log == []
            && after.state.current == Some(5) && after.state.stored == before.state.stored
  {
    var w, m := Transparent(), [Piece(5, 0), Piece(5, 1)];
    var evs := Squashed(1) + [Early()];
    BaseStreams(m);
    OrdinaryNext(m, Squashed(1), Early());
    OrdinaryNext(m, evs, Contradiction(None));
    BufferRun(w, 1);
    RunFromExtend(w, INITIAL, Squashed(1), Early());
    EarlyPends();
    RunFromExtend(w, INITIAL, evs, Contradiction(None));
  }

  // ---------------------------------------------------------------- a reorganised parent

  /** Block 5 executed through index 10 on snapshot 7, with a root speculation on it. */
  ghost predicate Speculating(s: State, answer: Option<StateId>) {
    && s.current == Some(5) && s.latest == Some(10) && s.stored == Pieces(11) && !s.pending && !s.finalSent
    && s.db == Some(Db(7, [PreExecution])) && s.executed == Some(10) && s.revision == 1 && s.canonical.None?
    && s.speculation == Some(Speculation(5, 10, 1, [PreExecution], answer))
  }

  lemma SpeculationLaunched()
    ensures var ev := FlashblockReceived(Piece(5, 10), false, None, Answering(Some(7)));
            Speculating(Step(Transparent(), Buffered(10), ev).state, None)
  {
    var w, s, fb, env := Transparent(), Buffered(11), Piece(5, 10), Answering(Some(7));
    assert Pieces(11) == Pieces(10) + [fb];
    assert Accept(w, Buffered(10), fb, env) == Accepted(s, []);
    NoTransactions(11);
    assert Execute(Db(7, []), true, []).bundle == [PreExecution];
    assert Assemble(w.converts, s.stored).Some?;
  }

  lemma StaleRootPublished(s: State)
    requires Inv(s) && Speculating(s, Some(2))
    ensures var log := OnCanonical(Transparent(), s, 5, 2, Answering(Some(2))).log;
            |log| == 1 && IsFinal(log[0]) && log[0].header.stateRoot == 2 && log[0].db == s.db
  {
    assert s.stored[0] == Piece(5, 0);
  }

  lemma SpeculationAnswered(launched: seq<Event>, task: Event, answer: StateId)
    requires task.TaskFinished? && task.provider(4) == Some(answer) && Speculating(Run(Transparent(), launched).state, None)
    ensures Speculating(Run(Transparent(), launched + [task]).state, Some(answer))
  {
    RunFromExtend(Transparent(), INITIAL, launched, task);
  }

  /**
   * When the provider re-assigns the parent's number between bootstrap and the background read, the
   * cached root is not the live database's, and a canonical signal can publish it in a final.
   */
  lemma ReorgedParentPublished()
    ensures var evs := Squashed(10)
                       + [FlashblockReceived(Piece(5, 10), false, None, Answering(Some(7)))]
                       + [TaskFinished(n => Some(2))]
                       + [CanonicalBlock(5, 2, Answering(Some(2)))];
            Streams(Pieces(11), evs) &&
            exists e <- Run(Transparent(), evs).log ::
              && IsFinal(e) && e.db.Some?
              && e.header.stateRoot != Transparent().root(e.db.value.parent, e.db.value.bundle)
  {
    var w := Transparent();
    var run := FlashblockReceived(Piece(5, 10), false, None, Answering(Some(7)));
    var task := TaskFinished(n => Some(2));
    var signal := CanonicalBlock(5, 2, Answering(Some(2)));
    var launched := Squashed(10) + [run];
    SquashedStreams(10, Pieces(11));
    StreamsNext(Pieces(11), Squashed(10), run);
    StreamsNext(Pieces(11), launched, task);
    StreamsNext(Pieces(11), launched + [task], signal);
    LaunchedState();
    SpeculationAnswered(launched, task, 2);
    var s := Run(w, launched + [task]).state;
    RunFromExtend(w, INITIAL, launched + [task], signal);
    StaleRootPublished(s);
    var o := Step(w, s, signal);
    assert o.log[0] in Run(w, launched + [task] + [signal]).log;
  }

  // ---------------------------------------------------------------- a final without a database

  /** A delta whose parent header has gone: the block is buffered and its database dropped. */
  function Headless(): Event {
    FlashblockReceived(Piece(5, 11), false, None, Answering(Some(7)).(headers := n => false))
  }

  lemma HeadlessPends(s: State)
    requires Inv(s) && Speculating(s, Some(7))
    ensures var t := Step(Transparent(), s, Headless()).state;
            && t.pending && t.db.None? && t.stored == Pieces(12) && t.current == Some(5) && t.latest == Some(11)
            && !t.finalSent && t.revision == 1 && t.speculation == s.speculation && t.canonical == s.canonical
  {
    var w, t := Transparent(), Appended(s, Piece(5, 11));
    assert Pieces(12) == Pieces(11) + [Piece(5, 11)];
    assert Accept(w, s, Piece(5, 11), Headless().env) == Accepted(t, []);
    assert Assemble(w.converts, t.stored).Some?;
  }

  lemma DatabaselessFinal(s: State)
    requires Inv(s) && s.db.None? && s.stored == Pieces(12) && s.current == Some(5) && s.latest == Some(11)
    requires !s.finalSent && s.revision == 1 && s.canonical.None?
    requires s.speculation == Some(Speculation(5, 10, 1, [PreExecution], Some(7)))
    ensures var log := Step(Transparent(), s, FlashblockReceived(NextBase(), false, None, Answering(Some(7)))).log;
            |log| == 1 && IsFinal(log[0]) && log[0].db.None?
  {
    var w, env := Transparent(), Answering(Some(7));
    assert s.stored[0] == Piece(5, 0);
    var a := Accept(w, s, NextBase(), env);
    assert a == Transition(w, s, NextBase(), env);
    assert a.log + [] == a.log;
  }

  /** With its database dropped, a block is finished at the next base from the root its background task left. */
  lemma FinalWithoutDatabase()
    ensures var m := Pieces(12) + [NextBase()];
            var evs := Squashed(10)
                       + [FlashblockReceived(Piece(5, 10), false, None, Answering(Some(7)))]
                       + [TaskFinished(n => Some(7))]
                       + [Headless()]
                       + [FlashblockReceived(NextBase(), false, None, Answering(Some(7)))];
            Ordinary(m, evs) && exists e <- Run(Transparent(), evs).log :: IsFinal(e) && e.db.None?
  {
    var w, m := Transparent(), Pieces(12) + [NextBase()];
    var run := FlashblockReceived(Piece(5, 10), false, None, Answering(Some(7)));
    var task := TaskFinished(n => Some(7));
    var base := FlashblockReceived(NextBase(), false, None, Answering(Some(7)));
    var launched := Squashed(10) + [run];
    SquashedStreams(10, m);
    OrdinaryNext(m, Squashed(10), run);
    OrdinaryNext(m, launched, task);
    OrdinaryNext(m, launched + [task], Headless());
    OrdinaryNext(m, launched + [task] + [Headless()], base);
    LaunchedState();
    SpeculationAnswered(launched, task, 7);
    RunFromExtend(w, INITIAL, launched + [task], Headless());
    HeadlessPends(Run(w, launched + [task]).state);
    RunFromExtend(w, INITIAL, launched + [task] + [Headless()], base);
    var s := Run(w, launched + [task] + [Headless()]).state;
    DatabaselessFinal(s);
    var o := Step(w, s, base);
    assert o.log[0] in Run(w, launched + [task] + [Headless()] + [base]).log;
  }

  lemma LaunchedState()
    ensures Speculating(Run(Transparent(), Squashed(10) + [FlashblockReceived(Piece(5, 10), false, None, Answering(Some(7)))]).state, None)
  {
    var run := FlashblockReceived(Piece(5, 10), false, None, Answering(Some(7)));
    BufferRun(Transparent(), 10);
    RunFromExtend(Transparent(), INITIAL, Squashed(10), run);
    SpeculationLaunched();
  }

  // ---------------------------------------------------------------- block zero is its own parent

  /** Block 0 buffered because its parent state, its own, is unknown. */
  function Genesis(): State {
    StartBlock(INITIAL, Piece(0, 0)).(pending := true)
  }

  lemma GenesisBuffered()
    ensures Step(Transparent(), INITIAL, FlashblockReceived(Piece(0, 0), false, Some(7), Answering(None))).state == Genesis()
  {
  }

  lemma GenesisReleased()
    ensures var released := OnCanonical(Transparent(), Genesis(), 0, 1, Answering(None)).state;
            && released.current == Some(0) && !released.pending
            && OnCanonical(Transparent(), released, 0, 1, Answering(None)).state.current == None
  {
  }

  /** The base of block 1, on a block 0 with hash 7. */
  function FirstBase(): Flashblock {
    Flashblock(1, 1, 0, UNLINKED, Some(Base(1, 7, 0, 0)), Diff(0, 0, 0, []))
  }

  /**
   * A pending block 0: the first canonical(0) releases its base, the repeated one discards it. The message is
   * numbered 0 but its base 5; a base numbered 0 is never assembled.
   */
  lemma GenesisRepeatDiscards()
    ensures var base := FlashblockReceived(Piece(0, 0), false, Some(7), Answering(None));
            var signal := CanonicalBlock(0, 1, Answering(None));
            && Ordinary([Piece(0, 0), FirstBase()], [base] + [signal] + [signal])
            && Run(Transparent(), [base] + [signal]).state.current == Some(0)
            && Run(Transparent(), [base] + [signal] + [signal]).state.current == None
  {
    var w := Transparent();
    var base := FlashblockReceived(Piece(0, 0), false, Some(7), Answering(None));
    var signal := CanonicalBlock(0, 1, Answering(None));
    assert [] + [base] == [base];
    OrdinaryNext([Piece(0, 0), FirstBase()], [], base);
    OrdinaryNext([Piece(0, 0), FirstBase()], [base], signal);
    OrdinaryNext([Piece(0, 0), FirstBase()], [base] + [signal], signal);
    RunFromExtend(w, INITIAL, [], base);
    GenesisBuffered();
    RunFromExtend(w, INITIAL, [base], signal);
    GenesisReleased();
    RunFromExtend(w, INITIAL, [base] + [signal], signal);
  }
}
