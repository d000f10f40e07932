/**
 * Sequences and block numbers: the wire shows the number of a block, not which attempt at it a line belongs to.
 */
module ProcessorBlocks {
  import opened Wrappers
  import opened Flashblocks
  import opened ProcessorSpec
  import opened ProcessorInvariants
  import opened ProcessorRuns
  import opened ProcessorPending
  import opened ProcessorFinals
  import opened ProcessorStream

  // ---------------------------------------------------------------- one step

  /** A base for a block that is not in flight: whatever was in flight had been discarded, or is left. */
  ghost predicate Opens(s: State, ev: Event) {
    ev.FlashblockReceived? && ev.fb.index == 0 && s.current != Some(ev.fb.block)
  }

  lemma AcceptOpens(w: World, s: State, ev: Event)
    requires Inv(s) && ev.FlashblockReceived?
    ensures var t := Accept(w, s, ev.fb, ev.env).state;
            t.sequence == s.sequence || (t.sequence == s.sequence + 1 && Opens(s, ev) && t.stored == [ev.fb])
  {
    AcceptStarts(w, s, ev.fb, ev.env);
    if s.current.Some? {
      match Validate(s.current.value, s.latest.value, ev.fb)
      case FirstOfNextBlock => TransitionStarts(w, s, ev.fb, ev.env);
      case _ =>
    }
  }

  /** At most one sequence is opened, and lines of a new sequence hold just its base. */
  ghost predicate OpensAtMostOne(s: State, ev: Event, o: Outcome) {
    && (o.state.sequence == s.sequence
        || (o.state.sequence == s.sequence + 1 && Opens(s, ev) && (o.state.stored == [ev.fb] || o.state.stored == [])))
    && forall e <- o.log :: e.sequence > s.sequence ==> e.sequence == o.state.sequence && e.flashblocks == [ev.fb]
  }

  lemma ProcessOpens(w: World, s: State, ev: Event)
    requires Inv(s) && ev.FlashblockReceived?
    ensures OpensAtMostOne(s, ev, Process(w, s, ev.fb, ev.squash, ev.expected, ev.env))
  {
    AcceptInv(w, s, ev.fb, ev.env);
    AcceptOpens(w, s, ev);
    AcceptOrigin(w, s, ev.fb, ev.env);
    var a := Accept(w, s, ev.fb, ev.env);
    if a.Accepted? && !a.state.pending {
      AdvanceCarries(w, a.state, ev.fb, ev.expected, ev.env);
      AdvanceKeepsSequence(w, a.state, ev.fb, ev.expected, ev.env);
    }
  }

  lemma StepOpens(w: World, s: State, ev: Event)
    requires Inv(s)
    ensures OpensAtMostOne(s, ev, Step(w, s, ev))
  {
    match ev
    case FlashblockReceived(_, _, _, _) => ProcessOpens(w, s, ev);
    case CanonicalBlock(number, hash, env) =>
      SignalSameBlock(w, s, number, hash, env);
      CanonicalCarries(w, s, ev);
    case TaskFinished(_) =>
  }

  // ---------------------------------------------------------------- the event that opened a sequence

  ghost predicate Opened(w: World, evs: seq<Event>, sequence: nat, n: nat) {
    && n < |evs| && Opens(Run(w, evs[..n]).state, evs[n])
    && Run(w, evs[..n]).state.sequence + 1 == sequence == Run(w, evs[..n + 1]).state.sequence
  }

  lemma OpenedLater(w: World, evs: seq<Event>, k: nat, sequence: nat, n: nat)
    requires k <= |evs| && Opened(w, evs[..k], sequence, n)
    ensures Opened(w, evs, sequence, n)
  {
    assert evs[..k][..n] == evs[..n] && evs[..k][..n + 1] == evs[..n + 1];
  }

  /** The sequence in flight was opened by the delivery of its stored base. */
  lemma {:induction false} StateOpened(w: World, evs: seq<Event>) returns (n: nat)
    requires Run(w, evs).state.current.Some?
    ensures Opened(w, evs, Run(w, evs).state.sequence, n)
    ensures Run(w, evs).state.stored != [] && Run(w, evs).state.stored[0] == evs[n].fb
  {
    var k := |evs| - 1;
    var s := Run(w, evs[..k]).state;
    StepOpens(w, s, evs[k]);
    StepCarries(w, s, evs[k]);
    if Run(w, evs).state.sequence == s.sequence {
      n := StateOpened(w, evs[..k]);
      OpenedLater(w, evs, k, s.sequence, n);
    } else {
      n := k;
      assert evs[..k + 1] == evs;
    }
  }

  lemma LineNext(w: World, evs: seq<Event>, k: nat, e: Emission) returns (n: nat)
    requires k < |evs| && e in Step(w, Run(w, evs[..k]).state, evs[k]).log
    ensures Opened(w, evs, e.sequence, n)
    ensures e.flashblocks != [] && e.flashblocks[0] == evs[n].fb
  {
    var s := Run(w, evs[..k]).state;
    StepOpens(w, s, evs[k]);
    StepCarries(w, s, evs[k]);
    if e.sequence == s.sequence {
      n := StateOpened(w, evs[..k]);
      OpenedLater(w, evs, k, s.sequence, n);
    } else {
      n := k;
      RunAt(w, evs, k);
    }
  }

  /** Every line starts with the base whose delivery opened its sequence. */
  lemma LineOpened(w: World, evs: seq<Event>, i: nat) returns (n: nat)
    requires i < |Run(w, evs).log|
    ensures Opened(w, evs, Run(w, evs).log[i].sequence, n)
    ensures Run(w, evs).log[i].flashblocks != [] && Run(w, evs).log[i].flashblocks[0] == evs[n].fb
  {
    var k := WriterOf(w, evs, i);
    WriterStep(w, evs, i, k);
    n := LineNext(w, evs, k, Run(w, evs).log[i]);
  }

  lemma {:induction false} SequenceMonotone(w: World, evs: seq<Event>, n: nat)
    requires n <= |evs|
    ensures Run(w, evs[..n]).state.sequence <= Run(w, evs).state.sequence
  {
    if n == |evs| {
      assert evs[..n] == evs;
    } else {
      var front := evs[..|evs| - 1];
      assert front[..n] == evs[..n];
      SequenceMonotone(w, front, n);
      StepOpens(w, Run(w, front).state, evs[|evs| - 1]);
    }
  }

  lemma SequenceOrder(w: World, evs: seq<Event>, a: nat, b: nat)
    requires a <= b <= |evs|
    ensures Run(w, evs[..a]).state.sequence <= Run(w, evs[..b]).state.sequence
  {
    assert evs[..b][..a] == evs[..a];
    SequenceMonotone(w, evs[..b], a);
  }

  lemma OpenedOnce(w: World, evs: seq<Event>, sequence: nat, a: nat, b: nat)
    requires Opened(w, evs, sequence, a) && Opened(w, evs, sequence, b)
    ensures a == b
  {
    if a < b { SequenceOrder(w, evs, a + 1, b); }
    if b < a { SequenceOrder(w, evs, b + 1, a); }
  }

  // ---------------------------------------------------------------- lines with one block number

  ghost function BlockOf(e: Emission): nat
    requires e.flashblocks != []
  {
    e.flashblocks[0].block
  }

  /** After line `i`, event `n` delivers a base of the same block again, opening the sequence of line `j`. */
  ghost predicate Reopened(w: World, evs: seq<Event>, i: nat, j: nat, n: nat)
    requires i < |Run(w, evs).log| && j < |Run(w, evs).log| && Run(w, evs).log[i].flashblocks != []
  {
    && Opened(w, evs, Run(w, evs).log[j].sequence, n) && i < |Run(w, evs[..n]).log|
    && evs[n].fb.block == BlockOf(Run(w, evs).log[i])
  }

  /** A line of an earlier sequence with the number of a later one precedes the event that opened the later. */
  lemma WrittenBefore(w: World, evs: seq<Event>, i: nat, sequence: nat, n: nat)
    requires i < |Run(w, evs).log| && Opened(w, evs, sequence, n) && Run(w, evs).log[i].sequence < sequence
    requires Run(w, evs).log[i].flashblocks != [] && evs[n].fb.block == BlockOf(Run(w, evs).log[i])
    ensures i < |Run(w, evs[..n]).log|
  {
    var k := WriterOf(w, evs, i);
    WriterPrecedes(w, evs, i, k, sequence, n);
    assert evs[..n][..k + 1] == evs[..k + 1];
    LogGrows(w, evs[..n], k + 1);
  }

  lemma WriterPrecedes(w: World, evs: seq<Event>, i: nat, k: nat, sequence: nat, n: nat)
    requires i < |Run(w, evs).log| && Opened(w, evs, sequence, n) && Run(w, evs).log[i].sequence < sequence
    requires Run(w, evs).log[i].flashblocks != [] && evs[n].fb.block == BlockOf(Run(w, evs).log[i])
    requires WrittenBy(w, evs, i, k)
    ensures k < n
  {
    WriterState(w, evs, i, k);
    if n < k { SequenceOrder(w, evs, n + 1, k); }
  }

  /** The state in which a line was written. */
  lemma WriterState(w: World, evs: seq<Event>, i: nat, k: nat)
    requires i < |Run(w, evs).log| && WrittenBy(w, evs, i, k)
    ensures var s, e := Run(w, evs[..k]).state, Run(w, evs).log[i];
            && s.sequence <= e.sequence
            && (e.sequence == s.sequence ==> e.flashblocks != [] && s.current == Some(BlockOf(e)))
  {
    WriterStep(w, evs, i, k);
    StepCarries(w, Run(w, evs[..k]).state, evs[k]);
  }

  /**
   * Two lines of a run, finals in particular, show the same block number exactly when they belong to one sequence
   * or the block's base was accepted again in between, its sequence having been discarded or left.
   */
  lemma SharedBlockIff(w: World, evs: seq<Event>, i: nat, j: nat)
    requires i < j < |Run(w, evs).log|
    ensures Run(w, evs).log[i].flashblocks != [] && Run(w, evs).log[j].flashblocks != []
    ensures var a, b := Run(w, evs).log[i], Run(w, evs).log[j];
            BlockOf(a) == BlockOf(b) <==> a.sequence == b.sequence || exists n :: Reopened(w, evs, i, j, n)
  {
    var a, b := Run(w, evs).log[i], Run(w, evs).log[j];
    var p := LineOpened(w, evs, i);
    var q := LineOpened(w, evs, j);
    WireOrder(w, evs, i, j);
    if a.sequence == b.sequence {
      OpenedOnce(w, evs, a.sequence, p, q);
    } else if BlockOf(a) == BlockOf(b) {
      WrittenBefore(w, evs, i, b.sequence, q);
      assert Reopened(w, evs, i, j, q);
    } else {
      forall n | Reopened(w, evs, i, j, n) ensures n == q {
        OpenedOnce(w, evs, b.sequence, n, q);
      }
    }
  }
}
