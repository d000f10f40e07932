/**
 * Head tracking of the in-process rollup node: safe, unsafe and finalized heads under derivation,
 * gossip, L1-finality signals and resets.
 *
 * `HeadTracker` is the object the node keeps; `Step` is its specification as a function on values, and the
 * theorems are about every run of it.
 */
module RollupNode {
  import opened Wrappers

  type Hash = nat

  datatype BlockId = BlockId(number: nat, hash: Hash)

  const DEFAULT_ID := BlockId(0, 0)

  datatype L2Head = L2Head(
    number: nat, hash: Hash, parentHash: Hash, timestamp: nat, origin: BlockId, seqNum: nat)

  /** Payload attributes from the derivation pipeline; `l1Info` is the epoch decoded from the first deposit. */
  datatype Attributes = Attributes(number: nat, timestamp: nat, l1Info: Option<BlockId>, derivedFrom: Option<BlockId>)

  /** A gossiped unsafe block. */
  datatype Envelope = Envelope(number: nat, hash: Hash, parentHash: Hash, timestamp: nat, l1Info: Option<BlockId>)

  // ---------------------------------------------------------------- specification

  type History = seq<(L2Head, nat)>

  datatype Heads = Heads(
    safe: L2Head, unsafeHead: L2Head, finalized: L2Head, finalizedL1: Option<nat>, history: History)

  function Start(head: L2Head): Heads {
    Heads(head, head, head, None, [])
  }

  /** The last history entry whose L1 origin is finalized. */
  function LastWithin(history: History, limit: nat): (r: Option<L2Head>)
    ensures r.None? ==> forall entry <- history :: entry.1 > limit
    ensures r.Some? ==> exists i :: 0 <= i < |history| && history[i].0 == r.value && history[i].1 <= limit
                                    && forall j :: i < j < |history| ==> history[j].1 > limit
  {
    if history == [] then None else
    var last := history[|history| - 1];
    if last.1 <= limit then Some(last.0) else LastWithin(history[..|history| - 1], limit)
  }

  function TryFinalize(h: Heads): Heads {
    if h.finalizedL1.None? then h else
    var candidate := LastWithin(h.history, h.finalizedL1.value);
    if candidate.Some? && candidate.value.number > h.finalized.number then h.(finalized := candidate.value) else h
  }

  function Signal(h: Heads, number: nat): Heads {
    if h.finalizedL1.Some? && number < h.finalizedL1.value then h
    else TryFinalize(h.(finalizedL1 := Some(number)))
  }

  function OriginOf(attrs: Attributes): BlockId {
    if attrs.l1Info.Some? then attrs.l1Info.value
    else if attrs.derivedFrom.Some? then attrs.derivedFrom.value
    else DEFAULT_ID
  }

  function Next(parent: L2Head, attrs: Attributes, hash: Hash): L2Head {
    var origin := OriginOf(attrs);
    L2Head(attrs.number, hash, parent.hash, attrs.timestamp, origin,
           if origin == parent.origin then parent.seqNum + 1 else 0)
  }

  function Derive(h: Heads, attrs: Attributes, hash: Hash): Heads {
    var safe := Next(h.safe, attrs, hash);
    var h' := TryFinalize(h.(safe := safe, history := h.history + [(safe, safe.origin.number)]));
    if safe.number >= h.unsafeHead.number then h'.(unsafeHead := safe) else h'
  }

  function Gossip(h: Heads, e: Envelope): Heads {
    if e.number != h.unsafeHead.number + 1 then h else
    var seqNum := if e.l1Info.Some? && e.l1Info.value == h.unsafeHead.origin then h.unsafeHead.seqNum + 1 else 0;
    var origin := if e.l1Info.Some? then e.l1Info.value else DEFAULT_ID;
    h.(unsafeHead := L2Head(e.number, e.hash, e.parentHash, e.timestamp, origin, seqNum))
  }

  function GossipAll(h: Heads, es: seq<Envelope>): Heads {
    if es == [] then h else Gossip(GossipAll(h, es[..|es| - 1]), es[|es| - 1])
  }

  function ResetTo(h: Heads, head: L2Head): Heads {
    Heads(head, head, head, h.finalizedL1, [])
  }

  // ---------------------------------------------------------------- the node

  /** The most recent safe head whose epoch the signal covers, found by scanning the history backwards. */
  method FindLast(history: seq<(L2Head, nat)>, number: nat) returns (r: Option<L2Head>)
    ensures r == LastWithin(history, number)
  {
    var i := |history|;
    assert history[..i] == history;
    while i > 0 && history[i - 1].1 > number
      invariant 0 <= i <= |history|
      invariant LastWithin(history, number) == LastWithin(history[..i], number)
    {
      assert history[..i][..i - 1] == history[..i - 1];
      i := i - 1;
    }
    r := if i == 0 then None else Some(history[i - 1].0);
  }

  class HeadTracker {
    var safe: L2Head
    var unsafeHead: L2Head
    var finalized: L2Head
    var finalizedL1: Option<nat>
    var history: seq<(L2Head, nat)>

    ghost function View(): Heads
      reads this
    {
      Heads(safe, unsafeHead, finalized, finalizedL1, history)
    }

    constructor (head: L2Head)
      ensures View() == Start(head)
    {
      safe, unsafeHead, finalized, finalizedL1, history := head, head, head, None, [];
    }

    /** Retries finalization with the retained signal, scanning the history backwards. */
    method TryFinalizePending()
      modifies this
      ensures View() == TryFinalize(old(View()))
    {
      if finalizedL1.None? {
        return;
      }
      var last := FindLast(history, finalizedL1.value);
      if last.Some? && last.value.number > finalized.number {
        finalized := last.value;
      }
    }

    method L1FinalizedSignal(number: nat)
      modifies this
      ensures View() == Signal(old(View()), number)
    {
      if finalizedL1.Some? && number < finalizedL1.value {
        return;
      }
      finalizedL1 := Some(number);
      TryFinalizePending();
    }

    method ExecuteAndAdvance(attrs: Attributes, hash: Hash)
      modifies this
      ensures View() == Derive(old(View()), attrs, hash)
    {
      var origin := OriginOf(attrs);
      var seqNum := if origin == safe.origin then safe.seqNum + 1 else 0;
      safe := L2Head(attrs.number, hash, safe.hash, attrs.timestamp, origin, seqNum);
      history := history + [(safe, origin.number)];
      TryFinalizePending();
      if safe.number >= unsafeHead.number {
        unsafeHead := safe;
      }
    }

    /** Drains the gossip transport; only the next sequential block moves the unsafe head. */
    method DrainGossip(envelopes: seq<Envelope>)
      modifies this
      ensures View() == GossipAll(old(View()), envelopes)
    {
      ghost var start := View();
      assert envelopes[..0] == [];
      for i := 0 to |envelopes|
        invariant View() == GossipAll(start, envelopes[..i])
      {
        var e := envelopes[i];
        assert envelopes[..i + 1][..i] == envelopes[..i];
        if e.number == unsafeHead.number + 1 {
          var seqNum := 0;
          if e.l1Info.Some? && e.l1Info.value == unsafeHead.origin {
            seqNum := unsafeHead.seqNum + 1;
          }
          unsafeHead := L2Head(e.number, e.hash, e.parentHash, e.timestamp,
                               if e.l1Info.Some? then e.l1Info.value else DEFAULT_ID, seqNum);
        }
      }
      assert envelopes[..|envelopes|] == envelopes;
    }

    method Reset(head: L2Head)
      modifies this
      ensures View() == ResetTo(old(View()), head)
    {
      safe, unsafeHead, finalized := head, head, head;
      history := [];
    }
  }

  // ---------------------------------------------------------------- runs

  datatype Action =
    | FinalizeL1(number: nat)
    | Derived(attrs: Attributes, hash: Hash)
    | Gossiped(envelopes: seq<Envelope>)
    | Reorged(head: L2Head)

  function Step(h: Heads, a: Action): Heads {
    match a
    case FinalizeL1(number) => Signal(h, number)
    case Derived(attrs, hash) => Derive(h, attrs, hash)
    case Gossiped(es) => GossipAll(h, es)
    case Reorged(head) => ResetTo(h, head)
  }

  function Run(start: L2Head, actions: seq<Action>): Heads {
    if actions == [] then Start(start) else
    Step(Run(start, actions[..|actions| - 1]), actions[|actions| - 1])
  }

  /** The pipeline's contract: attributes are always for the block after the safe head. */
  ghost predicate Sequential(start: L2Head, actions: seq<Action>) {
    actions != [] ==>
      var front, last := actions[..|actions| - 1], actions[|actions| - 1];
      && Sequential(start, front)
      && (last.Derived? ==> last.attrs.number == Run(start, front).safe.number + 1)
  }

  // ---------------------------------------------------------------- reference semantics of a run

  /** The head the run last started over from. */
  function Anchor(start: L2Head, actions: seq<Action>): L2Head {
    if actions == [] then start else
    match actions[|actions| - 1]
    case Reorged(head) => head
    case _ => Anchor(start, actions[..|actions| - 1])
  }

  /** The blocks derived since then, chained onto it. */
  function Chain(start: L2Head, actions: seq<Action>): History {
    if actions == [] then [] else
    var front := actions[..|actions| - 1];
    match actions[|actions| - 1]
    case Reorged(_) => []
    case Derived(attrs, hash) =>
      var safe := Next(Tip(Anchor(start, front), Chain(start, front)), attrs, hash);
      Chain(start, front) + [(safe, safe.origin.number)]
    case _ => Chain(start, front)
  }

  function Tip(anchor: L2Head, chain: History): L2Head {
    if chain == [] then anchor else chain[|chain| - 1].0
  }

  /** The highest L1 block ever signalled final. */
  function HighestSignal(actions: seq<Action>): Option<nat> {
    if actions == [] then None else
    var before := HighestSignal(actions[..|actions| - 1]);
    match actions[|actions| - 1]
    case FinalizeL1(number) => if before.Some? && before.value > number then before else Some(number)
    case _ => before
  }

  /** Declarative finality: the last derived block within the highest signal, else the anchor. */
  function FinalHead(anchor: L2Head, chain: History, signal: Option<nat>): L2Head {
    if signal.None? then anchor else
    var last := LastWithin(chain, signal.value);
    if last.None? then anchor else last.value
  }

  // ---------------------------------------------------------------- chain shape

  /** Numbered contiguously and hash-linked from the anchor, each entry paired with its origin number. */
  ghost predicate Linked(anchor: L2Head, chain: History) {
    forall i :: 0 <= i < |chain| ==>
                  && chain[i].0.number == anchor.number + i + 1
                  && chain[i].0.parentHash == Tip(anchor, chain[..i]).hash
                  && chain[i].1 == chain[i].0.origin.number
  }

  /** Each entry continues its parent's epoch or opens a new one at position 0. */
  ghost predicate Epochs(anchor: L2Head, chain: History) {
    forall i :: 0 <= i < |chain| ==>
                  var parent := Tip(anchor, chain[..i]);
                  chain[i].0.seqNum == if chain[i].0.origin == parent.origin then parent.seqNum + 1 else 0
  }

  lemma {:induction false} GossipAllFrame(h: Heads, es: seq<Envelope>)
    ensures var g := GossipAll(h, es);
            g == h.(unsafeHead := g.unsafeHead) && h.unsafeHead.number <= g.unsafeHead.number
  {
    if es != [] { GossipAllFrame(h, es[..|es| - 1]); }
  }

  /** Finality of a chain only moves up when the chain or the signal grows. */
  lemma FinalHeadGrows(anchor: L2Head, chain: History, chain': History, signal: Option<nat>, signal': Option<nat>)
    requires Linked(anchor, chain') && chain <= chain'
    requires signal.None? || (signal'.Some? && signal.value <= signal'.value)
    ensures FinalHead(anchor, chain, signal).number <= FinalHead(anchor, chain', signal').number
    ensures FinalHead(anchor, chain', signal').number <= Tip(anchor, chain').number
    ensures FinalHead(anchor, chain, signal).number == FinalHead(anchor, chain', signal').number
       ==> FinalHead(anchor, chain, signal) == FinalHead(anchor, chain', signal')
  {
    if signal.Some? {
      var old_, new_ := LastWithin(chain, signal.value), LastWithin(chain', signal'.value);
      if old_.Some? {
        var i :| 0 <= i < |chain| && chain[i].0 == old_.value && chain[i].1 <= signal.value;
        assert chain'[i] == chain[i] && chain'[i] in chain';
        var j :| 0 <= j < |chain'| && chain'[j].0 == new_.value && chain'[j].1 <= signal'.value
                 && forall k :: j < k < |chain'| ==> chain'[k].1 > signal'.value;
        assert i <= j;
      }
    }
  }

  // ---------------------------------------------------------------- theorems

  /** Incremental retry reaches the declarative head after the chain or the signal has grown. */
  lemma RetryReachesFinal(h: Heads, anchor: L2Head, chain: History, signal: Option<nat>)
    requires Linked(anchor, h.history) && chain <= h.history
    requires signal.None? || (h.finalizedL1.Some? && signal.value <= h.finalizedL1.value)
    requires h.finalized == FinalHead(anchor, chain, signal)
    ensures TryFinalize(h) == h.(finalized := FinalHead(anchor, h.history, h.finalizedL1))
  {
    FinalHeadGrows(anchor, chain, h.history, signal, h.finalizedL1);
  }

  lemma LinkNext(anchor: L2Head, chain: History, attrs: Attributes, hash: Hash)
    requires Linked(anchor, chain) && Epochs(anchor, chain) && attrs.number == Tip(anchor, chain).number + 1
    ensures var next := Next(Tip(anchor, chain), attrs, hash);
            var chain' := chain + [(next, next.origin.number)];
            Linked(anchor, chain') && Epochs(anchor, chain') && Tip(anchor, chain') == next && chain <= chain'
  {
    var next := Next(Tip(anchor, chain), attrs, hash);
    var chain' := chain + [(next, next.origin.number)];
    assert chain'[..|chain|] == chain;
    assert forall i :: 0 <= i < |chain| ==> chain'[..i] == chain[..i] && chain'[i] == chain[i];
  }

  /** The tracker's whole state, as a function of what the run contained. */
  ghost predicate Tracks(h: Heads, anchor: L2Head, chain: History, signal: Option<nat>) {
    && h.history == chain && h.finalizedL1 == signal && h.safe == Tip(anchor, chain)
    && Linked(anchor, chain) && Epochs(anchor, chain)
    && h.finalized == FinalHead(anchor, chain, signal)
    && h.finalized.number <= h.safe.number <= h.unsafeHead.number
  }

  lemma SignalTracks(h: Heads, n: nat, anchor: L2Head, chain: History, signal: Option<nat>)
    requires Tracks(h, anchor, chain, signal)
    ensures Tracks(Signal(h, n), anchor, chain, if signal.Some? && signal.value > n then signal else Some(n))
  {
    if signal.None? || signal.value <= n {
      RetryReachesFinal(h.(finalizedL1 := Some(n)), anchor, chain, signal);
      FinalHeadGrows(anchor, chain, chain, signal, Some(n));
    }
  }

  lemma DeriveTracks(h: Heads, attrs: Attributes, hash: Hash, anchor: L2Head, chain: History, signal: Option<nat>)
    requires Tracks(h, anchor, chain, signal) && attrs.number == h.safe.number + 1
    ensures var next := Next(h.safe, attrs, hash);
            Tracks(Derive(h, attrs, hash), anchor, chain + [(next, next.origin.number)], signal)
  {
    LinkNext(anchor, chain, attrs, hash);
    var next := Next(h.safe, attrs, hash);
    var chain' := chain + [(next, next.origin.number)];
    RetryReachesFinal(h.(safe := next, history := chain'), anchor, chain, signal);
    FinalHeadGrows(anchor, chain, chain', signal, signal);
  }

  /**
   * Incremental finalization equals its specification, and heads keep their order and chain shape, in
   * every state of every run.
   */
  lemma {:induction false} RunTracks(start: L2Head, actions: seq<Action>)
    requires Sequential(start, actions)
    ensures Tracks(Run(start, actions), Anchor(start, actions), Chain(start, actions), HighestSignal(actions))
  {
    if actions != [] {
      var front, last := actions[..|actions| - 1], actions[|actions| - 1];
      RunTracks(start, front);
      var h, anchor, chain, signal := Run(start, front), Anchor(start, front), Chain(start, front), HighestSignal(front);
      match last {
        case FinalizeL1(n) => SignalTracks(h, n, anchor, chain, signal);
        case Derived(attrs, hash) => DeriveTracks(h, attrs, hash, anchor, chain, signal);
        case Gossiped(es) => GossipAllFrame(h, es);
        case Reorged(_) =>
      }
    }
  }

  /** The derivations and resets of a run, without signals and gossip. */
  function Blocks(actions: seq<Action>): seq<Action> {
    if actions == [] then [] else
    var last := actions[|actions| - 1];
    Blocks(actions[..|actions| - 1]) + (if last.Derived? || last.Reorged? then [last] else [])
  }

  lemma {:induction false} ChainOfBlocks(start: L2Head, actions: seq<Action>)
    ensures Chain(start, actions) == Chain(start, Blocks(actions))
    ensures Anchor(start, actions) == Anchor(start, Blocks(actions))
  {
    if actions != [] {
      var front, last := actions[..|actions| - 1], actions[|actions| - 1];
      ChainOfBlocks(start, front);
      if last.Derived? || last.Reorged? {
        assert Blocks(actions)[..|Blocks(actions)| - 1] == Blocks(front);
      } else {
        assert Blocks(actions) == Blocks(front);
      }
    }
  }

  /**
   * Interleaving does not matter: two runs with the same derivations and resets in order, and the same
   * highest signal, agree on safe and finalized heads, wherever signals and gossip fell.
   */
  lemma InterleavingIrrelevant(start: L2Head, a: seq<Action>, b: seq<Action>)
    requires Sequential(start, a) && Sequential(start, b)
    requires Blocks(a) == Blocks(b) && HighestSignal(a) == HighestSignal(b)
    ensures Run(start, a).finalized == Run(start, b).finalized && Run(start, a).safe == Run(start, b).safe
  {
    RunTracks(start, a);
    RunTracks(start, b);
    ChainOfBlocks(start, a);
    ChainOfBlocks(start, b);
  }

  /** Between resets the finalized head never regresses. */
  lemma {:induction false} FinalizedMonotone(start: L2Head, actions: seq<Action>, i: nat)
    requires Sequential(start, actions) && i <= |actions|
    requires forall j :: i <= j < |actions| ==> !actions[j].Reorged?
    ensures Run(start, actions[..i]).finalized.number <= Run(start, actions).finalized.number
  {
    if i == |actions| {
      assert actions[..i] == actions;
    } else {
      var front := actions[..|actions| - 1];
      assert front[..i] == actions[..i];
      FinalizedMonotone(start, front, i);
      if actions[|actions| - 1].Gossiped? {
        GossipAllFrame(Run(start, front), actions[|actions| - 1].envelopes);
      }
    }
  }

  /**
   * `seqNum` counts position within the L1 epoch: when entries `from..=i` share one origin, the last stands
   * `i - from` places after the first, which opens the epoch at 0 or continues its parent's.
   */
  lemma {:induction false} EpochPosition(anchor: L2Head, chain: History, from: nat, i: nat)
    requires Epochs(anchor, chain) && from <= i < |chain|
    requires forall j :: from <= j <= i ==> chain[j].0.origin == chain[i].0.origin
    ensures var parent := Tip(anchor, chain[..from]);
            chain[i].0.seqNum == i - from + (if parent.origin == chain[i].0.origin then parent.seqNum + 1 else 0)
  {
    if from < i {
      assert Tip(anchor, chain[..i]) == chain[i - 1].0;
      EpochPosition(anchor, chain, from, i - 1);
    }
  }

  // ---------------------------------------------------------------- what the history records

  /** The derivations since the run last started over. */
  function DerivedSince(actions: seq<Action>): (r: seq<Action>)
    ensures forall a <- r :: a.Derived?
  {
    if actions == [] then [] else
    match actions[|actions| - 1]
    case Reorged(_) => []
    case Derived(_, _) => DerivedSince(actions[..|actions| - 1]) + [actions[|actions| - 1]]
    case _ => DerivedSince(actions[..|actions| - 1])
  }

  /** A head with the engine's hash and the attributes' number, time and L1 origin: deposit first, then pipeline. */
  ghost predicate Records(head: L2Head, attrs: Attributes, hash: Hash) {
    && head.hash == hash && head.number == attrs.number && head.timestamp == attrs.timestamp
    && (attrs.l1Info.Some? ==> head.origin == attrs.l1Info.value)
    && (attrs.l1Info.None? && attrs.derivedFrom.Some? ==> head.origin == attrs.derivedFrom.value)
    && (attrs.l1Info.None? && attrs.derivedFrom.None? ==> head.origin == BlockId(0, 0))
  }

  ghost predicate RecordsAll(history: History, derived: seq<Action>) {
    && |history| == |derived|
    && forall i :: 0 <= i < |history| ==> derived[i].Derived? && Records(history[i].0, derived[i].attrs, derived[i].hash)
  }

  /** Entry `i` of the history is the i-th block derived since the last reset, exactly as it was derived. */
  lemma {:induction false} HistoryRecords(start: L2Head, actions: seq<Action>)
    ensures RecordsAll(Run(start, actions).history, DerivedSince(actions))
  {
    if actions != [] {
      var front, last := actions[..|actions| - 1], actions[|actions| - 1];
      HistoryRecords(start, front);
      match last {
        case Derived(attrs, hash) => DeriveRecords(Run(start, front), attrs, hash);
        case Gossiped(es) => GossipAllFrame(Run(start, front), es);
        case _ =>
      }
    }
  }

  lemma DeriveRecords(h: Heads, attrs: Attributes, hash: Hash)
    ensures var t := Derive(h, attrs, hash);
            && Records(t.safe, attrs, hash) && t.safe.parentHash == h.safe.hash
            && t.history == h.history + [(t.safe, t.safe.origin.number)]
  {
  }

  // ---------------------------------------------------------------- the unsafe head

  /** Derivation overtakes or meets the unsafe head, or leaves it alone. */
  lemma DeriveUnsafe(h: Heads, attrs: Attributes, hash: Hash)
    ensures var t := Derive(h, attrs, hash);
            && (h.unsafeHead.number <= t.safe.number ==> t.unsafeHead == t.safe)
            && (h.unsafeHead.number > t.safe.number ==> t.unsafeHead == h.unsafeHead)
  {
  }

  /** A reset puts all three heads on the given one and keeps only the L1 signal. */
  lemma ResetHeads(start: L2Head, actions: seq<Action>, head: L2Head)
    ensures var h := Run(start, actions + [Reorged(head)]);
            && h.safe == h.unsafeHead == h.finalized == head && h.history == []
            && h.finalizedL1 == Run(start, actions).finalizedL1
  {
    assert (actions + [Reorged(head)])[..|actions|] == actions;
  }

  /** At one height there is one head: an unsafe head level with the safe head is the safe head. */
  lemma {:induction false} UnsafeMeetsSafe(start: L2Head, actions: seq<Action>)
    requires Sequential(start, actions)
    ensures var h := Run(start, actions); h.unsafeHead.number == h.safe.number ==> h.unsafeHead == h.safe
  {
    if actions != [] {
      var front, last := actions[..|actions| - 1], actions[|actions| - 1];
      UnsafeMeetsSafe(start, front);
      RunTracks(start, front);
      var h := Run(start, front);
      match last {
        case Derived(attrs, hash) => DeriveUnsafe(h, attrs, hash);
        case Gossiped(es) =>
          GossipAllFrame(h, es);
          GossipMoves(h, es);
        case _ =>
      }
    }
  }

  lemma {:induction false} GossipMoves(h: Heads, es: seq<Envelope>)
    ensures var g := GossipAll(h, es); g.unsafeHead == h.unsafeHead || g.unsafeHead.number > h.unsafeHead.number
  {
    if es != [] { GossipMoves(h, es[..|es| - 1]); }
  }

  /** Between resets the unsafe head never falls back. */
  lemma {:induction false} UnsafeMonotone(start: L2Head, actions: seq<Action>, i: nat)
    requires i <= |actions| && forall j :: i <= j < |actions| ==> !actions[j].Reorged?
    ensures Run(start, actions[..i]).unsafeHead.number <= Run(start, actions).unsafeHead.number
  {
    if i == |actions| {
      assert actions[..i] == actions;
    } else {
      var front, last := actions[..|actions| - 1], actions[|actions| - 1];
      assert front[..i] == actions[..i];
      UnsafeMonotone(start, front, i);
      match last {
        case Derived(attrs, hash) => DeriveUnsafe(Run(start, front), attrs, hash);
        case Gossiped(es) => GossipAllFrame(Run(start, front), es);
        case _ =>
      }
    }
  }

  // ---------------------------------------------------------------- gossip

  /** Positions, in order, of blocks numbered one after the other from `number` on. */
  ghost predicate Continues(number: nat, es: seq<Envelope>, picks: seq<nat>) {
    && (forall i :: 0 <= i < |picks| ==> picks[i] < |es| && es[picks[i]].number == number + i + 1)
    && forall i, j :: 0 <= i < j < |picks| ==> picks[i] < picks[j]
  }

  ghost predicate NoneBetween(es: seq<Envelope>, from: nat, to: nat, number: nat) {
    forall k :: from <= k < to && k < |es| ==> es[k].number != number
  }

  /** Each block picked is the first of its number after the one before, and none is left to pick. */
  ghost predicate Soonest(number: nat, es: seq<Envelope>, picks: seq<nat>) {
    forall i :: 0 <= i <= |picks| ==> SoonestAt(number, es, picks, i)
  }

  ghost predicate SoonestAt(number: nat, es: seq<Envelope>, picks: seq<nat>, i: nat)
    requires i <= |picks|
  {
    NoneBetween(es, if i == 0 then 0 else picks[i - 1] + 1, if i == |picks| then |es| else picks[i], number + i + 1)
  }

  lemma SoonestSkip(number: nat, front: seq<Envelope>, last: Envelope, picks: seq<nat>)
    requires Continues(number, front, picks) && Soonest(number, front, picks) && last.number != number + |picks| + 1
    ensures Soonest(number, front + [last], picks)
  {
    forall i | 0 <= i <= |picks| ensures SoonestAt(number, front + [last], picks, i) {
      assert SoonestAt(number, front, picks, i);
    }
  }

  lemma SoonestTake(number: nat, front: seq<Envelope>, last: Envelope, picks: seq<nat>)
    requires Continues(number, front, picks) && Soonest(number, front, picks)
    ensures Soonest(number, front + [last], picks + [|front|])
  {
    forall i | 0 <= i <= |picks| + 1 ensures SoonestAt(number, front + [last], picks + [|front|], i) {
      if i <= |picks| { assert SoonestAt(number, front, picks, i); }
    }
  }

  /** The head after taking the picked blocks: the last of them, counted on within its epoch. */
  ghost function Climb(head: L2Head, es: seq<Envelope>, picks: seq<nat>): L2Head
    requires forall i :: 0 <= i < |picks| ==> picks[i] < |es|
  {
    if picks == [] then head else
    var below := Climb(head, es, picks[..|picks| - 1]);
    var e := es[picks[|picks| - 1]];
    match e.l1Info
    case None => L2Head(e.number, e.hash, e.parentHash, e.timestamp, BlockId(0, 0), 0)
    case Some(origin) =>
      L2Head(e.number, e.hash, e.parentHash, e.timestamp, origin, if origin == below.origin then below.seqNum + 1 else 0)
  }

  lemma {:induction false} ClimbPrefix(head: L2Head, front: seq<Envelope>, last: Envelope, picks: seq<nat>)
    requires forall i :: 0 <= i < |picks| ==> picks[i] < |front|
    ensures Climb(head, front + [last], picks) == Climb(head, front, picks)
  {
    if picks != [] { ClimbPrefix(head, front, last, picks[..|picks| - 1]); }
  }

  /** A drain takes, block by block as they come, a gap-free continuation of the unsafe head, and ends on its last. */
  lemma {:induction false} DrainTakes(h: Heads, es: seq<Envelope>) returns (picks: seq<nat>)
    ensures Continues(h.unsafeHead.number, es, picks) && Soonest(h.unsafeHead.number, es, picks)
    ensures var g := GossipAll(h, es);
            g.unsafeHead.number == h.unsafeHead.number + |picks| && g.unsafeHead == Climb(h.unsafeHead, es, picks)
  {
    if es == [] {
      picks := [];
    } else {
      var front, last := es[..|es| - 1], es[|es| - 1];
      picks := DrainTakes(h, front);
      assert es == front + [last];
      ClimbPrefix(h.unsafeHead, front, last, picks);
      var head := GossipAll(h, front).unsafeHead;
      if last.number == head.number + 1 {
        SoonestTake(h.unsafeHead.number, front, last, picks);
        var more := picks + [|front|];
        assert more[..|picks|] == picks;
        picks := more;
      } else {
        SoonestSkip(h.unsafeHead.number, front, last, picks);
      }
    }
  }

  /** No gap-free continuation is longer. */
  lemma {:induction false} DrainTakesMost(h: Heads, es: seq<Envelope>, picks: seq<nat>)
    requires Continues(h.unsafeHead.number, es, picks)
    ensures h.unsafeHead.number + |picks| <= GossipAll(h, es).unsafeHead.number
  {
    if es == [] {
      assert picks == [];
    } else {
      var front := es[..|es| - 1];
      if picks != [] && picks[|picks| - 1] == |front| {
        var fewer := picks[..|picks| - 1];
        forall i | 0 <= i < |fewer| ensures fewer[i] < |front| && front[fewer[i]].number == h.unsafeHead.number + i + 1 {
          assert fewer[i] == picks[i] < picks[|picks| - 1];
        }
        DrainTakesMost(h, front, fewer);
      } else {
        forall i | 0 <= i < |picks| ensures picks[i] < |front| && front[picks[i]].number == h.unsafeHead.number + i + 1 {
          assert picks[i] <= picks[|picks| - 1];
        }
        DrainTakesMost(h, front, picks);
      }
    }
  }
}
