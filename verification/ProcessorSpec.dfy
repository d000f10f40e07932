/**
 * The flashblocks processor as a transition function.
 *
 * A state is the eleven fields of the processor plus `sequence`, a counter of started sequences that the
 * program does not keep; it only serves to say which emissions belong together. `Step` gives, for every
 * state and event, the next state and the FIRE BLOCK lines written meanwhile.
 */
module ProcessorSpec {
  import opened Wrappers
  import opened Flashblocks

  const STALE_THRESHOLD_SECS := 5
  const SPECULATIVE_STATE_ROOT_MIN_INDEX := 10

  /** Identity of a historical state snapshot handed out by the state provider. */
  type StateId = nat

  // ---------------------------------------------------------------- execution state

  datatype Op = PreExecution | Apply(tx: Transaction)

  /** An EVM database: a parent snapshot and the changes merged into its bundle, in order. */
  datatype Db = Db(parent: StateId, bundle: seq<Op>)

  function Applied(txs: seq<Transaction>): seq<Op> {
    seq(|txs|, i requires 0 <= i < |txs| => Apply(txs[i]))
  }

  /** Running `txs`, preceded by the block's pre-execution changes on its first run. */
  function Execute(db: Db, first: bool, txs: seq<Transaction>): Db {
    Db(db.parent, db.bundle + (if first then [PreExecution] else []) + Applied(txs))
  }

  /** The simple reference: pre-execution once, then every transaction of `fbs` once, on the parent state. */
  function Direct(parent: StateId, fbs: seq<Flashblock>): Db {
    Db(parent, [PreExecution] + Applied(Transactions(fbs)))
  }

  // ---------------------------------------------------------------- surroundings

  /** The foreign pure functions: trie root of a snapshot under a bundle, payload conversion, header hash. */
  datatype World = World(
    root: (StateId, seq<Op>) -> Hash,
    converts: Header -> bool,
    seal: Header -> Hash)

  /** What the node answers while one event is handled. */
  datatype Env = Env(
    now: nat,                           // wall clock, seconds
    provider: nat -> Option<StateId>,   // state by block number
    headers: nat -> bool,               // canonical header by block number available
    executes: bool,                     // decoding and EVM execution succeed
    rootComputes: bool,                 // the provider can compute a state root
    runtime: bool)                      // a runtime is available to spawn the background task

  // ---------------------------------------------------------------- emissions

  datatype Path =
    | Partial   // non-final partial
    | Peek      // final, stamped while executing the last flashblock
    | Guarded   // final, built from state on a next-base transition or a canonical signal

  /**
   * A FIRE BLOCK line: `index`, `header` and `hash` are on the wire (a final line prints its index plus
   * 1000); the other fields record what the processor held when it wrote the line.
   */
  datatype Emission = Emission(
    sequence: nat, path: Path, index: nat, header: Header, hash: Hash,
    flashblocks: seq<Flashblock>, executed: Option<nat>, db: Option<Db>)

  // ---------------------------------------------------------------- state

  /** A background root computation; once it has an `answer` its slot holds `root(answer, bundle)`. */
  datatype Speculation = Speculation(
    block: nat, index: nat, revision: nat, bundle: seq<Op>, answer: Option<StateId>)

  datatype State = State(
    current: Option<nat>,
    latest: Option<nat>,
    executed: Option<nat>,
    stored: seq<Flashblock>,
    db: Option<Db>,
    pending: bool,
    awaiting: bool,
    canonical: Option<(nat, Hash)>,
    finalSent: bool,
    revision: nat,
    speculation: Option<Speculation>,
    sequence: nat)

  const INITIAL := State(None, None, None, [], None, false, false, None, false, 0, None, 0)

  datatype Outcome = Outcome(state: State, log: seq<Emission>)

  function Reset(s: State): State {
    s.(current := None, latest := None, executed := None, stored := [], db := None, pending := false,
    awaiting := false, finalSent := false, revision := s.revision + 1, speculation := None)
  }

  function StartBlock(s: State, fb: Flashblock): State {
    s.(current := Some(fb.block), latest := Some(0), executed := None, stored := [fb], pending := false,
    awaiting := false, finalSent := false, sequence := s.sequence + 1)
  }

  // ---------------------------------------------------------------- state roots and finals

  function CachedRoot(w: World, s: State, block: nat, revision: nat): Option<Hash> {
    if s.speculation.Some? && s.speculation.value.block == block
       && s.speculation.value.revision == revision && s.speculation.value.answer.Some? then
      Some(w.root(s.speculation.value.answer.value, s.speculation.value.bundle))
    else
      None
  }

  function ComputeRoot(w: World, db: Option<Db>, computes: bool): Option<Hash> {
    if db.Some? && computes then Some(w.root(db.value.parent, db.value.bundle)) else None
  }

  function RootFor(w: World, s: State, block: nat, revision: nat, db: Option<Db>, computes: bool): Option<Hash> {
    var cached := CachedRoot(w, s, block, revision);
    if cached.Some? then cached else ComputeRoot(w, db, computes)
  }

  /** The final of the in-flight block when its recomputed hash is `expected`; `None` otherwise. */
  function BuildFinal(w: World, s: State, block: nat, latest: nat, expected: Hash, computes: bool): Option<Emission> {
    var assembled := Assemble(w.converts, s.stored);
    if assembled.None? then None else
    var root := RootFor(w, s, block, s.revision, s.db, computes);
    if root.None? then None else
    var header := assembled.value.(stateRoot := root.value);
    if w.seal(header) != expected then None else
    Some(Emission(s.sequence, Guarded, latest + 1, header, expected, s.stored, s.executed, s.db))
  }

  // ---------------------------------------------------------------- executing a flashblock

  datatype Execution = Failed | Executed(db: Db, changed: bool, emission: Emission)

  /** Runs `txs` and writes one line: a final one iff a final hash is expected and met. */
  function ExecuteFlashblock(w: World, s: State, header: Header, index: nat, txs: seq<Transaction>,
                             first: bool, expected: Option<Hash>, db: Db, env: Env): Execution
    requires s.stored != []
  {
    if !env.headers(Parent(header.base.number)) || !env.executes then Failed else
    var db' := Execute(db, first, txs);
    var changed := first || txs != [];
    if expected.None? then
      var hash := s.stored[|s.stored| - 1].diff.blockHash;
      Executed(db', changed,
               Emission(s.sequence, Partial, index, header, hash, s.stored, Some(index), Some(db')))
    else
      var projected := s.revision + (if changed then 1 else 0);
      var root := RootFor(w, s, header.base.number, projected, Some(db'), env.rootComputes);
      if root.None? then Failed else
      var sealed := header.(stateRoot := root.value);
      if w.seal(sealed) != expected.value then Failed else
      Executed(db', changed,
               Emission(s.sequence, Peek, index, sealed, expected.value, s.stored, Some(index), Some(db')))
  }

  /** Transactions of the stored flashblocks not yet executed. */
  function Deferred(stored: seq<Flashblock>, executed: Option<nat>): seq<Transaction> {
    if stored == [] then [] else
    var last := stored[|stored| - 1];
    Deferred(stored[..|stored| - 1], executed) +
    (if executed.None? || last.index > executed.value then last.diff.transactions else [])
  }

  // ---------------------------------------------------------------- flashblocks

  /** The timestamp a flashblock is aged by: its own base's, or for a delta the in-flight base's. */
  function BlockTimestamp(s: State, fb: Flashblock): Option<nat> {
    var base := if fb.index == 0 then fb.base else if s.stored == [] then None else s.stored[0].base;
    if base.Some? then Some(base.value.timestamp) else None
  }

  predicate Stale(s: State, fb: Flashblock, now: nat) {
    var ts := BlockTimestamp(s, fb);
    ts.Some? && now > ts.value + STALE_THRESHOLD_SECS
  }

  /** What sequence validation does with a flashblock, and the previous block's final it releases. */
  datatype Acceptance = Dropped(state: State) | Accepted(state: State, log: seq<Emission>)

  /** A base for the next block: finish the previous block, or discard it, and start the new one. */
  function Transition(w: World, s: State, fb: Flashblock, env: Env): Acceptance
    requires s.current.Some? && s.latest.Some?
  {
    var attempt := !s.finalSent && s.stored != [];
    var final := BuildFinal(w, s, s.current.value, s.latest.value, ParentHash(fb), env.rootComputes);
    var kept := if attempt && final.None? then Reset(s) else s;
    Accepted(StartBlock(kept, fb).(db := None, pending := kept.awaiting),
             if attempt && final.Some? then [final.value] else [])
  }

  function Accept(w: World, s: State, fb: Flashblock, env: Env): Acceptance
    requires s.current.Some? ==> s.latest.Some? && s.stored != []
  {
    if s.current.None? then
      if fb.index != 0 then Dropped(s) else Accepted(StartBlock(s, fb), [])
    else
      match Validate(s.current.value, s.latest.value, fb)
      case NextInSequence =>
        if fb.payloadId != s.stored[0].payloadId then Dropped(Reset(s))
        else Accepted(s.(stored := s.stored + [fb], latest := Some(fb.index)), [])
      case FirstOfNextBlock => Transition(w, s, fb, env)
      case Duplicate => Dropped(s)
      case InvalidNewBlockIndex =>
        if fb.index == 0 then Accepted(StartBlock(s.(db := None), fb), []) else Dropped(Reset(s))
      case NonSequentialGap => Dropped(Reset(s))
      case NonSequentialPredecessor => Dropped(Reset(s))
  }

  /** A speculation on the freshly executed state, replacing any earlier one. */
  function Launch(s: State, block: nat, index: nat, runtime: bool): State {
    if s.db.None? || !runtime then s else
    s.(speculation := Some(Speculation(block, index, s.revision, s.db.value.bundle, None)))
  }

  /** The state after a successful execution of the in-flight sequence up to `index`. */
  function Commit(s: State, x: Execution, block: nat, index: nat, runtime: bool): State
    requires x.Executed?
  {
    var final := x.emission.path == Peek;
    var s' := s.(db := Some(x.db), executed := Some(index),
    revision := s.revision + (if x.changed then 1 else 0), finalSent := s.finalSent || final);
    if !final && index >= SPECULATIVE_STATE_ROOT_MIN_INDEX then Launch(s', block, index, runtime) else s'
  }

  /** Executing an accepted flashblock together with everything deferred before it. */
  function Advance(w: World, s: State, fb: Flashblock, expected: Option<Hash>, env: Env): Outcome
    requires s.stored != []
  {
    var assembled := Assemble(w.converts, s.stored);
    if assembled.None? then Outcome(Reset(s), []) else
    var bootstrap := env.provider(Parent(fb.block));
    if s.db.None? && bootstrap.None? then Outcome(s.(pending := true), []) else
    if !env.headers(Parent(fb.block)) then Outcome(s.(pending := true, db := None), []) else
    var db := if s.db.Some? then s.db.value else Db(bootstrap.value, []);
    var x := ExecuteFlashblock(w, s, assembled.value, fb.index, Deferred(s.stored, s.executed),
                               s.executed.None?, expected, db, env);
    if x.Failed? then Outcome(Reset(s), [])
    else Outcome(Commit(s, x, fb.block, fb.index, env.runtime), [x.emission])
  }

  /** Buffer, squash, or execute an accepted flashblock. A base on its own is never executed. */
  function Continue(w: World, s: State, fb: Flashblock, squash: bool, expected: Option<Hash>, env: Env): Outcome
    requires s.stored != []
  {
    if s.pending || squash || (fb.index == 0 && expected.None?) then Outcome(s, [])
    else Advance(w, s, fb, expected, env)
  }

  function Admit(w: World, s: State, fb: Flashblock, squash: bool, expected: Option<Hash>, env: Env): Outcome
    requires s.current.Some? ==> s.latest.Some? && s.stored != []
  {
    match Accept(w, s, fb, env)
    case Dropped(s') => Outcome(s', [])
    case Accepted(s', final) =>
      var o := Continue(w, s', fb, squash, expected, env);
      Outcome(o.state, final + o.log)
  }

  function Process(w: World, s: State, fb: Flashblock, squash: bool, expected: Option<Hash>, env: Env): Outcome
    requires s.current.Some? ==> s.latest.Some? && s.stored != []
  {
    if Stale(s, fb, env.now) then Outcome(s, [])
    else if fb.index == 0 && !ParentMatchesCanonical(s.canonical, fb.block, ParentHash(fb)) then Outcome(Reset(s), [])
    else Admit(w, s, fb, squash, expected, env)
  }

  // ---------------------------------------------------------------- canonical signals

  function Note(s: State, number: nat, hash: Hash): State {
    if s.canonical.None? || number >= s.canonical.value.0 then s.(canonical := Some((number, hash))) else s
  }

  /** Confirming the in-flight block. */
  function Confirm(w: World, s: State, number: nat, hash: Hash, env: Env): Outcome {
    if s.finalSent then Outcome(s.(awaiting := false), []) else
    var latest := if s.latest.Some? then s.latest.value else 0;
    var final := BuildFinal(w, s, number, latest, hash, env.rootComputes);
    if final.Some? then Outcome(s.(finalSent := true, awaiting := false), [final.value])
    else Outcome(Reset(s), [])
  }

  /** Replaying the whole pending buffer in one execution. */
  function Replay(w: World, s: State, number: nat, env: Env): Outcome
    requires s.stored != []
  {
    var snapshot := env.provider(number);
    if snapshot.None? then Outcome(s, []) else
    var assembled := Assemble(w.converts, s.stored);
    if assembled.None? then Outcome(Reset(s), []) else
    var merged := s.stored[|s.stored| - 1].index;
    var x := ExecuteFlashblock(w, s, assembled.value, merged, Transactions(s.stored), true, None,
                               Db(snapshot.value, []), env);
    if x.Failed? then Outcome(Reset(s), []) else
    Outcome(s.(pending := false, db := Some(x.db), revision := s.revision + 1, speculation := None,
            executed := Some(merged), awaiting := true), [x.emission])
  }

  function OnCanonical(w: World, s0: State, number: nat, hash: Hash, env: Env): Outcome
    requires s0.pending ==> s0.current.Some? && s0.stored != []
  {
    var s := Note(s0, number, hash);
    if !s.pending then
      if s.current == Some(number) then Confirm(w, s, number, hash, env) else Outcome(s, [])
    else if Parent(s.current.value) != number then Outcome(s, [])
    else if ParentHash(s.stored[0]) != hash then Outcome(Reset(s), [])
    else if s.stored[|s.stored| - 1].index == 0 then Outcome(s.(pending := false), [])
    else Replay(w, s, number, env)
  }

  // ---------------------------------------------------------------- the background task

  /** The background task finishes after reading the parent state by number. */
  function FinishTask(s: State, provider: nat -> Option<StateId>): State {
    if s.speculation.Some? && s.speculation.value.answer.None? then
      s.(speculation := Some(s.speculation.value.(answer := provider(Parent(s.speculation.value.block)))))
    else s
  }

  // ---------------------------------------------------------------- runs

  datatype Event =
    | FlashblockReceived(fb: Flashblock, squash: bool, expected: Option<Hash>, env: Env)
    | CanonicalBlock(number: nat, hash: Hash, env: Env)
    | TaskFinished(provider: nat -> Option<StateId>)

  function Step(w: World, s: State, ev: Event): Outcome
    requires s.current.Some? ==> s.latest.Some? && s.stored != []
    requires s.pending ==> s.current.Some?
  {
    match ev
    case FlashblockReceived(fb, squash, expected, env) => Process(w, s, fb, squash, expected, env)
    case CanonicalBlock(number, hash, env) => OnCanonical(w, s, number, hash, env)
    case TaskFinished(provider) => Outcome(FinishTask(s, provider), [])
  }
}
