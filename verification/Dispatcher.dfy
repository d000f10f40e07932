/**
 * The command queue in front of the processor: three producers append, one consumer applies each command
 * to completion before taking the next.
 */
module Dispatcher {
  import opened Wrappers
  import opened Flashblocks
  import opened ProcessorSpec
  import opened ProcessorInvariants
  import opened ProcessorWire
  import opened ProcessorRuns
  import opened ProcessorStream
  import opened Processor

  datatype Command =
    | FlashblockCommand(fb: Flashblock, squash: bool, expected: Option<Hash>)
    | CanonicalCommand(number: nat, hash: Hash)

  /** The event a command becomes once the consumer applies it under the node's answers of that moment. */
  function Applying(c: Command, env: Env): Event {
    match c
    case FlashblockCommand(fb, squash, expected) => FlashblockReceived(fb, squash, expected, env)
    case CanonicalCommand(number, hash) => CanonicalBlock(number, hash, env)
  }

  // ---------------------------------------------------------------- the queue

  function ApplyAll(queue: seq<Command>, envs: seq<Env>): seq<Event>
    requires |queue| == |envs|
  {
    seq(|queue|, i requires 0 <= i < |queue| => Applying(queue[i], envs[i]))
  }

  lemma ApplyAllNext(queue: seq<Command>, envs: seq<Env>, i: nat)
    requires i < |queue| == |envs|
    ensures ApplyAll(queue, envs)[..i + 1] == ApplyAll(queue, envs)[..i] + [Applying(queue[i], envs[i])]
  {
  }

  lemma Regroup(a: seq<Emission>, b: seq<Emission>, c: seq<Emission>)
    ensures a + (b + c) == a + b + c
  {
  }

  lemma WireExtends(w: World, start: State, wire: seq<Emission>, evs: seq<Event>, ev: Event)
    requires Inv(start)
    ensures Inv(RunFrom(w, start, evs).state)
    ensures var before, after := RunFrom(w, start, evs), RunFrom(w, start, evs + [ev]);
            var step := Step(w, before.state, ev);
            after.state == step.state && wire + after.log == wire + before.log + step.log
  {
    RunFromExtend(w, start, evs, ev);
    var before := RunFrom(w, start, evs);
    Regroup(wire, before.log, Step(w, before.state, ev).log);
  }

  function Enqueued(fb: Flashblock, peek: Option<Flashblock>): Command {
    var v := Classify(fb, peek);
    FlashblockCommand(fb, v.squash, v.finalHash)
  }

  /** What the subscription enqueues for a stream of messages. */
  function Ingress(m: seq<Flashblock>, buffered: seq<bool>): seq<Command>
    requires |buffered| == |m|
  {
    seq(|m|, i requires 0 <= i < |m| => Enqueued(m[i], if buffered[i] && i + 1 < |m| then Some(m[i + 1]) else None))
  }

  class CommandQueue {
    const processor: FlashblocksProcessor
    var queue: seq<Command>

    constructor (processor: FlashblocksProcessor)
      ensures this.processor == processor && queue == []
    {
      this.processor := processor;
      queue := [];
    }

    /** Websocket ingress: classified against the peeked next message while that is still known. */
    method FlashblockReceivedWithPeek(fb: Flashblock, peek: Option<Flashblock>)
      modifies this
      ensures queue == old(queue) + [Enqueued(fb, peek)]
    {
      var v := Classify(fb, peek);
      queue := queue + [FlashblockCommand(fb, v.squash, v.finalHash)];
    }

    /**
     * The subscription's delivery loop with its one-message peek slot; `buffered[i]` says whether the message
     * after the i-th was already in the mailbox. Every message is delivered once, in order.
     */
    method Deliver(mailbox: seq<Flashblock>, buffered: seq<bool>)
      requires |buffered| == |mailbox|
      modifies this
      ensures queue == old(queue) + Ingress(mailbox, buffered)
    {
      var slot: Option<Flashblock> := None;
      var taken := 0;
      ghost var done := 0;
      while slot.Some? || taken < |mailbox|
        invariant taken == (if slot.Some? then done + 1 else done) <= |mailbox|
        invariant slot.Some? ==> slot.value == mailbox[done]
        invariant queue == old(queue) + Ingress(mailbox, buffered)[..done]
        decreases |mailbox| - done
      {
        var current;
        if slot.Some? {
          current := slot.value;
        } else {
          current := mailbox[taken];
          taken := taken + 1;
        }
        var peek: Option<Flashblock> := None;
        if taken < |mailbox| && buffered[taken - 1] {
          peek := Some(mailbox[taken]);
          taken := taken + 1;
        }
        FlashblockReceivedWithPeek(current, peek);
        slot := peek;
        done := done + 1;
      }
    }

    method SendCanonical(number: nat, hash: Hash)
      modifies this
      ensures queue == old(queue) + [CanonicalCommand(number, hash)]
    {
      queue := queue + [CanonicalCommand(number, hash)];
    }

    method Apply(command: Command, env: Env)
      requires processor.Valid()
      modifies processor
      ensures processor.Valid()
      ensures var o := Step(processor.world, old(processor.View()), Applying(command, env));
              processor.View() == o.state && processor.wire == old(processor.wire) + o.log
    {
      match command {
        case FlashblockCommand(fb, squash, expected) => processor.Process(fb, squash, expected, env);
        case CanonicalCommand(number, hash) => processor.OnCanonicalBlock(number, hash, env);
      }
    }

    /** The processor and the wire are where running `evs` from `start` leads. */
    ghost predicate At(start: State, wire: seq<Emission>, evs: seq<Event>)
      requires Inv(start)
      reads processor
    {
      var o := RunFrom(processor.world, start, evs);
      processor.View() == o.state && processor.wire == wire + o.log
    }

    method ApplyNext(ghost start: State, ghost wire: seq<Emission>, ghost evs: seq<Event>, command: Command, env: Env)
      requires Inv(start) && processor.Valid() && At(start, wire, evs)
      modifies processor
      ensures processor.Valid() && At(start, wire, evs + [Applying(command, env)])
    {
      WireExtends(processor.world, start, wire, evs, Applying(command, env));
      Apply(command, env);
    }

    /** Drains the queue in arrival order; the processor ends as a sequential run over it would leave it. */
    method Drain(envs: seq<Env>)
      requires processor.Valid() && |envs| == |queue|
      modifies this, processor
      ensures queue == [] && processor.Valid()
      ensures At(old(processor.View()), old(processor.wire), ApplyAll(old(queue), envs))
    {
      ghost var commands, start, wire := queue, processor.View(), processor.wire;
      ghost var all := ApplyAll(queue, envs);
      var i := 0;
      assert all[..0] == [];
      while queue != []
        invariant i <= |envs| && queue == commands[i..] && processor.Valid() && At(start, wire, all[..i])
        decreases |queue|
      {
        var command := queue[0];
        queue := queue[1..];
        ApplyNext(start, wire, all[..i], command, envs[i]);
        ApplyAllNext(commands, envs, i);
        i := i + 1;
      }
      assert all[..i] == all;
    }
  }

  // ---------------------------------------------------------------- concurrent producers

  const PRODUCERS := 3

  /** Producers' remaining programs, the shared queue, the consumer, and a record of arrivals. */
  datatype System = System(
    todo: seq<seq<Command>>, queue: seq<Command>, open: bool, processor: Outcome,
    applied: seq<Event>, arrived: seq<(nat, Command)>)

  /** One scheduling choice. A handler that panics takes its command with it and stops the consumer. */
  datatype Action = Send(producer: nat) | Consume(env: Env) | Panic | Background(provider: nat -> Option<StateId>)

  ghost predicate Enabled(sys: System, a: Action) {
    && |sys.todo| == PRODUCERS && Inv(sys.processor.state)
    && match a
       case Send(p) => p < PRODUCERS && sys.todo[p] != []
       case Consume(_) => sys.open && sys.queue != []
       case Panic => sys.open && sys.queue != []
       case Background(_) => true
  }

  ghost function Handle(w: World, sys: System, ev: Event): System
    requires Inv(sys.processor.state)
  {
    var o := Step(w, sys.processor.state, ev);
    sys.(processor := Outcome(o.state, sys.processor.log + o.log), applied := sys.applied + [ev])
  }

  ghost function Act(w: World, sys: System, a: Action): System
    requires Enabled(sys, a)
  {
    match a
    case Send(p) =>
      var c, rest := sys.todo[p][0], sys.todo[p][1..];
      if sys.open then sys.(todo := sys.todo[p := rest], queue := sys.queue + [c], arrived := sys.arrived + [(p, c)])
      else sys.(todo := sys.todo[p := rest])
    case Consume(env) => Handle(w, sys.(queue := sys.queue[1..]), Applying(sys.queue[0], env))
    case Panic => sys.(queue := [], open := false)
    case Background(provider) => Handle(w, sys, TaskFinished(provider))
  }

  function Commands(evs: seq<Event>): seq<Command> {
    if evs == [] then [] else
    Commands(evs[..|evs| - 1]) +
    match evs[|evs| - 1]
    case FlashblockReceived(fb, squash, expected, _) => [FlashblockCommand(fb, squash, expected)]
    case CanonicalBlock(number, hash, _) => [CanonicalCommand(number, hash)]
    case TaskFinished(_) => []
  }

  function Order(arrived: seq<(nat, Command)>): seq<Command> {
    seq(|arrived|, i requires 0 <= i < |arrived| => arrived[i].1)
  }

  /** What one producer contributed to the arrival order. */
  function From(arrived: seq<(nat, Command)>, producer: nat): seq<Command> {
    if arrived == [] then [] else
    var last := arrived[|arrived| - 1];
    From(arrived[..|arrived| - 1], producer) + (if last.0 == producer then [last.1] else [])
  }

  /**
   * The queue invariant: the applied commands are a prefix of the arrival order, all but the queue while
   * the consumer lives; and each producer's arrivals are its own program so far.
   */
  ghost predicate Queued(programs: seq<seq<Command>>, todo: seq<seq<Command>>, queue: seq<Command>, open: bool,
                         applied: seq<Event>, arrived: seq<(nat, Command)>)
  {
    && |todo| == |programs| == PRODUCERS
    && (forall a <- arrived :: a.0 < PRODUCERS)
    && Commands(applied) <= Order(arrived)
    && (open ==> Commands(applied) + queue == Order(arrived))
    && forall p :: 0 <= p < PRODUCERS ==>
                     && From(arrived, p) <= programs[p]
                     && (open ==> From(arrived, p) + todo[p] == programs[p])
  }

  ghost predicate Serialized(w: World, programs: seq<seq<Command>>, sys: System) {
    && sys.processor == Run(w, sys.applied)
    && Queued(programs, sys.todo, sys.queue, sys.open, sys.applied, sys.arrived)
  }

  lemma SendQueued(programs: seq<seq<Command>>, todo: seq<seq<Command>>, queue: seq<Command>, applied: seq<Event>,
                   arrived: seq<(nat, Command)>, p: nat)
    requires p < PRODUCERS && Queued(programs, todo, queue, true, applied, arrived) && todo[p] != []
    ensures Queued(programs, todo[p := todo[p][1..]], queue + [todo[p][0]], true, applied, arrived + [(p, todo[p][0])])
  {
    var c := todo[p][0];
    var arrived' := arrived + [(p, c)];
    assert arrived'[..|arrived|] == arrived;
    assert Order(arrived') == Order(arrived) + [c];
    assert Commands(applied) + (queue + [c]) == Commands(applied) + queue + [c];
    assert todo[p] == [c] + todo[p][1..];
    forall q | 0 <= q < PRODUCERS ensures From(arrived', q) + todo[p := todo[p][1..]][q] == programs[q] {
      assert From(arrived', q) == From(arrived, q) + (if q == p then [c] else []);
    }
  }

  lemma SendSerialized(w: World, programs: seq<seq<Command>>, sys: System, p: nat)
    requires Serialized(w, programs, sys) && Enabled(sys, Send(p))
    ensures Serialized(w, programs, Act(w, sys, Send(p)))
  {
    if sys.open {
      SendQueued(programs, sys.todo, sys.queue, sys.applied, sys.arrived, p);
    }
  }

  lemma CommandsExtend(evs: seq<Event>, ev: Event)
    ensures Commands(evs + [ev]) == Commands(evs) + Commands([ev])
  {
    assert (evs + [ev])[..|evs|] == evs;
    assert [ev][..0] == [];
  }

  lemma CommandsOfApplying(c: Command, env: Env)
    ensures Commands([Applying(c, env)]) == [c]
  {
    assert [Applying(c, env)][..0] == [];
  }

  lemma HandleRuns(w: World, sys: System, ev: Event)
    requires sys.processor == Run(w, sys.applied)
    ensures Handle(w, sys, ev).processor == Run(w, sys.applied + [ev])
  {
    RunFromExtend(w, INITIAL, sys.applied, ev);
  }

  /** The command of a handled event, if any, leaves the front of the queue. */
  lemma PopQueued(programs: seq<seq<Command>>, sys: System, ev: Event, rest: seq<Command>)
    requires Queued(programs, sys.todo, sys.queue, sys.open, sys.applied, sys.arrived)
    requires sys.queue == Commands([ev]) + rest && (sys.open || Commands([ev]) == [])
    ensures Queued(programs, sys.todo, rest, sys.open, sys.applied + [ev], sys.arrived)
  {
    CommandsExtend(sys.applied, ev);
    assert Commands(sys.applied) + sys.queue == Commands(sys.applied + [ev]) + rest;
    if !sys.open {
      assert Commands(sys.applied + [ev]) == Commands(sys.applied);
    }
  }

  lemma HandleSerialized(w: World, programs: seq<seq<Command>>, sys: System, ev: Event, rest: seq<Command>)
    requires Serialized(w, programs, sys) && sys.queue == Commands([ev]) + rest
    requires sys.open || Commands([ev]) == []
    ensures Serialized(w, programs, Handle(w, sys.(queue := rest), ev))
  {
    HandleRuns(w, sys.(queue := rest), ev);
    PopQueued(programs, sys, ev, rest);
  }

  lemma ActSerialized(w: World, programs: seq<seq<Command>>, sys: System, a: Action)
    requires Serialized(w, programs, sys) && Enabled(sys, a)
    ensures Serialized(w, programs, Act(w, sys, a))
  {
    match a
    case Send(p) => SendSerialized(w, programs, sys, p);
    case Consume(env) =>
      CommandsOfApplying(sys.queue[0], env);
      HandleSerialized(w, programs, sys, Applying(sys.queue[0], env), sys.queue[1..]);
    case Panic =>
    case Background(provider) =>
      assert [TaskFinished(provider)][..0] == [];
      assert Commands([TaskFinished(provider)]) == [];
      HandleSerialized(w, programs, sys, TaskFinished(provider), sys.queue);
  }

  /** A schedule that can be carried out from `sys`, and where it leads. */
  ghost predicate Feasible(w: World, sys: System, schedule: seq<Action>)
    decreases |schedule|
  {
    schedule == [] ||
    (Enabled(sys, schedule[0]) && Feasible(w, Act(w, sys, schedule[0]), schedule[1..]))
  }

  ghost function Perform(w: World, sys: System, schedule: seq<Action>): System
    requires Feasible(w, sys, schedule)
    decreases |schedule|
  {
    if schedule == [] then sys else Perform(w, Act(w, sys, schedule[0]), schedule[1..])
  }

  ghost function Boot(programs: seq<seq<Command>>): System {
    System(programs, [], true, Outcome(INITIAL, []), [], [])
  }

  lemma {:induction false} PerformSerialized(w: World, programs: seq<seq<Command>>, sys: System, schedule: seq<Action>)
    requires Serialized(w, programs, sys) && Feasible(w, sys, schedule)
    ensures Serialized(w, programs, Perform(w, sys, schedule))
    decreases |schedule|
  {
    if schedule != [] {
      ActSerialized(w, programs, sys, schedule[0]);
      PerformSerialized(w, programs, Act(w, sys, schedule[0]), schedule[1..]);
    }
  }

  lemma BootSerialized(w: World, programs: seq<seq<Command>>)
    requires |programs| == PRODUCERS
    ensures Serialized(w, programs, Boot(programs))
  {
    assert Order([]) == [];
    assert forall p :: 0 <= p < PRODUCERS ==> From([], p) + programs[p] == programs[p];
  }

  /** Every producer is done and the queue is drained. */
  ghost predicate Quiet(sys: System) {
    sys.open && sys.queue == [] && forall program <- sys.todo :: program == []
  }

  lemma QuietDelivers(programs: seq<seq<Command>>, sys: System)
    requires Queued(programs, sys.todo, sys.queue, sys.open, sys.applied, sys.arrived) && Quiet(sys)
    ensures Commands(sys.applied) == Order(sys.arrived)
    ensures forall p :: 0 <= p < PRODUCERS ==> From(sys.arrived, p) == programs[p]
  {
    assert Commands(sys.applied) + [] == Commands(sys.applied);
    forall p | 0 <= p < PRODUCERS ensures From(sys.arrived, p) == programs[p] {
      assert sys.todo[p] in sys.todo;
      assert From(sys.arrived, p) + [] == From(sys.arrived, p);
    }
  }

  /**
   * From start-up, under any schedule of the producers, the consumer and the background task: the
   * processor is one sequential run over the applied commands, so its wire keeps order and flag; these
   * are a prefix of the arrival order, all of it once quiet; and each producer's own order is kept.
   */
  lemma Serialization(w: World, programs: seq<seq<Command>>, schedule: seq<Action>)
    requires |programs| == PRODUCERS && Feasible(w, Boot(programs), schedule)
    ensures var sys := Perform(w, Boot(programs), schedule);
            && sys.processor == Run(w, sys.applied) && LogInv(sys.processor.state, sys.processor.log)
            && Commands(sys.applied) <= Order(sys.arrived)
            && (forall p :: 0 <= p < PRODUCERS ==> From(sys.arrived, p) <= programs[p])
            && (Quiet(sys) ==>
                  && Commands(sys.applied) == Order(sys.arrived)
                  && forall p :: 0 <= p < PRODUCERS ==> From(sys.arrived, p) == programs[p])
  {
    BootSerialized(w, programs);
    PerformSerialized(w, programs, Boot(programs), schedule);
    var sys := Perform(w, Boot(programs), schedule);
    RunLog(w, sys.applied);
    if Quiet(sys) {
      QuietDelivers(programs, sys);
    }
  }

  // ---------------------------------------------------------------- the stream behind the queue

  function FlashblockCommands(commands: seq<Command>): seq<Command> {
    if commands == [] then [] else
    var last := commands[|commands| - 1];
    FlashblockCommands(commands[..|commands| - 1]) + (if last.FlashblockCommand? then [last] else [])
  }

  lemma FlashblockCommandsNext(commands: seq<Command>, c: Command)
    ensures FlashblockCommands(commands + [c]) == FlashblockCommands(commands) + (if c.FlashblockCommand? then [c] else [])
  {
    assert (commands + [c])[..|commands|] == commands;
  }

  lemma {:induction false} FlashblockCommandsPrefix(a: seq<Command>, b: seq<Command>)
    requires a <= b
    ensures FlashblockCommands(a) <= FlashblockCommands(b)
  {
    if a != b {
      FlashblockCommandsPrefix(a, b[..|b| - 1]);
    }
  }

  function CommandOf(ev: Event): Command
    requires ev.FlashblockReceived?
  {
    FlashblockCommand(ev.fb, ev.squash, ev.expected)
  }

  /** The flashblocks of a run are its flashblock commands. */
  lemma {:induction false} ReceivedCommands(evs: seq<Event>)
    ensures |Received(evs)| == |FlashblockCommands(Commands(evs))|
    ensures forall i :: 0 <= i < |Received(evs)| ==> CommandOf(Received(evs)[i]) == FlashblockCommands(Commands(evs))[i]
  {
    if evs != [] {
      var front, last := evs[..|evs| - 1], evs[|evs| - 1];
      ReceivedCommands(front);
      match last {
        case FlashblockReceived(_, _, _, _) => FlashblockCommandsNext(Commands(front), CommandOf(last));
        case CanonicalBlock(number, hash, _) => FlashblockCommandsNext(Commands(front), CanonicalCommand(number, hash));
        case TaskFinished(_) => assert Commands(evs) == Commands(front);
      }
    }
  }

  /** Only the first producer sends flashblocks, and nothing else. */
  ghost predicate OneSource(arrived: seq<(nat, Command)>) {
    forall a <- arrived :: a.1.FlashblockCommand? <==> a.0 == 0
  }

  lemma {:induction false} SourceOrder(arrived: seq<(nat, Command)>)
    requires OneSource(arrived)
    ensures FlashblockCommands(Order(arrived)) == From(arrived, 0)
  {
    if arrived != [] {
      var front, last := arrived[..|arrived| - 1], arrived[|arrived| - 1];
      assert arrived == front + [last];
      assert forall a <- front :: a in arrived;
      SourceOrder(front);
      assert Order(arrived) == Order(front) + [last.1];
      FlashblockCommandsNext(Order(front), last.1);
      assert last in arrived;
    }
  }

  lemma {:induction false} ArrivedFrom(arrived: seq<(nat, Command)>, a: (nat, Command))
    requires a in arrived
    ensures a.1 in From(arrived, a.0)
  {
    var front, last := arrived[..|arrived| - 1], arrived[|arrived| - 1];
    if a != last {
      assert arrived == front + [last];
      ArrivedFrom(front, a);
    }
  }

  /** The ingress program, and two producers of canonical signals. */
  ghost predicate Wired(m: seq<Flashblock>, buffered: seq<bool>, programs: seq<seq<Command>>) {
    && |programs| == PRODUCERS && |buffered| == |m| && programs[0] == Ingress(m, buffered)
    && (forall c <- programs[1] :: c.CanonicalCommand?) && (forall c <- programs[2] :: c.CanonicalCommand?)
  }

  lemma WiredSource(m: seq<Flashblock>, buffered: seq<bool>, programs: seq<seq<Command>>, arrived: seq<(nat, Command)>)
    requires Wired(m, buffered, programs) && forall a <- arrived :: a.0 < PRODUCERS
    requires forall p :: 0 <= p < PRODUCERS ==> From(arrived, p) <= programs[p]
    ensures OneSource(arrived)
  {
    forall a <- arrived ensures a.1.FlashblockCommand? <==> a.0 == 0 {
      ArrivedFrom(arrived, a);
      assert a.1 in programs[a.0];
    }
  }

  /** The next message had arrived when message `i` was delivered. */
  ghost predicate Peeked(m: seq<Flashblock>, buffered: seq<bool>, i: nat)
    requires i < |m| == |buffered|
  {
    buffered[i] && i + 1 < |m|
  }

  /**
   * A delivered message: squashed exactly when it is a delta and the next message, already there, is of the same
   * block; final, with the hash it names as parent, exactly when that is the base of the next block.
   */
  ghost predicate Ruled(m: seq<Flashblock>, buffered: seq<bool>, i: nat, c: Command)
    requires i < |m| == |buffered|
  {
    && c.FlashblockCommand? && c.fb == m[i]
    && (c.squash <==> Peeked(m, buffered, i) && m[i].index > 0 && m[i + 1].block == m[i].block)
    && (c.expected.Some? <==>
          Peeked(m, buffered, i) && m[i + 1].block == m[i].block + 1 && m[i + 1].index == 0 && m[i + 1].base.Some?)
    && (c.expected.Some? ==> c.expected.value == m[i + 1].base.value.parentHash)
  }

  lemma IngressRules(m: seq<Flashblock>, buffered: seq<bool>, i: nat)
    requires i < |m| == |buffered|
    ensures Ruled(m, buffered, i, Ingress(m, buffered)[i])
  {
  }

  /** Whatever the schedule, the i-th flashblock applied is message `i` with the verdict its peek calls for. */
  lemma AppliedRules(w: World, m: seq<Flashblock>, buffered: seq<bool>, programs: seq<seq<Command>>, schedule: seq<Action>)
    requires Wired(m, buffered, programs) && Feasible(w, Boot(programs), schedule)
    ensures var r := Received(Perform(w, Boot(programs), schedule).applied);
            |r| <= |m| && forall i :: 0 <= i < |r| ==> Ruled(m, buffered, i, CommandOf(r[i]))
  {
    BootSerialized(w, programs);
    PerformSerialized(w, programs, Boot(programs), schedule);
    var sys := Perform(w, Boot(programs), schedule);
    WiredSource(m, buffered, programs, sys.arrived);
    SourceOrder(sys.arrived);
    FlashblockCommandsPrefix(Commands(sys.applied), Order(sys.arrived));
    ReceivedCommands(sys.applied);
    var r := Received(sys.applied);
    forall i | 0 <= i < |r| ensures Ruled(m, buffered, i, CommandOf(r[i])) {
      IngressRules(m, buffered, i);
      assert CommandOf(r[i]) == Ingress(m, buffered)[i];
    }
  }

  lemma RuledDelivered(m: seq<Flashblock>, buffered: seq<bool>, ev: Event, i: nat)
    requires i < |m| == |buffered| && ev.FlashblockReceived? && Ruled(m, buffered, i, CommandOf(ev))
    ensures Delivered(m, ev, i)
  {
    if Peeked(m, buffered, i) {
      assert Classified(ev, Some(m[i + 1]));
    } else {
      assert Classified(ev, None);
    }
  }

  /** Whatever the schedule, what the consumer applies is a run fed by the stream. */
  lemma AppliedStreams(w: World, m: seq<Flashblock>, buffered: seq<bool>, programs: seq<seq<Command>>, schedule: seq<Action>)
    requires Wired(m, buffered, programs) && Feasible(w, Boot(programs), schedule)
    ensures Streams(m, Perform(w, Boot(programs), schedule).applied)
  {
    AppliedRules(w, m, buffered, programs, schedule);
    var r := Received(Perform(w, Boot(programs), schedule).applied);
    forall i | 0 <= i < |r| ensures Delivered(m, r[i], i) {
      RuledDelivered(m, buffered, r[i], i);
    }
  }
}
