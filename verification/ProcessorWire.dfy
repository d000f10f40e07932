/**
 * Order and uniqueness of the lines on the wire, as an invariant tying the processor's state to
 * everything it has written so far.
 */
module ProcessorWire {
  import opened Wrappers
  import opened Flashblocks
  import opened ProcessorSpec
  import opened ProcessorInvariants
  import opened ProcessorEmissions

  ghost predicate IsFinal(e: Emission) {
    e.path != Partial
  }

  /**
   * How two lines written in this order relate: sequences never go back; inside one sequence indices
   * increase strictly (after a guarded final, weakly), and a guarded final comes after partials only.
   */
  ghost predicate Before(a: Emission, b: Emission) {
    && a.sequence <= b.sequence
    && (a.sequence == b.sequence ==>
          && a.index <= b.index
          && (a.path != Guarded ==> a.index < b.index)
          && (b.path == Guarded ==> a.path == Partial))
  }

  ghost predicate Ordered(log: seq<Emission>) {
    forall i, j :: 0 <= i < j < |log| ==> Before(log[i], log[j])
  }

  /** Lines of the in-flight sequence are numbered within what the state says was executed or accepted. */
  ghost predicate Accounted(s: State, log: seq<Emission>) {
    forall e <- log ::
      && 0 < e.sequence <= s.sequence
      && (e.sequence == s.sequence && s.current.Some? && s.latest.Some? ==>
            if e.path == Guarded then e.index <= s.latest.value + (if s.pending then 0 else 1)
            else s.executed.Some? && e.index <= s.executed.value)
  }

  ghost predicate HasFinal(sequence: nat, log: seq<Emission>) {
    exists e <- log :: e.sequence == sequence && IsFinal(e)
  }

  /** The guard flag means what it says: this sequence has put a final on the wire. */
  ghost predicate FlagExact(s: State, log: seq<Emission>) {
    s.current.Some? ==> (s.finalSent <==> HasFinal(s.sequence, log))
  }

  ghost predicate LogInv(s: State, log: seq<Emission>) {
    Ordered(log) && Accounted(s, log) && FlagExact(s, log)
  }

  /** After acceptance no line of the sequence is numbered above the flashblock just accepted. */
  ghost predicate Settled(s: State, log: seq<Emission>) {
    s.latest.Some? ==> forall e <- log :: e.sequence == s.sequence ==> e.index <= s.latest.value
  }

  // ---------------------------------------------------------------- building blocks

  lemma AppendOrdered(log: seq<Emission>, e: Emission)
    requires Ordered(log) && forall x <- log :: Before(x, e)
    ensures Ordered(log + [e])
  {
  }

  lemma ResetLog(s: State, log: seq<Emission>)
    requires LogInv(s, log)
    ensures LogInv(Reset(s), log)
  {
  }

  lemma StartLog(s: State, fb: Flashblock, db: Option<Db>, pending: bool, log: seq<Emission>)
    requires Ordered(log) && forall e <- log :: 0 < e.sequence <= s.sequence
    ensures var t := StartBlock(s, fb).(db := db, pending := pending); LogInv(t, log) && Settled(t, log)
  {
  }

  /** A guarded final of the in-flight sequence extends the order when no final precedes it. */
  lemma GuardedLog(s: State, log: seq<Emission>, e: Emission)
    requires Shape(s) && s.current.Some? && LogInv(s, log) && !s.finalSent
    requires e.path == Guarded && e.sequence == s.sequence && e.index == s.latest.value + 1
    ensures Ordered(log + [e])
    ensures !s.pending ==> LogInv(s.(finalSent := true, awaiting := false), log + [e])
  {
    assert forall x <- log :: x.sequence == s.sequence ==> !IsFinal(x);
    AppendOrdered(log, e);
    assert e in log + [e];
  }

  /** A line written by an execution, committed as the new last executed index. */
  lemma ExecutedLog(s: State, t: State, log: seq<Emission>, e: Emission)
    requires Shape(s) && s.current.Some? && LogInv(s, log) && Settled(s, log)
    requires s.executed.Some? ==> s.executed.value < s.latest.value
    requires e.path != Guarded && e.sequence == s.sequence && e.index == s.latest.value
    requires t.current == s.current && t.latest == s.latest && t.sequence == s.sequence && !t.pending
    requires t.executed == s.latest && t.finalSent == (s.finalSent || e.path == Peek)
    ensures LogInv(t, log + [e])
  {
    AppendOrdered(log, e);
    var log' := log + [e];
    assert HasFinal(s.sequence, log') <==> HasFinal(s.sequence, log) || IsFinal(e) by {
      assert e in log';
      assert forall x <- log :: x in log';
    }
  }

  // ---------------------------------------------------------------- steps

  /** What acceptance does to the log invariant; a final it releases is always of the sequence it ends. */
  lemma AcceptLog(w: World, s: State, fb: Flashblock, env: Env, log: seq<Emission>)
    requires Inv(s) && LogInv(s, log)
    ensures var a := Accept(w, s, fb, env);
            match a
            case Dropped(t) => LogInv(t, log)
            case Accepted(t, final) => LogInv(t, log + final) && Settled(t, log + final)
  {
    ResetLog(s, log);
    var a := Accept(w, s, fb, env);
    if a.Accepted? && a.log == [] {
      assert log + a.log == log;
    }
    if s.current.None? {
      if fb.index == 0 { StartLog(s, fb, s.db, false, log); }
    } else {
      match Validate(s.current.value, s.latest.value, fb) {
        case FirstOfNextBlock => TransitionLog(w, s, fb, env, log);
        case InvalidNewBlockIndex => if fb.index == 0 { StartLog(s.(db := None), fb, None, false, log); }
        case _ =>
      }
    }
  }

  lemma TransitionLog(w: World, s: State, fb: Flashblock, env: Env, log: seq<Emission>)
    requires Inv(s) && LogInv(s, log) && s.current.Some?
    ensures var a := Transition(w, s, fb, env); LogInv(a.state, log + a.log) && Settled(a.state, log + a.log)
  {
    var final := BuildFinal(w, s, s.current.value, s.latest.value, ParentHash(fb), env.rootComputes);
    if s.finalSent {
      assert log + [] == log;
      StartLog(s, fb, None, s.awaiting, log);
    } else if final.Some? {
      GuardedLog(s, log, final.value);
      StartLog(s, fb, None, s.awaiting, log + [final.value]);
    } else {
      assert log + [] == log;
      StartLog(Reset(s), fb, None, false, log);
    }
  }

  lemma AdvanceLog(w: World, s: State, fb: Flashblock, expected: Option<Hash>, env: Env, log: seq<Emission>)
    requires Inv(s) && Fresh(s, fb) && !s.pending && LogInv(s, log) && Settled(s, log)
    ensures var o := Advance(w, s, fb, expected, env); LogInv(o.state, log + o.log)
  {
    var o := Advance(w, s, fb, expected, env);
    var header, db, x := AdvanceCases(w, s, fb, expected, env);
    if o.log == [] {
      ResetLog(s, log);
      assert log + [] == log;
    } else {
      ExecutionLine(w, s, header, fb.index, Deferred(s.stored, s.executed), s.executed.None?, expected, db, env);
      ExecutedLog(s, o.state, log, x.emission);
    }
  }

  lemma AdmitLog(w: World, s: State, fb: Flashblock, squash: bool, expected: Option<Hash>, env: Env, log: seq<Emission>)
    requires Inv(s) && LogInv(s, log)
    ensures var o := Admit(w, s, fb, squash, expected, env); LogInv(o.state, log + o.log)
  {
    AcceptInv(w, s, fb, env);
    AcceptLog(w, s, fb, env, log);
    var a := Accept(w, s, fb, env);
    if a.Dropped? {
      assert log + [] == log;
    } else {
      var n := Continue(w, a.state, fb, squash, expected, env);
      assert log + (a.log + n.log) == (log + a.log) + n.log;
      if n.log == [] { assert (log + a.log) + n.log == log + a.log; }
      if !a.state.pending {
        AdvanceLog(w, a.state, fb, expected, env, log + a.log);
      }
    }
  }

  lemma ProcessLog(w: World, s: State, fb: Flashblock, squash: bool, expected: Option<Hash>, env: Env, log: seq<Emission>)
    requires Inv(s) && LogInv(s, log)
    ensures var o := Process(w, s, fb, squash, expected, env); LogInv(o.state, log + o.log)
  {
    assert log + [] == log;
    ResetLog(s, log);
    AdmitLog(w, s, fb, squash, expected, env, log);
  }

  lemma ConfirmLog(w: World, s: State, number: nat, hash: Hash, env: Env, log: seq<Emission>)
    requires Inv(s) && LogInv(s, log) && !s.pending && s.current.Some?
    ensures var o := Confirm(w, s, number, hash, env); LogInv(o.state, log + o.log)
  {
    var o := Confirm(w, s, number, hash, env);
    if o.log == [] {
      assert log + o.log == log;
      ResetLog(s, log);
    } else {
      GuardedLog(s, log, o.log[0]);
    }
  }

  lemma ReplayLog(w: World, s: State, number: nat, env: Env, log: seq<Emission>)
    requires Inv(s) && LogInv(s, log) && s.pending
    ensures var o := Replay(w, s, number, env); LogInv(o.state, log + o.log)
  {
    var o := Replay(w, s, number, env);
    if o.log == [] {
      assert log + o.log == log;
      ResetLog(s, log);
    } else {
      var header := Assemble(w.converts, s.stored).value;
      ExecutionLine(w, s, header, s.latest.value, Transactions(s.stored), true, None,
                    Db(env.provider(number).value, []), env);
      ExecutedLog(s, o.state, log, o.log[0]);
    }
  }

  lemma CanonicalLog(w: World, s: State, number: nat, hash: Hash, env: Env, log: seq<Emission>)
    requires Inv(s) && LogInv(s, log)
    ensures var o := OnCanonical(w, s, number, hash, env); LogInv(o.state, log + o.log)
  {
    var t := Note(s, number, hash);
    assert Inv(t) && LogInv(t, log);
    assert log + [] == log;
    ResetLog(t, log);
    if t.pending {
      ReplayLog(w, t, number, env, log);
    } else if t.current == Some(number) {
      ConfirmLog(w, t, number, hash, env, log);
    }
  }

  /** Every step keeps the wire ordered, accounted for, and the final flag exact. */
  lemma StepLog(w: World, s: State, ev: Event, log: seq<Emission>)
    requires Inv(s) && LogInv(s, log)
    ensures var o := Step(w, s, ev); LogInv(o.state, log + o.log)
  {
    match ev
    case FlashblockReceived(fb, squash, expected, env) => ProcessLog(w, s, fb, squash, expected, env, log);
    case CanonicalBlock(number, hash, env) => CanonicalLog(w, s, number, hash, env, log);
    case TaskFinished(_) => assert log + [] == log;
  }
}
