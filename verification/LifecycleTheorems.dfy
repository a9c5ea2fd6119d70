/** What holds of every run of the client, and the one assumption it takes: at most 2^64 calls. */
module LifecycleTheorems {
  import opened Bytes
  import opened ClientLifecycle

  lemma {:induction false} CallsOnlyGrow(s: State, steps: seq<Step>)
    requires Valid(s, steps)
    ensures |s.calls| <= |After(s, steps).calls|
    decreases |steps|
  {
    if steps != [] {
      hide Apply, Enabled;
      Growth(s, steps[0]);
      CallsOnlyGrow(Apply(s, steps[0]), steps[1..]);
    }
  }

  lemma {:induction false} RunKeepsInv(s: State, steps: seq<Step>)
    requires Inv(s) && Valid(s, steps) && NoWrap(After(s, steps))
    ensures Inv(After(s, steps))
    decreases |steps|
  {
    if steps != [] {
      var t := Apply(s, steps[0]);
      CallsOnlyGrow(t, steps[1..]);
      StepKeepsInv(s, steps[0]);
      RunKeepsInv(t, steps[1..]);
    }
  }

  /** The invariant holds after every interleaving of senders, listener, server and closers. */
  lemma ReachableInv(steps: seq<Step>)
    requires Valid(INIT, steps) && NoWrap(After(INIT, steps))
    ensures Inv(After(INIT, steps))
  {
    RunKeepsInv(INIT, steps);
  }

  /** A request whose bytes are on the wire and whose response nobody has read is in the table, or
      its sender still holds the table lock over it, unless its write threw, a sweep began, or the
      listener has come to read inside a frame. So a response the listener looks up is found, and only
      those exceptions are ever dropped. */
  lemma NoResponseIsUnknown(steps: seq<Step>, c: Call)
    requires Valid(INIT, steps) && NoWrap(After(INIT, steps)) && c < |After(INIT, steps).calls|
    ensures var s := After(INIT, steps);
      var x := s.calls[c];
      && (x.flight.Open() && !s.sweepBegan && !x.pc.Threw? && !s.garbled ==>
          InTable(s, c) || (x.pc.Written? && s.reqsLock == Some(BySender(c))))
      && (x.flight.Dropped? ==> x.pc.Threw? || s.sweepBegan || s.garbled)
      && (s.listener == GotHead(c) && s.reqsLock == None && !s.sweepBegan && !x.pc.Threw?
          && !s.garbled ==>
          Apply(s, Pop).listener == Popped(Of(c), c))
  {
    ReachableInv(steps);
    var s := After(INIT, steps);
    assert CallInv(s, c);
    assert Id(c) == c;
  }

  /** Each response channel gets at most one response; and it is the one to its own request, unless the
      listener has come to read inside a frame. A call in the table has got none. */
  lemma OwnResponseAtMostOnce(steps: seq<Step>, c: Call)
    requires Valid(INIT, steps) && NoWrap(After(INIT, steps)) && c < |After(INIT, steps).calls|
    ensures var s := After(INIT, steps);
      && |s.calls[c].chan.puts| <= 1
      && (!s.garbled ==> s.calls[c].chan.puts == [] || s.calls[c].chan.puts == [Of(c)])
      && (InTable(s, c) ==> s.calls[c].chan.puts == [])
  {
    ReachableInv(steps);
    assert CallInv(After(INIT, steps), c);
  }

  /** And that takes a write that threw, or a sweep: in any other run frames stay whole. */
  lemma FramesStayWhole(steps: seq<Step>)
    requires Valid(INIT, steps) && NoWrap(After(INIT, steps)) && After(INIT, steps).garbled
    ensures var s := After(INIT, steps);
      s.sweepBegan || exists c: Call :: At(s, c, Threw)
  {
    ReachableInv(steps);
  }

  /** Any number of threads may call `close!`; at most one gets past the swap. */
  lemma OneClosesTheClient(steps: seq<Step>, i: nat, j: nat)
    requires Valid(INIT, steps) && NoWrap(After(INIT, steps))
    requires i < |After(INIT, steps).closers| && j < |After(INIT, steps).closers|
    ensures var s := After(INIT, steps);
      && (s.closers[i].RunsBody() && s.closers[j].RunsBody() ==> i == j)
      && (s.closers[i].RunsBody() ==> s.isClosed)
  {
    ReachableInv(steps);
    assert CloserInv(After(INIT, steps), i) && CloserInv(After(INIT, steps), j);
  }

  lemma {:induction false} FinishedForGood(s: State, i: nat, steps: seq<Step>)
    requires CloserAt(s, i, Finished) && Valid(s, steps)
    ensures CloserAt(After(s, steps), i, Finished)
    decreases |steps|
  {
    if steps != [] {
      FinishedStays(s, i, steps[0]);
      FinishedForGood(Apply(s, steps[0]), i, steps[1..]);
    }
  }

  lemma FinishedStays(s: State, i: nat, step: Step)
    requires CloserAt(s, i, Finished) && Enabled(s, step)
    ensures CloserAt(Apply(s, step), i, Finished)
  {
    ClosersAfter(s, step);
    if CloserOf(step).Some? { CloserNotDone(s, step); }
    hide Apply, Enabled;
  }

  lemma CloserNotDone(s: State, step: Step)
    requires Enabled(s, step) && CloserOf(step).Some?
    ensures !CloserAt(s, CloserOf(step).value, Finished)
  {
  }

  lemma {:induction false} RunsCompose(s: State, a: seq<Step>, b: seq<Step>)
    requires Valid(s, a) && Valid(After(s, a), b)
    ensures Valid(s, a + b) && After(s, a + b) == After(After(s, a), b)
    decreases |a|
  {
    hide Apply, Enabled;
    if a == [] {
      assert a + b == b;
    } else {
      RunsCompose(Apply(s, a[0]), a[1..], b);
      assert (a + b)[1..] == a[1..] + b;
    }
  }

  /** Once `close!` has finished, whatever runs afterwards, also senders that were already past the
      closed check: the table is empty, nobody can register, and every channel a caller was given has
      its response, is closed, or is the single one the listener holds. */
  lemma AfterCloseNothingIsLost(before: seq<Step>, i: nat, later: seq<Step>, c: Call)
    requires Valid(INIT, before) && CloserAt(After(INIT, before), i, Finished)
    requires Valid(After(INIT, before), later)
    requires NoWrap(After(After(INIT, before), later))
    ensures var s := After(After(INIT, before), later);
      && s.reqs == map[]
      && !Enabled(s, Register(c))
      && (At(s, c, Returned) ==> Settled(s, c))
  {
    var mid := After(INIT, before);
    RunsCompose(INIT, before, later);
    ReachableInv(before + later);
    FinishedForGood(mid, i, later);
    var s := After(mid, later);
    assert CloserInv(s, i);
    if c < |s.calls| { assert CallInv(s, c); }
  }

  /** What garbles the connection: a frame left half written, or a response whose entry is missing and
      whose rest is left unread. */
  lemma Garbles(s: State, step: Step)
    requires Enabled(s, step)
    ensures Apply(s, step).garbled <==>
      || s.garbled
      || (step.WriteFails? && step.sent == Half)
      || (step.Pop? && Id(s.listener.call) !in s.reqs)
  {
    if IsSenders(step) {
      SendersApply(s, step);
    } else if IsListeners(step) {
      ListenersApply(s, step);
    } else {
      OthersApply(s, step);
    }
    hide Apply, Enabled, IsSenders, IsListeners, WithPc, WithFlight, WithClosed;
  }

  // ----- A closed client -----

  lemma ClosedStep(s: State, step: Step)
    requires s.isClosed && Enabled(s, step)
    ensures var t := Apply(s, step);
      && t.isClosed && !step.Check?
      && |t.calls| + t.checked <= |s.calls| + s.checked
  {
    Growth(s, step);
    if IsSenders(step) {
      SendersApply(s, step);
    } else if IsListeners(step) {
      ListenersApply(s, step);
    } else {
      OthersApply(s, step);
    }
    hide Apply, Enabled, IsSenders, IsListeners, WithPc, WithFlight, WithClosed, Id;
  }

  /** Once the client is closed no call of `send!` passes its check: only those that had passed it before
      go on. */
  lemma {:induction false} ClosedRefuses(s: State, steps: seq<Step>)
    requires s.isClosed && Valid(s, steps)
    ensures var t := After(s, steps);
      && t.isClosed && |t.calls| <= |s.calls| + s.checked
      && forall step | step in steps :: !step.Check?
    decreases |steps|
  {
    ClosedCounts(s, steps);
  }

  lemma {:induction false} ClosedCounts(s: State, steps: seq<Step>)
    requires s.isClosed && Valid(s, steps)
    ensures var t := After(s, steps);
      && t.isClosed && |t.calls| + t.checked <= |s.calls| + s.checked
      && forall step | step in steps :: !step.Check?
    decreases |steps|
  {
    hide Apply, Enabled;
    if steps != [] {
      ClosedStep(s, steps[0]);
      ClosedCounts(Apply(s, steps[0]), steps[1..]);
    }
  }

  // ----- What the listener leaves behind -----

  /** A channel that has its response is closed, so that a second `recv!` does not wait; the one the
      listener has just put into is about to be. */
  lemma DeliveredIsClosed(steps: seq<Step>, c: Call)
    requires Valid(INIT, steps) && NoWrap(After(INIT, steps)) && c < |After(INIT, steps).calls|
    ensures var s := After(INIT, steps);
      s.calls[c].chan.puts != [] ==> s.calls[c].chan.closed || s.listener == Delivered(c)
  {
    ReachableInv(steps);
    assert CallInv(After(INIT, steps), c);
  }

  /** The listener has left its loop, or an exception is about to take it out. */
  predicate Leaving(l: Listener) {
    l.Failing? || l.Broken? || l.Gone?
  }

  /** A step with which the listener goes on in its loop. */
  predicate Listens(step: Step) {
    step.ReadHead? || step.ReadJunk? || step.ReadFails? || step.Pop? || step.PopJunk? || step.ReadBody?
    || step.ReadBodyFails? || step.Put? || step.CloseChan?
  }

  /** A failed read, of a head or of a body, and a put into a channel that is closed end the loop. */
  lemma FailureLeaves(s: State, step: Step)
    requires Enabled(s, step)
    requires step.ReadFails? || step.ReadBodyFails?
             || (step.Put? && s.calls[s.listener.chan].chan.closed)
    ensures Leaving(Apply(s, step).listener)
    ensures !step.ReadFails? ==> Apply(s, step).listener == Failing(s.listener.chan)
  {
  }

  lemma LeavingStep(s: State, step: Step)
    requires Leaving(s.listener) && Enabled(s, step)
    ensures Leaving(Apply(s, step).listener) && !Listens(step)
    ensures s.listener.Failing? && step.FailClose? ==>
      Apply(s, step).calls[s.listener.chan].chan.closed && Apply(s, step).listener == Broken
  {
    if IsListeners(step) {
      ListenersApply(s, step);
      hide Apply, Enabled, IsSenders;
    } else {
      OnlyListenerMoves(s, step);
      hide Apply, Enabled;
    }
  }

  lemma OnlyListenerMoves(s: State, step: Step)
    requires Enabled(s, step) && !IsListeners(step)
    ensures Apply(s, step).listener == s.listener
  {
    if IsSenders(step) {
      SendersApply(s, step);
    } else {
      OthersApply(s, step);
    }
    hide Apply, Enabled, IsSenders, WithPc, WithFlight, WithClosed, Id;
  }

  /** After that it never reads, looks up or puts anything again. */
  lemma {:induction false} LeftForGood(s: State, steps: seq<Step>)
    requires Leaving(s.listener) && Valid(s, steps)
    ensures Leaving(After(s, steps).listener) && forall step | step in steps :: !Listens(step)
    decreases |steps|
  {
    hide Apply, Enabled, Leaving, Listens;
    if steps != [] {
      LeavingStep(s, steps[0]);
      LeftForGood(Apply(s, steps[0]), steps[1..]);
    }
  }

  /** A listener that is gone has entered `close!`, and once that call is past its swap the client is
      closed, by it or by another. */
  lemma ListenerClosesClient(steps: seq<Step>)
    requires Valid(INIT, steps) && NoWrap(After(INIT, steps)) && After(INIT, steps).listener.Gone?
    ensures var s := After(INIT, steps);
      && s.byListener.Some? && s.byListener.value < |s.closers|
      && (s.closers[s.byListener.value].Entered? || s.isClosed)
  {
    ReachableInv(steps);
    var s := After(INIT, steps);
    assert CloserInv(s, s.byListener.value);
  }

  // ----- Nobody waits for ever on a lock -----

  predicate Unfinished(s: State, c: Call) {
    c < |s.calls| && !s.calls[c].pc.Rejected? && !s.calls[c].pc.Returned? && !s.calls[c].pc.Threw?
  }

  /** Who makes the step: a sender on its way to its end, or the closer. */
  function MoverOf(step: Step): Option<Holder> {
    match step
    case LockWrite(c) => Some(BySender(c)) case LockReqs(c) => Some(BySender(c))
    case WriteRest(c) => Some(BySender(c)) case WriteFails(c, _) => Some(BySender(c))
    case Register(c) => Some(BySender(c)) case UnlockReqs(c) => Some(BySender(c))
    case UnlockWrite(c) => Some(BySender(c))
    case CloseConn(i) => Some(ByCloser(i)) case LockSweep(i) => Some(ByCloser(i))
    case SweepOne(i, _) => Some(ByCloser(i)) case SweepDone(i) => Some(ByCloser(i))
    case _ => None
  }

  /** A step that `h` can make now; a write fails only once the connection is closed. */
  predicate CanMove(s: State, h: Holder, step: Step) {
    Enabled(s, step) && MoverOf(step) == Some(h) && (step.WriteFails? ==> !s.connOpen)
  }

  predicate Holds(s: State, h: Holder) {
    s.writeLock == Some(h) || s.reqsLock == Some(h)
  }

  /** Whoever holds the table lock can move. */
  lemma TableHolderMoves(s: State) returns (step: Step)
    requires Inv(s) && s.reqsLock.Some?
    ensures CanMove(s, s.reqsLock.value, step)
  {
    match s.reqsLock.value
    case BySender(h) =>
      assert CallInv(s, h);
      match s.calls[h].pc {
        case Written => step := Register(h);
        case Registered => step := UnlockReqs(h);
        case _ => step := if s.connOpen then WriteRest(h) else WriteFails(h, Nothing);
      }
    case ByCloser(i) =>
      if s.reqs == map[] {
        step := SweepDone(i);
      } else {
        var id :| id in s.reqs;
        assert CallInv(s, id);
        step := SweepOne(i, id);
      }
  }

  /** Whoever holds the write lock can move, or waits for the holder of the table lock, who can. */
  lemma WriteHolderMoves(s: State) returns (h: Holder, step: Step)
    requires Inv(s) && s.writeLock.Some?
    ensures CanMove(s, h, step) && Holds(s, h)
  {
    if s.reqsLock.Some? {
      h := s.reqsLock.value;
      step := TableHolderMoves(s);
    } else {
      h := s.writeLock.value;
      assert CallInv(s, h.call);
      step := if s.calls[h.call].pc.HasWriteLock? then LockReqs(h.call) else UnlockWrite(h.call);
    }
  }

  /** Senders take the write lock and then the table lock, the listener and the sweep only the table
      lock: whenever a sender is not done, it or the holder of a lock it needs can move. */
  lemma SendersNeverDeadlock(s: State, c: Call) returns (h: Holder, step: Step)
    requires Inv(s) && Unfinished(s, c)
    ensures CanMove(s, h, step) && (h == BySender(c) || Holds(s, h))
  {
    assert CallInv(s, c);
    if s.writeLock.Some? {
      h, step := WriteHolderMoves(s);
    } else {
      h, step := BySender(c), LockWrite(c);
    }
  }

  /** The closer that won is never stuck either: it moves, or the holder of the lock it needs does. */
  lemma CloserNeverDeadlocks(s: State, i: nat) returns (h: Holder, step: Step)
    requires Inv(s) && i < |s.closers| && s.closers[i].RunsBody() && !s.closers[i].Finished?
    ensures CanMove(s, h, step) && (h == ByCloser(i) || Holds(s, h))
  {
    assert CloserInv(s, i);
    if s.closers[i].Won? && s.writeLock.Some? {
      h, step := WriteHolderMoves(s);
    } else if s.closers[i].Won? {
      h, step := ByCloser(i), CloseConn(i);
    } else if s.reqsLock.Some? {
      h := s.reqsLock.value;
      step := TableHolderMoves(s);
    } else {
      h, step := ByCloser(i), LockSweep(i);
    }
  }

  // ----- Every wait can end -----

  /** The steps a sender has left. */
  function Left(pc: Sender): nat {
    match pc
    case Numbered => 6
    case HasWriteLock => 5
    case HasBothLocks => 4
    case HeadWritten => 4
    case Written => 3
    case Registered => 2
    case ReleasedReqs => 1
    case _ => 0
  }

  function LeftOf(s: State, c: Call): nat {
    if c < |s.calls| then Left(s.calls[c].pc) else 0
  }

  /** The steps left to the holder of the write lock. */
  function HolderLeft(s: State): nat {
    if s.writeLock.Some? && s.writeLock.value.BySender? then LeftOf(s, s.writeLock.value.call) else 0
  }

  /** The steps left to the sender `c`, and to the holder of the write lock if that is another one. */
  function SendersLeft(s: State, c: Call): nat {
    LeftOf(s, c) + if s.writeLock == Some(BySender(c)) then 0 else HolderLeft(s)
  }

  /** The steps left to a sweep that is going on. */
  function SweepLeft(s: State): nat {
    if s.reqsLock.Some? && s.reqsLock.value.ByCloser? then |s.reqs| + 1 else 0
  }

  /** The steps of its own that the winning closer has left before its sweep ends. */
  function CloserLeft(s: State, i: nat): nat {
    if i >= |s.closers| then 0
    else
      match s.closers[i]
      case Won => 3
      case ConnClosed => 2
      case Sweeping => 1
      case _ => 0
  }

  /** What a step of the sender `h` changes: it is nearer to its end, and the other senders, the closers
      and the lock of another writer are as they were. */
  predicate Nearer(s: State, t: State, h: Call) {
    && h < |s.calls| == |t.calls| && LeftOf(t, h) < LeftOf(s, h)
    && (forall c: Call | c < |s.calls| && c != h :: t.calls[c] == s.calls[c])
    && (t.writeLock == None || t.writeLock == Some(BySender(h)) || t.writeLock == s.writeLock)
    && t.closers == s.closers
  }

  lemma LockNearer(s: State, h: Call)
    ensures Enabled(s, LockWrite(h)) ==> Nearer(s, Apply(s, LockWrite(h)), h)
    ensures Enabled(s, LockReqs(h)) ==> Nearer(s, Apply(s, LockReqs(h)), h)
  {
  }

  lemma WriteNearer(s: State, h: Call, sent: Portion)
    ensures Enabled(s, WriteRest(h)) ==> Nearer(s, Apply(s, WriteRest(h)), h)
    ensures Enabled(s, WriteFails(h, sent)) ==> Nearer(s, Apply(s, WriteFails(h, sent)), h)
  {
  }

  lemma ReleaseNearer(s: State, h: Call)
    ensures Enabled(s, Register(h)) ==> Nearer(s, Apply(s, Register(h)), h)
    ensures Enabled(s, UnlockReqs(h)) ==> Nearer(s, Apply(s, UnlockReqs(h)), h)
    ensures Enabled(s, UnlockWrite(h)) ==> Nearer(s, Apply(s, UnlockWrite(h)), h)
  {
  }

  lemma SenderShrinks(s: State, h: Call, step: Step)
    requires CanMove(s, BySender(h), step)
    ensures Nearer(s, Apply(s, step), h)
  {
    hide Apply, Enabled, Nearer;
    match step
    case LockWrite(_) => LockNearer(s, h);
    case LockReqs(_) => LockNearer(s, h);
    case WriteRest(_) => WriteNearer(s, h, Nothing);
    case WriteFails(_, sent) => WriteNearer(s, h, sent);
    case _ => ReleaseNearer(s, h);
  }

  /** A step of the sweep leaves one entry fewer, or the lock free, and the senders where they are. */
  lemma SweepShrinks(s: State, i: nat, step: Step)
    requires CanMove(s, ByCloser(i), step) && s.reqsLock == Some(ByCloser(i))
    requires CloserAt(s, i, Sweeping)
    ensures var t := Apply(s, step);
      && SweepLeft(t) < SweepLeft(s) && t.writeLock == s.writeLock
      && |t.calls| == |s.calls| && (forall c: Call | c < |s.calls| :: t.calls[c].pc == s.calls[c].pc)
      && CloserLeft(t, i) <= CloserLeft(s, i)
  {
    if step.SweepOne? {
      assert (s.reqs - {step.id}).Keys == s.reqs.Keys - {step.id};
      assert |s.reqs - {step.id}| < |s.reqs|;
    }
  }

  /** The step of `SendersNeverDeadlock` brings the wait nearer to its end. */
  lemma WaitShrinks(s: State, c: Call, h: Holder, step: Step)
    requires Inv(s) && Unfinished(s, c) && CanMove(s, h, step)
    requires h == BySender(c) || Holds(s, h)
    ensures var t := Apply(s, step);
      && c < |t.calls|
      && (SendersLeft(t, c) < SendersLeft(s, c)
          || (SendersLeft(t, c) == SendersLeft(s, c) && SweepLeft(t) < SweepLeft(s)))
  {
    hide Apply, Enabled;
    assert CallInv(s, c);
    match h
    case BySender(g) =>
      assert g < |s.calls| && CallInv(s, g);
      SenderShrinks(s, g, step);
      OneWriter(s, g);
    case ByCloser(i) =>
      SweepShrinks(s, i, step);
  }

  /** A sender that holds the table lock holds the write lock. */
  lemma OneWriter(s: State, g: Call)
    requires g < |s.calls| && CallInv(s, g)
    ensures s.reqsLock == Some(BySender(g)) ==> s.writeLock == Some(BySender(g))
  {
  }

  /** Every step is made by `who` or by the holder of a lock, and writes succeed while they can. */
  predicate MadeFor(s: State, who: Holder, steps: seq<Step>)
    requires Valid(s, steps)
    decreases |steps|
  {
    steps == []
    || (MoverOf(steps[0]).Some?
        && (MoverOf(steps[0]) == Some(who) || Holds(s, MoverOf(steps[0]).value))
        && (steps[0].WriteFails? ==> !s.connOpen)
        && MadeFor(Apply(s, steps[0]), who, steps[1..]))
  }

  lemma Movable(s: State, who: Holder, h: Holder, step: Step)
    requires Inv(s) && NoWrap(s) && CanMove(s, h, step) && (h == who || Holds(s, h))
    ensures Enabled(s, step) && NoWrap(Apply(s, step))
    ensures MoverOf(step) == Some(h) && (step.WriteFails? ==> !s.connOpen)
  {
    Growth(s, step);
  }

  /** From every reachable state each sender can be brought to its end by its own steps and those of the
      holders of the locks it waits for: no listener, server or other caller is needed. */
  lemma {:induction false} SenderCanFinish(s: State, c: Call) returns (steps: seq<Step>)
    requires Inv(s) && NoWrap(s) && c < |s.calls|
    ensures Valid(s, steps) && MadeFor(s, BySender(c), steps) && !Unfinished(After(s, steps), c)
    decreases SendersLeft(s, c), SweepLeft(s)
  {
    hide Inv, CanMove, Enabled, Apply, SendersLeft, SweepLeft, Holds, NoWrap;
    if !Unfinished(s, c) {
      steps := [];
    } else {
      var h, step := SendersNeverDeadlock(s, c);
      Movable(s, BySender(c), h, step);
      WaitShrinks(s, c, h, step);
      StepKeepsInv(s, step);
      var more := SenderCanFinish(Apply(s, step), c);
      OneStep(s, step, more);
      steps := [step] + more;
      assert steps[1..] == more;
    }
  }

  lemma CloserStepShrinks(s: State, i: nat, step: Step)
    requires Enabled(s, step) && (step == CloseConn(i) || step == LockSweep(i))
    ensures CloserLeft(Apply(s, step), i) < CloserLeft(s, i)
    ensures |Apply(s, step).closers| == |s.closers|
  {
  }

  /** The step of `CloserNeverDeadlocks` does too. */
  lemma ClosingShrinks(s: State, i: nat, h: Holder, step: Step)
    requires Inv(s) && i < |s.closers| && s.closers[i].RunsBody() && !s.closers[i].Finished?
    requires CanMove(s, h, step) && (h == ByCloser(i) || Holds(s, h))
    ensures var t := Apply(s, step); var a, b := CloserLeft(s, i), CloserLeft(t, i);
      b < a || (b == a && (HolderLeft(t) < HolderLeft(s)
                           || (HolderLeft(t) == HolderLeft(s) && SweepLeft(t) < SweepLeft(s))))
  {
    hide Apply, Enabled;
    assert CloserInv(s, i);
    match h
    case BySender(g) =>
      assert g < |s.calls| && CallInv(s, g);
      SenderShrinks(s, g, step);
      OneWriter(s, g);
    case ByCloser(j) =>
      if step == CloseConn(i) || step == LockSweep(i) {
        CloserStepShrinks(s, i, step);
      } else {
        Sweeper(s, i, j, step);
        SweepShrinks(s, i, step);
      }
  }

  /** A closer that sweeps, or holds a lock, is the one that won. */
  lemma Sweeper(s: State, i: nat, j: nat, step: Step)
    requires Inv(s) && i < |s.closers| && s.closers[i].RunsBody()
    requires CanMove(s, ByCloser(j), step) && (j == i || Holds(s, ByCloser(j)))
    requires step != CloseConn(i) && step != LockSweep(i)
    ensures j == i && s.reqsLock == Some(ByCloser(i)) && CloserAt(s, i, Sweeping)
  {
    assert CloserInv(s, i);
    if j < |s.closers| { assert CloserInv(s, j); }
  }

  /** And so can the call that closes the client, whatever the senders are doing. */
  lemma {:induction false} CloserCanFinish(s: State, i: nat) returns (steps: seq<Step>)
    requires Inv(s) && NoWrap(s) && i < |s.closers| && s.closers[i].RunsBody()
    ensures Valid(s, steps) && MadeFor(s, ByCloser(i), steps)
    ensures CloserAt(After(s, steps), i, Finished)
    decreases CloserLeft(s, i), HolderLeft(s), SweepLeft(s)
  {
    hide Inv, CanMove, Enabled, Apply, HolderLeft, SweepLeft, CloserLeft, Holds, NoWrap;
    if s.closers[i].Finished? {
      steps := [];
    } else {
      var h, step := CloserNeverDeadlocks(s, i);
      Movable(s, ByCloser(i), h, step);
      ClosingShrinks(s, i, h, step);
      StepKeepsInv(s, step);
      StillRuns(s, i, step);
      var more := CloserCanFinish(Apply(s, step), i);
      OneStep(s, step, more);
      steps := [step] + more;
      assert steps[1..] == more;
    }
  }

  lemma StillRuns(s: State, i: nat, step: Step)
    requires i < |s.closers| && s.closers[i].RunsBody() && Enabled(s, step)
    ensures i < |Apply(s, step).closers| && Apply(s, step).closers[i].RunsBody()
  {
    ClosersAfter(s, step);
    if step.Swap? { SwapsEntered(s, step); }
    hide Apply, Enabled;
  }

  lemma SwapsEntered(s: State, step: Step)
    requires Enabled(s, step) && step.Swap?
    ensures CloserAt(s, step.i, Entered)
  {
  }

  /** So after any run, whatever was going on, a call of `send!` or of `close!` can still end. */
  lemma EveryCallCanEnd(run: seq<Step>, c: Call, i: nat) returns (steps: seq<Step>, closing: seq<Step>)
    requires Valid(INIT, run) && NoWrap(After(INIT, run))
    requires c < |After(INIT, run).calls|
    requires i < |After(INIT, run).closers| && After(INIT, run).closers[i].RunsBody()
    ensures Valid(INIT, run + steps) && !Unfinished(After(INIT, run + steps), c)
    ensures Valid(INIT, run + closing) && CloserAt(After(INIT, run + closing), i, Finished)
  {
    hide Inv, Unfinished;
    ReachableInv(run);
    steps := SenderCanFinish(After(INIT, run), c);
    RunsCompose(INIT, run, steps);
    closing := CloserCanFinish(After(INIT, run), i);
    RunsCompose(INIT, run, closing);
  }

  // ----- The bound on the number of calls is exact -----

  const SENT := CallState(Returned, OnWire, Chan([], false))
  const REFUSED := CallState(Rejected, Unsent, Chan([], false))

  /** Nothing in progress and the client open. */
  predicate Quiet(s: State) {
    && !s.isClosed && s.connOpen && s.checked == 0
    && s.writeLock == None && s.reqsLock == None && s.listener == Waiting
  }

  lemma OneStep(s: State, step: Step, rest: seq<Step>)
    requires Enabled(s, step) && Valid(Apply(s, step), rest)
    ensures Valid(s, [step] + rest) && After(s, [step] + rest) == After(Apply(s, step), rest)
  {
    assert ([step] + rest)[1..] == rest;
  }

  lemma Numbers(s: State)
    requires Quiet(s)
    ensures Valid(s, [Check, Number])
    ensures After(s, [Check, Number])
         == s.(calls := s.calls + [CallState(Numbered, Unsent, Chan([], false))])
  {
    TwoSteps(s, Check, Number);
  }

  lemma Locks(s: State, c: Call)
    requires At(s, c, Numbered) && s.writeLock == None && s.reqsLock == None
    ensures Valid(s, [LockWrite(c), LockReqs(c)])
    ensures After(s, [LockWrite(c), LockReqs(c)])
         == s.(calls := WithPc(s, c, HasBothLocks),
               writeLock := Some(BySender(c)), reqsLock := Some(BySender(c)))
  {
    TwoSteps(s, LockWrite(c), LockReqs(c));
  }

  lemma Writes(s: State, c: Call)
    requires At(s, c, HasBothLocks) && s.connOpen
    ensures Valid(s, [WriteRest(c), Register(c)])
    ensures After(s, [WriteRest(c), Register(c)])
         == s.(calls := s.calls[c := s.calls[c].(pc := Registered, flight := OnWire)],
               reqs := s.reqs[Id(c) := c])
  {
    TwoSteps(s, WriteRest(c), Register(c));
  }

  lemma Unlocks(s: State, c: Call)
    requires At(s, c, Registered)
    ensures Valid(s, [UnlockReqs(c), UnlockWrite(c)])
    ensures After(s, [UnlockReqs(c), UnlockWrite(c)])
         == s.(calls := WithPc(s, c, Returned), writeLock := None, reqsLock := None)
  {
    TwoSteps(s, UnlockReqs(c), UnlockWrite(c));
  }

  /** One undisturbed `send!` from a quiet state. */
  lemma SendOne(s: State) returns (steps: seq<Step>)
    requires Quiet(s)
    ensures var c := |s.calls|;
      && Valid(s, steps)
      && After(s, steps) == s.(calls := s.calls + [SENT], reqs := s.reqs[Id(c) := c])
  {
    hide Apply, Enabled, Id;
    var c := |s.calls|;
    Numbers(s);
    var s2 := After(s, [Check, Number]);
    Locks(s2, c);
    var s4 := After(s2, [LockWrite(c), LockReqs(c)]);
    Writes(s4, c);
    var s6 := After(s4, [WriteRest(c), Register(c)]);
    Unlocks(s6, c);
    steps := [Check, Number];
    RunsCompose(s, steps, [LockWrite(c), LockReqs(c)]);
    steps := steps + [LockWrite(c), LockReqs(c)];
    RunsCompose(s, steps, [WriteRest(c), Register(c)]);
    steps := steps + [WriteRest(c), Register(c)];
    RunsCompose(s, steps, [UnlockReqs(c), UnlockWrite(c)]);
    steps := steps + [UnlockReqs(c), UnlockWrite(c)];
    assert After(s6, [UnlockReqs(c), UnlockWrite(c)]).calls == s.calls + [SENT];
  }

  lemma SentState(s: State)
    requires Quiet(s)
    ensures var c := |s.calls|; var t := s.(calls := s.calls + [SENT], reqs := s.reqs[Id(c) := c]);
      Quiet(t) && t.calls[c] == SENT && In(t, c, OnWire) && t.reqs[Id(c)] == c
  {
  }

  /** The server takes the request and answers it. */
  lemma Serves(s: State, c: Call)
    requires In(s, c, OnWire)
    ensures Valid(s, [ServerReads(c), ServerAnswers(c)])
    ensures After(s, [ServerReads(c), ServerAnswers(c)]) == s.(calls := WithFlight(s, c, InInbox))
  {
    TwoSteps(s, ServerReads(c), ServerAnswers(c));
  }

  /** The listener reads the response and takes the entry. */
  lemma Takes(s: State, c: Call)
    requires Quiet(s) && In(s, c, InInbox) && Id(c) in s.reqs && s.reqs[Id(c)] == c
    ensures Valid(s, [ReadHead(c), Pop])
    ensures After(s, [ReadHead(c), Pop])
         == s.(calls := WithFlight(s, c, Claimed), listener := Popped(Of(c), c),
               reqs := s.reqs - {Id(c)})
  {
    TwoSteps(s, ReadHead(c), Pop);
  }

  lemma Puts(s: State, c: Call)
    requires s.listener == Popped(Of(c), c) && c < |s.calls| && s.calls[c].chan == Chan([], false)
    ensures Valid(s, [ReadBody, Put])
    ensures After(s, [ReadBody, Put])
         == s.(calls := s.calls[c := s.calls[c].(chan := Chan([Of(c)], false))],
               listener := Delivered(c))
  {
    assert s.calls[c].chan.puts + [Of(c)] == [Of(c)];
    TwoSteps(s, ReadBody, Put);
  }

  lemma Closes(s: State, c: Call)
    requires s.listener == Delivered(c) && c < |s.calls|
    ensures Valid(s, [CloseChan])
    ensures After(s, [CloseChan]) == s.(calls := WithClosed(s, c), listener := Waiting)
  {
    OneStep(s, CloseChan, []);
    assert [CloseChan] + [] == [CloseChan];
  }

  /** The response to a request that is on the wire, undisturbed. */
  lemma ReceiveOne(s: State, c: Call) returns (steps: seq<Step>)
    requires Quiet(s) && c < |s.calls| && s.calls[c] == SENT
    requires Id(c) in s.reqs && s.reqs[Id(c)] == c
    ensures Valid(s, steps)
    ensures After(s, steps)
         == s.(calls := s.calls[c := CallState(Returned, Claimed, Chan([Of(c)], true))],
               reqs := s.reqs - {Id(c)})
  {
    hide Apply, Enabled, Id, Quiet;
    Serves(s, c);
    var s2 := After(s, [ServerReads(c), ServerAnswers(c)]);
    StillQuiet(s, s2);
    Takes(s2, c);
    var s3 := After(s2, [ReadHead(c), Pop]);
    Puts(s3, c);
    var s4 := After(s3, [ReadBody, Put]);
    Closes(s4, c);
    RunsCompose(s, [ServerReads(c), ServerAnswers(c)], [ReadHead(c), Pop]);
    steps := [ServerReads(c), ServerAnswers(c)] + [ReadHead(c), Pop];
    RunsCompose(s, steps, [ReadBody, Put]);
    steps := steps + [ReadBody, Put];
    RunsCompose(s, steps, [CloseChan]);
    steps := steps + [CloseChan];
    WasQuiet(s);
  }

  lemma StillQuiet(s: State, t: State)
    requires Quiet(s) && t == s.(calls := t.calls)
    ensures Quiet(t)
  {
  }

  lemma WasQuiet(s: State)
    requires Quiet(s)
    ensures s.listener == Waiting
  {
  }

  /** One undisturbed request from a quiet state: it can be sent, served and answered, and then its
      channel holds its response and is closed, its entry is gone, and everything else is as it was. */
  lemma RequestServed(s: State) returns (steps: seq<Step>)
    requires Quiet(s) && Id(|s.calls|) !in s.reqs
    ensures Valid(s, steps)
    ensures After(s, steps)
         == s.(calls := s.calls + [CallState(Returned, Claimed, Chan([Of(|s.calls|)], true))])
  {
    hide Apply, Enabled, Id, Quiet;
    var c := |s.calls|;
    var sent := SendOne(s);
    SentState(s);
    var got := ReceiveOne(After(s, sent), c);
    RunsCompose(s, sent, got);
    steps := sent + got;
    assert s.reqs[Id(c) := c] - {Id(c)} == s.reqs;
  }

  lemma TwoSteps(s: State, a: Step, b: Step)
    requires Enabled(s, a) && Enabled(Apply(s, a), b)
    ensures Valid(s, [a, b]) && After(s, [a, b]) == Apply(Apply(s, a), b)
  {
    OneStep(Apply(s, a), b, []);
    OneStep(s, a, [b]);
    assert [b] + [] == [b] && [a] + [b] == [a, b];
  }

  /** `n` calls whose headers are too long: each uses up an id and sends nothing. */
  lemma {:induction false} RefuseMany(s: State, n: nat) returns (steps: seq<Step>)
    requires Quiet(s)
    ensures Valid(s, steps)
    ensures After(s, steps) == s.(calls := s.calls + seq(n, _ => REFUSED))
    decreases n
  {
    if n == 0 {
      steps := [];
      assert s.calls + seq(0, _ => REFUSED) == s.calls;
    } else {
      var c := |s.calls|;
      var s2 := Apply(Apply(s, Check), Number);
      var t := Apply(s2, Reject(c));
      TwoSteps(s, Check, Number);
      OneStep(s2, Reject(c), []);
      assert [Reject(c)] + [] == [Reject(c)];
      RunsCompose(s, [Check, Number], [Reject(c)]);
      assert t.calls == s.calls + [REFUSED];
      assert t == s.(calls := s.calls + [REFUSED]);
      var more := RefuseMany(t, n - 1);
      RunsCompose(s, [Check, Number] + [Reject(c)], more);
      steps := [Check, Number] + [Reject(c)] + more;
      assert s.calls + [REFUSED] + seq(n - 1, _ => REFUSED) == s.calls + seq(n, _ => REFUSED);
    }
  }

  /** `send!` does not check for a duplicate id. With one call more than there are ids, the first
      request's entry is replaced while it is still unanswered, and its channel is lost: neither
      delivered, nor closed, nor held, nor in the table. */
  lemma IdReuseLosesAChannel() returns (steps: seq<Step>)
    ensures Valid(INIT, steps)
    ensures var s := After(INIT, steps);
      && |s.calls| == TWO_64 + 1
      && s.calls[0].pc == Returned && s.calls[0].flight == OnWire
      && !InTable(s, 0) && !Settled(s, 0)
  {
    hide Apply, Enabled;
    var first := SendOne(INIT);
    var s1 := After(INIT, first);
    var filler := RefuseMany(s1, TWO_64 - 1);
    RunsCompose(INIT, first, filler);
    var s2 := After(s1, filler);
    var last := SendOne(s2);
    RunsCompose(INIT, first + filler, last);
    steps := first + filler + last;
    assert Id(|s2.calls|) == 0;
    assert s2.calls[0] == SENT;
  }
}
