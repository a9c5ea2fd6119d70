/** A stream's queue under interleaving (go/stream.go): any number of receivers, each of which takes a
    message and later moves one from the overflow list; the closing call; and the reader, whose `addMsg`
    is past its check of the flag. */
module StreamLane {
  import opened Bytes
  import opened StreamQueue

  /** `added` and `received` are history. `waiting` says that a receiver waits in `moveMsg` for room, with
      the lock of the list. */
  datatype Lane<T> = Lane(
    added: seq<T>, received: seq<T>,
    chan: seq<T>, buf: seq<T>,
    moves: nat,               // receivers that took a message and have not come to `moveMsg`
    waiting: bool,
    isClosed: bool,           // the flag
    chanClosed: bool,         // `close(s.msgChan)` ran
    panicked: bool)

  datatype Event<T> = Take | Move | MarkClosed | CloseChan | Put(msg: T)

  /** Whether a goroutine can make the step now: a lock that is held and an empty channel make it wait,
      and only the call that set the flag closes the channel. */
  predicate Can<T>(l: Lane<T>, e: Event<T>) {
    match e
    case Take => l.chan != []
    case Move => l.moves > 0 && !l.waiting
    case MarkClosed => !l.isClosed
    case CloseChan => l.isClosed && !l.chanClosed
    case Put(_) => !l.waiting
  }

  /** The step, if it can be made. A receiver that takes while another waits for room leaves it the room;
      closing a channel panics the sender that waits on it. */
  function Next<T>(l: Lane<T>, e: Event<T>, cap: nat): Lane<T> {
    if l.panicked || !Can(l, e) then l
    else
      match e
      case Take =>
        var t := l.(received := l.received + l.chan[..1], chan := l.chan[1..], moves := l.moves + 1);
        if l.waiting && l.buf != [] then
          t.(chan := t.chan + l.buf[..1], buf := l.buf[1..], waiting := false)
        else t
      case Move =>
        if l.buf == [] then l.(moves := l.moves - 1)
        else if l.chanClosed then l.(panicked := true)
        else if |l.chan| < cap then
          l.(moves := l.moves - 1, chan := l.chan + l.buf[..1], buf := l.buf[1..])
        else l.(moves := l.moves - 1, waiting := true)
      case MarkClosed => l.(isClosed := true)
      case CloseChan => l.(chanClosed := true, panicked := l.waiting)
      case Put(msg) =>
        var q := Added(l.chan, l.buf, msg, l.chanClosed, cap);
        l.(added := if q.panicked then l.added else l.added + [msg],
           chan := q.chan, buf := q.buf, panicked := q.panicked)
  }

  function Run<T>(l: Lane<T>, es: seq<Event<T>>, cap: nat): Lane<T>
    decreases |es|
  {
    if es == [] then l else Run(Next(l, es[0], cap), es[1..], cap)
  }

  function Fresh<T>(): Lane<T> {
    Lane([], [], [], [], 0, false, false, false, false)
  }

  /** Each free place of the channel, while the list holds messages, has a receiver on its way to fill
      it; and one waits only for a full channel. */
  predicate Inv<T>(l: Lane<T>, cap: nat) {
    && |l.chan| <= cap
    && (l.chanClosed ==> l.isClosed)
    && (l.waiting && !l.panicked ==> l.buf != [] && |l.chan| == cap && !l.chanClosed)
    && (l.buf != [] && !l.panicked ==> |l.chan| + l.moves >= cap)
  }

  ghost predicate Conserved<T>(l: Lane<T>) {
    !l.panicked ==> multiset(l.added) == multiset(l.received) + Bag(l.chan, l.buf)
  }

  // ----- One step -----

  lemma {:induction false} DrainRoom<T>(chan: seq<T>, buf: seq<T>, i: nat, msg: T, cap: nat)
    requires i <= |buf| && |chan| <= cap
    ensures var q := Drain(chan, buf, i, msg, cap); |chan| <= |q.chan| <= cap
    decreases |buf| - i
  {
    if i < |buf| && |chan| < cap && i < |Without(buf, i)| {
      DrainRoom(chan + [buf[i]], Without(buf, i), i + 1, msg, cap);
    }
  }

  lemma NextKeepsInv<T>(l: Lane<T>, e: Event<T>, cap: nat)
    requires Inv(l, cap) && cap > 0
    ensures Inv(Next(l, e, cap), cap)
  {
    match e
    case Put(msg) =>
      if l.buf == [] {
        AddToEmpty(l.chan, msg, cap);
      }
      DrainRoom(l.chan, l.buf, 0, msg, cap);
    case _ =>
  }

  lemma SplitFirst<T>(s: seq<T>)
    requires s != []
    ensures multiset(s) == multiset(s[..1]) + multiset(s[1..])
  {
    assert s == s[..1] + s[1..];
  }

  lemma TakeConserves<T>(l: Lane<T>, cap: nat)
    requires Conserved(l)
    ensures Conserved(Next(l, Take, cap))
  {
    if !l.panicked && l.chan != [] {
      SplitFirst(l.chan);
      assert multiset(l.received + l.chan[..1]) == multiset(l.received) + multiset(l.chan[..1]);
      if l.waiting && l.buf != [] {
        SplitFirst(l.buf);
        assert multiset(l.chan[1..] + l.buf[..1]) == multiset(l.chan[1..]) + multiset(l.buf[..1]);
      }
    }
  }

  lemma MoveConserves<T>(l: Lane<T>, cap: nat)
    requires Conserved(l)
    ensures Conserved(Next(l, Move, cap))
  {
    if l.buf != [] {
      SplitFirst(l.buf);
      assert multiset(l.chan + l.buf[..1]) == multiset(l.chan) + multiset(l.buf[..1]);
    }
  }

  lemma PutConserves<T>(l: Lane<T>, msg: T, cap: nat)
    requires Conserved(l)
    ensures Conserved(Next(l, Put(msg), cap))
  {
    DrainKeepsAll(l.chan, l.buf, 0, msg, cap);
    assert multiset(l.added + [msg]) == multiset(l.added) + multiset{msg};
    hide Bag;
  }

  lemma NextConserves<T>(l: Lane<T>, e: Event<T>, cap: nat)
    requires Conserved(l)
    ensures Conserved(Next(l, e, cap))
  {
    match e
    case Take => TakeConserves(l, cap);
    case Move => MoveConserves(l, cap);
    case Put(msg) => PutConserves(l, msg, cap);
    case _ =>
  }

  /** What a caller could see before a step that panics. */
  predicate Hazard<T>(l: Lane<T>, e: Event<T>, cap: nat) {
    match e
    case Put(_) => l.chanClosed || (|l.buf| % 2 == 1 && cap - |l.chan| >= (|l.buf| + 1) / 2)
    case Move => l.buf != [] && l.chanClosed
    case CloseChan => l.waiting
    case _ => false
  }

  /** A step panics exactly when a message is added to a channel closed since the check, or to an odd list
      beside enough room; when one is moved to a closed channel; or when the channel is closed under a
      receiver that waits. */
  lemma PanicsIff<T>(l: Lane<T>, e: Event<T>, cap: nat)
    requires Inv(l, cap) && !l.panicked
    ensures Next(l, e, cap).panicked <==> Can(l, e) && Hazard(l, e, cap)
  {
    if e.Put? {
      AddPanicsIff(l.chan, l.buf, e.msg, l.chanClosed, cap);
    }
  }

  /** Closing between the check of `addMsg` and its first send panics, whatever is queued. */
  lemma ClosedSinceCheckPanics<T>(l: Lane<T>, msg: T, cap: nat)
    requires !l.panicked && !l.isClosed && !l.chanClosed && !l.waiting
    ensures Run(l, [MarkClosed, CloseChan, Put(msg)], cap).panicked
  {
    RunThree(l, MarkClosed, CloseChan, Put(msg), cap);
  }

  lemma RunThree<T>(l: Lane<T>, a: Event<T>, b: Event<T>, c: Event<T>, cap: nat)
    ensures Run(l, [a, b, c], cap) == Next(Next(Next(l, a, cap), b, cap), c, cap)
  {
    assert [a, b, c][1..] == [b, c] && [b, c][1..] == [c] && [c][1..] == [];
    var t := Next(Next(l, a, cap), b, cap);
    assert Run(Next(t, c, cap), [], cap) == Next(t, c, cap);
    assert Run(t, [c], cap) == Next(t, c, cap);
    assert Run(Next(l, a, cap), [b, c], cap) == Run(t, [c], cap);
  }

  /** An `addMsg` inside a `Recv` panics with one message in the list; with more it fills the channel, and
      the receiver then waits with the lock, which every later `addMsg` waits for. */
  lemma PutInsideReceive<T>(l: Lane<T>, msg: T, cap: nat)
    requires Inv(l, cap) && cap > 0 && l.moves == 0 && l.buf != []
    requires !l.panicked && !l.waiting && !l.isClosed
    ensures var t := Run(l, [Take, Put(msg), Move], cap);
      if |l.buf| == 1 then t.panicked else !t.panicked && t.waiting
  {
    RunThree(l, Take, Put(msg), Move, cap);
    var u := Next(l, Take, cap);
    if |l.buf| == 1 {
      PanicsIff(u, Put(msg), cap);
    } else {
      OneRoom(u.chan, u.buf, msg, cap);
    }
  }

  // ----- Whole runs -----

  /** Over any interleaving that does not panic no message is lost or duplicated, and the places of the
      channel are accounted for. */
  lemma {:induction false} RunConserves<T>(l: Lane<T>, es: seq<Event<T>>, cap: nat)
    requires Inv(l, cap) && Conserved(l) && cap > 0
    ensures var t := Run(l, es, cap); Inv(t, cap) && Conserved(t)
    decreases |es|
  {
    hide Next, Inv, Conserved;
    if es != [] {
      NextKeepsInv(l, es[0], cap);
      NextConserves(l, es[0], cap);
      RunConserves(Next(l, es[0], cap), es[1..], cap);
    }
  }

  /** The run ends in a panic exactly when some step of it could be made in a state of hazard. */
  predicate MeetsHazard<T(==)>(l: Lane<T>, es: seq<Event<T>>, cap: nat)
    decreases |es|
  {
    es != []
    && ((Can(l, es[0]) && Hazard(l, es[0], cap)) || MeetsHazard(Next(l, es[0], cap), es[1..], cap))
  }

  lemma {:induction false} PanicStays<T>(l: Lane<T>, es: seq<Event<T>>, cap: nat)
    requires l.panicked
    ensures Run(l, es, cap) == l
    decreases |es|
  {
    if es != [] { PanicStays(l, es[1..], cap); }
  }

  lemma {:induction false} RunPanicsIff<T>(l: Lane<T>, es: seq<Event<T>>, cap: nat)
    requires Inv(l, cap) && !l.panicked && cap > 0
    ensures Run(l, es, cap).panicked <==> MeetsHazard(l, es, cap)
    decreases |es|
  {
    hide Next, Inv, Can, Hazard;
    if es != [] {
      var t := Next(l, es[0], cap);
      PanicsIff(l, es[0], cap);
      NextKeepsInv(l, es[0], cap);
      if t.panicked {
        PanicStays(t, es[1..], cap);
      } else {
        RunPanicsIff(t, es[1..], cap);
      }
    }
  }

  // ----- Who holds what -----

  /** While a receiver waits for room it holds the lock of the list: only a take or the closing changes
      anything. */
  lemma WaitingHoldsLock<T>(l: Lane<T>, msg: T, cap: nat)
    requires l.waiting
    ensures Next(l, Move, cap) == l && Next(l, Put(msg), cap) == l
  {
  }

  /** How many moves of a run could be made. */
  function Moves<T>(l: Lane<T>, es: seq<Event<T>>, cap: nat): nat
    decreases |es|
  {
    if es == [] then 0
    else
      (if es[0].Move? && !l.panicked && Can(l, es[0]) then 1 else 0)
      + Moves(Next(l, es[0], cap), es[1..], cap)
  }

  /** Each message taken is followed by one move: the receivers on their way are those that have taken one
      and not yet come to move. */
  lemma {:induction false} MovesCounted<T>(l: Lane<T>, es: seq<Event<T>>, cap: nat)
    requires !Run(l, es, cap).panicked
    ensures var t := Run(l, es, cap);
      |t.received| - t.moves == |l.received| - l.moves + Moves(l, es, cap)
    decreases |es|
  {
    if es != [] {
      var t := Next(l, es[0], cap);
      if t.panicked { PanicStays(t, es[1..], cap); }
      MovesCounted(t, es[1..], cap);
    }
  }

  // ----- Order -----

  predicate InOrder<T(==)>(l: Lane<T>) {
    l.received + (l.chan + l.buf) == l.added
  }

  /** The states in which adding keeps the order. */
  predicate Orderly<T>(l: Lane<T>, cap: nat) {
    l.buf == [] || |l.chan| == cap || (|l.chan| + 1 == cap && |l.buf| >= 2)
  }

  /** While no receiver is between its take and its move, adding keeps the order. */
  lemma QuietIsOrderly<T>(l: Lane<T>, cap: nat)
    requires Inv(l, cap) && !l.panicked && l.moves == 0
    ensures Orderly(l, cap)
  {
  }

  lemma AddInOrder<T>(l: Lane<T>, msg: T, cap: nat)
    requires InOrder(l) && Orderly(l, cap) && |l.chan| <= cap
    requires !Next(l, Put(msg), cap).panicked
    ensures InOrder(Next(l, Put(msg), cap))
  {
    if !l.waiting {
      if l.buf == [] {
        AddToEmpty(l.chan, msg, cap);
        assert l.chan + [] == l.chan;
      } else if |l.chan| == cap {
        assert l.chan + (l.buf + [msg]) == l.chan + l.buf + [msg];
      } else {
        OneRoom(l.chan, l.buf, msg, cap);
      }
      ReAssoc(l.received, l.chan + l.buf, msg);
    }
  }

  lemma Shift<T>(a: seq<T>, b: seq<T>, c: seq<T>)
    ensures b != [] ==> (a + b[..1]) + (b[1..] + c) == a + (b + c)
    ensures c != [] ==> (b + c[..1]) + c[1..] == b + c
  {
  }

  lemma OthersInOrder<T>(l: Lane<T>, e: Event<T>, cap: nat)
    requires InOrder(l) && !e.Put?
    ensures InOrder(Next(l, e, cap))
  {
    Shift(l.received, l.chan, l.buf);
    if l.chan != [] { Shift(l.received, l.chan[1..], l.buf); }
  }

  predicate AddsOrderly<T(==)>(l: Lane<T>, es: seq<Event<T>>, cap: nat)
    decreases |es|
  {
    es == []
    || ((es[0].Put? ==> Orderly(l, cap)) && AddsOrderly(Next(l, es[0], cap), es[1..], cap))
  }

  /** One FIFO queue under any interleaving of receivers and the closing call, as long as each message is
      added in an orderly state: received, then queued, is what was added. */
  lemma {:induction false} RunInOrder<T>(l: Lane<T>, es: seq<Event<T>>, cap: nat)
    requires Inv(l, cap) && InOrder(l) && cap > 0
    requires AddsOrderly(l, es, cap) && !Run(l, es, cap).panicked
    ensures InOrder(Run(l, es, cap))
    decreases |es|
  {
    hide Next, Inv, InOrder, Orderly;
    if es != [] {
      var t := Next(l, es[0], cap);
      if t.panicked { PanicStays(t, es[1..], cap); }
      NextKeepsInv(l, es[0], cap);
      match es[0] {
        case Put(msg) =>
          Fits(l, cap);
          AddInOrder(l, msg, cap);
        case _ => OthersInOrder(l, es[0], cap);
      }
      RunInOrder(t, es[1..], cap);
    }
  }

  lemma Fits<T>(l: Lane<T>, cap: nat)
    requires Inv(l, cap)
    ensures |l.chan| <= cap
  {
  }

  // ----- After the closing -----

  /** Once the channel is closed what it holds is all that can still be received, in order: no message
      leaves the list any more. With an empty list nothing can panic; else the first receiver that comes
      to `moveMsg` does. */
  lemma {:induction false} ClosedLane<T>(l: Lane<T>, es: seq<Event<T>>, cap: nat)
    requires Inv(l, cap) && l.chanClosed && !l.panicked && forall e | e in es :: !e.Put?
    ensures var t := Run(l, es, cap);
      && t.received + t.chan == l.received + l.chan && t.buf == l.buf && t.chanClosed
      && (l.buf == [] ==> !t.panicked)
      && (t.panicked ==> Move in es)
    decreases |es|
  {
    if es != [] {
      var t := Next(l, es[0], cap);
      Shift(l.received, l.chan, []);
      assert l.chan != [] ==> l.chan[1..] + [] == l.chan[1..] && l.chan + [] == l.chan;
      if t.panicked {
        PanicStays(t, es[1..], cap);
      } else {
        assert Inv(t, cap);
        ClosedLane(t, es[1..], cap);
      }
    }
  }
}
