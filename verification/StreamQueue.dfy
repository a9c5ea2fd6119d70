/** The queue of a Go stream (go/stream.go): a bounded channel and an overflow list. */
module StreamQueue {
  import opened Bytes

  /** The channel's buffered values, the overflow list, and whether a goroutine panicked. */
  datatype Queue<T> = Queue(chan: seq<T>, buf: seq<T>, panicked: bool)

  function All<T>(q: Queue<T>): seq<T> {
    q.chan + q.buf
  }

  /** The drain loop of `addMsg` from the list element `i`, then the message itself. The loop moves on
      twice for each element it takes out: it steps over one that stays, and panics when the one it
      took was the last. */
  function Drain<T>(chan: seq<T>, buf: seq<T>, i: nat, msg: T, cap: nat): (q: Queue<T>)
    requires i <= |buf|
    decreases |buf| - i
  {
    if i == |buf| then
      if |chan| < cap then Queue(chan + [msg], buf, false) else Queue(chan, buf + [msg], false)
    else if |chan| < cap then
      var less := Without(buf, i);
      if i == |less| then Queue(chan + [buf[i]], less, true)
      else Drain(chan + [buf[i]], less, i + 1, msg, cap)
    else Queue(chan, buf + [msg], false)
  }

  /** `addMsg` once it is past its check of the flag and has the lock of the list: whatever is queued, it
      begins with a send, and a send on a closed channel panics. */
  function Added<T>(chan: seq<T>, buf: seq<T>, msg: T, chanClosed: bool, cap: nat): Queue<T> {
    if chanClosed then Queue(chan, buf, true) else Drain(chan, buf, 0, msg, cap)
  }

  /** `Stuck` is a `Recv` that took a message but finds the channel full again in `moveMsg`. */
  datatype Received<T> = Got(msg: T) | TimedOut | WouldBlock | Stuck | Closed | Panicked

  // ----- The code -----

  class Stream<T> {
    const cap: nat
    var msgChan: seq<T>
    var msgBuffer: seq<T>
    var isClosed: bool
    var chanClosed: bool

    constructor (cap: nat)
      ensures this.cap == cap && msgChan == [] && msgBuffer == [] && !isClosed && !chanClosed
    {
      this.cap := cap;
      msgChan, msgBuffer, isClosed, chanClosed := [], [], false, false;
    }

    /** `addMsg`; a closed stream refuses the message. `closes` says that another goroutine closes the
        stream after the check. */
    method AddMsg(msg: T, closes: bool) returns (ok: bool, panicked: bool)
      requires chanClosed ==> isClosed
      modifies this
      ensures ok == !old(isClosed) && isClosed == (old(isClosed) || closes)
      ensures chanClosed == (old(chanClosed) || (ok && closes))
      ensures Queue(msgChan, msgBuffer, panicked)
           == if ok then Added(old(msgChan), old(msgBuffer), msg, closes, cap)
              else Queue(old(msgChan), old(msgBuffer), false)
    {
      ok, panicked := !isClosed, false;
      if closes {
        isClosed := true;
        chanClosed := chanClosed || ok;
      }
      if !ok { return; }
      if chanClosed {
        panicked := true;
        return;
      }
      var e := 0;
      while e < |msgBuffer|
        invariant e <= |msgBuffer| && isClosed == closes == chanClosed == false
        invariant Drain(old(msgChan), old(msgBuffer), 0, msg, cap)
               == Drain(msgChan, msgBuffer, e, msg, cap)
        decreases |msgBuffer| - e
      {
        if |msgChan| < cap {
          msgChan := msgChan + [msgBuffer[e]];
          msgBuffer := Without(msgBuffer, e);
          if e == |msgBuffer| {
            panicked := true;
            return;
          }
          e := e + 1;
        } else {
          msgBuffer := msgBuffer + [msg];
          return;
        }
      }
      if |msgChan| < cap {
        msgChan := msgChan + [msg];
      } else {
        msgBuffer := msgBuffer + [msg];
      }
    }

    /** `Recv`: unless its deadline passes first, take from the channel, then `moveMsg`; a send on a
        closed channel panics. */
    method Recv(timesOut: bool) returns (r: Received<T>)
      modifies this`msgChan, this`msgBuffer
      ensures (Queue(msgChan, msgBuffer, r.Panicked?), r)
           == Step(Queue(old(msgChan), old(msgBuffer), false), timesOut, chanClosed, cap)
    {
      if timesOut {
        return TimedOut;
      }
      if |msgChan| == 0 {
        return if chanClosed then Closed else WouldBlock;
      }
      var msg := msgChan[0];
      msgChan := msgChan[1..];
      if |msgBuffer| != 0 {
        if chanClosed {
          return Panicked;
        }
        if |msgChan| >= cap {
          return Stuck;
        }
        msgChan := msgChan + [msgBuffer[0]];
        msgBuffer := msgBuffer[1..];
      }
      return Got(msg);
    }
  }

  /** What `Recv` does. */
  function Step<T>(q: Queue<T>, timesOut: bool, closed: bool, cap: nat): (Queue<T>, Received<T>) {
    if timesOut then (q.(panicked := false), TimedOut)
    else if q.chan == [] then (q.(panicked := false), if closed then Closed else WouldBlock)
    else
      var rest := q.chan[1..];
      if q.buf == [] then (Queue(rest, [], false), Got(q.chan[0]))
      else if closed then (Queue(rest, q.buf, true), Panicked)
      else if |rest| >= cap then (Queue(rest, q.buf, false), Stuck)
      else (Queue(rest + [q.buf[0]], q.buf[1..], false), Got(q.chan[0]))
  }

  /** What `Recv` returns, for any queue: a message exactly if the channel has one and the move behind it
      can be made or is not needed; and what is left follows. */
  lemma ReceiveOutcome<T>(q: Queue<T>, closed: bool, cap: nat)
    ensures var (t, r) := Step(q, false, closed, cap);
      && (r == Closed <==> q.chan == [] && closed)
      && (r == WouldBlock <==> q.chan == [] && !closed)
      && (r == Panicked <==> q.chan != [] && q.buf != [] && closed)
      && (r == Stuck <==> q.chan != [] && q.buf != [] && !closed && |q.chan| > cap)
      && (r.Got? ==> r.msg == q.chan[0] && All(t) == All(q)[1..] && !t.panicked)
      && (r.Closed? || r.WouldBlock? ==> All(t) == All(q))
  {
    if q.chan != [] && q.buf != [] && !closed && |q.chan| <= cap {
      assert q.chan[1..] + [q.buf[0]] + q.buf[1..] == All(q)[1..];
    }
  }

  // ----- One message -----

  ghost function Bag<T>(chan: seq<T>, buf: seq<T>): multiset<T> {
    multiset(chan) + multiset(buf)
  }

  lemma BagMove<T>(chan: seq<T>, buf: seq<T>, i: nat)
    requires i < |buf|
    ensures Bag(chan + [buf[i]], Without(buf, i)) == Bag(chan, buf)
  {
    assert buf == buf[..i] + [buf[i]] + buf[i + 1..];
  }

  /** Even when order is lost, no message is lost or duplicated, except the added one on a panic. */
  lemma {:induction false} DrainKeepsAll<T>(chan: seq<T>, buf: seq<T>, i: nat, msg: T, cap: nat)
    requires i <= |buf|
    ensures var q := Drain(chan, buf, i, msg, cap);
      Bag(q.chan, q.buf) == Bag(chan, buf) + (if q.panicked then multiset{} else multiset{msg})
    decreases |buf| - i
  {
    if i < |buf| && |chan| < cap {
      BagMove(chan, buf, i);
      hide Bag;
      var less := Without(buf, i);
      if i < |less| {
        DrainKeepsAll(chan + [buf[i]], less, i + 1, msg, cap);
      }
    }
  }

  /** What is in the channel stays in front. */
  lemma {:induction false} DrainExtends<T>(chan: seq<T>, buf: seq<T>, i: nat, msg: T, cap: nat)
    requires i <= |buf|
    ensures chan <= Drain(chan, buf, i, msg, cap).chan
    decreases |buf| - i
  {
    if i < |buf| && |chan| < cap && i < |Without(buf, i)| {
      DrainExtends(chan + [buf[i]], Without(buf, i), i + 1, msg, cap);
    }
  }

  lemma {:induction false} DrainPanicsIff<T>(chan: seq<T>, buf: seq<T>, i: nat, msg: T, cap: nat)
    requires i <= |buf| && |chan| <= cap
    ensures var n := |buf| - i; var r := Drain(chan, buf, i, msg, cap).panicked;
      r <==> n % 2 == 1 && cap - |chan| >= (n + 1) / 2
    decreases |buf| - i
  {
    if i < |buf| && |chan| < cap {
      var less := Without(buf, i);
      if i < |less| {
        DrainPanicsIff(chan + [buf[i]], less, i + 1, msg, cap);
      }
    }
  }

  /** An `addMsg` past its check panics exactly when the channel was closed since, or the list has an odd
      number of elements and the channel has room for every other one. */
  lemma AddPanicsIff<T>(chan: seq<T>, buf: seq<T>, msg: T, chanClosed: bool, cap: nat)
    requires |chan| <= cap
    ensures var n := |buf|; var r := Added(chan, buf, msg, chanClosed, cap).panicked;
      r <==> chanClosed || (n % 2 == 1 && cap - |chan| >= (n + 1) / 2)
  {
    DrainPanicsIff(chan, buf, 0, msg, cap);
  }

  lemma OneRoom<T>(chan: seq<T>, buf: seq<T>, msg: T, cap: nat)
    requires |chan| + 1 == cap && |buf| >= 2
    ensures var q := Drain(chan, buf, 0, msg, cap);
      q == Queue(chan + [buf[0]], buf[1..] + [msg], false) && All(q) == chan + buf + [msg]
  {
    assert Without(buf, 0) == buf[1..];
    assert [buf[0]] + buf[1..] == buf;
  }

  /** With room for two, the second element of the list is overtaken. */
  lemma Overtakes<T>(chan: seq<T>, buf: seq<T>, msg: T, cap: nat)
    requires |chan| + 1 < cap && |buf| >= 2 && NoDup(chan + buf + [msg])
    ensures All(Drain(chan, buf, 0, msg, cap)) != chan + buf + [msg]
  {
    var all, k := chan + buf + [msg], |chan| + 1;
    var c, b := chan + [buf[0]], buf[1..];
    assert Without(buf, 0) == b;
    var q := Drain(c, b, 1, msg, cap);
    var next := if |buf| == 2 then msg else buf[2];
    assert all[k] == buf[1] && next == all[|chan| + 2];
    if |buf| > 2 {
      var less := Without(b, 1);
      if 1 < |less| {
        DrainExtends(c + [b[1]], less, 2, msg, cap);
      }
    }
    assert c + [next] <= q.chan;
    assert (c + [next])[k] == next;
    assert All(q)[k] == next;
  }

  /** `addMsg` puts the message at the end of the queue exactly when the list is empty, the channel is
      full, or it has room for one and the list holds at least two. */
  lemma AddKeepsOrderIff<T>(chan: seq<T>, buf: seq<T>, msg: T, cap: nat)
    requires |chan| <= cap && NoDup(chan + buf + [msg])
    ensures var q := Drain(chan, buf, 0, msg, cap); var r := !q.panicked && All(q) == chan + buf + [msg];
      r <==> buf == [] || |chan| == cap || (|chan| + 1 == cap && |buf| >= 2)
  {
    if buf == [] {
      AddToEmpty(chan, msg, cap);
    } else if |chan| == cap {
      assert chan + (buf + [msg]) == chan + buf + [msg];
    } else if |buf| == 1 {
      DrainPanicsIff(chan, buf, 0, msg, cap);
    } else if |chan| + 1 == cap {
      OneRoom(chan, buf, msg, cap);
    } else {
      Overtakes(chan, buf, msg, cap);
    }
  }

  lemma AddToEmpty<T>(chan: seq<T>, msg: T, cap: nat)
    ensures var q := Drain(chan, [], 0, msg, cap);
      !q.panicked && All(q) == chan + [] + [msg] && |q.chan| == (if |chan| < cap then |chan| + 1 else |chan|)
  {
  }

  // ----- Whole runs -----

  datatype Op<T> = Add(msg: T) | Receive(timesOut: bool)

  /** What was added, what was received, and the queue, after a run on an open stream. */
  datatype Run<T> = Run(added: seq<T>, received: seq<T>, q: Queue<T>)

  function After<T>(ops: seq<Op<T>>, cap: nat): Run<T> {
    if ops == [] then Run([], [], Queue([], [], false))
    else
      var r := After(ops[..|ops| - 1], cap);
      match ops[|ops| - 1]
      case Add(msg) =>
        var q := Drain(r.q.chan, r.q.buf, 0, msg, cap);
        Run(r.added + [msg], r.received, q.(panicked := r.q.panicked || q.panicked))
      case Receive(timesOut) =>
        var (q, got) := Step(r.q, timesOut, false, cap);
        Run(r.added, if got.Got? then r.received + [got.msg] else r.received,
            q.(panicked := r.q.panicked || q.panicked))
  }

  /** A message overflows only while the channel is full. */
  predicate Inv<T>(q: Queue<T>, cap: nat) {
    !q.panicked && |q.chan| <= cap && (q.buf != [] ==> |q.chan| == cap)
  }

  lemma AddStep<T>(q: Queue<T>, msg: T, cap: nat)
    requires Inv(q, cap)
    ensures var t := Drain(q.chan, q.buf, 0, msg, cap);
      Inv(t, cap) && All(t) == All(q) + [msg]
  {
    if q.buf == [] {
      AddToEmpty(q.chan, msg, cap);
      assert q.chan + [] == q.chan;
    } else {
      assert q.chan + (q.buf + [msg]) == q.chan + q.buf + [msg];
    }
  }

  /** On an open stream `Recv` waits exactly when nothing is queued; else it returns the first, and
      its `moveMsg` finds room. A call that times out takes nothing. */
  lemma ReceiveStep<T>(q: Queue<T>, cap: nat)
    requires Inv(q, cap) && cap > 0
    ensures Step(q, true, false, cap) == (q, TimedOut)
    ensures var (t, got) := Step(q, false, false, cap);
      && Inv(t, cap)
      && (All(q) == [] ==> got == WouldBlock && t == q)
      && (All(q) != [] ==> got == Got(All(q)[0]) && All(t) == All(q)[1..])
  {
    if q.chan != [] && q.buf != [] {
      assert q.chan[1..] + [q.buf[0]] + q.buf[1..] == All(q)[1..];
    }
  }

  /** One FIFO queue: over any run nothing is lost, duplicated or reordered, and nothing panics. */
  lemma {:induction false} RunIsFifo<T>(ops: seq<Op<T>>, cap: nat)
    requires cap > 0
    ensures var r := After(ops, cap);
      r.received + All(r.q) == r.added && Inv(r.q, cap)
  {
    hide Drain, Step, All, Inv;
    if ops == [] {
      Empty(After(ops, cap).q, cap);
    } else {
      var r := After(ops[..|ops| - 1], cap);
      RunIsFifo(ops[..|ops| - 1], cap);
      NoPanic(r.q, cap);
      match ops[|ops| - 1]
      case Add(msg) =>
        AddStep(r.q, msg, cap);
        NoPanic(Drain(r.q.chan, r.q.buf, 0, msg, cap), cap);
        ReAssoc(r.received, All(r.q), msg);
      case Receive(timesOut) =>
        ReceiveStep(r.q, cap);
        NoPanic(Step(r.q, timesOut, false, cap).0, cap);
        if All(r.q) != [] {
          ReSplit(r.received, All(r.q));
        }
    }
  }

  lemma Empty<T>(q: Queue<T>, cap: nat)
    requires q == Queue([], [], false)
    ensures All(q) == [] && Inv(q, cap)
  {
  }

  lemma NoPanic<T>(q: Queue<T>, cap: nat)
    requires Inv(q, cap)
    ensures !q.panicked
  {
  }

  lemma ReAssoc<T>(a: seq<T>, b: seq<T>, x: T)
    ensures a + (b + [x]) == a + b + [x]
  {
  }

  lemma ReSplit<T>(a: seq<T>, b: seq<T>)
    requires b != []
    ensures a + [b[0]] + b[1..] == a + b
  {
    assert b == [b[0]] + b[1..];
  }

  // ----- Where it breaks -----

  /** What becomes of a `Recv` when an `addMsg` runs between its take and its `moveMsg`. */
  function Interrupted<T>(q: Queue<T>, msg: T, cap: nat): Received<T>
    requires q.chan != []
  {
    var t := Drain(q.chan[1..], q.buf, 0, msg, cap);
    if t.panicked then Panicked
    else if t.buf != [] && |t.chan| >= cap then Stuck
    else Got(q.chan[0])
  }

  /** The `Recv` returns its message exactly when nothing had overflowed. With one message in the list
      `addMsg` panics. With more it fills the channel again, and `moveMsg` waits for room while it holds
      the lock of the list, so that every later `addMsg` waits for it too. */
  lemma InterruptedIff<T>(q: Queue<T>, msg: T, cap: nat)
    requires Inv(q, cap) && q.chan != []
    ensures var r := Interrupted(q, msg, cap);
      && (r == Got(q.chan[0]) <==> q.buf == [])
      && (r == Panicked <==> |q.buf| == 1)
      && (r == Stuck <==> |q.buf| >= 2)
  {
    var rest := q.chan[1..];
    if q.buf == [] {
      AddToEmpty(rest, msg, cap);
    } else {
      DrainPanicsIff(rest, q.buf, 0, msg, cap);
      if |q.buf| >= 2 {
        OneRoom(rest, q.buf, msg, cap);
      }
    }
  }

  lemma {:induction false} AddsCount<T>(msgs: seq<T>, cap: nat) returns (ops: seq<Op<T>>)
    ensures After(ops, cap).added == msgs && After(ops, cap).received == []
  {
    if msgs == [] {
      ops := [];
    } else {
      var n := |msgs| - 1;
      var init := AddsCount(msgs[..n], cap);
      ops := init + [Add(msgs[n])];
      assert ops[..|ops| - 1] == init && msgs == msgs[..n] + [msgs[n]];
    }
  }

  /** Both happen: an `addMsg` inside the first `Recv` panics when one message more than the channel
      holds was added before, and leaves the `Recv` waiting when more were. */
  lemma InterruptionReachable<T>(msgs: seq<T>, msg: T, cap: nat) returns (ops: seq<Op<T>>)
    requires cap > 0 && |msgs| > cap
    ensures var q := After(ops, cap).q;
      q.chan != [] && Interrupted(q, msg, cap) == if |msgs| == cap + 1 then Panicked else Stuck
  {
    ops := AddsCount(msgs, cap);
    RunIsFifo(ops, cap);
    var q := After(ops, cap).q;
    assert |All(q)| == |msgs| by { assert [] + All(q) == All(q); }
    InterruptedIff(q, msg, cap);
  }

  /** Calls of `Recv` after the stream is closed: what they return until one fails. */
  function DrainClosed<T>(q: Queue<T>, cap: nat): seq<Received<T>>
    decreases |q.chan|
  {
    var (t, got) := Step(q, false, true, cap);
    [got] + if got.Got? then DrainClosed(t, cap) else []
  }

  /** After closing, the queued messages are all received and then the end is reported, exactly when
      nothing had overflowed; else the first `Recv` panics. */
  lemma {:induction false} CloseIsCleanIff<T>(q: Queue<T>, cap: nat)
    requires Inv(q, cap) && cap > 0
    ensures var rs := DrainClosed(q, cap);
      && |rs| > 0
      && (q.buf != [] ==> rs == [Panicked])
      && (q.buf == [] ==> |rs| == |All(q)| + 1 && rs[|All(q)|] == Closed
                          && forall k | 0 <= k < |All(q)| :: rs[k] == Got(All(q)[k]))
    decreases |q.chan|
  {
    if q.buf == [] && q.chan != [] {
      var t := Queue(q.chan[1..], [], false);
      CloseIsCleanIff(t, cap);
      assert DrainClosed(q, cap) == [Got(q.chan[0])] + DrainClosed(t, cap);
      assert All(t) == All(q)[1..];
    }
  }
}
