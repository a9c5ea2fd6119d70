/** What each id of the Go client gets, whatever the others do: its streams their messages, its channel
    its responses; and server and client together. */
module DemuxDelivery {
  import opened Bytes
  import opened Wire
  import Server
  import StreamQueue
  import StreamLane
  import opened Accounting
  import opened ClientDemux
  import opened DemuxTheorems

  // ----- What each id's streams get -----

  lemma {:induction false} NoPanicBefore(s: Tables, es: seq<Ev>)
    requires es != [] && !Happens(s, es).panicked
    ensures !s.panicked && !Happen(s, es[0]).panicked
  {
    hide Happen;
    if Happen(s, es[0]).panicked { PanicStays(Happen(s, es[0]), es[1..]); }
    if s.panicked { PanicStays(s, es); }
  }

  /** Whatever the other ids do: an id's streams live by its own events alone. */
  lemma {:induction false} OwnLine(s: Tables, es: seq<Ev>, id: nat)
    requires !Happens(s, es).panicked && Clean(s) && AllLegal(s, es)
    ensures LineOf(Happens(s, es), id) == LineLived(LineOf(s, id), es, id)
    decreases |es|
  {
    hide Happen, LineOf, NextLine, Clean, Legal;
    if es != [] {
      NoPanicBefore(s, es);
      StepLives(s, es[0], id);
      StepClean(s, es[0]);
      OwnLine(Happen(s, es[0]), es[1..], id);
    }
  }

  ghost predicate Sound(l: Line) {
    forall k | 0 <= k < |l.streams| ::
      StreamLane.Inv(l.streams[k], STREAM_CAP) && StreamLane.Conserved(l.streams[k])
  }

  lemma UsedSound(l: Line, k: nat, e: StreamLane.Event<Message>)
    requires Sound(l)
    ensures Sound(Used(l, k, e))
  {
    hide StreamLane.Inv, StreamLane.Conserved, StreamLane.Next;
    if k < |l.streams| {
      StreamLane.NextKeepsInv(l.streams[k], e, STREAM_CAP);
      StreamLane.NextConserves(l.streams[k], e, STREAM_CAP);
    }
  }

  lemma OpenedSound(l: Line)
    requires Sound(l)
    ensures Sound(Opened(l))
  {
  }

  lemma ClosingSound(l: Line)
    requires Sound(l) && l.streams != []
    ensures Sound(Closing(l))
  {
    hide Sound, Used;
    var k := |l.streams| - 1;
    UsedSound(l, k, StreamLane.MarkClosed);
    UsedSound(Used(l, k, StreamLane.MarkClosed), k, StreamLane.CloseChan);
  }

  lemma NextSound(l: Line, e: Ev, id: nat)
    requires Sound(l)
    ensures Sound(NextLine(l, e, id))
  {
    hide StreamLane.Inv, StreamLane.Conserved, StreamLane.Next, Used, Closing;
    match e
    case Do(Use(_, k, u)) => UsedSound(l, k, u);
    case Hear(Answer(_)) => OpenedSound(l);
    case Hear(Push(_)) => if l.streams != [] { ClosingSound(l); }
    case Lock(_) =>
      if l.inHand.Some? && l.streams != [] {
        UsedSound(l, |l.streams| - 1, StreamLane.Put(l.inHand.value));
      }
    case Stop(Some(_)) => if l.streams != [] { ClosingSound(l); }
    case _ =>
  }

  lemma {:induction false} LivedSound(l: Line, es: seq<Ev>, id: nat)
    requires Sound(l)
    ensures Sound(LineLived(l, es, id))
    decreases |es|
  {
    hide Sound, NextLine;
    if es != [] {
      NextSound(l, es[0], id);
      LivedSound(NextLine(l, es[0], id), es[1..], id);
    }
  }

  /** The messages for the id's last stream: a response that opens one starts afresh. */
  function Said(ms: seq<Message>, es: seq<Ev>, id: nat): seq<Message>
    decreases |es|
  {
    if es == [] then ms else Said(NextSaid(ms, es[0], id), es[1..], id)
  }

  function NextSaid(ms: seq<Message>, e: Ev, id: nat): seq<Message> {
    match e
    case Hear(Answer(p)) => if p.id == id && OpensStream(p) then [] else ms
    case Hear(Push(g)) =>
      if g.id == id && !HasClose(g.flags) then ms + [g.(flags := WithStreamMsg(g.flags))] else ms
    case _ => ms
  }

  function Hand(l: Line): seq<Message> {
    if l.inHand.Some? then [l.inHand.value] else []
  }

  /** The last stream was given its own messages, in wire order: all of them while it is open, else those
      before its closing. */
  ghost predicate Given(l: Line, ms: seq<Message>) {
    l.streams == [] ||
    (var given := Last(l).added + Hand(l); given <= ms && (!Last(l).isClosed ==> given == ms))
  }

  lemma UsedGiven(l: Line, ms: seq<Message>, k: nat, u: StreamLane.Event<Message>)
    requires Given(l, ms) && !u.Put?
    ensures Given(Used(l, k, u), ms) && Used(l, k, u).inHand == l.inHand
    ensures l.streams != [] && Last(l).isClosed ==> Last(Used(l, k, u)).isClosed
  {
  }

  lemma ClosingGiven(l: Line, ms: seq<Message>)
    requires Given(l, ms) && l.streams != []
    ensures Given(Closing(l), ms) && Closing(l).inHand == l.inHand
    ensures Last(Closing(l)).isClosed || Panicked(l)
  {
    var k := |l.streams| - 1;
    UsedGiven(l, ms, k, StreamLane.MarkClosed);
    var t := Used(l, k, StreamLane.MarkClosed);
    UsedGiven(t, ms, k, StreamLane.CloseChan);
  }

  lemma MessageGiven(l: Line, ms: seq<Message>, g: Message)
    requires Given(l, ms) && l.streams != [] && l.inHand.None? && !Panicked(l)
    ensures var t := HeardBy(l, g);
      Given(t, if HasClose(g.flags) then ms else ms + [g]) && t.streams != []
  {
    hide Used, Panicked;
    ClosingGiven(l, ms);
    assert Last(l).added + [] == Last(l).added;
  }

  lemma LockGiven(l: Line, ms: seq<Message>)
    requires Given(l, ms) && !Panicked(Locked(l))
    ensures Given(Locked(l), ms)
  {
    if l.inHand.Some? && l.streams != [] && !Blocked(l) {
      var a, m := Last(l), l.inHand.value;
      var b := StreamLane.Next(a, StreamLane.Put(m), STREAM_CAP);
      assert Last(Locked(l)) == b;
      assert !b.panicked;
      assert b.added == a.added + [m] && b.added + [] == b.added;
    }
  }

  lemma NextGiven(l: Line, ms: seq<Message>, e: Ev, id: nat)
    requires Given(l, ms) && !Panicked(l) && !Panicked(NextLine(l, e, id))
    requires (e.Hear? && IdOf(e.o) == id ==> l.inHand.None?)
    requires l.inHand.Some? ==> l.streams != []
    ensures Given(NextLine(l, e, id), NextSaid(ms, e, id))
    ensures NextLine(l, e, id).inHand.Some? ==> NextLine(l, e, id).streams != []
  {
    hide Used, Closing, HeardBy, Panicked, StreamLane.Next;
    match e
    case Do(Use(_, k, u)) => if !u.Put? { UsedGiven(l, ms, k, u); }
    case Hear(Push(g)) =>
      if g.id == id && l.streams != [] {
        MessageGiven(l, ms, g.(flags := WithStreamMsg(g.flags)));
        SameClose(g.flags);
      }
    case Lock(i) => if i == id { LockGiven(l, ms); }
    case Stop(Some(_)) => if l.streams != [] { ClosingGiven(l, ms); }
    case _ =>
  }

  lemma SameClose(flags: byte)
    ensures HasClose(WithStreamMsg(flags)) == HasClose(flags)
  {
  }

  lemma {:induction false} OwnGiven(s: Tables, es: seq<Ev>, id: nat, ms: seq<Message>)
    requires !Happens(s, es).panicked && Clean(s) && AllLegal(s, es)
    requires Given(LineOf(s, id), ms)
    requires LineOf(s, id).inHand.Some? ==> LineOf(s, id).streams != []
    ensures Given(LineOf(Happens(s, es), id), Said(ms, es, id))
    decreases |es|
  {
    hide Happen, NextLine, NextSaid, Clean, Given;
    if es != [] {
      var t := Happen(s, es[0]);
      NoPanicBefore(s, es);
      StepLives(s, es[0], id);
      StepClean(s, es[0]);
      NotDead(s, id);
      NotDead(t, id);
      NextGiven(LineOf(s, id), ms, es[0], id);
      OwnGiven(t, es[1..], id, NextSaid(ms, es[0], id));
    }
  }

  // ----- When a stream is closed -----

  /** A close frame for an open stream closes it: its flag is set, its channel is closed, and it is out
      of the table; its messages, the other streams and the reader's hand stay as they were. */
  lemma CloseFrameCloses(l: Line, g: Message)
    requires l.streams != [] && !Last(l).isClosed && !Last(l).chanClosed && HasClose(g.flags)
    requires !Panicked(HeardBy(l, g))
    ensures var t := HeardBy(l, g); var k := |l.streams| - 1;
      t == Line(l.streams[k := Last(l).(isClosed := true, chanClosed := true)], false, l.inHand)
  {
    var k := |l.streams| - 1;
    var t := HeardBy(l, g);
    assert !t.streams[k].panicked;
    assert t.streams == l.streams[k := Last(l).(isClosed := true, chanClosed := true)];
  }

  /** A message for an open stream is taken in hand, and one for a closed stream changes nothing. */
  lemma MessageHeard(l: Line, g: Message)
    requires l.streams != []
    ensures !Last(l).isClosed && !HasClose(g.flags) ==> HeardBy(l, g) == l.(inHand := Some(g))
    ensures Last(l).isClosed ==> HeardBy(l, g) == l
  {
  }

  /** How many streams the id has had, and whether the last one is closed, has its channel closed, and is
      in the table: by what happened to the id, whatever was queued. */
  datatype Mark = Mark(n: nat, isClosed: bool, chanClosed: bool, listed: bool)

  function NextMark(m: Mark, e: Ev, id: nat): Mark {
    match e
    case Hear(Answer(p)) =>
      if p.id == id && p.status == 0 && p.flags / 64 % 2 == 1 then Mark(m.n + 1, false, false, true)
      else m
    case Hear(Push(g)) =>
      if g.id == id && g.flags % 2 == 1 && m.n > 0 && !m.isClosed then Mark(m.n, true, true, false) else m
    case Do(Use(i, k, u)) =>
      if i != id || k + 1 != m.n then m
      else if u.MarkClosed? then m.(isClosed := true)
      else if u.CloseChan? && m.isClosed then m.(chanClosed := true)
      else m
    case Do(Unlist(i)) => if i == id then m.(listed := false) else m
    case Stop(Some(i)) =>
      if i != id || m.n == 0 then m else m.(isClosed := true, chanClosed := true)
    case Stop(None) => m.(listed := false)
    case _ => m
  }

  function Marked(m: Mark, es: seq<Ev>, id: nat): Mark
    decreases |es|
  {
    if es == [] then m else Marked(NextMark(m, es[0], id), es[1..], id)
  }

  function MarkOf(l: Line): Mark {
    if l.streams == [] then Mark(0, false, false, l.listed)
    else Mark(|l.streams|, Last(l).isClosed, Last(l).chanClosed, l.listed)
  }

  /** The stopping reader gets stuck exactly if a stream in the table is not closed. */
  lemma StuckIff(s: Tables, stuck: Option<nat>)
    requires LegalStop(s, stuck)
    ensures stuck.Some? <==> exists id ::
      var m := MarkOf(LineOf(s, id)); m.n > 0 && m.listed && !m.isClosed
  {
    match stuck {
      case Some(id) =>
        var m := MarkOf(LineOf(s, id));
        assert m.n > 0 && m.listed && !m.isClosed;
      case None =>
        forall id ensures var m := MarkOf(LineOf(s, id)); !(m.n > 0 && m.listed && !m.isClosed) {
          if id in s.lines { assert !StillOpen(s.lines[id]); }
        }
    }
  }

  lemma UsedMark(l: Line, k: nat, u: StreamLane.Event<Message>)
    requires !Panicked(Used(l, k, u)) && !Panicked(l)
    ensures var m, t := MarkOf(l), MarkOf(Used(l, k, u));
      t == if k + 1 != m.n then m
           else if u.MarkClosed? then m.(isClosed := true)
           else if u.CloseChan? && m.isClosed then m.(chanClosed := true)
           else m
  {
    if k < |l.streams| {
      assert !l.streams[k].panicked && !Used(l, k, u).streams[k].panicked;
    }
  }

  lemma ClosingMark(l: Line)
    requires l.streams != [] && !Panicked(Closing(l)) && !Panicked(l)
    ensures MarkOf(Closing(l)) == MarkOf(l).(isClosed := true, chanClosed := true)
  {
    hide Used, Panicked;
    var k := |l.streams| - 1;
    var t := Used(l, k, StreamLane.MarkClosed);
    NotYet(t, k, StreamLane.CloseChan);
    UsedMark(l, k, StreamLane.MarkClosed);
    UsedMark(t, k, StreamLane.CloseChan);
  }

  lemma LockedMark(l: Line)
    requires !Panicked(Locked(l)) && !Panicked(l)
    ensures MarkOf(Locked(l)) == MarkOf(l)
  {
    hide Used, Panicked;
    if l.inHand.Some? && l.streams != [] && !Blocked(l) {
      var k, u := |l.streams| - 1, StreamLane.Put(l.inHand.value);
      SamePanic(Used(l, k, u));
      UsedMark(l, k, u);
    }
  }

  lemma SamePanic(l: Line)
    ensures Panicked(l.(inHand := None)) == Panicked(l)
    ensures Panicked(l.(listed := false)) == Panicked(l)
  {
  }

  lemma NextMarked(l: Line, e: Ev, id: nat)
    requires !Panicked(l) && !Panicked(NextLine(l, e, id))
    ensures MarkOf(NextLine(l, e, id)) == NextMark(MarkOf(l), e, id)
  {
    hide Used, Closing, Locked, Panicked;
    match e
    case Do(Use(i, k, u)) => if i == id && !u.Put? { UsedMark(l, k, u); }
    case Hear(Push(g)) =>
      if g.id == id && l.streams != [] && !Last(l).isClosed && HasClose(WithStreamMsg(g.flags)) {
        SamePanic(Closing(l));
        ClosingMark(l);
      }
      SameClose(g.flags);
    case Lock(i) => if i == id { LockedMark(l); }
    case Stop(Some(i)) => if i == id && l.streams != [] { ClosingMark(l); }
    case _ =>
  }

  /** The id's streams after a run without panic are marked by its own events: the last one is closed
      exactly when, since it was opened, a close frame for it was heard, a caller closed it, or the
      stopping reader got stuck on it. */
  lemma {:induction false} OwnMark(s: Tables, es: seq<Ev>, id: nat)
    requires !Happens(s, es).panicked && Clean(s) && AllLegal(s, es)
    ensures MarkOf(LineOf(Happens(s, es), id)) == Marked(MarkOf(LineOf(s, id)), es, id)
    decreases |es|
  {
    hide Happen, NextLine, NextMark, Clean, MarkOf;
    if es != [] {
      var t := Happen(s, es[0]);
      NoPanicBefore(s, es);
      StepLives(s, es[0], id);
      StepClean(s, es[0]);
      NotDead(s, id);
      NotDead(t, id);
      NextMarked(LineOf(s, id), es[0], id);
      OwnMark(t, es[1..], id);
    }
  }

  /** Whatever the other ids do, in a run without panic: an id's last stream is given its own messages, in
      wire order, up to its closing; and of what any of its streams was given nothing is lost or
      duplicated. `StreamLane.RunInOrder` and `StreamLane.ClosedLane` say in which order it is received,
      and what can still be received after the closing. */
  lemma OwnStream(s: Tables, es: seq<Ev>, id: nat)
    requires !Happens(s, es).panicked && Clean(s) && AllLegal(s, es)
    requires LineOf(s, id) == NO_STREAM
    ensures var l := LineOf(Happens(s, es), id);
      && l == LineLived(NO_STREAM, es, id)
      && Given(l, Said([], es, id))
      && MarkOf(l) == Marked(Mark(0, false, false, false), es, id)
      && forall k | 0 <= k < |l.streams| ::
           var a := l.streams[k];
           multiset(a.added) == multiset(a.received) + StreamQueue.Bag(a.chan, a.buf)
  {
    OwnLine(s, es, id);
    OwnGiven(s, es, id, []);
    OwnMark(s, es, id);
    LivedSound(NO_STREAM, es, id);
    var l, t := LineOf(Happens(s, es), id), Happens(s, es);
    StaysClean(s, es);
    NotDead(t, id);
  }

  lemma {:induction false} StaysClean(s: Tables, es: seq<Ev>)
    requires Clean(s)
    ensures Clean(Happens(s, es))
    decreases |es|
  {
    hide Happen, Clean;
    if es != [] {
      StepClean(s, es[0]);
      StaysClean(Happen(s, es[0]), es[1..]);
    }
  }

  // ----- In which order a stream's messages are received -----

  ghost predicate Ordered(l: Line) {
    forall k | 0 <= k < |l.streams| :: StreamLane.InOrder(l.streams[k])
  }

  /** Each message is added in a state in which adding keeps the order. */
  ghost predicate LocksOrderly(l: Line, es: seq<Ev>, id: nat)
    decreases |es|
  {
    es == []
    || ((es[0] == Lock(id) && l.inHand.Some? && l.streams != []
         ==> StreamLane.Orderly(Last(l), STREAM_CAP))
        && LocksOrderly(NextLine(l, es[0], id), es[1..], id))
  }

  lemma UsedOrdered(l: Line, k: nat, e: StreamLane.Event<Message>)
    requires Ordered(l) && Sound(l) && !Panicked(Used(l, k, e))
    requires e.Put? && k < |l.streams| ==> StreamLane.Orderly(l.streams[k], STREAM_CAP)
    ensures Ordered(Used(l, k, e))
  {
    if k < |l.streams| {
      var a := l.streams[k];
      assert StreamLane.Inv(a, STREAM_CAP);
      assert Used(l, k, e).streams[k] == StreamLane.Next(a, e, STREAM_CAP);
      hide StreamLane.Next, StreamLane.InOrder, StreamLane.Orderly;
      if e.Put? {
        StreamLane.AddInOrder(a, e.msg, STREAM_CAP);
      } else {
        StreamLane.OthersInOrder(a, e, STREAM_CAP);
      }
    }
  }

  lemma ClosingOrdered(l: Line)
    requires Ordered(l) && Sound(l) && l.streams != [] && !Panicked(Closing(l))
    ensures Ordered(Closing(l))
  {
    hide Ordered, Sound, Panicked, Used;
    var k := |l.streams| - 1;
    var t := Used(l, k, StreamLane.MarkClosed);
    UsedSound(l, k, StreamLane.MarkClosed);
    NotYet(t, k, StreamLane.CloseChan);
    UsedOrdered(l, k, StreamLane.MarkClosed);
    UsedOrdered(t, k, StreamLane.CloseChan);
  }

  lemma NotYet(l: Line, k: nat, e: StreamLane.Event<Message>)
    ensures Panicked(l) ==> Panicked(Used(l, k, e))
  {
    if Panicked(l) {
      var j :| 0 <= j < |l.streams| && l.streams[j].panicked;
      assert Used(l, k, e).streams[j].panicked;
    }
  }

  lemma OpenedOrdered(l: Line)
    requires Ordered(l)
    ensures Ordered(Opened(l))
  {
    var none: seq<Message> := [];
    assert none + (none + none) == none;
  }

  lemma NextOrdered(l: Line, e: Ev, id: nat)
    requires Ordered(l) && Sound(l) && !Panicked(NextLine(l, e, id))
    requires e == Lock(id) && l.inHand.Some? && l.streams != []
             ==> StreamLane.Orderly(Last(l), STREAM_CAP)
    ensures Ordered(NextLine(l, e, id))
  {
    hide StreamLane.Inv, StreamLane.Conserved, StreamLane.InOrder, StreamLane.Orderly, Used, Closing,
      Sound, StreamLane.Next;
    match e
    case Do(Use(i, k, u)) => if i == id && !u.Put? { UsedOrdered(l, k, u); }
    case Hear(Answer(_)) => OpenedOrdered(l);
    case Hear(Push(g)) =>
      if g.id == id && l.streams != [] && HasClose(WithStreamMsg(g.flags)) && !Last(l).isClosed {
        ClosingOrdered(l);
      }
    case Lock(i) =>
      if i == id && l.inHand.Some? && l.streams != [] && !Blocked(l) {
        UsedOrdered(l, |l.streams| - 1, StreamLane.Put(l.inHand.value));
      }
    case Stop(Some(i)) => if i == id && l.streams != [] { ClosingOrdered(l); }
    case _ =>
  }

  lemma {:induction false} LivedOrdered(l: Line, es: seq<Ev>, id: nat)
    requires Ordered(l) && Sound(l) && LocksOrderly(l, es, id) && !Panicked(LineLived(l, es, id))
    ensures Ordered(LineLived(l, es, id))
    decreases |es|
  {
    hide Sound, NextLine, Ordered, Panicked, StreamLane.Orderly;
    if es != [] {
      var t := NextLine(l, es[0], id);
      if Panicked(t) { PanickedLives(t, es[1..], id); }
      NextOrdered(l, es[0], id);
      NextSound(l, es[0], id);
      LivedOrdered(t, es[1..], id);
    }
  }

  /** If each message is added in an orderly state, as it is when no receiver is then between its take and
      its move (`StreamLane.QuietIsOrderly`), each stream of the id is one FIFO queue: what was received,
      followed by what is queued, is what it was given, and that is its own messages in wire order. */
  lemma OwnStreamInOrder(s: Tables, es: seq<Ev>, id: nat)
    requires !Happens(s, es).panicked && Clean(s) && AllLegal(s, es)
    requires LineOf(s, id) == NO_STREAM && LocksOrderly(NO_STREAM, es, id)
    ensures var l := LineOf(Happens(s, es), id);
      forall k | 0 <= k < |l.streams| ::
        var a := l.streams[k]; a.received + (a.chan + a.buf) == a.added
  {
    OwnLine(s, es, id);
    StaysClean(s, es);
    NotDead(Happens(s, es), id);
    hide Happens, LocksOrderly;
    LivedOrdered(NO_STREAM, es, id);
  }

  // ----- What each id's channel gets -----

  function ChanOf(s: Tables, id: nat): RespChan {
    if id in s.reqs then s.reqs[id] else RespChan([], [], 0, false)
  }

  /** The responses the caller has taken or will find, in order. */
  function Delivered(s: Tables, id: nat): seq<Response> {
    ChanOf(s, id).taken + ChanOf(s, id).ch
  }

  function AnswersTo(es: seq<Ev>, id: nat): seq<Response> {
    if es == [] then []
    else AnswerTo(es[0], id) + AnswersTo(es[1..], id)
  }

  function AnswerTo(e: Ev, id: nat): seq<Response> {
    if e.Hear? && e.o.Answer? && e.o.p.id == id then [e.o.p] else []
  }

  /** A channel's change when the responses `ps` arrive. */
  ghost predicate Grows(c: RespChan, d: RespChan, ps: seq<Response>) {
    && d.dropped >= c.dropped
    && |d.taken + d.ch| + d.dropped == |c.taken + c.ch| + c.dropped + |ps|
    && (d.dropped == c.dropped ==> d.taken + d.ch == c.taken + c.ch + ps)
    && (ps == [] ==> d.dropped == c.dropped)
    && (|c.ch| + |ps| <= 1 ==> d.dropped == c.dropped && |d.ch| <= |c.ch| + |ps|)
  }

  lemma Unmoved(c: RespChan, d: RespChan)
    requires d == c || d == c.(closed := true) || d == c.(ch := [], taken := c.taken + c.ch)
    ensures Grows(c, d, [])
  {
    assert c.taken + c.ch + [] == c.taken + c.ch;
  }

  lemma SentGrows(c: RespChan, p: Response)
    ensures Grows(c, Sent(c, p), [p])
  {
    if c.ch == [] {
      assert c.taken + [] == c.taken;
    }
  }

  lemma ChanStep(s: Tables, e: Ev, id: nat)
    requires !s.panicked && !Happen(s, e).panicked && Legal(s, e)
    ensures Grows(ChanOf(s, id), ChanOf(Happen(s, e), id), AnswerTo(e, id))
  {
    hide Closing, Used, HeardBy, Locked, Panicked, LegalStop, Grows, Sent;
    var c, d := ChanOf(s, id), ChanOf(Happen(s, e), id);
    if e.Hear? && e.o.Answer? && e.o.p.id == id {
      SentGrows(c, e.o.p);
    } else {
      assert d == c || d == c.(closed := true) || d == c.(ch := [], taken := c.taken + c.ch);
      Unmoved(c, d);
    }
  }

  /** Its channel gets its own responses, in wire order, except those that find an earlier one not yet
      taken; of a single response none is lost. */
  lemma {:induction false} OwnResponses(s: Tables, es: seq<Ev>, id: nat)
    requires !Happens(s, es).panicked && AllLegal(s, es)
    ensures var t := Happens(s, es); var c, d := ChanOf(s, id), ChanOf(t, id);
      && d.dropped >= c.dropped
      && |Delivered(t, id)| + d.dropped == |Delivered(s, id)| + c.dropped + |AnswersTo(es, id)|
      && (d.dropped == c.dropped ==> Delivered(t, id) == Delivered(s, id) + AnswersTo(es, id))
      && (AnswersTo(es, id) == [] || |c.ch| + |AnswersTo(es, id)| <= 1 ==> d.dropped == c.dropped)
    decreases |es|
  {
    hide Happen, ChanOf, AnswerTo, Legal;
    if es != [] {
      NoPanicBefore(s, es);
      ChanStep(s, es[0], id);
      OwnResponses(Happen(s, es[0]), es[1..], id);
      ConcatAssociative(Delivered(s, id), AnswerTo(es[0], id), AnswersTo(es[1..], id));
    } else {
      assert Delivered(s, id) + [] == Delivered(s, id);
    }
  }

  // ----- Server and client together -----

  /** The responses to an id among the frames. */
  function ResponsesTo(os: seq<Out>, id: nat): seq<Response> {
    if os == [] then [] else AnswerTo(Hear(os[0]), id) + ResponsesTo(os[1..], id)
  }

  lemma {:induction false} AnswersAppend(a: seq<Ev>, b: seq<Ev>, id: nat)
    ensures AnswersTo(a + b, id) == AnswersTo(a, id) + AnswersTo(b, id)
  {
    hide AnswerTo;
    if a == [] {
      assert a + b == b;
    } else {
      assert (a + b)[1..] == a[1..] + b && (a + b)[0] == a[0];
      AnswersAppend(a[1..], b, id);
      ConcatAssociative(AnswerTo(a[0], id), AnswersTo(a[1..], id), AnswersTo(b, id));
    }
  }

  lemma {:induction false} ActsAnswerNothing(acts: seq<Act>, id: nat)
    ensures AnswersTo(Dos(acts), id) == []
  {
    if acts != [] {
      assert Dos(acts)[1..] == Dos(acts[1..]);
      ActsAnswerNothing(acts[1..], id);
    }
  }

  lemma OneAnswers(e: Ev, id: nat)
    ensures AnswersTo([e], id) == AnswerTo(e, id)
  {
    assert [e][1..] == [];
    assert AnswersTo([e], id) == AnswerTo(e, id) + [];
  }

  lemma TurnAnswers(s: Tables, o: Out, b: Between, id: nat)
    ensures AnswersTo(TurnTrace(s, o, b), id) == AnswerTo(Hear(o), id)
  {
    hide AnswerTo, FrameEnd, AnswersTo, Dos;
    var a, c := Dos(b.during), Dos(b.after);
    AnswersAppend(a, [Hear(o)], id);
    AnswersAppend(a + [Hear(o)], c, id);
    AnswersAppend(a + [Hear(o)] + c, [Lock(IdOf(o))], id);
    AnswersAppend(a + [Hear(o)] + c, [], id);
    ActsAnswerNothing(b.during, id);
    ActsAnswerNothing(b.after, id);
    OneAnswers(Hear(o), id);
    OneAnswers(Lock(IdOf(o)), id);
    assert AnswersTo([], id) == [] && AnswerTo(Lock(IdOf(o)), id) == [] by { NoAnswers(o, id); }
    var none: seq<Response> := [];
    assert none + AnswerTo(Hear(o), id) + none + none == AnswerTo(Hear(o), id);
  }

  lemma NoAnswers(o: Out, id: nat)
    ensures AnswersTo([], id) == [] && AnswerTo(Lock(IdOf(o)), id) == []
  {
  }

  lemma {:induction false} TraceAnswers(s: Tables, os: seq<Out>, env: nat -> Between, turn: nat, id: nat)
    requires Routes(s, os, env, turn).Some? && Routes(s, os, env, turn).value.next.Goes?
    ensures AnswersTo(Trace(s, os, env, turn), id) == ResponsesTo(os, id)
    decreases |os|
  {
    hide AnswerTo, Dos, TurnTrace, FrameEnd, ActedAll, Known;
    if os != [] {
      var b := env(turn);
      var t := ActedAll(s, b.before);
      var e := FrameEnd(t, os[0], b);
      var more := Trace(e.s, os[1..], env, turn + 1);
      TurnAnswers(t, os[0], b, id);
      ActsAnswerNothing(b.before, id);
      AnswersAppend(Dos(b.before), TurnTrace(t, os[0], b), id);
      AnswersAppend(Dos(b.before) + TurnTrace(t, os[0], b), more, id);
      TraceAnswers(e.s, os[1..], env, turn + 1, id);
      assert [] + AnswerTo(Hear(os[0]), id) == AnswerTo(Hear(os[0]), id);
    }
  }

  lemma {:induction false} AnswersCounted(os: seq<Out>, id: nat)
    ensures |ResponsesTo(os, id)| == Answers(os, id)
    decreases |os|
  {
    if os != [] {
      var init, o := os[..|os| - 1], os[|os| - 1];
      AnswersCounted(init, id);
      ResponsesSnoc(init, o, id);
      assert os == init + [o];
    }
  }

  lemma {:induction false} ResponsesSnoc(os: seq<Out>, o: Out, id: nat)
    ensures ResponsesTo(os + [o], id) == ResponsesTo(os, id) + AnswerTo(Hear(o), id)
    decreases |os|
  {
    hide AnswerTo;
    if os == [] {
      assert [] + [o] == [o] && [o][1..] == [];
      assert ResponsesTo([o], id) == AnswerTo(Hear(o), id) + ResponsesTo([], id);
    } else {
      ResponsesSnoc(os[1..], o, id);
      assert (os + [o])[1..] == os[1..] + [o] && (os + [o])[0] == os[0];
      ConcatAssociative(AnswerTo(Hear(os[0]), id), ResponsesTo(os[1..], id), AnswerTo(Hear(o), id));
    }
  }

  /** The handlers return responses, and send messages, that fit their frames. */
  predicate Fitting(step: Step) {
    (step.Finish? ==> WellFormed(Answer(step.p))) && (step.Say? ==> WellFormed(Push(step.g)))
  }

  ghost predicate AllFit(os: seq<Out>) {
    forall o | o in os :: WellFormed(o)
  }

  ghost predicate ServerFits(s: State) {
    && (forall f | f in s.todo :: Server.WellFormed(f))
    && AllFit(s.owed) && AllFit(s.written)
    && (forall p | p in s.ready :: WellFormed(Answer(p)))
    && (forall g | g in s.said :: WellFormed(Push(g)))
    && (s.hold.Some? ==> WellFormed(s.hold.value.frame))
  }

  lemma OwedFit(cfg: Server.Config, f: Server.Frame, st: Server.Streams)
    requires Server.WellFormed(f)
    ensures AllFit(Owed(Server.Dispatch(cfg, f, st)))
  {
    var events := Server.Dispatch(cfg, f, st);
    forall e | e in events && (e.Reply? || e.Notify?)
      ensures WellFormed(if e.Reply? then Answer(e.resp) else Push(e.msg))
    {
      Server.AnswersFit(cfg, f, st, e);
    }
    hide Server.Dispatch;
    OwedAre(events);
  }

  lemma {:induction false} OwedAre(events: seq<Server.Event>)
    requires forall e | e in events && (e.Reply? || e.Notify?) ::
               WellFormed(if e.Reply? then Answer(e.resp) else Push(e.msg))
    ensures AllFit(Owed(events))
    decreases |events|
  {
    if events != [] {
      assert events[0] in events;
      OwedAre(events[1..]);
    }
  }

  lemma StepFits(cfg: Server.Config, s: State, step: Step)
    requires ServerFits(s) && Enabled(cfg, s, step) && Fitting(step)
    ensures ServerFits(Apply(cfg, s, step))
  {
    hide Owed, Started, EncodeOut, WellFormed, Server.WellFormed, Server.Dispatch;
    if step.Read? { OwedFit(cfg, s.todo[0], step.st); }
  }

  lemma {:induction false} RunFits(cfg: Server.Config, s: State, steps: seq<Step>)
    requires ServerFits(s) && Valid(cfg, s, steps) && forall step | step in steps :: Fitting(step)
    ensures ServerFits(After(cfg, s, steps))
    decreases |steps|
  {
    hide Apply, Enabled, ServerFits, Fitting;
    if steps != [] {
      assert steps[0] in steps;
      StepFits(cfg, s, steps[0]);
      RunFits(cfg, Apply(cfg, s, steps[0]), steps[1..]);
    }
  }

  /** Everything the server writes on well-formed frames is a frame the client can read, if what its
      handlers return and send is: the loop's own answers are. */
  lemma WrittenFits(cfg: Server.Config, frames: seq<Server.Frame>, steps: seq<Step>)
    requires Valid(cfg, Init(frames), steps)
    requires forall f | f in frames :: Server.WellFormed(f)
    requires forall step | step in steps :: Fitting(step)
    ensures forall o | o in After(cfg, Init(frames), steps).written :: WellFormed(o)
  {
    RunFits(cfg, Init(frames), steps);
  }

  /** From the request to the caller's channel: when the server, under any interleaving, has answered
      all it read, and the client reads what it wrote, then, unless the reader hangs or a goroutine of the
      client panics (`HangsIff`, `ReaderPanicsIff`), it stops at the end of the connection, and an id that
      was requested once has exactly one response, the one the server wrote for it, in its own channel or
      already taken from it; also after the reader has closed what it closes. */
  lemma RequestIsAnswered(cfg: Server.Config, frames: seq<Server.Frame>, steps: seq<Step>, s: Tables,
                          env: nat -> Between, id: nat, stuck: Option<nat>)
    requires Valid(cfg, Init(frames), steps)
    requires var t := After(cfg, Init(frames), steps);
      && t.todo == [] && t.owed == [] && t.running == multiset{} && t.ready == [] && t.hold == None
      && Routes(s, t.written, env, 0).Some?
    requires !s.panicked && Idle(s) && Requests(frames, id) <= 1
    requires Delivered(s, id) == [] && ChanOf(s, id).dropped == 0
    ensures var t := After(cfg, Init(frames), steps);
      var end := Demux(s, t.out, env, 0);
      end.next.Panics? || end.next.Hangs? ||
      (end.next.Stops?
       && (LegalStop(end.s, stuck) ==>
           var got := Delivered(Stopped(end.s, stuck), id);
           got == Delivered(end.s, id) == ResponsesTo(t.written, id)
           && |got| == Requests(frames, id)))
  {
    hide Valid, After, Turn, Delivered, Routes, EncodeOut, ActedAll, Happens, AnswersTo, Trace, Idle,
      LegalStop, Stopped;
    QuietServerAnsweredAll(cfg, frames, steps, id);
    ResponsesConserved(cfg, frames, steps, id);
    var t := After(cfg, Init(frames), steps);
    assert t.out + [] == t.out;
    LoopRoutes(s, t.written, [], env, 0);
    var e, n := Routes(s, t.written, env, 0).value, |t.written|;
    NextOfRoutes(s, t.written, env, 0);
    if e.next.Goes? {
      RoutesHappen(s, t.written, env, 0);
      TraceAnswers(s, t.written, env, 0, id);
      AnswersCounted(t.written, id);
      EmptyChan(s, id);
      AtEnd(e.s, env, n, id);
      if !e.s.panicked {
        OwnResponses(s, Trace(s, t.written, env, 0), id);
        assert [] + ResponsesTo(t.written, id) == ResponsesTo(t.written, id);
      }
      var end := Demux(s, t.out, env, 0);
      if LegalStop(end.s, stuck) { StopKeepsDelivered(end.s, stuck, id); }
    }
  }

  lemma {:induction false} NextOfRoutes(s: Tables, os: seq<Out>, env: nat -> Between, turn: nat)
    requires Routes(s, os, env, turn).Some? && !s.panicked
    ensures var e := Routes(s, os, env, turn).value;
      !e.next.Stops? && (e.next.Goes? ==> !e.s.panicked)
    decreases |os|
  {
    hide ActedAll, Known, BeforeLock;
    if os != [] {
      var t := ActedAll(s, env(turn).before);
      if !t.panicked {
        var e := FrameEnd(t, os[0], env(turn));
        if e.next.Goes? { NextOfRoutes(e.s, os[1..], env, turn + 1); }
      }
    }
  }

  lemma StopKeepsDelivered(s: Tables, stuck: Option<nat>, id: nat)
    requires LegalStop(s, stuck)
    ensures Delivered(Stopped(s, stuck), id) == Delivered(s, id)
  {
  }

  lemma EmptyChan(s: Tables, id: nat)
    requires Delivered(s, id) == []
    ensures ChanOf(s, id).ch == []
  {
    assert |Delivered(s, id)| == |ChanOf(s, id).taken| + |ChanOf(s, id).ch|;
  }

  lemma AtEnd(s: Tables, env: nat -> Between, turn: nat, id: nat)
    ensures var end := Demux(s, [], env, turn);
      end.next.Panics? || (end.next.Stops? && Delivered(end.s, id) == Delivered(s, id))
  {
    hide Delivered, ActedAll, Happens, AnswersTo, ChanOf;
    var acts := env(turn).before;
    var end := Demux(s, [], env, turn);
    assert end.s == ActedAll(s, acts);
    DosAct(s, acts);
    ActsAnswerNothing(acts, id);
    if !end.s.panicked {
      OwnResponses(s, Dos(acts), id);
      assert Delivered(s, id) + [] == Delivered(s, id);
    }
  }
}
