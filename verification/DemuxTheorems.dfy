/** The run of the Go client's reader, and of its callers, as one sequence of events; and which runs
    panic or hang. */
module DemuxTheorems {
  import opened Bytes
  import opened Wire
  import StreamLane
  import opened Accounting
  import opened ClientDemux

  // ----- One sequence of events -----

  /** What happens, in order: a caller acts, the reader has read a frame, it gets the lock of the stream
      it has a message for, or it stops. Callers may act after that, too. */
  datatype Ev = Do(a: Act) | Hear(o: Out) | Lock(id: nat) | Stop(stuck: Option<nat>)

  /** What the reader can do: it knows the id, has no other message in hand, and waits for locks. */
  ghost predicate Legal(s: Tables, e: Ev) {
    match e
    case Do(_) => true
    case Hear(o) => LineOf(s, IdOf(o)).inHand.None? && (o.Answer? ==> o.p.id in s.reqs)
    case Lock(id) => !Blocked(LineOf(s, id))
    case Stop(stuck) => LegalStop(s, stuck)
  }

  /** A step after a panic changes nothing. */
  ghost function Happen(s: Tables, e: Ev): Tables {
    if s.panicked then s
    else
      match e
      case Do(a) => Acted(s, a)
      case Hear(o) => Heard(s, o)
      case Lock(id) => WithLine(s, id, Locked(LineOf(s, id)))
      case Stop(stuck) => if LegalStop(s, stuck) then Stopped(s, stuck) else s
  }

  ghost function Happens(s: Tables, es: seq<Ev>): Tables
    decreases |es|
  {
    if es == [] then s else Happens(Happen(s, es[0]), es[1..])
  }

  ghost predicate AllLegal(s: Tables, es: seq<Ev>)
    decreases |es|
  {
    es == [] || s.panicked || (Legal(s, es[0]) && AllLegal(Happen(s, es[0]), es[1..]))
  }

  function Dos(acts: seq<Act>): seq<Ev> {
    if acts == [] then [] else [Do(acts[0])] + Dos(acts[1..])
  }

  /** The events of a turn on a known frame; a reader that hangs does not get the lock. */
  function TurnTrace(s: Tables, o: Out, b: Between): seq<Ev> {
    Dos(b.during) + [Hear(o)] + Dos(b.after)
    + if FrameEnd(s, o, b).next.Hangs? then [] else [Lock(IdOf(o))]
  }

  function Trace(s: Tables, os: seq<Out>, env: nat -> Between, turn: nat): seq<Ev>
    decreases |os|
  {
    if os == [] then []
    else
      var b := env(turn);
      var t := ActedAll(s, b.before);
      if t.panicked then Dos(b.before)
      else
        var e := FrameEnd(t, os[0], b);
        Dos(b.before) + TurnTrace(t, os[0], b)
        + if e.next.Goes? then Trace(e.s, os[1..], env, turn + 1) else []
  }

  /** Between two turns the reader has no message in hand; and nothing has panicked unless it says so. */
  ghost predicate Idle(s: Tables) {
    forall id | id in s.lines :: s.lines[id].inHand.None?
  }

  ghost predicate Clean(s: Tables) {
    !s.panicked ==> forall id | id in s.lines :: !Panicked(s.lines[id])
  }

  lemma {:induction false} PanicStays(s: Tables, es: seq<Ev>)
    requires s.panicked
    ensures Happens(s, es) == s && AllLegal(s, es)
    decreases |es|
  {
    if es != [] { PanicStays(s, es[1..]); }
  }

  lemma {:induction false} HappensAppend(s: Tables, a: seq<Ev>, b: seq<Ev>)
    ensures Happens(s, a + b) == Happens(Happens(s, a), b)
    ensures AllLegal(s, a) && AllLegal(Happens(s, a), b) ==> AllLegal(s, a + b)
    decreases |a|
  {
    hide Happen, Legal;
    if a == [] {
      assert a + b == b;
    } else {
      assert (a + b)[1..] == a[1..] + b && (a + b)[0] == a[0];
      if s.panicked {
        PanicStays(s, a);
        PanicStays(s, b);
        PanicStays(s, a + b);
      } else {
        HappensAppend(Happen(s, a[0]), a[1..], b);
      }
    }
  }

  lemma ActAfterPanic(s: Tables, a: Act)
    ensures s.panicked ==> Acted(s, a) == s
  {
  }

  lemma {:induction false} DosAct(s: Tables, acts: seq<Act>)
    ensures Happens(s, Dos(acts)) == ActedAll(s, acts) && AllLegal(s, Dos(acts))
    decreases |acts|
  {
    hide Acted;
    if acts != [] {
      assert Dos(acts)[1..] == Dos(acts[1..]) && Dos(acts)[0] == Do(acts[0]);
      ActAfterPanic(s, acts[0]);
      DosAct(Acted(s, acts[0]), acts[1..]);
    }
  }

  lemma OneHappens(s: Tables, e: Ev)
    ensures Happens(s, [e]) == Happen(s, e)
    ensures AllLegal(s, [e]) <==> s.panicked || Legal(s, e)
  {
    assert [e][1..] == [];
  }

  lemma {:induction false} ActsKeepHands(s: Tables, acts: seq<Act>, id: nat)
    ensures LineOf(ActedAll(s, acts), id).inHand == LineOf(s, id).inHand
    decreases |acts|
  {
    if acts != [] {
      ActKeepsHands(s, acts[0], id);
      hide Acted;
      ActsKeepHands(Acted(s, acts[0]), acts[1..], id);
    }
  }

  lemma ActKeepsHands(s: Tables, a: Act, id: nat)
    ensures LineOf(Acted(s, a), id).inHand == LineOf(s, id).inHand
  {
  }

  /** Only the frame's own id gets a message in hand. */
  lemma OthersHands(s: Tables, o: Out, b: Between, id: nat)
    requires !s.panicked && LineOf(s, id).inHand.None?
    ensures id != IdOf(o) ==> LineOf(BeforeLock(s, o, b), id).inHand.None?
    ensures id != IdOf(o) ==> LineOf(FrameEnd(s, o, b).s, id).inHand.None?
  {
    hide ActedAll;
    ActsKeepHands(s, b.during, id);
    var t := ActedAll(s, b.during);
    if !t.panicked {
      ActsKeepHands(Heard(t, o), b.after, id);
    }
  }

  lemma OwnHand(s: Tables, o: Out, b: Between)
    requires FrameEnd(s, o, b).next.Goes? && LineOf(s, IdOf(o)).inHand.None?
    ensures LineOf(FrameEnd(s, o, b).s, IdOf(o)).inHand.None?
  {
    hide ActedAll;
    var id := IdOf(o);
    ActsKeepHands(s, b.during, id);
    var t := ActedAll(s, b.during);
    ActsKeepHands(Heard(t, o), b.after, id);
    HandNeedsStream(t, o);
    StreamsStay(Heard(t, o), b.after, id);
  }

  lemma HandNeedsStream(t: Tables, o: Out)
    requires LineOf(t, IdOf(o)).inHand.None?
    ensures var l := LineOf(Heard(t, o), IdOf(o)); l.inHand.Some? ==> l.streams != []
  {
  }

  lemma {:induction false} StreamsStay(s: Tables, acts: seq<Act>, id: nat)
    ensures |LineOf(ActedAll(s, acts), id).streams| == |LineOf(s, id).streams|
    decreases |acts|
  {
    if acts != [] {
      assert |LineOf(Acted(s, acts[0]), id).streams| == |LineOf(s, id).streams|;
      hide Acted;
      StreamsStay(Acted(s, acts[0]), acts[1..], id);
    }
  }

  lemma IdleAfter(s: Tables, o: Out, b: Between)
    requires Idle(s) && !s.panicked && FrameEnd(s, o, b).next.Goes?
    ensures Idle(FrameEnd(s, o, b).s)
  {
    hide FrameEnd, BeforeLock;
    var t := FrameEnd(s, o, b).s;
    forall id | id in t.lines ensures t.lines[id].inHand.None? {
      assert LineOf(s, id).inHand.None?;
      if id == IdOf(o) { OwnHand(s, o, b); } else { OthersHands(s, o, b, id); }
    }
  }

  lemma IdleActs(s: Tables, acts: seq<Act>)
    requires Idle(s)
    ensures Idle(ActedAll(s, acts))
  {
    var t := ActedAll(s, acts);
    forall id | id in t.lines ensures t.lines[id].inHand.None? {
      assert LineOf(s, id).inHand.None?;
      ActsKeepHands(s, acts, id);
    }
  }

  /** A turn is its events. */
  lemma TurnHappens(s: Tables, o: Out, b: Between)
    requires !s.panicked && Known(s, o) && Idle(s)
    ensures var es := TurnTrace(s, o, b);
      Happens(s, es) == FrameEnd(s, o, b).s && AllLegal(s, es)
  {
    hide Happens, AllLegal, Dos, ActedAll, Heard, Locked;
    var id := IdOf(o);
    var a, c := Dos(b.during), Dos(b.after);
    var t := ActedAll(s, b.during);
    var u := if t.panicked then t else Heard(t, o);
    var w := ActedAll(u, b.after);
    assert LineOf(s, id).inHand.None?;
    ActsKeepHands(s, b.during, id);
    DosAct(s, b.during);
    OneHappens(t, Hear(o));
    HappensAppend(s, a, [Hear(o)]);
    DosAct(u, b.after);
    HappensAppend(s, a + [Hear(o)], c);
    if t.panicked { PanicStays(t, c); }
    assert w == if t.panicked then t else BeforeLock(s, o, b);
    OneHappens(w, Lock(id));
    HappensAppend(s, a + [Hear(o)] + c, [Lock(id)]);
    assert a + [Hear(o)] + c + [] == a + [Hear(o)] + c;
  }

  /** The reader's run on whole frames is the sequence of its events, each of them legal. */
  lemma {:induction false} RoutesHappen(s: Tables, os: seq<Out>, env: nat -> Between, turn: nat)
    requires Routes(s, os, env, turn).Some? && Idle(s) && !s.panicked
    ensures var es := Trace(s, os, env, turn);
      Happens(s, es) == Routes(s, os, env, turn).value.s && AllLegal(s, es)
    decreases |os|
  {
    hide Happens, AllLegal, ActedAll, FrameEnd, Dos, Known, WellFormed, TurnTrace, Idle;
    if os == [] {
      NothingHappens(s);
    } else {
      var b, o := env(turn), os[0];
      var t := ActedAll(s, b.before);
      DosAct(s, b.before);
      if !t.panicked {
        var e := FrameEnd(t, o, b);
        IdleActs(s, b.before);
        TurnHappens(t, o, b);
        HappensAppend(s, Dos(b.before), TurnTrace(t, o, b));
        var es := Dos(b.before) + TurnTrace(t, o, b);
        assert es + [] == es;
        if e.next.Goes? {
          IdleAfter(t, o, b);
          GoesOn(t, o, b);
          RoutesHappen(e.s, os[1..], env, turn + 1);
          HappensAppend(s, es, Trace(e.s, os[1..], env, turn + 1));
        }
      }
    }
  }

  lemma GoesOn(s: Tables, o: Out, b: Between)
    ensures FrameEnd(s, o, b).next.Goes? ==> !FrameEnd(s, o, b).s.panicked
  {
  }

  lemma NothingHappens(s: Tables)
    ensures Happens(s, []) == s && AllLegal(s, [])
  {
  }

  // ----- The lives of one id -----

  /** The life of a response channel, by its own events and the reader's stop. */
  datatype ChanLife = Absent | Live | Shut | Crashed

  function ChanLifeOf(s: Tables, id: nat): ChanLife {
    if id !in s.reqs then Absent else if s.reqs[id].closed then Shut else Live
  }

  function Close(c: ChanLife): ChanLife {
    match c case Live => Shut case Shut => Crashed case _ => c
  }

  function NextChan(c: ChanLife, e: Ev, id: nat): ChanLife {
    match e
    case Do(Register(i)) => if i == id && c == Absent then Live else c
    case Do(CloseChan(i)) => if i == id then Close(c) else c
    case Hear(Answer(p)) => if p.id == id && c == Shut then Crashed else c
    case Stop(None) => Close(c)
    case _ => c
  }

  function ChanLived(c: ChanLife, es: seq<Ev>, id: nat): ChanLife
    decreases |es|
  {
    if es == [] then c else ChanLived(NextChan(c, es[0], id), es[1..], id)
  }

  /** The life of an id's streams, by its own events and the reader's stop. */
  function NextLine(l: Line, e: Ev, id: nat): (t: Line)
    ensures |t.streams| >= |l.streams|
  {
    match e
    case Do(Use(i, k, u)) => if i == id && !u.Put? then Used(l, k, u) else l
    case Do(Unlist(i)) => if i == id then l.(listed := false) else l
    case Hear(Answer(p)) => if p.id == id && OpensStream(p) then Opened(l) else l
    case Hear(Push(g)) =>
      if g.id == id && l.streams != [] then HeardBy(l, g.(flags := WithStreamMsg(g.flags))) else l
    case Lock(i) => if i == id then Locked(l) else l
    case Stop(Some(i)) => if i == id && l.streams != [] then Closing(l) else l
    case Stop(None) => l.(listed := false)
    case _ => l
  }

  function LineLived(l: Line, es: seq<Ev>, id: nat): Line
    decreases |es|
  {
    if es == [] then l else LineLived(NextLine(l, es[0], id), es[1..], id)
  }

  lemma {:induction false} CrashStays(es: seq<Ev>, id: nat)
    ensures ChanLived(Crashed, es, id) == Crashed
    decreases |es|
  {
    if es != [] { CrashStays(es[1..], id); }
  }

  lemma PanickedStays(l: Line, e: Ev, id: nat)
    requires Panicked(l)
    ensures Panicked(NextLine(l, e, id))
  {
    var k :| 0 <= k < |l.streams| && l.streams[k].panicked;
    assert NextLine(l, e, id).streams[k].panicked;
  }

  lemma {:induction false} PanickedLives(l: Line, es: seq<Ev>, id: nat)
    requires Panicked(l)
    ensures Panicked(LineLived(l, es, id))
    decreases |es|
  {
    hide NextLine, Panicked;
    if es != [] {
      PanickedStays(l, es[0], id);
      PanickedLives(NextLine(l, es[0], id), es[1..], id);
    }
  }

  // ----- Which runs panic -----

  ghost predicate Dead(s: Tables, e: Ev, id: nat) {
    NextChan(ChanLifeOf(s, id), e, id) == Crashed || Panicked(NextLine(LineOf(s, id), e, id))
  }

  lemma StepDies(s: Tables, e: Ev)
    requires !s.panicked && Clean(s) && Legal(s, e) && Happen(s, e).panicked
    ensures exists id :: Dead(s, e, id)
  {
    match e
    case Stop(None) =>
      var id :| id in s.reqs && s.reqs[id].closed;
      assert Dead(s, e, id);
    case Stop(Some(i)) => assert Dead(s, e, i);
    case Do(a) => assert Dead(s, e, a.id);
    case Hear(o) => assert Dead(s, e, IdOf(o));
    case Lock(i) => assert Dead(s, e, i);
  }

  lemma StepLives(s: Tables, e: Ev, id: nat)
    requires !s.panicked && Clean(s) && Legal(s, e) && !Happen(s, e).panicked
    ensures var t := Happen(s, e);
      && ChanLifeOf(t, id) == NextChan(ChanLifeOf(s, id), e, id)
      && LineOf(t, id) == NextLine(LineOf(s, id), e, id)
  {
    hide Closing, Used, HeardBy, Locked, Panicked;
  }

  lemma StepClean(s: Tables, e: Ev)
    requires Clean(s)
    ensures Clean(Happen(s, e))
  {
  }

  /** The run panics exactly when some id's own events do it: its response channel is closed when its
      caller or the stopping reader has closed it already, or is sent its response after that; or one of
      its streams meets a hazard (`StreamLane.RunPanicsIff`). */
  lemma {:induction false} PanicsIff(s: Tables, es: seq<Ev>)
    requires !s.panicked && Clean(s) && AllLegal(s, es)
    ensures Happens(s, es).panicked
        <==> exists id :: ChanLived(ChanLifeOf(s, id), es, id) == Crashed
                          || Panicked(LineLived(LineOf(s, id), es, id))
    decreases |es|
  {
    hide Happen, NextChan, NextLine, ChanLifeOf, LineOf, Clean, Legal, Panicked;
    if es == [] {
      forall id ensures ChanLived(ChanLifeOf(s, id), es, id) != Crashed
                     && !Panicked(LineLived(LineOf(s, id), es, id)) {
        NotDead(s, id);
      }
    } else {
      var e, t := es[0], Happen(s, es[0]);
      if t.panicked {
        StepDies(s, e);
        var id :| Dead(s, e, id);
        CrashStays(es[1..], id);
        if Panicked(NextLine(LineOf(s, id), e, id)) {
          PanickedLives(NextLine(LineOf(s, id), e, id), es[1..], id);
        }
        PanicStays(t, es[1..]);
      } else {
        forall id ensures ChanLived(ChanLifeOf(s, id), es, id)
                       == ChanLived(ChanLifeOf(t, id), es[1..], id)
                  ensures LineLived(LineOf(s, id), es, id) == LineLived(LineOf(t, id), es[1..], id) {
          StepLives(s, e, id);
        }
        StepClean(s, e);
        PanicsIff(t, es[1..]);
      }
    }
  }

  lemma NotDead(s: Tables, id: nat)
    requires !s.panicked && Clean(s)
    ensures ChanLifeOf(s, id) != Crashed && !Panicked(LineOf(s, id))
  {
  }

  /** For the reader, from its first frame to its stop and whatever callers do afterwards: `rest` are the
      last acts before it stops, the stop itself, and what follows. */
  lemma ReaderPanicsIff(s: Tables, os: seq<Out>, env: nat -> Between, rest: seq<Ev>)
    requires !s.panicked && Clean(s) && Idle(s) && Routes(s, os, env, 0).Some?
    requires AllLegal(Routes(s, os, env, 0).value.s, rest)
    ensures var es := Trace(s, os, env, 0) + rest;
      Happens(Routes(s, os, env, 0).value.s, rest).panicked
      <==> exists id :: ChanLived(ChanLifeOf(s, id), es, id) == Crashed
                        || Panicked(LineLived(LineOf(s, id), es, id))
  {
    hide Routes, ChanLifeOf, LineOf, Trace, Panicked, AllLegal, Happens;
    RoutesHappen(s, os, env, 0);
    HappensAppend(s, Trace(s, os, env, 0), rest);
    PanicsIff(s, Trace(s, os, env, 0) + rest);
  }

  /** The shortest such runs. A channel is closed by its caller, and its response arrives. */
  lemma AnswerToClosedPanics(s: Tables, p: Response, env: nat -> Between)
    requires !s.panicked && p.id in s.reqs && !s.reqs[p.id].closed && WellFormed(Answer(p))
    requires env(0) == Between([CloseChan(p.id)], [], [])
    ensures Demux(s, EncodeResponse(p), env, 0).next.Panics?
  {
    var here := Acted(s, CloseChan(p.id));
    assert [CloseChan(p.id)][1..] == [];
    assert ActedAll(here, []) == here;
    assert ActedAll(s, [CloseChan(p.id)]) == here;
    assert EncodeOut(Answer(p)) + [] == EncodeResponse(p);
    ActedNothing(here);
    ActedNothing(Heard(here, Answer(p)));
    hide Turn, Prefix, ResponseTail;
    FrameRouted(here, Answer(p), [], env(0));
  }

  lemma ActedNothing(s: Tables)
    ensures ActedAll(s, []) == s
  {
  }

  /** And without any stream: a channel is closed by its caller, answered or not, and the connection
      ends. */
  lemma StopAfterClosePanics(s: Tables, id: nat)
    requires !s.panicked && id in s.reqs && !s.reqs[id].closed && s.lines == map[]
    ensures Happens(s, [Do(CloseChan(id)), Stop(None)]).panicked
    ensures AllLegal(s, [Do(CloseChan(id)), Stop(None)])
  {
    var es := [Do(CloseChan(id)), Stop(None)];
    var t := Acted(s, CloseChan(id));
    assert es[1..] == [Stop(None)];
    OneHappens(t, Stop(None));
    assert t.reqs[id].closed;
  }

  // ----- Where the reader waits for ever -----

  /** A turn hangs exactly when it has a message in hand, past the check of `addMsg`, for a stream where a
      receiver waits for room with the lock of the list (`StreamLane.PutInsideReceive`). */
  lemma HangsIff(s: Tables, o: Out, b: Between)
    requires !BeforeLock(s, o, b).panicked
    ensures var l := LineOf(BeforeLock(s, o, b), IdOf(o));
      FrameEnd(s, o, b).next.Hangs?
      <==> l.inHand.Some? && l.streams != [] && Last(l).waiting
  {
  }
}
