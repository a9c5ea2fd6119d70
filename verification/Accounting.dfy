/** Responses under interleaving (go/server.go): the reader loop, the handler goroutines it starts and
    the stream senders share one locked writer, which may write any frame in any number of pieces. */
module Accounting {
  import opened Bytes
  import opened Wire
  import opened Server

  /** A frame from server to client. */
  datatype Out = Answer(p: Response) | Push(g: Message)

  function EncodeOut(o: Out): seq<byte> {
    match o
    case Answer(p) => EncodeResponse(p)
    case Push(g) => EncodeMessage(g)
  }

  function EncodeOuts(os: seq<Out>): seq<byte> {
    if os == [] then [] else EncodeOuts(os[..|os| - 1]) + EncodeOut(os[|os| - 1])
  }

  /** The frame in the writer's hands: its owner holds the lock until all of it is written. */
  datatype Hold = Hold(frame: Out, done: nat, byLoop: bool)

  datatype State = State(
    todo: seq<Frame>,         // frames the loop has not read
    read: seq<Frame>,         // history: frames it has read
    owed: seq<Out>,           // what the loop itself has to write before it reads on
    running: multiset<nat>,   // ids of handlers that have not returned
    ready: seq<Response>,     // responses waiting for the lock
    said: seq<Message>,       // stream messages waiting for the lock
    hold: Option<Hold>,
    written: seq<Out>,        // history: frames completely written
    out: seq<byte>)           // the bytes on the connection

  function Init(frames: seq<Frame>): State {
    State(frames, [], [], multiset{}, [], [], None, [], [])
  }

  datatype Step =
    | Read(st: Streams)         // one turn of the loop
    | Finish(p: Response)       // a handler for p.id returns with this response
    | Say(g: Message)           // a stream handler sends
    | LockForLoop | LockForResponse(i: nat) | LockForMessage(i: nat)
    | Write(n: nat)             // n more bytes
    | Unlock

  predicate Enabled(cfg: Config, s: State, step: Step) {
    match step
    case Read(st) =>
      && s.todo != [] && Known(cfg, s.todo[0], st)
      && s.owed == [] && !(s.hold.Some? && s.hold.value.byLoop)
    case Finish(p) => p.id in s.running
    case Say(_) => true
    case LockForLoop => s.owed != [] && s.hold.None?
    case LockForResponse(i) => i < |s.ready| && s.hold.None?
    case LockForMessage(i) => i < |s.said| && s.hold.None?
    case Write(n) => s.hold.Some? && s.hold.value.done + n <= |EncodeOut(s.hold.value.frame)|
    case Unlock => s.hold.Some? && s.hold.value.done == |EncodeOut(s.hold.value.frame)|
  }

  /** The loop's own writes in a turn, and the handlers the turn starts. */
  function Owed(events: seq<Event>): seq<Out> {
    if events == [] then []
    else match events[0]
      case Reply(p) => [Answer(p)] + Owed(events[1..])
      case Notify(g) => [Push(g)] + Owed(events[1..])
      case _ => Owed(events[1..])
  }

  function Started(events: seq<Event>): multiset<nat> {
    if events == [] then multiset{}
    else (if events[0].Start? then multiset{events[0].req.id} else multiset{}) + Started(events[1..])
  }

  function Apply(cfg: Config, s: State, step: Step): State
    requires Enabled(cfg, s, step)
  {
    match step
    case Read(st) =>
      var events := Dispatch(cfg, s.todo[0], st);
      s.(todo := s.todo[1..], read := s.read + [s.todo[0]], owed := Owed(events),
         running := s.running + Started(events))
    case Finish(p) => s.(running := s.running - multiset{p.id}, ready := s.ready + [p])
    case Say(g) => s.(said := s.said + [g])
    case LockForLoop => s.(owed := s.owed[1..], hold := Some(Hold(s.owed[0], 0, true)))
    case LockForResponse(i) =>
      s.(ready := Without(s.ready, i), hold := Some(Hold(Answer(s.ready[i]), 0, false)))
    case LockForMessage(i) =>
      s.(said := Without(s.said, i), hold := Some(Hold(Push(s.said[i]), 0, false)))
    case Write(n) =>
      var h := s.hold.value;
      s.(out := s.out + EncodeOut(h.frame)[h.done..h.done + n],
         hold := Some(h.(done := h.done + n)))
    case Unlock => s.(written := s.written + [s.hold.value.frame], hold := None)
  }

  predicate Valid(cfg: Config, s: State, steps: seq<Step>)
    decreases |steps|
  {
    steps == [] || (Enabled(cfg, s, steps[0]) && Valid(cfg, Apply(cfg, s, steps[0]), steps[1..]))
  }

  function After(cfg: Config, s: State, steps: seq<Step>): State
    requires Valid(cfg, s, steps)
    decreases |steps|
  {
    if steps == [] then s else After(cfg, Apply(cfg, s, steps[0]), steps[1..])
  }

  // ----- Counting -----

  function Requests(fs: seq<Frame>, id: nat): nat {
    if fs == [] then 0
    else
      var f := fs[|fs| - 1];
      Requests(fs[..|fs| - 1], id) + if f.Req? && f.q.id == id then 1 else 0
  }

  function Answers(os: seq<Out>, id: nat): nat {
    if os == [] then 0
    else
      var o := os[|os| - 1];
      Answers(os[..|os| - 1], id) + if o.Answer? && o.p.id == id then 1 else 0
  }

  function Waiting(ps: seq<Response>, id: nat): nat {
    if ps == [] then 0
    else Waiting(ps[..|ps| - 1], id) + if ps[|ps| - 1].id == id then 1 else 0
  }

  function Held(h: Option<Hold>, id: nat): nat {
    if h.Some? && h.value.frame.Answer? && h.value.frame.p.id == id then 1 else 0
  }

  /** Requests of this id that were read and whose response is not completely written. */
  function InFlight(s: State, id: nat): nat {
    s.running[id] + Waiting(s.ready, id) + Answers(s.owed, id) + Held(s.hold, id)
  }

  predicate Balanced(s: State, id: nat) {
    Requests(s.read, id) == Answers(s.written, id) + InFlight(s, id)
  }

  /** The connection carries the written frames whole, then the part of the frame being written. */
  predicate WholeFrames(s: State) {
    && (s.hold.Some? ==> s.hold.value.done <= |EncodeOut(s.hold.value.frame)|)
    && s.out == EncodeOuts(s.written)
             + if s.hold.Some? then EncodeOut(s.hold.value.frame)[..s.hold.value.done] else []
  }

  // ----- Proofs -----

  lemma RequestsSnoc(fs: seq<Frame>, f: Frame, id: nat)
    ensures Requests(fs + [f], id) == Requests(fs, id) + if f.Req? && f.q.id == id then 1 else 0
  {
    assert (fs + [f])[..|fs|] == fs;
  }

  lemma AnswersSnoc(os: seq<Out>, o: Out, id: nat)
    ensures Answers(os + [o], id) == Answers(os, id) + if o.Answer? && o.p.id == id then 1 else 0
  {
    assert (os + [o])[..|os|] == os;
  }

  lemma WaitingSnoc(ps: seq<Response>, p: Response, id: nat)
    ensures Waiting(ps + [p], id) == Waiting(ps, id) + if p.id == id then 1 else 0
  {
    assert (ps + [p])[..|ps|] == ps;
  }

  lemma OutsSnoc(os: seq<Out>, o: Out)
    ensures EncodeOuts(os + [o]) == EncodeOuts(os) + EncodeOut(o)
  {
    assert (os + [o])[..|os|] == os;
  }

  lemma WithoutInit<T>(ps: seq<T>, i: nat)
    requires i < |ps|
    ensures var n := |ps| - 1;
      Without(ps, i) == if i == n then ps[..n] else Without(ps[..n], i) + [ps[n]]
  {
  }

  lemma {:induction false} WaitingWithout(ps: seq<Response>, i: nat, id: nat)
    requires i < |ps|
    ensures Waiting(ps, id) == Waiting(Without(ps, i), id) + if ps[i].id == id then 1 else 0
  {
    var n := |ps| - 1;
    WithoutInit(ps, i);
    hide Without;
    if i < n {
      WaitingWithout(ps[..n], i, id);
      WaitingSnoc(Without(ps[..n], i), ps[n], id);
    }
  }

  lemma ClosesCountNothing(events: seq<Event>)
    requires |events| <= 1 && (events != [] ==> events[0].CloseStream?)
    ensures Owed(events) == [] && Started(events) == multiset{}
  {
    if events != [] {
      assert events[1..] == [];
      assert Owed(events[1..]) == [];
      assert Started(events[1..]) == multiset{};
    }
  }

  lemma FirstEvent(e: Event, events: seq<Event>)
    ensures Owed([e] + events) == (if e.Reply? then [Answer(e.resp)] + Owed(events)
                                   else if e.Notify? then [Push(e.msg)] + Owed(events)
                                   else Owed(events))
    ensures Started([e] + events)
         == (if e.Start? then multiset{e.req.id} else multiset{}) + Started(events)
  {
    assert ([e] + events)[1..] == events;
  }

  lemma EventCounts(e: Event, events: seq<Event>, id: nat)
    requires |events| <= 1 && (events != [] ==> events[0].CloseStream?)
    ensures Started([e] + events)[id] == (if e.Start? && e.req.id == id then 1 else 0)
    ensures Answers(Owed([e] + events), id) == (if e.Reply? && e.resp.id == id then 1 else 0)
    ensures |Owed([e] + events)| <= 1
  {
    ClosesCountNothing(events);
    FirstEvent(e, events);
    hide Owed, Started;
    if e.Reply? {
      AnswersSnoc([], Answer(e.resp), id);
    } else if e.Notify? {
      AnswersSnoc([], Push(e.msg), id);
    }
  }

  lemma NoEvents(id: nat)
    ensures Started([]) == multiset{} && Owed([]) == [] && Answers([], id) == 0
  {
  }

  /** A turn on a request answers it at once or starts one handler for it, and nothing else; a turn
      on a stream message does neither. */
  lemma OneResponsePerRequest(cfg: Config, f: Frame, st: Streams, id: nat)
    ensures var events := Dispatch(cfg, f, st);
      && Started(events)[id] + Answers(Owed(events), id) == (if f.Req? && f.q.id == id then 1 else 0)
      && |Owed(events)| <= 1
  {
    hide Handled, Refusal, Server.DecimalBytes, Owed, Started, Answers;
    var events := Dispatch(cfg, f, st);
    if events == [] {
      NoEvents(id);
    } else {
      assert events == [events[0]] + events[1..];
      EventCounts(events[0], events[1..], id);
    }
  }

  lemma ReadBalances(cfg: Config, s: State, st: Streams, id: nat)
    requires Balanced(s, id) && Enabled(cfg, s, Read(st))
    ensures var t := Apply(cfg, s, Read(st)); Balanced(t, id) && |t.owed| <= 1
  {
    hide Dispatch, Owed, Started, EncodeOut, Known;
    OneResponsePerRequest(cfg, s.todo[0], st, id);
    RequestsSnoc(s.read, s.todo[0], id);
    assert Answers([], id) == 0;
  }

  lemma LockBalances(cfg: Config, s: State, step: Step, id: nat)
    requires Balanced(s, id) && Enabled(cfg, s, step) && |s.owed| <= 1
    requires step.LockForLoop? || step.LockForResponse? || step.LockForMessage?
    ensures var t := Apply(cfg, s, step); Balanced(t, id) && |t.owed| <= 1
  {
    hide Dispatch, Owed, Started, EncodeOut, Known, Without;
    match step
    case LockForLoop =>
      assert s.owed == [] + [s.owed[0]] && s.owed[1..] == [];
      AnswersSnoc([], s.owed[0], id);
    case LockForResponse(i) =>
      WaitingWithout(s.ready, i, id);
    case LockForMessage(_) =>
  }

  /** Every step keeps, for each id, the requests read equal to the responses written plus those in
      flight. */
  lemma StepBalances(cfg: Config, s: State, step: Step, id: nat)
    requires Balanced(s, id) && Enabled(cfg, s, step) && |s.owed| <= 1
    ensures var t := Apply(cfg, s, step); Balanced(t, id) && |t.owed| <= 1
  {
    match step
    case Read(st) => ReadBalances(cfg, s, st, id);
    case Finish(p) => WaitingSnoc(s.ready, p, id);
    case Say(_) =>
    case Write(_) =>
    case Unlock => AnswersSnoc(s.written, s.hold.value.frame, id);
    case _ => LockBalances(cfg, s, step, id);
  }

  lemma StepKeepsWhole(cfg: Config, s: State, step: Step)
    requires WholeFrames(s) && Enabled(cfg, s, step)
    ensures WholeFrames(Apply(cfg, s, step))
  {
    hide Dispatch, Owed, Started, EncodeOut;
    match step
    case Write(n) =>
      var h := s.hold.value;
      var b := EncodeOut(h.frame);
      ConcatAssociative(EncodeOuts(s.written), b[..h.done], b[h.done..h.done + n]);
      assert b[..h.done] + b[h.done..h.done + n] == b[..h.done + n];
    case Unlock =>
      var h := s.hold.value;
      OutsSnoc(s.written, h.frame);
      assert EncodeOut(h.frame)[..h.done] == EncodeOut(h.frame);
    case _ =>
  }

  lemma StepKeepsFrames(cfg: Config, s: State, step: Step)
    requires Enabled(cfg, s, step)
    ensures var t := Apply(cfg, s, step); t.read + t.todo == s.read + s.todo
  {
    hide Dispatch, Owed, Started, EncodeOut;
    if step.Read? {
      ConcatAssociative(s.read, [s.todo[0]], s.todo[1..]);
      assert [s.todo[0]] + s.todo[1..] == s.todo;
    }
  }

  lemma {:induction false} RunAccounts(cfg: Config, s: State, steps: seq<Step>, id: nat)
    requires Balanced(s, id) && WholeFrames(s) && |s.owed| <= 1 && Valid(cfg, s, steps)
    ensures var t := After(cfg, s, steps);
      Balanced(t, id) && WholeFrames(t) && t.read + t.todo == s.read + s.todo
    decreases |steps|
  {
    hide Apply, Balanced, WholeFrames, Enabled;
    if steps != [] {
      StepBalances(cfg, s, steps[0], id);
      StepKeepsWhole(cfg, s, steps[0]);
      StepKeepsFrames(cfg, s, steps[0]);
      RunAccounts(cfg, Apply(cfg, s, steps[0]), steps[1..], id);
    }
  }

  /** For every interleaving: of each id, the requests read are the responses completely written plus
      the ones in flight; and the bytes on the connection are whole frames, followed by a part of one
      only while its writer holds the lock. */
  lemma ResponsesConserved(cfg: Config, frames: seq<Frame>, steps: seq<Step>, id: nat)
    requires Valid(cfg, Init(frames), steps)
    ensures var t := After(cfg, Init(frames), steps);
      && t.read + t.todo == frames
      && Requests(t.read, id) == Answers(t.written, id) + InFlight(t, id)
      && (t.hold.None? ==> t.out == EncodeOuts(t.written))
  {
    RunAccounts(cfg, Init(frames), steps, id);
  }

  /** When everything read is answered, each id has exactly as many responses as requests. */
  lemma QuietServerAnsweredAll(cfg: Config, frames: seq<Frame>, steps: seq<Step>, id: nat)
    requires Valid(cfg, Init(frames), steps)
    requires var t := After(cfg, Init(frames), steps);
      t.todo == [] && t.owed == [] && t.running == multiset{} && t.ready == [] && t.hold == None
    ensures Answers(After(cfg, Init(frames), steps).written, id) == Requests(frames, id)
  {
    ResponsesConserved(cfg, frames, steps, id);
    var t := After(cfg, Init(frames), steps);
    assert t.read + [] == t.read;
  }

  // ----- Nothing is lost, changed or written twice -----

  /** What an event makes the loop write. */
  function OwedFor(e: Event): Option<Out> {
    match e case Reply(p) => Some(Answer(p)) case Notify(g) => Some(Push(g)) case _ => None
  }

  /** Everything that was given to the writer in a run: by the loop, by handlers that returned, and by
      stream handlers. */
  ghost function Handed(cfg: Config, s: State, steps: seq<Step>): multiset<Out>
    requires Valid(cfg, s, steps)
    decreases |steps|
  {
    if steps == [] then multiset{}
    else HandedBy(cfg, s, steps[0]) + Handed(cfg, Apply(cfg, s, steps[0]), steps[1..])
  }

  ghost function HandedBy(cfg: Config, s: State, step: Step): multiset<Out>
    requires Enabled(cfg, s, step)
  {
    match step
    case Read(st) => EventOuts(Dispatch(cfg, s.todo[0], st))
    case Finish(p) => multiset{Answer(p)}
    case Say(g) => multiset{Push(g)}
    case _ => multiset{}
  }

  ghost function EventOuts(events: seq<Event>): multiset<Out> {
    if events == [] then multiset{}
    else
      (if OwedFor(events[0]).Some? then multiset{OwedFor(events[0]).value} else multiset{})
      + EventOuts(events[1..])
  }

  lemma {:induction false} OwedOuts(events: seq<Event>)
    ensures multiset(Owed(events)) == EventOuts(events)
  {
    if events != [] {
      OwedOuts(events[1..]);
    }
  }

  ghost function Responses(ps: seq<Response>): seq<Out> {
    seq(|ps|, i requires 0 <= i < |ps| => Answer(ps[i]))
  }

  ghost function Pushes(gs: seq<Message>): seq<Out> {
    seq(|gs|, i requires 0 <= i < |gs| => Push(gs[i]))
  }

  /** What waits for the writer or is written. */
  ghost function Kept(s: State): multiset<Out> {
    multiset(s.owed) + multiset(Responses(s.ready)) + multiset(Pushes(s.said)) + multiset(s.written)
    + if s.hold.Some? then multiset{s.hold.value.frame} else multiset{}
  }

  lemma BagSnoc<T>(xs: seq<T>, x: T)
    ensures multiset(xs + [x]) == multiset(xs) + multiset{x}
  {
  }

  lemma BagWithout<T>(xs: seq<T>, i: nat)
    requires i < |xs|
    ensures multiset(xs) == multiset(Without(xs, i)) + multiset{xs[i]}
  {
    assert xs == xs[..i] + [xs[i]] + xs[i + 1..];
  }

  lemma ResponsesSnoc(ps: seq<Response>, p: Response)
    ensures multiset(Responses(ps + [p])) == multiset(Responses(ps)) + multiset{Answer(p)}
  {
    assert Responses(ps + [p]) == Responses(ps) + [Answer(p)];
    BagSnoc(Responses(ps), Answer(p));
  }

  lemma PushesSnoc(gs: seq<Message>, g: Message)
    ensures multiset(Pushes(gs + [g])) == multiset(Pushes(gs)) + multiset{Push(g)}
  {
    assert Pushes(gs + [g]) == Pushes(gs) + [Push(g)];
    BagSnoc(Pushes(gs), Push(g));
  }

  lemma ResponsesWithout(ps: seq<Response>, i: nat)
    requires i < |ps|
    ensures multiset(Responses(ps)) == multiset(Responses(Without(ps, i))) + multiset{Answer(ps[i])}
  {
    assert Responses(Without(ps, i)) == Without(Responses(ps), i);
    BagWithout(Responses(ps), i);
  }

  lemma PushesWithout(gs: seq<Message>, i: nat)
    requires i < |gs|
    ensures multiset(Pushes(gs)) == multiset(Pushes(Without(gs, i))) + multiset{Push(gs[i])}
  {
    assert Pushes(Without(gs, i)) == Without(Pushes(gs), i);
    BagWithout(Pushes(gs), i);
  }

  lemma LocksKeepOuts(cfg: Config, s: State, step: Step)
    requires Enabled(cfg, s, step)
    requires step.LockForLoop? || step.LockForResponse? || step.LockForMessage?
    ensures Kept(Apply(cfg, s, step)) == Kept(s)
  {
    hide Dispatch, Owed, Started, EncodeOut, Known, Without, Responses, Pushes;
    match step
    case LockForLoop =>
      assert multiset(s.owed) == multiset{s.owed[0]} + multiset(s.owed[1..]) by {
        assert s.owed == [s.owed[0]] + s.owed[1..];
      }
    case LockForResponse(i) => ResponsesWithout(s.ready, i);
    case LockForMessage(i) => PushesWithout(s.said, i);
  }

  lemma UnlockKeepsOuts(cfg: Config, s: State)
    requires Enabled(cfg, s, Unlock)
    ensures Kept(Apply(cfg, s, Unlock)) == Kept(s)
  {
    hide EncodeOut, Responses, Pushes;
    assert multiset(s.written + [s.hold.value.frame])
        == multiset(s.written) + multiset{s.hold.value.frame};
  }

  lemma HandingKeepsOuts(cfg: Config, s: State, step: Step)
    requires Enabled(cfg, s, step) && (step.Read? || step.Finish? || step.Say?)
    ensures Kept(Apply(cfg, s, step)) == Kept(s) + HandedBy(cfg, s, step)
  {
    hide Dispatch, Owed, Started, EncodeOut, Known, Responses, Pushes, EventOuts;
    match step
    case Read(st) => OwedOuts(Dispatch(cfg, s.todo[0], st));
    case Finish(p) => ResponsesSnoc(s.ready, p);
    case Say(g) => PushesSnoc(s.said, g);
  }

  lemma StepKeepsOuts(cfg: Config, s: State, step: Step)
    requires Enabled(cfg, s, step)
    ensures Kept(Apply(cfg, s, step)) == Kept(s) + HandedBy(cfg, s, step)
  {
    if step.Write? {
    } else if step.Unlock? {
      UnlockKeepsOuts(cfg, s);
    } else if step.Read? || step.Finish? || step.Say? {
      HandingKeepsOuts(cfg, s, step);
      hide Kept, Apply, Enabled;
    } else {
      LocksKeepOuts(cfg, s, step);
      hide Kept, Apply, Enabled;
    }
  }

  /** For every interleaving: what is written, together with what still waits, is exactly what the loop
      and the handlers gave, each frame as it was given and as often. */
  lemma {:induction false} OutputsConserved(cfg: Config, s: State, steps: seq<Step>)
    requires Valid(cfg, s, steps)
    ensures Kept(After(cfg, s, steps)) == Kept(s) + Handed(cfg, s, steps)
    decreases |steps|
  {
    hide Apply, Enabled, Kept, HandedBy;
    if steps != [] {
      StepKeepsOuts(cfg, s, steps[0]);
      OutputsConserved(cfg, Apply(cfg, s, steps[0]), steps[1..]);
    }
  }
}
