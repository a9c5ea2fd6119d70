/** The Julia client (julia/JtRPC/src/JtRPC.jl) as a step system: any number of `send!` calls and
    `close!` calls, one listener and a server, interleaved at every lock, write, read and swap.

    A call of `send!` is named by its place in the order of `atomic_add!`, and so is the channel it
    creates. Its request id is that number in 64 bits. Frames are values: a request is on the wire
    once its last byte is written, and the network may reorder and delay freely. */
module ClientLifecycle {
  import opened Bytes

  type Call = nat

  /** Where a call of `send!` is. */
  datatype Sender =
    | Numbered       // has its id; about to take the write lock
    | Rejected       // threw: a header is too long
    | HasWriteLock
    | HasBothLocks   // nothing written yet
    | HeadWritten    // everything but the body written
    | Written        // the whole frame is written, not yet in the table
    | Registered     // in the table; both locks held
    | ReleasedReqs   // the write lock held
    | Returned       // gave its channel to the caller
    | Threw          // a write failed
  {
    predicate HoldsWrite() { HasWriteLock? || HoldsReqs() || ReleasedReqs? }
    predicate HoldsReqs() { HasBothLocks? || HeadWritten? || Written? || Registered? }
    predicate Started() { HeadWritten? || Written? || Registered? || ReleasedReqs? }
    predicate InTable() { Registered? || ReleasedReqs? || Returned? }
    predicate Unwritten() { Numbered? || Rejected? || HasWriteLock? || HasBothLocks? || HeadWritten? }
  }

  /** Where the request, and then its response, is: claimed when the listener found its table
      entry, dropped when it found none. */
  datatype Flight = Unsent | OnWire | AtServer | InInbox | HeadRead | Claimed | Dropped {
    predicate Open() { OnWire? || AtServer? || InInbox? || HeadRead? }
  }

  /** What the listener takes for a response: the one to a call, or, once it reads inside a frame,
      whatever the bytes there say. */
  datatype Item = Of(call: Call) | Junk

  /** A response channel and what was put into it, in order. */
  datatype Chan = Chan(puts: seq<Item>, closed: bool)

  /** How much of a frame a failed write has sent. */
  datatype Portion = Nothing | Half | Whole

  datatype CallState = CallState(pc: Sender, flight: Flight, chan: Chan)

  /** The listener: `chan` is the channel of the entry it popped. */
  datatype Listener =
    | Waiting                        // at the top of its loop
    | GotHead(call: Call)            // read the id and flags of the response to `call`
    | GotJunk(id: nat)               // took eight bytes inside a frame for an id
    | Popped(item: Item, chan: Call)
    | BodyRead(item: Item, chan: Call)
    | Delivered(chan: Call)          // put the response; about to close the channel
    | Failing(chan: Call)            // an exception with the entry in hand
    | Broken                         // left its loop; about to call `close!`
    | Gone

  datatype Closer =
    | Entered
    | Lost         // `isclosed` was already set
    | Won          // set it
    | ConnClosed
    | Sweeping     // holds the table lock
    | Finished
  {
    predicate RunsBody() { Won? || ConnClosed? || Sweeping? || Finished? }
  }

  datatype Holder = BySender(call: Call) | ByCloser(closer: nat)

  datatype State = State(
    calls: seq<CallState>,
    checked: nat,                // threads past the closed check, not yet numbered
    reqs: map<nat, Call>,        // the request table: id to channel
    writeLock: Option<Holder>,
    reqsLock: Option<Holder>,
    listener: Listener,
    closers: seq<Closer>,
    isClosed: bool,
    connOpen: bool,
    winner: Option<nat>,         // history: the closer that set isClosed
    sweepBegan: bool,            // history: that closer has begun to clear the table
    threw: Option<Call>,         // history: a call whose write failed
    garbled: bool,               // a frame was left half written, or a response half read
    byListener: Option<nat>)     // history: the listener's own call of close!

  /** The id a call puts on the wire: `req_counter` has 64 bits. */
  function Id(c: Call): nat { c % TWO_64 }

  const INIT :=
    State([], 0, map[], None, None, Waiting, [], false, true, None, false, None, false, None)

  datatype Step =
    | Check | Number | Reject(c: Call)
    | LockWrite(c: Call) | LockReqs(c: Call)
    | WriteHead(c: Call) | WriteRest(c: Call) | WriteFails(c: Call, sent: Portion)
    | Register(c: Call) | UnlockReqs(c: Call) | UnlockWrite(c: Call)
    | ServerReads(c: Call) | ServerAnswers(c: Call)
    | ReadHead(c: Call) | ReadJunk(id: nat) | ReadFails | Pop | PopJunk | ReadBody | ReadBodyFails | Put | CloseChan | FailClose
    | ListenerCloses
    | CallClose | Swap(i: nat) | CloseConn(i: nat) | LockSweep(i: nat) | SweepOne(i: nat, id: nat)
    | SweepDone(i: nat)
    | UserCloses(c: Call)

  predicate At(s: State, c: Call, pc: Sender) { c < |s.calls| && s.calls[c].pc == pc }

  predicate In(s: State, c: Call, f: Flight) { c < |s.calls| && s.calls[c].flight == f }

  predicate CloserAt(s: State, i: nat, pc: Closer) { i < |s.closers| && s.closers[i] == pc }

  /** A step of a call of `send!`. */
  predicate IsSenders(step: Step) {
    step.Check? || step.Number? || step.Reject? || step.LockWrite? || step.LockReqs?
    || step.WriteHead? || step.WriteRest? || step.WriteFails? || step.Register?
    || step.UnlockReqs? || step.UnlockWrite?
  }

  /** A step of the listener. */
  predicate IsListeners(step: Step) {
    step.ReadHead? || step.ReadJunk? || step.ReadFails? || step.Pop? || step.PopJunk?
    || step.ReadBody? || step.ReadBodyFails? || step.Put? || step.CloseChan? || step.FailClose?
    || step.ListenerCloses?
  }

  predicate SenderCan(s: State, step: Step) {
    match step
    case Check => !s.isClosed
    case Number => s.checked > 0
    case Reject(c) => At(s, c, Numbered)
    case LockWrite(c) => At(s, c, Numbered) && s.writeLock == None
    case LockReqs(c) => At(s, c, HasWriteLock) && s.reqsLock == None
    case WriteHead(c) => At(s, c, HasBothLocks) && s.connOpen
    case WriteRest(c) => (At(s, c, HasBothLocks) || At(s, c, HeadWritten)) && s.connOpen
    case WriteFails(c, sent) =>
      (At(s, c, HasBothLocks) || At(s, c, HeadWritten)) && (!sent.Nothing? ==> s.connOpen)
    case Register(c) => At(s, c, Written)
    case UnlockReqs(c) => At(s, c, Registered)
    case UnlockWrite(c) => At(s, c, ReleasedReqs)
    case _ => false
  }

  predicate ListenerCan(s: State, step: Step) {
    match step
    case ReadHead(c) => s.listener == Waiting && In(s, c, InInbox)
    case ReadJunk(id) => s.listener == Waiting && s.garbled && id < TWO_64
    case ReadFails => s.listener == Waiting
    case Pop => s.listener.GotHead? && s.reqsLock == None && s.listener.call < |s.calls|
    case PopJunk => s.listener.GotJunk? && s.reqsLock == None
    case ReadBody => s.listener.Popped?
    case ReadBodyFails => s.listener.Popped?
    case Put => s.listener.BodyRead? && s.listener.chan < |s.calls|
    case CloseChan => s.listener.Delivered? && s.listener.chan < |s.calls|
    case FailClose => s.listener.Failing? && s.listener.chan < |s.calls|
    case ListenerCloses => s.listener == Broken
    case _ => false
  }

  /** A step of the server, of a closer or of a caller with its channel. */
  predicate OtherCan(s: State, step: Step) {
    match step
    case ServerReads(c) => In(s, c, OnWire)
    case ServerAnswers(c) => In(s, c, AtServer)
    case CallClose => true
    case Swap(i) => CloserAt(s, i, Entered)
    case CloseConn(i) => CloserAt(s, i, Won) && s.writeLock == None
    case LockSweep(i) => CloserAt(s, i, ConnClosed) && s.reqsLock == None
    case SweepOne(i, id) => CloserAt(s, i, Sweeping) && id in s.reqs && s.reqs[id] < |s.calls|
    case SweepDone(i) => CloserAt(s, i, Sweeping) && s.reqs == map[]
    case UserCloses(c) => At(s, c, Returned)
    case _ => false
  }

  predicate Enabled(s: State, step: Step) {
    if IsSenders(step) then SenderCan(s, step)
    else if IsListeners(step) then ListenerCan(s, step)
    else OtherCan(s, step)
  }

  function WithPc(s: State, c: Call, pc: Sender): (r: seq<CallState>)
    requires c < |s.calls|
    ensures |r| == |s.calls|
  {
    s.calls[c := s.calls[c].(pc := pc)]
  }

  function WithFlight(s: State, c: Call, f: Flight): (r: seq<CallState>)
    requires c < |s.calls|
    ensures |r| == |s.calls|
  {
    s.calls[c := s.calls[c].(flight := f)]
  }

  function WithClosed(s: State, c: Call): (r: seq<CallState>)
    requires c < |s.calls|
    ensures |r| == |s.calls|
  {
    s.calls[c := s.calls[c].(chan := Chan(s.calls[c].chan.puts, true))]
  }

  function SenderDoes(s: State, step: Step): State
    requires SenderCan(s, step)
  {
    match step
    case Check => s.(checked := s.checked + 1)
    case Number =>
      s.(checked := s.checked - 1,
         calls := s.calls + [CallState(Numbered, Unsent, Chan([], false))])
    case Reject(c) => s.(calls := WithPc(s, c, Rejected))
    case LockWrite(c) =>
      s.(calls := WithPc(s, c, HasWriteLock), writeLock := Some(BySender(c)))
    case LockReqs(c) =>
      s.(calls := WithPc(s, c, HasBothLocks), reqsLock := Some(BySender(c)))
    case WriteHead(c) => s.(calls := WithPc(s, c, HeadWritten))
    case WriteRest(c) =>
      s.(calls := s.calls[c := s.calls[c].(pc := Written, flight := OnWire)])
    case WriteFails(c, sent) =>
      var f := if sent.Whole? then OnWire else Unsent;
      s.(calls := s.calls[c := s.calls[c].(pc := Threw, flight := f)],
         writeLock := None, reqsLock := None, threw := Some(c), garbled := s.garbled || sent.Half?)
    case Register(c) =>
      s.(calls := WithPc(s, c, Registered), reqs := s.reqs[Id(c) := c])
    case UnlockReqs(c) => s.(calls := WithPc(s, c, ReleasedReqs), reqsLock := None)
    case UnlockWrite(c) => s.(calls := WithPc(s, c, Returned), writeLock := None)
  }

  function ListenerDoes(s: State, step: Step): State
    requires ListenerCan(s, step)
  {
    match step
    case ReadHead(c) => s.(calls := WithFlight(s, c, HeadRead), listener := GotHead(c))
    case ReadJunk(id) => s.(listener := GotJunk(id))
    case ReadFails => s.(listener := Broken)
    case Pop =>
      var c := s.listener.call;
      if Id(c) in s.reqs then
        s.(calls := WithFlight(s, c, Claimed), listener := Popped(Of(c), s.reqs[Id(c)]),
           reqs := s.reqs - {Id(c)})
      else
        s.(calls := WithFlight(s, c, Dropped), listener := Waiting, garbled := true)
    case PopJunk =>
      var id := s.listener.id;
      if id in s.reqs then
        s.(listener := Popped(Junk, s.reqs[id]), reqs := s.reqs - {id})
      else s.(listener := Waiting)
    case ReadBody => s.(listener := BodyRead(s.listener.item, s.listener.chan))
    case ReadBodyFails => s.(listener := Failing(s.listener.chan))
    case Put =>
      var ch := s.listener.chan;
      var chan := s.calls[ch].chan;
      if chan.closed then s.(listener := Failing(ch))
      else
        s.(calls := s.calls[ch := s.calls[ch].(chan := Chan(chan.puts + [s.listener.item], false))],
           listener := Delivered(ch))
    case CloseChan => s.(calls := WithClosed(s, s.listener.chan), listener := Waiting)
    case FailClose => s.(calls := WithClosed(s, s.listener.chan), listener := Broken)
    case ListenerCloses =>
      s.(listener := Gone, closers := s.closers + [Entered], byListener := Some(|s.closers|))
  }

  function OtherDoes(s: State, step: Step): State
    requires OtherCan(s, step)
  {
    match step
    case ServerReads(c) => s.(calls := WithFlight(s, c, AtServer))
    case ServerAnswers(c) => s.(calls := WithFlight(s, c, InInbox))
    case CallClose => s.(closers := s.closers + [Entered])
    case Swap(i) =>
      if s.isClosed then s.(closers := s.closers[i := Lost])
      else s.(isClosed := true, closers := s.closers[i := Won], winner := Some(i))
    case CloseConn(i) => s.(connOpen := false, closers := s.closers[i := ConnClosed])
    case LockSweep(i) =>
      s.(reqsLock := Some(ByCloser(i)), closers := s.closers[i := Sweeping], sweepBegan := true)
    case SweepOne(i, id) =>
      s.(calls := WithClosed(s, s.reqs[id]), reqs := s.reqs - {id})
    case SweepDone(i) => s.(reqsLock := None, closers := s.closers[i := Finished])
    case UserCloses(c) => s.(calls := WithClosed(s, c))
  }

  function Apply(s: State, step: Step): State
    requires Enabled(s, step)
  {
    if IsSenders(step) then SenderDoes(s, step)
    else if IsListeners(step) then ListenerDoes(s, step)
    else OtherDoes(s, step)
  }

  // ----- Runs -----

  predicate Valid(s: State, steps: seq<Step>)
    decreases |steps|
  {
    steps == [] || (Enabled(s, steps[0]) && Valid(Apply(s, steps[0]), steps[1..]))
  }

  function After(s: State, steps: seq<Step>): State
    requires Valid(s, steps)
    decreases |steps|
  {
    if steps == [] then s else After(Apply(s, steps[0]), steps[1..])
  }

  // ----- The invariant -----

  /** The listener has taken this channel out of the table and is not done with it. */
  predicate Held(l: Listener, c: Call) {
    (l.Popped? || l.BodyRead? || l.Delivered? || l.Failing?) && l.chan == c
  }

  /** While no two calls have the same id, an id names its call and so its channel. */
  predicate InTable(s: State, c: Call) {
    c in s.reqs && s.reqs[c] == c
  }

  /** The channel has its response, is closed, or is the one the listener holds. */
  predicate Settled(s: State, c: Call)
    requires c < |s.calls|
  {
    s.calls[c].chan.puts != [] || s.calls[c].chan.closed || Held(s.listener, c)
  }

  predicate CallInv(s: State, c: Call) {
    c < |s.calls| &&
    var x := s.calls[c];
    // it holds each lock exactly where its place in the code says so
    && (x.pc.HoldsWrite() <==> s.writeLock == Some(BySender(c)))
    && (x.pc.HoldsReqs() <==> s.reqsLock == Some(BySender(c)))
    // no frame is begun, nor half written, once the connection is closed
    && (!s.connOpen ==> !x.pc.Started())
    // until it is in the table nobody else knows its channel
    && (x.pc.Unwritten() ==> x.flight == Unsent && x.chan == Chan([], false))
    && (x.pc.Written? ==> x.flight.Open() && x.chan == Chan([], false))
    // a table entry is a returned or returning call whose response nobody has claimed
    && (c in s.reqs ==> InTable(s, c) && x.pc.InTable() && x.flight.Open() && x.chan.puts == [])
    // an open request is in the table
    && (x.flight.Open() ==>
        x.pc.Threw? || x.pc.Written? || InTable(s, c) || s.sweepBegan || s.garbled)
    && (x.flight.Dropped? ==> x.pc.Threw? || s.sweepBegan || s.garbled)
    && (x.pc.Threw? ==> s.threw.Some?)
    && (x.flight.HeadRead? ==> s.listener == GotHead(c))
    // the channel gets at most one response, its own, and is not lost
    && (x.chan.puts == [] || x.chan.puts == [Of(c)] || (s.garbled && x.chan.puts == [Junk]))
    && (x.pc.InTable() ==> InTable(s, c) || Settled(s, c))
    // once it has its response it is closed, or about to be
    && (x.chan.puts != [] ==> x.chan.closed || s.listener == Delivered(c))
  }

  /** A closer runs the body of `close!` exactly when it is the one that set `isclosed`. */
  predicate CloserInv(s: State, i: nat) {
    && i < |s.closers| && (s.closers[i].RunsBody() <==> s.winner == Some(i))
    && (s.closers[i].Lost? ==> s.isClosed)
  }

  predicate GlobalInv(s: State) {
    && (s.isClosed <==> s.winner.Some?)
    && (s.winner.None? ==> s.connOpen && !s.sweepBegan)
    && (s.winner.Some? ==>
        && CloserInv(s, s.winner.value)
        && var pc := s.closers[s.winner.value];
           && (s.connOpen <==> pc.Won?)
           && (s.sweepBegan <==> pc.Sweeping? || pc.Finished?)
           && (pc.Sweeping? ==> s.reqsLock == Some(ByCloser(s.winner.value)))
           && (pc.Finished? ==> s.reqs == map[]))
    && (s.writeLock.Some? ==> s.writeLock.value.BySender? && s.writeLock.value.call < |s.calls|)
    && (s.reqsLock.Some? ==>
        match s.reqsLock.value
        case BySender(c) => c < |s.calls|
        case ByCloser(i) => CloserAt(s, i, Sweeping))
    && (s.threw.Some? ==> At(s, s.threw.value, Threw))
    && (s.garbled ==> s.threw.Some? || s.sweepBegan)
    && (s.listener.Gone? <==> s.byListener.Some?)
    && (s.byListener.Some? ==> s.byListener.value < |s.closers|)
    && match s.listener
       case GotHead(c) => In(s, c, HeadRead)
       case GotJunk(_) => s.garbled
       case Popped(item, ch) => HasOut(s, ch) && ItemFor(s, item, ch) && s.calls[ch].chan.puts == []
       case BodyRead(item, ch) => HasOut(s, ch) && ItemFor(s, item, ch) && s.calls[ch].chan.puts == []
       case Delivered(ch) => HasOut(s, ch) && s.calls[ch].chan.puts != []
       case Failing(ch) => HasOut(s, ch)
       case _ => true
  }

  /** The listener has taken this returned or returning call out of the table. */
  predicate HasOut(s: State, ch: Call) {
    ch < |s.calls| && ch !in s.reqs && s.calls[ch].pc.InTable()
  }

  /** What it has for the channel is the response to the call, unless it reads inside a frame. */
  predicate ItemFor(s: State, item: Item, ch: Call) {
    match item
    case Of(c) => c == ch && In(s, ch, Claimed)
    case Junk => s.garbled
  }

  predicate Inv(s: State) {
    && GlobalInv(s)
    && (forall id | id in s.reqs :: id < |s.calls|)
    && (forall c: Call | c < |s.calls| :: CallInv(s, c))
    && (forall i: nat | i < |s.closers| :: CloserInv(s, i))
  }

  /** At most 2^64 calls so far, so no two have the same id. */
  predicate NoWrap(s: State) { |s.calls| <= TWO_64 }

  /** The call whose record a step changes. */
  function Actor(s: State, step: Step): Option<Call> {
    match step
    case Reject(c) => Some(c) case LockWrite(c) => Some(c) case LockReqs(c) => Some(c)
    case WriteHead(c) => Some(c) case WriteRest(c) => Some(c) case WriteFails(c, _) => Some(c)
    case Register(c) => Some(c) case UnlockReqs(c) => Some(c) case UnlockWrite(c) => Some(c)
    case ServerReads(c) => Some(c) case ServerAnswers(c) => Some(c) case ReadHead(c) => Some(c)
    case UserCloses(c) => Some(c) case SweepOne(_, id) => Some(id)
    case Pop => if s.listener.GotHead? then Some(s.listener.call) else None
    case PopJunk =>
      if s.listener.GotJunk? && s.listener.id in s.reqs then Some(s.listener.id) else None
    case Put => if s.listener.BodyRead? then Some(s.listener.chan) else None
    case CloseChan => if s.listener.Delivered? then Some(s.listener.chan) else None
    case FailClose => if s.listener.Failing? then Some(s.listener.chan) else None
    case _ => None
  }

  function CloserOf(step: Step): Option<nat> {
    match step
    case Swap(i) => Some(i) case CloseConn(i) => Some(i) case LockSweep(i) => Some(i)
    case SweepOne(i, _) => Some(i) case SweepDone(i) => Some(i)
    case _ => None
  }

  /** What a step may rely on: the shared state, the call it moves and the closer it moves. */
  predicate Ready(s: State, step: Step) {
    && GlobalInv(s) && Enabled(s, step) && NoWrap(Apply(s, step))
    && (Actor(s, step).Some? ==> CallInv(s, Actor(s, step).value))
    && (CloserOf(step).Some? ==> CloserInv(s, CloserOf(step).value))
  }

  lemma NumberingKept(s: State, step: Step, c: Call)
    requires Ready(s, step) && CallInv(s, c)
    requires step.Check? || step.Number? || step.Reject?
    ensures CallInv(Apply(s, step), c)
  {
    hide ListenerDoes, ListenerCan, OtherDoes, OtherCan;
  }

  lemma LockingKept(s: State, step: Step, c: Call)
    requires Ready(s, step) && CallInv(s, c)
    requires step.LockWrite? || step.LockReqs?
    ensures CallInv(Apply(s, step), c)
  {
    hide ListenerDoes, ListenerCan, OtherDoes, OtherCan;
  }

  lemma WritingKept(s: State, step: Step, c: Call)
    requires Ready(s, step) && CallInv(s, c)
    requires step.WriteHead? || step.WriteRest? || step.WriteFails?
    ensures CallInv(Apply(s, step), c)
  {
    hide ListenerDoes, ListenerCan, OtherDoes, OtherCan;
  }

  lemma ReleasingKept(s: State, step: Step, c: Call)
    requires Ready(s, step) && CallInv(s, c)
    requires step.Register? || step.UnlockReqs? || step.UnlockWrite?
    ensures CallInv(Apply(s, step), c)
  {
    hide ListenerDoes, ListenerCan, OtherDoes, OtherCan;
  }

  lemma ServingKept(s: State, step: Step, c: Call)
    requires Ready(s, step) && CallInv(s, c)
    requires step.ServerReads? || step.ServerAnswers?
    ensures CallInv(Apply(s, step), c)
  {
    hide SenderDoes, SenderCan, ListenerDoes, ListenerCan;
  }

  lemma HearingKept(s: State, step: Step, c: Call)
    requires Ready(s, step) && CallInv(s, c)
    requires step.ReadHead? || step.ReadJunk? || step.ReadFails?
    ensures CallInv(Apply(s, step), c)
  {
    hide SenderDoes, SenderCan, OtherDoes, OtherCan;
  }

  lemma PopIs(s: State)
    requires Enabled(s, Pop)
    ensures s.listener.GotHead? && s.listener.call < |s.calls|
    ensures var c := s.listener.call;
      Apply(s, Pop) ==
      if Id(c) in s.reqs then
        s.(calls := WithFlight(s, c, Claimed), listener := Popped(Of(c), s.reqs[Id(c)]),
           reqs := s.reqs - {Id(c)})
      else s.(calls := WithFlight(s, c, Dropped), listener := Waiting, garbled := true)
  {
    hide SenderDoes, SenderCan, OtherDoes, OtherCan;
  }

  lemma PopKept(s: State, c: Call)
    requires Ready(s, Pop) && CallInv(s, c)
    ensures CallInv(Apply(s, Pop), c)
  {
    PopIs(s);
    hide Apply, Enabled, HasOut, ItemFor;
  }

  lemma PopJunkIs(s: State)
    requires Enabled(s, PopJunk)
    ensures s.listener.GotJunk?
    ensures var id := s.listener.id;
      Apply(s, PopJunk) ==
      if id in s.reqs then s.(listener := Popped(Junk, s.reqs[id]), reqs := s.reqs - {id})
      else s.(listener := Waiting)
  {
    hide SenderDoes, SenderCan, OtherDoes, OtherCan;
  }

  lemma PopJunkKept(s: State, c: Call)
    requires Ready(s, PopJunk) && CallInv(s, c)
    ensures CallInv(Apply(s, PopJunk), c)
  {
    PopJunkIs(s);
    hide Apply, Enabled, HasOut, ItemFor;
  }

  lemma ReadingKept(s: State, step: Step, c: Call)
    requires Ready(s, step) && CallInv(s, c)
    requires step.ReadBody? || step.ReadBodyFails?
    ensures CallInv(Apply(s, step), c)
  {
    hide SenderDoes, SenderCan, OtherDoes, OtherCan;
  }

  lemma PutIs(s: State)
    requires Enabled(s, Put)
    ensures s.listener.BodyRead? && s.listener.chan < |s.calls|
    ensures var ch := s.listener.chan; var x := s.calls[ch];
      Apply(s, Put) ==
      if x.chan.closed then s.(listener := Failing(ch))
      else s.(calls := s.calls[ch := x.(chan := Chan(x.chan.puts + [s.listener.item], false))],
              listener := Delivered(ch))
  {
    hide SenderDoes, SenderCan, OtherDoes, OtherCan;
  }

  lemma PutKept(s: State, c: Call)
    requires GlobalInv(s) && Enabled(s, Put) && CallInv(s, c)
    ensures CallInv(Apply(s, Put), c)
  {
    PutIs(s);
    hide Apply, Enabled, HasOut, CloserInv;
    var ch := s.listener.chan;
    assert s.calls[ch].chan.puts + [s.listener.item] == [s.listener.item];
  }

  lemma SettlingKept(s: State, step: Step, c: Call)
    requires Ready(s, step) && CallInv(s, c)
    requires step.CloseChan? || step.FailClose?
    ensures CallInv(Apply(s, step), c)
  {
    hide SenderDoes, SenderCan, OtherDoes, OtherCan;
  }

  lemma LeavingKept(s: State, step: Step, c: Call)
    requires Ready(s, step) && CallInv(s, c)
    requires step.UserCloses? || step.ListenerCloses?
    ensures CallInv(Apply(s, step), c)
  {
    hide SenderDoes, SenderCan;
  }

  lemma ClosingKept(s: State, step: Step, c: Call)
    requires Ready(s, step) && CallInv(s, c)
    requires step.CallClose? || step.Swap? || step.CloseConn?
    ensures CallInv(Apply(s, step), c)
  {
    hide SenderDoes, SenderCan, ListenerDoes, ListenerCan;
  }

  lemma SweepingKept(s: State, step: Step, c: Call)
    requires Ready(s, step) && CallInv(s, c)
    requires step.LockSweep? || step.SweepOne? || step.SweepDone?
    ensures CallInv(Apply(s, step), c)
  {
    hide SenderDoes, SenderCan, ListenerDoes, ListenerCan;
  }

  lemma ReadyPut(s: State)
    requires Ready(s, Put)
    ensures GlobalInv(s) && Enabled(s, Put)
  {
  }

  lemma CallKept(s: State, step: Step, c: Call)
    requires Ready(s, step) && CallInv(s, c)
    ensures CallInv(Apply(s, step), c)
  {
    hide Ready, CallInv;
    if step.Check? || step.Number? || step.Reject? {
      NumberingKept(s, step, c);
    } else if step.LockWrite? || step.LockReqs? {
      LockingKept(s, step, c);
    } else if step.WriteHead? || step.WriteRest? || step.WriteFails? {
      WritingKept(s, step, c);
    } else if step.Register? || step.UnlockReqs? || step.UnlockWrite? {
      ReleasingKept(s, step, c);
    } else if step.ServerReads? || step.ServerAnswers? {
      ServingKept(s, step, c);
    } else if step.ReadHead? || step.ReadJunk? || step.ReadFails? {
      HearingKept(s, step, c);
    } else if step.Pop? {
      PopKept(s, c);
    } else if step.PopJunk? {
      PopJunkKept(s, c);
    } else if step.ReadBody? || step.ReadBodyFails? {
      ReadingKept(s, step, c);
    } else if step.Put? {
      ReadyPut(s);
      PutKept(s, c);
    } else if step.CloseChan? || step.FailClose? {
      SettlingKept(s, step, c);
    } else if step.UserCloses? || step.ListenerCloses? {
      LeavingKept(s, step, c);
    } else if step.CallClose? || step.Swap? || step.CloseConn? {
      ClosingKept(s, step, c);
    } else {
      SweepingKept(s, step, c);
    }
  }

  lemma LockingShared(s: State, step: Step)
    requires Ready(s, step)
    requires step.Check? || step.Number? || step.Reject? || step.LockWrite? || step.LockReqs?
    ensures GlobalInv(Apply(s, step))
  {
    hide ListenerDoes, ListenerCan, OtherDoes, OtherCan;
  }

  lemma WritingShared(s: State, step: Step)
    requires Ready(s, step)
    requires step.WriteHead? || step.WriteRest? || step.WriteFails?
    ensures GlobalInv(Apply(s, step))
  {
    hide ListenerDoes, ListenerCan, OtherDoes, OtherCan;
    hide Id, WithFlight, WithClosed;
  }

  lemma RegisterShared(s: State, c: Call)
    requires Ready(s, Register(c))
    ensures GlobalInv(Apply(s, Register(c)))
  {
    hide ListenerDoes, ListenerCan, OtherDoes, OtherCan;
    hide WithFlight, WithClosed;
  }

  lemma ReturningShared(s: State, step: Step)
    requires Ready(s, step)
    requires step.UnlockReqs? || step.UnlockWrite?
    ensures GlobalInv(Apply(s, step))
  {
    hide ListenerDoes, ListenerCan, OtherDoes, OtherCan;
  }

  lemma ServingShared(s: State, step: Step)
    requires Ready(s, step)
    requires step.ServerReads? || step.ServerAnswers?
    ensures GlobalInv(Apply(s, step))
  {
    hide SenderDoes, SenderCan, ListenerDoes, ListenerCan;
  }

  lemma ReadingShared(s: State, step: Step)
    requires Ready(s, step)
    requires step.ReadHead? || step.ReadJunk? || step.ReadFails? || step.ReadBody? || step.ReadBodyFails?
    ensures GlobalInv(Apply(s, step))
  {
    hide SenderDoes, SenderCan, OtherDoes, OtherCan;
  }

  lemma PoppingShared(s: State, step: Step)
    requires Ready(s, step)
    requires step.Pop? || step.PopJunk?
    ensures GlobalInv(Apply(s, step))
  {
    hide SenderDoes, SenderCan, OtherDoes, OtherCan;
  }

  lemma PutShared(s: State)
    requires GlobalInv(s) && Enabled(s, Put)
    ensures GlobalInv(Apply(s, Put))
  {
    PutIs(s);
    hide Apply, Enabled;
    var ch := s.listener.chan;
    assert s.calls[ch].chan.puts + [s.listener.item] == [s.listener.item];
  }

  lemma CloseChanShared(s: State)
    requires Ready(s, CloseChan)
    ensures GlobalInv(Apply(s, CloseChan))
  {
    hide SenderDoes, SenderCan, OtherDoes, OtherCan;
    hide CallInv, WithPc, WithFlight, Id;
  }

  lemma LeavingShared(s: State, step: Step)
    requires Ready(s, step)
    requires step.FailClose? || step.UserCloses? || step.ListenerCloses?
    ensures GlobalInv(Apply(s, step))
  {
    hide SenderDoes, SenderCan;
    hide CallInv, WithPc, WithFlight, Id;
  }

  lemma ClosingShared(s: State, step: Step)
    requires Ready(s, step)
    requires step.CallClose? || step.Swap? || step.CloseConn?
    ensures GlobalInv(Apply(s, step))
  {
    hide SenderDoes, SenderCan, ListenerDoes, ListenerCan;
    hide CallInv, WithPc, WithFlight, WithClosed, Id;
  }

  lemma SweepingShared(s: State, step: Step)
    requires Ready(s, step)
    requires step.LockSweep? || step.SweepOne? || step.SweepDone?
    ensures GlobalInv(Apply(s, step))
  {
    hide SenderDoes, SenderCan, ListenerDoes, ListenerCan;
  }

  lemma GlobalKept(s: State, step: Step)
    requires Ready(s, step)
    ensures GlobalInv(Apply(s, step))
  {
    hide Ready, GlobalInv;
    if step.Check? || step.Number? || step.Reject? || step.LockWrite? || step.LockReqs? {
      LockingShared(s, step);
    } else if step.WriteHead? || step.WriteRest? || step.WriteFails? {
      WritingShared(s, step);
    } else if step.Register? {
      RegisterShared(s, step.c);
    } else if step.UnlockReqs? || step.UnlockWrite? {
      ReturningShared(s, step);
    } else if step.ServerReads? || step.ServerAnswers? {
      ServingShared(s, step);
    } else if step.ReadHead? || step.ReadJunk? || step.ReadFails? || step.ReadBody? || step.ReadBodyFails? {
      ReadingShared(s, step);
    } else if step.Pop? || step.PopJunk? {
      PoppingShared(s, step);
    } else if step.Put? {
      ReadyPut(s);
      PutShared(s);
    } else if step.CloseChan? {
      CloseChanShared(s);
    } else if step.FailClose? || step.UserCloses? || step.ListenerCloses? {
      LeavingShared(s, step);
    } else if step.CallClose? || step.Swap? || step.CloseConn? {
      ClosingShared(s, step);
    } else {
      SweepingShared(s, step);
    }
  }

  /** The closers alone, after a step. */
  function NextClosers(s: State, step: Step): seq<Closer>
    requires CloserOf(step).Some? ==> CloserOf(step).value < |s.closers|
  {
    match step
    case ListenerCloses => s.closers + [Entered]
    case CallClose => s.closers + [Entered]
    case Swap(i) => s.closers[i := if s.isClosed then Lost else Won]
    case CloseConn(i) => s.closers[i := ConnClosed]
    case LockSweep(i) => s.closers[i := Sweeping]
    case SweepDone(i) => s.closers[i := Finished]
    case _ => s.closers
  }

  lemma SendersApply(s: State, step: Step)
    requires Enabled(s, step) && IsSenders(step)
    ensures SenderCan(s, step) && Apply(s, step) == SenderDoes(s, step)
  {
    hide SenderCan, SenderDoes;
  }

  lemma ListenersApply(s: State, step: Step)
    requires Enabled(s, step) && IsListeners(step)
    ensures ListenerCan(s, step) && Apply(s, step) == ListenerDoes(s, step)
  {
    hide ListenerCan, ListenerDoes;
  }

  lemma OthersApply(s: State, step: Step)
    requires Enabled(s, step) && !IsSenders(step) && !IsListeners(step)
    ensures OtherCan(s, step) && Apply(s, step) == OtherDoes(s, step)
  {
    hide OtherCan, OtherDoes;
  }

  lemma CloserThere(s: State, step: Step)
    requires Enabled(s, step)
    ensures CloserOf(step).Some? ==> CloserOf(step).value < |s.closers|
  {
    hide SenderCan, ListenerCan;
  }

  lemma SendersClosers(s: State, step: Step)
    requires Enabled(s, step) && IsSenders(step)
    ensures var t := Apply(s, step);
      t.closers == s.closers && t.winner == s.winner && t.isClosed == s.isClosed
  {
    SendersApply(s, step);
    hide Apply, Enabled, IsSenders, WithPc, WithFlight, WithClosed, Id;
  }

  lemma ListenersClosers(s: State, step: Step)
    requires Enabled(s, step) && IsListeners(step)
    ensures var t := Apply(s, step);
      && t.closers == (if step.ListenerCloses? then s.closers + [Entered] else s.closers)
      && t.winner == s.winner && t.isClosed == s.isClosed
  {
    ListenersApply(s, step);
    hide Apply, Enabled, IsSenders, WithPc, WithFlight, WithClosed, Id;
  }

  lemma OthersClosers(s: State, step: Step)
    requires Enabled(s, step) && !IsSenders(step) && !IsListeners(step)
    requires CloserOf(step).Some? ==> CloserOf(step).value < |s.closers|
    ensures var t := Apply(s, step);
      && t.closers == NextClosers(s, step)
      && (!step.Swap? ==> t.winner == s.winner && t.isClosed == s.isClosed)
  {
    OthersApply(s, step);
    hide Apply, Enabled, IsSenders, WithPc, WithFlight, WithClosed, Id;
  }

  lemma ClosersAfter(s: State, step: Step)
    requires Enabled(s, step)
    ensures CloserOf(step).Some? ==> CloserOf(step).value < |s.closers|
    ensures Apply(s, step).closers == NextClosers(s, step)
    ensures !step.Swap? ==>
      Apply(s, step).winner == s.winner && Apply(s, step).isClosed == s.isClosed
  {
    CloserThere(s, step);
    hide Apply, Enabled;
    if IsSenders(step) {
      SendersClosers(s, step);
    } else if IsListeners(step) {
      ListenersClosers(s, step);
    } else {
      OthersClosers(s, step);
    }
  }

  /** Only the swap changes who runs the body. */
  lemma CloserUnmoved(s: State, step: Step, i: nat)
    requires Enabled(s, step) && !step.Swap? && i < |s.closers|
    ensures var t := Apply(s, step);
      && i < |t.closers| && t.winner == s.winner && t.isClosed == s.isClosed
      && t.closers[i].RunsBody() == s.closers[i].RunsBody()
      && t.closers[i].Lost? == s.closers[i].Lost?
  {
    ClosersAfter(s, step);
    if CloserOf(step).Some? { CloserHere(s, step); }
    hide Apply, Enabled;
  }

  lemma CloserHere(s: State, step: Step)
    requires Enabled(s, step) && !step.Swap? && CloserOf(step).Some?
    ensures CloserOf(step).value < |s.closers| && s.closers[CloserOf(step).value].RunsBody()
  {
    hide SenderCan, ListenerCan;
  }

  lemma SwapKept(s: State, j: nat, i: nat)
    requires Ready(s, Swap(j)) && CloserInv(s, i)
    ensures CloserInv(Apply(s, Swap(j)), i)
  {
    hide CallInv, SenderDoes, SenderCan, ListenerDoes, ListenerCan, WithPc, WithFlight, WithClosed, Id,
      HasOut, ItemFor;
  }

  lemma CloserKept(s: State, step: Step, i: nat)
    requires Ready(s, step) && CloserInv(s, i)
    ensures CloserInv(Apply(s, step), i)
  {
    if step.Swap? {
      SwapKept(s, step.i, i);
    } else {
      hide CallInv, GlobalInv, Apply;
      CloserUnmoved(s, step, i);
    }
  }

  lemma SendersCalls(s: State, step: Step)
    requires Enabled(s, step) && IsSenders(step)
    ensures |Apply(s, step).calls| == |s.calls| + if step.Number? then 1 else 0
  {
    SendersApply(s, step);
    hide Apply, Enabled, IsSenders, WithPc, WithFlight, WithClosed, Id;
  }

  lemma ListenersCalls(s: State, step: Step)
    requires Enabled(s, step) && IsListeners(step)
    ensures |Apply(s, step).calls| == |s.calls|
  {
    ListenersApply(s, step);
    hide Apply, Enabled, IsSenders, WithPc, WithFlight, WithClosed, Id;
  }

  lemma OthersCalls(s: State, step: Step)
    requires Enabled(s, step) && !IsSenders(step) && !IsListeners(step)
    ensures |Apply(s, step).calls| == |s.calls|
  {
    OthersApply(s, step);
    hide Apply, Enabled, IsSenders, WithPc, WithFlight, WithClosed, Id;
  }

  lemma CallsGrow(s: State, step: Step)
    requires Enabled(s, step)
    ensures |Apply(s, step).calls| == |s.calls| + if step.Number? then 1 else 0
  {
    hide Apply, Enabled;
    if IsSenders(step) {
      SendersCalls(s, step);
    } else if IsListeners(step) {
      ListenersCalls(s, step);
    } else {
      OthersCalls(s, step);
    }
  }

  lemma Growth(s: State, step: Step)
    requires Enabled(s, step)
    ensures |Apply(s, step).calls| == |s.calls| + if step.Number? then 1 else 0
    ensures |Apply(s, step).closers|
         == |s.closers| + if step.CallClose? || step.ListenerCloses? then 1 else 0
  {
    CallsGrow(s, step);
    ClosersAfter(s, step);
    hide Apply, Enabled;
  }

  lemma NewCloser(s: State, step: Step)
    requires Ready(s, step) && (step.CallClose? || step.ListenerCloses?)
    ensures CloserInv(Apply(s, step), |s.closers|)
  {
    hide CallInv;
  }

  lemma NewCall(s: State)
    requires Ready(s, Number) && forall id | id in s.reqs :: id < |s.calls|
    ensures CallInv(Apply(s, Number), |s.calls|)
  {
  }

  lemma SendersTable(s: State, step: Step)
    requires Enabled(s, step) && IsSenders(step)
    ensures forall id | id in Apply(s, step).reqs ::
      id in s.reqs || (step.Register? && id == Id(step.c) && step.c < |s.calls|)
  {
    SendersApply(s, step);
    hide Apply, Enabled, IsSenders, WithPc, WithFlight, WithClosed, Id;
  }

  lemma ListenersTable(s: State, step: Step)
    requires Enabled(s, step) && IsListeners(step)
    ensures forall id | id in Apply(s, step).reqs :: id in s.reqs
  {
    ListenersApply(s, step);
    hide Apply, Enabled, IsSenders, WithPc, WithFlight, WithClosed, Id;
  }

  lemma OthersTable(s: State, step: Step)
    requires Enabled(s, step) && !IsSenders(step) && !IsListeners(step)
    ensures forall id | id in Apply(s, step).reqs :: id in s.reqs
  {
    OthersApply(s, step);
    hide Apply, Enabled, IsSenders, WithPc, WithFlight, WithClosed, Id;
  }

  lemma TableBound(s: State, step: Step)
    requires Ready(s, step) && forall id | id in s.reqs :: id < |s.calls|
    ensures forall id | id in Apply(s, step).reqs :: id < |s.calls|
  {
    hide CallInv, GlobalInv, CloserInv, Apply, Enabled;
    if IsSenders(step) {
      SendersTable(s, step);
    } else if IsListeners(step) {
      ListenersTable(s, step);
    } else {
      OthersTable(s, step);
    }
  }

  lemma StepKeepsInv(s: State, step: Step)
    requires Inv(s) && Enabled(s, step) && NoWrap(Apply(s, step))
    ensures Inv(Apply(s, step))
  {
    var t := Apply(s, step);
    assert Ready(s, step) by { ActorInv(s, step); }
    hide Ready, CallInv, CloserInv, Enabled;
    GlobalKept(s, step);
    TableBound(s, step);
    Growth(s, step);
    forall c: Call | c < |t.calls| ensures CallInv(t, c) {
      if c < |s.calls| { CallKept(s, step, c); } else { NewCall(s); }
    }
    forall i: nat | i < |t.closers| ensures CloserInv(t, i) {
      if i < |s.closers| { CloserKept(s, step, i); } else { NewCloser(s, step); }
    }
  }

  lemma ActorInv(s: State, step: Step)
    requires Inv(s) && Enabled(s, step)
    ensures Actor(s, step).Some? ==> CallInv(s, Actor(s, step).value)
    ensures CloserOf(step).Some? ==> CloserInv(s, CloserOf(step).value)
  {
    hide CallInv, CloserInv;
  }
}
