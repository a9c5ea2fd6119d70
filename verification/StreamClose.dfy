/** Closing a stream (go/stream.go `closeWithMessage`, go/server.go `handleStreamMsg`): at both ends of
    the connection any number of goroutines may close it, and the reader closes it too when the other
    end's close frame arrives. */
module StreamClose {
  import opened Bytes

  /** Where a call of `closeWithMessage` stands. */
  datatype Pc = Swap | CloseChan | Delete | Write | Won | Lost

  /** A call at one of the two ends; `send` is false for the call a received frame makes. */
  datatype Closer = Closer(end: bool, send: bool, pc: Pc)

  /** One end. `winner`, `byReader` (the call a received frame made) and the counts are history. */
  datatype End = End(
    isClosed: bool,
    chanCloses: nat,        // how often `close(s.msgChan)` ran; a second time panics
    inMap: bool,
    winner: Option<nat>,
    byReader: Option<nat>,
    sent: nat,              // close frames this end wrote
    read: nat)              // close frames this end read

  datatype State = State(a: End, b: End, closers: seq<Closer>)

  const OPEN := End(false, 0, true, None, None, 0, 0)
  const INIT := State(OPEN, OPEN, [])

  function At(s: State, e: bool): End {
    if e then s.a else s.b
  }

  function With(s: State, e: bool, x: End): State {
    if e then s.(a := x) else s.(b := x)
  }

  datatype Step =
    | Call(end: bool)       // `Close` or `CloseWithMessage`
    | Receive(end: bool)    // the reader reads a close frame
    | Advance(i: nat)       // a call makes its next step

  predicate Enabled(s: State, step: Step) {
    match step
    case Call(_) => true
    case Receive(e) => At(s, e).read < At(s, !e).sent
    case Advance(i) => i < |s.closers| && !s.closers[i].pc.Won? && !s.closers[i].pc.Lost?
  }

  function Moved(s: State, i: nat, pc: Pc): State
    requires i < |s.closers|
  {
    s.(closers := s.closers[i := s.closers[i].(pc := pc)])
  }

  function Advanced(s: State, i: nat): State
    requires Enabled(s, Advance(i))
  {
    var c := s.closers[i];
    var x := At(s, c.end);
    match c.pc
    case Swap =>
      if x.isClosed then Moved(s, i, Lost)
      else Moved(With(s, c.end, x.(isClosed := true, winner := Some(i))), i, CloseChan)
    case CloseChan => Moved(With(s, c.end, x.(chanCloses := x.chanCloses + 1)), i, Delete)
    case Delete => Moved(With(s, c.end, x.(inMap := false)), i, if c.send then Write else Won)
    case Write => Moved(With(s, c.end, x.(sent := x.sent + 1)), i, Won)
  }

  /** A close frame for a stream that is no longer in the map is answered as an unknown stream. */
  function Apply(s: State, step: Step): State
    requires Enabled(s, step)
  {
    match step
    case Call(e) => s.(closers := s.closers + [Closer(e, true, Swap)])
    case Receive(e) =>
      var x := At(s, e);
      var y := x.(read := x.read + 1);
      if x.inMap then
        With(s, e, y.(byReader := Some(|s.closers|))).(closers := s.closers + [Closer(e, false, Swap)])
      else With(s, e, y)
    case Advance(i) => Advanced(s, i)
  }

  predicate Valid(s: State, steps: seq<Step>)
    decreases |steps|
  {
    steps == [] || (Enabled(s, steps[0]) && Valid(Apply(s, steps[0]), steps[1..]))
  }

  function After(s: State, steps: seq<Step>): State
    requires Valid(s, steps)
    decreases |steps|
  {
    if steps == [] then s else After(Apply(s, steps[0]), steps[1..])
  }

  // ----- The invariant -----

  predicate Running(pc: Pc) {
    pc.CloseChan? || pc.Delete? || pc.Write? || pc.Won?
  }

  function OneIf(b: bool): nat {
    if b then 1 else 0
  }

  /** How far an end is follows from where its winner stands. */
  predicate EndInv(x: End, e: bool, closers: seq<Closer>) {
    if x.winner.None? then
      !x.isClosed && x.chanCloses == 0 && x.inMap && x.sent == 0
    else
      var w := x.winner.value;
      && x.isClosed && w < |closers| && closers[w].end == e && Running(closers[w].pc)
      && x.chanCloses == OneIf(!closers[w].pc.CloseChan?)
      && x.inMap == (closers[w].pc.CloseChan? || closers[w].pc.Delete?)
      && x.sent == OneIf(closers[w].pc.Won? && closers[w].send)
  }

  predicate CloserInv(s: State, i: nat)
    requires i < |s.closers|
  {
    var c := s.closers[i];
    var x := At(s, c.end);
    && (Running(c.pc) ==> x.winner == Some(i))
    && (c.pc.Write? ==> c.send)
    && (c.pc.Lost? ==> x.isClosed)
    && (!c.send ==> x.read > 0)
  }

  /** A frame that was read has closed this end, or is about to. */
  predicate ReadInv(x: End, y: End, e: bool, closers: seq<Closer>) {
    && x.read <= y.sent
    && (x.byReader.Some? ==>
          x.byReader.value < |closers| && closers[x.byReader.value].end == e
          && !closers[x.byReader.value].send)
    && (x.read > 0 && !x.isClosed ==> x.byReader.Some? && closers[x.byReader.value].pc.Swap?)
  }

  predicate SideInv(s: State, e: bool) {
    EndInv(At(s, e), e, s.closers) && ReadInv(At(s, e), At(s, !e), e, s.closers)
  }

  predicate Inv(s: State) {
    SideInv(s, true) && SideInv(s, false)
    && forall i | 0 <= i < |s.closers| :: CloserInv(s, i)
  }

  lemma SpawnKeeps(s: State, step: Step)
    requires Inv(s) && Enabled(s, step) && !step.Advance?
    ensures Inv(Apply(s, step))
  {
    var t := Apply(s, step);
    forall i | 0 <= i < |t.closers| ensures CloserInv(t, i) {
      if i < |s.closers| { assert CloserInv(s, i) && t.closers[i] == s.closers[i]; }
    }
  }

  lemma AdvanceKeepsMover(s: State, i: nat)
    requires Enabled(s, Advance(i)) && SideInv(s, s.closers[i].end) && CloserInv(s, i)
    ensures SideInv(Advanced(s, i), s.closers[i].end) && CloserInv(Advanced(s, i), i)
  {
  }

  lemma AdvanceKeepsOther(s: State, i: nat)
    requires Enabled(s, Advance(i)) && SideInv(s, !s.closers[i].end)
    ensures SideInv(Advanced(s, i), !s.closers[i].end)
  {
    var e := !s.closers[i].end;
    assert At(Advanced(s, i), e) == At(s, e);
  }

  lemma AdvanceKeepsCloser(s: State, i: nat, j: nat)
    requires Enabled(s, Advance(i)) && SideInv(s, s.closers[i].end) && CloserInv(s, i)
    requires j < |s.closers| && j != i && CloserInv(s, j)
    ensures CloserInv(Advanced(s, i), j)
  {
    assert Advanced(s, i).closers[j] == s.closers[j];
  }

  lemma AdvanceKeeps(s: State, i: nat)
    requires Inv(s) && Enabled(s, Advance(i))
    ensures Inv(Advanced(s, i))
  {
    hide SideInv, CloserInv, Advanced;
    AdvanceKeepsMover(s, i);
    AdvanceKeepsOther(s, i);
    var t := Advanced(s, i);
    SameCount(s, i);
    forall j | 0 <= j < |t.closers| ensures CloserInv(t, j) {
      if j != i { AdvanceKeepsCloser(s, i, j); }
    }
  }

  lemma SameCount(s: State, i: nat)
    requires Enabled(s, Advance(i))
    ensures |Advanced(s, i).closers| == |s.closers|
  {
  }

  lemma {:induction false} RunKeeps(s: State, steps: seq<Step>)
    requires Inv(s) && Valid(s, steps)
    ensures Inv(After(s, steps))
    decreases |steps|
  {
    hide Inv, Advanced;
    if steps != [] {
      if steps[0].Advance? {
        AdvanceKeeps(s, steps[0].i);
      } else {
        SpawnKeeps(s, steps[0]);
      }
      RunKeeps(Apply(s, steps[0]), steps[1..]);
    }
  }

  // ----- What holds in every run -----

  /** In any run and at either end one call at most gets past the swap; the channel is closed at most
      once, so no close panics; and a close frame is written only by a winning call that had `send`. */
  lemma OneCloserRuns(steps: seq<Step>, e: bool)
    requires Valid(INIT, steps)
    ensures var s := After(INIT, steps); var x := At(s, e);
      && x.chanCloses <= 1 && x.sent <= 1
      && (forall i, j | 0 <= i < |s.closers| && 0 <= j < |s.closers|
                        && s.closers[i].end == e && s.closers[j].end == e
                        && Running(s.closers[i].pc) && Running(s.closers[j].pc) :: i == j)
      && (x.sent == 1 <==> exists i | 0 <= i < |s.closers| ::
                            s.closers[i].end == e && s.closers[i].pc.Won? && s.closers[i].send)
  {
    hide After, Valid;
    assert Inv(INIT);
    RunKeeps(INIT, steps);
    var s := After(INIT, steps);
    forall i | 0 <= i < |s.closers| && s.closers[i].end == e && Running(s.closers[i].pc)
      ensures At(s, e).winner == Some(i)
    {
      assert CloserInv(s, i);
    }
  }

  /** A received close is never echoed, so the two ends exchange at most two close frames, and two
      only when both chose to close. */
  lemma NoEcho(steps: seq<Step>)
    requires Valid(INIT, steps)
    ensures var s := After(INIT, steps);
      && s.a.sent + s.b.sent <= 2
      && forall i | 0 <= i < |s.closers| && !s.closers[i].send && Running(s.closers[i].pc) ::
           At(s, s.closers[i].end).sent == 0 && At(s, !s.closers[i].end).sent == 1
  {
    hide After, Valid;
    RunKeeps(INIT, steps);
    var s := After(INIT, steps);
    forall i | 0 <= i < |s.closers| && !s.closers[i].send && Running(s.closers[i].pc)
      ensures At(s, s.closers[i].end).sent == 0 && At(s, !s.closers[i].end).sent == 1
    {
      assert CloserInv(s, i);
    }
  }

  /** So if the call the reader made for a received frame is the one that runs, this end writes none. */
  lemma ReaderIsSilent(steps: seq<Step>, e: bool)
    requires Valid(INIT, steps)
    ensures var x := At(After(INIT, steps), e);
      x.byReader.Some? && x.winner == x.byReader ==> x.sent == 0
  {
    hide After, Valid;
    RunKeeps(INIT, steps);
    var s := After(INIT, steps);
    assert SideInv(s, e);
  }

  /** The reader calls for a received frame exactly if the stream is still in its map. */
  lemma ReceiveCalls(s: State, e: bool)
    requires Enabled(s, Receive(e))
    ensures var t := Apply(s, Receive(e));
      t.closers == if At(s, e).inMap then s.closers + [Closer(e, false, Swap)] else s.closers
  {
  }

  /** Once every call has returned and no close frame is on the way, the two ends agree: both are
      closed, with their channels closed and their map entries gone, or both are open. */
  lemma EndsAgree(steps: seq<Step>)
    requires Valid(INIT, steps)
    requires var s := After(INIT, steps);
      && (forall i | 0 <= i < |s.closers| :: s.closers[i].pc.Won? || s.closers[i].pc.Lost?)
      && s.a.read == s.b.sent && s.b.read == s.a.sent
    ensures var s := After(INIT, steps);
      && s.a.isClosed == s.b.isClosed == (s.closers != [])
      && s.a.chanCloses == s.b.chanCloses == OneIf(s.closers != [])
      && s.a.inMap == s.b.inMap == (s.closers == [])
  {
    hide After, Valid;
    RunKeeps(INIT, steps);
    var s := After(INIT, steps);
    if s.a.winner.Some? { assert CloserInv(s, s.a.winner.value); }
    if s.b.winner.Some? { assert CloserInv(s, s.b.winner.value); }
    if s.closers != [] { assert CloserInv(s, 0); }
  }
}
