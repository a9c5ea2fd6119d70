/** The Go client's reader (go/client.go): it decodes each frame in two stages, by the id it finds in
    its tables, and hands it to that id's channel or stream, while callers register requests, take
    responses and messages, and close channels and streams; and what it closes when it stops. */
module ClientDemux {
  import opened Bytes
  import opened Wire
  import Server
  import StreamLane
  import opened Accounting

  /** The channel of a stream holds fifty messages. */
  const STREAM_CAP: nat := 50

  /** A `RespChan`: what waits in the channel of capacity one, what was taken from it before, how many
      responses found it full, and whether `Close` has closed it. `Close` does not set the flag that
      `send` looks at, so neither a second `Close` nor a later `send` is held back. */
  datatype RespChan = RespChan(ch: seq<Response>, taken: seq<Response>, dropped: nat, closed: bool)

  /** The streams of an id in the order they were opened, whether the last one is in the table, and the
      message the reader has for it once `addMsg` is past its check of the flag. */
  datatype Line =
    Line(streams: seq<StreamLane.Lane<Message>>, listed: bool, inHand: Option<Message>)

  datatype Tables = Tables(reqs: map<nat, RespChan>, lines: map<nat, Line>, panicked: bool)

  /** What callers do. */
  datatype Act =
    | Register(id: nat)      // `Send` registers a fresh id
    | Take(id: nat)          // the caller takes its response
    | CloseChan(id: nat)     // `RespChan.Close`
    | Use(id: nat, k: nat, e: StreamLane.Event<Message>)   // a step on the id's stream `k`
    | Unlist(id: nat)        // `closeWithMessage` deletes the id

  /** What callers do before the reader looks an id up, while it reads the rest of the frame, and between
      the check of `addMsg` and its getting hold of the lock. */
  datatype Between = Between(before: seq<Act>, during: seq<Act>, after: seq<Act>)

  // ----- One id's streams -----

  const NO_STREAM := Line([], false, None)

  predicate Panicked(l: Line) {
    exists k | 0 <= k < |l.streams| :: l.streams[k].panicked
  }

  function Used(l: Line, k: nat, e: StreamLane.Event<Message>): (t: Line)
    ensures |t.streams| == |l.streams|
  {
    if k >= |l.streams| then l
    else l.(streams := l.streams[k := StreamLane.Next(l.streams[k], e, STREAM_CAP)])
  }

  function Last(l: Line): StreamLane.Lane<Message>
    requires l.streams != []
  {
    l.streams[|l.streams| - 1]
  }

  predicate Listed(l: Line) {
    l.listed && l.streams != []
  }

  /** The winning call of `closeWithMessage` on the last stream, up to the closing of the channel. */
  function Closing(l: Line): Line
    requires l.streams != []
  {
    var k := |l.streams| - 1;
    Used(Used(l, k, StreamLane.MarkClosed), k, StreamLane.CloseChan)
  }

  /** A response that opens a stream. */
  function Opened(l: Line): Line {
    l.(streams := l.streams + [StreamLane.Fresh()], listed := true)
  }

  /** A message for the last stream: a closed stream refuses it, and is not closed again. */
  function HeardBy(l: Line, g: Message): Line
    requires l.streams != []
  {
    if Last(l).isClosed then l
    else if HasClose(g.flags) then Closing(l).(listed := false)
    else l.(inHand := Some(g))
  }

  /** The reader waits for the lock, which a receiver holds that waits for room. */
  predicate Blocked(l: Line) {
    l.inHand.Some? && l.streams != [] && Last(l).waiting
  }

  /** The reader gets the lock and adds its message. */
  function Locked(l: Line): Line {
    if l.inHand.None? || l.streams == [] || Blocked(l) then l
    else Used(l, |l.streams| - 1, StreamLane.Put(l.inHand.value)).(inHand := None)
  }

  // ----- The tables -----

  function LineOf(s: Tables, id: nat): Line {
    if id in s.lines then s.lines[id] else NO_STREAM
  }

  function WithLine(s: Tables, id: nat, l: Line): Tables {
    s.(lines := s.lines[id := l], panicked := s.panicked || Panicked(l))
  }

  function WithChan(s: Tables, id: nat, c: RespChan): Tables {
    s.(reqs := s.reqs[id := c])
  }

  function Acted(s: Tables, a: Act): (t: Tables)
    ensures s.reqs.Keys <= t.reqs.Keys
    ensures |LineOf(t, a.id).streams| == |LineOf(s, a.id).streams|
  {
    if s.panicked then s
    else
      match a
      case Register(id) =>
        if id in s.reqs then s else WithChan(s, id, RespChan([], [], 0, false))
      case Take(id) =>
        if id !in s.reqs then s
        else var c := s.reqs[id]; WithChan(s, id, c.(ch := [], taken := c.taken + c.ch))
      case CloseChan(id) =>
        if id !in s.reqs then s
        else if s.reqs[id].closed then s.(panicked := true)
        else WithChan(s, id, s.reqs[id].(closed := true))
      case Use(id, k, e) => if e.Put? then s else WithLine(s, id, Used(LineOf(s, id), k, e))
      case Unlist(id) => WithLine(s, id, LineOf(s, id).(listed := false))
  }

  function ActedAll(s: Tables, acts: seq<Act>): (t: Tables)
    ensures s.reqs.Keys <= t.reqs.Keys
    decreases |acts|
  {
    if acts == [] then s else ActedAll(Acted(s, acts[0]), acts[1..])
  }

  // ----- What a frame does -----

  predicate OpensStream(p: Response) {
    p.status == Server.STATUS_OK && WantsStream(p.flags)
  }

  /** `RespChan.send` to a channel that is not closed. */
  function Sent(c: RespChan, p: Response): RespChan {
    if c.ch == [] then c.(ch := [p]) else c.(dropped := c.dropped + 1)
  }

  function OnResponse(s: Tables, p: Response): Tables
    requires p.id in s.reqs
  {
    var t := if OpensStream(p) then WithLine(s, p.id, Opened(LineOf(s, p.id))) else s;
    if s.reqs[p.id].closed then t.(panicked := true)
    else WithChan(t, p.id, Sent(s.reqs[p.id], p))
  }

  function OnMessage(s: Tables, g: Message): Tables {
    var l := LineOf(s, g.id);
    if l.streams == [] then s else WithLine(s, g.id, HeardBy(l, g))
  }

  /** What the reader is meant to do with a frame whose id it knows. */
  function Heard(s: Tables, o: Out): Tables {
    match o
    case Answer(p) => if p.id in s.reqs then OnResponse(s, p) else s
    case Push(g) => OnMessage(s, g.(flags := WithStreamMsg(g.flags)))
  }

  function IdOf(o: Out): nat {
    match o case Answer(p) => p.id case Push(g) => g.id
  }

  /** How a turn, or the loop, ends: it goes on, a read failed, the reader waits for ever, or a goroutine
      panicked. */
  datatype Next = Goes | Stops | Hangs | Panics

  datatype Ended = Ended(s: Tables, next: Next)

  /** Everything of a turn up to the lock. */
  function BeforeLock(s: Tables, o: Out, b: Between): Tables {
    var t := ActedAll(s, b.during);
    if t.panicked then t else ActedAll(Heard(t, o), b.after)
  }

  /** A turn on a frame that was read whole. */
  function FrameEnd(s: Tables, o: Out, b: Between): Ended {
    var t, id := BeforeLock(s, o, b), IdOf(o);
    if t.panicked then Ended(t, Panics)
    else if Blocked(LineOf(t, id)) then Ended(t, Hangs)
    else
      var u := WithLine(t, id, Locked(LineOf(t, id)));
      Ended(u, if u.panicked then Panics else Goes)
  }

  /** A turn in which a read failed after the first nine bytes. */
  function ReadFailed(s: Tables, b: Between): Ended {
    var t := ActedAll(s, b.during);
    Ended(t, if t.panicked then Panics else Stops)
  }

  datatype Turned = Turned(end: Ended, rest: seq<byte>)

  function EndResponse(s: Tables, r: Decoded<Response>, b: Between): Turned {
    Turned(if r.Ok? then FrameEnd(s, Answer(r.value), b) else ReadFailed(s, b), r.rest)
  }

  function EndMessage(s: Tables, r: Decoded<Message>, b: Between): Turned {
    Turned(if r.Ok? then FrameEnd(s, Push(r.value), b) else ReadFailed(s, b), r.rest)
  }

  /** One turn of the loop. */
  function Turn(s: Tables, data: seq<byte>, b: Between): (r: Turned)
    ensures r.end.next.Goes? ==> |r.rest| < |data|
  {
    if |data| < 9 then Turned(Ended(s, Stops), [])
    else
      var id, flags, t := Get8(data), data[8], data[9..];
      if IsStreamMsg(flags) then
        if !Listed(LineOf(s, id)) then Turned(Ended(s, Goes), t)
        else EndMessage(s, DecodeMessageTail(id, flags, t), b)
      else if id !in s.reqs then Turned(Ended(s, Goes), t)
      else EndResponse(s, DecodeResponseTail(id, flags, t), b)
  }

  /** The loop until a read fails, the reader waits for ever, or a goroutine panics. */
  function Demux(s: Tables, data: seq<byte>, env: nat -> Between, turn: nat): Ended
    decreases |data|
  {
    var t := ActedAll(s, env(turn).before);
    if t.panicked then Ended(t, Panics)
    else
      var r := Turn(t, data, env(turn));
      if r.end.next.Goes? then Demux(r.end.s, r.rest, env, turn + 1) else r.end
  }

  // ----- What the reader closes when it stops -----

  /** `closeWithErr` would have to close this stream. */
  predicate StillOpen(l: Line) {
    Listed(l) && !Last(l).isClosed
  }

  /** `closeWithErr` closes the listed streams while it holds the lock of their table, which closing a
      stream takes again: with one still open it waits for ever on the first it comes to. */
  predicate LegalStop(s: Tables, stuck: Option<nat>) {
    match stuck
    case None => forall id | id in s.lines :: !StillOpen(s.lines[id])
    case Some(id) => id in s.lines && StillOpen(s.lines[id])
  }

  /** With none still open it empties both tables and closes every response channel, answered or not; a
      channel that its caller has closed is closed twice. */
  function Stopped(s: Tables, stuck: Option<nat>): Tables
    requires LegalStop(s, stuck)
  {
    if s.panicked then s
    else
      match stuck
      case Some(id) => WithLine(s, id, Closing(s.lines[id]))
      case None =>
        if exists id | id in s.reqs :: s.reqs[id].closed then s.(panicked := true)
        else
          Tables(map id | id in s.reqs :: s.reqs[id].(closed := true),
                 map id | id in s.lines :: s.lines[id].(listed := false), false)
  }

  // ----- The code -----

  class Client {
    var data: seq<byte>
    var reqs: map<nat, RespChan>
    var lines: map<nat, Line>
    var panicked: bool

    function Contents(): Tables
      reads this
    {
      Tables(reqs, lines, panicked)
    }

    constructor (s: Tables, data: seq<byte>)
      ensures this.data == data && Contents() == s
    {
      this.data, reqs, lines, panicked := data, s.reqs, s.lines, s.panicked;
    }

    method Read(n: int) returns (b: seq<byte>, ok: bool)
      modifies this`data
      ensures Taken(b, data, ok) == Wire.Take(old(data), n)
    {
      var c := Wire.Take(data, n);
      data := c.rest;
      return c.bytes, c.ok;
    }

    /** Other goroutines run. */
    method Others(acts: seq<Act>)
      modifies this`reqs, this`lines, this`panicked
      ensures Contents() == ActedAll(old(Contents()), acts)
    {
      var s := ActedAll(Contents(), acts);
      reqs, lines, panicked := s.reqs, s.lines, s.panicked;
    }

    method SetLine(id: nat, l: Line)
      modifies this`lines, this`panicked
      ensures Contents() == WithLine(old(Contents()), id, l)
    {
      lines := lines[id := l];
      panicked := panicked || Panicked(l);
    }

    /** The rest of a response frame: status, lengths, headers, body. */
    method ReadResp(id: nat, flags: byte) returns (p: Response, ok: bool)
      modifies this`data
      ensures DecodeResponseTail(id, flags, old(data))
           == if ok then Ok(p, data) else Failed(Eof, data)
    {
      hide FromLe;
      ghost var t := data;
      var buf: seq<byte>;
      buf, ok := Read(11);
      p := Response(id, flags, 0, [], []);
      if !ok { return; }
      assert buf[1..][..2] == t[1..][..2] && buf[3..][..8] == t[3..][..8];
      var status, hl, bl := buf[0], Get2(buf[1..]), AsInt64(Get8(buf[3..]));
      var headers, body: seq<byte> := [], [];
      if hl != 0 {
        headers, ok := Read(hl);
        if !ok { return; }
      }
      if bl != 0 {
        body, ok := Read(bl);
        if !ok { return; }
      }
      TakenApart(t[11..], 0, hl, BodyBytes(bl));
      p := Response(id, flags, status, headers, body);
    }

    method HandleResp(id: nat, flags: byte, b: Between) returns (next: Next)
      requires id in reqs && !panicked
      modifies this
      ensures Turned(Ended(Contents(), next), data)
           == EndResponse(old(Contents()), DecodeResponseTail(id, flags, old(data)), b)
    {
      hide FromLe;
      var p, ok := ReadResp(id, flags);
      Others(b.during);
      if panicked {
        return Panics;
      }
      if !ok {
        return Stops;
      }
      if p.status == Server.STATUS_OK && WantsStream(p.flags) {
        SetLine(id, Opened(LineOf(Contents(), id)));
      }
      Send(p);
      Others(b.after);
      next := AddInHand(id);
    }

    /** `RespChan.send` */
    method Send(p: Response)
      requires p.id in reqs
      modifies this`reqs, this`panicked
      ensures reqs == old(if reqs[p.id].closed then reqs else reqs[p.id := Sent(reqs[p.id], p)])
      ensures panicked == (old(panicked) || old(reqs)[p.id].closed)
    {
      var c := reqs[p.id];
      if c.closed {
        panicked := true;
      } else if |c.ch| < 1 {
        assert c.ch == [] && [] + [p] == [p];
        reqs := reqs[p.id := c.(ch := c.ch + [p])];
      } else {
        reqs := reqs[p.id := c.(dropped := c.dropped + 1)];
      }
    }

    /** The message, read whole. */
    method ReadMsg(id: nat, flags: byte) returns (g: Message, ok: bool)
      modifies this`data
      ensures DecodeMessageTail(id, flags, old(data)) == if ok then Ok(g, data) else Failed(Eof, data)
    {
      hide FromLe;
      ghost var t := data;
      var buf: seq<byte>;
      buf, ok := Read(8);
      g := Message(id, flags, []);
      if !ok { return; }
      assert buf[..8] == t[..8];
      var bl := AsInt64(Get8(buf));
      if bl != 0 {
        var body: seq<byte>;
        body, ok := Read(bl);
        g := Message(id, flags, body);
      }
    }

    method HandleStreamMsg(id: nat, flags: byte, b: Between) returns (next: Next)
      requires IsStreamMsg(flags) && !panicked
      modifies this
      ensures Turned(Ended(Contents(), next), data)
           == EndMessage(old(Contents()), DecodeMessageTail(id, flags, old(data)), b)
    {
      hide FromLe;
      var g, ok := ReadMsg(id, flags);
      Others(b.during);
      if panicked {
        return Panics;
      }
      if !ok {
        return Stops;
      }
      var l := LineOf(Contents(), id);
      if |l.streams| != 0 {
        SetLine(id, HeardBy(l, g));
      }
      Others(b.after);
      next := AddInHand(id);
    }

    /** The rest of `addMsg`, if it is past its check: it takes the lock and adds the message. */
    method AddInHand(id: nat) returns (next: Next)
      modifies this`lines, this`panicked
      ensures var t := old(Contents());
        Ended(Contents(), next)
        == if t.panicked then Ended(t, Panics)
           else if Blocked(LineOf(t, id)) then Ended(t, Hangs)
           else
             var u := WithLine(t, id, Locked(LineOf(t, id)));
             Ended(u, if u.panicked then Panics else Goes)
    {
      if panicked {
        return Panics;
      }
      var l := LineOf(Contents(), id);
      if Blocked(l) {
        return Hangs;
      }
      SetLine(id, Locked(l));
      return if panicked then Panics else Goes;
    }

    /** `closeWithErr`, when nobody has closed the client before. */
    method CloseWithErr() returns (stuck: Option<nat>)
      requires !panicked
      modifies this`reqs, this`lines, this`panicked
      ensures LegalStop(old(Contents()), stuck)
      ensures stuck.Some? <==>
        exists id | id in old(lines) :: StillOpen(old(lines)[id])
      ensures panicked == Stopped(old(Contents()), stuck).panicked
      ensures !panicked ==> Contents() == Stopped(old(Contents()), stuck)
    {
      var todo := lines.Keys;
      while todo != {}
        invariant Contents() == old(Contents()) && todo <= lines.Keys
        invariant forall id | id in lines && id !in todo :: !StillOpen(lines[id])
        decreases |todo|
      {
        var id :| id in todo;
        if StillOpen(lines[id]) {
          SetLine(id, Closing(lines[id]));
          return Some(id);
        }
        todo := todo - {id};
      }
      lines := map id | id in lines :: lines[id].(listed := false);
      todo := reqs.Keys;
      ghost var was := reqs;
      while todo != {}
        invariant !panicked && lines == map id | id in old(lines) :: old(lines)[id].(listed := false)
        invariant todo <= was.Keys && reqs == ClosedAllBut(was, todo)
        invariant forall id | id in was && id !in todo :: !was[id].closed
        decreases |todo|
      {
        var id :| id in todo;
        if reqs[id].closed {
          panicked := true;
          return None;
        }
        reqs := reqs[id := reqs[id].(closed := true)];
        todo := todo - {id};
      }
      return None;
    }

    /** `Client.run` */
    method Run(env: nat -> Between) returns (next: Next, stuck: Option<nat>)
      modifies this
      ensures var e := Demux(old(Contents()), old(data), env, 0);
        && next == e.next
        && (!next.Stops? ==> Contents() == e.s)
        && (next.Stops? ==>
              && LegalStop(e.s, stuck) && panicked == Stopped(e.s, stuck).panicked
              && (!panicked ==> Contents() == Stopped(e.s, stuck)))
    {
      hide FromLe, DecodeResponseTail, DecodeMessageTail, EndResponse, EndMessage, Listed, LegalStop,
        Stopped;
      next, stuck := Goes, None;
      var turn := 0;
      while next.Goes?
        invariant Demux(old(Contents()), old(data), env, 0)
               == if next.Goes? then Demux(Contents(), data, env, turn) else Ended(Contents(), next)
        invariant next.Stops? ==> !panicked
        decreases next.Goes?, |data|
      {
        Others(env(turn).before);
        if panicked {
          return Panics, None;
        }
        ghost var s, t := Contents(), data;
        var b, ok := Read(9);
        if ok {
          assert b[..8] == t[..8];
          var id, flags := Get8(b), b[8];
          if IsStreamMsg(flags) {
            if Listed(LineOf(Contents(), id)) {
              next := HandleStreamMsg(id, flags, env(turn));
            }
          } else if id in reqs {
            next := HandleResp(id, flags, env(turn));
          }
        } else {
          next := Stops;
        }
        assert Turned(Ended(Contents(), next), data) == Turn(s, t, env(turn));
        NextSays(s, t, env(turn));
        turn := turn + 1;
      }
      if next.Stops? {
        stuck := CloseWithErr();
      }
    }
  }

  ghost function ClosedAllBut(reqs: map<nat, RespChan>, todo: set<nat>): map<nat, RespChan> {
    map id | id in reqs :: if id in todo then reqs[id] else reqs[id].(closed := true)
  }

  lemma NextSays(s: Tables, data: seq<byte>, b: Between)
    requires !s.panicked
    ensures var e := Turn(s, data, b).end; e.s.panicked <==> e.next.Panics?
  {
  }

  // ----- Whole frames -----

  predicate WellFormed(o: Out) {
    match o
    case Answer(p) =>
      p.id < TWO_64 && !IsStreamMsg(p.flags) && |p.headers| <= MAX_U16 && |p.body| < TWO_63
    case Push(g) => g.id < TWO_64 && |g.body| < TWO_63
  }

  predicate Known(s: Tables, o: Out) {
    match o
    case Answer(p) => p.id in s.reqs
    case Push(g) => Listed(LineOf(s, g.id))
  }

  lemma SameTail(g: Message)
    ensures MessageTail(g.(flags := WithStreamMsg(g.flags))) == MessageTail(g)
  {
  }

  lemma AfterPrefix(s: Tables, id: nat, flags: byte, t: seq<byte>, b: Between)
    requires id < TWO_64
    ensures Turn(s, Prefix(id, flags) + t, b)
         == if IsStreamMsg(flags) then
              if !Listed(LineOf(s, id)) then Turned(Ended(s, Goes), t)
              else EndMessage(s, DecodeMessageTail(id, flags, t), b)
            else if id !in s.reqs then Turned(Ended(s, Goes), t)
            else EndResponse(s, DecodeResponseTail(id, flags, t), b)
  {
    hide Prefix, EndMessage, EndResponse, FromLe, Listed;
    PrefixReads(id, flags, t);
  }

  /** Reading the nine bytes first, and the rest by the table, is `Response.ReadFrom` at once. */
  lemma TwoStages(s: Tables, data: seq<byte>, b: Between)
    requires |data| >= 9 && !IsStreamMsg(data[8]) && Get8(data) in s.reqs
    ensures Turn(s, data, b) == EndResponse(s, DecodeResponse(data), b)
  {
    hide EndResponse, EndMessage, FromLe;
  }

  lemma SameFrame(s: Tables, g: Message, b: Between)
    ensures FrameEnd(s, Push(g.(flags := WithStreamMsg(g.flags))), b) == FrameEnd(s, Push(g), b)
  {
    hide ActedAll, OnMessage;
    var h := g.(flags := WithStreamMsg(g.flags));
    assert WithStreamMsg(h.flags) == h.flags;
    assert BeforeLock(s, Push(h), b) == BeforeLock(s, Push(g), b);
  }

  /** A turn ends on the next frame exactly when its id is known; a known frame does what it should
      and nothing else, whatever bytes follow. */
  lemma FrameRouted(s: Tables, o: Out, t: seq<byte>, b: Between)
    requires WellFormed(o)
    ensures var r := Turn(s, EncodeOut(o) + t, b);
      && (r.rest == t <==> Known(s, o))
      && r.end == if Known(s, o) then FrameEnd(s, o, b) else Ended(s, Goes)
  {
    hide FrameEnd, ReadFailed, ResponseTail, MessageTail, DecodeResponseTail, DecodeMessageTail, Turn,
      Listed;
    match o
    case Answer(p) =>
      ConcatAssociative(Prefix(p.id, p.flags), ResponseTail(p), t);
      AfterPrefix(s, p.id, p.flags, ResponseTail(p) + t, b);
      ResponseTailRoundTrip(p, t);
      ResponseTailReads(p, []);
    case Push(g) =>
      var flags := WithStreamMsg(g.flags);
      var h := g.(flags := flags);
      ConcatAssociative(Prefix(g.id, flags), MessageTail(g), t);
      AfterPrefix(s, g.id, flags, MessageTail(g) + t, b);
      MessageTailRoundTrip(h, t);
      MessageTailReads(g, []);
      SameTail(g);
      SameFrame(s, g, b);
  }

  // ----- The whole loop -----

  /** The tables after the frames, each known when the reader looks it up, or after the one on which the
      reader hangs or a goroutine panics. */
  function Routes(s: Tables, os: seq<Out>, env: nat -> Between, turn: nat): Option<Ended>
    decreases |os|
  {
    if os == [] then Some(Ended(s, Goes))
    else
      var t := ActedAll(s, env(turn).before);
      if t.panicked then Some(Ended(t, Panics))
      else if !WellFormed(os[0]) || !Known(t, os[0]) then None
      else
        var e := FrameEnd(t, os[0], env(turn));
        if e.next.Goes? then Routes(e.s, os[1..], env, turn + 1) else Some(e)
  }

  lemma OutsCons(o: Out, os: seq<Out>)
    ensures EncodeOuts([o] + os) == EncodeOut(o) + EncodeOuts(os)
    decreases |os|
  {
    hide EncodeOut;
    if os == [] {
      assert [o] + os == [] + [o];
      OutsSnoc([], o);
      assert EncodeOuts([]) == [];
    } else {
      var init, last := os[..|os| - 1], os[|os| - 1];
      assert [o] + os == ([o] + init) + [last];
      OutsSnoc([o] + init, last);
      OutsCons(o, init);
      ConcatAssociative(EncodeOut(o), EncodeOuts(init), EncodeOut(last));
    }
  }

  /** On the concatenation of frames whose ids are known at their turn, the reader routes each, in
      wire order, and stands at the byte after the last, unless it hangs or a goroutine panics. */
  lemma {:induction false} LoopRoutes(s: Tables, os: seq<Out>, t: seq<byte>, env: nat -> Between,
                                      turn: nat)
    requires Routes(s, os, env, turn).Some?
    ensures var e := Routes(s, os, env, turn).value;
      Demux(s, EncodeOuts(os) + t, env, turn)
      == if e.next.Goes? then Demux(e.s, t, env, turn + |os|) else e
    decreases |os|
  {
    hide EncodeOut, Turn, FrameEnd, ActedAll, Known;
    if os == [] {
      assert EncodeOuts(os) + t == t;
    } else {
      var o, more := os[0], os[1..];
      assert os == [o] + more;
      OutsCons(o, more);
      ConcatAssociative(EncodeOut(o), EncodeOuts(more), t);
      var here := ActedAll(s, env(turn).before);
      if !here.panicked {
        FrameRouted(here, o, EncodeOuts(more) + t, env(turn));
        var e := FrameEnd(here, o, env(turn));
        if e.next.Goes? {
          LoopRoutes(e.s, more, t, env, turn + 1);
        }
      }
    }
  }

  // ----- Frames cut short -----

  /** A frame that is cut short anywhere ends the loop, and nothing of it reaches the tables. */
  lemma CutFrameStops(s: Tables, o: Out, n: nat, b: Between)
    requires WellFormed(o) && Known(s, o) && n < |EncodeOut(o)|
    ensures Turn(s, EncodeOut(o)[..n], b).end == if n < 9 then Ended(s, Stops) else ReadFailed(s, b)
  {
    hide Prefix, ResponseTail, MessageTail, Turn, DecodeResponseTail, DecodeMessageTail, ReadFailed,
      FrameEnd, Listed;
    if n < 9 {
      ShortHead(s, EncodeOut(o)[..n], b);
    } else {
      match o {
        case Answer(p) =>
          var c, d := ResponseTail(p)[..n - 9], ResponseTail(p)[n - 9..];
          Server.CutSplits(Prefix(p.id, p.flags), ResponseTail(p), n);
          AfterPrefix(s, p.id, p.flags, c, b);
          ResponseTailCut(p, c, d);
        case Push(g) =>
          var flags := WithStreamMsg(g.flags);
          var c, d := MessageTail(g)[..n - 9], MessageTail(g)[n - 9..];
          Server.CutSplits(Prefix(g.id, flags), MessageTail(g), n);
          AfterPrefix(s, g.id, flags, c, b);
          SameTail(g);
          MessageTailCut(g.(flags := flags), c, d);
      }
    }
  }

  lemma ShortHead(s: Tables, data: seq<byte>, b: Between)
    requires |data| < 9
    ensures Turn(s, data, b) == Turned(Ended(s, Stops), [])
  {
  }

  /** When the connection ends after whole frames, or anywhere inside the next one: every whole frame
      is routed, and the last one leaves no trace; only callers act. */
  lemma LoopUntilCut(s: Tables, os: seq<Out>, o: Out, n: nat, env: nat -> Between)
    requires Routes(s, os, env, 0).Some? && Routes(s, os, env, 0).value.next.Goes?
    requires WellFormed(o) && n < |EncodeOut(o)|
    requires Known(ActedAll(Routes(s, os, env, 0).value.s, env(|os|).before), o)
    ensures var here := ActedAll(Routes(s, os, env, 0).value.s, env(|os|).before);
      Demux(s, EncodeOuts(os) + EncodeOut(o)[..n], env, 0)
      == if here.panicked then Ended(here, Panics)
         else if n < 9 then Ended(here, Stops)
         else ReadFailed(here, env(|os|))
  {
    hide EncodeOut, Turn, ActedAll, Known, Routes;
    LoopRoutes(s, os, EncodeOut(o)[..n], env, 0);
    var here := ActedAll(Routes(s, os, env, 0).value.s, env(|os|).before);
    CutFrameStops(here, o, n, env(|os|));
  }
}
