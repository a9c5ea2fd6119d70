/** The Go server's connection loop (go/server.go): a byte-level parser with many branches, proved
    to be a dispatcher of whole frames. */
module Server {
  import opened Bytes
  import opened Wire

  const STATUS_OK: byte := 0
  const STATUS_NOT_FOUND: byte := 128
  const STATUS_NOT_STREAM: byte := 130
  const STATUS_BODY_TOO_LARGE: byte := 133

  /** The limits of a serving `Server`, and the paths its mux knows. */
  datatype Config = Config(
    maxBodyLen: nat, maxStreamBodyLen: nat, handlers: set<Str>, streamHandlers: set<Str>)

  /** What an iteration does besides reading. */
  datatype Event =
    | Start(req: Request, stream: bool)   // a goroutine runs the handler and will respond
    | Reply(resp: Response)               // the loop itself responds
    | Notify(msg: Message)                // the loop writes a stream message
    | Queue(msg: Message)                 // `stream.addMsg`
    | CloseStream(msg: Message)           // `stream.closeWithMsgRecvd`

  /** `fmt.Sprint` of a non-negative integer, in ASCII. */
  function DecimalBytes(n: nat): Str {
    Ascii(Decimal(n))
  }

  function Ascii(s: string): Str {
    if s == "" then [] else [s[0] as int % 256] + Ascii(s[1..])
  }

  function Status(id: nat, status: byte): Event {
    Reply(Response(id, 0, status, [], []))
  }

  function BodyTooLargeReply(id: nat, bl: nat): Event {
    Reply(Response(id, 0, STATUS_BODY_TOO_LARGE, [], DecimalBytes(bl)))
  }

  function MsgTooLarge(cfg: Config, id: nat): Event {
    Notify(Message(id, WithStreamMsg(MSG_FLAG_TOO_LARGE), Le(cfg.maxStreamBodyLen, 8)))
  }

  function NotStream(id: nat): Event {
    Notify(Message(id, MSG_FLAG_NOT_STREAM, []))
  }

  /** What a turn finds out about the streams of the connection, which handler goroutines add, close
      and remove while the loop runs: the ids registered when it looks its frame's stream up; those whose
      stream is closed when it comes to use it; and those where `addMsg`, past its check of the flag,
      panics or waits for ever (`StreamLane.PanicsIff`, `StreamLane.PutInsideReceive`). */
  datatype Streams = Streams(registered: set<nat>, closed: set<nat>, fatal: set<nat>)

  datatype Usable = Open | Closed | Fatal

  function UseOf(st: Streams, id: nat): Usable {
    if id in st.closed then Closed else if id in st.fatal then Fatal else Open
  }

  // ----- One iteration on bytes -----

  datatype Iteration = Iteration(events: seq<Event>, rest: seq<byte>, ok: bool)

  const CUT_SHORT := Iteration([], [], false)

  predicate Handled(cfg: Config, flags: byte, path: Str) {
    if WantsStream(flags) then path in cfg.streamHandlers else path in cfg.handlers
  }

  function Refusal(cfg: Config, flags: byte, path: Str): byte {
    if WantsStream(flags) && path in cfg.handlers then STATUS_NOT_STREAM else STATUS_NOT_FOUND
  }

  /** `handleReq`, given the bytes after the first nine. */
  function ReqStep(cfg: Config, id: nat, flags: byte, t: seq<byte>): Iteration {
    if |t| < 12 then CUT_SHORT
    else
      var pl, hl, bl, u := Get2(t), Get2(t[2..]), AsInt64(Get8(t[4..])), t[12..];
      if bl > cfg.maxBodyLen then
        var c := Take(u, AsInt64(bl + (pl + hl)));
        Iteration([BodyTooLargeReply(id, bl)], c.rest, c.ok)
      else if |u| < pl then CUT_SHORT
      else PathStep(cfg, id, flags, u[..pl], hl, bl, u[pl..])
  }

  /** The rest of `handleReq` once the path is read. */
  function PathStep(cfg: Config, id: nat, flags: byte, path: Str, hl: nat, bl: int, v: seq<byte>)
    : Iteration
  {
    if Handled(cfg, flags, path) then
      var n := hl + BodyBytes(bl);
      if |v| < n then CUT_SHORT
      else
        Iteration([Start(Request(id, flags, path, v[..hl], v[hl..n]), WantsStream(flags))],
                  v[n..], true)
    else
      var c := Take(v, AsInt64(hl + bl));
      Iteration([Status(id, Refusal(cfg, flags, path))], c.rest, c.ok)
  }

  /** `handleStreamMsg`, given the bytes after the first nine. On a closed stream `Send` writes nothing,
      and the error of `addMsg` ends the loop; so does an `addMsg` that does not return. */
  function MsgStep(cfg: Config, id: nat, flags: byte, t: seq<byte>, use: Usable): Iteration {
    if |t| < 8 then CUT_SHORT
    else
      var n := AsInt64(Get8(t));
      var c := Take(t[8..], n);
      if n > cfg.maxStreamBodyLen then
        Iteration(TooLargeEvents(cfg, id, flags, use), c.rest, c.ok)
      else if !c.ok then CUT_SHORT
      else if HasClose(flags) then Iteration([CloseStream(Message(id, flags, c.bytes))], c.rest, true)
      else if !use.Open? then Iteration([], c.rest, false)
      else Iteration([Queue(Message(id, flags, c.bytes))], c.rest, true)
  }

  function TooLargeEvents(cfg: Config, id: nat, flags: byte, use: Usable): seq<Event> {
    (if use.Closed? then [] else [MsgTooLarge(cfg, id)])
    + (if HasClose(flags) then [CloseStream(Message(id, flags, []))] else [])
  }

  /** One turn of the loop. */
  function LoopStep(cfg: Config, data: seq<byte>, st: Streams): (it: Iteration)
    ensures it.ok ==> |it.rest| < |data|
  {
    if |data| < 9 then CUT_SHORT
    else
      var id, flags, t := Get8(data), data[8], data[9..];
      if !IsStreamMsg(flags) then ReqStep(cfg, id, flags, t)
      else if id !in st.registered then Iteration([NotStream(id)], t, true)
      else MsgStep(cfg, id, flags, t, UseOf(st, id))
  }

  /** The events of each turn until the loop ends. */
  function Turns(cfg: Config, data: seq<byte>, env: nat -> Streams, turn: nat): seq<seq<Event>>
    decreases |data|
  {
    var it := LoopStep(cfg, data, env(turn));
    [it.events] + (if it.ok then Turns(cfg, it.rest, env, turn + 1) else [])
  }

  // ----- The code -----

  class ServerConn {
    const cfg: Config
    var data: seq<byte>      // what the connection still holds
    var events: seq<Event>   // what the current turn has done

    constructor (cfg: Config, data: seq<byte>)
      ensures this.cfg == cfg && this.data == data && events == []
    {
      this.cfg, this.data, events := cfg, data, [];
    }

    method Copy(n: int) returns (b: seq<byte>, ok: bool)
      modifies this`data
      ensures Taken(b, data, ok) == Take(old(data), n)
    {
      var c := Take(data, n);
      data := c.rest;
      return c.bytes, c.ok;
    }

    method HandleReq(id: nat, flags: byte, pooled: seq<byte>) returns (ok: bool)
      requires pooled == [] && events == []
      modifies this
      ensures Iteration(events, data, ok) == ReqStep(cfg, id, flags, old(data))
    {
      var buf := pooled;
      var b: seq<byte>;
      ghost var t := data;
      b, ok := Copy(12);
      if !ok { return; }
      buf := buf + b;
      assert buf[..2] == t[..2] && buf[2..][..2] == t[2..][..2] && buf[4..][..8] == t[4..][..8];
      var pathLen := Get2(buf);
      buf := buf[2..];
      var headersLen := Get2(buf);
      buf := buf[2..];
      var bodyLen := AsInt64(Get8(buf));
      buf := buf[8..];
      assert buf == [];
      if bodyLen > cfg.maxBodyLen {
        events := events + [BodyTooLargeReply(id, bodyLen)];
        b, ok := Copy(AsInt64(bodyLen + (pathLen + headersLen)));
        return;
      }
      b, ok := Copy(pathLen);
      if !ok { return; }
      buf := buf + b;
      var path := buf[..pathLen];
      buf := buf[pathLen..];
      assert path == t[12..][..pathLen] && data == t[12..][pathLen..] && buf == [];
      ok := Route(id, flags, path, headersLen, bodyLen, buf);
    }

    /** The checks of the path, and what each refusal skips. */
    method Route(id: nat, flags: byte, path: Str, headersLen: nat, bodyLen: int, pooled: seq<byte>)
      returns (ok: bool)
      requires pooled == [] && events == []
      modifies this
      ensures Iteration(events, data, ok)
           == PathStep(cfg, id, flags, path, headersLen, bodyLen, old(data))
    {
      var b: seq<byte>;
      if WantsStream(flags) {
        if path in cfg.streamHandlers {
          ok := ReadAndStart(id, flags, path, headersLen, bodyLen, pooled);
        } else if path in cfg.handlers {
          events := events + [Status(id, STATUS_NOT_STREAM)];
          b, ok := Copy(AsInt64(headersLen + bodyLen));
        } else {
          events := events + [Status(id, STATUS_NOT_FOUND)];
          b, ok := Copy(AsInt64(headersLen + bodyLen));
        }
      } else if path !in cfg.handlers {
        events := events + [Status(id, STATUS_NOT_FOUND)];
        b, ok := Copy(AsInt64(headersLen + bodyLen));
      } else {
        ok := ReadAndStart(id, flags, path, headersLen, bodyLen, pooled);
      }
    }

    /** Headers, then the body, through the buffer; then the handler goroutine is started. */
    method ReadAndStart(id: nat, flags: byte, path: Str, headersLen: nat, bodyLen: int,
                        pooled: seq<byte>)
      returns (ok: bool)
      requires pooled == [] && events == [] && Handled(cfg, flags, path)
      modifies this
      ensures Iteration(events, data, ok)
           == PathStep(cfg, id, flags, path, headersLen, bodyLen, old(data))
    {
      var b, buf := [], pooled;
      ghost var v := data;
      b, ok := Copy(headersLen);
      if !ok { return; }
      buf := buf + b;
      var headerBytes := buf[..headersLen];
      buf := buf[headersLen..];
      assert headerBytes == v[..headersLen] && data == v[headersLen..] && buf == [];
      b, ok := Copy(bodyLen);
      if !ok { return; }
      buf := buf + b;
      assert buf == v[headersLen..headersLen + BodyBytes(bodyLen)];
      events := events + [Start(Request(id, flags, path, headerBytes, buf), WantsStream(flags))];
    }

    /** `Stream.Send` of the refusal. */
    method SendTooLarge(id: nat, use: Usable)
      modifies this`events
      ensures events == old(events) + if use.Closed? then [] else [MsgTooLarge(cfg, id)]
    {
      if !use.Closed? {
        events := events + [MsgTooLarge(cfg, id)];
      }
    }

    method HandleStreamMsg(id: nat, flags: byte, pooled: seq<byte>, use: Usable) returns (ok: bool)
      requires pooled == [] && events == []
      modifies this
      ensures Iteration(events, data, ok) == MsgStep(cfg, id, flags, old(data), use)
    {
      var buf := pooled;
      var b: seq<byte>;
      b, ok := Copy(8);
      if !ok { return; }
      buf := buf + b;
      assert buf[..8] == old(data)[..8];
      var msgLen := AsInt64(Get8(buf));
      buf := buf[8..];
      assert buf == [];
      if HasClose(flags) {
        var body: seq<byte> := [];
        if msgLen != 0 {
          if msgLen > cfg.maxStreamBodyLen {
            SendTooLarge(id, use);
            b, ok := Copy(msgLen);
          } else {
            b, ok := Copy(msgLen);
            if !ok { return; }
            body := buf + b;
            assert body == b;
          }
        }
        events := events + [CloseStream(Message(id, flags, body))];
        return;
      }
      if msgLen > cfg.maxStreamBodyLen {
        SendTooLarge(id, use);
        assert events + [] == events;
        b, ok := Copy(msgLen);
        return;
      }
      b, ok := Copy(msgLen);
      if !ok { return; }
      buf := buf + b;
      assert buf == b;
      if !use.Open? {
        return false;
      }
      events := events + [Queue(Message(id, flags, buf))];
    }

    /** `handleServerConn`: `turns` collects the events of each turn. */
    method HandleServerConn(env: nat -> Streams) returns (turns: seq<seq<Event>>)
      modifies this
      ensures turns == Turns(cfg, old(data), env, 0)
    {
      turns := [];
      var turn, ok := 0, true;
      while ok
        invariant turns + (if ok then Turns(cfg, data, env, turn) else [])
               == Turns(cfg, old(data), env, 0)
        decreases ok, |data|
      {
        events := [];
        ghost var here := data;
        var b: seq<byte>;
        b, ok := Copy(9);
        if ok {
          assert b[..8] == here[..8];
          var id, flags := Get8(b), b[8];
          if !IsStreamMsg(flags) {
            ok := HandleReq(id, flags, []);
          } else if id !in env(turn).registered {
            events := events + [NotStream(id)];
          } else {
            ok := HandleStreamMsg(id, flags, [], UseOf(env(turn), id));
          }
        }
        assert Iteration(events, data, ok) == LoopStep(cfg, here, env(turn));
        ConcatAssociative(turns, [events], if ok then Turns(cfg, data, env, turn + 1) else []);
        turns := turns + [events];
        turn := turn + 1;
      }
    }
  }

  // ----- Whole frames -----

  datatype Frame = Req(q: Request) | Msg(g: Message)

  function EncodeFrame(f: Frame): seq<byte> {
    match f
    case Req(q) => EncodeRequest(q)
    case Msg(g) => EncodeMessage(g)
  }

  function EncodeFrames(fs: seq<Frame>): seq<byte> {
    if fs == [] then [] else EncodeFrame(fs[0]) + EncodeFrames(fs[1..])
  }

  /** A frame as SPEC.v2.md describes it, with lengths that a 64-bit signed integer can add. */
  predicate WellFormed(f: Frame) {
    match f
    case Req(q) =>
      && q.id < TWO_64 && !IsStreamMsg(q.flags)
      && |q.path| <= MAX_U16 && |q.headers| <= MAX_U16
      && |q.path| + |q.headers| + |q.body| < TWO_63
    case Msg(g) => g.id < TWO_64 && IsStreamMsg(g.flags) && |g.body| < TWO_63
  }

  predicate Registered(f: Frame, st: Streams) {
    f.Msg? ==> f.g.id in st.registered
  }

  /** A stream message that is to be queued finds its stream open, and `addMsg` takes it. */
  predicate Accepted(cfg: Config, f: Frame, st: Streams) {
    f.Msg? ==> HasClose(f.g.flags) || |f.g.body| > cfg.maxStreamBodyLen || UseOf(st, f.g.id).Open?
  }

  predicate Known(cfg: Config, f: Frame, st: Streams) {
    Registered(f, st) && Accepted(cfg, f, st)
  }

  /** What the server is meant to do with a frame. */
  function Dispatch(cfg: Config, f: Frame, st: Streams): seq<Event> {
    match f
    case Req(q) =>
      if |q.body| > cfg.maxBodyLen then [BodyTooLargeReply(q.id, |q.body|)]
      else if Handled(cfg, q.flags, q.path) then [Start(q, WantsStream(q.flags))]
      else [Status(q.id, Refusal(cfg, q.flags, q.path))]
    case Msg(g) =>
      if |g.body| > cfg.maxStreamBodyLen then
        (if UseOf(st, g.id).Closed? then [] else [MsgTooLarge(cfg, g.id)])
        + (if HasClose(g.flags) then [CloseStream(g.(body := []))] else [])
      else if HasClose(g.flags) then [CloseStream(g)]
      else if UseOf(st, g.id).Open? then [Queue(g)]
      else []
  }

  lemma SumsDoNotWrap(n: nat)
    requires n < TWO_63
    ensures AsInt64(n) == n
  {
  }

  lemma ReqDispatched(cfg: Config, q: Request, t: seq<byte>, st: Streams)
    requires WellFormed(Req(q))
    ensures ReqStep(cfg, q.id, q.flags, RequestTail(q) + t)
         == Iteration(Dispatch(cfg, Req(q), st), t, true)
  {
    hide RequestTail, PathStep, Handled, Refusal, DecimalBytes, Get2, Get8;
    RequestTailReads(q, t);
    SumsDoNotWrap(|q.body|);
    var u := q.path + q.headers + q.body + t;
    if |q.body| > cfg.maxBodyLen {
      SumsDoNotWrap(|q.body| + (|q.path| + |q.headers|));
      Cut(q.path + q.headers + q.body, t);
    } else {
      ConcatAssociative(q.path, q.headers + q.body, t);
      ConcatAssociative(q.path, q.headers, q.body);
      Cut(q.path, q.headers + q.body + t);
      PathDispatched(cfg, q, t, st);
    }
  }

  lemma PathDispatched(cfg: Config, q: Request, t: seq<byte>, st: Streams)
    requires WellFormed(Req(q)) && |q.body| <= cfg.maxBodyLen
    ensures PathStep(cfg, q.id, q.flags, q.path, |q.headers|, |q.body|, q.headers + q.body + t)
         == Iteration(Dispatch(cfg, Req(q), st), t, true)
  {
    hide Refusal, Handled, BodyTooLargeReply;
    SumsDoNotWrap(|q.headers| + |q.body|);
    var v := q.headers + q.body + t;
    CutTwice(q.headers, q.body, t);
    assert Take(v, |q.headers| + |q.body|).rest == t && Take(v, |q.headers| + |q.body|).ok;
  }

  lemma CutTwice(a: seq<byte>, b: seq<byte>, t: seq<byte>)
    ensures var v, n := a + b + t, |a| + |b|;
      v[..|a|] == a && v[|a|..n] == b && v[n..] == t && |v| >= n
  {
  }

  lemma MsgDispatched(cfg: Config, g: Message, t: seq<byte>, st: Streams)
    requires WellFormed(Msg(g))
    ensures MsgStep(cfg, g.id, g.flags, MessageTail(g) + t, UseOf(st, g.id))
         == Iteration(Dispatch(cfg, Msg(g), st), t, Accepted(cfg, Msg(g), st))
  {
    hide MessageTail, Get8;
    MessageTailReads(g, t);
    SumsDoNotWrap(|g.body|);
    Cut(g.body, t);
  }

  lemma AfterPrefix(cfg: Config, id: nat, flags: byte, u: seq<byte>, st: Streams)
    requires id < TWO_64
    ensures LoopStep(cfg, Prefix(id, flags) + u, st)
         == if !IsStreamMsg(flags) then ReqStep(cfg, id, flags, u)
            else if id !in st.registered then Iteration([NotStream(id)], u, true)
            else MsgStep(cfg, id, flags, u, UseOf(st, id))
  {
    hide Prefix, ReqStep, MsgStep, Get8;
    PrefixReads(id, flags, u);
  }

  /** Every branch consumes exactly its frame and does what the dispatcher says, whatever follows; the
      loop goes on unless the frame is a message that its stream does not take. */
  lemma FrameStep(cfg: Config, f: Frame, st: Streams, t: seq<byte>)
    requires WellFormed(f) && Registered(f, st)
    ensures LoopStep(cfg, EncodeFrame(f) + t, st)
         == Iteration(Dispatch(cfg, f, st), t, Accepted(cfg, f, st))
  {
    hide ReqStep, MsgStep, RequestTail, MessageTail, LoopStep, Dispatch;
    match f
    case Req(q) =>
      ConcatAssociative(Prefix(q.id, q.flags), RequestTail(q), t);
      AfterPrefix(cfg, q.id, q.flags, RequestTail(q) + t, st);
      ReqDispatched(cfg, q, t, st);
    case Msg(g) =>
      ConcatAssociative(Prefix(g.id, g.flags), MessageTail(g), t);
      AfterPrefix(cfg, g.id, g.flags, MessageTail(g) + t, st);
      MsgDispatched(cfg, g, t, st);
  }

  /** The loop goes on at the next frame exactly when a stream message names a registered stream and
      either closes it, is too large, or finds it still open. For an unknown stream the loop answers
      and leaves the length and the body on the connection; a message that is not taken ends it. */
  lemma AlignedIff(cfg: Config, f: Frame, st: Streams, t: seq<byte>)
    requires WellFormed(f)
    ensures var it := LoopStep(cfg, EncodeFrame(f) + t, st);
      it.ok && it.rest == t <==> Known(cfg, f, st)
  {
    hide ReqStep, MsgStep, RequestTail, Dispatch;
    if Registered(f, st) {
      FrameStep(cfg, f, st, t);
    } else {
      var g := f.g;
      ConcatAssociative(Prefix(g.id, g.flags), MessageTail(g), t);
      AfterPrefix(cfg, g.id, g.flags, MessageTail(g) + t, st);
    }
  }

  // ----- Frames cut short -----

  /** What a turn may have done when the connection ends inside a frame: it refused it early. No
      handler is started, and nothing is queued, for a frame that is not all there. */
  predicate OnlyRefusals(events: seq<Event>) {
    forall e | e in events :: e.Reply? || e.Notify? || (e.CloseStream? && e.msg.body == [])
  }

  lemma PathCut(cfg: Config, q: Request, v: seq<byte>)
    requires WellFormed(Req(q)) && |v| < |q.headers| + |q.body|
    ensures var it := PathStep(cfg, q.id, q.flags, q.path, |q.headers|, |q.body|, v);
      !it.ok && OnlyRefusals(it.events)
  {
    SumsDoNotWrap(|q.headers| + |q.body|);
  }

  lemma PathKept(q: Request, c: seq<byte>, d: seq<byte>)
    requires c + d == RequestTail(q) && |c| >= 12 + |q.path|
    ensures c[12..][..|q.path|] == q.path
  {
    assert RequestTail(q)[12..][..|q.path|] == q.path;
  }

  lemma ReqHeadCut(q: Request, c: seq<byte>, d: seq<byte>)
    requires WellFormed(Req(q)) && c + d == RequestTail(q) && |c| >= 12
    ensures Get2(c) == |q.path| && Get2(c[2..]) == |q.headers| && AsInt64(Get8(c[4..])) == |q.body|
    ensures |c| + |d| == 12 + |q.path| + |q.headers| + |q.body|
  {
    hide RequestTail, FromLe;
    assert RequestTail(q) + [] == c + d;
    RequestTailReads(q, []);
    CutReads(c, d, 0, 2);
    CutReads(c, d, 2, 2);
    CutReads(c, d, 4, 8);
    assert c[0..] == c && (c + d)[0..] == c + d;
    SumsDoNotWrap(|q.body|);
    assert |(c + d)[12..]| == |q.path + q.headers + q.body|;
  }

  lemma ReqCut(cfg: Config, q: Request, c: seq<byte>, d: seq<byte>)
    requires WellFormed(Req(q)) && c + d == RequestTail(q) && d != []
    ensures var it := ReqStep(cfg, q.id, q.flags, c); !it.ok && OnlyRefusals(it.events)
  {
    hide RequestTail, PathStep, DecimalBytes, Get2, Get8;
    if |c| >= 12 {
      ReqHeadCut(q, c, d);
      if |q.body| > cfg.maxBodyLen {
        SumsDoNotWrap(|q.body| + (|q.path| + |q.headers|));
      } else if |c| - 12 >= |q.path| {
        PathKept(q, c, d);
        PathCut(cfg, q, c[12..][|q.path|..]);
      }
    }
  }

  lemma MsgCut(cfg: Config, g: Message, c: seq<byte>, d: seq<byte>, use: Usable)
    requires WellFormed(Msg(g)) && c + d == MessageTail(g) && d != []
    ensures var it := MsgStep(cfg, g.id, g.flags, c, use); !it.ok && OnlyRefusals(it.events)
  {
    hide MessageTail, FromLe;
    if |c| >= 8 {
      assert MessageTail(g) + [] == c + d;
      MessageTailReads(g, []);
      CutReads(c, d, 0, 8);
      assert c[0..] == c && (c + d)[0..] == c + d;
      SumsDoNotWrap(|g.body|);
    }
  }

  lemma ShortHead(cfg: Config, data: seq<byte>, st: Streams)
    requires |data| < 9
    ensures var it := LoopStep(cfg, data, st); !it.ok && OnlyRefusals(it.events)
  {
  }

  lemma CutSplits(head: seq<byte>, tail: seq<byte>, n: nat)
    requires |head| <= n < |head + tail|
    ensures var k := n - |head|;
      && (head + tail)[..n] == head + tail[..k]
      && tail[..k] + tail[k..] == tail && tail[k..] != []
  {
  }

  /** A frame that is cut short anywhere ends the loop without being acted on. */
  lemma CutFrameStops(cfg: Config, f: Frame, st: Streams, n: nat)
    requires WellFormed(f) && Registered(f, st) && n < |EncodeFrame(f)|
    ensures var it := LoopStep(cfg, EncodeFrame(f)[..n], st); !it.ok && OnlyRefusals(it.events)
  {
    hide ReqStep, MsgStep, RequestTail, MessageTail, LoopStep, OnlyRefusals, Prefix;
    if n < 9 {
      ShortHead(cfg, EncodeFrame(f)[..n], st);
    } else {
      match f {
        case Req(q) =>
          var c, d := RequestTail(q)[..n - 9], RequestTail(q)[n - 9..];
          CutSplits(Prefix(q.id, q.flags), RequestTail(q), n);
          AfterPrefix(cfg, q.id, q.flags, c, st);
          ReqCut(cfg, q, c, d);
        case Msg(g) =>
          var c, d := MessageTail(g)[..n - 9], MessageTail(g)[n - 9..];
          CutSplits(Prefix(g.id, g.flags), MessageTail(g), n);
          AfterPrefix(cfg, g.id, g.flags, c, st);
          MsgCut(cfg, g, c, d, UseOf(st, g.id));
      }
    }
  }

  // ----- The whole loop -----

  /** The frames are well formed, and each stream message names a stream that is registered, and open
      if it is to be queued, when its turn comes. */
  predicate Served(cfg: Config, fs: seq<Frame>, env: nat -> Streams, turn: nat) {
    fs == []
    || (WellFormed(fs[0]) && Known(cfg, fs[0], env(turn)) && Served(cfg, fs[1..], env, turn + 1))
  }

  function DispatchEach(cfg: Config, fs: seq<Frame>, env: nat -> Streams, turn: nat)
    : (turns: seq<seq<Event>>)
    ensures |turns| == |fs|
    decreases |fs|
  {
    if fs == [] then []
    else [Dispatch(cfg, fs[0], env(turn))] + DispatchEach(cfg, fs[1..], env, turn + 1)
  }

  lemma {:induction false} DispatchEachAt(cfg: Config, fs: seq<Frame>, env: nat -> Streams, turn: nat,
                                          i: nat)
    requires i < |fs|
    ensures DispatchEach(cfg, fs, env, turn)[i] == Dispatch(cfg, fs[i], env(turn + i))
    decreases |fs|
  {
    hide Dispatch;
    if i > 0 {
      DispatchEachAt(cfg, fs[1..], env, turn + 1, i - 1);
    }
  }

  lemma TurnServes(cfg: Config, f: Frame, t: seq<byte>, env: nat -> Streams, turn: nat)
    requires WellFormed(f) && Known(cfg, f, env(turn))
    ensures Turns(cfg, EncodeFrame(f) + t, env, turn)
         == [Dispatch(cfg, f, env(turn))] + Turns(cfg, t, env, turn + 1)
  {
    hide LoopStep, Dispatch, EncodeFrame;
    FrameStep(cfg, f, env(turn), t);
  }

  /** For every sequence of frames, on their concatenated bytes and whatever bytes follow: one turn
      a frame, in order, with exactly the dispatcher's events; then the loop is at the next byte. */
  lemma {:induction false} LoopDispatches(cfg: Config, fs: seq<Frame>, t: seq<byte>,
                                          env: nat -> Streams, turn: nat)
    requires Served(cfg, fs, env, turn)
    ensures Turns(cfg, EncodeFrames(fs) + t, env, turn)
         == DispatchEach(cfg, fs, env, turn) + Turns(cfg, t, env, turn + |fs|)
  {
    hide LoopStep, Dispatch, EncodeFrame;
    if fs == [] {
      assert EncodeFrames(fs) + t == t;
    } else {
      var f, more := fs[0], fs[1..];
      ConcatAssociative(EncodeFrame(f), EncodeFrames(more), t);
      TurnServes(cfg, f, EncodeFrames(more) + t, env, turn);
      LoopDispatches(cfg, more, t, env, turn + 1);
      ConcatAssociative([Dispatch(cfg, f, env(turn))], DispatchEach(cfg, more, env, turn + 1),
                        Turns(cfg, t, env, turn + |fs|));
    }
  }

  lemma LastTurn(cfg: Config, f: Frame, n: nat, env: nat -> Streams, turn: nat)
    requires WellFormed(f) && Registered(f, env(turn)) && n < |EncodeFrame(f)|
    ensures var turns := Turns(cfg, EncodeFrame(f)[..n], env, turn);
      |turns| == 1 && OnlyRefusals(turns[0])
  {
    hide LoopStep;
    CutFrameStops(cfg, f, env(turn), n);
  }

  /** When the connection ends after whole frames, or anywhere inside the next one: every whole frame
      is dispatched, and the last turn only refuses. */
  lemma LoopUntilCut(cfg: Config, fs: seq<Frame>, f: Frame, n: nat, env: nat -> Streams)
    requires Served(cfg, fs, env, 0) && WellFormed(f) && Registered(f, env(|fs|)) && n < |EncodeFrame(f)|
    ensures var turns := Turns(cfg, EncodeFrames(fs) + EncodeFrame(f)[..n], env, 0);
      && |turns| == |fs| + 1 && turns[..|fs|] == DispatchEach(cfg, fs, env, 0)
      && OnlyRefusals(turns[|fs|])
  {
    hide LoopStep, Dispatch, EncodeFrame;
    LoopDispatches(cfg, fs, EncodeFrame(f)[..n], env, 0);
    LastTurn(cfg, f, n, env, |fs|);
  }

  /** A message that its stream does not take ends the loop as well: what precedes it is dispatched, and
      nothing that follows it is read. */
  lemma LoopUntilRefused(cfg: Config, fs: seq<Frame>, f: Frame, t: seq<byte>, env: nat -> Streams)
    requires Served(cfg, fs, env, 0)
    requires WellFormed(f) && Registered(f, env(|fs|)) && !Accepted(cfg, f, env(|fs|))
    ensures Turns(cfg, EncodeFrames(fs) + (EncodeFrame(f) + t), env, 0)
         == DispatchEach(cfg, fs, env, 0) + [[]]
  {
    hide LoopStep, EncodeFrame;
    LoopDispatches(cfg, fs, EncodeFrame(f) + t, env, 0);
    FrameStep(cfg, f, env(|fs|), t);
    assert Turns(cfg, EncodeFrame(f) + t, env, |fs|) == [[]] + [];
  }

  // ----- What the answers say -----

  /** A request within the body limit, by the two sets of paths: a stream request for a stream path and
      another one for a regular path start the handler; a stream request for a regular path is answered
      with status 130, any other with 128; and what stands behind the frame is left. */
  lemma RequestRouted(cfg: Config, q: Request, st: Streams, t: seq<byte>)
    requires WellFormed(Req(q)) && |q.body| <= cfg.maxBodyLen
    ensures var it := LoopStep(cfg, EncodeRequest(q) + t, st);
      var stream := q.flags / 64 % 2 == 1;
      && it.ok && it.rest == t
      && (stream && q.path in cfg.streamHandlers ==> it.events == [Start(q, true)])
      && (!stream && q.path in cfg.handlers ==> it.events == [Start(q, false)])
      && (stream && q.path !in cfg.streamHandlers && q.path in cfg.handlers ==>
            it.events == [Reply(Response(q.id, 0, 130, [], []))])
      && (stream && q.path !in cfg.streamHandlers && q.path !in cfg.handlers ==>
            it.events == [Reply(Response(q.id, 0, 128, [], []))])
      && (!stream && q.path !in cfg.handlers ==>
            it.events == [Reply(Response(q.id, 0, 128, [], []))])
  {
    hide LoopStep;
    FrameStep(cfg, Req(q), st, t);
  }

  /** One past the limit is answered with status 133 and the declared length in decimal. */
  lemma RequestTooLarge(cfg: Config, q: Request, st: Streams, t: seq<byte>)
    requires WellFormed(Req(q)) && |q.body| > cfg.maxBodyLen
    ensures var it := LoopStep(cfg, EncodeRequest(q) + t, st);
      && it.ok && it.rest == t && |it.events| == 1 && it.events[0].Reply?
      && var p := it.events[0].resp;
         p == Response(q.id, 0, 133, [], p.body) && AsciiValue(p.body) == |q.body|
  {
    hide LoopStep, DecimalBytes;
    FrameStep(cfg, Req(q), st, t);
    DecimalSays(|q.body|);
  }

  /** A stream message past the limit is answered, on an open stream, with the limit. */
  lemma MessageTooLarge(cfg: Config, g: Message, st: Streams, t: seq<byte>)
    requires WellFormed(Msg(g)) && |g.body| > cfg.maxStreamBodyLen && cfg.maxStreamBodyLen < TWO_63
    requires g.id in st.registered && UseOf(st, g.id) == Open
    ensures var it := LoopStep(cfg, EncodeMessage(g) + t, st);
      && it.ok && it.rest == t && it.events != [] && it.events[0].Notify?
      && it.events[0].msg.id == g.id && IsStreamMsg(it.events[0].msg.flags)
      && it.events[0].msg.flags / 32 % 2 == 1 && !HasClose(it.events[0].msg.flags)
      && |it.events[0].msg.body| == 8 && Get8(it.events[0].msg.body) == cfg.maxStreamBodyLen
      && it.events[1..] == if HasClose(g.flags) then [CloseStream(g.(body := []))] else []
  {
    hide LoopStep, Le, Get8;
    FrameStep(cfg, Msg(g), st, t);
    Get8Le(cfg.maxStreamBodyLen, []);
    assert Le(cfg.maxStreamBodyLen, 8) + [] == Le(cfg.maxStreamBodyLen, 8);
  }

  /** One for an unknown stream is answered so. */
  lemma UnknownAnswered(cfg: Config, g: Message, st: Streams, t: seq<byte>)
    requires WellFormed(Msg(g)) && g.id !in st.registered
    ensures LoopStep(cfg, EncodeMessage(g) + t, st).events == [Notify(Message(g.id, 64, []))]
  {
    hide MsgStep, MessageTail;
    ConcatAssociative(Prefix(g.id, g.flags), MessageTail(g), t);
    AfterPrefix(cfg, g.id, g.flags, MessageTail(g) + t, st);
  }

  function AsciiValue(s: Str): int {
    if s == [] then 0
    else
      var last: int := s[|s| - 1];
      AsciiValue(s[..|s| - 1]) * 10 + (last - 48)
  }

  lemma {:induction false} AsciiSnoc(s: string, c: char)
    ensures Ascii(s + [c]) == Ascii(s) + [c as int % 256]
  {
    if s == "" {
      assert [c][1..] == "" && "" + [c] == [c];
    } else {
      assert (s + [c])[1..] == s[1..] + [c];
      AsciiSnoc(s[1..], c);
    }
  }

  lemma {:induction false} DecimalSays(n: nat)
    ensures AsciiValue(DecimalBytes(n)) == n
  {
    var c := ('0' as int + n % 10) as char;
    if n < 10 {
      assert Decimal(n) == "" + [c];
      AsciiSnoc("", c);
      assert DecimalBytes(n) == [48 + n];
      assert AsciiValue([]) == 0 && [48 + n][..0] == [];
    } else {
      DecimalSays(n / 10);
      AsciiSnoc(Decimal(n / 10), c);
      var s := DecimalBytes(n);
      assert s[..|s| - 1] == DecimalBytes(n / 10);
    }
  }

  lemma {:induction false} AsciiLength(s: string)
    ensures |Ascii(s)| == |s|
  {
    if s != "" { AsciiLength(s[1..]); }
  }

  lemma {:induction false} DecimalShort(n: nat)
    ensures |DecimalBytes(n)| <= n / 10 + 1
  {
    AsciiLength(Decimal(n));
    if n >= 10 {
      DecimalShort(n / 10);
      AsciiLength(Decimal(n / 10));
    }
  }

  /** What the loop itself writes: no answer has status OK, each is for the frame's id, and each fits a
      frame. */
  lemma AnswersFit(cfg: Config, f: Frame, st: Streams, e: Event)
    requires WellFormed(f) && e in Dispatch(cfg, f, st)
    ensures e.Reply? ==>
      && f.Req? && e.resp.id == f.q.id && e.resp.status != 0 && e.resp.flags == 0
      && e.resp.headers == [] && |e.resp.body| < TWO_63
    ensures e.Notify? ==> f.Msg? && e.msg.id == f.g.id && |e.msg.body| == 8
  {
    hide DecimalBytes;
    if f.Req? { DecimalShort(|f.q.body|); }
  }

  /** A stream message within the limit, for a registered stream: a close frame closes it, with its body;
      another is queued if the stream takes it, and ends the loop if not. */
  lemma MessageRouted(cfg: Config, g: Message, st: Streams, t: seq<byte>)
    requires WellFormed(Msg(g)) && |g.body| <= cfg.maxStreamBodyLen && g.id in st.registered
    ensures var it := LoopStep(cfg, EncodeMessage(g) + t, st);
      && it.rest == t
      && (g.flags % 2 == 1 ==> it.ok && it.events == [CloseStream(g)])
      && (g.flags % 2 == 0 && g.id !in st.closed && g.id !in st.fatal ==>
            it.ok && it.events == [Queue(g)])
      && (g.flags % 2 == 0 && (g.id in st.closed || g.id in st.fatal) ==> !it.ok && it.events == [])
  {
    hide LoopStep;
    FrameStep(cfg, Msg(g), st, t);
  }

  /** A closed stream is sent no refusal. */
  lemma ClosedTooLarge(cfg: Config, g: Message, st: Streams, t: seq<byte>)
    requires WellFormed(Msg(g)) && |g.body| > cfg.maxStreamBodyLen
    requires g.id in st.registered && g.id in st.closed
    ensures var it := LoopStep(cfg, EncodeMessage(g) + t, st);
      && it.ok && it.rest == t
      && it.events == if g.flags % 2 == 1 then [CloseStream(g.(body := []))] else []
  {
    hide LoopStep;
    FrameStep(cfg, Msg(g), st, t);
  }
}
