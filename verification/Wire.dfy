/** The three frames of the protocol on the wire (SPEC.v2.md, go/req_resp.go, go/stream.go) and the
    exact reach of their round trips. */
module Wire {
  import opened Bytes

  datatype Request =
    Request(id: nat, flags: byte, path: Str, headers: seq<byte>, body: seq<byte>)

  datatype Response =
    Response(id: nat, flags: byte, status: byte, headers: seq<byte>, body: seq<byte>)

  datatype Message = Message(id: nat, flags: byte, body: seq<byte>)

  // ----- Flags -----

  const FLAG_STREAM_MSG: nat := 0x80
  const REQ_FLAG_STREAM: nat := 0x40
  const MSG_FLAG_NOT_STREAM: byte := 0x40
  const MSG_FLAG_TOO_LARGE: byte := 0x20

  predicate IsStreamMsg(flags: byte) { flags / FLAG_STREAM_MSG == 1 }

  predicate WantsStream(flags: byte) { flags / REQ_FLAG_STREAM % 2 == 1 }

  predicate HasClose(flags: byte) { flags % 2 == 1 }

  /** `flags | FlagStreamMsg` */
  function WithStreamMsg(flags: byte): byte {
    if IsStreamMsg(flags) then flags else flags + FLAG_STREAM_MSG
  }

  // ----- Writing -----

  /** Every frame starts with the request id and the flags. */
  function Prefix(id: nat, flags: byte): (b: seq<byte>)
    ensures |b| == 9
  {
    Le(id, 8) + [flags]
  }

  function RequestTail(q: Request): seq<byte> {
    Le(|q.path|, 2) + Le(|q.headers|, 2) + Le(|q.body|, 8) + (q.path + q.headers + q.body)
  }

  function EncodeRequest(q: Request): seq<byte> {
    Prefix(q.id, q.flags) + RequestTail(q)
  }

  function ResponseTail(p: Response): seq<byte> {
    [p.status] + Le(|p.headers|, 2) + Le(|p.body|, 8) + (p.headers + p.body)
  }

  function EncodeResponse(p: Response): seq<byte> {
    Prefix(p.id, p.flags) + ResponseTail(p)
  }

  function EncodeMessage(g: Message): seq<byte> {
    Prefix(g.id, WithStreamMsg(g.flags)) + MessageTail(g)
  }

  /** `place2` and `place8`: overwrite `n` bytes of the buffer at an offset. */
  method Place(buf: array<byte>, off: nat, u: nat, n: nat)
    requires off + n <= buf.Length
    modifies buf
    ensures buf[..] == old(buf[..off]) + Le(u, n) + old(buf[off + n..])
  {
    hide Le;
    var b := Le(u, n);
    forall i | 0 <= i < n {
      buf[off + i] := b[i];
    }
  }

  /** `Request.WriteTo`: a 21-byte buffer filled by offset, then path, headers and body. */
  method WriteRequest(q: Request) returns (out: seq<byte>)
    ensures out == EncodeRequest(q)
  {
    hide Le;
    var buf := new byte[21](_ => 0);
    Place(buf, 0, q.id, 8);
    buf[8] := q.flags;
    Place(buf, 9, |q.path|, 2);
    Place(buf, 11, |q.headers|, 2);
    Place(buf, 13, |q.body|, 8);
    assert buf[..9] == Prefix(q.id, q.flags);
    assert buf[..] == Prefix(q.id, q.flags)
                      + (Le(|q.path|, 2) + Le(|q.headers|, 2) + Le(|q.body|, 8));
    out := buf[..] + q.path;
    out := out + q.headers;
    out := out + q.body;
    Gather(Prefix(q.id, q.flags), Le(|q.path|, 2) + Le(|q.headers|, 2) + Le(|q.body|, 8),
           q.path, q.headers, q.body);
  }

  /** `Message.WriteTo`: a 17-byte buffer with the top flag set, then the body if there is one. */
  method WriteMessage(g: Message) returns (out: seq<byte>)
    ensures out == EncodeMessage(g)
  {
    hide Le;
    var buf := new byte[17](_ => 0);
    var flags := WithStreamMsg(g.flags);
    Place(buf, 0, g.id, 8);
    buf[8] := flags;
    Place(buf, 9, |g.body|, 8);
    assert buf[..9] == Prefix(g.id, flags);
    assert buf[..] == Prefix(g.id, flags) + Le(|g.body|, 8);
    out := buf[..];
    if |g.body| != 0 {
      out := out + g.body;
    }
    assert buf[..] + [] == buf[..];
    ConcatAssociative(Prefix(g.id, flags), Le(|g.body|, 8), g.body);
  }

  lemma Gather(a: seq<byte>, b: seq<byte>, c: seq<byte>, d: seq<byte>, e: seq<byte>)
    ensures a + b + c + d + e == a + (b + (c + d + e))
  {
    ConcatAssociative(a, b, c + d + e);
    ConcatAssociative(a + b, c, d);
    ConcatAssociative(a + b, c + d, e);
  }

  /** `Response.WriteTo`: a 20-byte buffer to which the headers are appended, then the body. */
  method WriteResponse(p: Response) returns (out: seq<byte>)
    ensures out == EncodeResponse(p)
  {
    hide Le;
    var buf := new byte[20](_ => 0);
    Place(buf, 0, p.id, 8);
    buf[8], buf[9] := p.flags, p.status;
    Place(buf, 10, |p.headers|, 2);
    Place(buf, 12, |p.body|, 8);
    assert buf[..9] == Prefix(p.id, p.flags);
    assert buf[..] == Prefix(p.id, p.flags) + ([p.status] + Le(|p.headers|, 2) + Le(|p.body|, 8));
    out := buf[..] + p.headers;
    out := out + p.body;
    Gather(Prefix(p.id, p.flags), [p.status] + Le(|p.headers|, 2) + Le(|p.body|, 8),
           [], p.headers, p.body);
  }

  // ----- Reading -----

  datatype Taken = Taken(bytes: seq<byte>, rest: seq<byte>, ok: bool)

  /** `io.CopyN` and `io.ReadFull` on the bytes a connection still holds: all `n` bytes, or an error
      once the bytes run out. A negative `n` copies nothing and succeeds. */
  function Take(data: seq<byte>, n: int): Taken {
    if n <= 0 then Taken([], data, true)
    else if |data| >= n then Taken(data[..n], data[n..], true)
    else Taken(data, [], false)
  }

  /** Reading splits what is there, and an error means that it was too little and is used up. */
  lemma TakeSplits(data: seq<byte>, n: int)
    ensures var c := Take(data, n);
      && c.bytes + c.rest == data
      && (c.ok <==> |data| >= n)
      && (c.ok ==> |c.bytes| == if n < 0 then 0 else n)
      && (!c.ok ==> c.rest == [])
  {
  }

  class Conn {
    var data: seq<byte>

    constructor (data: seq<byte>)
      ensures this.data == data
    {
      this.data := data;
    }

    method CopyN(n: int) returns (b: seq<byte>, ok: bool)
      modifies this
      ensures Taken(b, data, ok) == Take(old(data), n)
    {
      if n <= 0 {
        return [], true;
      }
      if |data| >= n {
        b, data, ok := data[..n], data[n..], true;
      } else {
        b, data, ok := data, [], false;
      }
    }
  }

  datatype ReadError = Eof | BodyTooLarge

  datatype Decoded<T> = Ok(value: T, rest: seq<byte>) | Failed(err: ReadError, rest: seq<byte>)

  /** A body of declared length `bl`; a length of 2^63 or more reads as negative and takes nothing. */
  function BodyBytes(bl: int): nat {
    if bl < 0 then 0 else bl
  }

  /** The path, headers and body of a request, once their lengths are known. */
  function RequestOf(id: nat, flags: byte, u: seq<byte>, pl: nat, hl: nat, bl: int, maxBodyLen: nat)
    : Decoded<Request>
  {
    var n := pl + hl + BodyBytes(bl);
    if bl > maxBodyLen then Failed(BodyTooLarge, u)
    else if |u| < n then Failed(Eof, [])
    else Ok(Request(id, flags, u[..pl], u[pl..pl + hl], u[pl + hl..n]), u[n..])
  }

  /** A request after its first nine bytes. */
  function DecodeRequestTail(id: nat, flags: byte, t: seq<byte>, maxBodyLen: nat)
    : Decoded<Request>
  {
    if |t| < 12 then Failed(Eof, [])
    else
      RequestOf(id, flags, t[12..], Get2(t), Get2(t[2..]), AsInt64(Get8(t[4..])), maxBodyLen)
  }

  function DecodeRequest(b: seq<byte>, maxBodyLen: nat): Decoded<Request> {
    if |b| < 9 then Failed(Eof, [])
    else DecodeRequestTail(Get8(b), b[8], b[9..], maxBodyLen)
  }

  /** `RequestFromReader`. */
  method RequestFromReader(conn: Conn, maxBodyLen: nat) returns (r: Decoded<Request>)
    modifies conn
    ensures r == DecodeRequest(old(conn.data), maxBodyLen) && conn.data == r.rest
  {
    hide Get2, Get8;
    var buf, ok := conn.CopyN(21);
    if !ok {
      return Failed(Eof, []);
    }
    RequestHead(old(conn.data));
    var id, flags := Get8(buf), buf[8];
    var pathLen, headersLen, bodyLen := Get2(buf[9..]), Get2(buf[11..]), AsInt64(Get8(buf[13..]));
    if bodyLen > maxBodyLen {
      return Failed(BodyTooLarge, conn.data);
    }
    ghost var u := conn.data;
    var b, ok2 := conn.CopyN(pathLen + headersLen);
    if !ok2 {
      return Failed(Eof, []);
    }
    var body, ok3 := conn.CopyN(bodyLen);
    if !ok3 {
      return Failed(Eof, []);
    }
    TakenApart(u, pathLen, headersLen, BodyBytes(bodyLen));
    return Ok(Request(id, flags, b[..pathLen], b[pathLen..], body), conn.data);
  }

  /** The 21-byte head read at once says what it says when read as 9 and 12 bytes. */
  lemma RequestHead(all: seq<byte>)
    requires |all| >= 21
    ensures var buf, t := all[..21], all[9..];
      && Get8(buf) == Get8(all) && buf[8] == all[8] && all[21..] == t[12..]
      && Get2(buf[9..]) == Get2(t) && Get2(buf[11..]) == Get2(t[2..])
      && Get8(buf[13..]) == Get8(t[4..])
  {
    hide FromLe;
    var buf, t := all[..21], all[9..];
    assert buf[..8] == all[..8] && buf[9..][..2] == t[..2];
    assert buf[11..][..2] == t[2..][..2] && buf[13..][..8] == t[4..][..8];
  }

  /** As `RequestHead`, for the 20 bytes of a response. */
  lemma ResponseHead(all: seq<byte>)
    requires |all| >= 20
    ensures var buf, t := all[..20], all[9..];
      && Get8(buf) == Get8(all) && buf[8] == all[8] && buf[9] == t[0] && all[20..] == t[11..]
      && Get2(buf[10..]) == Get2(t[1..]) && Get8(buf[12..]) == Get8(t[3..])
  {
    hide FromLe;
    var buf, t := all[..20], all[9..];
    assert buf[..8] == all[..8];
    assert buf[10..][..2] == t[1..][..2] && buf[12..][..8] == t[3..][..8];
  }

  lemma TakenApart(u: seq<byte>, pl: nat, hl: nat, n: nat)
    requires pl + hl + n <= |u|
    ensures u[..pl + hl][..pl] == u[..pl] && u[..pl + hl][pl..] == u[pl..pl + hl]
    ensures u[pl + hl..][..n] == u[pl + hl..pl + hl + n]
    ensures u[pl + hl..][n..] == u[pl + hl + n..]
  {
  }

  /** `Response.ReadFrom` after its first nine bytes. */
  function DecodeResponseTail(id: nat, flags: byte, t: seq<byte>): Decoded<Response> {
    if |t| < 11 then Failed(Eof, [])
    else
      var hl, bl := Get2(t[1..]), AsInt64(Get8(t[3..]));
      var n := hl + BodyBytes(bl);
      var u := t[11..];
      if |u| < n then Failed(Eof, [])
      else Ok(Response(id, flags, t[0], u[..hl], u[hl..n]), u[n..])
  }

  function DecodeResponse(b: seq<byte>): Decoded<Response> {
    if |b| < 9 then Failed(Eof, []) else DecodeResponseTail(Get8(b), b[8], b[9..])
  }

  /** `Response.ReadFrom`, which reads the 20-byte head at once. */
  method ResponseFromReader(conn: Conn) returns (r: Decoded<Response>)
    modifies conn
    ensures r == DecodeResponse(old(conn.data)) && conn.data == r.rest
  {
    hide Get2, Get8;
    var buf, ok := conn.CopyN(20);
    if !ok {
      return Failed(Eof, []);
    }
    ResponseHead(old(conn.data));
    var hl, bl := Get2(buf[10..]), AsInt64(Get8(buf[12..]));
    var u := conn.data;
    var headers, body: seq<byte> := [], [];
    if hl != 0 {
      headers, ok := conn.CopyN(hl);
      if !ok {
        return Failed(Eof, []);
      }
    }
    if bl != 0 {
      body, ok := conn.CopyN(bl);
      if !ok {
        return Failed(Eof, []);
      }
    }
    TakenApart(u, 0, hl, BodyBytes(bl));
    return Ok(Response(Get8(buf), buf[8], buf[9], headers, body), conn.data);
  }

  function DecodeMessageTail(id: nat, flags: byte, t: seq<byte>): Decoded<Message> {
    if |t| < 8 then Failed(Eof, [])
    else
      var n := BodyBytes(AsInt64(Get8(t)));
      var u := t[8..];
      if |u| < n then Failed(Eof, []) else Ok(Message(id, flags, u[..n]), u[n..])
  }

  // ----- What the head of an encoding says -----

  lemma PrefixReads(id: nat, flags: byte, t: seq<byte>)
    ensures var b := Prefix(id, flags) + t;
      Get8(b) == id % TWO_64 && b[8] == flags && b[9..] == t
  {
    hide Le, FromLe;
    var b := Prefix(id, flags) + t;
    assert b == Le(id, 8) + ([flags] + t);
    Get8Le(id, [flags] + t);
  }

  lemma RequestTailReads(q: Request, t: seq<byte>)
    ensures var b := RequestTail(q) + t;
      && |b| >= 12
      && Get2(b) == |q.path| % (MAX_U16 + 1)
      && Get2(b[2..]) == |q.headers| % (MAX_U16 + 1)
      && Get8(b[4..]) == |q.body| % TWO_64
      && b[12..] == q.path + q.headers + q.body + t
  {
    hide Le, FromLe, Get2, Get8;
    var b, pl, hl, bl := RequestTail(q) + t, Le(|q.path|, 2), Le(|q.headers|, 2), Le(|q.body|, 8);
    var u := q.path + q.headers + q.body + t;
    assert b == pl + (hl + (bl + u));
    Get2Le(|q.path|, hl + (bl + u));
    assert b[2..] == hl + (bl + u);
    Get2Le(|q.headers|, bl + u);
    assert b[4..] == bl + u;
    Get8Le(|q.body|, u);
    assert b[12..] == u;
  }

  lemma ResponseTailReads(p: Response, t: seq<byte>)
    ensures var b := ResponseTail(p) + t;
      && |b| >= 11 && b[0] == p.status
      && Get2(b[1..]) == |p.headers| % (MAX_U16 + 1)
      && Get8(b[3..]) == |p.body| % TWO_64
      && b[11..] == p.headers + p.body + t
  {
    hide Le, FromLe, Get2, Get8;
    var b, hl, bl := ResponseTail(p) + t, Le(|p.headers|, 2), Le(|p.body|, 8);
    var u := p.headers + p.body + t;
    assert b == [p.status] + (hl + (bl + u));
    assert b[1..] == hl + (bl + u);
    Get2Le(|p.headers|, bl + u);
    assert b[3..] == bl + u;
    Get8Le(|p.body|, u);
    assert b[11..] == u;
  }

  lemma SmallLength(n: nat)
    requires n < TWO_63
    ensures AsInt64(n % TWO_64) == n && BodyBytes(n) == n
  {
  }

  // ----- Round trips -----

  ghost predicate Sendable(q: Request) {
    q.id < TWO_64 && |q.body| < TWO_63
  }

  lemma RequestParts(q: Request, t: seq<byte>, pl: nat, hl: nat, maxBodyLen: nat)
    requires |q.body| <= maxBodyLen && pl <= |q.path| && hl <= |q.headers|
    ensures var u := q.path + q.headers + q.body + t;
      var r := RequestOf(q.id, q.flags, u, pl, hl, |q.body|, maxBodyLen);
      r == Ok(q, t) <==> pl == |q.path| && hl == |q.headers|
  {
    var u := q.path + q.headers + q.body + t;
    assert |u[..pl]| == pl && |u[pl..pl + hl]| == hl;
    if pl == |q.path| && hl == |q.headers| {
      Parts(q.path, q.headers, q.body, t);
    }
  }

  lemma RequestTailRoundTrip(q: Request, t: seq<byte>, maxBodyLen: nat)
    requires Sendable(q)
    ensures var r := DecodeRequestTail(q.id, q.flags, RequestTail(q) + t, maxBodyLen);
      if |q.body| > maxBodyLen then r == Failed(BodyTooLarge, q.path + q.headers + q.body + t)
      else r == Ok(q, t) <==> |q.path| <= MAX_U16 && |q.headers| <= MAX_U16
  {
    hide RequestTail, Le, Get2, Get8;
    RequestTailReads(q, t);
    SmallLength(|q.body|);
    if |q.body| <= maxBodyLen {
      RequestParts(q, t, |q.path| % (MAX_U16 + 1), |q.headers| % (MAX_U16 + 1), maxBodyLen);
    }
  }

  /** `RequestFromReader` undoes `Request.WriteTo` and leaves what follows untouched, exactly when
      path and encoded headers fit their two-byte lengths; a body over the limit is refused with the
      rest of the frame unread. */
  lemma RequestRoundTrip(q: Request, t: seq<byte>, maxBodyLen: nat)
    requires Sendable(q)
    ensures var r := DecodeRequest(EncodeRequest(q) + t, maxBodyLen);
      if |q.body| > maxBodyLen then r == Failed(BodyTooLarge, q.path + q.headers + q.body + t)
      else r == Ok(q, t) <==> |q.path| <= MAX_U16 && |q.headers| <= MAX_U16
  {
    hide RequestTail, DecodeRequestTail, Le, Get8;
    ConcatAssociative(Prefix(q.id, q.flags), RequestTail(q), t);
    var b := EncodeRequest(q) + t;
    PrefixReads(q.id, q.flags, RequestTail(q) + t);
    assert DecodeRequest(b, maxBodyLen)
        == DecodeRequestTail(q.id, q.flags, RequestTail(q) + t, maxBodyLen);
    RequestTailRoundTrip(q, t, maxBodyLen);
  }

  lemma Parts(x: seq<byte>, y: seq<byte>, z: seq<byte>, t: seq<byte>)
    ensures var u := x + y + z + t;
      && u[..|x|] == x && u[|x|..|x| + |y|] == y
      && u[|x| + |y|..|x| + |y| + |z|] == z && u[|x| + |y| + |z|..] == t
  {
  }

  /** What a cut leaves in place is read as before. */
  lemma CutReads(c: seq<byte>, d: seq<byte>, i: nat, k: nat)
    requires i + k <= |c|
    ensures (c + d)[i..][..k] == c[i..][..k]
  {
  }

  lemma RequestTailCut(q: Request, c: seq<byte>, d: seq<byte>, maxBodyLen: nat)
    requires Sendable(q) && |q.path| <= MAX_U16 && |q.headers| <= MAX_U16
    requires c + d == RequestTail(q) && d != []
    ensures var r := DecodeRequestTail(q.id, q.flags, c, maxBodyLen);
      if |c| >= 12 && |q.body| > maxBodyLen then r == Failed(BodyTooLarge, c[12..])
      else r == Failed(Eof, [])
  {
    hide RequestTail, Le, FromLe;
    if |c| >= 12 {
      assert RequestTail(q) + [] == c + d;
      RequestTailReads(q, []);
      SmallLength(|q.body|);
      CutReads(c, d, 0, 2);
      CutReads(c, d, 2, 2);
      CutReads(c, d, 4, 8);
      assert c[0..] == c && (c + d)[0..] == c + d;
    }
  }

  /** Every strict prefix of an encoding is refused. */
  lemma RequestPrefixFails(q: Request, n: nat, maxBodyLen: nat)
    requires Sendable(q) && |q.path| <= MAX_U16 && |q.headers| <= MAX_U16
    requires n < |EncodeRequest(q)|
    ensures DecodeRequest(EncodeRequest(q)[..n], maxBodyLen).Failed?
  {
    hide Le, FromLe, DecodeRequestTail;
    if n >= 9 {
      var c, d := RequestTail(q)[..n - 9], RequestTail(q)[n - 9..];
      assert EncodeRequest(q)[..n] == Prefix(q.id, q.flags) + c;
      PrefixReads(q.id, q.flags, c);
      assert c + d == RequestTail(q);
      RequestTailCut(q, c, d, maxBodyLen);
    }
  }

  lemma RequestTailReadBack(id: nat, flags: byte, t: seq<byte>, maxBodyLen: nat)
    requires DecodeRequestTail(id, flags, t, maxBodyLen).Ok?
    ensures var r := DecodeRequestTail(id, flags, t, maxBodyLen);
      t == RequestTail(r.value) + r.rest <==> Get8(t[4..]) < TWO_63
  {
    hide RequestTail, Le, Get2, Get8;
    var r := DecodeRequestTail(id, flags, t, maxBodyLen);
    LeGet8(t[4..]);
    if Get8(t[4..]) < TWO_63 {
      RequestTailRebuilt(id, flags, t, maxBodyLen);
    } else if t == RequestTail(r.value) + r.rest {
      RequestTailReads(r.value, r.rest);
    }
  }

  /** A declared body length of 2^63 or more reads as negative: nothing is taken for the body, and it is
      not refused as too large. */
  lemma HugeLengthReadsNothing(id: nat, flags: byte, t: seq<byte>, maxBodyLen: nat)
    requires |t| >= 12 && Get8(t[4..]) >= TWO_63 && |t| >= 12 + Get2(t) + Get2(t[2..])
    ensures var r := DecodeRequestTail(id, flags, t, maxBodyLen);
      && r.Ok? && r.value.body == [] && r.rest == t[12 + Get2(t) + Get2(t[2..])..]
  {
    hide Get2, Get8;
    LeGet8(t[4..]);
    assert AsInt64(Get8(t[4..])) < 0;
    var u := t[12..];
    assert u[Get2(t) + Get2(t[2..])..] == t[12 + Get2(t) + Get2(t[2..])..];
  }

  lemma RequestTailRebuilt(id: nat, flags: byte, t: seq<byte>, maxBodyLen: nat)
    requires DecodeRequestTail(id, flags, t, maxBodyLen).Ok? && Get8(t[4..]) < TWO_63
    ensures var r := DecodeRequestTail(id, flags, t, maxBodyLen);
      t == RequestTail(r.value) + r.rest
  {
    hide Le, Get2, Get8;
    var r := DecodeRequestTail(id, flags, t, maxBodyLen);
    var q, u := r.value, t[12..];
    var pl, hl, n := Get2(t), Get2(t[2..]), Get8(t[4..]);
    LeGet2(t);
    LeGet2(t[2..]);
    LeGet8(t[4..]);
    assert q == Request(id, flags, u[..pl], u[pl..pl + hl], u[pl + hl..pl + hl + n]);
    var lens := Le(pl, 2) + Le(hl, 2) + Le(n, 8);
    Rejoin(u, pl, hl, n);
    HeadAgain(t);
    assert t == lens + u;
    ConcatAssociative(lens, q.path + q.headers + q.body, r.rest);
  }

  lemma Rejoin(u: seq<byte>, pl: nat, hl: nat, n: nat)
    requires pl + hl + n <= |u|
    ensures u == u[..pl] + u[pl..pl + hl] + u[pl + hl..pl + hl + n] + u[pl + hl + n..]
  {
  }

  lemma HeadAgain(t: seq<byte>)
    requires |t| >= 12
    ensures t == t[..2] + t[2..][..2] + t[4..][..8] + t[12..]
  {
  }

  /** Reading is injective: what `RequestFromReader` accepts is the encoding of what it returns,
      followed by what it left, exactly when the declared body length is below 2^63. */
  lemma RequestReadBack(b: seq<byte>, maxBodyLen: nat)
    requires DecodeRequest(b, maxBodyLen).Ok?
    ensures var r := DecodeRequest(b, maxBodyLen);
      b == EncodeRequest(r.value) + r.rest <==> Get8(b[13..]) < TWO_63
  {
    hide RequestTail, Le, FromLe;
    var r := DecodeRequest(b, maxBodyLen);
    var q, t := r.value, b[9..];
    assert t[4..] == b[13..];
    LeGet8(b);
    assert b == Prefix(q.id, q.flags) + t;
    ConcatAssociative(Prefix(q.id, q.flags), RequestTail(q), r.rest);
    RequestTailReadBack(q.id, q.flags, t, maxBodyLen);
    Cut(Prefix(q.id, q.flags), t);
    Cut(Prefix(q.id, q.flags), RequestTail(q) + r.rest);
  }

  lemma ResponseTailRoundTrip(p: Response, t: seq<byte>)
    requires |p.body| < TWO_63
    ensures var r := DecodeResponseTail(p.id, p.flags, ResponseTail(p) + t);
      r == Ok(p, t) <==> |p.headers| <= MAX_U16
  {
    hide ResponseTail, Get2, Get8;
    var b := ResponseTail(p) + t;
    ResponseTailReads(p, t);
    SmallLength(|p.body|);
    var u, hl := p.headers + p.body + t, |p.headers| % (MAX_U16 + 1);
    assert |u[..hl]| == hl;
    if |p.headers| <= MAX_U16 {
      assert u[..hl] == p.headers && u[hl..hl + |p.body|] == p.body && u[hl + |p.body|..] == t;
    }
  }

  /** `Response.ReadFrom` undoes `Response.WriteTo` exactly when the encoded headers fit their
      two-byte length; `Headers.Encode` alone does not guarantee that. */
  lemma ResponseRoundTrip(p: Response, t: seq<byte>)
    requires p.id < TWO_64 && |p.body| < TWO_63
    ensures DecodeResponse(EncodeResponse(p) + t) == Ok(p, t) <==> |p.headers| <= MAX_U16
  {
    hide ResponseTail, DecodeResponseTail, Le, Get8;
    ConcatAssociative(Prefix(p.id, p.flags), ResponseTail(p), t);
    PrefixReads(p.id, p.flags, ResponseTail(p) + t);
    ResponseTailRoundTrip(p, t);
  }

  function MessageTail(g: Message): seq<byte> {
    Le(|g.body|, 8) + g.body
  }

  lemma MessageTailReads(g: Message, t: seq<byte>)
    requires |g.body| < TWO_63
    ensures var b := MessageTail(g) + t;
      |b| >= 8 && Get8(b) == |g.body| && b[8..] == g.body + t
  {
    hide Le, FromLe;
    assert MessageTail(g) + t == Le(|g.body|, 8) + (g.body + t);
    Get8Le(|g.body|, g.body + t);
    Cut(Le(|g.body|, 8), g.body + t);
  }

  /** A stream message goes out with its id, with the top flag set and the other flags as they were. */
  lemma MessageHead(g: Message, t: seq<byte>)
    requires g.id < TWO_64
    ensures var b := EncodeMessage(g) + t;
      && Get8(b) == g.id && b[8] / 128 == 1 && b[8] % 128 == g.flags % 128
      && b[9..] == MessageTail(g) + t
  {
    hide MessageTail, Prefix, Get8;
    ConcatAssociative(Prefix(g.id, WithStreamMsg(g.flags)), MessageTail(g), t);
    PrefixReads(g.id, WithStreamMsg(g.flags), MessageTail(g) + t);
  }

  lemma MessageTailRoundTrip(g: Message, t: seq<byte>)
    requires |g.body| < TWO_63
    ensures DecodeMessageTail(g.id, g.flags, MessageTail(g) + t) == Ok(g, t)
  {
    hide MessageTail, Get8;
    MessageTailReads(g, t);
    Cut(g.body, t);
  }

  lemma ResponseTailCut(p: Response, c: seq<byte>, d: seq<byte>)
    requires |p.headers| <= MAX_U16 && |p.body| < TWO_63
    requires c + d == ResponseTail(p) && d != []
    ensures DecodeResponseTail(p.id, p.flags, c) == Failed(Eof, [])
  {
    hide ResponseTail, FromLe;
    if |c| >= 11 {
      assert ResponseTail(p) + [] == c + d;
      ResponseTailReads(p, []);
      SmallLength(|p.body|);
      CutReads(c, d, 1, 2);
      CutReads(c, d, 3, 8);
    }
  }

  lemma MessageTailCut(g: Message, c: seq<byte>, d: seq<byte>)
    requires |g.body| < TWO_63 && c + d == MessageTail(g) && d != []
    ensures DecodeMessageTail(g.id, g.flags, c) == Failed(Eof, [])
  {
    hide MessageTail, FromLe;
    if |c| >= 8 {
      assert MessageTail(g) + [] == c + d;
      MessageTailReads(g, []);
      CutReads(c, d, 0, 8);
      assert c[0..] == c && (c + d)[0..] == c + d;
    }
  }

  // ----- The layouts of SPEC.v2.md -----

  /** A request: id, flags, path length, headers length, body length, path, headers, body. */
  lemma RequestLayout(q: Request)
    requires WithinLengths(q.id, |q.path|, |q.headers|, |q.body|)
    ensures var b, n, m := EncodeRequest(q), 21 + |q.path|, 21 + |q.path| + |q.headers|;
      && |b| == m + |q.body|
      && Get8(b) == q.id && b[8] == q.flags
      && Get2(b[9..]) == |q.path| && Get2(b[11..]) == |q.headers| && Get8(b[13..]) == |q.body|
      && b[21..n] == q.path && b[n..m] == q.headers && b[m..] == q.body
  {
    hide RequestTail, Prefix, Get2, Get8;
    var b, t := EncodeRequest(q), RequestTail(q);
    Cut(Prefix(q.id, q.flags), t);
    PrefixReads(q.id, q.flags, t);
    RequestTailReads(q, []);
    assert t + [] == t && b[9..] == t;
    assert b[11..] == t[2..] && b[13..] == t[4..] && b[21..] == t[12..];
    Parts(q.path, q.headers, q.body, []);
    var u := q.path + q.headers + q.body + [];
    var n, m := 21 + |q.path|, 21 + |q.path| + |q.headers|;
    assert b[21..] == u && b[21..n] == u[..|q.path|];
    assert b[n..m] == u[|q.path|..|q.path| + |q.headers|];
    assert b[m..] == u[|q.path| + |q.headers|..];
  }

  predicate WithinLengths(id: nat, pl: nat, hl: nat, bl: nat) {
    id < TWO_64 && pl <= MAX_U16 && hl <= MAX_U16 && bl < TWO_64
  }

  /** A response: id, flags, status, headers length, body length, headers, body. */
  lemma ResponseLayout(p: Response)
    requires WithinLengths(p.id, 0, |p.headers|, |p.body|)
    ensures var b, n := EncodeResponse(p), 20 + |p.headers|;
      && |b| == n + |p.body|
      && Get8(b) == p.id && b[8] == p.flags && b[9] == p.status
      && Get2(b[10..]) == |p.headers| && Get8(b[12..]) == |p.body|
      && b[20..n] == p.headers && b[n..] == p.body
  {
    hide ResponseTail, Prefix, Get2, Get8;
    var b, t := EncodeResponse(p), ResponseTail(p);
    Cut(Prefix(p.id, p.flags), t);
    PrefixReads(p.id, p.flags, t);
    ResponseTailReads(p, []);
    assert t + [] == t && b[9..] == t;
    assert b[10..] == t[1..] && b[12..] == t[3..] && b[20..] == t[11..];
    assert b[20..] == p.headers + p.body;
    Cut(p.headers, p.body);
    assert b[20 + |p.headers|..] == b[20..][|p.headers|..];
    assert b[20..20 + |p.headers|] == b[20..][..|p.headers|];
  }

  /** A stream message: id, flags, length, body. */
  lemma MessageLayout(g: Message)
    requires WithinLengths(g.id, 0, 0, |g.body|) && |g.body| < TWO_63
    ensures var b := EncodeMessage(g);
      && |b| == 17 + |g.body|
      && Get8(b) == g.id && b[8] / 128 == 1 && b[8] % 128 == g.flags % 128
      && Get8(b[9..]) == |g.body| && b[17..] == g.body
  {
    hide MessageTail, Prefix, Get8;
    var b := EncodeMessage(g);
    MessageHead(g, []);
    MessageTailReads(g, []);
    assert b + [] == b && g.body + [] == g.body && MessageTail(g) + [] == MessageTail(g);
    assert b[17..] == b[9..][8..];
  }
}
