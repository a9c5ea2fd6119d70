/** Two readers that sit between a connection and its user: the proxy's connection, which first
    replays bytes that were read ahead (proxy/listeners.go `Conn`), and the counter that bounds a
    response body (go/req_resp.go `ReadCloseCounter`). */
module Readers {
  import opened Bytes

  function Min(a: nat, b: nat): nat {
    if a <= b then a else b
  }

  /** A `Read` with room for `want` bytes, when the reader below gives at most `below` bytes and fails
      or not. */
  datatype Call = Call(want: nat, below: nat, fails: bool)

  datatype ReadError = NoError | Eof | Below

  // ----- The replaying connection -----

  datatype Replay = Replay(initial: seq<byte>, readInitial: bool, under: seq<byte>)

  datatype Got<S> = Got(bytes: seq<byte>, s: S, err: ReadError)

  function ReplayRead(s: Replay, c: Call): Got<Replay> {
    var n := if s.readInitial then 0 else Min(c.want, |s.initial|);
    var ni := if c.want == n then 0 else Min(c.below, Min(c.want - n, |s.under|));
    Got(s.initial[..n] + s.under[..ni],
        Replay(s.initial[n..], s.readInitial || (n != 0 && n == |s.initial|), s.under[ni..]),
        if c.want != n && c.fails then Below else NoError)
  }

  class Conn {
    var initial: seq<byte>
    var readInitial: bool
    var under: seq<byte>     // what the wrapped connection will still give

    constructor (initial: seq<byte>, under: seq<byte>)
      ensures Replay(this.initial, readInitial, this.under) == Replay(initial, false, under)
    {
      this.initial, readInitial, this.under := initial, false, under;
    }

    /** The wrapped `Read` into `p[off..]`. */
    method ReadUnder(p: array<byte>, off: nat, below: nat, fails: bool)
      returns (ni: nat, err: ReadError)
      requires off <= p.Length
      modifies p, this`under
      ensures err == if fails then Below else NoError
      ensures ni == Min(below, Min(p.Length - off, |old(under)|)) && under == old(under)[ni..]
      ensures p[..] == old(p[..off]) + old(under)[..ni] + old(p[off + ni..])
    {
      ni := Min(below, Min(p.Length - off, |under|));
      forall i | 0 <= i < ni {
        p[off + i] := under[i];
      }
      under := under[ni..];
      err := if fails then Below else NoError;
    }

    /** The part of `Read` under the mutex. */
    method CopyInitial(p: array<byte>) returns (n: nat)
      requires !readInitial
      modifies p, this`initial, this`readInitial
      ensures n == Min(p.Length, |old(initial)|) && initial == old(initial)[n..]
      ensures readInitial == (n != 0 && n == |old(initial)|)
      ensures p[..] == old(initial)[..n] + old(p[n..])
    {
      n := Min(p.Length, |initial|);
      forall i | 0 <= i < n {
        p[i] := initial[i];
      }
      if n != 0 {
        initial := initial[n..];
        if |initial| == 0 {
          initial, readInitial := [], true;
        }
      }
    }

    method Read(p: array<byte>, below: nat, fails: bool) returns (n: nat, err: ReadError)
      modifies p, this
      ensures var s := old(Replay(initial, readInitial, under));
        var r := ReplayRead(s, Call(p.Length, below, fails));
        && Got(r.bytes, Replay(initial, readInitial, under), err) == r
        && n == |r.bytes| <= p.Length && p[..] == r.bytes + old(p[n..])
    {
      n, err := 0, NoError;
      if p.Length == 0 {
        return;
      }
      if !readInitial {
        n := CopyInitial(p);
        if p.Length == n {
          return;
        }
      }
      var ni: nat;
      ni, err := ReadUnder(p, n, below, fails);
      n := n + ni;
    }
  }

  function ReplayRun(s: Replay, calls: seq<Call>): Got<Replay>
    decreases |calls|
  {
    if calls == [] then Got([], s, NoError)
    else
      var r := ReplayRead(s, calls[0]);
      var more := ReplayRun(r.s, calls[1..]);
      Got(r.bytes + more.bytes, more.s, more.err)
  }

  /** One read gives as much as the room, the replayed bytes and the reader below allow together, and
      reports an error exactly when it comes to read below and that fails. */
  lemma ReplayCount(s: Replay, c: Call)
    requires s.readInitial ==> s.initial == []
    ensures var r := ReplayRead(s, c);
      && |r.bytes| == Min(c.want, |s.initial| + Min(c.below, |s.under|))
      && r.err == (if c.fails && c.want > |s.initial| then Below else NoError)
      && |r.s.initial| == (if c.want < |s.initial| then |s.initial| - c.want else 0)
      && (r.s.readInitial <==> s.readInitial || (s.initial != [] && c.want >= |s.initial|))
      && (r.s.readInitial ==> r.s.initial == [])
  {
  }

  lemma ReplayStep(s: Replay, c: Call)
    requires s.readInitial ==> s.initial == []
    ensures var r := ReplayRead(s, c);
      && r.bytes + (r.s.initial + r.s.under) == s.initial + s.under
      && (r.s.readInitial ==> r.s.initial == [])
      && (r.s.initial != [] ==> r.s.under == s.under && |r.bytes| == c.want)
  {
    var r := ReplayRead(s, c);
    var n := if s.readInitial then 0 else Min(c.want, |s.initial|);
    if n < |s.initial| {
      assert r.bytes == s.initial[..n];
      ConcatAssociative(s.initial[..n], s.initial[n..], s.under);
      assert s.initial[..n] + s.initial[n..] == s.initial;
    } else {
      var ni := |s.under| - |r.s.under|;
      assert r.bytes == s.initial + s.under[..ni] && r.s.initial == [];
      ConcatAssociative(s.initial, s.under[..ni], s.under[ni..]);
      assert s.under[..ni] + s.under[ni..] == s.under;
      assert r.s.initial + r.s.under == s.under[ni..];
    }
  }

  /** Any calls with any room, and any short reads below: what was read followed by what is left is
      the replayed bytes followed by the connection's; and the connection itself is not read before
      the replayed bytes are used up. */
  lemma {:induction false} ReplayConserves(s: Replay, calls: seq<Call>)
    requires s.readInitial ==> s.initial == []
    ensures var r := ReplayRun(s, calls);
      && r.bytes + (r.s.initial + r.s.under) == s.initial + s.under
      && (r.s.initial != [] ==> r.s.under == s.under)
    decreases |calls|
  {
    hide ReplayRead;
    if calls != [] {
      ReplayStep(s, calls[0]);
      var r := ReplayRead(s, calls[0]);
      ReplayConserves(r.s, calls[1..]);
      var more := ReplayRun(r.s, calls[1..]);
      ConcatAssociative(r.bytes, more.bytes, more.s.initial + more.s.under);
      if more.s.initial != [] && r.s.initial == [] {
        ReplayEmptied(r.s, calls[1..]);
      }
    }
  }

  lemma {:induction false} ReplayEmptied(s: Replay, calls: seq<Call>)
    requires s.initial == []
    ensures ReplayRun(s, calls).s.initial == []
    decreases |calls|
  {
    if calls != [] {
      ReplayEmptied(ReplayRead(s, calls[0]).s, calls[1..]);
    }
  }

  /** The errors of the calls, one each. */
  function ReplayErrors(s: Replay, calls: seq<Call>): (errs: seq<ReadError>)
    ensures |errs| == |calls|
    decreases |calls|
  {
    if calls == [] then []
    else [ReplayRead(s, calls[0]).err] + ReplayErrors(ReplayRead(s, calls[0]).s, calls[1..])
  }

  /** What the first calls have room for together. */
  function Wanted(calls: seq<Call>): nat {
    if calls == [] then 0 else calls[0].want + Wanted(calls[1..])
  }

  lemma {:induction false} WantedAtLeast(calls: seq<Call>, i: nat)
    requires i < |calls|
    ensures Wanted(calls[..i + 1]) >= calls[i].want
  {
    assert calls[..i + 1][1..] == calls[1..][..i];
    if i > 0 { WantedAtLeast(calls[1..], i - 1); }
  }

  /** Over any calls: one reports an error exactly when the connection below fails in it and the calls
      up to it want more than the replayed bytes, itself at least one byte. */
  lemma {:induction false} ReplayErrorsIff(s: Replay, calls: seq<Call>, i: nat)
    requires (s.readInitial ==> s.initial == []) && i < |calls|
    ensures var e := ReplayErrors(s, calls)[i];
      e == if calls[i].fails && calls[i].want > 0 && Wanted(calls[..i + 1]) > |s.initial|
           then Below else NoError
    decreases |calls|
  {
    hide ReplayRead;
    var c, rest := calls[0], calls[1..];
    ReplayCount(s, c);
    var t := ReplayRead(s, c).s;
    assert calls[..i + 1][1..] == rest[..i];
    if i == 0 {
      assert Wanted([]) == 0 && rest[..0] == [];
    } else {
      ReplayErrorsIff(t, rest, i - 1);
      WantedAtLeast(rest, i - 1);
      assert rest[..i - 1 + 1] == rest[..i];
    }
  }

  // ----- The counting reader -----

  datatype Counter = Counter(len: nat, under: seq<byte>)

  function CounterRead(s: Counter, c: Call): Got<Counter> {
    var n := if s.len == 0 then 0 else Min(c.below, Min(Min(c.want, s.len), |s.under|));
    Got(s.under[..n], Counter(s.len - n, s.under[n..]),
        if s.len == 0 then Eof else if c.fails then Below else NoError)
  }

  class ReadCloseCounter {
    var len: nat
    var under: seq<byte>

    constructor (under: seq<byte>, len: nat)
      ensures Counter(this.len, this.under) == Counter(len, under)
    {
      this.len, this.under := len, under;
    }

    method Read(p: array<byte>, below: nat, fails: bool) returns (n: nat, err: ReadError)
      modifies p, this
      ensures var r := CounterRead(old(Counter(len, under)), Call(p.Length, below, fails));
        && Got(r.bytes, Counter(len, under), err) == r
        && n == |r.bytes| <= p.Length && p[..] == r.bytes + old(p[n..])
    {
      n, err := 0, if fails then Below else NoError;
      if len == 0 {
        return 0, Eof;
      }
      var room := if p.Length > len then len else p.Length;
      n := Min(below, Min(room, |under|));
      forall i | 0 <= i < n {
        p[i] := under[i];
      }
      under := under[n..];
      len := len - n;
    }
  }

  /** One read gives as much as the room, the remaining length and the reader below allow. */
  lemma CounterStep(s: Counter, c: Call)
    ensures var r := CounterRead(s, c);
      && |r.bytes| == Min(Min(c.want, s.len), Min(c.below, |s.under|))
      && r.bytes + r.s.under == s.under && |r.bytes| + r.s.len == s.len
      && r.err == (if s.len == 0 then Eof else if c.fails then Below else NoError)
  {
    var r := CounterRead(s, c);
    assert s.under == s.under[..|r.bytes|] + s.under[|r.bytes|..];
  }

  function CounterRun(s: Counter, calls: seq<Call>): Got<Counter>
    decreases |calls|
  {
    if calls == [] then Got([], s, NoError)
    else
      var r := CounterRead(s, calls[0]);
      var more := CounterRun(r.s, calls[1..]);
      Got(r.bytes + more.bytes, more.s, more.err)
  }

  /** Whatever the calls: the bytes read and those left below are the original ones, and the bytes
      read and the remaining length add up to the declared length. So the end is reported exactly
      when the declared length has been read, and nothing after it is touched. */
  lemma {:induction false} CounterBounds(s: Counter, calls: seq<Call>)
    ensures var r := CounterRun(s, calls);
      && r.bytes + r.s.under == s.under
      && |r.bytes| + r.s.len == s.len
      && (r.s.len == 0 <==> |r.bytes| == s.len)
    decreases |calls|
  {
    if calls != [] {
      var r := CounterRead(s, calls[0]);
      CounterStep(s, calls[0]);
      CounterBounds(r.s, calls[1..]);
      var more := CounterRun(r.s, calls[1..]);
      ConcatAssociative(r.bytes, more.bytes, more.s.under);
    }
  }
}
