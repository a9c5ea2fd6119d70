/** Middleware of the Go server (go/mux.go, and the use of it in go/server.go `handleReq`). `H` is the
    type of handlers; a middleware wraps one. */
module Mux {
  import opened Bytes
  import opened Wire
  import Server

  /** The middlewares around `next`, the first registered outermost. */
  ghost function Wrapped<H>(ms: seq<H -> H>, next: H): H {
    if ms == [] then next else ms[0](Wrapped(ms[1..], next))
  }

  lemma {:induction false} WrappedAppend<H>(a: seq<H -> H>, b: seq<H -> H>, next: H)
    ensures Wrapped(a + b, next) == Wrapped(a, Wrapped(b, next))
  {
    if a == [] {
      assert a + b == b;
    } else {
      assert (a + b)[1..] == a[1..] + b;
      WrappedAppend(a[1..], b, next);
    }
  }

  /** Registering in batches of any size comes to the same as one at a time. */
  ghost function Flatten<T>(batches: seq<seq<T>>): seq<T> {
    if batches == [] then [] else batches[0] + Flatten(batches[1..])
  }

  ghost function WrappedBatches<H>(batches: seq<seq<H -> H>>, next: H): H {
    if batches == [] then next else Wrapped(batches[0], WrappedBatches(batches[1..], next))
  }

  lemma {:induction false} BatchingIrrelevant<H>(batches: seq<seq<H -> H>>, next: H)
    ensures WrappedBatches(batches, next) == Wrapped(Flatten(batches), next)
  {
    if batches != [] {
      BatchingIrrelevant(batches[1..], next);
      WrappedAppend(batches[0], Flatten(batches[1..]), next);
    }
  }

  /** The combined function wraps its handler in `m` first and then the others in order. */
  method CombineMiddleware<H(!new)>(m: H -> H, ms: seq<H -> H>) returns (r: H -> H)
    ensures forall next: H :: r(next) == Wrapped([m] + ms, next)
  {
    r := m;
    One(m);
    assert [m] + ms[..0] == [m];
    for i := 0 to |ms|
      invariant forall next: H :: r(next) == Wrapped([m] + ms[..i], next)
    {
      var om, mw := r, ms[i];
      r := next => om(mw(next));
      assert [m] + ms[..i + 1] == ([m] + ms[..i]) + [mw];
      forall next: H ensures r(next) == Wrapped([m] + ms[..i + 1], next) {
        WrappedAppend([m] + ms[..i], [mw], next);
        One(mw);
      }
    }
    assert ms[..|ms|] == ms;
  }

  lemma One<H(!new)>(m: H -> H)
    ensures forall next: H :: Wrapped([m], next) == m(next)
  {
    forall next: H ensures Wrapped([m], next) == m(next) {
      assert [m][1..] == [];
    }
  }

  /** A stored middleware, nil when nothing was registered, stands for the list `ms`. */
  ghost predicate Stands<H(!new)>(stored: Option<H -> H>, ms: seq<H -> H>) {
    match stored
    case None => ms == []
    case Some(m) => ms != [] && forall next: H :: m(next) == Wrapped(ms, next)
  }

  /** `if mw != nil { handler = mw(handler) }` */
  function Around<H>(stored: Option<H -> H>, next: H): H {
    match stored case None => next case Some(m) => m(next)
  }

  lemma StandsAround<H(!new)>(stored: Option<H -> H>, ms: seq<H -> H>, next: H)
    requires Stands(stored, ms)
    ensures Around(stored, next) == Wrapped(ms, next)
  {
  }

  /** The body the three registering methods share. */
  method Add<H(!new)>(stored: Option<H -> H>, ghost was: seq<H -> H>, ms: seq<H -> H>)
    returns (r: Option<H -> H>)
    requires Stands(stored, was)
    ensures Stands(r, was + ms)
  {
    if |ms| == 0 {
      assert was + ms == was;
      return stored;
    }
    var m, rest := ms[0], ms;
    match stored {
      case None => rest := rest[1..];
      case Some(before) => m := before;
    }
    var c := CombineMiddleware(m, rest);
    r := Some(c);
    if stored.None? {
      assert [m] + rest == was + ms;
    } else {
      forall next: H ensures c(next) == Wrapped(was + ms, next) {
        assert ([m] + rest)[1..] == ms;
        WrappedAppend(was, ms, next);
      }
    }
  }

  class MapMux<H(!new), S> {
    var globalMiddleware: Option<H -> H>
    var middleware: Option<H -> H>
    var streamMiddleware: Option<H -> H>
    var handlers: map<Str, H>
    var middlewares: map<Str, H -> H>
    var streamMiddlewares: map<Str, H -> H>
    var streamHandlers: map<Str, S>

    // What was registered, in order.
    ghost var globals: seq<H -> H>
    ghost var regulars: seq<H -> H>
    ghost var streams: seq<H -> H>
    ghost var perPath: map<Str, seq<H -> H>>
    ghost var perStreamPath: map<Str, seq<H -> H>>

    ghost predicate Valid()
      reads this
    {
      && Stands(globalMiddleware, globals)
      && Stands(middleware, regulars)
      && Stands(streamMiddleware, streams)
      && middlewares.Keys == perPath.Keys && streamMiddlewares.Keys == perStreamPath.Keys
      && (forall p | p in perPath :: Stands(Some(middlewares[p]), perPath[p]))
      && (forall p | p in perStreamPath :: Stands(Some(streamMiddlewares[p]), perStreamPath[p]))
    }

    constructor ()
      ensures Valid() && globals == regulars == streams == []
      ensures handlers == map[] && streamHandlers == map[] && perPath == perStreamPath == map[]
    {
      globalMiddleware, middleware, streamMiddleware := None, None, None;
      handlers, streamHandlers, middlewares, streamMiddlewares := map[], map[], map[], map[];
      globals, regulars, streams, perPath, perStreamPath := [], [], [], map[], map[];
    }

    method GlobalMiddleware(ms: seq<H -> H>)
      requires Valid()
      modifies this`globalMiddleware, this`globals
      ensures Valid() && globals == old(globals) + ms
    {
      globalMiddleware := Add(globalMiddleware, globals, ms);
      globals := globals + ms;
    }

    method Middleware(ms: seq<H -> H>)
      requires Valid()
      modifies this`middleware, this`regulars
      ensures Valid() && regulars == old(regulars) + ms
    {
      middleware := Add(middleware, regulars, ms);
      regulars := regulars + ms;
    }

    method StreamMiddleware(ms: seq<H -> H>)
      requires Valid()
      modifies this`streamMiddleware, this`streams
      ensures Valid() && streams == old(streams) + ms
    {
      streamMiddleware := Add(streamMiddleware, streams, ms);
      streams := streams + ms;
    }

    /** Handling a path again replaces the handler, but its middleware only when some is given. */
    method Handle(path: Str, h: H, ms: seq<H -> H>)
      requires Valid()
      modifies this`handlers, this`middlewares, this`perPath
      ensures Valid() && handlers == old(handlers)[path := h]
      ensures perPath == if ms == [] then old(perPath) else old(perPath)[path := ms]
    {
      if |ms| != 0 {
        var m := CombineMiddleware(ms[0], ms[1..]);
        assert [ms[0]] + ms[1..] == ms;
        middlewares := middlewares[path := m];
        perPath := perPath[path := ms];
      }
      handlers := handlers[path := h];
    }

    method HandleStream(path: Str, h: S, ms: seq<H -> H>)
      requires Valid()
      modifies this`streamHandlers, this`streamMiddlewares, this`perStreamPath
      ensures Valid() && streamHandlers == old(streamHandlers)[path := h]
      ensures perStreamPath == if ms == [] then old(perStreamPath) else old(perStreamPath)[path := ms]
    {
      if |ms| != 0 {
        var m := CombineMiddleware(ms[0], ms[1..]);
        assert [ms[0]] + ms[1..] == ms;
        streamMiddlewares := streamMiddlewares[path := m];
        perStreamPath := perStreamPath[path := ms];
      }
      streamHandlers := streamHandlers[path := h];
    }

    ghost function PathMiddleware(path: Str): seq<H -> H>
      reads this
    {
      if path in perPath then perPath[path] else []
    }

    ghost function StreamPathMiddleware(path: Str): seq<H -> H>
      reads this
    {
      if path in perStreamPath then perStreamPath[path] else []
    }

    /** The handler of a request as `handleReq` builds it: from the inside, the path's middleware, the
        mux's, the global one. In registration order that is all global ones, then the mux's, then
        the path's, then the handler. */
    method Handler(path: Str) returns (h: Option<H>)
      requires Valid()
      ensures h == if path in handlers
                   then Some(Wrapped(globals + (regulars + PathMiddleware(path)), handlers[path]))
                   else None
    {
      if path !in handlers {
        return None;
      }
      var handler := handlers[path];
      StackIs(globals, regulars, PathMiddleware(path), handler);
      if path in middlewares {
        handler := middlewares[path](handler);
      }
      StandsAround(middleware, regulars, handler);
      handler := Around(middleware, handler);
      StandsAround(globalMiddleware, globals, handler);
      return Some(Around(globalMiddleware, handler));
    }

    /** The same for a stream path, around a handler that does nothing. */
    method StreamHandler(path: Str, noop: H) returns (h: Option<H>)
      requires Valid()
      ensures h == if path in streamHandlers
                   then Some(Wrapped(globals + (streams + StreamPathMiddleware(path)), noop))
                   else None
    {
      if path !in streamHandlers {
        return None;
      }
      var handler := noop;
      StackIs(globals, streams, StreamPathMiddleware(path), handler);
      if path in streamMiddlewares {
        handler := streamMiddlewares[path](handler);
      }
      StandsAround(streamMiddleware, streams, handler);
      handler := Around(streamMiddleware, handler);
      StandsAround(globalMiddleware, globals, handler);
      return Some(Around(globalMiddleware, handler));
    }
  }

  /** Three layers, outermost first. */
  lemma StackIs<H>(a: seq<H -> H>, b: seq<H -> H>, c: seq<H -> H>, next: H)
    ensures Wrapped(a + (b + c), next) == Wrapped(a, Wrapped(b, Wrapped(c, next)))
  {
    WrappedAppend(a, b + c, next);
    WrappedAppend(b, c, next);
  }

  // ----- The mux and the connection loop -----

  /** The paths of a mux, as the connection loop asks for them. */
  function ConfigOf<H(!new), S>(mux: MapMux<H, S>, maxBodyLen: nat, maxStreamBodyLen: nat): Server.Config
    reads mux
  {
    Server.Config(maxBodyLen, maxStreamBodyLen, mux.handlers.Keys, mux.streamHandlers.Keys)
  }

  /** The loop starts a handler for a request within the limit exactly when the mux has one for its path,
      of the kind the request asks for: when `Handler`, or `StreamHandler`, returns one. */
  lemma StartsWhatIsHandled<H(!new), S>(mux: MapMux<H, S>, maxBodyLen: nat, maxStreamBodyLen: nat,
                                        q: Request, st: Server.Streams, t: seq<byte>)
    requires Server.WellFormed(Server.Req(q)) && |q.body| <= maxBodyLen
    ensures var stream := q.flags / 64 % 2 == 1;
      var it := Server.LoopStep(ConfigOf(mux, maxBodyLen, maxStreamBodyLen), EncodeRequest(q) + t, st);
      it.events == [Server.Start(q, stream)]
      <==> if stream then q.path in mux.streamHandlers else q.path in mux.handlers
  {
    hide Server.LoopStep;
    Server.RequestRouted(ConfigOf(mux, maxBodyLen, maxStreamBodyLen), q, st, t);
  }
}
