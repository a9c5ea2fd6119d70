/** Any history of header operations: the byte-level states of HeaderStates.dfy stay in step with a
    plain association list or map, and show the caller the same answers. */
module HeaderHistory {
  import opened Bytes
  import opened HeaderList
  import opened HeaderStates

  datatype Model = List(es: seq<Entry>) | Dict(m: map<Str, Str>)

  /** Encoding walks the map in some order, which the operation carries. */
  datatype Op =
    | Get(key: Str)
    | Set(key: Str, val: Str)
    | Remove(key: Str)
    | Parse
    | Encode(order: seq<Str>)
    | EncodeP(order: seq<Str>)
    | SetAll(all: map<Str, Str>, order: seq<Str>)

  datatype Answer =
    | Value(v: Option<Str>)
    | Done(ok: bool)
    | Map(m: map<Str, Str>)
    | Rest(left: Option<map<Str, Str>>)

  /** The order an operation carries is an order of the map it walks; `m` is the parsed map. */
  ghost predicate Orders(m: Option<map<Str, Str>>, op: Op) {
    match op
    case Encode(order) => m.Some? ==> IsOrder(order, m.value)
    case EncodeP(order) => m.Some? ==> IsOrder(order, m.value)
    case SetAll(all, order) => m.None? ==> IsOrder(order, all)
    case _ => true
  }

  ghost predicate Legal(a: Model, op: Op) {
    Orders(if a.Dict? then Some(a.m) else None, op)
  }

  ghost predicate LegalOn(s: State, op: Op) {
    Orders(if s.Parsed? then Some(s.m) else None, op)
  }

  // ----- The simple form: association lists -----

  ghost function ModelStep(a: Model, op: Op): (Model, Answer)
    requires Legal(a, op)
  {
    match op
    case Get(k) => (a, Value(if a.List? then Lookup(a.es, k) else MapGet(a.m, k)))
    case Set(k, v) =>
      if a.Dict? then (Dict(a.m[k := v]), Done(true))
      else if 4 * (|a.es| + 1) + SumKv(a.es) + |k| + |v| > MAX_HEADERS_LEN then (a, Done(false))
      else (List(a.es + [Entry(k, v)]), Done(true))
    case Remove(k) =>
      if a.Dict? then (Dict(a.m - {k}), Value(MapGet(a.m, k)))
      else (List(RemoveFirst(a.es, k)), Value(Lookup(a.es, k)))
    case Parse =>
      var m := if a.Dict? then a.m else ToMap(a.es);
      (Dict(m), Map(m))
    case Encode(order) =>
      if a.List? then (a, Done(true))
      else if KvTotal(a.m) > MAX_HEADERS_LEN then (a, Done(false))
      else (List(Select(a.m, order)), Done(true))
    case EncodeP(order) =>
      if a.List? then (a, Rest(None))
      else
        var s := Greedy(Select(a.m, order));
        (List(s.taken), Rest(Some(ToMap(s.left))))
    case SetAll(all, order) =>
      if a.Dict? then (Dict(all), Done(true))
      else if KvTotal(all) > MAX_HEADERS_LEN then (a, Done(false))
      else (List(Select(all, order)), Done(true))
  }

  ghost predicate LegalRun(a: Model, ops: seq<Op>)
    decreases |ops|
  {
    ops == [] || (Legal(a, ops[0]) && LegalRun(ModelStep(a, ops[0]).0, ops[1..]))
  }

  ghost function ModelRun(a: Model, ops: seq<Op>): (Model, seq<Answer>)
    requires LegalRun(a, ops)
    decreases |ops|
  {
    if ops == [] then (a, [])
    else
      var (a', x) := ModelStep(a, ops[0]);
      var (z, xs) := ModelRun(a', ops[1..]);
      (z, [x] + xs)
  }

  // ----- The same operations on bytes -----

  function Step(s: State, op: Op): Outcome<(State, Answer)>
    requires LegalOn(s, op)
  {
    match op
    case Get(k) => Return((s, Value(HeaderStates.Get(s, k))))
    case Set(k, v) =>
      var (s', ok) := HeaderStates.Set(s, k, v);
      Return((s', Done(ok)))
    case Remove(k) =>
      var r := HeaderStates.Remove(s, k);
      if r.Panic? then Panic else Return((r.value.0, Value(r.value.1)))
    case Parse =>
      if s.Parsed? then Return((s, Map(s.m)))
      else
        var r := ParseBytes(s.bytes);
        if r.Panic? then Panic else Return((Parsed(r.value), Map(r.value)))
    case Encode(order) =>
      if s.Raw? then Return((s, Done(true)))
      else
        var b := HeaderStates.Encode(s.m, order);
        Return(if b.None? then (s, Done(false)) else (Raw(b.value), Done(true)))
    case EncodeP(order) =>
      if s.Raw? then Return((s, Rest(None)))
      else
        var g := Greedy(Select(s.m, order));
        Return((Raw(EncodeAll(g.taken)), Rest(Some(ToMap(g.left)))))
    case SetAll(all, order) =>
      if s.Parsed? then Return((Parsed(all), Done(true)))
      else
        var b := HeaderStates.Encode(all, order);
        Return(if b.None? then (s, Done(false)) else (Raw(b.value), Done(true)))
  }

  /** Raw bytes stand for the list they encode, a parsed map for itself. */
  ghost predicate Stands(s: State, a: Model) {
    match (s, a)
    case (Raw(b), List(es)) => b == EncodeAll(es) && AllFit(es) && AllNarrow(es)
    case (Parsed(m), Dict(m')) => m == m'
    case _ => false
  }

  lemma {:induction false} RemoveFirstKeepsNarrow(es: seq<Entry>, key: Str)
    requires AllFit(es) && AllNarrow(es)
    ensures AllFit(RemoveFirst(es, key)) && AllNarrow(RemoveFirst(es, key))
  {
    var i := RemoveFirstSplits(es, key);
  }

  lemma SetInStep(b: seq<byte>, es: seq<Entry>, k: Str, v: Str)
    requires Stands(Raw(b), List(es))
    ensures var (s, ok) := HeaderStates.Set(Raw(b), k, v);
      var (a, x) := ModelStep(List(es), Set(k, v));
      Stands(s, a) && x == Done(ok)
  {
    EncodedLength(es);
    EncodeSnoc(es, Entry(k, v));
  }

  lemma RemoveInStep(b: seq<byte>, es: seq<Entry>, k: Str)
    requires Stands(Raw(b), List(es))
    ensures HeaderStates.Remove(Raw(b), k)
         == Return((Raw(EncodeAll(RemoveFirst(es, k))), Lookup(es, k)))
  {
    WellFormedIsEncoding(b);
    var i := RemoveFirstSplits(es, k);
    assert EncodeAll(RemoveFirst(es, k)) + [] == EncodeAll(RemoveFirst(es, k));
  }

  lemma EncodeInStep(m: map<Str, Str>, order: seq<Str>)
    requires IsOrder(order, m)
    ensures var b := HeaderStates.Encode(m, order);
      && (b.Some? <==> KvTotal(m) <= MAX_HEADERS_LEN)
      && (b.Some? ==> Stands(Raw(b.value), List(Select(m, order))))
    ensures Stands(Raw(EncodeAll(Greedy(Select(m, order)).taken)), List(Greedy(Select(m, order)).taken))
  {
    OrderTotals(m, order);
    if KvTotal(m) <= MAX_HEADERS_LEN {
      NarrowFits(Select(m, order));
    }
    GreedyMaximal(Select(m, order));
    NarrowFits(Greedy(Select(m, order)).taken);
  }

  /** One operation: same answer, no panic, and the bytes still stand for the list. */
  lemma StepAgrees(s: State, a: Model, op: Op)
    requires Stands(s, a) && Legal(a, op)
    ensures var r := Step(s, op);
      && r.Return? && r.value.1 == ModelStep(a, op).1
      && Stands(r.value.0, ModelStep(a, op).0)
  {
    match (s, a) {
      case (Raw(b), List(es)) =>
        WellFormedIsEncoding(b);
        match op {
          case Set(k, v) => SetInStep(b, es, k, v);
          case Remove(k) => RemoveInStep(b, es, k); RemoveFirstKeepsNarrow(es, k);
          case Parse => ParsePanicsIff(b);
          case SetAll(all, order) => EncodeInStep(all, order);
          case _ =>
        }
      case (Parsed(m), Dict(_)) =>
        match op {
          case Encode(order) => EncodeInStep(m, order);
          case EncodeP(order) => EncodeInStep(m, order);
          case _ =>
        }
    }
  }

  /** The states and answers of a whole run on bytes; a panic ends it. */
  ghost predicate Runs(s: State, ops: seq<Op>, s': State, xs: seq<Answer>)
    decreases |ops|
  {
    if ops == [] then s' == s && xs == []
    else
      && LegalOn(s, ops[0])
      && xs != []
      && var r := Step(s, ops[0]);
         r.Return? && r.value.1 == xs[0] && Runs(r.value.0, ops[1..], s', xs[1..])
  }

  /** For every history of operations, started from any block or map with its model. */
  lemma {:induction false} HistoryAgrees(s: State, a: Model, ops: seq<Op>) returns (s': State)
    requires Stands(s, a) && LegalRun(a, ops)
    ensures Runs(s, ops, s', ModelRun(a, ops).1)
    ensures Stands(s', ModelRun(a, ops).0)
    decreases |ops|
  {
    if ops == [] {
      s' := s;
    } else {
      StepAgrees(s, a, ops[0]);
      var (a', x) := ModelStep(a, ops[0]);
      var r := Step(s, ops[0]);
      s' := HistoryAgrees(r.value.0, a', ops[1..]);
      var (z, xs) := ModelRun(a', ops[1..]);
      assert ([x] + xs)[1..] == xs;
    }
  }

  /** From the wire: a received block is at most MaxHeadersLen bytes, so if it is well formed its
      list stands for it and every later history agrees. */
  lemma ReceivedStands(b: seq<byte>)
    requires WellFormed(b) && |b| <= MAX_HEADERS_LEN
    ensures Stands(Raw(b), List(Scan(b)))
  {
    ScanDecompose(b);
    WellFormedIsEncoding(b);
    EncodedLength(Scan(b));
    NarrowFits(Scan(b));
  }
}
