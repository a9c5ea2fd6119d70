/** What each `Headers` operation means on the two representations, raw bytes and parsed map,
    and the laws those meanings obey. The class in Headers.dfy is proved against these functions. */
module HeaderStates {
  import opened Bytes
  import opened HeaderList

  const MAX_HEADERS_LEN: nat := MAX_U16

  datatype State = Raw(bytes: seq<byte>) | Parsed(m: map<Str, Str>)

  // ----- Reading -----

  function Get(s: State, key: Str): Option<Str> {
    match s
    case Raw(b) => Lookup(Scan(b), key)
    case Parsed(m) => MapGet(m, key)
  }

  /** `Parse` adds the two lengths in 16 bits: it slices out of range when the sum wraps and the
      wrapped length still fits the bytes that are left. */
  predicate ParsePanics(b: seq<byte>)
    decreases |b|
  {
    |b| >= 4 &&
    var kvl := KeyLen(b) + ValLen(b);
    if kvl > MAX_U16 then kvl - (MAX_U16 + 1) <= |b| - 4
    else Complete(b) && ParsePanics(Rest(b))
  }

  function ParseBytes(b: seq<byte>): Outcome<map<Str, Str>> {
    if ParsePanics(b) then Panic else Return(ToMap(Scan(b)))
  }

  // ----- Writing -----

  function Set(s: State, key: Str, val: Str): (State, bool) {
    match s
    case Parsed(m) => (Parsed(m[key := val]), true)
    case Raw(b) =>
      if 4 + |key| + |val| + |b| > MAX_HEADERS_LEN then (s, false)
      else (Raw(b + EncodeEntry(Entry(key, val))), true)
  }

  /** `RemoveChecked` compares the entry length with four bytes too many, so an incomplete last
      entry that is short by at most four bytes is sliced out of range. */
  predicate TailPanics(t: seq<byte>) {
    |t| >= 4 && KeyLen(t) + ValLen(t) <= |t|
  }

  function Remove(s: State, key: Str): Outcome<(State, Option<Str>)> {
    match s
    case Parsed(m) => Return((Parsed(m - {key}), MapGet(m, key)))
    case Raw(b) =>
      var found := Lookup(Scan(b), key);
      if found.Some? then Return((Raw(EncodeAll(RemoveFirst(Scan(b), key)) + Tail(b)), found))
      else if TailPanics(Tail(b)) then Panic
      else Return((s, None))
  }

  // ----- Encoding, for every order a map may be walked in -----

  ghost predicate IsOrder(order: seq<Str>, m: map<Str, Str>) {
    NoDup(order) && forall k :: k in order <==> k in m
  }

  function Select(m: map<Str, Str>, order: seq<Str>): (es: seq<Entry>)
    requires forall k | k in order :: k in m
    ensures |es| == |order|
  {
    seq(|order|, i requires 0 <= i < |order| => Entry(order[i], m[order[i]]))
  }

  function Encode(m: map<Str, Str>, order: seq<Str>): Option<seq<byte>>
    requires forall k | k in order :: k in m
  {
    if SumKv(Select(m, order)) > MAX_HEADERS_LEN then None else Some(EncodeAll(Select(m, order)))
  }

  /** `EncodeP`: take each entry that still fits, in order, and leave the others. */
  function Greedy(es: seq<Entry>): Split {
    if es == [] then Split([], []) else Greedy(es[..|es| - 1]).Add(es[|es| - 1])
  }

  datatype Split = Split(taken: seq<Entry>, left: seq<Entry>) {
    function Add(e: Entry): Split {
      if SumKv(taken) + e.Size() > MAX_HEADERS_LEN then Split(taken, left + [e])
      else Split(taken + [e], left)
    }

    /** Within the budget, and nothing left over would still fit. */
    ghost predicate Maximal() {
      && SumKv(taken) <= MAX_HEADERS_LEN
      && forall i | 0 <= i < |left| :: SumKv(taken) + left[i].Size() > MAX_HEADERS_LEN
    }

    ghost predicate Partitions(m: map<Str, Str>) {
      && ToMap(taken).Keys !! ToMap(left).Keys
      && ToMap(taken) + ToMap(left) == m
    }
  }

  /** Key and value bytes over the whole map, however it is walked. */
  ghost function KvTotal(m: map<Str, Str>): nat
    decreases |m|
  {
    if m == map[] then 0
    else
      var k :| k in m;
      assert |m - {k}| < |m| by { MapShrinks(m, k); }
      |k| + |m[k]| + KvTotal(m - {k})
  }

  /** The length of the raw bytes, or what they would be: four more per entry. */
  ghost function EncodedLen(s: State): nat {
    match s
    case Raw(b) => |b|
    case Parsed(m) => KvTotal(m) + 4 * |m|
  }

  // ----- Laws: parsing -----

  /** The last, incomplete entry's two lengths overflow 16 bits, and the wrapped sum fits. */
  predicate WrapPanics(t: seq<byte>) {
    |t| >= 4 && KeyLen(t) + ValLen(t) > MAX_U16
    && KeyLen(t) + ValLen(t) - (MAX_U16 + 1) <= |t| - 4
  }

  lemma NarrowStep(b: seq<byte>)
    requires Complete(b)
    ensures AllNarrow(Scan(b)) <==> Head(b).Size() <= MAX_U16 && AllNarrow(Scan(Rest(b)))
    ensures Head(b).Size() == KeyLen(b) + ValLen(b)
  {
    LeGet2(b);
    LeGet2(b[2..]);
    var es := Scan(Rest(b));
    assert Scan(b) == [Head(b)] + es;
    if AllNarrow(Scan(b)) {
      assert Scan(b)[0] == Head(b);
      forall i | 0 <= i < |es| ensures es[i].Size() <= MAX_U16 {
        assert Scan(b)[i + 1] == es[i];
      }
    }
  }

  /** On every byte string `Parse` panics exactly when the two lengths of some complete entry overflow
      16 bits, or those of the incomplete entry at its end do and their wrapped sum still fits. */
  lemma {:induction false} ParsePanicsIff(b: seq<byte>)
    ensures ParsePanics(b) <==> !AllNarrow(Scan(b)) || WrapPanics(Tail(b))
    decreases |b|
  {
    hide Get2, AllNarrow;
    if Complete(b) {
      NarrowStep(b);
      ParsePanicsIff(Rest(b));
    } else {
      NoEntries(b);
    }
  }

  lemma NoEntries(b: seq<byte>)
    requires !Complete(b)
    ensures Tail(b) == b && Scan(b) == [] && AllNarrow(Scan(b))
  {
  }

  /** In a block short enough for a frame no complete entry can overflow: the incomplete one decides. */
  lemma ReceivedParsePanicsIff(b: seq<byte>)
    requires |b| <= MAX_HEADERS_LEN
    ensures ParsePanics(b) <==> WrapPanics(Tail(b))
  {
    ScanDecompose(b);
    EncodedLength(Scan(b));
    NarrowFits(Scan(b));
    ParsePanicsIff(b);
  }

  /** Four bytes that any client may send: a key of 65535 bytes and a value of one. */
  lemma ParseCanPanic()
    ensures ParseBytes([255, 255, 1, 0]) == Panic
  {
    var b: seq<byte> := [255, 255, 1, 0];
    assert b[..2] == Le(65535, 2) && b[2..][..2] == Le(1, 2);
    FromLeLe(65535, 2);
    FromLeLe(1, 2);
    Pow256Values();
    assert KeyLen(b) == 65535 && ValLen(b) == 1;
  }

  // ----- Laws: removing -----

  /** A key longer than any that a block can hold. */
  const LONG_KEY: Str := seq(MAX_U16 + 1, _ => 0)

  lemma LongKeyMissing(b: seq<byte>)
    ensures Lookup(Scan(b), LONG_KEY) == None
  {
    ScanDecompose(b);
    var es := Scan(b);
    forall i | 0 <= i < |es| ensures es[i].key != LONG_KEY {
      assert es[i].Fits();
    }
    LookupMissing(es, LONG_KEY);
  }

  /** `RemoveChecked` is safe for every key exactly when the block does not end in an entry that is
      short by at most four bytes. */
  lemma RemoveSafeIff(b: seq<byte>)
    ensures (forall key :: Remove(Raw(b), key).Return?) <==> !TailPanics(Tail(b))
  {
    hide TailPanics;
    LongKeyMissing(b);
    if TailPanics(Tail(b)) {
      assert Remove(Raw(b), LONG_KEY).Panic?;
    }
  }

  /** A key and a value of one byte each, of which only the key is there. */
  const SHORT_ENTRY: seq<byte> := [1, 0, 1, 0, 7]

  lemma ShortEntry()
    ensures KeyLen(SHORT_ENTRY) == 1 && ValLen(SHORT_ENTRY) == 1
    ensures Scan(SHORT_ENTRY) == [] && Tail(SHORT_ENTRY) == SHORT_ENTRY
    ensures SHORT_ENTRY[4..][..1] == [7]
  {
    assert SHORT_ENTRY[..2] == Le(1, 2) && SHORT_ENTRY[2..][..2] == Le(1, 2);
    FromLeLe(1, 2);
    Pow256Values();
  }

  /** It finds nothing by lookup, and panics when asked to remove another key. */
  lemma RemoveCanPanic()
    ensures Get(Raw(SHORT_ENTRY), [8]) == None && Remove(Raw(SHORT_ENTRY), [8]) == Panic
  {
    ShortEntry();
  }

  // ----- Laws: totals do not depend on the order -----

  lemma MapShrinks(m: map<Str, Str>, k: Str)
    requires k in m
    ensures |m - {k}| == |m| - 1
  {
    assert (m - {k}).Keys == m.Keys - {k};
  }

  lemma {:induction false} KvTotalRemove(m: map<Str, Str>, k: Str)
    requires k in m
    ensures KvTotal(m) == |k| + |m[k]| + KvTotal(m - {k})
    decreases |m|
  {
    var c :| c in m && KvTotal(m) == |c| + |m[c]| + KvTotal(m - {c});
    if c != k {
      MapShrinks(m, c);
      MapShrinks(m, k);
      KvTotalRemove(m - {c}, k);
      KvTotalRemove(m - {k}, c);
      assert m - {c} - {k} == m - {k} - {c};
    }
  }

  lemma SelectSnoc(m: map<Str, Str>, order: seq<Str>)
    requires order != [] && forall k | k in order :: k in m
    ensures var n := |order| - 1;
      Select(m, order) == Select(m, order[..n]) + [Entry(order[n], m[order[n]])]
  {
  }

  lemma ToMapSnoc(es: seq<Entry>, e: Entry)
    ensures ToMap(es + [e]) == ToMap(es)[e.key := e.val]
  {
    ToMapAppend(es, [e]);
    assert ToMap([e]) == map[e.key := e.val];
  }

  lemma {:induction false} ToMapSelect(m: map<Str, Str>, order: seq<Str>)
    requires forall k | k in order :: k in m
    ensures ToMap(Select(m, order)) == map k | k in order :: m[k]
  {
    if order != [] {
      var n := |order| - 1;
      var e := Entry(order[n], m[order[n]]);
      ToMapSelect(m, order[..n]);
      SelectSnoc(m, order);
      ToMapSnoc(Select(m, order[..n]), e);
      assert order == order[..n] + [order[n]];
    }
  }

  lemma OrderInit(m: map<Str, Str>, order: seq<Str>)
    requires order != [] && IsOrder(order, m)
    ensures IsOrder(order[..|order| - 1], m - {order[|order| - 1]})
  {
    var init, k := order[..|order| - 1], order[|order| - 1];
    assert order == init + [k];
    forall x ensures x in init <==> x in m - {k} {
      assert x in order <==> x in init || x == k;
    }
  }

  lemma {:induction false} OrderTotals(m: map<Str, Str>, order: seq<Str>)
    requires IsOrder(order, m)
    ensures SumKv(Select(m, order)) == KvTotal(m) && |order| == |m|
    decreases |order|
  {
    if order == [] {
      assert m == map[];
    } else {
      var init, k := order[..|order| - 1], order[|order| - 1];
      OrderInit(m, order);
      MapShrinks(m, k);
      OrderTotals(m - {k}, init);
      KvTotalRemove(m, k);
      assert Select(m - {k}, init) == Select(m, init);
      SelectSnoc(m, order);
      SumKvSnoc(Select(m, init), Entry(k, m[k]));
    }
  }

  lemma OrderMap(m: map<Str, Str>, order: seq<Str>)
    requires IsOrder(order, m)
    ensures ToMap(Select(m, order)) == m
  {
    ToMapSelect(m, order);
  }

  // ----- Laws: encoding -----

  lemma NarrowFits(es: seq<Entry>)
    requires SumKv(es) <= MAX_HEADERS_LEN
    ensures AllFit(es) && AllNarrow(es)
  {
    forall i | 0 <= i < |es| ensures es[i].Size() <= MAX_U16 {
      EachWithinSum(es, i);
    }
  }

  lemma ParseEncoded(es: seq<Entry>)
    requires SumKv(es) <= MAX_HEADERS_LEN
    ensures ParseBytes(EncodeAll(es)) == Return(ToMap(es))
    ensures WellFormed(EncodeAll(es)) && Scan(EncodeAll(es)) == es
  {
    NarrowFits(es);
    WellFormedIsEncoding(EncodeAll(es));
    ParsePanicsIff(EncodeAll(es));
  }

  /** `Encode` succeeds on a map exactly when its keys and values total at most MaxHeadersLen,
      whatever the order; the bytes are as long as `EncodedLen` said, and `Parse` undoes it. */
  lemma EncodeLaw(m: map<Str, Str>, order: seq<Str>)
    requires IsOrder(order, m)
    ensures Encode(m, order).Some? <==> KvTotal(m) <= MAX_HEADERS_LEN
    ensures Encode(m, order).Some? ==>
      var b := Encode(m, order).value;
      && |b| == EncodedLen(Parsed(m))
      && WellFormed(b) && ParseBytes(b) == Return(m)
  {
    OrderTotals(m, order);
    OrderMap(m, order);
    if Encode(m, order).Some? {
      EncodedLength(Select(m, order));
      ParseEncoded(Select(m, order));
    }
  }

  /** The documentation bounds the encoded length, the code only keys and values: this map encodes
      to more bytes than a two-byte length can carry. */
  lemma EncodeCanExceedMax(order: seq<Str>)
    requires IsOrder(order, map[[] := seq(MAX_HEADERS_LEN - 3, _ => 0)])
    ensures Encode(map[[] := seq(MAX_HEADERS_LEN - 3, _ => 0)], order).Some?
    ensures |Encode(map[[] := seq(MAX_HEADERS_LEN - 3, _ => 0)], order).value| == MAX_HEADERS_LEN + 1
  {
    var v: Str := seq(MAX_HEADERS_LEN - 3, _ => 0);
    var m: map<Str, Str> := map[[] := v];
    EncodeLaw(m, order);
    KvTotalRemove(m, []);
    assert m - {[]} == map[];
  }

  lemma AddKeepsMaximal(s: Split, e: Entry)
    requires s.Maximal()
    ensures s.Add(e).Maximal()
  {
    SumKvSnoc(s.taken, e);
  }

  lemma {:induction false} GreedyMaximal(es: seq<Entry>)
    ensures Greedy(es).Maximal()
  {
    if es != [] {
      GreedyMaximal(es[..|es| - 1]);
      AddKeepsMaximal(Greedy(es[..|es| - 1]), es[|es| - 1]);
    }
  }

  /** Nothing is left over exactly when everything fits. */
  lemma {:induction false} GreedyTakesAll(es: seq<Entry>)
    ensures Greedy(es).left == [] <==> SumKv(es) <= MAX_HEADERS_LEN
    ensures Greedy(es).left == [] ==> Greedy(es).taken == es
  {
    if es != [] {
      var n := |es| - 1;
      GreedyTakesAll(es[..n]);
      assert es == es[..n] + [es[n]];
    }
  }

  ghost predicate DistinctKeys(es: seq<Entry>) {
    forall i, j | 0 <= i < j < |es| :: es[i].key != es[j].key
  }

  lemma {:induction false} FreshKey(es: seq<Entry>, key: Str)
    requires forall i | 0 <= i < |es| :: es[i].key != key
    ensures key !in ToMap(es)
  {
    if es != [] {
      FreshKey(es[1..], key);
    }
  }

  lemma DisjointAdd(a: map<Str, Str>, b: map<Str, Str>, k: Str, v: Str)
    requires a.Keys !! b.Keys && k !in a && k !in b
    ensures a[k := v].Keys !! b.Keys && a[k := v] + b == (a + b)[k := v]
    ensures a.Keys !! b[k := v].Keys && a + b[k := v] == (a + b)[k := v]
  {
    assert a[k := v].Keys == a.Keys + {k};
    assert b[k := v].Keys == b.Keys + {k};
  }

  lemma AddPartitions(s: Split, m: map<Str, Str>, e: Entry)
    requires s.Partitions(m) && e.key !in m
    ensures s.Add(e).Partitions(m[e.key := e.val])
  {
    var a, b := ToMap(s.taken), ToMap(s.left);
    assert e.key !in a + b;
    DisjointAdd(a, b, e.key, e.val);
    if SumKv(s.taken) + e.Size() > MAX_HEADERS_LEN {
      ToMapSnoc(s.left, e);
    } else {
      ToMapSnoc(s.taken, e);
    }
  }

  lemma {:induction false} GreedyPartitions(es: seq<Entry>)
    requires DistinctKeys(es)
    ensures Greedy(es).Partitions(ToMap(es))
  {
    if es != [] {
      var init, e := es[..|es| - 1], es[|es| - 1];
      assert es == init + [e];
      GreedyPartitions(init);
      FreshKey(init, e.key);
      AddPartitions(Greedy(init), ToMap(init), e);
      ToMapSnoc(init, e);
    }
  }

  lemma {:induction false} KeyWitness(es: seq<Entry>, key: Str) returns (i: nat)
    requires key in ToMap(es)
    ensures i < |es| && es[i] == Entry(key, ToMap(es)[key])
  {
    if key in ToMap(es[1..]) {
      var j := KeyWitness(es[1..], key);
      i := j + 1;
    } else {
      i := 0;
    }
  }

  /** `EncodeP` partitions the map for every iteration order: the encoded part and the left-over
      part are disjoint and together are the map, parsing the bytes gives the encoded part, and no
      left-over entry would still fit in the budget. */
  lemma EncodePLaw(m: map<Str, Str>, order: seq<Str>)
    requires IsOrder(order, m)
    ensures var s := Greedy(Select(m, order));
      && s.Partitions(m)
      && ParseBytes(EncodeAll(s.taken)) == Return(ToMap(s.taken))
      && SumKv(s.taken) <= MAX_HEADERS_LEN
      && (forall k | k in ToMap(s.left) :: SumKv(s.taken) + |k| + |m[k]| > MAX_HEADERS_LEN)
      && (ToMap(s.left) == map[] <==> KvTotal(m) <= MAX_HEADERS_LEN)
  {
    var es := Select(m, order);
    var s := Greedy(es);
    OrderTotals(m, order);
    OrderMap(m, order);
    GreedyMaximal(es);
    GreedyTakesAll(es);
    GreedyPartitions(es);
    ParseEncoded(s.taken);
    forall k | k in ToMap(s.left) ensures SumKv(s.taken) + |k| + |m[k]| > MAX_HEADERS_LEN {
      var i := KeyWitness(s.left, k);
      assert m[k] == ToMap(s.left)[k];
    }
    if s.left != [] {
      assert s.left[0].key in ToMap(s.left);
    }
  }
}
