/** The Go `Headers` object: raw bytes scanned lazily, or a parsed map (go/req_resp.go). */
module Headers {
  import opened Bytes
  import opened HeaderList
  import opened HeaderScan
  import opened HeaderStates

  class Headers {
    var bytes: seq<byte>
    var m: map<Str, Str>
    var parsed: bool

    function State(): State
      reads this
    {
      if parsed then Parsed(m) else Raw(bytes)
    }

    constructor (bytes: seq<byte>)
      ensures State() == Raw(bytes)
    {
      this.bytes, m, parsed := bytes, map[], false;
    }

    method GetChecked(key: Str) returns (val: Str, ok: bool)
      ensures ok <==> HeaderStates.Get(State(), key).Some?
      ensures val == if ok then HeaderStates.Get(State(), key).value else []
    {
      if parsed {
        return if key in m then m[key] else [], key in m;
      }
      var b, wkl, l := bytes, |key|, |bytes|;
      while l >= 4
        invariant l == |b|
        invariant Lookup(Scan(b), key) == Lookup(Scan(bytes), key)
        decreases |b|
      {
        var kl, vl := Get2(b), Get2(b[2..]);
        var kvl := kl + vl;
        ghost var here := b;
        b := b[4..];
        if kvl > |b| {
          assert !Complete(here);
          return [], false;
        }
        l := l - 4;
        assert Scan(here) == [Entry(b[..kl], b[kl..kvl])] + Scan(b[kvl..]);
        if kl == wkl && b[..kl] == key {
          return b[kl..kvl], true;
        }
        b := b[kvl..];
        l := l - kvl;
      }
      return [], false;
    }

    method Parse() returns (r: Outcome<map<Str, Str>>)
      modifies this
      ensures old(State()).Parsed? ==> r == Return(old(m)) && State() == old(State())
      ensures old(State()).Raw? ==> r == ParseBytes(old(bytes))
      ensures old(State()).Raw? && r.Return? ==> State() == Parsed(r.value)
    {
      if parsed {
        return Return(m);
      }
      hide Get2, Parsing, ParseBytes;
      var found: map<Str, Str> := map[];
      var l := |bytes|;
      ghost var was := bytes;
      ParseBegins(was);
      while l >= 4
        invariant !parsed && l == |bytes| && was == old(bytes)
        invariant Parsing(was, found, bytes)
        decreases |bytes|
      {
        var kl, vl := Get2(bytes), Get2(bytes[2..]);
        ParseTurn(was, found, bytes);
        bytes := bytes[4..];
        l := l - 4;
        var kvl := (kl + vl) % (MAX_U16 + 1);
        if kvl > l {
          bytes, m, parsed := [], found, true;
          return Return(m);
        }
        if kl > kvl {
          return Panic;
        }
        found := found[bytes[..kl] := bytes[kl..kvl]];
        bytes := bytes[kvl..];
        l := l - kvl;
      }
      ParseEnds(was, found, bytes);
      bytes, m, parsed := [], found, true;
      return Return(m);
    }

    method Set(key: Str, value: Str) returns (added: bool)
      modifies this
      ensures (State(), added) == HeaderStates.Set(old(State()), key, value)
    {
      if parsed {
        m := m[key := value];
        return true;
      }
      var kl, vl := |key|, |value|;
      if 4 + kl + vl + |bytes| > MAX_HEADERS_LEN {
        return false;
      }
      var buf := Le(kl, 2) + Le(vl, 2);
      buf := buf + key;
      buf := buf + value;
      bytes := bytes + buf;
      return true;
    }

    method EncodedLen() returns (l: nat)
      ensures l == HeaderStates.EncodedLen(State())
    {
      if !parsed {
        return |bytes|;
      }
      l := 0;
      var todo := m.Keys;
      ghost var left := m;
      while todo != {}
        invariant left.Keys == todo && forall k | k in left :: k in m && left[k] == m[k]
        invariant l + HeaderStates.EncodedLen(Parsed(left)) == HeaderStates.EncodedLen(Parsed(m))
        decreases |todo|
      {
        var k :| k in todo;
        KvTotalRemove(left, k);
        MapShrinks(left, k);
        l := l + 4 + |k| + |m[k]|;
        todo := todo - {k};
        left := left - {k};
      }
    }

    /** Walks the map in an arbitrary order, which `order` records. */
    method Encode() returns (ok: bool, ghost order: seq<Str>)
      modifies this
      ensures old(State()).Raw? ==> ok && State() == old(State())
      ensures old(State()).Parsed? ==>
        && IsOrder(order, old(m))
        && ok == HeaderStates.Encode(old(m), order).Some?
        && State() == (if ok then Raw(HeaderStates.Encode(old(m), order).value) else old(State()))
      ensures !ok ==> bytes == old(bytes)
    {
      order := [];
      if !parsed {
        return true, order;
      }
      var b: seq<byte> := [];
      var headersLen := 0;
      var todo := m.Keys;
      while todo != {}
        invariant parsed && m == old(m) && bytes == old(bytes)
        invariant WalkedTo(order, m, todo)
        invariant headersLen == SumKv(Select(m, order)) <= MAX_HEADERS_LEN
        invariant b == EncodeAll(Select(m, order))
        decreases |todo|
      {
        var k :| k in todo;
        var kl, vl := |k|, |m[k]|;
        headersLen := headersLen + kl + vl;
        order := Walk(order, m, todo, k);
        todo := todo - {k};
        if headersLen > MAX_HEADERS_LEN {
          order := WalkRest(order, m, todo);
          return false, order;
        }
        b := AppendEntry(b, k, m[k]);
      }
      bytes, m, parsed := b, map[], false;
      return true, order;
    }

    /** As `Encode`, but skips what does not fit and returns it; None is Go's nil map. */
    method EncodeP() returns (rest: Option<map<Str, Str>>, ghost order: seq<Str>)
      modifies this
      ensures old(State()).Raw? ==> rest == None && State() == old(State())
      ensures old(State()).Parsed? ==>
        && IsOrder(order, old(m))
        && var s := Greedy(Select(old(m), order));
           rest == Some(ToMap(s.left)) && State() == Raw(EncodeAll(s.taken))
    {
      order := [];
      if !parsed {
        return None, order;
      }
      var b: seq<byte> := [];
      var headersLen := 0;
      var todo := m.Keys;
      ghost var all, s := m, Split([], []);
      PackStart(all);
      hide Packed, Greedy, Select, ToMap, IsOrder;
      while todo != {}
        invariant parsed && all == old(m)
        invariant Packed(order, all, todo, s, headersLen, b, m)
        decreases |todo|
      {
        var k :| k in todo;
        ghost var o, s' := PackStep(order, all, todo, s, headersLen, b, m, k);
        order, s := o, s';
        var kl, vl := |k|, |m[k]|;
        var kvl := kl + vl;
        headersLen := headersLen + kl + vl;
        todo := todo - {k};
        if headersLen > MAX_HEADERS_LEN {
          headersLen := headersLen - kvl;
          continue;
        }
        b := AppendEntry(b, k, m[k]);
        m := m - {k};
      }
      var left := m;
      PackDone(order, all, s, headersLen, b, m);
      bytes, m, parsed := b, map[], false;
      return Some(left), order;
    }

    /** A failed `SetAll` on raw headers leaves the old bytes as they were. */
    method SetAll(all: map<Str, Str>) returns (ok: bool, ghost order: seq<Str>)
      modifies this
      ensures old(State()).Parsed? ==> ok && State() == Parsed(all)
      ensures old(State()).Raw? ==>
        && IsOrder(order, all)
        && ok == HeaderStates.Encode(all, order).Some?
        && State() == (if ok then Raw(HeaderStates.Encode(all, order).value) else old(State()))
    {
      order := [];
      m := all;
      if parsed {
        return true, order;
      }
      parsed := true;
      ok, order := Encode();
      m, parsed := map[], false;
    }

    /** Splices the first match out of the raw bytes by index. */
    method RemoveChecked(key: Str) returns (r: Outcome<Option<Str>>)
      modifies this
      ensures var spec := HeaderStates.Remove(old(State()), key);
        if spec.Panic? then r == Panic && State() == old(State())
        else r == Return(spec.value.1) && State() == spec.value.0
    {
      if parsed {
        r := Return(MapGet(m, key));
        m := m - {key};
        return;
      }
      var b, wkl, i, l := bytes, |key|, 0, |bytes|;
      ghost var seen: seq<Entry> := [];
      assert ScannedTo(bytes, i, seen, key);
      hide ScannedTo, Scan, Get2, HeaderStates.Remove;
      while l >= 4
        invariant !parsed && bytes == old(bytes)
        invariant l == |b| && i + l == |bytes| && b == bytes[i..]
        invariant ScannedTo(bytes, i, seen, key)
        decreases |b|
      {
        var kl, vl := Get2(b), Get2(b[2..]);
        var kvl := kl + vl;
        seen := RemoveTurn(bytes, i, seen, key);
        b := b[4..];
        if kvl > l {
          return Return(None);
        }
        if kvl > |b| {
          // `b[:kl]`, `h.bytes[i+4+kvl:]` or `b[kvl:]` is out of range
          return Panic;
        }
        l := l - 4;
        if kl == wkl && b[..kl] == key {
          var val := b[kl..kvl];
          bytes := bytes[..i] + bytes[i + 4 + kvl..];
          return Return(Some(val));
        }
        b := b[kvl..];
        l := l - kvl;
        i := i + 4 + kvl;
      }
      RemoveMisses(bytes, i, seen, key);
      return Return(None);
    }
  }

  // ----- Walking a map -----

  /** `order` lists, once each, the keys visited so far: all but `todo`. */
  ghost predicate WalkedTo(order: seq<Str>, m: map<Str, Str>, todo: set<Str>) {
    NoDup(order) && todo <= m.Keys && forall k :: k in order <==> k in m && k !in todo
  }

  lemma Walk(order: seq<Str>, m: map<Str, Str>, todo: set<Str>, k: Str) returns (o: seq<Str>)
    requires WalkedTo(order, m, todo) && k in todo
    ensures o == order + [k] && WalkedTo(o, m, todo - {k})
    ensures Select(m, o) == Select(m, order) + [Entry(k, m[k])]
    ensures SumKv(Select(m, o)) == SumKv(Select(m, order)) + |k| + |m[k]|
    ensures EncodeAll(Select(m, o)) == EncodeAll(Select(m, order)) + EncodeEntry(Entry(k, m[k]))
    ensures Greedy(Select(m, o)) == Greedy(Select(m, order)).Add(Entry(k, m[k]))
  {
    o := order + [k];
    var es, e := Select(m, order), Entry(k, m[k]);
    assert Select(m, o) == es + [e];
    assert (es + [e])[..|es|] == es;
    SumKvSnoc(es, e);
    EncodeSnoc(es, e);
  }

  /** Any walk can be finished, and a total over the budget stays over it. */
  lemma {:induction false} WalkRest(order: seq<Str>, m: map<Str, Str>, todo: set<Str>)
    returns (o: seq<Str>)
    requires WalkedTo(order, m, todo)
    ensures IsOrder(o, m) && SumKv(Select(m, o)) >= SumKv(Select(m, order))
    decreases |todo|
  {
    if todo == {} {
      o := order;
    } else {
      var k :| k in todo;
      o := Walk(order, m, todo, k);
      o := WalkRest(o, m, todo - {k});
    }
  }

  ghost predicate GreedyTo(order: seq<Str>, m: map<Str, Str>, todo: set<Str>, s: Split) {
    WalkedTo(order, m, todo) && s == Greedy(Select(m, order))
  }

  lemma GreedyWalk(order: seq<Str>, m: map<Str, Str>, todo: set<Str>, s: Split, k: Str)
    returns (o: seq<Str>, s': Split)
    requires GreedyTo(order, m, todo, s) && k in todo
    ensures k in MapWithout(m, s.taken) && MapWithout(m, s.taken)[k] == m[k]
    ensures s' == s.Add(Entry(k, m[k])) && GreedyTo(o, m, todo - {k}, s')
  {
    GreedyPartitions(Select(m, order));
    ToMapSelect(m, order);
    WithoutIsMinus(m, s.taken);
    o := Walk(order, m, todo, k);
    s' := s.Add(Entry(k, m[k]));
  }

  /** The map after the keys of `taken` were deleted one by one. */
  ghost function MapWithout(m: map<Str, Str>, taken: seq<Entry>): map<Str, Str> {
    if taken == [] then m
    else MapWithout(m, taken[..|taken| - 1]) - {taken[|taken| - 1].key}
  }

  /** The bytes, the budget used and the shrunken map after taking `s.taken` out of `all`. */
  ghost predicate Encoded(s: Split, all: map<Str, Str>, used: int, b: seq<byte>, m: map<Str, Str>) {
    used == SumKv(s.taken) && b == EncodeAll(s.taken) && m == MapWithout(all, s.taken)
  }

  lemma EncodedMore(s: Split, all: map<Str, Str>, used: int, b: seq<byte>, m: map<Str, Str>, k: Str)
    requires Encoded(s, all, used, b, m) && k in all
    requires used + |k| + |all[k]| <= MAX_HEADERS_LEN
    ensures var e := Entry(k, all[k]);
      Encoded(s.Add(e), all, used + e.Size(), b + EncodeEntry(e), m - {k})
  {
    var e := Entry(k, all[k]);
    SumKvSnoc(s.taken, e);
    EncodeSnoc(s.taken, e);
    assert (s.taken + [e])[..|s.taken|] == s.taken;
  }

  /** Where the loop of `EncodeP` stands: the walk so far, its split, and what it has built. */
  ghost predicate Packed(order: seq<Str>, all: map<Str, Str>, todo: set<Str>, s: Split, used: int,
                         b: seq<byte>, m: map<Str, Str>) {
    GreedyTo(order, all, todo, s) && Encoded(s, all, used, b, m)
  }

  lemma PackStart(all: map<Str, Str>)
    ensures Packed([], all, all.Keys, Split([], []), 0, [], all)
  {
  }

  lemma PackStep(order: seq<Str>, all: map<Str, Str>, todo: set<Str>, s: Split, used: int,
                 b: seq<byte>, m: map<Str, Str>, k: Str)
    returns (o: seq<Str>, s': Split)
    requires Packed(order, all, todo, s, used, b, m) && k in todo
    ensures k in m
    ensures var n := used + |k| + |m[k]|;
      if n > MAX_HEADERS_LEN then Packed(o, all, todo - {k}, s', used, b, m)
      else Packed(o, all, todo - {k}, s', n, b + EncodeEntry(Entry(k, m[k])), m - {k})
  {
    hide Greedy, EncodeAll, EncodeEntry, MapWithout;
    o, s' := GreedyWalk(order, all, todo, s, k);
    if used + |k| + |m[k]| <= MAX_HEADERS_LEN {
      EncodedMore(s, all, used, b, m, k);
    }
  }

  lemma PackDone(order: seq<Str>, all: map<Str, Str>, s: Split, used: int, b: seq<byte>,
                 m: map<Str, Str>)
    requires Packed(order, all, {}, s, used, b, m)
    ensures IsOrder(order, all) && s == Greedy(Select(all, order))
    ensures b == EncodeAll(s.taken) && m == ToMap(s.left)
  {
    GreedyDone(order, all, s);
  }

  lemma {:induction false} WithoutIsMinus(m: map<Str, Str>, taken: seq<Entry>)
    ensures MapWithout(m, taken) == m - ToMap(taken).Keys
  {
    if taken == [] {
      assert m - ToMap([]).Keys == m;
    } else {
      var n := |taken| - 1;
      var e := taken[n];
      WithoutIsMinus(m, taken[..n]);
      ToMapSnoc(taken[..n], e);
      assert taken == taken[..n] + [e];
      assert ToMap(taken).Keys == ToMap(taken[..n]).Keys + {e.key};
    }
  }

  lemma GreedyDone(order: seq<Str>, m: map<Str, Str>, s: Split)
    requires GreedyTo(order, m, {}, s)
    ensures IsOrder(order, m) && MapWithout(m, s.taken) == ToMap(s.left)
    ensures s == Greedy(Select(m, order))
  {
    GreedyPartitions(Select(m, order));
    OrderMap(m, order);
    WithoutIsMinus(m, s.taken);
  }

  /** One turn of the `Parse` loop, by the wrapped sum of the two lengths it computes. */
  lemma ParseStep(b: seq<byte>)
    requires |b| >= 4
    ensures var kl, w := KeyLen(b), (KeyLen(b) + ValLen(b)) % (MAX_U16 + 1);
      if w > |b| - 4 then ToMap(Scan(b)) == map[] && !ParsePanics(b)
      else if kl > w then ParsePanics(b)
      else
        && w == kl + ValLen(b) && Complete(b)
        && ParsePanics(b) == ParsePanics(Rest(b))
        && Scan(b) == [Head(b)] + Scan(Rest(b))
  {
    hide Get2;
    LeGet2(b);
    LeGet2(b[2..]);
    var kl, vl := KeyLen(b), ValLen(b);
    var w := (kl + vl) % (MAX_U16 + 1);
    assert w == if kl + vl > MAX_U16 then kl + vl - (MAX_U16 + 1) else kl + vl;
    if w > |b| - 4 {
      assert !Complete(b);
    } else if kl <= w {
      assert Complete(b);
    }
  }

  /** The loop has found `found` in `was` and has `b` left. */
  ghost predicate Parsing(was: seq<byte>, found: map<Str, Str>, b: seq<byte>) {
    ParsePanics(was) == ParsePanics(b) && found + ToMap(Scan(b)) == ToMap(Scan(was))
  }

  lemma ParseBegins(b: seq<byte>)
    ensures Parsing(b, map[], b)
  {
  }

  lemma ParseEnds(was: seq<byte>, found: map<Str, Str>, b: seq<byte>)
    requires Parsing(was, found, b) && |b| < 4
    ensures ParseBytes(was) == Return(found)
  {
    assert found + map[] == found;
  }

  lemma ToMapStep(found: map<Str, Str>, e: Entry, es: seq<Entry>)
    ensures found[e.key := e.val] + ToMap(es) == found + ToMap([e] + es)
  {
    assert ([e] + es)[1..] == es;
  }

  /** The same turn, by what the loop has found so far. */
  lemma ParseTurn(was: seq<byte>, found: map<Str, Str>, b: seq<byte>)
    requires Parsing(was, found, b) && |b| >= 4
    ensures var u, kl := b[4..], Get2(b); var w := (kl + Get2(b[2..])) % (MAX_U16 + 1);
      if w > |u| then ParseBytes(was) == Return(found)
      else if kl > w then ParseBytes(was) == Panic
      else Parsing(was, found[u[..kl] := u[kl..w]], u[w..])
  {
    hide Get2, ToMap, Scan, ParsePanics;
    ParseStep(b);
    var u, kl := b[4..], Get2(b);
    var w := (kl + Get2(b[2..])) % (MAX_U16 + 1);
    if w > |u| {
      assert found + map[] == found;
    } else if kl <= w {
      ToMapStep(found, Head(b), Scan(Rest(b)));
    }
  }

  /** One turn of the `RemoveChecked` loop, which stands at byte `i`. */
  lemma RemoveTurn(b: seq<byte>, i: nat, seen: seq<Entry>, key: Str) returns (seen': seq<Entry>)
    requires ScannedTo(b, i, seen, key) && |b| - i >= 4
    ensures var here := b[i..]; var u, kl := here[4..], Get2(here); var kvl := kl + Get2(here[2..]);
      if kvl > |u| then
        HeaderStates.Remove(Raw(b), key)
        == if kvl > |here| then Return((Raw(b), None)) else Panic
      else if kl == |key| && u[..kl] == key then
        HeaderStates.Remove(Raw(b), key)
        == Return((Raw(b[..i] + b[i + 4 + kvl..]), Some(u[kl..kvl])))
      else ScannedTo(b, i + 4 + kvl, seen', key) && u[kvl..] == b[i + 4 + kvl..]
  {
    hide ScannedTo, Scan, Get2, HeaderStates.Remove;
    var here := b[i..];
    seen' := seen;
    if !Complete(here) {
      RemoveMisses(b, i, seen, key);
    } else if Head(here).key == key {
      RemoveHits(b, i, seen, key);
    } else {
      seen' := ScanOn(b, i, seen, key);
    }
  }
}
