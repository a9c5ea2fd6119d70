/** The Rust header block (rust/src/headers.rs): slices that advance, `split_off` to remove, and
    an iterator; and how it compares with the Go `Headers`. */
module RustHeaders {
  import opened Bytes
  import opened HeaderList
  import opened HeaderScan
  import opened HeaderStates

  /** `get` slices past the end of an incomplete last entry whose key is there and differs. */
  predicate GetPanics(t: seq<byte>, key: Str) {
    |t| >= 4 && KeyLen(t) <= |t| - 4 && t[4..][..KeyLen(t)] != key
  }

  /** `remove` goes out of range on any incomplete last entry whose key is there. */
  predicate RemovePanics(t: seq<byte>) {
    |t| >= 4 && KeyLen(t) <= |t| - 4
  }

  function RustGet(s: State, key: Str): Outcome<Option<Str>> {
    match s
    case Parsed(m) => Return(MapGet(m, key))
    case Raw(b) =>
      var found := Lookup(Scan(b), key);
      if found.None? && GetPanics(Tail(b), key) then Panic else Return(found)
  }

  function RustRemove(s: State, key: Str): Outcome<(State, Option<Str>)> {
    match s
    case Parsed(m) => Return((Parsed(m - {key}), MapGet(m, key)))
    case Raw(b) =>
      var found := Lookup(Scan(b), key);
      if found.Some? then Return((Raw(EncodeAll(RemoveFirst(Scan(b), key)) + Tail(b)), found))
      else if RemovePanics(Tail(b)) then Panic
      else Return((s, None))
  }

  class InnerHeaders {
    var inner: State

    constructor (inner: State)
      ensures this.inner == inner
    {
      this.inner := inner;
    }

    method Get(key: Str) returns (r: Outcome<Option<Str>>)
      ensures r == RustGet(inner, key)
    {
      if inner.Parsed? {
        return Return(MapGet(inner.m, key));
      }
      var b := inner.bytes;
      ghost var all, i, seen: seq<Entry> := b, 0, [];
      assert ScannedTo(all, i, seen, key);
      hide ScannedTo, Scan, Get2, RustGet;
      while |b| >= 4
        invariant inner == Raw(all) && i <= |all| && b == all[i..]
        invariant ScannedTo(all, i, seen, key)
        decreases |b|
      {
        var kl, vl := Get2(b), Get2(b[2..]);
        var kvl := kl + vl;
        seen := ScanTurn(all, i, seen, key);
        b := b[4..];
        if kl > |b| {
          return Return(None);
        }
        if b[..kl] == key {
          return Return(if kvl > |b| then None else Some(b[kl..kvl]));
        }
        if kvl > |b| {
          return Panic;
        }
        b := b[kvl..];
        i := i + 4 + kvl;
      }
      Misses(all, i, seen, key);
      return Return(None);
    }

    method Set(key: Str, value: Str) returns (added: bool)
      modifies this
      ensures (inner, added) == HeaderStates.Set(old(inner), key, value)
    {
      if inner.Parsed? {
        inner := Parsed(inner.m[key := value]);
        return true;
      }
      var b := inner.bytes;
      var total := 4 + |key| + |value|;
      if total + |b| > MAX_HEADERS_LEN {
        return false;
      }
      inner := Raw(AppendEntry(b, key, value));
      return true;
    }

    method Remove(key: Str) returns (r: Outcome<Option<Str>>)
      modifies this
      ensures var spec := RustRemove(old(inner), key);
        if spec.Panic? then r == Panic
        else r == Return(spec.value.1) && inner == spec.value.0
    {
      if inner.Parsed? {
        r := Return(MapGet(inner.m, key));
        inner := Parsed(inner.m - {key});
        return;
      }
      var bm := inner.bytes;
      var b, i := bm, 0;
      ghost var seen: seq<Entry> := [];
      assert ScannedTo(bm, i, seen, key);
      hide ScannedTo, Scan, Get2, RustRemove;
      while |b| >= 4
        invariant inner == old(inner) == Raw(bm)
        invariant i <= |bm| && b == bm[i..]
        invariant ScannedTo(bm, i, seen, key)
        decreases |b|
      {
        var kl, vl := Get2(b), Get2(b[2..]);
        var kvl := kl + vl;
        seen := ScanTurn(bm, i, seen, key);
        b := b[4..];
        if kl > |b| {
          return Return(None);
        }
        if b[..kl] == key {
          var kept, toRm := bm[..i], bm[i..];
          if 4 + kvl > |toRm| {
            return Panic;
          }
          CutOut(bm, i, kl, kvl);
          var rest := toRm[4 + kvl..];
          toRm := toRm[..4 + kvl];
          inner := Raw(kept + rest);
          return Return(Some(toRm[4 + kl..]));
        }
        if kvl > |b| {
          return Panic;
        }
        b := b[kvl..];
        i := i + 4 + kvl;
      }
      Misses(bm, i, seen, key);
      return Return(None);
    }
  }

  lemma CutOut(bm: seq<byte>, i: nat, kl: nat, kvl: nat)
    requires i + 4 + kvl <= |bm| && kl <= kvl
    ensures bm[i..][4 + kvl..] == bm[i + 4 + kvl..]
    ensures bm[i..][..4 + kvl][4 + kl..] == bm[i..][4..][kl..kvl]
  {
  }

  lemma Misses(b: seq<byte>, i: nat, seen: seq<Entry>, key: Str)
    requires ScannedTo(b, i, seen, key) && !Complete(b[i..])
    ensures RustGet(Raw(b), key) == if GetPanics(b[i..], key) then Panic else Return(None)
    ensures RustRemove(Raw(b), key)
         == if RemovePanics(b[i..]) then Panic else Return((Raw(b), None))
  {
    ScannedSplit(b, i, seen, key);
  }

  lemma Hits(b: seq<byte>, i: nat, seen: seq<Entry>, key: Str)
    requires ScannedTo(b, i, seen, key)
    requires Complete(b[i..]) && Head(b[i..]).key == key
    ensures var kvl, val := KeyLen(b[i..]) + ValLen(b[i..]), Head(b[i..]).val;
      && RustGet(Raw(b), key) == Return(Some(val))
      && RustRemove(Raw(b), key) == Return((Raw(b[..i] + b[i + 4 + kvl..]), Some(val)))
  {
    ScannedSplit(b, i, seen, key);
    RemoveHits(b, i, seen, key);
  }

  /** One turn of either loop, which stands at byte `i`. */
  lemma ScanTurn(b: seq<byte>, i: nat, seen: seq<Entry>, key: Str) returns (seen': seq<Entry>)
    requires ScannedTo(b, i, seen, key) && |b| - i >= 4
    ensures var here := b[i..]; var u, kl := here[4..], Get2(here); var kvl := kl + Get2(here[2..]);
      if kl > |u| then
        RustGet(Raw(b), key) == Return(None) && RustRemove(Raw(b), key) == Return((Raw(b), None))
      else if kvl > |u| then
        && RustGet(Raw(b), key) == (if u[..kl] == key then Return(None) else Panic)
        && RustRemove(Raw(b), key) == Panic
      else if u[..kl] == key then
        && RustGet(Raw(b), key) == Return(Some(u[kl..kvl]))
        && RustRemove(Raw(b), key) == Return((Raw(b[..i] + b[i + 4 + kvl..]), Some(u[kl..kvl])))
      else ScannedTo(b, i + 4 + kvl, seen', key) && u[kvl..] == b[i + 4 + kvl..]
  {
    hide ScannedTo, Scan, Get2, RustGet, RustRemove;
    var here := b[i..];
    seen' := seen;
    if !Complete(here) {
      Misses(b, i, seen, key);
    } else if Head(here).key == key {
      Hits(b, i, seen, key);
    } else {
      seen' := ScanOn(b, i, seen, key);
    }
  }

  /** The iterator over raw bytes: a slice that shrinks from the left. */
  class Iter {
    var b: seq<byte>

    constructor (b: seq<byte>)
      ensures this.b == b
    {
      this.b := b;
    }

    method Next() returns (item: Option<Entry>)
      modifies this
      ensures Scan(old(b)) == (if item.Some? then [item.value] + Scan(b) else [])
      ensures |b| <= |old(b)| && (item.Some? ==> |b| < |old(b)|)
      ensures item.None? ==> Scan(b) == []
    {
      if |b| < 4 {
        return None;
      }
      var kl, vl := Get2(b), Get2(b[2..]);
      var kvl := kl + vl;
      var rest := b[4..];
      if kvl > |rest| {
        b := rest[|rest|..];
        return None;
      }
      item := Some(Entry(rest[..kl], rest[kl..kvl]));
      b := rest[kvl..];
    }
  }

  /** A full run of the iterator yields exactly the entries of the block, on every byte string. */
  method Collect(b: seq<byte>) returns (es: seq<Entry>)
    ensures es == Scan(b)
  {
    var iter := new Iter(b);
    es := [];
    var item := iter.Next();
    while item.Some?
      invariant es + (if item.Some? then [item.value] + Scan(iter.b) else []) == Scan(b)
      decreases |iter.b| + (if item.Some? then 1 else 0)
    {
      ghost var was := Scan(iter.b);
      ConcatAssociative(es, [item.value], was);
      es := es + [item.value];
      item := iter.Next();
    }
  }

  // ----- The two implementations -----

  /** Wherever neither panics, Rust and Go give the same answer and leave the same bytes; on a
      well-formed block neither panics. */
  lemma RustAgreesWithGo(s: State, key: Str)
    ensures RustGet(s, key).Return? ==> RustGet(s, key) == Return(HeaderStates.Get(s, key))
    ensures RustRemove(s, key).Return? && HeaderStates.Remove(s, key).Return? ==>
      RustRemove(s, key) == HeaderStates.Remove(s, key)
    ensures s.Parsed? || WellFormed(s.bytes) ==>
      && RustGet(s, key).Return?
      && RustRemove(s, key).Return? && HeaderStates.Remove(s, key).Return?
  {
  }

  /** Rust's `get` and its `remove` are each safe for every key exactly when the block does not end in
      an entry whose key is there and whose value is not. */
  lemma RustSafeIff(b: seq<byte>)
    ensures (forall key :: RustGet(Raw(b), key).Return?) <==> !RemovePanics(Tail(b))
    ensures (forall key :: RustRemove(Raw(b), key).Return?) <==> !RemovePanics(Tail(b))
  {
    LongKeyMissing(b);
    if RemovePanics(Tail(b)) {
      var t := Tail(b);
      assert |t[4..][..KeyLen(t)]| < |LONG_KEY| by { LeGet2(t); }
      assert RustGet(Raw(b), LONG_KEY).Panic? && RustRemove(Raw(b), LONG_KEY).Panic?;
    }
  }

  /** On a block that ends in a key without its value both of Rust's operations panic. */
  lemma RustCanPanic()
    ensures var s := Raw(SHORT_ENTRY);
      HeaderStates.Get(s, [8]) == None && RustGet(s, [8]) == Panic && RustRemove(s, [8]) == Panic
  {
    ShortEntry();
  }
}
