/** What a loop that walks a header block from the left knows when it has read `i` bytes; shared by
    the Go index arithmetic (Headers.dfy) and the Rust slices (RustHeaders.dfy). */
module HeaderScan {
  import opened Bytes
  import opened HeaderList
  import opened HeaderStates

  /** Two lengths, the key and the value, appended one after the other. */
  function AppendEntry(b: seq<byte>, key: Str, val: Str): (r: seq<byte>)
    ensures r == b + EncodeEntry(Entry(key, val))
  {
    ConcatAssociative(b, Le(|key|, 2), Le(|val|, 2));
    ConcatAssociative(b, Le(|key|, 2) + Le(|val|, 2), key);
    ConcatAssociative(b, Le(|key|, 2) + Le(|val|, 2) + key, val);
    b + Le(|key|, 2) + Le(|val|, 2) + key + val
  }

  /** `seen` are the entries of the first `i` bytes, and none has the key. */
  ghost predicate ScannedTo(b: seq<byte>, i: nat, seen: seq<Entry>, key: Str) {
    && i <= |b| && AllFit(seen)
    && b[..i] == EncodeAll(seen)
    && forall j | 0 <= j < |seen| :: seen[j].key != key
  }

  lemma ScannedSplit(b: seq<byte>, i: nat, seen: seq<Entry>, key: Str)
    requires ScannedTo(b, i, seen, key)
    ensures Scan(b) == seen + Scan(b[i..]) && Tail(b) == Tail(b[i..])
    ensures Lookup(Scan(b), key) == Lookup(Scan(b[i..]), key)
  {
    assert b == EncodeAll(seen) + b[i..];
    ScanEncode(seen, b[i..]);
    LookupMissing(seen, key);
    LookupAppend(seen, Scan(b[i..]), key);
  }

  lemma ScanOn(b: seq<byte>, i: nat, seen: seq<Entry>, key: Str) returns (seen': seq<Entry>)
    requires ScannedTo(b, i, seen, key)
    requires Complete(b[i..]) && Head(b[i..]).key != key
    ensures var kvl := KeyLen(b[i..]) + ValLen(b[i..]);
      ScannedTo(b, i + 4 + kvl, seen', key) && b[i + 4 + kvl..] == Rest(b[i..])
  {
    var here := b[i..];
    EncodeHead(here);
    EncodeSnoc(seen, Head(here));
    HeadEncode(Head(here), Rest(here));
    seen' := seen + [Head(here)];
    var n := KeyLen(here) + ValLen(here) + 4;
    assert b[i + n..] == here[n..] == Rest(here);
    assert b[..i + n] == b[..i] + here[..n];
    assert here[..n] == EncodeEntry(Head(here));
  }

  lemma RemoveMisses(b: seq<byte>, i: nat, seen: seq<Entry>, key: Str)
    requires ScannedTo(b, i, seen, key) && !Complete(b[i..])
    ensures HeaderStates.Remove(Raw(b), key)
         == if TailPanics(b[i..]) then Panic else Return((Raw(b), None))
  {
    ScannedSplit(b, i, seen, key);
  }

  /** Dropping the bytes of the first matching entry is dropping that entry. */
  lemma RemoveHits(b: seq<byte>, i: nat, seen: seq<Entry>, key: Str)
    requires ScannedTo(b, i, seen, key)
    requires Complete(b[i..]) && Head(b[i..]).key == key
    ensures var kvl := KeyLen(b[i..]) + ValLen(b[i..]);
      HeaderStates.Remove(Raw(b), key)
        == Return((Raw(b[..i] + b[i + 4 + kvl..]), Some(Head(b[i..]).val)))
  {
    var here := b[i..];
    var rest := Scan(Rest(here));
    ScannedSplit(b, i, seen, key);
    assert Scan(here) == [Head(here)] + rest;
    assert Scan(here)[1..] == rest;
    RemoveSkips(seen, Scan(here), key);
    EncodeAppend(seen, rest);
    ScanDecompose(Rest(here));
    ConcatAssociative(EncodeAll(seen), EncodeAll(rest), Tail(here));
    var n := KeyLen(here) + ValLen(here) + 4;
    assert b[i + n..] == here[n..] == Rest(here);
  }

  lemma {:induction false} RemoveSkips(seen: seq<Entry>, es: seq<Entry>, key: Str)
    requires forall j | 0 <= j < |seen| :: seen[j].key != key
    ensures RemoveFirst(seen + es, key) == seen + RemoveFirst(es, key)
  {
    if seen == [] {
      assert seen + es == es;
    } else {
      RemoveSkips(seen[1..], es, key);
      assert (seen + es)[1..] == seen[1..] + es;
    }
  }
}
