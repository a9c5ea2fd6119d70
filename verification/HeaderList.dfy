/** Header blocks as association lists.

    A header block is a run of entries: two-byte key length, two-byte value length, key, value.
    `Scan` is what a block means; `Tail` is what is left after the last complete entry. */
module HeaderList {
  import opened Bytes

  datatype Entry = Entry(key: Str, val: Str) {
    function Size(): nat { |key| + |val| }
    predicate Fits() { |key| <= MAX_U16 && |val| <= MAX_U16 }
  }

  ghost predicate AllFit(es: seq<Entry>) {
    forall i | 0 <= i < |es| :: es[i].Fits()
  }

  /** No entry reaches the point where the 16-bit sum of its two lengths wraps. */
  ghost predicate AllNarrow(es: seq<Entry>) {
    forall i | 0 <= i < |es| :: es[i].Size() <= MAX_U16
  }

  function EncodeEntry(e: Entry): seq<byte> {
    Le(|e.key|, 2) + Le(|e.val|, 2) + e.key + e.val
  }

  function EncodeAll(es: seq<Entry>): seq<byte> {
    if es == [] then [] else EncodeEntry(es[0]) + EncodeAll(es[1..])
  }

  function SumKv(es: seq<Entry>): nat {
    if es == [] then 0 else SumKv(es[..|es| - 1]) + es[|es| - 1].Size()
  }

  // ----- What a byte string means -----

  function KeyLen(b: seq<byte>): nat requires |b| >= 4 { Get2(b) }

  function ValLen(b: seq<byte>): nat requires |b| >= 4 { Get2(b[2..]) }

  /** The block starts with a whole entry. */
  predicate Complete(b: seq<byte>) {
    |b| >= 4 && KeyLen(b) + ValLen(b) <= |b| - 4
  }

  function Head(b: seq<byte>): Entry
    requires Complete(b)
  {
    var kl, kvl := KeyLen(b), KeyLen(b) + ValLen(b);
    Entry(b[4..][..kl], b[4..][kl..kvl])
  }

  function Rest(b: seq<byte>): seq<byte>
    requires Complete(b)
  {
    b[4..][KeyLen(b) + ValLen(b)..]
  }

  function Scan(b: seq<byte>): seq<Entry>
    decreases |b|
  {
    if Complete(b) then [Head(b)] + Scan(Rest(b)) else []
  }

  function Tail(b: seq<byte>): seq<byte>
    decreases |b|
  {
    if Complete(b) then Tail(Rest(b)) else b
  }

  predicate WellFormed(b: seq<byte>) {
    Tail(b) == []
  }

  // ----- Association lists -----

  /** The value of the first entry with this key. */
  function Lookup(es: seq<Entry>, key: Str): Option<Str> {
    if es == [] then None
    else if es[0].key == key then Some(es[0].val)
    else Lookup(es[1..], key)
  }

  function RemoveFirst(es: seq<Entry>, key: Str): seq<Entry> {
    if es == [] then []
    else if es[0].key == key then es[1..]
    else [es[0]] + RemoveFirst(es[1..], key)
  }

  /** The map in which a later entry replaces an earlier one with the same key. */
  function ToMap(es: seq<Entry>): map<Str, Str> {
    if es == [] then map[] else map[es[0].key := es[0].val] + ToMap(es[1..])
  }

  function MapGet(m: map<Str, Str>, key: Str): Option<Str> {
    if key in m then Some(m[key]) else None
  }

  // ----- Encoding and scanning are inverse -----

  lemma HeadEncode(e: Entry, t: seq<byte>)
    requires e.Fits()
    ensures Complete(EncodeEntry(e) + t)
    ensures Head(EncodeEntry(e) + t) == e && Rest(EncodeEntry(e) + t) == t
    ensures |EncodeEntry(e)| == 4 + e.Size()
  {
    hide Le, FromLe;
    var b := EncodeEntry(e) + t;
    var kl, vl, body := Le(|e.key|, 2), Le(|e.val|, 2), e.key + e.val + t;
    assert b == kl + (vl + body);
    assert b[2..] == vl + body;
    assert b[4..] == body;
    Get2Le(|e.key|, vl + body);
    Get2Le(|e.val|, body);
    BodySplits(e.key, e.val, t);
  }

  lemma BodySplits(k: Str, v: Str, t: seq<byte>)
    ensures var body := k + v + t;
      body[..|k|] == k && body[|k|..|k| + |v|] == v && body[|k| + |v|..] == t
  {
  }

  /** An entry: key length, value length, key, value. */
  lemma EntryLayout(e: Entry)
    requires e.Fits()
    ensures var b, n := EncodeEntry(e), 4 + |e.key|;
      && |b| == n + |e.val|
      && b[0] as int + 256 * (b[1] as int) == |e.key|
      && b[2] as int + 256 * (b[3] as int) == |e.val|
      && b[4..n] == e.key && b[n..] == e.val
  {
    hide Le, FromLe;
    var b := EncodeEntry(e);
    HeadEncode(e, []);
    assert b + [] == b;
    LittleEndian(b);
    LittleEndian(b[2..]);
    var u := b[4..];
    LeGet2(b);
    LeGet2(b[2..]);
    assert |Head(b).key| == KeyLen(b) && |Head(b).val| == ValLen(b);
    assert u[KeyLen(b) + ValLen(b)..] == [];
    assert b[4..4 + |e.key|] == u[..|e.key|] && b[4 + |e.key|..] == u[|e.key|..];
    assert u[|e.key|..] == u[|e.key|..|e.key| + |e.val|];
  }

  lemma EncodeHead(b: seq<byte>)
    requires Complete(b)
    ensures Head(b).Fits() && b == EncodeEntry(Head(b)) + Rest(b)
  {
    hide Le, FromLe;
    LeGet2(b);
    LeGet2(b[2..]);
    var e, lens, u := Head(b), b[..2] + b[2..][..2], b[4..];
    assert |e.key| == KeyLen(b) && |e.val| == ValLen(b);
    assert b == lens + u;
    assert u == (e.key + e.val) + Rest(b);
    ConcatAssociative(lens, e.key + e.val, Rest(b));
    ConcatAssociative(lens, e.key, e.val);
  }

  lemma ScanStep(e: Entry, t: seq<byte>)
    requires e.Fits()
    ensures Scan(EncodeEntry(e) + t) == [e] + Scan(t)
    ensures Tail(EncodeEntry(e) + t) == Tail(t)
  {
    var b := EncodeEntry(e) + t;
    HeadEncode(e, t);
    assert Scan(b) == [Head(b)] + Scan(Rest(b));
  }

  /** Whatever follows, a scan finds exactly the encoded entries first. */
  lemma {:induction false} ScanEncode(es: seq<Entry>, t: seq<byte>)
    requires AllFit(es)
    ensures Scan(EncodeAll(es) + t) == es + Scan(t)
    ensures Tail(EncodeAll(es) + t) == Tail(t)
  {
    hide Complete, Head, Rest, EncodeEntry;
    if es == [] {
      assert EncodeAll(es) + t == t;
    } else {
      var u := EncodeAll(es[1..]) + t;
      var b := EncodeAll(es) + t;
      assert b == EncodeEntry(es[0]) + u;
      ScanStep(es[0], u);
      ScanEncode(es[1..], t);
      assert es == [es[0]] + es[1..];
      ConcatAssociative([es[0]], es[1..], Scan(t));
    }
  }

  /** Every byte string splits in exactly one way: its complete entries, encoded, then the tail. */
  lemma {:induction false} ScanDecompose(b: seq<byte>)
    ensures b == EncodeAll(Scan(b)) + Tail(b)
    ensures AllFit(Scan(b)) && !Complete(Tail(b))
    decreases |b|
  {
    if Complete(b) {
      EncodeHead(b);
      ScanDecompose(Rest(b));
      var es := Scan(Rest(b));
      assert Scan(b) == [Head(b)] + es;
      assert Scan(b)[1..] == es;
      assert EncodeAll(Scan(b)) == EncodeEntry(Head(b)) + EncodeAll(es);
    }
  }

  /** The well-formed blocks are the encodings, and a block has one reading. */
  lemma WellFormedIsEncoding(b: seq<byte>)
    ensures WellFormed(b) <==> b == EncodeAll(Scan(b))
    ensures forall es | AllFit(es) :: b == EncodeAll(es) <==> WellFormed(b) && Scan(b) == es
  {
    ScanDecompose(b);
    forall es | AllFit(es)
      ensures b == EncodeAll(es) <==> WellFormed(b) && Scan(b) == es
    {
      ScanEncode(es, []);
      assert EncodeAll(es) + [] == EncodeAll(es);
    }
  }

  lemma {:induction false} EncodeAppend(es: seq<Entry>, fs: seq<Entry>)
    ensures EncodeAll(es + fs) == EncodeAll(es) + EncodeAll(fs)
  {
    if es == [] {
      assert es + fs == fs;
    } else {
      hide EncodeEntry;
      EncodeAppend(es[1..], fs);
      assert (es + fs)[1..] == es[1..] + fs;
      ConcatAssociative(EncodeEntry(es[0]), EncodeAll(es[1..]), EncodeAll(fs));
    }
  }

  lemma EncodeSnoc(es: seq<Entry>, e: Entry)
    ensures EncodeAll(es + [e]) == EncodeAll(es) + EncodeEntry(e)
  {
    EncodeAppend(es, [e]);
    assert EncodeAll([e]) == EncodeEntry(e) + EncodeAll([e][1..]);
  }

  lemma SumKvSnoc(es: seq<Entry>, e: Entry)
    ensures SumKv(es + [e]) == SumKv(es) + e.Size()
  {
    assert (es + [e])[..|es|] == es;
  }

  lemma {:induction false} EncodedLength(es: seq<Entry>)
    ensures |EncodeAll(es)| == 4 * |es| + SumKv(es)
  {
    if es != [] {
      var n := |es| - 1;
      EncodedLength(es[..n]);
      EncodeSnoc(es[..n], es[n]);
      assert es == es[..n] + [es[n]];
    }
  }

  lemma {:induction false} EachWithinSum(es: seq<Entry>, i: nat)
    requires i < |es|
    ensures es[i].Size() <= SumKv(es)
  {
    if i < |es| - 1 {
      EachWithinSum(es[..|es| - 1], i);
    }
  }

  // ----- Laws of association lists -----

  lemma {:induction false} LookupAppend(es: seq<Entry>, fs: seq<Entry>, key: Str)
    ensures Lookup(es + fs, key)
         == if Lookup(es, key).Some? then Lookup(es, key) else Lookup(fs, key)
  {
    if es == [] {
      assert es + fs == fs;
    } else {
      assert (es + fs)[1..] == es[1..] + fs;
      LookupAppend(es[1..], fs, key);
    }
  }

  /** Dropping element `j` behind the first one is dropping element `j + 1`. */
  lemma DropBehind(es: seq<Entry>, j: nat)
    requires j + 1 < |es|
    ensures [es[0]] + (es[1..][..j] + es[1..][j + 1..]) == es[..j + 1] + es[j + 1 + 1..]
  {
    assert es[1..][..j] == es[1..j + 1];
    assert es[1..][j + 1..] == es[j + 1 + 1..];
    assert [es[0]] + es[1..j + 1] == es[..j + 1];
    ConcatAssociative([es[0]], es[1..j + 1], es[j + 1 + 1..]);
  }

  /** Where the key comes first, or the length. */
  function KeyIndex(es: seq<Entry>, key: Str): (i: nat)
    ensures i <= |es|
  {
    if es == [] || es[0].key == key then 0 else 1 + KeyIndex(es[1..], key)
  }

  lemma {:induction false} KeyIndexFirst(es: seq<Entry>, key: Str)
    ensures var i := KeyIndex(es, key);
      && (forall j | 0 <= j < i :: es[j].key != key)
      && Lookup(es, key) == (if i < |es| then Some(es[i].val) else None)
      && (i < |es| ==> es[i].key == key)
  {
    if es != [] && es[0].key != key {
      var rest := es[1..];
      KeyIndexFirst(rest, key);
      forall k | 0 <= k < KeyIndex(es, key) ensures es[k].key != key {
        if k > 0 { assert es[k] == rest[k - 1]; }
      }
    }
  }

  lemma {:induction false} RemovesAtIndex(es: seq<Entry>, key: Str)
    ensures var i := KeyIndex(es, key);
      RemoveFirst(es, key) == if i < |es| then es[..i] + es[i + 1..] else es
  {
    if es == [] {
    } else if es[0].key == key {
      assert es[..0] + es[1..] == es[1..];
    } else {
      var rest := es[1..];
      RemovesAtIndex(rest, key);
      if KeyIndex(rest, key) < |rest| {
        DropBehind(es, KeyIndex(rest, key));
      } else {
        assert [es[0]] + rest == es;
      }
    }
  }

  /** `RemoveFirst` deletes exactly the first entry with the key: it splits the list there. */
  lemma RemoveFirstSplits(es: seq<Entry>, key: Str) returns (i: nat)
    ensures i <= |es| && (i < |es| <==> Lookup(es, key).Some?)
    ensures forall j | 0 <= j < i :: es[j].key != key
    ensures i < |es| ==> es[i] == Entry(key, Lookup(es, key).value)
    ensures RemoveFirst(es, key) == if i < |es| then es[..i] + es[i + 1..] else es
  {
    i := KeyIndex(es, key);
    KeyIndexFirst(es, key);
    RemovesAtIndex(es, key);
  }

  lemma {:induction false} ToMapAppend(es: seq<Entry>, fs: seq<Entry>)
    ensures ToMap(es + fs) == ToMap(es) + ToMap(fs)
  {
    if es == [] {
      assert es + fs == fs;
    } else {
      assert (es + fs)[1..] == es[1..] + fs;
      ToMapAppend(es[1..], fs);
      MergeAssociative(map[es[0].key := es[0].val], ToMap(es[1..]), ToMap(fs));
    }
  }

  lemma MergeAssociative(a: map<Str, Str>, b: map<Str, Str>, c: map<Str, Str>)
    ensures (a + b) + c == a + (b + c)
  {
  }

  /** With distinct keys, first match and last wins are the same rule. */
  lemma {:induction false} FirstIsLast(es: seq<Entry>, key: Str)
    requires forall i, j | 0 <= i < j < |es| :: es[i].key != es[j].key
    ensures MapGet(ToMap(es), key) == Lookup(es, key)
  {
    if es != [] {
      FirstIsLast(es[1..], key);
      if es[0].key == key {
        LookupMissing(es[1..], key);
      }
    }
  }

  lemma {:induction false} LookupMissing(es: seq<Entry>, key: Str)
    requires forall i | 0 <= i < |es| :: es[i].key != key
    ensures Lookup(es, key) == None
  {
    if es != [] {
      LookupMissing(es[1..], key);
    }
  }
}
