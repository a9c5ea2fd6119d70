/** Little-endian integers over byte sequences (go/other.go, rust/src/utils.rs), and the
    small value types every other module shares. */
module Bytes {

  type byte = x: int | 0 <= x < 256

  /** A Go string or Rust byte vector: both are compared byte by byte. */
  type Str = seq<byte>

  datatype Option<+T> = None | Some(value: T)

  /** A call that returns, or that stops with a run-time panic (a slice bound out of range). */
  datatype Outcome<+T> = Return(value: T) | Panic

  function Pow256(n: nat): (p: nat)
    ensures p > 0
  {
    if n == 0 then 1 else 256 * Pow256(n - 1)
  }

  /** The `n`-byte little-endian encoding of `u`; a larger `u` is truncated, as `uint16(u)` is. */
  function Le(u: nat, n: nat): (b: seq<byte>)
    ensures |b| == n
  {
    if n == 0 then [] else [u % 256] + Le(u / 256, n - 1)
  }

  function FromLe(b: seq<byte>): nat {
    if b == [] then 0 else b[0] + 256 * FromLe(b[1..])
  }

  const MAX_U16: nat := 0xFFFF
  const TWO_63: nat := 0x8000_0000_0000_0000
  const TWO_64: nat := 0x1_0000_0000_0000_0000

  function Get2(b: seq<byte>): nat
    requires |b| >= 2
  {
    FromLe(b[..2])
  }

  function Get8(b: seq<byte>): nat
    requires |b| >= 8
  {
    FromLe(b[..8])
  }

  /** `int64(u)` for a 64-bit unsigned `u`, and `int64` addition: both wrap around. */
  function AsInt64(u: int): int {
    var r := u % TWO_64;
    if r < TWO_63 then r else r - TWO_64
  }

  lemma ConcatAssociative<T>(a: seq<T>, b: seq<T>, c: seq<T>)
    ensures (a + b) + c == a + (b + c)
  {
  }

  /** Cutting a concatenation where it was joined. */
  lemma Cut<T>(a: seq<T>, b: seq<T>)
    ensures (a + b)[..|a|] == a && (a + b)[|a|..] == b
  {
  }

  lemma {:induction false} FromLeLe(u: nat, n: nat)
    ensures FromLe(Le(u, n)) == u % Pow256(n)
  {
    if n != 0 {
      FromLeLe(u / 256, n - 1);
      var p := Pow256(n - 1);
      assert Le(u, n)[1..] == Le(u / 256, n - 1);
      ModSplit(u, p);
    }
  }

  lemma ModSplit(u: nat, p: nat)
    requires p > 0
    ensures u % 256 + 256 * (u / 256 % p) == u % (256 * p)
  {
    var q, r := u / 256, u % 256;
    var a, c := q / p, q % p;
    assert u == 256 * q + r && q == p * a + c;
    assert 256 * (p * a) == (256 * p) * a;
    assert u == (256 * p) * a + (256 * c + r);
    assert 0 <= 256 * c + r < 256 * p;
    DivModUnique(u, 256 * p, a, 256 * c + r);
  }

  lemma DivModUnique(u: nat, d: nat, a: nat, r: nat)
    requires d > 0 && u == d * a + r && r < d
    ensures u % d == r && u / d == a
  {
    var a', r' := u / d, u % d;
    assert u == d * a' + r';
    MulMonotone(d, a + 1, a');
    MulMonotone(d, a' + 1, a);
  }

  lemma MulMonotone(d: nat, x: int, y: int)
    ensures x <= y ==> d * x <= d * y
  {
  }

  lemma {:induction false} LeFromLe(b: seq<byte>)
    ensures FromLe(b) < Pow256(|b|)
    ensures Le(FromLe(b), |b|) == b
  {
    if b != [] {
      var n := FromLe(b[1..]);
      LeFromLe(b[1..]);
      LowByte(b[0], n);
      assert b == [b[0]] + b[1..];
    }
  }

  lemma LowByte(d: byte, n: nat)
    ensures (d + 256 * n) % 256 == d && (d + 256 * n) / 256 == n
  {
  }

  lemma Pow256Values()
    ensures Pow256(2) == MAX_U16 + 1 && Pow256(8) == TWO_64
  {
    assert Pow256(1) == 256;
    assert Pow256(2) == 65536;
    assert Pow256(3) == 0x100_0000;
    assert Pow256(4) == 0x1_0000_0000;
    assert Pow256(5) == 0x100_0000_0000;
    assert Pow256(6) == 0x1_0000_0000_0000;
    assert Pow256(7) == 0x100_0000_0000_0000;
  }

  /** `get2(append2(nil, u))` keeps the low 16 bits, whatever follows. */
  lemma Get2Le(u: nat, rest: seq<byte>)
    ensures Get2(Le(u, 2) + rest) == u % (MAX_U16 + 1)
  {
    assert (Le(u, 2) + rest)[..2] == Le(u, 2);
    FromLeLe(u, 2);
    Pow256Values();
  }

  lemma Get8Le(u: nat, rest: seq<byte>)
    ensures Get8(Le(u, 8) + rest) == u % TWO_64
  {
    assert (Le(u, 8) + rest)[..8] == Le(u, 8);
    FromLeLe(u, 8);
    Pow256Values();
  }

  /** The converse: re-encoding what `get2` read gives back the two bytes. */
  lemma LeGet2(b: seq<byte>)
    requires |b| >= 2
    ensures Get2(b) <= MAX_U16 && Le(Get2(b), 2) == b[..2]
  {
    LeFromLe(b[..2]);
    Pow256Values();
  }

  lemma LeGet8(b: seq<byte>)
    requires |b| >= 8
    ensures Get8(b) < TWO_64 && Le(Get8(b), 8) == b[..8]
  {
    LeFromLe(b[..8]);
    Pow256Values();
  }

  /** The low byte comes first. */
  lemma LittleEndian(b: seq<byte>)
    ensures |b| >= 2 ==> Get2(b) == b[0] as int + 256 * (b[1] as int)
    ensures |b| >= 8 ==>
      Get8(b) == b[0] as int + 0x100 * (b[1] as int) + 0x1_0000 * (b[2] as int)
               + 0x100_0000 * (b[3] as int) + 0x1_0000_0000 * (b[4] as int)
               + 0x100_0000_0000 * (b[5] as int) + 0x1_0000_0000_0000 * (b[6] as int)
               + 0x100_0000_0000_0000 * (b[7] as int)
  {
    if |b| >= 2 { FromLe2(b[0], b[1], []); assert b[..2] == [b[0]] + ([b[1]] + []); }
    if |b| >= 8 {
      var c := b[..8];
      FromLe2(c[0], c[1], c[2..]);
      FromLe2(c[2], c[3], c[4..]);
      FromLe2(c[4], c[5], c[6..]);
      FromLe2(c[6], c[7], []);
      assert c == [c[0]] + ([c[1]] + c[2..]) && c[2..] == [c[2]] + ([c[3]] + c[4..]);
      assert c[4..] == [c[4]] + ([c[5]] + c[6..]) && c[6..] == [c[6]] + ([c[7]] + []);
    }
  }

  lemma FromLe2(x: byte, y: byte, rest: seq<byte>)
    ensures FromLe([x] + ([y] + rest)) == x as int + 256 * (y as int) + 0x1_0000 * FromLe(rest)
  {
    assert ([x] + ([y] + rest))[1..] == [y] + rest && ([y] + rest)[1..] == rest;
  }

  // ----- Sequences -----

  ghost predicate NoDup<T>(s: seq<T>) {
    forall i, j | 0 <= i < j < |s| :: s[i] != s[j]
  }

  /** The sequence without its element `i`. */
  function Without<T>(s: seq<T>, i: nat): seq<T>
    requires i < |s|
  {
    s[..i] + s[i + 1..]
  }

  /** Decimal digits, as `fmt.Sprint` and the canonical type syntax write them. */
  function Decimal(n: nat): (s: string)
    ensures forall c | c in s :: '0' <= c <= '9'
  {
    if n < 10 then [('0' as int + n) as char]
    else Decimal(n / 10) + [('0' as int + n % 10) as char]
  }
}
