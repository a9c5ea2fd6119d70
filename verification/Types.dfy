/** The type expressions of the interface compiler (compiler/src/main.rs) and their sizes. */
module Types {
  import opened Bytes

  datatype Type =
    | I(bits: nat) | U(bits: nat)
    | Uv | Iv | F32 | F64 | Bool
    | Str(size: Option<nat>, nul: bool)
    | Array(elem: Type, len: Option<nat>)
    | Map(key: Type, val: Type, len: Option<nat>)
    | Struct(name: string)
    | Optional(inner: Type)

  // ----- Sizes -----

  /** The result of `usize` arithmetic: past 64 bits a checked build panics. */
  datatype Bits = Exact(n: nat) | Unknown | Overflow | Todo

  function Usize(n: nat): Bits {
    if n < TWO_64 then Exact(n) else Overflow
  }

  function Times(n: nat, b: Bits): Bits {
    if b.Exact? then Usize(n * b.n) else b
  }

  /** `b + c`, where `b` is evaluated first. */
  function Plus(b: Bits, c: Bits): Bits {
    if !b.Exact? then b else if !c.Exact? then c else Usize(b.n + c.n)
  }

  function SizeBits(t: Type): Bits {
    match t
    case I(n) => Exact(n)
    case U(n) => Exact(n)
    case F32 => Exact(32)
    case F64 => Exact(64)
    case Bool => Exact(1)
    case Str(Some(n), _) => Usize(n * 8)
    case Array(e, Some(n)) => Times(n, SizeBits(e))
    case Map(k, v, Some(n)) => Plus(Times(n, SizeBits(k)), Times(n, SizeBits(v)))
    case Optional(e) => Plus(Exact(1), SizeBits(e))
    case _ => Unknown
  }

  function MinSizeBits(t: Type): Bits {
    match t
    case I(n) => Exact(n)
    case U(n) => Exact(n)
    case Uv => Exact(8)
    case Iv => Exact(8)
    case F32 => Exact(32)
    case F64 => Exact(64)
    case Bool => Exact(1)
    case Str(Some(n), nul) => if nul then Exact(8) else Usize(n * 8)
    case Str(None, nul) => if nul then Exact(8) else Exact(32)
    case Array(e, Some(n)) => Times(n, MinSizeBits(e))
    case Array(_, None) => Exact(32)
    case Map(k, v, Some(n)) => Plus(Times(n, MinSizeBits(k)), Times(n, MinSizeBits(v)))
    case Map(_, _, None) => Exact(32)
    case Struct(_) => Todo
    case Optional(_) => Exact(1)
  }

  /** When the size is exact, the minimum is computed, without overflow or `todo!`, and not above. */
  predicate MinFits(t: Type) {
    SizeBits(t).Exact? ==> MinSizeBits(t).Exact? && MinSizeBits(t).n <= SizeBits(t).n
  }

  predicate Everywhere(t: Type) {
    MinFits(t)
    && match t
       case Array(e, _) => Everywhere(e)
       case Map(k, v, _) => Everywhere(k) && Everywhere(v)
       case Optional(e) => Everywhere(e)
       case _ => true
  }

  /** Each sized null-terminated string has room for its terminator. */
  predicate TerminatorsFit(t: Type) {
    match t
    case Str(Some(n), nul) => nul ==> n >= 1
    case Array(e, _) => TerminatorsFit(e)
    case Map(k, v, _) => TerminatorsFit(k) && TerminatorsFit(v)
    case Optional(e) => TerminatorsFit(e)
    case _ => true
  }

  lemma TimesMonotone(n: nat, b: Bits, c: Bits)
    requires c.Exact? ==> b.Exact? && b.n <= c.n
    ensures Times(n, c).Exact? ==> Times(n, b).Exact? && Times(n, b).n <= Times(n, c).n
  {
    if c.Exact? {
      assert n * b.n <= n * c.n;
    }
  }

  lemma {:induction false} MinFitsBelow(t: Type)
    requires TerminatorsFit(t)
    ensures Everywhere(t)
  {
    match t
    case Array(e, len) =>
      MinFitsBelow(e);
      if len.Some? { TimesMonotone(len.value, MinSizeBits(e), SizeBits(e)); }
    case Map(k, v, len) =>
      MinFitsBelow(k);
      MinFitsBelow(v);
      if len.Some? {
        TimesMonotone(len.value, MinSizeBits(k), SizeBits(k));
        TimesMonotone(len.value, MinSizeBits(v), SizeBits(v));
      }
    case Optional(e) => MinFitsBelow(e);
    case _ =>
  }

  /** In a type and all its parts the minimum stays below every exact size exactly when each sized
      null-terminated string has room for its terminator. */
  lemma {:induction false} MinFitsIff(t: Type)
    ensures Everywhere(t) <==> TerminatorsFit(t)
  {
    if TerminatorsFit(t) {
      MinFitsBelow(t);
    } else {
      match t
      case Array(e, _) => MinFitsIff(e);
      case Map(k, v, _) => MinFitsIff(k); MinFitsIff(v);
      case Optional(e) => MinFitsIff(e);
      case _ =>
    }
  }

  /** A sized null-terminated string of length 0 has exactly 0 bits and at least 8. */
  lemma NoRoomForTerminator()
    ensures SizeBits(Str(Some(0), true)) == Exact(0) && MinSizeBits(Str(Some(0), true)) == Exact(8)
    ensures !MinFits(Str(Some(0), true))
  {
  }

  // ----- What the exact size is -----

  function Repeat(xs: seq<nat>, n: nat): seq<nat> {
    if n == 0 then [] else xs + Repeat(xs, n - 1)
  }

  function Sum(xs: seq<nat>): nat {
    if xs == [] then 0 else xs[0] + Sum(xs[1..])
  }

  /** The widths of a value's scalars, one after the other: an array's elements, a map's entries key
      by value, and before an optional value the bit that says whether it is there. */
  function Layout(t: Type): Option<seq<nat>> {
    match t
    case I(n) => Some([n])
    case U(n) => Some([n])
    case F32 => Some([32])
    case F64 => Some([64])
    case Bool => Some([1])
    case Str(Some(n), _) => Some(Repeat([8], n))
    case Array(e, Some(n)) =>
      if Layout(e).None? then None else Some(Repeat(Layout(e).value, n))
    case Map(k, v, Some(n)) =>
      if Layout(k).None? || Layout(v).None? then None
      else Some(Repeat(Layout(k).value + Layout(v).value, n))
    case Optional(e) => if Layout(e).None? then None else Some([1] + Layout(e).value)
    case _ => None
  }

  /** The layout of each bracketed or optional part, and of each string, is below 2^64 bits. */
  predicate FitsUsize(t: Type)
    requires Layout(t).Some?
  {
    match t
    case Str(Some(_), _) => Sum(Layout(t).value) < TWO_64
    case Array(e, Some(_)) => FitsUsize(e) && Sum(Layout(t).value) < TWO_64
    case Map(k, v, Some(_)) => FitsUsize(k) && FitsUsize(v) && Sum(Layout(t).value) < TWO_64
    case Optional(e) => FitsUsize(e) && Sum(Layout(t).value) < TWO_64
    case _ => true
  }

  lemma {:induction false} SumAppend(xs: seq<nat>, ys: seq<nat>)
    ensures Sum(xs + ys) == Sum(xs) + Sum(ys)
  {
    if xs == [] {
      assert xs + ys == ys;
    } else {
      assert (xs + ys)[1..] == xs[1..] + ys;
      SumAppend(xs[1..], ys);
    }
  }

  lemma {:induction false} SumRepeat(xs: seq<nat>, n: nat)
    ensures Sum(Repeat(xs, n)) == n * Sum(xs)
  {
    if n > 0 {
      SumAppend(xs, Repeat(xs, n - 1));
      SumRepeat(xs, n - 1);
      assert n * Sum(xs) == Sum(xs) + (n - 1) * Sum(xs);
    }
  }

  lemma SumOne(x: nat)
    ensures Sum([x]) == x
  {
    assert Sum([x][1..]) == 0;
  }

  lemma EntrySizes(n: nat, a: nat, b: nat)
    ensures n * (a + b) == n * a + n * b
  {
  }

  /** `size_bits` is defined exactly when the type has a fixed layout whose parts stay below 2^64
      bits, and then it is the total width of that layout. */
  lemma {:induction false} SizeIsLayout(t: Type)
    ensures SizeBits(t).Exact? <==> Layout(t).Some? && FitsUsize(t)
    ensures SizeBits(t).Exact? ==> SizeBits(t).n == Sum(Layout(t).value)
    ensures Layout(t).Some? ==> SizeBits(t).Exact? || SizeBits(t).Overflow?
    decreases t
  {
    hide Sum, Repeat;
    match t
    case I(n) => SumOne(n);
    case U(n) => SumOne(n);
    case F32 => SumOne(32);
    case F64 => SumOne(64);
    case Bool => SumOne(1);
    case Str(Some(n), _) =>
      SumOne(8);
      SumRepeat([8], n);
    case Array(e, Some(n)) =>
      SizeIsLayout(e);
      if Layout(e).Some? { SumRepeat(Layout(e).value, n); }
    case Map(k, v, Some(n)) =>
      SizeIsLayout(k);
      SizeIsLayout(v);
      if Layout(k).Some? && Layout(v).Some? {
        var a, b := Layout(k).value, Layout(v).value;
        SumRepeat(a + b, n);
        SumAppend(a, b);
        EntrySizes(n, Sum(a), Sum(b));
      }
    case Optional(e) =>
      SizeIsLayout(e);
      if Layout(e).Some? {
        SumOne(1);
        SumAppend([1], Layout(e).value);
      }
    case _ =>
  }

  /** The widths of the shortest encoding: a string without a size is its terminator or its length, an
      unsized array or map its length, a varint one byte, an absent optional value its one bit. */
  function ShortestLayout(t: Type): Option<seq<nat>> {
    match t
    case Uv => Some([8])
    case Iv => Some([8])
    case Str(_, true) => Some([8])
    case Str(None, false) => Some([32])
    case Array(_, None) => Some([32])
    case Map(_, _, None) => Some([32])
    case Array(e, Some(n)) =>
      if ShortestLayout(e).None? then None else Some(Repeat(ShortestLayout(e).value, n))
    case Map(k, v, Some(n)) =>
      if ShortestLayout(k).None? || ShortestLayout(v).None? then None
      else Some(Repeat(ShortestLayout(k).value + ShortestLayout(v).value, n))
    case Struct(_) => None
    case Optional(_) => Some([1])
    case _ => Layout(t)
  }

  /** When `min_size_bits` is defined, it is the total width of the shortest layout; it is undefined
      only for a struct or past 64 bits. */
  lemma {:induction false} MinIsShortest(t: Type)
    ensures MinSizeBits(t).Exact? ==>
      ShortestLayout(t).Some? && MinSizeBits(t).n == Sum(ShortestLayout(t).value)
    ensures ShortestLayout(t).Some? ==> MinSizeBits(t).Exact? || MinSizeBits(t).Overflow?
    decreases t
  {
    hide Sum, Repeat;
    match t
    case I(n) => SumOne(n);
    case U(n) => SumOne(n);
    case Str(Some(n), nul) =>
      SumOne(8);
      SumRepeat([8], n);
    case Array(e, Some(n)) =>
      MinIsShortest(e);
      if ShortestLayout(e).Some? { SumRepeat(ShortestLayout(e).value, n); }
    case Map(k, v, Some(n)) =>
      MinIsShortest(k);
      MinIsShortest(v);
      if ShortestLayout(k).Some? && ShortestLayout(v).Some? {
        var a, b := ShortestLayout(k).value, ShortestLayout(v).value;
        SumRepeat(a + b, n);
        SumAppend(a, b);
        EntrySizes(n, Sum(a), Sum(b));
      }
    case _ =>
      SumOne(1);
      SumOne(8);
      SumOne(32);
      SumOne(64);
  }
}
