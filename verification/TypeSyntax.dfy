/** The parser of type expressions (compiler/src/main.rs `Type::from_str`) and the types it reaches. */
module TypeSyntax {
  import opened Bytes
  import opened Types

  datatype Error = Missing | BadNumber | Invalid(s: string)
  datatype Result<T> = Ok(value: T) | Err(error: Error)

  // ----- Characters and pieces of strings -----

  predicate IsDigit(c: char) { '0' <= c <= '9' }

  predicate IsLetter(c: char) { 'a' <= c <= 'z' || 'A' <= c <= 'Z' }

  /** Unicode's White_Space, which `str::trim` removes. */
  predicate IsSpace(c: char) {
    var n := c as int;
    || 9 <= n <= 13 || n == 0x20 || n == 0x85 || n == 0xA0 || n == 0x1680 || 0x2000 <= n <= 0x200A
    || n == 0x2028 || n == 0x2029 || n == 0x202F || n == 0x205F || n == 0x3000
  }

  predicate AllDigits(s: string) {
    forall c | c in s :: IsDigit(c)
  }

  function Trim(s: string): (r: string)
    ensures |r| <= |s| && forall c | c in r :: c in s
  {
    if s == "" then ""
    else if IsSpace(s[0]) then Trim(s[1..])
    else if IsSpace(s[|s| - 1]) then Trim(s[..|s| - 1])
    else s
  }

  /** Where `c` first occurs, or the length. */
  function Index(s: string, c: char): (i: nat)
    ensures i <= |s| && (i < |s| ==> s[i] == c) && c !in s[..i]
  {
    if s == "" || s[0] == c then 0
    else
      var i := 1 + Index(s[1..], c);
      assert s[..i] == [s[0]] + s[1..][..i - 1];
      i
  }

  predicate IsValidName(s: string) {
    s != "" && IsLetter(s[0]) && forall c | c in s :: IsLetter(c) || IsDigit(c) || c == '_'
  }

  /** Every part between dots is a valid name. */
  predicate IsValidPath(s: string)
    decreases |s|
  {
    var i := Index(s, '.');
    IsValidName(s[..i]) && (i < |s| ==> IsValidPath(s[i + 1..]))
  }

  function Value(s: string): nat
    requires AllDigits(s)
  {
    if s == "" then 0
    else
      assert s[|s| - 1] in s;
      Value(s[..|s| - 1]) * 10 + (s[|s| - 1] as int - '0' as int)
  }

  /** `str::parse::<usize>`: decimal digits after an optional plus sign, below 2^64. */
  function ParseUsize(s: string): Option<nat> {
    var digits := if s != "" && s[0] == '+' then s[1..] else s;
    if digits == "" || !AllDigits(digits) || Value(digits) >= TWO_64 then None
    else Some(Value(digits))
  }

  // ----- The parser -----

  predicate Enclosed(s: string) {
    |s| >= 2 && s[0] == '[' && s[|s| - 1] == ']'
  }

  /** An integer type without width, or with digits that are too many, is an error and not a name. */
  predicate IsInt(s: string, letter: char) {
    s != "" && s[0] == letter && AllDigits(s[1..])
  }

  /** The part before the first semicolon and the length after it. */
  function SplitLength(s: string): (r: Result<(string, Option<nat>)>)
    ensures r.Ok? ==> |r.value.0| <= |s|
  {
    var i := Index(s, ';');
    if i == |s| then Ok((s, None))
    else
      match ParseUsize(Trim(s[i + 1..]))
      case None => Err(BadNumber)
      case Some(n) => Ok((s[..i], Some(n)))
  }

  function FromStr(s: string): Result<Type>
    decreases |s|
  {
    if s == "" then Err(Missing)
    else if IsInt(s, 'i') then
      match ParseUsize(s[1..]) case Some(n) => Ok(I(n)) case None => Err(BadNumber)
    else if IsInt(s, 'u') then
      match ParseUsize(s[1..]) case Some(n) => Ok(U(n)) case None => Err(BadNumber)
    else if s == "uv" then Ok(Uv)
    else if s == "iv" then Ok(Iv)
    else if s == "f32" then Ok(F32)
    else if s == "f64" then Ok(F64)
    else if s == "bool" then Ok(Bool)
    else if s == "str" then Ok(Str(None, false))
    else if Enclosed(s) then
      match SplitLength(s[1..|s| - 1])
      case Err(e) => Err(e)
      case Ok((rest, len)) =>
        var i := Index(rest, ',');
        if i < |rest| then
          match FromStr(Trim(rest[..i]))
          case Err(e) => Err(e)
          case Ok(k) =>
            match FromStr(Trim(rest[i + 1..]))
            case Err(e) => Err(e)
            case Ok(v) => Ok(Map(k, v, len))
        else
          match FromStr(Trim(rest))
          case Err(e) => Err(e)
          case Ok(t) => Ok(Array(t, len))
    else if IsValidPath(s) then Ok(Struct(s))
    else Err(Invalid(s))
  }

  // ----- The types it reaches -----

  predicate LenFits(len: Option<nat>) {
    len.Some? ==> len.value < TWO_64
  }

  predicate Keyword(s: string) {
    s == "uv" || s == "iv" || s == "f32" || s == "f64" || s == "bool" || s == "str"
  }

  predicate Leaf(t: Type) {
    match t
    case I(n) => n < TWO_64
    case U(n) => n < TWO_64
    case Str(size, nul) => size.None? && !nul
    case Struct(s) => IsValidPath(s) && !Keyword(s) && !IsInt(s, 'i') && !IsInt(s, 'u')
    case Array(_, _) => false
    case Map(_, _, _) => false
    case Optional(_) => false
    case _ => true
  }

  /** A type inside a bracket: no lengths, and maps only where commas may stand. */
  predicate Inner(t: Type, commas: bool) {
    match t
    case Array(e, len) => len.None? && Inner(e, false)
    case Map(k, v, len) => commas && len.None? && Inner(k, false) && Inner(v, true)
    case _ => Leaf(t)
  }

  /** A length only on the outermost bracket; map keys and array elements without maps; neither
      optional types nor strings with a size. */
  predicate Accepted(t: Type) {
    match t
    case Array(e, len) => LenFits(len) && Inner(e, false)
    case Map(k, v, len) => LenFits(len) && Inner(k, false) && Inner(v, true)
    case _ => Leaf(t)
  }

  // ----- The canonical syntax -----

  function LenSuffix(len: Option<nat>): string {
    match len case None => "" case Some(n) => ";" + Decimal(n)
  }

  function Print(t: Type): string {
    match t
    case I(n) => "i" + Decimal(n)
    case U(n) => "u" + Decimal(n)
    case Uv => "uv"
    case Iv => "iv"
    case F32 => "f32"
    case F64 => "f64"
    case Bool => "bool"
    case Str(_, _) => "str"
    case Array(e, len) => "[" + (Print(e) + LenSuffix(len)) + "]"
    case Map(k, v, len) => "[" + (Print(k) + "," + Print(v) + LenSuffix(len)) + "]"
    case Struct(s) => s
    case Optional(e) => Print(e) + "?"
  }

  // ----- What is parsed is accepted -----

  lemma ParsedNumber(s: string)
    ensures ParseUsize(s).Some? ==> ParseUsize(s).value < TWO_64
  {
  }

  lemma SplitLengthParts(s: string)
    requires SplitLength(s).Ok?
    ensures var (rest, len) := SplitLength(s).value;
      && LenFits(len) && ';' !in rest
      && (',' !in s ==> ',' !in rest) && (';' !in s ==> len.None?)
  {
    var i := Index(s, ';');
    if i == |s| {
      assert s[..i] == s;
    } else {
      assert s[i] in s;
    }
  }

  lemma IndexMisses(s: string, c: char)
    ensures Index(s, c) == |s| <==> c !in s
  {
    var i := Index(s, c);
    if i == |s| {
      assert s[..i] == s;
    } else {
      assert s[i] in s;
    }
  }

  /** The result's children are types that fit inside a bracket; no semicolon in the text, no length
      on the type; no comma in the text, no map. */
  lemma {:induction false} ParsedShape(s: string)
    requires FromStr(s).Ok?
    ensures var t := FromStr(s).value;
      && Accepted(t)
      && (';' !in s ==> Inner(t, true))
      && (';' !in s && ',' !in s ==> Inner(t, false))
    decreases |s|
  {
    hide Index, ParseUsize, Trim, SplitLength, IsSpace;
    if IsInt(s, 'i') || IsInt(s, 'u') {
      ParsedNumber(s[1..]);
    } else if !Keyword(s) && Enclosed(s) {
      BracketShape(s);
    }
  }

  lemma BracketShape(s: string)
    requires Enclosed(s) && !IsInt(s, 'i') && !IsInt(s, 'u') && FromStr(s).Ok?
    ensures var t := FromStr(s).value;
      && Accepted(t)
      && (';' !in s ==> Inner(t, true))
      && (';' !in s && ',' !in s ==> Inner(t, false))
    decreases |s|, 0
  {
    hide Index, ParseUsize, Trim, SplitLength, IsSpace, Leaf;
    var inner := s[1..|s| - 1];
    SplitLengthParts(inner);
    var (rest, len) := SplitLength(inner).value;
    IndexMisses(rest, ',');
    var i := Index(rest, ',');
    if i < |rest| {
      ParsedShape(Trim(rest[..i]));
      ParsedShape(Trim(rest[i + 1..]));
    } else {
      ParsedShape(Trim(rest));
    }
  }

  // ----- Numbers -----

  lemma {:induction false} DecimalValue(n: nat)
    ensures var s := Decimal(n); s != "" && AllDigits(s) && Value(s) == n
  {
    var s := Decimal(n);
    if n < 10 {
      assert s[..|s| - 1] == "";
    } else {
      DecimalValue(n / 10);
      assert s[..|s| - 1] == Decimal(n / 10);
    }
  }

  lemma DecimalParses(n: nat)
    ensures ParseUsize(Decimal(n)) == if n < TWO_64 then Some(n) else None
  {
    hide Decimal, Value;
    DecimalValue(n);
    assert Decimal(n)[0] in Decimal(n);
  }

  // ----- What a printed type looks like -----

  lemma TrimKeeps(s: string)
    requires s != "" && !IsSpace(s[0]) && !IsSpace(s[|s| - 1])
    ensures Trim(s) == s
  {
  }

  /** A printed number is digits only, and starts and ends without white space. */
  lemma DecimalTrimmed(n: nat)
    ensures var s := Decimal(n);
      && s != "" && AllDigits(s) && Trim(s) == s
      && ',' !in s && ';' !in s && !IsSpace(s[0]) && !IsSpace(s[|s| - 1])
  {
    hide Decimal, Value;
    DecimalValue(n);
    var s := Decimal(n);
    assert s[0] in s && s[|s| - 1] in s;
  }

  predicate NameChar(c: char) { IsLetter(c) || IsDigit(c) || c == '_' || c == '.' }

  lemma {:induction false} PathChars(s: string)
    requires IsValidPath(s)
    ensures s != "" && IsLetter(s[0]) && forall c | c in s :: NameChar(c)
    decreases |s|
  {
    var i := Index(s, '.');
    assert s[..i][0] == s[0];
    if i < |s| {
      PathChars(s[i + 1..]);
      assert s == s[..i] + [s[i]] + s[i + 1..];
    } else {
      assert s[..i] == s;
    }
  }

  predicate Clean(s: string, commas: bool) {
    && s != "" && !IsSpace(s[0]) && !IsSpace(s[|s| - 1])
    && ';' !in s && (',' in s ==> commas)
  }

  lemma NumberClean(a: char, n: nat)
    requires IsLetter(a)
    ensures var s := [a] + Decimal(n); Clean(s, false) && !Enclosed(s)
  {
    hide Decimal;
    DecimalTrimmed(n);
    LastOf([a], Decimal(n));
  }

  lemma LeafClean(t: Type)
    requires Leaf(t)
    ensures Clean(Print(t), false) && !Enclosed(Print(t))
  {
    hide Decimal, IsValidPath;
    match t
    case I(n) => NumberClean('i', n);
    case U(n) => NumberClean('u', n);
    case Struct(s) =>
      PathChars(s);
      assert s[|s| - 1] in s && s[0] in s;
    case _ =>
  }

  lemma LastOf(a: string, b: string)
    requires b != ""
    ensures (a + b)[|a + b| - 1] == b[|b| - 1]
  {
  }

  lemma BracketClean(s: string, commas: bool)
    requires ';' !in s && (',' in s ==> commas)
    ensures Clean("[" + s + "]", commas) && Enclosed("[" + s + "]")
  {
  }

  lemma {:induction false} InnerClean(t: Type, commas: bool)
    requires Inner(t, commas)
    ensures Clean(Print(t), commas)
  {
    match t
    case Array(e, _) =>
      InnerClean(e, false);
      BracketClean(Print(e) + "", commas);
    case Map(k, v, _) =>
      InnerClean(k, false);
      InnerClean(v, true);
      BracketClean(Print(k) + "," + Print(v) + "", commas);
    case _ => LeafClean(t);
  }

  // ----- Parsing what is printed -----

  lemma LeafParses(t: Type)
    requires Leaf(t)
    ensures FromStr(Print(t)) == Ok(t)
  {
    hide Decimal, IsValidPath, SplitLength, ParseUsize;
    match t
    case I(n) =>
      DecimalTrimmed(n);
      DecimalParses(n);
      assert ("i" + Decimal(n))[1..] == Decimal(n);
    case U(n) =>
      DecimalTrimmed(n);
      DecimalParses(n);
      assert ("u" + Decimal(n))[1..] == Decimal(n);
    case Struct(s) => PathChars(s);
    case _ => NotInts();
  }

  lemma NotInts()
    ensures !IsInt("uv", 'u') && !IsInt("iv", 'i')
  {
    assert "uv"[1..][0] == 'v' && 'v' in "uv"[1..];
    assert "iv"[1..][0] == 'v' && 'v' in "iv"[1..];
  }

  lemma FirstIs(s: string, c: char, n: nat)
    requires n < |s| && s[n] == c && forall j | 0 <= j < n :: s[j] != c
    ensures Index(s, c) == n
  {
    if n > 0 {
      FirstIs(s[1..], c, n - 1);
    }
  }

  lemma IndexOfFirst(a: string, c: char, b: string)
    requires c !in a
    ensures Index(a + [c] + b, c) == |a|
    ensures (a + [c] + b)[..|a|] == a && (a + [c] + b)[|a| + 1..] == b
  {
    var s := a + [c] + b;
    assert s[|a|] == c;
    forall j | 0 <= j < |a| ensures s[j] != c {
      assert s[j] in a;
    }
    FirstIs(s, c, |a|);
  }

  lemma SplitsPrinted(s: string, len: Option<nat>)
    requires ';' !in s && LenFits(len)
    ensures SplitLength(s + LenSuffix(len)) == Ok((s, len))
  {
    hide Index, ParseUsize, Decimal, Trim;
    match len
    case None =>
      assert s + "" == s;
      IndexMisses(s, ';');
    case Some(n) =>
      DecimalTrimmed(n);
      DecimalParses(n);
      assert s + (";" + Decimal(n)) == s + [';'] + Decimal(n);
      IndexOfFirst(s, ';', Decimal(n));
  }

  lemma BracketParses(s: string)
    ensures var b := "[" + s + "]";
      && Enclosed(b) && b[1..|b| - 1] == s
      && b != "" && !Keyword(b) && !IsInt(b, 'i') && !IsInt(b, 'u')
  {
    var b := "[" + s + "]";
    assert b[0] == '[';
  }

  lemma ArrayParses(e: Type, len: Option<nat>)
    requires LenFits(len) && Inner(e, false) && FromStr(Print(e)) == Ok(e)
    ensures FromStr(Print(Array(e, len))) == Ok(Array(e, len))
  {
    hide Index, ParseUsize, Decimal, Trim, SplitLength, LenSuffix, IsSpace, Leaf;
    var s := Print(e);
    InnerClean(e, false);
    TrimKeeps(s);
    SplitsPrinted(s, len);
    IndexMisses(s, ',');
    BracketParses(s + LenSuffix(len));
  }

  /** A bracket with a comma, in terms of its parts. */
  lemma MapBracket(b: string, rest: string, len: Option<nat>, k: Type, v: Type)
    requires Enclosed(b) && !Keyword(b) && !IsInt(b, 'i') && !IsInt(b, 'u')
    requires SplitLength(b[1..|b| - 1]) == Ok((rest, len))
    requires var i := Index(rest, ',');
      i < |rest| && FromStr(Trim(rest[..i])) == Ok(k) && FromStr(Trim(rest[i + 1..])) == Ok(v)
    ensures FromStr(b) == Ok(Map(k, v, len))
  {
    hide Index, ParseUsize, Trim, SplitLength, IsSpace, AllDigits;
  }

  lemma MapParses(k: Type, v: Type, len: Option<nat>)
    requires LenFits(len) && Inner(k, false) && Inner(v, true)
    requires FromStr(Print(k)) == Ok(k) && FromStr(Print(v)) == Ok(v)
    ensures FromStr(Print(Map(k, v, len))) == Ok(Map(k, v, len))
  {
    hide Index, ParseUsize, Decimal, Trim, SplitLength, LenSuffix, IsSpace, Leaf, FromStr, Inner,
      IsInt, Keyword;
    var s := Print(k) + "," + Print(v);
    InnerClean(k, false);
    InnerClean(v, true);
    TrimKeeps(Print(k));
    TrimKeeps(Print(v));
    SplitsPrinted(s, len);
    IndexOfFirst(Print(k), ',', Print(v));
    BracketParses(s + LenSuffix(len));
    MapBracket(Print(Map(k, v, len)), s, len, k, v);
  }

  lemma InnerAccepted(t: Type, commas: bool)
    requires Inner(t, commas)
    ensures Accepted(t)
  {
  }

  lemma {:induction false} PrintedParses(t: Type)
    requires Accepted(t)
    ensures FromStr(Print(t)) == Ok(t)
    decreases t
  {
    hide FromStr, Print, Leaf;
    match t
    case Array(e, len) =>
      InnerAccepted(e, false);
      PrintedParses(e);
      ArrayParses(e, len);
    case Map(k, v, len) =>
      InnerAccepted(k, false);
      InnerAccepted(v, true);
      PrintedParses(k);
      PrintedParses(v);
      MapParses(k, v, len);
    case _ => LeafParses(t);
  }

  // ----- Main results -----

  /** For every type tree: its canonical text is parsed to the tree itself exactly when lengths are
      only on the outermost bracket, keys and elements hold no maps, numbers fit 64 bits, struct
      names are valid and no type is optional. */
  lemma RoundTripIff(t: Type)
    ensures FromStr(Print(t)) == Ok(t) <==> Accepted(t)
  {
    hide FromStr, Print, Accepted;
    if Accepted(t) {
      PrintedParses(t);
    } else if FromStr(Print(t)) == Ok(t) {
      ParsedShape(Print(t));
    }
  }

  /** For every accepted text: printing the tree and parsing again gives the same tree. */
  lemma Reparses(s: string)
    requires FromStr(s).Ok?
    ensures FromStr(Print(FromStr(s).value)) == FromStr(s)
  {
    hide FromStr, Print, Accepted;
    ParsedShape(s);
    PrintedParses(FromStr(s).value);
  }

  /** Two accepted trees have the same canonical text only if they are the same tree. */
  lemma PrintInjective(t: Type, u: Type)
    requires Accepted(t) && Accepted(u) && Print(t) == Print(u)
    ensures t == u
  {
    hide FromStr, Print, Accepted;
    PrintedParses(t);
    PrintedParses(u);
  }

  /** The question mark of the documented optional types is never accepted. */
  lemma OptionalRefused(s: string)
    ensures FromStr(s + "?").Err?
  {
    var q := s + "?";
    assert q[|q| - 1] == '?' && '?' in q;
    if IsInt(q, 'i') || IsInt(q, 'u') {
      assert s != "";
      assert q[1..][|q| - 2] == '?';
    } else if IsValidPath(q) {
      PathChars(q);
    }
  }

  predicate Blank(s: string) {
    forall c | c in s :: IsSpace(c)
  }

  /** A text with white space on both sides. */
  datatype Padded = Padded(before: string, text: string, after: string) {
    function Text(): string { before + text + after }
    predicate Valid() {
      Blank(before) && Blank(after)
      && text != "" && !IsSpace(text[0]) && !IsSpace(text[|text| - 1])
    }
  }

  lemma {:induction false} TrimPadded(p: Padded)
    requires p.Valid()
    ensures Trim(p.Text()) == p.text
    decreases |p.before| + |p.after|
  {
    var s := p.Text();
    if p.before != "" {
      assert s[0] == p.before[0] && p.before[0] in p.before;
      assert s[1..] == p.(before := p.before[1..]).Text();
      TrimPadded(p.(before := p.before[1..]));
    } else if p.after != "" {
      var n := |p.after| - 1;
      assert s[|s| - 1] == p.after[n] && p.after[n] in p.after;
      assert s[..|s| - 1] == p.(after := p.after[..n]).Text();
      assert s[0] == p.text[0];
      TrimPadded(p.(after := p.after[..n]));
    } else {
      assert s == p.text;
      TrimKeeps(s);
    }
  }

  /** A character that is not white space is in the padded text exactly if it is in the text. */
  lemma PaddedInk(p: Padded, c: char)
    requires p.Valid() && !IsSpace(c)
    ensures c in p.Text() <==> c in p.text
  {
  }

  /** White space around a key, a value and a length does not matter. */
  lemma BlanksIgnored(k: Padded, v: Padded, n: Padded, key: Type, val: Type, len: nat)
    requires k.Valid() && v.Valid() && n.Valid()
    requires Inner(key, false) && k.text == Print(key) && Inner(val, true) && v.text == Print(val)
    requires ParseUsize(n.text) == Some(len)
    ensures FromStr("[" + (k.Text() + "," + v.Text() + [';'] + n.Text()) + "]")
         == Ok(Map(key, val, Some(len)))
  {
    hide Index, Trim, Print, FromStr, Inner, ParseUsize, IsInt, Keyword, Padded.Text;
    InnerClean(key, false);
    InnerClean(val, true);
    Inks();
    PaddedInk(k, ',');
    PaddedInk(k, ';');
    PaddedInk(v, ';');
    var rest := k.Text() + "," + v.Text();
    var inner := rest + [';'] + n.Text();
    IndexOfFirst(rest, ';', n.Text());
    TrimPadded(n);
    assert SplitLength(inner) == Ok((rest, Some(len)));
    IndexOfFirst(k.Text(), ',', v.Text());
    TrimPadded(k);
    TrimPadded(v);
    InnerAccepted(key, false);
    InnerAccepted(val, true);
    PrintedParses(key);
    PrintedParses(val);
    BracketParses(inner);
    MapBracket("[" + inner + "]", rest, Some(len), key, val);
  }

  lemma Inks()
    ensures !IsSpace(',') && !IsSpace(';')
  {
  }

  /** White space around a whole type is refused: only the parts of a bracket are trimmed. */
  lemma OuterBlankRefused(s: string)
    requires s != "" && (IsSpace(s[0]) || IsSpace(s[|s| - 1]))
    ensures FromStr(s).Err?
  {
    BlankEndIsNoInt(s, 'i');
    BlankEndIsNoInt(s, 'u');
    assert s[0] in s && s[|s| - 1] in s;
    if IsValidPath(s) {
      PathChars(s);
    }
    hide IsInt, IsValidPath, SplitLength, Index, Trim;
  }

  lemma BlankEndIsNoInt(s: string, letter: char)
    requires s != "" && (IsSpace(s[0]) || IsSpace(s[|s| - 1])) && IsLetter(letter)
    ensures !IsInt(s, letter)
  {
    if |s| > 1 && s[0] == letter {
      assert s[|s| - 1] in s[1..];
    }
  }

  lemma {:induction false} TrimKeepsInk(s: string, c: char)
    requires c in s && !IsSpace(c)
    ensures c in Trim(s)
    decreases |s|
  {
    if IsSpace(s[0]) {
      assert s == [s[0]] + s[1..];
      TrimKeepsInk(s[1..], c);
    } else if IsSpace(s[|s| - 1]) {
      assert s == s[..|s| - 1] + [s[|s| - 1]];
      TrimKeepsInk(s[..|s| - 1], c);
    }
  }

  /** A length is refused when a bracket is closed after it, as in the documented `[str,[str,iv;5]]`. */
  lemma NestedLengthRefused(a: string, b: string)
    requires ';' !in a && ']' in b
    ensures FromStr("[" + (a + [';'] + b) + "]") == Err(BadNumber)
  {
    hide Index, Trim;
    var inner := a + [';'] + b;
    BracketParses(inner);
    IndexOfFirst(a, ';', b);
    TrimKeepsInk(b, ']');
    var t := Trim(b);
    assert ']' in t ==> !AllDigits(t) && (t[0] == '+' ==> ']' in t[1..]);
  }

  /** A parsed type has no sized string, so its minimum size never exceeds an exact one. */
  lemma {:induction false} ParsedTerminatorsFit(t: Type)
    requires Accepted(t)
    ensures TerminatorsFit(t)
  {
    match t
    case Array(e, _) => InnerAccepted(e, false); ParsedTerminatorsFit(e);
    case Map(k, v, _) =>
      InnerAccepted(k, false);
      InnerAccepted(v, true);
      ParsedTerminatorsFit(k);
      ParsedTerminatorsFit(v);
    case _ =>
  }

  /** `size_bits` and `min_size_bits` on every text the parser accepts. */
  lemma ParsedSizesFit(s: string)
    requires FromStr(s).Ok?
    ensures Everywhere(FromStr(s).value)
  {
    hide FromStr;
    ParsedShape(s);
    ParsedTerminatorsFit(FromStr(s).value);
    MinFitsIff(FromStr(s).value);
  }

  // ----- The grammar -----

  /** A numeral of at most 64 bits; leading zeros are allowed. */
  ghost predicate Numeral(s: string, n: nat) {
    s != "" && AllDigits(s) && Value(s) == n && n < TWO_64
  }

  /** A length may also have a plus sign. */
  ghost predicate LengthNumeral(s: string, n: nat) {
    Numeral(s, n) || (s != "" && s[0] == '+' && Numeral(s[1..], n))
  }

  /** What stands between the elements and the closing bracket. */
  ghost predicate LengthText(s: string, len: Option<nat>) {
    match len
    case None => s == ""
    case Some(n) => exists p: Padded :: p.Valid() && s == ";" + p.Text() && LengthNumeral(p.text, n)
  }

  /** The text may stand where `p` is, as an element, a key or a value. */
  ghost predicate Inside(p: Padded) {
    p.Valid() && ';' !in p.Text()
  }

  /** The texts of a type: white space may surround the parts of a bracket, and nothing else. */
  ghost predicate Denotes(s: string, t: Type)
    decreases t
  {
    match t
    case I(n) => s != "" && s[0] == 'i' && Numeral(s[1..], n)
    case U(n) => s != "" && s[0] == 'u' && Numeral(s[1..], n)
    case Uv => s == "uv"
    case Iv => s == "iv"
    case F32 => s == "f32"
    case F64 => s == "f64"
    case Bool => s == "bool"
    case Str(size, nul) => s == "str" && size.None? && !nul
    case Array(e, len) =>
      exists x: Padded, l: string ::
        Inside(x) && ',' !in x.Text() && Denotes(x.text, e) && LengthText(l, len)
        && s == "[" + (x.Text() + l) + "]"
    case Map(k, v, len) =>
      exists x: Padded, y: Padded, l: string ::
        Inside(x) && ',' !in x.Text() && Denotes(x.text, k) && Inside(y) && Denotes(y.text, v)
        && LengthText(l, len) && s == "[" + (x.Text() + "," + y.Text() + l) + "]"
    case Struct(name) =>
      s == name && IsValidPath(s) && !Keyword(s) && !IsInt(s, 'i') && !IsInt(s, 'u')
    case Optional(_) => false
  }

  lemma UsizeIff(s: string, n: nat)
    ensures ParseUsize(s) == Some(n) <==> LengthNumeral(s, n)
  {
    if s != "" && s[0] == '+' {
      assert s[0] in s && !IsDigit('+');
    }
  }

  lemma PadFront(q: Padded, c: char)
    requires q.Valid() && IsSpace(c)
    ensures var p := q.(before := [c] + q.before); p.Valid() && p.Text() == [c] + q.Text()
  {
    ConcatAssociative([c], q.before, q.text);
    ConcatAssociative([c], q.before + q.text, q.after);
  }

  lemma PadBack(q: Padded, c: char)
    requires q.Valid() && IsSpace(c)
    ensures var p := q.(after := q.after + [c]); p.Valid() && p.Text() == q.Text() + [c]
  {
    ConcatAssociative(q.before + q.text, q.after, [c]);
  }

  /** White space can be split off any text that has something else. */
  lemma {:induction false} TrimSplits(s: string) returns (p: Padded)
    requires Trim(s) != ""
    ensures p.Valid() && p.Text() == s && p.text == Trim(s)
    decreases |s|
  {
    hide IsSpace, Padded.Text, Padded.Valid;
    if IsSpace(s[0]) {
      var q := TrimSplits(s[1..]);
      PadFront(q, s[0]);
      assert [s[0]] + s[1..] == s;
      p := q.(before := [s[0]] + q.before);
    } else if IsSpace(s[|s| - 1]) {
      var n := |s| - 1;
      var q := TrimSplits(s[..n]);
      PadBack(q, s[n]);
      assert s[..n] + [s[n]] == s;
      p := q.(after := q.after + [s[n]]);
    } else {
      p := Padded("", s, "");
      NoPad(s);
    }
  }

  lemma NoPad(s: string)
    requires s != "" && !IsSpace(s[0]) && !IsSpace(s[|s| - 1])
    ensures var p := Padded("", s, ""); p.Valid() && p.Text() == s
  {
  }

  lemma LengthSplits(s: string, l: string, len: Option<nat>)
    requires ';' !in s && LengthText(l, len)
    ensures SplitLength(s + l) == Ok((s, len))
  {
    hide Index, ParseUsize, Trim, LengthNumeral, Padded.Text;
    match len
    case None =>
      assert s + "" == s;
      IndexMisses(s, ';');
    case Some(n) =>
      var p: Padded :| p.Valid() && l == ";" + p.Text() && LengthNumeral(p.text, n);
      assert s + (";" + p.Text()) == s + [';'] + p.Text();
      IndexOfFirst(s, ';', p.Text());
      TrimPadded(p);
      UsizeIff(p.text, n);
  }

  lemma SplitsLength(s: string) returns (l: string)
    requires SplitLength(s).Ok?
    ensures var (rest, len) := SplitLength(s).value;
      LengthText(l, len) && s == rest + l && ';' !in rest
  {
    hide ParseUsize, Trim, LengthNumeral, Padded.Text;
    var i := Index(s, ';');
    if i == |s| {
      l := "";
      assert s == s[..i] && s == s + "";
    } else {
      l := s[i..];
      var n := SplitLength(s).value.1.value;
      NoNumber();
      var p := TrimSplits(s[i + 1..]);
      UsizeIff(p.text, n);
      assert l == ";" + p.Text();
      assert s == s[..i] + l;
    }
  }

  lemma NoNumber()
    ensures ParseUsize("").None?
  {
  }

  /** A bracket without a comma, in terms of its parts. */
  lemma ArrayBracket(b: string, rest: string, len: Option<nat>, t: Type)
    requires Enclosed(b) && !Keyword(b) && !IsInt(b, 'i') && !IsInt(b, 'u')
    requires SplitLength(b[1..|b| - 1]) == Ok((rest, len))
    requires Index(rest, ',') == |rest| && FromStr(Trim(rest)) == Ok(t)
    ensures FromStr(b) == Ok(Array(t, len))
  {
    hide Index, ParseUsize, Trim, SplitLength, IsSpace, AllDigits;
  }

  lemma ArrayDenotes(x: Padded, l: string, e: Type, len: Option<nat>)
    requires Inside(x) && ',' !in x.Text() && FromStr(x.text) == Ok(e) && LengthText(l, len)
    ensures FromStr("[" + (x.Text() + l) + "]") == Ok(Array(e, len))
  {
    hide Index, ParseUsize, Trim, SplitLength, LengthText, IsSpace, FromStr, IsInt, Keyword, Padded.Text;
    LengthSplits(x.Text(), l, len);
    IndexMisses(x.Text(), ',');
    TrimPadded(x);
    BracketParses(x.Text() + l);
    ArrayBracket("[" + (x.Text() + l) + "]", x.Text(), len, e);
  }

  lemma MapDenotes(x: Padded, y: Padded, l: string, k: Type, v: Type, len: Option<nat>)
    requires Inside(x) && ',' !in x.Text() && FromStr(x.text) == Ok(k)
    requires Inside(y) && FromStr(y.text) == Ok(v) && LengthText(l, len)
    ensures FromStr("[" + (x.Text() + "," + y.Text() + l) + "]") == Ok(Map(k, v, len))
  {
    hide Index, ParseUsize, Trim, SplitLength, LengthText, IsSpace, FromStr, IsInt, Keyword, Padded.Text;
    var rest := x.Text() + "," + y.Text();
    LengthSplits(rest, l, len);
    IndexOfFirst(x.Text(), ',', y.Text());
    TrimPadded(x);
    TrimPadded(y);
    BracketParses(rest + l);
    MapBracket("[" + (rest + l) + "]", rest, len, k, v);
  }

  lemma LeafDenotes(s: string, t: Type)
    requires Denotes(s, t) && !t.Array? && !t.Map?
    ensures FromStr(s) == Ok(t)
  {
    hide IsValidPath, SplitLength, Value;
    match t
    case I(n) => UsizeIff(s[1..], n);
    case U(n) => UsizeIff(s[1..], n);
    case Struct(_) => PathChars(s);
    case _ => NotInts();
  }

  lemma {:induction false} DenotedParses(s: string, t: Type)
    requires Denotes(s, t)
    ensures FromStr(s) == Ok(t)
    decreases t
  {
    hide FromStr, LengthText, Padded.Text, Inside;
    match t
    case Array(e, len) =>
      var x: Padded, l: string :|
        Inside(x) && ',' !in x.Text() && Denotes(x.text, e) && LengthText(l, len)
        && s == "[" + (x.Text() + l) + "]";
      DenotedParses(x.text, e);
      ArrayDenotes(x, l, e, len);
    case Map(k, v, len) =>
      var x: Padded, y: Padded, l: string :|
        Inside(x) && ',' !in x.Text() && Denotes(x.text, k) && Inside(y) && Denotes(y.text, v)
        && LengthText(l, len) && s == "[" + (x.Text() + "," + y.Text() + l) + "]";
      DenotedParses(x.text, k);
      DenotedParses(y.text, v);
      MapDenotes(x, y, l, k, v, len);
    case _ => LeafDenotes(s, t);
  }

  lemma InsideNow(p: Padded, rest: string)
    requires p.Valid() && p.Text() == rest && ';' !in rest
    ensures Inside(p)
  {
  }

  lemma NameOrWord(s: string)
    requires FromStr(s).Ok? && !IsInt(s, 'i') && !IsInt(s, 'u') && (Keyword(s) || !Enclosed(s))
    ensures Denotes(s, FromStr(s).value)
  {
    hide IsValidPath, IsInt;
  }

  lemma IntDenotes(s: string)
    requires FromStr(s).Ok? && (IsInt(s, 'i') || IsInt(s, 'u'))
    ensures Denotes(s, FromStr(s).value)
  {
    hide Value;
    UsizeIff(s[1..], FromStr(s).value.bits);
    if s[1..] != "" { assert s[1] in s[1..] && !IsDigit('+'); }
  }

  lemma {:induction false} ParsedDenotes(s: string)
    requires FromStr(s).Ok?
    ensures Denotes(s, FromStr(s).value)
    decreases |s|
  {
    hide FromStr, Denotes;
    if IsInt(s, 'i') || IsInt(s, 'u') {
      IntDenotes(s);
    } else if !Keyword(s) && Enclosed(s) {
      BracketDenotes(s);
    } else {
      NameOrWord(s);
    }
  }

  lemma NotEmpty()
    ensures FromStr("").Err?
  {
  }

  lemma BracketDenotes(s: string)
    requires Enclosed(s) && !IsInt(s, 'i') && !IsInt(s, 'u') && !Keyword(s) && FromStr(s).Ok?
    ensures Denotes(s, FromStr(s).value)
    decreases |s|, 0
  {
    hide Index, ParseUsize, Trim, SplitLength, IsSpace, Value, LengthText, Inside, Padded.Text, IsInt,
      Keyword, IsValidPath;
    var inner := s[1..|s| - 1];
    assert s == "[" + inner + "]";
    var l := SplitsLength(inner);
    var (rest, len) := SplitLength(inner).value;
    var i := Index(rest, ',');
    IndexMisses(rest, ',');
    NotEmpty();
    if i < |rest| {
      var x := TrimSplits(rest[..i]);
      var y := TrimSplits(rest[i + 1..]);
      ParsedDenotes(x.text);
      ParsedDenotes(y.text);
      assert rest == x.Text() + "," + y.Text();
      PartsKeepOut(rest, i, ';');
      InsideNow(x, rest[..i]);
      InsideNow(y, rest[i + 1..]);
      var t := FromStr(s).value;
      assert Inside(x) && ',' !in x.Text() && Denotes(x.text, t.key) && Inside(y) && Denotes(y.text, t.val)
        && LengthText(l, t.len) && s == "[" + (x.Text() + "," + y.Text() + l) + "]";
    } else {
      var x := TrimSplits(rest);
      ParsedDenotes(x.text);
      InsideNow(x, rest);
      var t := FromStr(s).value;
      assert Inside(x) && ',' !in x.Text() && Denotes(x.text, t.elem) && LengthText(l, t.len)
        && s == "[" + (x.Text() + l) + "]";
    }
  }

  lemma PartsKeepOut(s: string, i: nat, c: char)
    requires i < |s| && c !in s
    ensures c !in s[..i] && c !in s[i + 1..]
  {
  }

  /** The parser is the grammar: a text is parsed to a type exactly when it denotes it. */
  lemma GrammarIff(s: string, t: Type)
    ensures FromStr(s) == Ok(t) <==> Denotes(s, t)
  {
    hide FromStr, Denotes;
    if Denotes(s, t) {
      DenotedParses(s, t);
    } else if FromStr(s) == Ok(t) {
      ParsedDenotes(s);
    }
  }
}
