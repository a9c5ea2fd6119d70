/** Interface files (compiler/src/main.rs `JtFile::parse_str`, `Func::parse_line`): struct definitions,
    function lines, and lines that are skipped. */
module FileSyntax {
  import opened Bytes
  import opened Types
  import opened TypeSyntax
  import opened StructSyntax

  /** A struct's name, and whether a stream of it is meant. */
  datatype Param = Param(name: string, stream: bool)
  datatype Func = Func(name: string, input: Param, output: Param)
  datatype File = File(structs: map<string, StructDef>, funcs: map<string, Func>)

  // ----- Function lines -----

  /** Where `):` first occurs, or the length. */
  function CloseIndex(s: string): (i: nat)
    ensures i <= |s| && (i < |s| ==> i + 1 < |s| && s[i] == ')' && s[i + 1] == ':')
  {
    if |s| < 2 then |s| else if s[0] == ')' && s[1] == ':' then 0 else 1 + CloseIndex(s[1..])
  }

  /** Brackets around a name mean a stream. */
  function ParseParam(s: string): Option<Param> {
    var t := Trim(s);
    var p := if Enclosed(t) then Param(t[1..|t| - 1], true) else Param(t, false);
    if IsValidName(p.name) then Some(p) else None
  }

  function ParseFunc(s: string, line: nat): Parsed<Func> {
    var n := WordLen(s);
    if n == |s| then Rejected(line, MissingDefinition)
    else if s[..n] != "fn" then Rejected(line, ExpectedKeyword)
    else
      var rest := Trim(s[n + 1..]);
      var i := Index(rest, '(');
      if i == |rest| then Rejected(line, MissingParen)
      else if !IsValidName(rest[..i]) then Rejected(line, InvalidName)
      else ParseParams(rest[..i], rest[i + 1..], line)
  }

  /** What follows the opening parenthesis. A text that ends in a semicolon has it behind the `):`. */
  function ParseParams(name: string, rest: string, line: nat): Parsed<Func> {
    var i := CloseIndex(rest);
    if i == |rest| then Rejected(line, MissingParen)
    else if ParseParam(rest[..i]).None? then Rejected(line, InvalidName)
    else if !EndsWith(rest, ';') then Rejected(line, MissingSemicolon)
    else
      match ParseParam(rest[i + 2..|rest| - 1])
      case None => Rejected(line, InvalidName)
      case Some(output) => Parsed(Func(name, ParseParam(rest[..i]).value, output))
  }

  // ----- Files -----

  /** `str::lines`, trimmed; trimming also takes the carriage returns. */
  function TextLines(text: string): seq<string>
    decreases |text|
  {
    if text == "" then []
    else
      var i := Index(text, '\n');
      [Trim(text[..i])] + if i == |text| then [] else TextLines(text[i + 1..])
  }

  /** What a line starts with decides what is parsed. */
  function FirstOf(s: string): string {
    if Words(s) == [] then "" else Words(s)[0]
  }

  function ParseItems(lines: seq<string>, line: nat, file: File): Parsed<File>
    decreases |lines|
  {
    if lines == [] then Parsed(file)
    else if FirstOf(lines[0]) == "struct" then
      var r := ParseStruct(lines, line);
      ParseStructShrinks(lines, line);
      match r.result
      case Rejected(n, why) => Rejected(n, why)
      case Parsed(st) =>
        if st.name in file.structs then Rejected(line, Duplicate)
        else
          ParseItems(r.rest, line + (|lines| - |r.rest|),
                     file.(structs := file.structs[st.name := st]))
    else if FirstOf(lines[0]) == "fn" then
      match ParseFunc(lines[0], line)
      case Rejected(n, why) => Rejected(n, why)
      case Parsed(f) =>
        if f.name in file.funcs then Rejected(line, Duplicate)
        else ParseItems(lines[1..], line + 1, file.(funcs := file.funcs[f.name := f]))
    else ParseItems(lines[1..], line + 1, file)
  }

  const EMPTY := File(map[], map[])

  /** `JtFile::parse_str` */
  method ParseText(text: string) returns (r: Parsed<File>)
    ensures r == ParseItems(TextLines(text), 1, EMPTY)
  {
    hide ParseStruct, ParseFunc, FirstOf, TextLines;
    var lines := new Lines(TextLines(text));
    var file := EMPTY;
    while |lines.rest| != 0
      invariant ParseItems(TextLines(text), 1, EMPTY) == ParseItems(lines.rest, lines.line, file)
      decreases |lines.rest|
    {
      var i, first := lines.line, FirstOf(lines.rest[0]);
      ghost var was := lines.rest;
      if first == "struct" {
        ParseStructShrinks(lines.rest, lines.line);
        var st := ParseLines(lines);
        if st.Rejected? {
          return Rejected(st.line, st.why);
        }
        if st.value.name in file.structs {
          return Rejected(i, Duplicate);
        }
        file := file.(structs := file.structs[st.value.name := st.value]);
      } else if first == "fn" {
        var next := lines.Next();
        var f := ParseFunc(next.value.1, i);
        if f.Rejected? {
          return Rejected(f.line, f.why);
        }
        if f.value.name in file.funcs {
          return Rejected(i, Duplicate);
        }
        file := file.(funcs := file.funcs[f.value.name := f.value]);
      } else {
        var next := lines.Next();
      }
    }
    return Parsed(file);
  }

  // ----- Printing -----

  /** What a file holds; `Other` lines are those that start with neither keyword: imports, options,
      blank lines and anything else. */
  datatype Item = StructItem(st: StructDef) | FuncItem(f: Func) | Other(text: string)

  function PrintParam(p: Param): string {
    if p.stream then "[" + p.name + "]" else p.name
  }

  function PrintFunc(f: Func): string {
    "fn" + (" " + (f.name + "(" + (PrintParam(f.input) + "):" + (PrintParam(f.output) + ";"))))
  }

  function PrintItem(x: Item): seq<string> {
    match x
    case StructItem(st) => PrintStruct(st)
    case FuncItem(f) => [PrintFunc(f)]
    case Other(text) => [text]
  }

  function PrintItems(xs: seq<Item>): seq<string> {
    if xs == [] then [] else PrintItem(xs[0]) + PrintItems(xs[1..])
  }

  predicate ValidFunc(f: Func) {
    IsValidName(f.name) && IsValidName(f.input.name) && IsValidName(f.output.name)
  }

  predicate ValidItem(x: Item) {
    match x
    case StructItem(st) => ValidStruct(st)
    case FuncItem(f) => ValidFunc(f)
    case Other(text) => FirstOf(text) != "struct" && FirstOf(text) != "fn"
  }

  /** What a file means: the structs and the functions by name; a name that comes again is an error on
      the line where it does. */
  function Collect(xs: seq<Item>, line: nat, file: File): Parsed<File>
    decreases |xs|
  {
    if xs == [] then Parsed(file)
    else
      var next := line + |PrintItem(xs[0])|;
      match xs[0]
      case StructItem(st) =>
        if st.name in file.structs then Rejected(line, Duplicate)
        else Collect(xs[1..], next, file.(structs := file.structs[st.name := st]))
      case FuncItem(f) =>
        if f.name in file.funcs then Rejected(line, Duplicate)
        else Collect(xs[1..], next, file.(funcs := file.funcs[f.name := f]))
      case Other(_) => Collect(xs[1..], next, file)
  }

  // ----- Function lines are parsed back -----

  lemma NameChars(name: string)
    requires IsValidName(name)
    ensures name != "" && Trim(name) == name && !Enclosed(name)
    ensures '(' !in name && ')' !in name && ';' !in name && '\n' !in name
    ensures !IsSpace(name[0]) && !IsSpace(name[|name| - 1])
  {
    NameHasNoSpace(name);
    hide IsSpace;
    TrimKeeps(name);
  }

  lemma ParamParses(p: Param)
    requires IsValidName(p.name)
    ensures ParseParam(PrintParam(p)) == Some(p)
    ensures PrintParam(p) != "" && ')' !in PrintParam(p)
  {
    NameChars(p.name);
    if p.stream {
      var t := PrintParam(p);
      assert t[0] == '[' && t[|t| - 1] == ']' && t[1..|t| - 1] == p.name;
      Brackets();
      hide IsSpace;
      TrimKeeps(t);
    }
  }

  lemma Brackets()
    ensures !IsSpace('[') && !IsSpace(']') && !IsSpace(';') && !IsSpace('}')
  {
  }

  lemma {:induction false} CloseIndexAt(a: string, b: string)
    requires ')' !in a
    ensures CloseIndex(a + "):" + b) == |a|
  {
    var s := a + "):" + b;
    if a != "" {
      assert s[0] == a[0] && a[0] in a;
      assert s[1..] == a[1..] + "):" + b;
      CloseIndexAt(a[1..], b);
    }
  }

  lemma ParamsParse(name: string, input: Param, output: Param, line: nat)
    requires IsValidName(input.name) && IsValidName(output.name)
    ensures ParseParams(name, PrintParam(input) + "):" + (PrintParam(output) + ";"), line)
         == Parsed(Func(name, input, output))
  {
    hide ParseParam, PrintParam, CloseIndex;
    ParamParses(input);
    ParamParses(output);
    var a, b := PrintParam(input), PrintParam(output);
    var rest := a + "):" + (b + ";");
    CloseIndexAt(a, b + ";");
    assert rest[..|a|] == a && rest[|a| + 2..|rest| - 1] == b && rest[|rest| - 1] == ';';
  }

  lemma FuncParses(f: Func, line: nat)
    requires ValidFunc(f)
    ensures ParseFunc(PrintFunc(f), line) == Parsed(f)
  {
    hide ParseParams, PrintParam, Index, Trim, WordLen, IsValidName, IsSpace;
    NameChars(f.name);
    var tail := PrintParam(f.input) + "):" + (PrintParam(f.output) + ";");
    var rest := f.name + "(" + tail;
    WordLenOf("fn", " " + rest);
    var s := PrintFunc(f);
    assert s == "fn" + (" " + rest) && s[..2] == "fn" && s[3..] == rest;
    Brackets();
    assert rest[0] == f.name[0] && rest[|rest| - 1] == ';';
    TrimKeeps(rest);
    IndexOfFirst(f.name, '(', tail);
    assert rest == f.name + ['('] + tail;
    ParamsParse(f.name, f.input, f.output, line);
  }

  lemma PaddedParam(p: Padded, x: Param)
    requires p.Valid() && IsValidName(x.name) && p.text == PrintParam(x)
    ensures ParseParam(p.Text()) == Some(x) && ')' !in p.Text()
  {
    ParamParses(x);
    TrimPadded(p);
    ParamTrimmed(x);
    hide Trim, IsSpace, PrintParam, Padded.Text;
    ColonsAndParens();
    PaddedInk(p, ')');
  }

  lemma ParamTrimmed(x: Param)
    requires IsValidName(x.name)
    ensures Trim(PrintParam(x)) == PrintParam(x)
  {
    NameChars(x.name);
    if x.stream {
      var t := PrintParam(x);
      assert t[0] == '[' && t[|t| - 1] == ']';
      Brackets();
      hide IsSpace;
      TrimKeeps(t);
    }
  }

  lemma ColonsAndParens()
    ensures !IsSpace(')') && !IsSpace('(') && !IsSpace(':') && !IsSpace(';')
  {
  }

  /** A function's line: the keyword, white space, the name with an opening parenthesis directly behind
      it, what goes in, `):`, what comes out, a semicolon; with white space around what goes in and out,
      and around the whole. */
  ghost predicate FuncText(s: string, f: Func) {
    exists c: char, p: Padded, a: Padded, b: Padded ::
      IsAsciiSpace(c) && p.Valid() && a.Valid() && b.Valid() && s == "fn" + ([c] + p.Text())
      && p.text == f.name + "(" + (a.Text() + "):" + (b.Text() + ";")) && ValidFunc(f)
      && a.text == PrintParam(f.input) && b.text == PrintParam(f.output)
  }

  lemma ParamsTextParse(name: string, a: Padded, b: Padded, input: Param, output: Param, line: nat)
    requires IsValidName(input.name) && IsValidName(output.name)
    requires a.Valid() && b.Valid() && a.text == PrintParam(input) && b.text == PrintParam(output)
    ensures ParseParams(name, a.Text() + "):" + (b.Text() + ";"), line)
         == Parsed(Func(name, input, output))
  {
    hide ParseParam, PrintParam, CloseIndex, Padded.Text, Padded.Valid, IsValidName;
    PaddedParam(a, input);
    PaddedParam(b, output);
    var x, y := a.Text(), b.Text();
    var rest := x + "):" + (y + ";");
    CloseIndexAt(x, y + ";");
    assert rest[..|x|] == x && rest[|x| + 2..|rest| - 1] == y && rest[|rest| - 1] == ';';
  }

  lemma NameParses(s: string, c: char, p: Padded, name: string, tail: string, line: nat)
    requires IsAsciiSpace(c) && p.Valid() && s == "fn" + ([c] + p.Text())
    requires IsValidName(name) && p.text == name + "(" + tail
    ensures ParseFunc(s, line) == ParseParams(name, tail, line)
  {
    hide ParseParams, Index, Trim, IsValidName, IsSpace, IsAsciiSpace, WordLen, Padded.Text,
      Padded.Valid;
    NameChars(name);
    FnWord();
    WordLenOf("fn", [c] + p.Text());
    assert s[..2] == "fn" && s[3..] == p.Text();
    TrimPadded(p);
    IndexOfFirst(name, '(', tail);
    assert p.text == name + ['('] + tail;
  }

  lemma FuncTextParses(s: string, f: Func, line: nat)
    requires FuncText(s, f)
    ensures ParseFunc(s, line) == Parsed(f)
  {
    hide ParseFunc, ParseParams, PrintParam, IsValidName, IsAsciiSpace, Padded.Text, Padded.Valid;
    var c: char, p: Padded, a: Padded, b: Padded :|
      IsAsciiSpace(c) && p.Valid() && a.Valid() && b.Valid() && s == "fn" + ([c] + p.Text())
      && p.text == f.name + "(" + (a.Text() + "):" + (b.Text() + ";")) && ValidFunc(f)
      && a.text == PrintParam(f.input) && b.text == PrintParam(f.output);
    NameParses(s, c, p, f.name, a.Text() + "):" + (b.Text() + ";"), line);
    ParamsTextParse(f.name, a, b, f.input, f.output, line);
  }

  lemma FnWord()
    ensures forall c | c in "fn" :: !IsAsciiSpace(c)
  {
  }

  lemma ParamText(s: string) returns (p: Padded)
    requires ParseParam(s).Some?
    ensures var x := ParseParam(s).value;
      p.Valid() && p.Text() == s && p.text == PrintParam(x) && IsValidName(x.name)
  {
    p := TrimSplits(s);
    hide Trim, IsSpace, IsValidName;
    var t := p.text;
    if Enclosed(t) {
      assert t == "[" + t[1..|t| - 1] + "]";
    }
  }

  lemma ParamsParsedText(name: string, rest: string, line: nat) returns (a: Padded, b: Padded)
    requires ParseParams(name, rest, line).Parsed?
    ensures var f := ParseParams(name, rest, line).value;
      && f.name == name && IsValidName(f.input.name) && IsValidName(f.output.name)
      && a.Valid() && b.Valid() && rest == a.Text() + "):" + (b.Text() + ";")
      && a.text == PrintParam(f.input) && b.text == PrintParam(f.output)
  {
    hide ParseParam, PrintParam, IsValidName, Padded.Text, Padded.Valid;
    var j, n := CloseIndex(rest), |rest| - 1;
    a := ParamText(rest[..j]);
    b := ParamText(rest[j + 2..n]);
    assert rest == rest[..j] + "):" + (rest[j + 2..n] + ";");
  }

  lemma NameParsedText(s: string, line: nat) returns (c: char, p: Padded, name: string, tail: string)
    requires ParseFunc(s, line).Parsed?
    ensures IsAsciiSpace(c) && p.Valid() && s == "fn" + ([c] + p.Text())
    ensures IsValidName(name) && p.text == name + "(" + tail
    ensures ParseFunc(s, line) == ParseParams(name, tail, line)
  {
    hide ParseParams, Trim, IsValidName, IsSpace, IsAsciiSpace, WordLen, Padded.Text, Padded.Valid;
    var n := WordLen(s);
    c := s[n];
    p := TrimSplits(s[n + 1..]);
    var i := Index(p.text, '(');
    name, tail := p.text[..i], p.text[i + 1..];
    assert s == s[..n] + ([s[n]] + s[n + 1..]);
    assert p.text == name + [p.text[i]] + tail;
  }

  lemma FuncParsedText(s: string, line: nat)
    requires ParseFunc(s, line).Parsed?
    ensures FuncText(s, ParseFunc(s, line).value)
  {
    hide ParseFunc, ParseParams, PrintParam, IsValidName, IsAsciiSpace, Padded.Text, Padded.Valid;
    var c, p, name, tail := NameParsedText(s, line);
    var a, b := ParamsParsedText(name, tail, line);
    var f := ParseFunc(s, line).value;
    assert p.text == f.name + "(" + (a.Text() + "):" + (b.Text() + ";")) && ValidFunc(f);
  }

  /** A line is parsed as a function exactly when it is a text of it. */
  lemma FuncIff(s: string, f: Func, line: nat)
    ensures ParseFunc(s, line) == Parsed(f) <==> FuncText(s, f)
  {
    hide ParseFunc, FuncText;
    if FuncText(s, f) {
      FuncTextParses(s, f, line);
    } else if ParseFunc(s, line) == Parsed(f) {
      FuncParsedText(s, line);
    }
  }

  lemma FuncStarts(f: Func)
    ensures FirstOf(PrintFunc(f)) == "fn"
  {
    hide PrintParam;
    FirstWord("fn", " " + (f.name + "(" + (PrintParam(f.input) + "):" + (PrintParam(f.output) + ";"))));
  }

  lemma StructStarts(st: StructDef)
    requires IsValidName(st.name)
    ensures FirstOf(PrintStruct(st)[0]) == "struct"
  {
    FirstWord("struct", " " + (st.name + " {"));
  }

  // ----- Files are parsed back -----

  lemma StructItemParses(st: StructDef, rest: seq<string>, line: nat, file: File)
    requires ValidStruct(st)
    ensures ParseItems(PrintStruct(st) + rest, line, file)
         == if st.name in file.structs then Rejected(line, Duplicate)
            else ParseItems(rest, line + |PrintStruct(st)|,
                            file.(structs := file.structs[st.name := st]))
  {
    hide ParseStruct, ParseFunc, PrintStruct, FirstOf, ValidStruct;
    StructRoundTripIff(st, rest, line);
    StructHead(st);
    assert (PrintStruct(st) + rest)[0] == PrintStruct(st)[0];
  }

  lemma FuncItemParses(f: Func, rest: seq<string>, line: nat, file: File)
    requires ValidFunc(f)
    ensures ParseItems([PrintFunc(f)] + rest, line, file)
         == if f.name in file.funcs then Rejected(line, Duplicate)
            else ParseItems(rest, line + 1, file.(funcs := file.funcs[f.name := f]))
  {
    hide ParseStruct, ParseFunc, PrintFunc, FirstOf, ValidFunc;
    FuncParses(f, line);
    FuncStarts(f);
    assert ([PrintFunc(f)] + rest)[1..] == rest;
  }

  lemma OtherItemParses(text: string, rest: seq<string>, line: nat, file: File)
    requires FirstOf(text) != "struct" && FirstOf(text) != "fn"
    ensures ParseItems([text] + rest, line, file) == ParseItems(rest, line + 1, file)
  {
    hide ParseStruct, ParseFunc, FirstOf;
    assert ([text] + rest)[1..] == rest;
  }

  /** On the printed items of any list the parser does what the list means, and goes on with the lines
      behind it, knowing their numbers. */
  lemma {:induction false} ItemsParse(xs: seq<Item>, more: seq<string>, line: nat, file: File)
    requires forall x | x in xs :: ValidItem(x)
    ensures ParseItems(PrintItems(xs) + more, line, file)
         == match Collect(xs, line, file)
            case Rejected(n, why) => Rejected(n, why)
            case Parsed(f) => ParseItems(more, line + |PrintItems(xs)|, f)
    decreases |xs|
  {
    hide ParseItems, PrintStruct, PrintFunc, FirstOf, ValidStruct, ValidFunc;
    if xs == [] {
      assert PrintItems(xs) + more == more;
    } else {
      var x, rest := xs[0], PrintItems(xs[1..]) + more;
      ConcatAssociative(PrintItem(x), PrintItems(xs[1..]), more);
      assert ValidItem(x);
      match x {
        case StructItem(st) =>
          StructItemParses(st, rest, line, file);
          if st.name !in file.structs {
            ItemsParse(xs[1..], more, line + |PrintStruct(st)|,
                       file.(structs := file.structs[st.name := st]));
          }
        case FuncItem(f) =>
          FuncItemParses(f, rest, line, file);
          if f.name !in file.funcs {
            ItemsParse(xs[1..], more, line + 1, file.(funcs := file.funcs[f.name := f]));
          }
        case Other(text) =>
          OtherItemParses(text, rest, line, file);
          ItemsParse(xs[1..], more, line + 1, file);
      }
    }
  }

  /** So an item that is not valid is the error, with its own kind and line. */
  lemma FirstBadItem(xs: seq<Item>, more: seq<string>, line: nat, file: File)
    requires forall x | x in xs :: ValidItem(x)
    requires Collect(xs, line, file).Parsed? && more != []
    ensures var n := line + |PrintItems(xs)|; var r := ParseItems(PrintItems(xs) + more, line, file);
      && (FirstOf(more[0]) == "fn" && ParseFunc(more[0], n).Rejected? ==>
            r == Rejected(n, ParseFunc(more[0], n).why))
      && (FirstOf(more[0]) == "struct" && ParseStruct(more, n).result.Rejected? ==>
            r == Rejected(ParseStruct(more, n).result.line, ParseStruct(more, n).result.why))
  {
    hide ParseStruct, ParseFunc, Collect, FirstOf;
    ItemsParse(xs, more, line, file);
    FuncErrorHere(more[0], line + |PrintItems(xs)|);
  }

  lemma FuncErrorHere(s: string, line: nat)
    ensures ParseFunc(s, line).Rejected? ==> ParseFunc(s, line).line == line
  {
  }

  lemma StructHead(st: StructDef)
    requires ValidStruct(st)
    ensures PrintStruct(st) != [] && FirstOf(PrintStruct(st)[0]) == "struct"
  {
    StructStarts(st);
  }

  // ----- What a file's text is parsed to -----

  function Join(lines: seq<string>): string {
    if lines == [] then "" else lines[0] + ['\n'] + Join(lines[1..])
  }

  /** A line as `TextLines` gives it. */
  predicate IsLine(s: string) {
    Trim(s) == s && '\n' !in s
  }

  function TrimAll(lines: seq<string>): seq<string> {
    if lines == [] then [] else [Trim(lines[0])] + TrimAll(lines[1..])
  }

  /** The lines of a text, trimmed, whether or not it ends in a newline. */
  lemma {:induction false} JoinedLines(lines: seq<string>, last: string)
    requires (forall s | s in lines :: '\n' !in s) && '\n' !in last
    ensures TextLines(Join(lines) + last)
         == TrimAll(lines) + if last == "" then [] else [Trim(last)]
    decreases |lines|
  {
    hide Trim, Index;
    if lines == [] {
      assert Join(lines) + last == last;
      IndexMisses(last, '\n');
      assert last[..|last|] == last;
    } else {
      var s, more := lines[0], Join(lines[1..]) + last;
      assert s in lines;
      var text := Join(lines) + last;
      assert text == s + ['\n'] + more;
      IndexOfFirst(s, '\n', more);
      JoinedLines(lines[1..], last);
    }
  }

  lemma {:induction false} TrimmedAlready(lines: seq<string>)
    requires forall s | s in lines :: IsLine(s)
    ensures TrimAll(lines) == lines && forall s | s in lines :: '\n' !in s
  {
    hide Trim, IsLine;
    if lines != [] {
      IsOneLine(lines[0]);
      TrimmedAlready(lines[1..]);
    }
  }

  lemma IsOneLine(s: string)
    requires IsLine(s)
    ensures Trim(s) == s && '\n' !in s
  {
  }

  predicate NoSpace(s: string) {
    forall c | c in s :: !IsSpace(c)
  }

  lemma NoSpaceAppend(a: string, b: string)
    requires NoSpace(a) && NoSpace(b)
    ensures NoSpace(a + b)
  {
  }

  lemma NameNoSpace(name: string)
    requires IsValidName(name) || IsValidPath(name) || AllDigits(name)
    ensures NoSpace(name)
  {
    if IsValidPath(name) && !IsValidName(name) && !AllDigits(name) {
      PathChars(name);
    }
  }

  lemma LenNoSpace(len: Option<nat>)
    ensures NoSpace(LenSuffix(len))
  {
    if len.Some? {
      DecimalValue(len.value);
      NameNoSpace(Decimal(len.value));
    }
  }

  lemma LeafNoSpace(t: Type)
    requires Leaf(t)
    ensures NoSpace(Print(t))
  {
    match t
    case I(n) => DecimalValue(n); NameNoSpace(Decimal(n));
    case U(n) => DecimalValue(n); NameNoSpace(Decimal(n));
    case Struct(s) => NameNoSpace(s);
    case _ =>
  }

  lemma {:induction false} TypeNoSpace(t: Type)
    requires Accepted(t)
    ensures NoSpace(Print(t))
  {
    match t
    case Array(e, len) =>
      InnerAccepted(e, false);
      TypeNoSpace(e);
      LenNoSpace(len);
      NoSpaceAppend(Print(e), LenSuffix(len));
    case Map(k, v, len) =>
      InnerAccepted(k, false);
      InnerAccepted(v, true);
      TypeNoSpace(k);
      TypeNoSpace(v);
      LenNoSpace(len);
      NoSpaceAppend(Print(k), ",");
      NoSpaceAppend(Print(k) + ",", Print(v));
      NoSpaceAppend(Print(k) + "," + Print(v), LenSuffix(len));
    case _ => LeafNoSpace(t);
  }

  lemma LineOf(s: string)
    requires s != "" && !IsSpace(s[0]) && !IsSpace(s[|s| - 1])
    requires forall c | c in s :: c == ' ' || !IsSpace(c)
    ensures IsLine(s)
  {
    TrimKeeps(s);
    assert IsSpace('\n');
  }

  lemma FieldLine(f: Field)
    requires ValidField(f)
    ensures IsLine(PrintField(f))
  {
    hide Print, Accepted, IsSpace;
    var s := PrintField(f);
    NameNoSpace(f.name);
    TypeNoSpace(f.type_);
    Brackets();
    Colon();
    assert s[0] == f.name[0] && f.name[0] in f.name && s[|s| - 1] == ';';
    LineOf(s);
  }

  lemma Colon()
    ensures !IsSpace(':') && !IsSpace('{') && !IsSpace('(') && !IsSpace(')')
  {
  }

  lemma {:induction false} FieldLines(fs: seq<Field>)
    requires forall f | f in fs :: ValidField(f)
    ensures forall s | s in PrintFields(fs) :: IsLine(s)
  {
    hide IsLine, PrintField, ValidField;
    if fs == [] {
      Brackets();
      LineOf("}");
    } else {
      assert fs[0] in fs;
      FieldLine(fs[0]);
      FieldLines(fs[1..]);
    }
  }

  lemma StructLines(st: StructDef)
    requires ValidStruct(st)
    ensures forall s | s in PrintStruct(st) :: IsLine(s)
  {
    hide IsLine, IsSpace, PrintFields, ValidField;
    NameNoSpace(st.name);
    Colon();
    Keywords();
    var s := "struct" + (" " + (st.name + " {"));
    assert s[0] == 's' && s[|s| - 1] == '{';
    LineOf(s);
    FieldLines(st.fields);
  }

  lemma Keywords()
    ensures NoSpace("struct") && NoSpace("fn") && !IsSpace('s') && !IsSpace('f')
  {
  }

  lemma FuncLine(f: Func)
    requires ValidFunc(f)
    ensures IsLine(PrintFunc(f))
  {
    hide IsSpace;
    NameNoSpace(f.name);
    NameNoSpace(f.input.name);
    NameNoSpace(f.output.name);
    Brackets();
    Colon();
    Keywords();
    var a, b := PrintParam(f.input), PrintParam(f.output);
    assert NoSpace(a) && NoSpace(b);
    hide PrintParam;
    var s := PrintFunc(f);
    assert s[0] == 'f' && s[|s| - 1] == ';';
    LineOf(s);
  }

  predicate Writable(x: Item) {
    ValidItem(x) && (x.Other? ==> IsLine(x.text))
  }

  lemma {:induction false} ItemLines(xs: seq<Item>)
    requires forall x | x in xs :: Writable(x)
    ensures forall s | s in PrintItems(xs) :: IsLine(s)
  {
    hide IsLine, PrintStruct, PrintFunc, ValidStruct, ValidFunc;
    if xs != [] {
      assert Writable(xs[0]);
      match xs[0] {
        case StructItem(st) => StructLines(st);
        case FuncItem(f) => FuncLine(f);
        case Other(_) =>
      }
      ItemLines(xs[1..]);
    }
  }

  /** For every file of valid items, the text that prints them is parsed to what they mean. */
  lemma FileRoundTrip(xs: seq<Item>)
    requires forall x | x in xs :: Writable(x)
    ensures ParseItems(TextLines(Join(PrintItems(xs))), 1, EMPTY) == Collect(xs, 1, EMPTY)
  {
    hide IsLine, ParseItems, Collect, PrintItem, ValidItem, Join, TextLines, TrimAll, PrintItems;
    var lines := PrintItems(xs);
    PrintedLines(xs);
    forall x | x in xs ensures ValidItem(x) {
      assert Writable(x);
    }
    ItemsParse(xs, [], 1, EMPTY);
    assert lines + [] == lines;
    NothingLeft(1 + |lines|);
  }

  lemma PrintedLines(xs: seq<Item>)
    requires forall x | x in xs :: Writable(x)
    ensures TextLines(Join(PrintItems(xs))) == PrintItems(xs)
  {
    hide IsLine, PrintItem, ValidItem, Trim, Index;
    var lines := PrintItems(xs);
    ItemLines(xs);
    TrimmedAlready(lines);
    JoinedLines(lines, "");
    assert Join(lines) + "" == Join(lines) && lines + [] == lines;
  }

  lemma NothingLeft(line: nat)
    ensures forall file :: ParseItems([], line, file) == Parsed(file)
  {
  }

  // ----- What a file means -----

  predicate SameName(x: Item, y: Item) {
    || (x.StructItem? && y.StructItem? && x.st.name == y.st.name)
    || (x.FuncItem? && y.FuncItem? && x.f.name == y.f.name)
  }

  ghost predicate Distinct(xs: seq<Item>) {
    forall i, j | 0 <= i < j < |xs| :: !SameName(xs[i], xs[j])
  }

  predicate Has(file: File, x: Item) {
    match x
    case StructItem(st) => st.name in file.structs
    case FuncItem(f) => f.name in file.funcs
    case Other(_) => false
  }

  function Plus(file: File, x: Item): File {
    match x
    case StructItem(st) => file.(structs := file.structs[st.name := st])
    case FuncItem(f) => file.(funcs := file.funcs[f.name := f])
    case Other(_) => file
  }

  lemma PlusHas(file: File, x: Item, y: Item)
    ensures Has(Plus(file, x), y) <==> Has(file, y) || SameName(x, y)
  {
  }

  /** The file is accepted exactly when no two of its structs, and no two of its functions, have the same
      name; then each is found under its name, as it was written. */
  lemma {:induction false} CollectIff(xs: seq<Item>, line: nat, file: File)
    ensures Collect(xs, line, file).Parsed?
        <==> Distinct(xs) && forall x | x in xs :: !Has(file, x)
    ensures Collect(xs, line, file).Parsed? ==>
      var r := Collect(xs, line, file).value;
      && (forall n | n in file.structs :: n in r.structs && r.structs[n] == file.structs[n])
      && (forall n | n in file.funcs :: n in r.funcs && r.funcs[n] == file.funcs[n])
      && (forall x | x in xs && x.StructItem? ::
            x.st.name in r.structs && r.structs[x.st.name] == x.st)
      && (forall x | x in xs && x.FuncItem? :: x.f.name in r.funcs && r.funcs[x.f.name] == x.f)
    decreases |xs|
  {
    hide PrintItem;
    if xs != [] {
      var x, rest := xs[0], xs[1..];
      var next := line + |PrintItem(x)|;
      if !Has(file, x) {
        assert Collect(xs, line, file) == Collect(rest, next, Plus(file, x));
        CollectIff(rest, next, Plus(file, x));
        DistinctCons(xs);
        forall y ensures Has(Plus(file, x), y) <==> Has(file, y) || SameName(x, y) {
          PlusHas(file, x, y);
        }
      }
    }
  }

  lemma DistinctCons(xs: seq<Item>)
    requires xs != []
    ensures Distinct(xs) <==> Distinct(xs[1..]) && forall y | y in xs[1..] :: !SameName(xs[0], y)
  {
    var rest := xs[1..];
    if Distinct(xs) {
      forall i, j | 0 <= i < j < |rest| ensures !SameName(rest[i], rest[j]) {
        assert rest[i] == xs[i + 1] && rest[j] == xs[j + 1];
      }
    }
    if Distinct(rest) && forall y | y in rest :: !SameName(xs[0], y) {
      forall i, j | 0 <= i < j < |xs| ensures !SameName(xs[i], xs[j]) {
        assert xs[j] == rest[j - 1] && (i > 0 ==> xs[i] == rest[i - 1]);
      }
    }
  }

  /** So a file of valid items is accepted exactly when no name comes twice in its kind. */
  lemma FileAcceptedIff(xs: seq<Item>)
    requires forall x | x in xs :: Writable(x)
    ensures ParseItems(TextLines(Join(PrintItems(xs))), 1, EMPTY).Parsed? <==> Distinct(xs)
  {
    hide ParseItems, Writable;
    FileRoundTrip(xs);
    CollectIff(xs, 1, EMPTY);
  }
}
