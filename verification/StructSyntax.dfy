/** Struct definitions (compiler/src/main.rs `Struct::parse_lines`), read from an iterator over the
    trimmed lines of a file. */
module StructSyntax {
  import opened Bytes
  import opened Types
  import opened TypeSyntax

  datatype Field = Field(name: string, type_: Type)
  datatype StructDef = StructDef(name: string, fields: seq<Field>)

  datatype Why =
    | MissingDefinition | BadDefinition | ExpectedKeyword | InvalidName | MissingBrace
    | MissingColon | MissingSemicolon | MissingParen | BadType(e: Error) | Unclosed | Duplicate

  datatype Parsed<T> = Parsed(value: T) | Rejected(line: nat, why: Why)

  // ----- Words -----

  predicate IsAsciiSpace(c: char) {
    c == ' ' || c == '\t' || c == '\n' || c == '\r' || c as int == 12
  }

  function WordLen(s: string): (n: nat)
    ensures n <= |s|
    ensures s != "" && !IsAsciiSpace(s[0]) ==> n > 0
    ensures n < |s| ==> IsAsciiSpace(s[n])
  {
    if s == "" || IsAsciiSpace(s[0]) then 0 else 1 + WordLen(s[1..])
  }

  /** `split_ascii_whitespace` */
  function Words(s: string): seq<string>
    decreases |s|
  {
    if s == "" then []
    else if IsAsciiSpace(s[0]) then Words(s[1..])
    else [s[..WordLen(s)]] + Words(s[WordLen(s)..])
  }

  predicate EndsWith(s: string, c: char) {
    s != "" && s[|s| - 1] == c
  }

  // ----- The parser -----

  /** The name on a struct's first line; a brace may touch it. */
  function ParseHead(first: string, line: nat): Parsed<string> {
    var words := Words(first);
    if |words| < 2 then Rejected(line, BadDefinition)
    else if words[0] != "struct" then Rejected(line, ExpectedKeyword)
    else
      var parts := if EndsWith(words[1], '{')
                   then words[1 := words[1][..|words[1]| - 1]] + ["{"]
                   else words;
      if |parts| != 3 then Rejected(line, BadDefinition)
      else if !IsValidName(parts[1]) then Rejected(line, InvalidName)
      else if parts[2] != "{" then Rejected(line, MissingBrace)
      else Parsed(parts[1])
  }

  function ParseField(s: string, line: nat): Parsed<Field> {
    var i := Index(s, ':');
    if i == |s| then Rejected(line, MissingColon)
    else
      var name, t := Trim(s[..i]), Trim(s[i + 1..]);
      if !IsValidName(name) then Rejected(line, InvalidName)
      else if !EndsWith(t, ';') then Rejected(line, MissingSemicolon)
      else
        match FromStr(t[..|t| - 1])
        case Err(e) => Rejected(line, BadType(e))
        case Ok(type_) => Parsed(Field(name, type_))
  }

  datatype After<T> = After(result: Parsed<T>, rest: seq<string>)

  /** The lines up to the closing brace, for the struct that starts on line `start`. */
  function ParseFields(st: StructDef, lines: seq<string>, line: nat, start: nat): After<StructDef>
    decreases |lines|
  {
    if lines == [] then After(Rejected(start, Unclosed), [])
    else if lines[0] == "}" then After(Parsed(st), lines[1..])
    else
      match ParseField(lines[0], line)
      case Rejected(n, why) => After(Rejected(n, why), lines[1..])
      case Parsed(f) => ParseFields(st.(fields := st.fields + [f]), lines[1..], line + 1, start)
  }

  function ParseStruct(lines: seq<string>, line: nat): After<StructDef> {
    if lines == [] then After(Rejected(line, MissingDefinition), [])
    else
      match ParseHead(lines[0], line)
      case Rejected(n, why) => After(Rejected(n, why), lines[1..])
      case Parsed(name) => ParseFields(StructDef(name, []), lines[1..], line + 1, line)
  }

  lemma {:induction false} ParseFieldsShrinks(st: StructDef, lines: seq<string>, line: nat, start: nat)
    ensures |ParseFields(st, lines, line, start).rest| <= |lines|
    decreases |lines|
  {
    hide ParseField;
    if lines != [] && lines[0] != "}" && ParseField(lines[0], line).Parsed? {
      var f := ParseField(lines[0], line).value;
      ParseFieldsShrinks(st.(fields := st.fields + [f]), lines[1..], line + 1, start);
    }
  }

  lemma ParseStructShrinks(lines: seq<string>, line: nat)
    requires lines != []
    ensures |ParseStruct(lines, line).rest| < |lines|
  {
    hide ParseHead;
    if ParseHead(lines[0], line).Parsed? {
      ParseFieldsShrinks(StructDef(ParseHead(lines[0], line).value, []), lines[1..], line + 1, line);
    }
  }

  /** The iterator over numbered lines. */
  class Lines {
    var rest: seq<string>
    var line: nat

    constructor (lines: seq<string>)
      ensures rest == lines && line == 1
    {
      rest, line := lines, 1;
    }

    method Next() returns (r: Option<(nat, string)>)
      modifies this
      ensures old(rest) == [] ==> r == None && rest == [] && line == old(line)
      ensures old(rest) != [] ==>
        r == Some((old(line), old(rest)[0])) && rest == old(rest)[1..] && line == old(line) + 1
    {
      if |rest| == 0 {
        return None;
      }
      r := Some((line, rest[0]));
      rest, line := rest[1..], line + 1;
    }
  }

  method ParseLines(lines: Lines) returns (r: Parsed<StructDef>)
    modifies lines
    ensures After(r, lines.rest) == ParseStruct(old(lines.rest), old(lines.line))
    ensures lines.line + |lines.rest| == old(lines.line + |lines.rest|)
  {
    hide ParseHead, ParseField;
    var first := lines.Next();
    if first.None? {
      return Rejected(lines.line, MissingDefinition);
    }
    var (start, text) := first.value;
    var head := ParseHead(text, start);
    if head.Rejected? {
      return Rejected(head.line, head.why);
    }
    var res := StructDef(head.value, []);
    while true
      invariant ParseStruct(old(lines.rest), old(lines.line))
             == ParseFields(res, lines.rest, lines.line, start)
      invariant lines.line + |lines.rest| == old(lines.line + |lines.rest|)
      decreases |lines.rest|
    {
      var next := lines.Next();
      if next.None? {
        return Rejected(start, Unclosed);
      }
      var (i, line) := next.value;
      if line == "}" {
        return Parsed(res);
      }
      var f := ParseField(line, i);
      if f.Rejected? {
        return Rejected(f.line, f.why);
      }
      res := res.(fields := res.fields + [f.value]);
    }
  }

  // ----- Printing -----

  function PrintField(f: Field): string {
    f.name + ":" + (" " + (Print(f.type_) + ";"))
  }

  function PrintFields(fs: seq<Field>): seq<string> {
    if fs == [] then ["}"] else [PrintField(fs[0])] + PrintFields(fs[1..])
  }

  function PrintStruct(st: StructDef): seq<string> {
    ["struct" + (" " + (st.name + " {"))] + PrintFields(st.fields)
  }

  predicate ValidField(f: Field) {
    IsValidName(f.name) && Accepted(f.type_)
  }

  predicate ValidStruct(st: StructDef) {
    IsValidName(st.name) && forall f | f in st.fields :: ValidField(f)
  }

  // ----- Proofs -----

  lemma {:induction false} WordLenOf(w: string, rest: string)
    requires forall c | c in w :: !IsAsciiSpace(c)
    requires rest == "" || IsAsciiSpace(rest[0])
    ensures WordLen(w + rest) == |w|
  {
    if w == "" {
      assert w + rest == rest;
    } else {
      assert (w + rest)[1..] == w[1..] + rest;
      WordLenOf(w[1..], rest);
    }
  }

  lemma FirstWord(w: string, rest: string)
    requires w != "" && forall c | c in w :: !IsAsciiSpace(c)
    requires rest == "" || IsAsciiSpace(rest[0])
    ensures Words(w + rest) == [w] + Words(rest)
  {
    WordLenOf(w, rest);
    var s := w + rest;
    assert s[..|w|] == w && s[|w|..] == rest;
    assert w[0] in w;
  }

  lemma SpaceFirst(s: string)
    ensures Words(" " + s) == Words(s)
  {
    assert (" " + s)[1..] == s;
  }

  lemma NameHasNoSpace(name: string)
    requires IsValidName(name)
    ensures forall c | c in name :: !IsAsciiSpace(c) && c != '{' && c != ':' && !IsSpace(c)
    ensures name[0] in name && name[|name| - 1] in name
  {
  }

  lemma HeadParses(name: string, line: nat)
    requires IsValidName(name)
    ensures ParseHead("struct" + (" " + (name + " {")), line) == Parsed(name)
  {
    hide Words, IsAsciiSpace, IsSpace;
    NameHasNoSpace(name);
    HeadWords(name);
    var words := ["struct", name, "{"];
    assert words[1] == name;
  }

  lemma HeadWords(name: string)
    requires IsValidName(name)
    ensures Words("struct" + (" " + (name + " {"))) == ["struct", name, "{"]
  {
    hide Words, IsSpace;
    NameHasNoSpace(name);
    FirstWord("struct", " " + (name + " {"));
    SpaceFirst(name + " {");
    FirstWord(name, " {");
    SpaceFirst("{");
    assert " " + "{" == " {" && "{" + "" == "{";
    FirstWord("{", "");
    NoWords();
    assert ["{"] + [] == ["{"];
  }

  lemma NoWords()
    ensures Words("") == []
  {
  }

  lemma PrintStarts(t: Type)
    requires Accepted(t)
    ensures Print(t) != "" && !IsSpace(Print(t)[0])
  {
    match t
    case Array(_, _) =>
    case Map(_, _, _) =>
    case _ => LeafClean(t);
  }

  lemma TypePartTrims(s: string)
    requires s != "" && !IsSpace(s[0])
    ensures Trim(" " + (s + ";")) == s + ";"
  {
    hide IsSpace;
    var t := s + ";";
    assert (" " + t)[1..] == t && t[0] == s[0] && t[|t| - 1] == ';';
    Spaces();
    TrimKeeps(t);
    assert Trim(" " + t) == Trim(t);
  }

  lemma Spaces()
    ensures IsSpace(' ') && !IsSpace(';')
  {
  }

  lemma FieldParses(f: Field, line: nat)
    requires ValidField(f)
    ensures ParseField(PrintField(f), line) == Parsed(f) && PrintField(f) != "}"
  {
    hide Index, Trim, Print, FromStr, Accepted, IsSpace;
    var t := Print(f.type_);
    NameHasNoSpace(f.name);
    var s := f.name + [':'] + (" " + (t + ";"));
    IndexOfFirst(f.name, ':', " " + (t + ";"));
    assert PrintField(f) == s;
    TrimKeeps(f.name);
    PrintStarts(f.type_);
    TypePartTrims(t);
    assert (t + ";")[..|t|] == t;
    PrintedParses(f.type_);
    assert PrintField(f)[0] == f.name[0];
  }

  lemma {:induction false} FieldsParse(st: StructDef, fs: seq<Field>, more: seq<string>, line: nat,
                                       start: nat)
    requires forall f | f in fs :: ValidField(f)
    ensures ParseFields(st, PrintFields(fs) + more, line, start)
         == After(Parsed(st.(fields := st.fields + fs)), more)
    decreases |fs|
  {
    hide ParseField, PrintField, ValidField;
    var lines := PrintFields(fs) + more;
    if fs == [] {
      assert lines[1..] == more && st.fields + fs == st.fields;
    } else {
      var f := fs[0];
      FieldParses(f, line);
      assert lines[0] == PrintField(f) && lines[1..] == PrintFields(fs[1..]) + more;
      FieldsParse(st.(fields := st.fields + [f]), fs[1..], more, line + 1, start);
      assert st.fields + [f] + fs[1..] == st.fields + fs;
    }
  }

  lemma ParsedFieldValid(s: string, line: nat)
    requires ParseField(s, line).Parsed?
    ensures ValidField(ParseField(s, line).value)
  {
    hide Index, Trim, FromStr, Accepted, IsValidName;
    var t := Trim(s[Index(s, ':') + 1..]);
    ParsedShape(t[..|t| - 1]);
  }

  lemma {:induction false} ParsedFieldsValid(st: StructDef, lines: seq<string>, line: nat, start: nat)
    requires ValidStruct(st)
    ensures var r := ParseFields(st, lines, line, start).result;
      r.Parsed? ==> ValidStruct(r.value)
    decreases |lines|
  {
    hide ParseField, ValidField;
    if lines != [] && lines[0] != "}" && ParseField(lines[0], line).Parsed? {
      ParsedFieldValid(lines[0], line);
      var f := ParseField(lines[0], line).value;
      ParsedFieldsValid(st.(fields := st.fields + [f]), lines[1..], line + 1, start);
    }
  }

  /** What a definition yields: a valid name, valid field names, and accepted types. */
  lemma ParsedStructValid(lines: seq<string>, line: nat)
    ensures var r := ParseStruct(lines, line).result; r.Parsed? ==> ValidStruct(r.value)
  {
    hide ParseFields;
    if lines != [] && ParseHead(lines[0], line).Parsed? {
      ParsedFieldsValid(StructDef(ParseHead(lines[0], line).value, []), lines[1..], line + 1, line);
    }
  }

  /** For every struct: its printed definition is parsed to the struct itself, and the lines after it
      are left to the caller, exactly when its names are valid and its types are ones the type parser
      can reach. */
  lemma StructRoundTripIff(st: StructDef, more: seq<string>, line: nat)
    ensures var r := ParseStruct(PrintStruct(st) + more, line);
      r == After(Parsed(st), more) <==> ValidStruct(st)
  {
    hide ParseHead, ParseFields, ValidField, PrintFields;
    var lines := PrintStruct(st) + more;
    if ValidStruct(st) {
      HeadParses(st.name, line);
      assert lines[0] == "struct" + (" " + (st.name + " {"));
      assert lines[1..] == PrintFields(st.fields) + more;
      FieldsParse(StructDef(st.name, []), st.fields, more, line + 1, line);
      assert [] + st.fields == st.fields;
    } else {
      ParsedStructValid(lines, line);
    }
  }

  // ----- Spacing -----

  /** Between words: white space, at least one character. */
  predicate Gap(s: string) {
    s != "" && forall c | c in s :: IsAsciiSpace(c)
  }

  lemma {:induction false} GapSkipped(gap: string, s: string)
    requires forall c | c in gap :: IsAsciiSpace(c)
    ensures Words(gap + s) == Words(s)
    decreases |gap|
  {
    if gap == "" {
      assert gap + s == s;
    } else {
      assert gap[0] in gap;
      assert (gap + s)[1..] == gap[1..] + s;
      GapSkipped(gap[1..], s);
    }
  }

  lemma WordsOf(w: string, gap: string, s: string)
    requires w != "" && (forall c | c in w :: !IsAsciiSpace(c)) && Gap(gap)
    ensures Words(w + (gap + s)) == [w] + Words(s)
  {
    assert (gap + s)[0] == gap[0] && gap[0] in gap;
    FirstWord(w, gap + s);
    GapSkipped(gap, s);
  }

  lemma OneWord(w: string)
    requires w != "" && forall c | c in w :: !IsAsciiSpace(c)
    ensures Words(w) == [w]
  {
    assert w + "" == w;
    FirstWord(w, "");
    NoWords();
  }

  /** Any white space may stand between the words of a struct's first line, and none is needed before
      the brace. */
  lemma HeadSpacing(name: string, a: string, b: string, line: nat)
    requires IsValidName(name) && Gap(a) && (b == "" || Gap(b))
    ensures ParseHead("struct" + (a + (name + (b + "{"))), line) == Parsed(name)
  {
    hide Words, IsAsciiSpace, IsSpace;
    NameHasNoSpace(name);
    NoSpaces();
    WordsOf("struct", a, name + (b + "{"));
    if b == "" {
      var w := name + "{";
      assert name + (b + "{") == w;
      OneWord(w);
      assert w[..|w| - 1] == name && w[|w| - 1] == '{';
      var words := ["struct", w];
      assert words[1 := name] + ["{"] == ["struct", name, "{"];
    } else {
      WordsOf(name, b, "{");
      OneWord("{");
      assert ["struct"] + ([name] + ["{"]) == ["struct", name, "{"];
      var words := ["struct", name, "{"];
      assert words[1][|name| - 1] in name;
    }
  }

  lemma NoSpaces()
    ensures !IsAsciiSpace('{') && forall c | c in "struct" :: !IsAsciiSpace(c)
  {
  }

  /** White space around a field's name, and around its type with the semicolon, does not matter. */
  lemma FieldSpacing(f: Field, name: Padded, type_: Padded, line: nat)
    requires ValidField(f) && name.Valid() && type_.Valid()
    requires name.text == f.name && type_.text == Print(f.type_) + ";"
    ensures ParseField(name.Text() + [':'] + type_.Text(), line) == Parsed(f)
  {
    hide Index, Trim, Print, FromStr, Accepted, IsSpace, Padded.Text;
    NameHasNoSpace(f.name);
    Inks();
    ColonInk();
    PaddedInk(name, ':');
    IndexOfFirst(name.Text(), ':', type_.Text());
    TrimPadded(name);
    TrimPadded(type_);
    var t := type_.text;
    assert t[|t| - 1] == ';' && t[..|t| - 1] == Print(f.type_);
    PrintedParses(f.type_);
  }

  lemma ColonInk()
    ensures !IsSpace(':')
  {
  }

  /** But a space before the semicolon is part of the type, which then is refused. */
  lemma BlankBeforeSemicolon(name: string, t: string, line: nat)
    requires IsValidName(name) && t != "" && !IsSpace(t[0])
    ensures ParseField(name + [':'] + (t + " " + ";"), line).Rejected?
  {
    hide Index, Trim, FromStr, IsSpace;
    NameHasNoSpace(name);
    Spaces();
    TrimKeeps(name);
    var u := t + " " + ";";
    IndexOfFirst(name, ':', u);
    assert u[0] == t[0] && u[|u| - 1] == ';' && u[..|u| - 1] == t + " ";
    TrimKeeps(u);
    assert (t + " ")[|t + " "| - 1] == ' ';
    OuterBlankRefused(t + " ");
  }

  // ----- Exactly what is accepted -----

  /** A field's text: its name, a colon, and a text of its type with a semicolon directly behind it, with
      white space around either. */
  ghost predicate FieldText(s: string, f: Field) {
    exists name: Padded, t: Padded, u: string ::
      name.Valid() && t.Valid() && ':' !in name.Text() && s == name.Text() + [':'] + t.Text()
      && name.text == f.name && IsValidName(f.name) && t.text == u + ";" && Denotes(u, f.type_)
  }

  lemma FieldTextParses(s: string, f: Field, line: nat)
    requires FieldText(s, f)
    ensures ParseField(s, line) == Parsed(f)
  {
    hide Index, Trim, FromStr, Denotes, IsSpace, Padded.Text, Padded.Valid, IsValidName;
    var name: Padded, t: Padded, u: string :|
      name.Valid() && t.Valid() && ':' !in name.Text() && s == name.Text() + [':'] + t.Text()
      && name.text == f.name && IsValidName(f.name) && t.text == u + ";" && Denotes(u, f.type_);
    IndexOfFirst(name.Text(), ':', t.Text());
    TrimPadded(name);
    TrimPadded(t);
    assert t.text[..|t.text| - 1] == u;
    GrammarIff(u, f.type_);
  }

  lemma FieldParsedText(s: string, line: nat)
    requires ParseField(s, line).Parsed?
    ensures FieldText(s, ParseField(s, line).value)
  {
    hide Trim, FromStr, Denotes, IsSpace, Padded.Text, Padded.Valid;
    var i := Index(s, ':');
    var name := TrimSplits(s[..i]);
    var t := TrimSplits(s[i + 1..]);
    var u := t.text[..|t.text| - 1];
    var f := ParseField(s, line).value;
    GrammarIff(u, f.type_);
    assert s == name.Text() + [':'] + t.Text();
    assert t.text == u + ";";
  }

  /** A line is parsed as a field exactly when it is a text of that field. */
  lemma FieldIff(s: string, f: Field, line: nat)
    ensures ParseField(s, line) == Parsed(f) <==> FieldText(s, f)
  {
    hide ParseField, FieldText;
    if FieldText(s, f) {
      FieldTextParses(s, f, line);
    } else if ParseField(s, line) == Parsed(f) {
      FieldParsedText(s, line);
    }
  }

  /** A struct's first line: the keyword, a valid name and a brace, which may touch the name. */
  lemma HeadIff(s: string, name: string, line: nat)
    ensures ParseHead(s, line) == Parsed(name)
        <==> IsValidName(name)
             && (Words(s) == ["struct", name, "{"] || Words(s) == ["struct", name + "{"])
  {
    hide Words, IsSpace;
    var words := Words(s);
    if IsValidName(name) {
      NameHasNoSpace(name);
      if words == ["struct", name + "{"] {
        assert words[1][..|words[1]| - 1] == name;
        assert words[1 := name] + ["{"] == ["struct", name, "{"];
      }
    }
    if ParseHead(s, line) == Parsed(name) {
      NameHasNoSpace(name);
      if EndsWith(words[1], '{') {
        assert words == ["struct", words[1]];
        assert words[1] == name + "{";
      } else {
        assert words == ["struct", name, "{"];
      }
    }
  }

  /** An error of one line names that line. */
  lemma ErrorsNameTheirLine(s: string, line: nat)
    ensures ParseHead(s, line).Rejected? ==> ParseHead(s, line).line == line
    ensures ParseField(s, line).Rejected? ==> ParseField(s, line).line == line
  {
  }

  /** The first line of a body that is neither a field nor the closing brace is the error, with its own
      line; and a body that does not close is one of the struct's first line. */
  lemma {:induction false} FirstBadLine(st: StructDef, fs: seq<string>, more: seq<string>, line: nat,
                                       start: nat)
    requires forall s | s in fs :: s != "}" && ParseField(s, 0).Parsed?
    requires more == [] || (more[0] != "}" && ParseField(more[0], 0).Rejected?)
    ensures var r := ParseFields(st, fs + more, line, start).result;
      r == if more == [] then Rejected(start, Unclosed)
           else Rejected(line + |fs|, ParseField(more[0], 0).why)
    decreases |fs|
  {
    hide ParseField;
    var lines := fs + more;
    if fs == [] {
      assert lines == more;
      if more != [] { SameField(more[0], 0, line); }
    } else {
      assert fs[0] in fs && lines[0] == fs[0] && lines[1..] == fs[1..] + more;
      SameField(fs[0], 0, line);
      assert forall s | s in fs[1..] :: s in fs;
      var f := ParseField(fs[0], line).value;
      FirstBadLine(st.(fields := st.fields + [f]), fs[1..], more, line + 1, start);
    }
  }

  lemma SameField(s: string, a: nat, b: nat)
    ensures var x, y := ParseField(s, a), ParseField(s, b);
      && x.Parsed? == y.Parsed?
      && (x.Parsed? ==> x == y)
      && (x.Rejected? ==> y == Rejected(b, x.why))
  {
  }
}
