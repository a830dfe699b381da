/** PropertySettingStoreProvider: a store that keeps the settings of each
    namespace in a property file of `name=value` lines. A file is modelled as
    its text: WriteLine ends every line with the line terminator, and ReadLine
    splits the text again at CR, LF and CR LF. The file of a namespace is
    looked up by the namespace identifier itself. */
module PropertyStore {
  import opened Wrappers
  import opened Strings
  import opened Dicts

  const SettingDelimiter: char := '='
  const CommentDelimiter: string := "#"

  // ---------------------------------------------------------------------------
  // The value codec
  // ---------------------------------------------------------------------------

  /** The escaping SaveSettings applies to a value: backslash first, then LF, then CR. */
  function Escape(v: string): string {
    Replace(Replace(Replace(v, "\\", "\\\\"), "\n", "\\n"), "\r", "\\r")
  }

  /** The unescaping GetSettings applies to a value: an escaped backslash is
      parked as "~~~~" while the escaped LF and CR are decoded. */
  function Unescape(v: string): string {
    Replace(Replace(Replace(Replace(v, "\\\\", "~~~~"), "\\n", "\n"), "\\r", "\r"), "~~~~", "\\")
  }

  /** The pattern and replacement of the k-th Replace of Escape (k = 0, 1, 2)
      followed by those of Unescape (k = 3 .. 6). */
  function Pattern(k: nat): (p: string)
    requires k < 7
    ensures |p| > 0
  {
    [ "\\", "\n", "\r", "\\\\", "\\n", "\\r", "~~~~" ][k]
  }

  function Replacement(k: nat): string
    requires k < 7
  {
    [ "\\\\", "\\n", "\\r", "~~~~", "\n", "\r", "\\" ][k]
  }

  /** What one input character has become after the first k Replaces. */
  function Token(k: nat, c: char): string {
    if c == '\\' then (if k == 0 || k >= 7 then "\\" else if k <= 3 then "\\\\" else "~~~~")
    else if c == '\n' then (if 2 <= k <= 4 then "\\n" else "\n")
    else if c == '\r' then (if 3 <= k <= 5 then "\\r" else "\r")
    else [c]
  }

  /** The value after the first k Replaces, character by character. */
  function Tokens(k: nat, v: string): string {
    if v == [] then [] else Token(k, v[0]) + Tokens(k, v[1..])
  }

  lemma {:induction false} TokensIdentity(k: nat, v: string)
    requires k == 0 || k == 7
    ensures Tokens(k, v) == v
  {
    if v != [] {
      TokensIdentity(k, v[1..]);
      assert v == [v[0]] + v[1..];
    }
  }

  /** No occurrence of p starts inside t, whatever follows t: every
      position of t differs from p in its first or its second character. */
  predicate Skips(t: string, p: string)
    requires |p| > 0
  {
    forall i | 0 <= i < |t| :: t[i] != p[0] || (i + 1 < |t| && 1 < |p| && t[i + 1] != p[1])
  }

  lemma {:induction false} ReplaceSkip(t: string, rest: string, p: string, r: string)
    requires |p| > 0 && Skips(t, p)
    ensures Replace(t + rest, p, r) == t + Replace(rest, p, r)
  {
    if t != [] {
      var s := t + rest;
      assert t[0] != p[0] || (1 < |t| && 1 < |p| && t[1] != p[1]);
      assert s[0] == t[0] && (1 < |t| ==> s[1] == t[1]);
      assert !StartsWith(s, p);
      assert s[1..] == t[1..] + rest;
      assert Replace(s, p, r) == [t[0]] + Replace(t[1..] + rest, p, r);
      assert forall i | 0 <= i < |t[1..]| :: t[1..][i] == t[i + 1];
      ReplaceSkip(t[1..], rest, p, r);
      assert [t[0]] + (t[1..] + Replace(rest, p, r)) == t + Replace(rest, p, r);
    } else {
      assert t + rest == rest;
    }
  }

  lemma ReplaceTake(p: string, rest: string, r: string)
    requires |p| > 0
    ensures Replace(p + rest, p, r) == r + Replace(rest, p, r)
  {
    assert (p + rest)[..|p|] == p;
    assert (p + rest)[|p|..] == rest;
  }

  /** One Replace moves every token from stage k to stage k + 1, provided
      no '~' is around when the placeholder is decoded. */
  lemma TokenStep(k: nat, c: char, rest: string)
    requires k < 7 && (k == 6 ==> c != '~')
    ensures Replace(Token(k, c) + rest, Pattern(k), Replacement(k)) ==
            Token(k + 1, c) + Replace(rest, Pattern(k), Replacement(k))
  {
    var t, p, r := Token(k, c), Pattern(k), Replacement(k);
    if t == p {
      ReplaceTake(p, rest, r);
    } else {
      assert Token(k + 1, c) == t;
      assert Skips(t, p);
      ReplaceSkip(t, rest, p, r);
    }
  }

  lemma {:induction false} Stage(k: nat, v: string)
    requires k < 7 && (k == 6 ==> '~' !in v)
    ensures Replace(Tokens(k, v), Pattern(k), Replacement(k)) == Tokens(k + 1, v)
  {
    if v != [] {
      TokenStep(k, v[0], Tokens(k, v[1..]));
      Stage(k, v[1..]);
    }
  }

  lemma PatternsAre()
    ensures Pattern(0) == "\\" && Replacement(0) == "\\\\"
    ensures Pattern(1) == "\n" && Replacement(1) == "\\n"
    ensures Pattern(2) == "\r" && Replacement(2) == "\\r"
    ensures Pattern(3) == "\\\\" && Replacement(3) == "~~~~"
    ensures Pattern(4) == "\\n" && Replacement(4) == "\n"
    ensures Pattern(5) == "\\r" && Replacement(5) == "\r"
    ensures Pattern(6) == "~~~~" && Replacement(6) == "\\"
  {
  }

  /** Escape works character by character. */
  lemma EscapeTokens(v: string)
    ensures Escape(v) == Tokens(3, v)
  {
    PatternsAre();
    TokensIdentity(0, v);
    Stage(0, v);
    Stage(1, v);
    Stage(2, v);
  }

  /** Unescaping an escaped value gives it back, when it contains no '~'. */
  lemma UnescapeEscape(v: string)
    requires '~' !in v
    ensures Unescape(Escape(v)) == v
  {
    EscapeTokens(v);
    PatternsAre();
    Stage(3, v);
    Stage(4, v);
    Stage(5, v);
    Stage(6, v);
    TokensIdentity(7, v);
  }

  lemma {:induction false} TokensNoLineBreak(v: string)
    ensures '\n' !in Tokens(3, v) && '\r' !in Tokens(3, v)
  {
    if v != [] {
      TokensNoLineBreak(v[1..]);
    }
  }

  /** An escaped value fits on one line. */
  lemma EscapeNoLineBreak(v: string)
    ensures '\n' !in Escape(v) && '\r' !in Escape(v)
  {
    EscapeTokens(v);
    TokensNoLineBreak(v);
  }

  lemma {:induction false} ReplaceShort(s: string, p: string, r: string)
    requires 0 < |p| && |s| < |p|
    ensures Replace(s, p, r) == s
  {
    if s != [] {
      ReplaceShort(s[1..], p, r);
      assert [s[0]] + s[1..] == s;
    }
  }

  lemma EscapeTildes()
    ensures Escape("~~~\\") == "~~~\\\\"
  {
    EscapeTokens("~~~\\");
    assert Tokens(3, "~~~\\") == "~~~\\\\";
  }

  lemma UnescapeTildes()
    ensures Unescape("~~~\\\\") == "\\~~~"
  {
    var e := "~~~\\\\";
    assert e == "~~~" + ("\\\\" + []);
    ReplaceSkip("~~~", "\\\\" + [], "\\\\", "~~~~");
    ReplaceTake("\\\\", [], "~~~~");
    var a := "~~~~~~~";
    assert Replace(e, "\\\\", "~~~~") == a;
    assert a + [] == a;
    ReplaceSkip(a, [], "\\n", "\n");
    ReplaceSkip(a, [], "\\r", "\r");
    assert a == "~~~~" + "~~~";
    ReplaceTake("~~~~", "~~~", "\\");
    ReplaceShort("~~~", "~~~~", "\\");
  }

  /** With '~' in the value the round trip can fail: the placeholder of an
      escaped backslash merges with the tildes before it. */
  lemma TildeBreaksRoundTrip()
    ensures Unescape(Escape("~~~\\")) == "\\~~~"
  {
    EscapeTildes();
    UnescapeTildes();
  }

  // ---------------------------------------------------------------------------
  // Lines of a property file
  // ---------------------------------------------------------------------------

  /** The comment line SaveSettings writes first: "# " and the type's name. */
  function Header(typeName: string): string {
    CommentDelimiter + " " + typeName
  }

  /** The line SaveSettings writes for one setting. */
  function SettingLine(e: Entry): string {
    e.0 + [SettingDelimiter] + Escape(e.1)
  }

  function SettingLines(d: Dict): (ls: seq<string>)
    ensures |ls| == |d|
    ensures forall j | 0 <= j < |d| :: ls[j] == SettingLine(d[j])
  {
    seq(|d|, j requires 0 <= j < |d| => SettingLine(d[j]))
  }

  /** The whole file SaveSettings writes. */
  function SavedLines(typeName: string, d: Dict): seq<string> {
    [Header(typeName)] + SettingLines(d)
  }

  /** What GetSettings reads from one line: nothing from a blank line, a
      comment or a line without '='; otherwise the text before the first '='
      as the key and the unescaped rest as the value. */
  function ParseLine(line: string): (r: Option<Entry>)
    ensures r.Some? <==> !IsWhiteSpaceOnly(line) && !StartsWith(line, CommentDelimiter) && SettingDelimiter in line
    ensures r.Some? ==>
              var k := r.value.0;
              SettingDelimiter !in k && StartsWith(line, k + [SettingDelimiter]) &&
              r.value.1 == Unescape(line[|k| + 1..])
  {
    if IsWhiteSpaceOnly(line) || StartsWith(line, CommentDelimiter) then None
    else
      var pos := IndexOf(line, SettingDelimiter);
      if pos < 0 then None
      else
        assert line[..pos + 1] == line[..pos] + [SettingDelimiter];
        Some((line[..pos], Unescape(line[pos + 1..])))
  }

  /** The GetSettings loop from the remaining lines on, the entries read so far
      being acc: every setting line is added, and a key read twice stops it with
      the dictionary's ArgumentException. */
  function Load(acc: Dict, lines: seq<string>): (r: Result<Dict>)
    ensures r.Ok? ==> |acc| <= |r.value| && r.value[..|acc|] == acc
    ensures r.Ok? && DistinctKeys(acc) ==> DistinctKeys(r.value)
    decreases |lines|
  {
    if lines == [] then Ok(acc)
    else
      match ParseLine(lines[0])
      case None => Load(acc, lines[1..])
      case Some(e) =>
        var acc' :- Add(acc, e.0, e.1);
        var r := Load(acc', lines[1..]);
        assert r.Ok? ==> r.value[..|acc|] == r.value[..|acc'|][..|acc|];
        r
  }

  // ---------------------------------------------------------------------------
  // Reading back what was written
  // ---------------------------------------------------------------------------

  /** The header is a comment, never a setting. */
  lemma HeaderSkipped(typeName: string)
    ensures ParseLine(Header(typeName)) == None
  {
    assert Header(typeName)[..1] == CommentDelimiter;
  }

  /** A key that survives being written to a line and read back. */
  predicate StorableKey(k: string) {
    SettingDelimiter !in k && '\n' !in k && '\r' !in k && !StartsWith(k, CommentDelimiter)
  }

  /** A dictionary that survives SaveSettings followed by GetSettings. */
  predicate Storable(d: Dict) {
    DistinctKeys(d) && forall i | 0 <= i < |d| :: StorableKey(d[i].0) && '~' !in d[i].1
  }

  lemma SettingLineParsed(e: Entry)
    requires StorableKey(e.0) && '~' !in e.1
    ensures ParseLine(SettingLine(e)) == Some(e)
  {
    var line := SettingLine(e);
    IndexOfAfter(e.0, Escape(e.1), SettingDelimiter);
    assert line[|e.0|] == SettingDelimiter;
    assert !IsWhiteSpaceOnly(line);
    if e.0 == [] {
      assert line[0] == SettingDelimiter;
    } else {
      assert line[0] == e.0[0];
      assert e.0[..1] != CommentDelimiter;
    }
    assert !StartsWith(line, CommentDelimiter);
    UnescapeEscape(e.1);
  }

  lemma FirstKeyNew(acc: Dict, d: Dict)
    requires d != [] && DistinctKeys(acc + d)
    ensures !HasKey(acc, d[0].0)
    ensures (acc + [d[0]]) + d[1..] == acc + d
  {
    forall i | 0 <= i < |acc|
      ensures acc[i].0 != d[0].0
    {
      assert (acc + d)[i] == acc[i] && (acc + d)[|acc|] == d[0];
    }
    assert d == [d[0]] + d[1..];
  }

  lemma {:induction false} LoadSettingLines(acc: Dict, d: Dict)
    requires DistinctKeys(acc + d) && forall i | 0 <= i < |d| :: StorableKey(d[i].0) && '~' !in d[i].1
    ensures Load(acc, SettingLines(d)) == Ok(acc + d)
    decreases |d|
  {
    if d == [] {
      assert acc + d == acc;
    } else {
      var ls := SettingLines(d);
      SettingLineParsed(d[0]);
      FirstKeyNew(acc, d);
      var acc' := acc + [d[0]];
      assert ls[1..] == SettingLines(d[1..]);
      LoadSettingLines(acc', d[1..]);
    }
  }

  /** Reading a saved file gives back exactly the saved dictionary, in its
      order, for any type name, when the keys hold no '=', CR or LF and do not
      start with '#', and the values hold no '~'. */
  lemma LoadSaved(typeName: string, d: Dict)
    requires Storable(d)
    ensures Load([], SavedLines(typeName, d)) == Ok(d)
  {
    HeaderSkipped(typeName);
    assert SavedLines(typeName, d)[1..] == SettingLines(d);
    assert [] + d == d;
    LoadSettingLines([], d);
  }

  /** A setting line whose key was read before makes the read fail. */
  lemma DuplicateKeyFails(acc: Dict, e: Entry, rest: seq<string>)
    requires StorableKey(e.0) && '~' !in e.1 && HasKey(acc, e.0)
    ensures Load(acc, [SettingLine(e)] + rest) == Err(DuplicateKey(e.0))
  {
    SettingLineParsed(e);
  }

  /** A line without '=' is ignored. */
  lemma NoDelimiterIgnored(acc: Dict, line: string, rest: seq<string>)
    requires SettingDelimiter !in line
    ensures Load(acc, [line] + rest) == Load(acc, rest)
  {
    assert ([line] + rest)[1..] == rest;
  }

  // ---------------------------------------------------------------------------
  // The text of a file: WriteLine and ReadLine
  // ---------------------------------------------------------------------------

  /** Environment.NewLine, which WriteLine appends to every line (Windows). */
  const NewLine: string := "\r\n"

  predicate IsLineBreak(c: char) {
    c == '\n' || c == '\r'
  }

  predicate HasNoLineBreak(s: string) {
    forall i | 0 <= i < |s| :: !IsLineBreak(s[i])
  }

  /** The position of the first CR or LF, or the length when there is none. */
  function LineEnd(text: string): (i: nat)
    ensures i <= |text| && HasNoLineBreak(text[..i])
    ensures i < |text| ==> IsLineBreak(text[i])
  {
    if text == [] || IsLineBreak(text[0]) then 0
    else
      var i := 1 + LineEnd(text[1..]);
      assert text[..i] == [text[0]] + text[1..][..i - 1];
      i
  }

  /** A line break after a break-free prefix is where the line ends. */
  lemma {:induction false} LineEndAt(text: string, n: nat)
    requires n < |text| && HasNoLineBreak(text[..n]) && IsLineBreak(text[n])
    ensures LineEnd(text) == n
  {
    if n > 0 {
      assert text[..n][0] == text[0];
      assert text[1..][..n - 1] == text[..n][1..];
      LineEndAt(text[1..], n - 1);
    }
  }

  /** StreamReader.ReadLine on a non-empty rest of the text: the characters up
      to the first line break, and the text after that break, a CR LF pair
      counting as one break. */
  function ReadLine(text: string): (r: (string, string))
    requires text != []
    ensures HasNoLineBreak(r.0) && |r.1| < |text|
  {
    var i := LineEnd(text);
    var next := if i == |text| then i
                else if text[i] == '\r' && i + 1 < |text| && text[i + 1] == '\n' then i + 2
                else i + 1;
    (text[..i], text[next..])
  }

  /** The lines the `while (!sr.EndOfStream) sr.ReadLine()` loop sees. */
  function ReadLines(text: string): seq<string>
    decreases |text|
  {
    if text == [] then [] else
      var (line, rest) := ReadLine(text);
      [line] + ReadLines(rest)
  }

  /** The text WriteLine produces for a sequence of lines. */
  function Text(lines: seq<string>): string {
    if lines == [] then "" else lines[0] + NewLine + Text(lines[1..])
  }

  lemma {:induction false} TextSnoc(lines: seq<string>, line: string)
    ensures Text(lines + [line]) == Text(lines) + line + NewLine
  {
    if lines == [] {
      assert lines + [line] == [line];
    } else {
      assert (lines + [line])[1..] == lines[1..] + [line];
      TextSnoc(lines[1..], line);
    }
  }

  /** A line without a line break is read back as written, and reading goes on
      right after its terminator. */
  lemma ReadWrittenLine(line: string, rest: string)
    requires HasNoLineBreak(line)
    ensures ReadLine(line + NewLine + rest) == (line, rest)
  {
    var text := line + NewLine + rest;
    assert text[..|line|] == line;
    LineEndAt(text, |line|);
    var i := LineEnd(text);
    assert text[i] == '\r' && text[i + 1] == '\n';
    assert text[i + 2..] == rest;
  }

  /** Lines without line breaks survive WriteLine followed by ReadLine. */
  lemma {:induction false} ReadText(lines: seq<string>)
    requires forall j | 0 <= j < |lines| :: HasNoLineBreak(lines[j])
    ensures ReadLines(Text(lines)) == lines
  {
    if lines != [] {
      ReadWrittenLine(lines[0], Text(lines[1..]));
      ReadText(lines[1..]);
      assert [lines[0]] + lines[1..] == lines;
    }
  }

  /** A line break inside a written line splits it into two lines on reading. */
  lemma LineBreakSplits(a: string, b: string, rest: string)
    requires HasNoLineBreak(a) && HasNoLineBreak(b)
    ensures ReadLines(a + "\n" + b + NewLine + rest) == [a, b] + ReadLines(rest)
  {
    var text := a + "\n" + b + NewLine + rest;
    assert text[..|a|] == a;
    LineEndAt(text, |a|);
    var i := LineEnd(text);
    assert i == |a| && text[..i] == a && text[i] == '\n';
    assert text[i + 1..] == b + NewLine + rest;
    ReadWrittenLine(b, rest);
  }

  // ---------------------------------------------------------------------------
  // The store: one file of lines per namespace
  // ---------------------------------------------------------------------------

  /** The text of each namespace's file. */
  type Files = map<string, string>

  /** The files after SaveSettings(name, settings, typeName): the namespace's
      file is (re)written when there are settings, or when there is no setting
      but the file already exists; a null dictionary writes nothing. */
  function Saved(files: Files, name: string, settings: Option<Dict>, typeName: string): (r: Files)
    ensures r.Keys == files.Keys + (if settings.Some? && |settings.value| > 0 then {name} else {})
    ensures forall n | n in files && n != name :: r[n] == files[n]
  {
    if settings.Some? && (|settings.value| > 0 || name in files)
    then files[name := Text(SavedLines(typeName, settings.value))]
    else files
  }

  /** What GetSettings(name) returns: the settings read from the lines of the
      namespace's file, or an empty dictionary when there is no file. */
  function Read(files: Files, name: string): (r: Result<Dict>)
    ensures name !in files ==> r == Ok([])
    ensures r.Ok? ==> DistinctKeys(r.value)
  {
    if name in files then Load([], ReadLines(files[name])) else Ok([])
  }

  /** The written lines of a storable dictionary read back as they were written. */
  lemma SavedLinesRead(typeName: string, d: Dict)
    requires HasNoLineBreak(typeName) && Storable(d)
    ensures ReadLines(Text(SavedLines(typeName, d))) == SavedLines(typeName, d)
  {
    var ls := SavedLines(typeName, d);
    forall j | 0 <= j < |ls|
      ensures HasNoLineBreak(ls[j])
    {
      if j == 0 {
        assert ls[0] == "# " + typeName;
        forall k | 0 <= k < |ls[0]| ensures !IsLineBreak(ls[0][k]) {
          if k >= 2 { assert ls[0][k] == typeName[k - 2]; }
        }
      } else {
        var e := d[j - 1];
        assert ls[j] == e.0 + [SettingDelimiter] + Escape(e.1);
        EscapeNoLineBreak(e.1);
        forall k | 0 <= k < |ls[j]| ensures !IsLineBreak(ls[j][k]) {
          if k < |e.0| {
            assert ls[j][k] == e.0[k];
          } else if k > |e.0| {
            assert ls[j][k] == Escape(e.1)[k - |e.0| - 1];
          }
        }
      }
    }
    ReadText(ls);
  }

  /** Saving and then getting the same namespace gives the saved settings back,
      for a type name without line breaks (a .NET type name has none). */
  lemma ReadSaved(files: Files, name: string, d: Dict, typeName: string)
    requires HasNoLineBreak(typeName) && Storable(d)
    ensures Read(Saved(files, name, Some(d), typeName), name) == Ok(d)
  {
    if |d| > 0 || name in files {
      SavedLinesRead(typeName, d);
      LoadSaved(typeName, d);
    }
  }

  /** A key holding a line break is written on one line but read back as two:
      the part before the break has no '=' and is skipped, and the part after
      it becomes the key. */
  lemma KeyLineBreakSplits()
    ensures Read(Saved(map[], "ns", Some([("a\nb", "v")]), "T"), "ns") == Ok([("b", "v")])
  {
    var d := [("a\nb", "v")];
    var files := Saved(map[], "ns", Some(d), "T");
    assert files["ns"] == Text(SavedLines("T", d));
    var lines := KeyLineBreakRead();
    assert Read(files, "ns") == Load([], lines);
    KeyLineBreakLoad();
  }

  /** Loading those lines: the header and the line without '=' are skipped. */
  lemma KeyLineBreakLoad()
    ensures Load([], ["# T", "a", "b=v"]) == Ok([("b", "v")])
  {
    HeaderSkipped("T");
    assert Header("T") == "# T";
    assert ["# T", "a", "b=v"][1..] == ["a"] + ["b=v"];
    NoDelimiterIgnored([], "a", ["b=v"]);
    var line := "b=v";
    assert ParseLine(line) == Some(("b", "v")) by {
      assert line[0] == 'b' && !IsWhiteSpace(line[0]);
      assert line[..1] != CommentDelimiter;
      assert IndexOf(line, SettingDelimiter) == 1;
      assert line[..1] == "b" && line[2..] == "v";
      UnescapeEscape("v");
      EscapeTokens("v");
      assert Tokens(3, "v") == Token(3, 'v') + Tokens(3, []);
    }
    assert [line][1..] == [];
  }

  /** The lines the file of KeyLineBreakSplits reads as. */
  lemma KeyLineBreakRead() returns (lines: seq<string>)
    ensures lines == ReadLines(Text(SavedLines("T", [("a\nb", "v")])))
    ensures lines == ["# T", "a", "b=v"]
  {
    var d := [("a\nb", "v")];
    EscapeTokens("v");
    var setting := SettingLine(d[0]);
    assert setting == "a" + "\n" + "b=v";
    var header := Header("T");
    assert header == "# T";
    assert SavedLines("T", d) == [header, setting];
    var tail := setting + NewLine + "";
    assert Text([setting]) == tail;
    assert Text(SavedLines("T", d)) == header + NewLine + tail;
    assert HasNoLineBreak(header);
    ReadWrittenLine(header, tail);
    assert ReadLines(header + NewLine + tail) == [header] + ReadLines(tail);
    assert HasNoLineBreak("a") && HasNoLineBreak("b=v");
    LineBreakSplits("a", "b=v", "");
    lines := [header] + ReadLines(tail);
  }

  /** Saving one namespace leaves what every other namespace reads unchanged. */
  lemma ReadOther(files: Files, name: string, other: string, settings: Option<Dict>, typeName: string)
    requires other != name
    ensures Read(Saved(files, name, settings, typeName), other) == Read(files, other)
  {
  }

  /** Saving an empty dictionary over an existing file leaves just the header,
      which reads as no settings; without a file nothing is created. */
  lemma SaveEmpty(files: Files, name: string, typeName: string)
    requires HasNoLineBreak(typeName)
    ensures name in files ==> Saved(files, name, Some([]), typeName)[name] == Header(typeName) + NewLine
    ensures name !in files ==> Saved(files, name, Some([]), typeName) == files
    ensures Read(Saved(files, name, Some([]), typeName), name) == Ok([])
  {
    ReadSaved(files, name, [], typeName);
    assert SettingLines([]) == [];
    assert SavedLines(typeName, []) == [Header(typeName)];
    assert Text([Header(typeName)]) == Header(typeName) + NewLine + Text([]);
  }

  /** A property-file setting store. */
  class PropertySettingStore {
    var files: Files

    /** A store over the files already present. */
    constructor(existing: Files)
      ensures files == existing
    {
      files := existing;
    }

    /** Writes the settings of a namespace, the header line first and then one
        line per setting in the dictionary's order. */
    method SaveSettings(namespaceIdentifier: Option<string>, settings: Option<Dict>, settingsType: Option<string>)
      returns (r: Outcome)
      modifies this
      ensures namespaceIdentifier.None? ==> r == Fail(ArgumentNull("namespaceIdentifier"))
      ensures namespaceIdentifier.Some? && settingsType.None? ==> r == Fail(ArgumentNull("settingsType"))
      ensures r.Fail? ==> files == old(files)
      ensures namespaceIdentifier.Some? && settingsType.Some? ==>
                r == Pass && files == Saved(old(files), namespaceIdentifier.value, settings, settingsType.value)
    {
      if namespaceIdentifier.None? {
        return Fail(ArgumentNull("namespaceIdentifier"));
      }
      if settingsType.None? {
        return Fail(ArgumentNull("settingsType"));
      }
      var name := namespaceIdentifier.value;
      if settings.Some? && (|settings.value| > 0 || name in files) {
        var d := settings.value;
        ghost var written := [Header(settingsType.value)];
        var text := Header(settingsType.value) + NewLine;
        assert text == Text(written);
        for i := 0 to |d|
          invariant written == [Header(settingsType.value)] + SettingLines(d[..i])
          invariant text == Text(written)
          invariant files == old(files)
        {
          assert SettingLines(d[..i + 1]) == SettingLines(d[..i]) + [SettingLine(d[i])];
          TextSnoc(written, SettingLine(d[i]));
          written := written + [SettingLine(d[i])];
          text := text + SettingLine(d[i]) + NewLine;
        }
        assert d[..|d|] == d;
        assert written == SavedLines(settingsType.value, d);
        files := files[name := text];
      }
      return Pass;
    }

    /** Reads the settings of a namespace line by line. */
    method GetSettings(namespaceIdentifier: Option<string>) returns (r: Result<Dict>)
      ensures namespaceIdentifier.None? ==> r == Err(ArgumentNull("namespaceIdentifier"))
      ensures namespaceIdentifier.Some? ==> r == Read(files, namespaceIdentifier.value)
    {
      if namespaceIdentifier.None? {
        return Err(ArgumentNull("namespaceIdentifier"));
      }
      var name := namespaceIdentifier.value;
      var settings: Dict := [];
      if name in files {
        var rest := files[name];
        while rest != []
          invariant Load([], ReadLines(files[name])) == Load(settings, ReadLines(rest))
          decreases |rest|
        {
          var (line, next) := ReadLine(rest);
          assert ReadLines(rest) == [line] + ReadLines(next);
          assert ReadLines(rest)[1..] == ReadLines(next);
          rest := next;
          if !IsWhiteSpaceOnly(line) && !StartsWith(line, CommentDelimiter) {
            var pos := IndexOf(line, SettingDelimiter);
            if pos >= 0 {
              var key := line[..pos];
              var value := line[pos + 1..];
              var added := Add(settings, key, Unescape(value));
              if added.Err? {
                return Err(added.error);
              }
              settings := added.value;
            }
          }
        }
      }
      return Ok(settings);
    }
  }
}
