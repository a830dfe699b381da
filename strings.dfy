/** ASCII character classes and the .NET string operations the settings engine relies on. */
module Strings {

  predicate IsUpper(c: char) { 'A' <= c <= 'Z' }
  predicate IsLower(c: char) { 'a' <= c <= 'z' }
  predicate IsDigit(c: char) { '0' <= c <= '9' }

  /** char.IsWhiteSpace on the ASCII range. */
  predicate IsWhiteSpace(c: char) {
    c == ' ' || c == '\t' || c == '\n' || c == '\r' || c == '\U{B}' || c == '\U{C}'
  }

  function ToUpper(c: char): (u: char)
    ensures IsLower(c) ==> IsUpper(u)
    ensures !IsLower(c) ==> u == c
  {
    if IsLower(c) then (c as int - 'a' as int + 'A' as int) as char else c
  }

  /** string.IsNullOrWhiteSpace for a non-null string. */
  predicate IsWhiteSpaceOnly(s: string) {
    forall i | 0 <= i < |s| :: IsWhiteSpace(s[i])
  }

  predicate StartsWith(s: string, prefix: string) {
    |prefix| <= |s| && s[..|prefix|] == prefix
  }

  /** string.IndexOf(char): the first index of c, or -1. */
  function IndexOf(s: string, c: char): (r: int)
    ensures r == -1 <==> c !in s
    ensures r != -1 ==> 0 <= r < |s| && s[r] == c && c !in s[..r]
  {
    if |s| == 0 then -1
    else if s[0] == c then 0
    else
      var k := IndexOf(s[1..], c);
      if k == -1 then -1
      else
        assert s[..k + 1] == [s[0]] + s[1..][..k];
        k + 1
  }

  /** string.Replace(pattern, replacement): one left-to-right pass replacing
      non-overlapping occurrences of a non-empty pattern. */
  function Replace(s: string, pattern: string, replacement: string): string
    requires |pattern| > 0
    decreases |s|
  {
    if s == [] then []
    else if StartsWith(s, pattern) then replacement + Replace(s[|pattern|..], pattern, replacement)
    else [s[0]] + Replace(s[1..], pattern, replacement)
  }

  lemma ReplaceHit(s: string, pattern: string, replacement: string)
    requires |pattern| > 0 && StartsWith(s, pattern)
    ensures Replace(s, pattern, replacement) == replacement + Replace(s[|pattern|..], pattern, replacement)
  {
  }

  lemma ReplaceMiss(s: string, pattern: string, replacement: string)
    requires |pattern| > 0 && |s| > 0 && s[0] != pattern[0]
    ensures Replace(s, pattern, replacement) == [s[0]] + Replace(s[1..], pattern, replacement)
  {
  }

  /** string.Split(char): every segment, empty ones included. */
  function Split(s: string, sep: char): (parts: seq<string>)
    ensures |parts| >= 1
    ensures forall k | 0 <= k < |parts| :: sep !in parts[k]
    decreases |s|
  {
    var i := IndexOf(s, sep);
    if i == -1 then [s]
    else
      assert forall j | 0 <= j < i :: s[..i][j] == s[j];
      [s[..i]] + Split(s[i + 1..], sep)
  }

  /** string.Join(sep, parts) for a single-character separator. */
  function Join(parts: seq<string>, sep: char): string {
    if |parts| == 0 then ""
    else if |parts| == 1 then parts[0]
    else parts[0] + [sep] + Join(parts[1..], sep)
  }

  /** The concatenation of part + sep for every part: the prefix under which
      the children of a path are keyed. */
  function PrefixOf(parts: seq<string>, sep: char): string {
    if |parts| == 0 then "" else parts[0] + [sep] + PrefixOf(parts[1..], sep)
  }

  lemma {:induction false} PrefixJoin(parts: seq<string>, last: string, sep: char)
    ensures PrefixOf(parts, sep) + last == Join(parts + [last], sep)
    ensures PrefixOf(parts, sep) + last + [sep] == PrefixOf(parts + [last], sep)
  {
    if |parts| > 0 {
      PrefixJoin(parts[1..], last, sep);
      assert (parts + [last])[1..] == parts[1..] + [last];
    }
  }

  /** The first separator of p + [sep] + rest is the one after p. */
  lemma IndexOfAfter(p: string, rest: string, sep: char)
    requires sep !in p
    ensures IndexOf(p + [sep] + rest, sep) == |p|
    ensures (p + [sep] + rest)[..|p|] == p && (p + [sep] + rest)[|p| + 1..] == rest
  {
    var s := p + [sep] + rest;
    assert s[|p|] == sep;
    assert s[..|p|] == p;
    assert forall j | 0 <= j < |p| :: s[j] == p[j];
  }

  /** Splitting a join gives back the parts, when no part contains the separator. */
  lemma {:induction false} SplitJoin(parts: seq<string>, sep: char)
    requires |parts| >= 1
    requires forall i | 0 <= i < |parts| :: sep !in parts[i]
    ensures Split(Join(parts, sep), sep) == parts
  {
    if |parts| > 1 {
      IndexOfAfter(parts[0], Join(parts[1..], sep), sep);
      SplitJoin(parts[1..], sep);
    }
  }

  /** string.Join(sep, parts) for a separator string. */
  function JoinWith(parts: seq<string>, sep: string): string {
    if |parts| == 0 then ""
    else if |parts| == 1 then parts[0]
    else parts[0] + sep + JoinWith(parts[1..], sep)
  }

  /** Appending one more part adds the separator only when there was a part before. */
  lemma {:induction false} JoinWithSnoc(parts: seq<string>, p: string, sep: string)
    ensures JoinWith(parts + [p], sep) == JoinWith(parts, sep) + (if parts == [] then "" else sep) + p
  {
    if |parts| > 1 {
      JoinWithSnoc(parts[1..], p, sep);
      assert (parts + [p])[1..] == parts[1..] + [p];
    } else if |parts| == 1 {
      assert (parts + [p])[1..] == [p];
    }
  }

  /** A join of non-empty parts is empty only when there are no parts, and
      otherwise begins with the first part (no leading separator). */
  lemma {:induction false} JoinWithEmpty(parts: seq<string>, sep: string)
    requires forall i | 0 <= i < |parts| :: parts[i] != ""
    ensures JoinWith(parts, sep) == "" <==> parts == []
    ensures parts != [] ==> StartsWith(JoinWith(parts, sep), parts[0])
  {
    if |parts| > 1 {
      var rest := JoinWith(parts[1..], sep);
      assert JoinWith(parts, sep) == parts[0] + (sep + rest);
    }
  }

  // ---------------------------------------------------------------------------
  // Optional parts written behind a connector (the ToString pattern of the
  // descriptors): a part is appended behind the connector, which starts empty
  // and becomes the separator once something has been written.
  // ---------------------------------------------------------------------------

  /** One optional part of a description: its text is written when shown holds. */
  datatype Part = Part(shown: bool, text: string)

  /** The texts of the parts that are shown, in order. */
  function Shown(ps: seq<Part>): seq<string> {
    if ps == [] then []
    else Shown(ps[..|ps| - 1]) + (if ps[|ps| - 1].shown then [ps[|ps| - 1].text] else [])
  }

  /** The builder state (text so far, connector) once the parts ps have been considered. */
  function Written(ps: seq<Part>, sep: string): (string, string) {
    (JoinWith(Shown(ps), sep), if Shown(ps) == [] then "" else sep)
  }

  /** One `if (shown) { sb.Append(connector); sb.Append(text); connector = sep; }`
      step on the builder state (text so far, connector). */
  function Step(acc: (string, string), p: Part, sep: string): (string, string) {
    if p.shown then (acc.0 + acc.1 + p.text, sep) else acc
  }

  /** A step writes the next part behind the separator, or nothing. */
  lemma StepWritten(ps: seq<Part>, p: Part, sep: string)
    ensures Step(Written(ps, sep), p, sep) == Written(ps + [p], sep)
  {
    var qs := ps + [p];
    assert qs[..|qs| - 1] == ps;
    if p.shown {
      JoinWithSnoc(Shown(ps), p.text, sep);
    } else {
      assert Shown(ps) + [] == Shown(ps);
    }
  }

  method AppendPart(sb: string, connector: string, shown: bool, text: string, sep: string)
    returns (sb': string, connector': string)
    ensures (sb', connector') == Step((sb, connector), Part(shown, text), sep)
  {
    sb', connector' := sb, connector;
    if shown {
      sb' := sb + connector + text;
      connector' := sep;
    }
  }

  /** A text is written exactly when some shown part carries it. */
  lemma {:induction false} ShownHas(ps: seq<Part>, x: string)
    ensures x in Shown(ps) <==> exists i | 0 <= i < |ps| :: ps[i].shown && ps[i].text == x
  {
    if ps != [] {
      var init := ps[..|ps| - 1];
      ShownHas(init, x);
      if exists i | 0 <= i < |init| :: init[i].shown && init[i].text == x {
        var i :| 0 <= i < |init| && init[i].shown && init[i].text == x;
        assert ps[i] == init[i];
      }
      if exists i | 0 <= i < |ps| :: ps[i].shown && ps[i].text == x {
        var i :| 0 <= i < |ps| && ps[i].shown && ps[i].text == x;
        if i < |init| { assert init[i] == ps[i]; }
      }
    }
  }

  /** Nothing is written exactly when no part is shown; when every text is
      non-empty, so is every written text. */
  lemma {:induction false} ShownNone(ps: seq<Part>)
    ensures Shown(ps) == [] <==> forall i | 0 <= i < |ps| :: !ps[i].shown
    ensures (forall i | 0 <= i < |ps| :: ps[i].text != "") ==>
              forall j | 0 <= j < |Shown(ps)| :: Shown(ps)[j] != ""
  {
    if ps != [] {
      var init := ps[..|ps| - 1];
      ShownNone(init);
      assert forall i | 0 <= i < |init| :: init[i] == ps[i];
    }
  }

  /** When the first part is shown, the written texts begin with it. */
  lemma {:induction false} ShownFirst(ps: seq<Part>)
    requires ps != [] && ps[0].shown
    ensures Shown(ps) != [] && Shown(ps)[0] == ps[0].text
  {
    if |ps| > 1 {
      ShownFirst(ps[..|ps| - 1]);
      assert ps[..|ps| - 1][0] == ps[0];
    }
  }

  /** Ordinal "strictly less than" on strings. */
  predicate Less(a: string, b: string) {
    if |a| == 0 then |b| > 0
    else if |b| == 0 then false
    else if a[0] != b[0] then a[0] < b[0]
    else Less(a[1..], b[1..])
  }

  lemma {:induction false} LessIrreflexive(a: string)
    ensures !Less(a, a)
  {
    if |a| > 0 { LessIrreflexive(a[1..]); }
  }

  lemma {:induction false} LessTotal(a: string, b: string)
    ensures a == b || Less(a, b) || Less(b, a)
  {
    if |a| > 0 && |b| > 0 && a[0] == b[0] {
      LessTotal(a[1..], b[1..]);
      if a[1..] == b[1..] { assert a == [a[0]] + a[1..]; assert b == [b[0]] + b[1..]; }
    }
  }

  lemma {:induction false} LessAsymmetric(a: string, b: string)
    ensures !(Less(a, b) && Less(b, a))
  {
    if |a| > 0 && |b| > 0 && a[0] == b[0] { LessAsymmetric(a[1..], b[1..]); }
  }

  lemma {:induction false} LessTransitive(a: string, b: string, c: string)
    requires Less(a, b) && Less(b, c)
    ensures Less(a, c)
  {
    if |a| > 0 && |b| > 0 && |c| > 0 && a[0] == b[0] && b[0] == c[0] {
      LessTransitive(a[1..], b[1..], c[1..]);
    }
  }
}
