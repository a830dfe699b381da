/** StringExtensions.ToDisplayName of Alkami.Utilities: one left-to-right pass that
    upper-cases a lower-case first character and separates words, acronyms and
    numbers with single spaces. */
module DisplayName {
  import opened Wrappers
  import opened Strings

  // ---------------------------------------------------------------------------
  // Reference definition, character by character.
  // ---------------------------------------------------------------------------

  /** The character emitted for position i: the first one upper-cased when it is lower-case. */
  function Cur(s: string, i: nat): char
    requires i < |s|
  {
    if i == 0 && IsLower(s[0]) then ToUpper(s[0]) else s[i]
  }

  /** The previously emitted character; a space before the first one. */
  function Prev(s: string, i: nat): char
    requires i < |s|
  {
    if i == 0 then ' ' else Cur(s, i - 1)
  }

  /** The next input character; a space after the last one. */
  function Next(s: string, i: nat): char
    requires i < |s|
  {
    if i == |s| - 1 then ' ' else s[i + 1]
  }

  /** A space goes before position i (never before the first character) at a
      camel boundary, at the end of an acronym run, or at the start of a number. */
  predicate SpaceBefore(s: string, i: nat)
    requires i < |s|
  {
    i > 0 &&
    ((IsUpper(Cur(s, i)) && IsLower(Prev(s, i))) ||
     (IsUpper(Prev(s, i)) && IsUpper(Cur(s, i)) && IsLower(Next(s, i))) ||
     (!IsDigit(Prev(s, i)) && IsDigit(Cur(s, i))))
  }

  /** A space goes after a digit that ends a number, unless it is the last character. */
  predicate SpaceAfter(s: string, i: nat)
    requires i < |s|
  {
    IsDigit(Cur(s, i)) && !IsDigit(Next(s, i)) && i != |s| - 1
  }

  function Piece(s: string, i: nat): string
    requires i < |s|
  {
    (if SpaceBefore(s, i) then " " else "") + [Cur(s, i)] + (if SpaceAfter(s, i) then " " else "")
  }

  /** The output produced by the first n characters. */
  function Render(s: string, n: nat): string
    requires n <= |s|
  {
    if n == 0 then "" else Render(s, n - 1) + Piece(s, n - 1)
  }

  function DisplayNameOf(s: string): string {
    Render(s, |s|)
  }

  // ---------------------------------------------------------------------------
  // The operation.
  // ---------------------------------------------------------------------------

  /** ToDisplayName; a null argument (None) raises ArgumentNullException. */
  method ToDisplayName(value: Option<string>) returns (r: Result<string>)
    ensures value.None? ==> r == Err(ArgumentNull("value"))
    ensures value.Some? ==> r == Ok(DisplayNameOf(value.value))
  {
    if value.None? {
      return Err(ArgumentNull("value"));
    }
    var s := value.value;
    var sb := "";
    var first := true;
    var lastChar := ' ';
    for i := 0 to |s|
      invariant first <==> i == 0
      invariant lastChar == if i == 0 then ' ' else Cur(s, i - 1)
      invariant sb == Render(s, i)
    {
      var last := i == |s| - 1;
      var currentChar := s[i];
      var nextChar := ' ';
      nextChar := if !last then s[i + 1] else ' ';
      if IsLower(currentChar) {
        if first {
          currentChar := ToUpper(currentChar);
        }
      }
      var before := "";
      if !first {
        if IsUpper(currentChar) && IsLower(lastChar) {
          before := " ";
        } else if IsUpper(lastChar) && IsUpper(currentChar) && IsLower(nextChar) {
          before := " ";
        } else if !IsDigit(lastChar) && IsDigit(currentChar) {
          before := " ";
        }
      }
      sb := sb + before;
      sb := sb + [currentChar];
      if IsDigit(currentChar) && !IsDigit(nextChar) && !last {
        sb := sb + " ";
      }
      first := false;
      lastChar := currentChar;
    }
    return Ok(sb);
  }

  // ---------------------------------------------------------------------------
  // Properties of the reference definition.
  // ---------------------------------------------------------------------------

  /** Where the character for input position i lands in the output. */
  function Pos(s: string, i: nat): nat
    requires i < |s|
  {
    |Render(s, i)| + if SpaceBefore(s, i) then 1 else 0
  }

  lemma {:induction false} RenderPrefix(s: string, m: nat, n: nat)
    requires m <= n <= |s|
    ensures |Render(s, m)| <= |Render(s, n)| && Render(s, n)[..|Render(s, m)|] == Render(s, m)
  {
    if m < n {
      RenderPrefix(s, m, n - 1);
    }
  }

  lemma {:induction false} RenderLength(s: string, n: nat)
    requires n <= |s|
    ensures n <= |Render(s, n)|
  {
    if n > 0 { RenderLength(s, n - 1); }
  }

  /** A space after position i and a space before position i + 1 never coincide:
      consecutive characters are separated by at most one inserted space. */
  lemma NoDoubleSpace(s: string, i: nat)
    requires i + 1 < |s|
    ensures !(SpaceAfter(s, i) && SpaceBefore(s, i + 1))
  {
  }

  /** Empty input gives empty output. */
  lemma EmptyIsEmpty()
    ensures DisplayNameOf("") == ""
  {
  }

  /** The output is the input with the first character possibly upper-cased,
      interleaved with inserted spaces: each input character lands at Pos, in
      order, every other output character is a space, nothing is inserted before
      the first character or after the last, and consecutive characters are at
      most one space apart. */
  lemma {:induction false} Interleaving(s: string, i: nat)
    requires i < |s|
    ensures Pos(s, i) < |DisplayNameOf(s)|
    ensures DisplayNameOf(s)[Pos(s, i)] == Cur(s, i)
    ensures i == 0 ==> Pos(s, i) == 0
    ensures i == |s| - 1 ==> Pos(s, i) == |DisplayNameOf(s)| - 1
    ensures i + 1 < |s| ==> Pos(s, i + 1) == Pos(s, i) + 1 + (if SpaceAfter(s, i) || SpaceBefore(s, i + 1) then 1 else 0)
    ensures i + 1 < |s| && (SpaceAfter(s, i) || SpaceBefore(s, i + 1)) ==> Pos(s, i) + 1 < |DisplayNameOf(s)| && DisplayNameOf(s)[Pos(s, i) + 1] == ' '
  {
    var out := DisplayNameOf(s);
    RenderPrefix(s, i + 1, |s|);
    assert Render(s, i + 1) == Render(s, i) + Piece(s, i);
    assert out[Pos(s, i)] == Render(s, i + 1)[Pos(s, i)];
    if i + 1 < |s| {
      NoDoubleSpace(s, i);
      if SpaceAfter(s, i) {
        assert out[Pos(s, i) + 1] == Render(s, i + 1)[Pos(s, i) + 1];
      }
      if SpaceBefore(s, i + 1) {
        RenderPrefix(s, i + 2, |s|);
        assert Render(s, i + 2) == Render(s, i + 1) + Piece(s, i + 1);
        assert out[Pos(s, i) + 1] == Render(s, i + 2)[Pos(s, i) + 1];
      }
    }
    if i == 0 {
      assert !SpaceBefore(s, 0);
    }
  }

  /** Every output character not at some Pos is an inserted space. */
  lemma {:induction false} OnlySpacesInserted(s: string, n: nat, k: nat)
    requires n <= |s| && k < |Render(s, n)|
    ensures (exists i :: 0 <= i < n && Pos(s, i) == k) || Render(s, n)[k] == ' '
  {
    if n > 0 {
      var r := Render(s, n - 1);
      assert Render(s, n) == r + Piece(s, n - 1);
      if k < |r| {
        OnlySpacesInserted(s, n - 1, k);
        assert Render(s, n)[k] == r[k];
      } else if k != Pos(s, n - 1) {
        assert Render(s, n)[k] == Piece(s, n - 1)[k - |r|];
      }
    }
  }

  /** Only the first character can change case, and only from lower to upper. */
  lemma OnlyFirstRecased(s: string, i: nat)
    requires i < |s|
    ensures i > 0 ==> Cur(s, i) == s[i]
    ensures i == 0 && IsLower(s[0]) ==> Cur(s, 0) == ToUpper(s[0]) && IsUpper(Cur(s, 0))
    ensures i == 0 && !IsLower(s[0]) ==> Cur(s, 0) == s[0]
  {
  }

  /** The output is never shorter than the input. */
  lemma LengthBound(s: string)
    ensures |s| <= |DisplayNameOf(s)|
  {
    RenderLength(s, |s|);
  }

  /**
   * Render evaluated step by step: when `outs` lists the output after each
   * character, Render yields the corresponding entry. Used on the test table.
   */
  lemma {:induction false} RenderSteps(s: string, outs: seq<string>, n: nat)
    requires |outs| == |s| + 1 && n <= |s|
    requires outs[0] == ""
    requires forall k | 0 <= k < |s| :: outs[k + 1] == outs[k] + Piece(s, k)
    ensures Render(s, n) == outs[n]
  {
    if n > 0 {
      RenderSteps(s, outs, n - 1);
    }
  }

  // The SettingUtilityTest table of display names, one lemma per row.
  lemma TableName()
    ensures DisplayNameOf("Name") == "Name"
  {
    var s := "Name";
    var outs := ["", "N", "Na", "Nam", "Name"];
    assert Piece(s, 0) == "N";
    assert Piece(s, 1) == "a";
    assert Piece(s, 2) == "m";
    assert Piece(s, 3) == "e";
    RenderSteps(s, outs, |s|);
  }

  lemma TableDisplayName()
    ensures DisplayNameOf("DisplayName") == "Display Name"
  {
    var s := "DisplayName";
    var outs := ["", "D", "Di", "Dis", "Disp", "Displ", "Displa", "Display", "Display N", "Display Na", "Display Nam", "Display Name"];
    assert Piece(s, 0) == "D";
    assert Piece(s, 1) == "i";
    assert Piece(s, 2) == "s";
    assert Piece(s, 3) == "p";
    assert Piece(s, 4) == "l";
    assert Piece(s, 5) == "a";
    assert Piece(s, 6) == "y";
    assert Piece(s, 7) == " N";
    assert Piece(s, 8) == "a";
    assert Piece(s, 9) == "m";
    assert Piece(s, 10) == "e";
    RenderSteps(s, outs, |s|);
  }

  lemma TableLowercase()
    ensures DisplayNameOf("lowercase") == "Lowercase"
  {
    var s := "lowercase";
    var outs := ["", "L", "Lo", "Low", "Lowe", "Lower", "Lowerc", "Lowerca", "Lowercas", "Lowercase"];
    assert Piece(s, 0) == "L";
    assert Piece(s, 1) == "o";
    assert Piece(s, 2) == "w";
    assert Piece(s, 3) == "e";
    assert Piece(s, 4) == "r";
    assert Piece(s, 5) == "c";
    assert Piece(s, 6) == "a";
    assert Piece(s, 7) == "s";
    assert Piece(s, 8) == "e";
    RenderSteps(s, outs, |s|);
  }

  lemma TableMyName()
    ensures DisplayNameOf("MyName") == "My Name"
  {
    var s := "MyName";
    var outs := ["", "M", "My", "My N", "My Na", "My Nam", "My Name"];
    assert Piece(s, 0) == "M";
    assert Piece(s, 1) == "y";
    assert Piece(s, 2) == " N";
    assert Piece(s, 3) == "a";
    assert Piece(s, 4) == "m";
    assert Piece(s, 5) == "e";
    RenderSteps(s, outs, |s|);
  }

  lemma TableHTML()
    ensures DisplayNameOf("HTML") == "HTML"
  {
    var s := "HTML";
    var outs := ["", "H", "HT", "HTM", "HTML"];
    assert Piece(s, 0) == "H";
    assert Piece(s, 1) == "T";
    assert Piece(s, 2) == "M";
    assert Piece(s, 3) == "L";
    RenderSteps(s, outs, |s|);
  }

  lemma TablePDFFilename()
    ensures DisplayNameOf("PDFFilename") == "PDF Filename"
  {
    var s := "PDFFilename";
    var outs := ["", "P", "PD", "PDF", "PDF F", "PDF Fi", "PDF Fil", "PDF File", "PDF Filen", "PDF Filena", "PDF Filenam", "PDF Filename"];
    assert Piece(s, 0) == "P";
    assert Piece(s, 1) == "D";
    assert Piece(s, 2) == "F";
    assert Piece(s, 3) == " F";
    assert Piece(s, 4) == "i";
    assert Piece(s, 5) == "l";
    assert Piece(s, 6) == "e";
    assert Piece(s, 7) == "n";
    assert Piece(s, 8) == "a";
    assert Piece(s, 9) == "m";
    assert Piece(s, 10) == "e";
    RenderSteps(s, outs, |s|);
  }

  lemma TableAString()
    ensures DisplayNameOf("AString") == "A String"
  {
    var s := "AString";
    var outs := ["", "A", "A S", "A St", "A Str", "A Stri", "A Strin", "A String"];
    assert Piece(s, 0) == "A";
    assert Piece(s, 1) == " S";
    assert Piece(s, 2) == "t";
    assert Piece(s, 3) == "r";
    assert Piece(s, 4) == "i";
    assert Piece(s, 5) == "n";
    assert Piece(s, 6) == "g";
    RenderSteps(s, outs, |s|);
  }

  lemma PiecesSimpleXMLParser()
    ensures Piece("SimpleXMLParser", 0) == "S" && Piece("SimpleXMLParser", 1) == "i"
    ensures Piece("SimpleXMLParser", 2) == "m" && Piece("SimpleXMLParser", 3) == "p"
    ensures Piece("SimpleXMLParser", 4) == "l" && Piece("SimpleXMLParser", 5) == "e"
    ensures Piece("SimpleXMLParser", 6) == " X" && Piece("SimpleXMLParser", 7) == "M"
    ensures Piece("SimpleXMLParser", 8) == "L" && Piece("SimpleXMLParser", 9) == " P"
    ensures Piece("SimpleXMLParser", 10) == "a" && Piece("SimpleXMLParser", 11) == "r"
    ensures Piece("SimpleXMLParser", 12) == "s" && Piece("SimpleXMLParser", 13) == "e"
    ensures Piece("SimpleXMLParser", 14) == "r"
  {
  }

  lemma TableSimpleXMLParser()
    ensures DisplayNameOf("SimpleXMLParser") == "Simple XML Parser"
  {
    var s := "SimpleXMLParser";
    var outs := ["", "S", "Si", "Sim", "Simp", "Simpl", "Simple", "Simple X", "Simple XM", "Simple XML", "Simple XML P", "Simple XML Pa", "Simple XML Par", "Simple XML Pars", "Simple XML Parse", "Simple XML Parser"];
    PiecesSimpleXMLParser();
    RenderSteps(s, outs, |s|);
  }

  lemma TableGL1Version()
    ensures DisplayNameOf("GL1Version") == "GL 1 Version"
  {
    var s := "GL1Version";
    var outs := ["", "G", "GL", "GL 1 ", "GL 1 V", "GL 1 Ve", "GL 1 Ver", "GL 1 Vers", "GL 1 Versi", "GL 1 Versio", "GL 1 Version"];
    assert Piece(s, 0) == "G";
    assert Piece(s, 1) == "L";
    assert Piece(s, 2) == " 1 ";
    assert Piece(s, 3) == "V";
    assert Piece(s, 4) == "e";
    assert Piece(s, 5) == "r";
    assert Piece(s, 6) == "s";
    assert Piece(s, 7) == "i";
    assert Piece(s, 8) == "o";
    assert Piece(s, 9) == "n";
    RenderSteps(s, outs, |s|);
  }

  lemma TableGL12Version()
    ensures DisplayNameOf("GL12Version") == "GL 12 Version"
  {
    var s := "GL12Version";
    var outs := ["", "G", "GL", "GL 1", "GL 12 ", "GL 12 V", "GL 12 Ve", "GL 12 Ver", "GL 12 Vers", "GL 12 Versi", "GL 12 Versio", "GL 12 Version"];
    assert Piece(s, 0) == "G";
    assert Piece(s, 1) == "L";
    assert Piece(s, 2) == " 1";
    assert Piece(s, 3) == "2 ";
    assert Piece(s, 4) == "V";
    assert Piece(s, 5) == "e";
    assert Piece(s, 6) == "r";
    assert Piece(s, 7) == "s";
    assert Piece(s, 8) == "i";
    assert Piece(s, 9) == "o";
    assert Piece(s, 10) == "n";
    RenderSteps(s, outs, |s|);
  }

  lemma TableGL123Version()
    ensures DisplayNameOf("GL123Version") == "GL 123 Version"
  {
    var s := "GL123Version";
    var outs := ["", "G", "GL", "GL 1", "GL 12", "GL 123 ", "GL 123 V", "GL 123 Ve", "GL 123 Ver", "GL 123 Vers", "GL 123 Versi", "GL 123 Versio", "GL 123 Version"];
    assert Piece(s, 0) == "G";
    assert Piece(s, 1) == "L";
    assert Piece(s, 2) == " 1";
    assert Piece(s, 3) == "2";
    assert Piece(s, 4) == "3 ";
    assert Piece(s, 5) == "V";
    assert Piece(s, 6) == "e";
    assert Piece(s, 7) == "r";
    assert Piece(s, 8) == "s";
    assert Piece(s, 9) == "i";
    assert Piece(s, 10) == "o";
    assert Piece(s, 11) == "n";
    RenderSteps(s, outs, |s|);
  }

  lemma TableNinetyNineBottles()
    ensures DisplayNameOf("99Bottles") == "99 Bottles"
  {
    var s := "99Bottles";
    var outs := ["", "9", "99 ", "99 B", "99 Bo", "99 Bot", "99 Bott", "99 Bottl", "99 Bottle", "99 Bottles"];
    assert Piece(s, 0) == "9";
    assert Piece(s, 1) == "9 ";
    assert Piece(s, 2) == "B";
    assert Piece(s, 3) == "o";
    assert Piece(s, 4) == "t";
    assert Piece(s, 5) == "t";
    assert Piece(s, 6) == "l";
    assert Piece(s, 7) == "e";
    assert Piece(s, 8) == "s";
    RenderSteps(s, outs, |s|);
  }

  lemma TableMay5()
    ensures DisplayNameOf("May5") == "May 5"
  {
    var s := "May5";
    var outs := ["", "M", "Ma", "May", "May 5"];
    assert Piece(s, 0) == "M";
    assert Piece(s, 1) == "a";
    assert Piece(s, 2) == "y";
    assert Piece(s, 3) == " 5";
    RenderSteps(s, outs, |s|);
  }

  lemma TableBFG9000()
    ensures DisplayNameOf("BFG9000") == "BFG 9000"
  {
    var s := "BFG9000";
    var outs := ["", "B", "BF", "BFG", "BFG 9", "BFG 90", "BFG 900", "BFG 9000"];
    assert Piece(s, 0) == "B";
    assert Piece(s, 1) == "F";
    assert Piece(s, 2) == "G";
    assert Piece(s, 3) == " 9";
    assert Piece(s, 4) == "0";
    assert Piece(s, 5) == "0";
    assert Piece(s, 6) == "0";
    RenderSteps(s, outs, |s|);
  }
}
