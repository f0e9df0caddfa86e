/**
 * The .NET string primitives the screen matcher is built from: Char.IsWhiteSpace,
 * String.ToLower/ToUpper, String.Trim and String.Split over the fixed split characters
 * of AutomationService (space , . ? ; : and newline).
 */
module Text {

  /**
   * Char.IsWhiteSpace: the control characters tab to carriage return and U+0085, and the
   * Unicode space, line and paragraph separators.
   */
  predicate IsWhiteSpace(c: char) {
    c == ' ' || c == '\t' || c == '\n' || c == '\r' || c == '\U{000B}' || c == '\U{000C}'
    || c == '\U{0085}' || c == '\U{00A0}' || c == '\U{1680}' || ('\U{2000}' <= c <= '\U{200A}')
    || c == '\U{2028}' || c == '\U{2029}' || c == '\U{202F}' || c == '\U{205F}' || c == '\U{3000}'
  }

  /** Membership in `_splitChars`. */
  predicate IsSplitChar(c: char) {
    c == ' ' || c == ',' || c == '.' || c == '?' || c == ';' || c == ':' || c == '\n'
  }

  predicate NoSplitChar(s: string) {
    forall i :: 0 <= i < |s| ==> !IsSplitChar(s[i])
  }

  /** String.IsNullOrWhiteSpace on a non-null string. */
  predicate IsBlank(s: string) {
    forall i :: 0 <= i < |s| ==> IsWhiteSpace(s[i])
  }

  function LowerChar(c: char): char {
    if 'A' <= c <= 'Z' then (c as int + 32) as char else c
  }

  function UpperChar(c: char): char {
    if 'a' <= c <= 'z' then (c as int - 32) as char else c
  }

  /** String.ToLower (ASCII letters only). */
  function Lower(s: string): (r: string)
    ensures |r| == |s|
  {
    seq(|s|, i requires 0 <= i < |s| => LowerChar(s[i]))
  }

  /** String.ToUpper (ASCII letters only). */
  function Upper(s: string): (r: string)
    ensures |r| == |s|
    ensures forall i :: 0 <= i < |s| ==> r[i] == UpperChar(s[i])
  {
    seq(|s|, i requires 0 <= i < |s| => UpperChar(s[i]))
  }

  predicate IsLower(s: string) {
    forall i :: 0 <= i < |s| ==> LowerChar(s[i]) == s[i]
  }

  /** No white space at either end. */
  predicate IsTrimmed(s: string) {
    |s| > 0 ==> !IsWhiteSpace(s[0]) && !IsWhiteSpace(s[|s| - 1])
  }

  /** String.TrimStart: the white space at the front removed. */
  function TrimStart(s: string): (r: string)
    ensures |r| <= |s|
  {
    if |s| > 0 && IsWhiteSpace(s[0]) then TrimStart(s[1..]) else s
  }

  /** String.TrimEnd: the white space at the back removed. */
  function TrimEnd(s: string): (r: string)
    ensures |r| <= |s|
  {
    if |s| > 0 && IsWhiteSpace(s[|s| - 1]) then TrimEnd(s[..|s| - 1]) else s
  }

  /** String.Trim: white space removed from both ends (see TrimTrims). */
  function Trim(s: string): (r: string)
    ensures |r| <= |s|
  {
    TrimEnd(TrimStart(s))
  }

  /**
   * String.Split(_splitChars) with no options: every split character ends a piece, so
   * empty pieces are kept and the number of pieces is one more than the number of
   * split characters.
   */
  function Split(s: string): (r: seq<string>)
    ensures |r| > 0
  {
    if s == [] then [""]
    else
      var rest := Split(s[1..]);
      if IsSplitChar(s[0]) then [""] + rest
      else [[s[0]] + rest[0]] + rest[1..]
  }

  function CountSplitChars(s: string): nat {
    if s == [] then 0 else (if IsSplitChar(s[0]) then 1 else 0) + CountSplitChars(s[1..])
  }

  /** The pieces joined back together with one separator character between neighbours. */
  function Join(pieces: seq<string>, sep: char): string
    requires |pieces| > 0
  {
    if |pieces| == 1 then pieces[0] else pieces[0] + [sep] + Join(pieces[1..], sep)
  }

  /** Each piece trimmed and the blank ones dropped. */
  function TrimNonEmpty(pieces: seq<string>): (r: seq<string>)
    ensures |r| <= |pieces|
    ensures forall i :: 0 <= i < |r| ==> r[i] != "" && IsTrimmed(r[i])
  {
    if pieces == [] then []
    else
      var t := Trim(pieces[0]);
      TrimTrims(pieces[0]);
      (if t == "" then [] else [t]) + TrimNonEmpty(pieces[1..])
  }

  /**
   * String.Split(_splitChars, RemoveEmptyEntries | TrimEntries): each piece trimmed,
   * and pieces left empty by trimming dropped.
   */
  function SplitEntries(s: string): (r: seq<string>)
    ensures forall i :: 0 <= i < |r| ==> r[i] != "" && IsTrimmed(r[i])
  {
    TrimNonEmpty(Split(s))
  }

  // ---------------------------------------------------------------------------
  // Properties

  /** Lower-casing works character by character. */
  lemma LowerAt(s: string, i: int)
    requires 0 <= i < |s|
    ensures Lower(s)[i] == LowerChar(s[i])
  {
  }

  /** Splitting gives one more piece than there are split characters, and no piece holds one. */
  lemma {:induction false} SplitPieces(s: string)
    ensures |Split(s)| == CountSplitChars(s) + 1
    ensures forall i :: 0 <= i < |Split(s)| ==> NoSplitChar(Split(s)[i])
  {
    if s != [] {
      SplitPieces(s[1..]);
      var rest := Split(s[1..]);
      if !IsSplitChar(s[0]) {
        assert Split(s)[0] == [s[0]] + rest[0];
        forall i | 0 < i < |Split(s)| ensures Split(s)[i] == rest[i] {
        }
      }
    }
  }

  /** A character other than a split character joins the first piece of what follows it. */
  lemma SplitCons(c: char, s: string)
    requires !IsSplitChar(c)
    ensures Split([c] + s) == [[c] + Split(s)[0]] + Split(s)[1..]
  {
    assert ([c] + s)[1..] == s;
  }

  /** A piece free of split characters stays whole at the front of what follows it. */
  lemma {:induction false} SplitPrefix(p: string, s: string)
    requires NoSplitChar(p)
    ensures Split(p + s) == [p + Split(s)[0]] + Split(s)[1..]
  {
    if p == [] {
      assert p + s == s && p + Split(s)[0] == Split(s)[0];
      assert Split(s) == [Split(s)[0]] + Split(s)[1..];
    } else {
      var tail := p[1..];
      SplitPrefix(tail, s);
      assert p + s == [p[0]] + (tail + s);
      SplitCons(p[0], tail + s);
      assert [p[0]] + (tail + Split(s)[0]) == p + Split(s)[0];
    }
  }

  /** Round trip: splitting pieces joined by a split character gives the pieces back. */
  lemma {:induction false} SplitJoin(pieces: seq<string>, sep: char)
    requires |pieces| > 0 && IsSplitChar(sep)
    requires forall i :: 0 <= i < |pieces| ==> NoSplitChar(pieces[i])
    ensures Split(Join(pieces, sep)) == pieces
  {
    if |pieces| == 1 {
      SplitPrefix(pieces[0], "");
      assert pieces[0] + "" == pieces[0];
      assert Split("") == [""];
    } else {
      var rest := Join(pieces[1..], sep);
      SplitJoin(pieces[1..], sep);
      assert Join(pieces, sep) == pieces[0] + ([sep] + rest);
      SplitPrefix(pieces[0], [sep] + rest);
      assert ([sep] + rest)[1..] == rest;
      assert Split([sep] + rest) == [""] + pieces[1..];
      assert pieces[0] + "" == pieces[0];
      assert pieces == [pieces[0]] + pieces[1..];
    }
  }

  /** TrimStart drops exactly a blank prefix and stops at the first other character. */
  lemma {:induction false} TrimStartDropsBlankPrefix(s: string)
    ensures |TrimStart(s)| <= |s| && TrimStart(s) == s[|s| - |TrimStart(s)|..]
    ensures |TrimStart(s)| > 0 ==> !IsWhiteSpace(TrimStart(s)[0])
    ensures IsBlank(s[..|s| - |TrimStart(s)|])
  {
    if |s| > 0 && IsWhiteSpace(s[0]) {
      var t := s[1..];
      TrimStartDropsBlankPrefix(t);
      var k := |t| - |TrimStart(t)|;
      assert t[k..] == s[k + 1..];
      var blank := s[..k + 1];
      forall i | 0 <= i < |blank|
        ensures IsWhiteSpace(blank[i])
      {
        if i > 0 {
          assert blank[i] == t[..k][i - 1];
        }
      }
    }
  }

  /** TrimEnd drops exactly a blank suffix and stops at the last other character. */
  lemma {:induction false} TrimEndDropsBlankSuffix(s: string)
    ensures |TrimEnd(s)| <= |s| && TrimEnd(s) == s[..|TrimEnd(s)|]
    ensures |TrimEnd(s)| > 0 ==> !IsWhiteSpace(TrimEnd(s)[|TrimEnd(s)| - 1])
    ensures IsBlank(s[|TrimEnd(s)|..])
  {
    if |s| > 0 && IsWhiteSpace(s[|s| - 1]) {
      var r := TrimEnd(s[..|s| - 1]);
      TrimEndDropsBlankSuffix(s[..|s| - 1]);
      assert s[|r|..] == s[..|s| - 1][|r|..] + [s[|s| - 1]];
      assert s[..|s| - 1][..|r|] == s[..|r|];
    }
  }

  /** Trim leaves no white space at either end, and leaves nothing exactly when the input is blank. */
  lemma {:induction false} TrimTrims(s: string)
    ensures IsTrimmed(Trim(s))
    ensures Trim(s) == "" <==> IsBlank(s)
  {
    var t := TrimStart(s);
    TrimStartDropsBlankPrefix(s);
    TrimEndDropsBlankSuffix(t);
    var r := TrimEnd(t);
    if r != "" {
      assert r[0] == t[0];
      assert !IsWhiteSpace(s[|s| - |t|]);
    } else {
      assert s[..|s|] == s;
    }
  }

  /** A string with no white space at its ends is its own trim. */
  lemma {:induction false} TrimOfTrimmed(s: string)
    requires IsTrimmed(s)
    ensures Trim(s) == s
  {
  }

  /** Lower-casing maps white space to white space and nothing else to white space. */
  lemma LowerKeepsWhiteSpace(c: char)
    ensures IsWhiteSpace(LowerChar(c)) == IsWhiteSpace(c)
  {
  }

  /** Lower-casing a trimmed, non-blank string keeps it trimmed and non-blank; the result is lower case. */
  lemma {:induction false} LowerOfTrimmed(s: string)
    requires IsTrimmed(s)
    ensures IsTrimmed(Lower(s)) && IsLower(Lower(s))
    ensures IsBlank(Lower(s)) <==> s == ""
  {
    if |s| > 0 {
      LowerKeepsWhiteSpace(s[0]);
      LowerKeepsWhiteSpace(s[|s| - 1]);
      assert !IsWhiteSpace(Lower(s)[0]);
    }
  }

  /** Comparison ignores case: lower-casing twice is lower-casing once, and upper-case input lower-cases alike. */
  lemma {:induction false} LowerIgnoresCase(s: string)
    ensures Lower(Lower(s)) == Lower(s)
    ensures Lower(Upper(s)) == Lower(s)
  {
    assert forall i :: 0 <= i < |s| ==> LowerChar(UpperChar(s[i])) == LowerChar(s[i]);
  }

  /**
   * Upper-casing identifies exactly the strings lower-casing identifies, so comparing
   * `ToUpper()` results is a comparison that ignores case.
   */
  lemma UpperEqualIffLowerEqual(s: string, t: string)
    ensures Upper(s) == Upper(t) <==> Lower(s) == Lower(t)
  {
    if |s| == |t| {
      if Upper(s) == Upper(t) {
        forall i | 0 <= i < |s| ensures Lower(s)[i] == Lower(t)[i] {
          assert UpperChar(s[i]) == UpperChar(t[i]);
        }
      }
      if Lower(s) == Lower(t) {
        forall i | 0 <= i < |s| ensures Upper(s)[i] == Upper(t)[i] {
          assert Lower(s)[i] == LowerChar(s[i]) && Lower(t)[i] == LowerChar(t[i]);
        }
      }
    }
  }

  /** Text made only of white space and split characters splits into blank pieces. */
  lemma {:induction false} SplitOfSeparators(s: string)
    requires forall i :: 0 <= i < |s| ==> IsWhiteSpace(s[i]) || IsSplitChar(s[i])
    ensures forall k :: 0 <= k < |Split(s)| ==> IsBlank(Split(s)[k])
  {
    if s != [] {
      SplitOfSeparators(s[1..]);
    }
  }

  /** Trimming blank pieces and dropping the empty ones leaves nothing. */
  lemma {:induction false} TrimNonEmptyOfBlank(pieces: seq<string>)
    requires forall k :: 0 <= k < |pieces| ==> IsBlank(pieces[k])
    ensures TrimNonEmpty(pieces) == []
  {
    if pieces != [] {
      TrimTrims(pieces[0]);
      TrimNonEmptyOfBlank(pieces[1..]);
    }
  }

  /** Text made only of white space and split characters has no entries. */
  lemma SplitEntriesOfSeparators(s: string)
    requires forall i :: 0 <= i < |s| ==> IsWhiteSpace(s[i]) || IsSplitChar(s[i])
    ensures SplitEntries(s) == []
  {
    SplitOfSeparators(s);
    TrimNonEmptyOfBlank(Split(s));
  }
}
