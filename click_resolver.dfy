/**
 * The candidate search of AutomationService.FindAndClickAsync(string, int): the text to
 * find is lower-cased and split into entries, then the OCR tree of the screen is walked
 * element by element. A node whose words match some of the entries becomes a click
 * candidate with confidence (matched words) / max(entries, words of the node); the walk
 * goes one level down (element, line, word) only below certainty, and a word's confidence
 * is scaled by the confidence of its line. The place clicked is the first candidate of
 * maximal confidence.
 */
module ClickResolver {
  import opened Wrappers
  import opened Text
  import opened EditDistance
  import opened Ratios
  import opened Models

  /** `findText.ToLower()` split into trimmed, non-empty entries. */
  function FindWords(findText: string): seq<string> {
    SplitEntries(Lower(findText))
  }

  /** `findWords.Any(f => ComputeEditDistance(word, f) <= d)`. */
  predicate Within(findWords: seq<string>, word: string, d: int) {
    exists k :: 0 <= k < |findWords| && Levenshtein(word, findWords[k]) <= d
  }

  /**
   * The form of an OCR word measured against the entries: lower case, and at the word
   * level also trimmed (see TrimAtWordLevelIsRedundant).
   */
  function DistanceForm(w: string, trimmed: bool): string {
    if trimmed then Trim(Lower(w)) else Lower(w)
  }

  /** One OCR word counts as a match: its lower case is an entry, or it is near one. */
  predicate Counts(findWords: seq<string>, w: string, d: int, trimmed: bool) {
    Lower(w) in findWords || (d > 0 && Within(findWords, DistanceForm(w, trimmed), d))
  }

  /** `wordMatchCount`: how many of the pieces count. */
  function MatchCount(findWords: seq<string>, pieces: seq<string>, d: int, trimmed: bool): (r: int)
    ensures 0 <= r <= |pieces|
  {
    if pieces == [] then 0
    else MatchCount(findWords, pieces[..|pieces| - 1], d, trimmed)
         + (if Counts(findWords, pieces[|pieces| - 1], d, trimmed) then 1 else 0)
  }

  /** `wordMatchCount / Math.Max(findWords.Length, levelWords.Length)`, for a positive count. */
  function LevelConfidence(m: int, nFind: int, nLevel: int): (r: Confidence)
    requires 0 < m <= nLevel
  {
    Ratio(m, Max(nFind, nLevel))
  }

  /** Every level confidence lies in (0, 1], and is 1 exactly when all words matched and none are missing. */
  lemma LevelConfidenceRange(m: int, nFind: int, nLevel: int)
    requires 0 < m <= nLevel
    ensures InUnitRange(LevelConfidence(m, nFind, nLevel))
    ensures IsCertain(LevelConfidence(m, nFind, nLevel)) <==> m == nLevel && nFind <= nLevel
  {
  }

  // ---------------------------------------------------------------------------
  // The candidates, level by level

  /** The candidate one OCR word gives under a line of confidence `lineConf`, if any. */
  function WordCandidate(findWords: seq<string>, w: Word, lineConf: Confidence, d: int): seq<Candidate> {
    var pieces := SplitEntries(w.text);
    var m := MatchCount(findWords, pieces, d, true);
    if m > 0 then [Candidate(w.box, w.text, Mul(LevelConfidence(m, |findWords|, |pieces|), lineConf))]
    else []
  }

  function WordCandidates(findWords: seq<string>, words: seq<Word>, lineConf: Confidence, d: int): seq<Candidate> {
    if words == [] then []
    else WordCandidates(findWords, words[..|words| - 1], lineConf, d)
         + WordCandidate(findWords, words[|words| - 1], lineConf, d)
  }

  /** A line with text gives its own candidate and, below certainty, those of its words. */
  function LineCandidates(findWords: seq<string>, line: Line, d: int): seq<Candidate> {
    if line.text == "" then []
    else
      var pieces := SplitEntries(line.text);
      var m := MatchCount(findWords, pieces, d, false);
      if m == 0 then []
      else
        var c := LevelConfidence(m, |findWords|, |pieces|);
        [Candidate(line.box, line.text, c)]
        + (if BelowOne(c) then WordCandidates(findWords, line.words, c, d) else [])
  }

  function LinesCandidates(findWords: seq<string>, lines: seq<Line>, d: int): seq<Candidate> {
    if lines == [] then []
    else LinesCandidates(findWords, lines[..|lines| - 1], d) + LineCandidates(findWords, lines[|lines| - 1], d)
  }

  /** An element with text gives its own candidate and, below certainty, those of its lines. */
  function ElementCandidates(findWords: seq<string>, e: Element, d: int): seq<Candidate> {
    if e.text == "" then []
    else
      var pieces := SplitEntries(e.text);
      var m := MatchCount(findWords, pieces, d, false);
      if m == 0 then []
      else
        var c := LevelConfidence(m, |findWords|, |pieces|);
        [Candidate(e.box, e.text, c)]
        + (if BelowOne(c) then LinesCandidates(findWords, e.lines, d) else [])
  }

  function ElementsCandidates(findWords: seq<string>, elements: seq<Element>, d: int): seq<Candidate> {
    if elements == [] then []
    else ElementsCandidates(findWords, elements[..|elements| - 1], d)
         + ElementCandidates(findWords, elements[|elements| - 1], d)
  }

  /** One more element of the walk appends its candidates. */
  lemma ElementsCandidatesStep(findWords: seq<string>, elements: seq<Element>, i: int, d: int)
    requires 0 <= i < |elements|
    ensures ElementsCandidates(findWords, elements[..i + 1], d)
            == ElementsCandidates(findWords, elements[..i], d) + ElementCandidates(findWords, elements[i], d)
  {
    assert elements[..i + 1][..i] == elements[..i];
  }

  /** `textMatches` once the walk of the screen is over. */
  function Candidates(findText: string, page: OcrPage, d: int): seq<Candidate> {
    ElementsCandidates(FindWords(findText), page.elements, d)
  }

  // ---------------------------------------------------------------------------
  // The walk, as the source performs it

  /** The `findWords.Any(...)` test: is `word` within distance d of some entry. */
  method AnyWithin(findWords: seq<string>, word: string, d: int) returns (hit: bool)
    ensures hit == Within(findWords, word, d)
  {
    var k := 0;
    while k < |findWords|
      invariant 0 <= k <= |findWords|
      invariant forall q :: 0 <= q < k ==> Levenshtein(word, findWords[q]) > d
    {
      var dist := ComputeEditDistance(word, findWords[k]);
      if dist <= d {
        return true;
      }
      k := k + 1;
    }
    return false;
  }

  /** The inner `foreach` of each level: counts the pieces that match an entry. */
  method CountMatches(findWords: seq<string>, pieces: seq<string>, d: int, trimmed: bool) returns (count: int)
    ensures count == MatchCount(findWords, pieces, d, trimmed)
  {
    count := 0;
    var i := 0;
    while i < |pieces|
      invariant 0 <= i <= |pieces|
      invariant count == MatchCount(findWords, pieces[..i], d, trimmed)
    {
      var word := Lower(pieces[i]);
      if word in findWords {
        count := count + 1;
      } else if d > 0 {
        var near := AnyWithin(findWords, if trimmed then Trim(word) else word, d);
        if near {
          count := count + 1;
        }
      }
      assert pieces[..i + 1][..i] == pieces[..i];
      i := i + 1;
    }
    assert pieces[..|pieces|] == pieces;
  }

  /** The word level under a line of confidence `lineConf`. */
  method ResolveWords(findWords: seq<string>, words: seq<Word>, lineConf: Confidence, d: int)
    returns (cands: seq<Candidate>)
    ensures cands == WordCandidates(findWords, words, lineConf, d)
  {
    cands := [];
    var i := 0;
    while i < |words|
      invariant 0 <= i <= |words|
      invariant cands == WordCandidates(findWords, words[..i], lineConf, d)
    {
      var w := words[i];
      var pieces := SplitEntries(w.text);
      var m := CountMatches(findWords, pieces, d, true);
      if m > 0 {
        cands := cands + [Candidate(w.box, w.text, Mul(LevelConfidence(m, |findWords|, |pieces|), lineConf))];
      }
      assert words[..i + 1][..i] == words[..i];
      i := i + 1;
    }
    assert words[..|words|] == words;
  }

  /** One line: its candidate and, below certainty, its words. */
  method ResolveLine(findWords: seq<string>, line: Line, d: int) returns (cands: seq<Candidate>)
    ensures cands == LineCandidates(findWords, line, d)
  {
    cands := [];
    if line.text == "" {
      return;
    }
    var pieces := SplitEntries(line.text);
    var m := CountMatches(findWords, pieces, d, false);
    if m > 0 {
      var c := LevelConfidence(m, |findWords|, |pieces|);
      cands := [Candidate(line.box, line.text, c)];
      if BelowOne(c) {
        var more := ResolveWords(findWords, line.words, c, d);
        cands := cands + more;
      }
    }
  }

  /** The line level of one element. */
  method ResolveLines(findWords: seq<string>, lines: seq<Line>, d: int) returns (cands: seq<Candidate>)
    ensures cands == LinesCandidates(findWords, lines, d)
  {
    cands := [];
    var i := 0;
    while i < |lines|
      invariant 0 <= i <= |lines|
      invariant cands == LinesCandidates(findWords, lines[..i], d)
    {
      var more := ResolveLine(findWords, lines[i], d);
      cands := cands + more;
      assert lines[..i + 1][..i] == lines[..i];
      i := i + 1;
    }
    assert lines[..|lines|] == lines;
  }

  /** One element: its candidate and, below certainty, its lines. */
  method ResolveElement(findWords: seq<string>, e: Element, d: int) returns (cands: seq<Candidate>)
    ensures cands == ElementCandidates(findWords, e, d)
  {
    cands := [];
    if e.text == "" {
      return;
    }
    var pieces := SplitEntries(e.text);
    var m := CountMatches(findWords, pieces, d, false);
    if m > 0 {
      var c := LevelConfidence(m, |findWords|, |pieces|);
      cands := [Candidate(e.box, e.text, c)];
      if BelowOne(c) {
        var more := ResolveLines(findWords, e.lines, d);
        cands := cands + more;
      }
    }
  }

  /** The outer `foreach` over the elements of the screen. */
  method CollectCandidates(findText: string, page: OcrPage, d: int) returns (cands: seq<Candidate>)
    ensures cands == Candidates(findText, page, d)
  {
    var findWords := FindWords(findText);
    cands := [];
    var i := 0;
    while i < |page.elements|
      invariant 0 <= i <= |page.elements|
      invariant cands == ElementsCandidates(findWords, page.elements[..i], d)
    {
      var more := ResolveElement(findWords, page.elements[i], d);
      cands := cands + more;
      ElementsCandidatesStep(findWords, page.elements, i, d);
      i := i + 1;
    }
    assert page.elements[..|page.elements|] == page.elements;
  }

  /**
   * `textMatches.First(tm => tm.Confidence == textMatches.Max(m => m.Confidence))`: the
   * first candidate whose confidence equals the largest one.
   */
  method SelectBest(cands: seq<Candidate>) returns (best: int)
    requires |cands| > 0
    ensures IsBest(cands, best)
    ensures best == BestIndex(cands)
  {
    // The maximum, and (as a proof aid) where it was taken from.
    var top := cands[0].confidence;
    ghost var at := 0;
    var i := 1;
    while i < |cands|
      invariant 1 <= i <= |cands|
      invariant 0 <= at < i && cands[at].confidence == top
      invariant forall k :: 0 <= k < i ==> AtLeast(top, cands[k].confidence)
    {
      if Below(top, cands[i].confidence) {
        forall k | 0 <= k < i
          ensures AtLeast(cands[i].confidence, cands[k].confidence)
        {
          AtLeastTotal(top, cands[i].confidence);
          AtLeastTransitive(cands[i].confidence, top, cands[k].confidence);
        }
        top := cands[i].confidence;
        at := i;
      }
      i := i + 1;
    }
    // The first candidate of that value.
    best := 0;
    while !SameValue(cands[best].confidence, top)
      invariant 0 <= best <= at
      invariant forall k :: 0 <= k < best ==> !SameValue(cands[k].confidence, top)
      decreases at - best
    {
      best := best + 1;
    }
    forall k | 0 <= k < |cands|
      ensures AtLeast(cands[best].confidence, cands[k].confidence)
    {
      SameValueCompares(cands[best].confidence, top, cands[k].confidence);
    }
    forall k | 0 <= k < best
      ensures Below(cands[k].confidence, cands[best].confidence)
    {
      SameValueCompares(cands[best].confidence, top, cands[k].confidence);
    }
    OnlyBestIndexIsBest(cands, best);
  }

  /**
   * Where FindAndClickAsync clicks on a page: the box of the first candidate of highest
   * confidence, or nothing when the walk found no candidate.
   */
  function ClickTarget(findText: string, page: OcrPage, d: int): Option<Box> {
    var cands := Candidates(findText, page, d);
    if cands == [] then None else Some(cands[BestIndex(cands)].location)
  }

  /** The same on a read that may have failed: no screen text, no target. */
  function TargetOn(page: Option<OcrPage>, findText: string, d: int): Option<Box> {
    if page.None? then None else ClickTarget(findText, page.value, d)
  }

  /** The walk over the screen followed by the choice of the best candidate. */
  method ChooseTarget(page: Option<OcrPage>, findText: string, d: int) returns (target: Option<Box>)
    ensures target == TargetOn(page, findText, d)
  {
    if page.None? {
      return None;
    }
    var cands := CollectCandidates(findText, page.value, d);
    if |cands| == 0 {
      return None;
    }
    var best := SelectBest(cands);
    target := Some(cands[best].location);
  }

  /** The choice SelectBest makes: a candidate of maximal confidence with none as good before it. */
  predicate IsBest(cands: seq<Candidate>, best: int) {
    && 0 <= best < |cands|
    && (forall k :: 0 <= k < |cands| ==> AtLeast(cands[best].confidence, cands[k].confidence))
    && (forall k :: 0 <= k < best ==> Below(cands[k].confidence, cands[best].confidence))
  }

  /** An independent, recursive statement of the same choice: keep the earlier one unless a later one is larger. */
  function BestIndex(cands: seq<Candidate>): (r: int)
    requires |cands| > 0
    ensures 0 <= r < |cands|
  {
    if |cands| == 1 then 0
    else
      var i := BestIndex(cands[..|cands| - 1]);
      if Below(cands[i].confidence, cands[|cands| - 1].confidence) then |cands| - 1 else i
  }

  // ---------------------------------------------------------------------------
  // Properties

  /** The recursive choice is the first candidate of maximal confidence. */
  lemma {:induction false} BestIndexIsBest(cands: seq<Candidate>)
    requires |cands| > 0
    ensures IsBest(cands, BestIndex(cands))
  {
    if |cands| > 1 {
      var init := cands[..|cands| - 1];
      var last := |cands| - 1;
      BestIndexIsBest(init);
      var i := BestIndex(init);
      assert forall k :: 0 <= k < |init| ==> init[k] == cands[k];
      if Below(cands[i].confidence, cands[last].confidence) {
        forall k | 0 <= k < |cands|
          ensures AtLeast(cands[last].confidence, cands[k].confidence)
        {
          if k < last {
            AtLeastTotal(cands[i].confidence, cands[last].confidence);
            AtLeastTransitive(cands[last].confidence, cands[i].confidence, cands[k].confidence);
          }
        }
        forall k | 0 <= k < last
          ensures Below(cands[k].confidence, cands[last].confidence)
        {
          if AtLeast(cands[k].confidence, cands[last].confidence) {
            AtLeastTransitive(cands[i].confidence, cands[k].confidence, cands[last].confidence);
          }
        }
      }
    }
  }

  /** FindAndClickAsync's target is there exactly when there are candidates, and is the box of a best one. */
  lemma ClickTargetIsBest(findText: string, page: OcrPage, d: int)
    ensures var cands := Candidates(findText, page, d);
            && (ClickTarget(findText, page, d).None? <==> cands == [])
            && (ClickTarget(findText, page, d).Some? ==>
                  exists b :: IsBest(cands, b) && ClickTarget(findText, page, d).value == cands[b].location)
  {
    var cands := Candidates(findText, page, d);
    if cands != [] {
      BestIndexIsBest(cands);
      assert IsBest(cands, BestIndex(cands));
    }
  }

  /** Any index that is the best is the one BestIndex names. */
  lemma OnlyBestIndexIsBest(cands: seq<Candidate>, i: int)
    requires IsBest(cands, i)
    ensures i == BestIndex(cands)
  {
    var b := BestIndex(cands);
    BestIndexIsBest(cands);
    assert i < b ==> Below(cands[i].confidence, cands[b].confidence);
    assert b < i ==> Below(cands[b].confidence, cands[i].confidence);
  }

  /** Ties are broken by position: no other index is the best, so SelectBest's choice is determined. */
  lemma BestIsUnique(cands: seq<Candidate>, best: int, i: int)
    requires IsBest(cands, best) && 0 <= i < |cands| && i != best
    ensures !IsBest(cands, i)
  {
    if i < best {
      assert Below(cands[i].confidence, cands[best].confidence);
    } else {
      assert AtLeast(cands[best].confidence, cands[i].confidence);
    }
  }

  /** `MatchCount` is zero exactly when no piece counts. */
  lemma {:induction false} MatchCountZeroIff(findWords: seq<string>, pieces: seq<string>, d: int, trimmed: bool)
    ensures MatchCount(findWords, pieces, d, trimmed) == 0
            <==> forall k :: 0 <= k < |pieces| ==> !Counts(findWords, pieces[k], d, trimmed)
  {
    if pieces != [] {
      var init := pieces[..|pieces| - 1];
      MatchCountZeroIff(findWords, init, d, trimmed);
      assert forall k :: 0 <= k < |init| ==> init[k] == pieces[k];
    }
  }

  /** `MatchCount` is the number of pieces exactly when every piece counts. */
  lemma {:induction false} MatchCountFullIff(findWords: seq<string>, pieces: seq<string>, d: int, trimmed: bool)
    ensures MatchCount(findWords, pieces, d, trimmed) == |pieces|
            <==> forall k :: 0 <= k < |pieces| ==> Counts(findWords, pieces[k], d, trimmed)
  {
    if pieces != [] {
      var init := pieces[..|pieces| - 1];
      MatchCountFullIff(findWords, init, d, trimmed);
      assert forall k :: 0 <= k < |init| ==> init[k] == pieces[k];
    }
  }

  /**
   * A node of the tree is a certain match exactly when every one of its words counts and
   * it has at least as many words as the text to find.
   */
  lemma NodeCertainIff(findWords: seq<string>, pieces: seq<string>, d: int, trimmed: bool)
    requires MatchCount(findWords, pieces, d, trimmed) > 0
    ensures IsCertain(LevelConfidence(MatchCount(findWords, pieces, d, trimmed), |findWords|, |pieces|))
            <==> (forall k :: 0 <= k < |pieces| ==> Counts(findWords, pieces[k], d, trimmed))
                 && |findWords| <= |pieces|
  {
    MatchCountFullIff(findWords, pieces, d, trimmed);
    LevelConfidenceRange(MatchCount(findWords, pieces, d, trimmed), |findWords|, |pieces|);
  }

  /** A larger edit distance never makes a word stop counting. */
  lemma CountsMonotone(findWords: seq<string>, w: string, d1: int, d2: int, trimmed: bool)
    requires d1 <= d2 && Counts(findWords, w, d1, trimmed)
    ensures Counts(findWords, w, d2, trimmed)
  {
    if Lower(w) !in findWords {
      var k :| 0 <= k < |findWords| && Levenshtein(DistanceForm(w, trimmed), findWords[k]) <= d1;
      assert Levenshtein(DistanceForm(w, trimmed), findWords[k]) <= d2;
    }
  }

  /** A larger edit distance never lowers the match count of a node. */
  lemma {:induction false} MatchCountMonotone(findWords: seq<string>, pieces: seq<string>, d1: int, d2: int, trimmed: bool)
    requires d1 <= d2
    ensures MatchCount(findWords, pieces, d1, trimmed) <= MatchCount(findWords, pieces, d2, trimmed)
  {
    if pieces != [] {
      MatchCountMonotone(findWords, pieces[..|pieces| - 1], d1, d2, trimmed);
      if Counts(findWords, pieces[|pieces| - 1], d1, trimmed) {
        CountsMonotone(findWords, pieces[|pieces| - 1], d1, d2, trimmed);
      }
    }
  }

  /**
   * The extra `Trim()` of the word level changes nothing: the entries of a split are
   * already trimmed, and lower-casing keeps them so.
   */
  lemma TrimAtWordLevelIsRedundant(findWords: seq<string>, w: string, d: int)
    requires IsTrimmed(w)
    ensures Counts(findWords, w, d, true) == Counts(findWords, w, d, false)
  {
    LowerOfTrimmed(w);
    TrimOfTrimmed(Lower(w));
  }

  lemma {:induction false} MatchCountIgnoresTrim(findWords: seq<string>, pieces: seq<string>, d: int)
    requires forall k :: 0 <= k < |pieces| ==> IsTrimmed(pieces[k])
    ensures MatchCount(findWords, pieces, d, true) == MatchCount(findWords, pieces, d, false)
  {
    if pieces != [] {
      MatchCountIgnoresTrim(findWords, pieces[..|pieces| - 1], d);
      TrimAtWordLevelIsRedundant(findWords, pieces[|pieces| - 1], d);
    }
  }

  /** With no entries to find, no word counts. */
  lemma NoEntryNoCount(pieces: seq<string>, d: int, trimmed: bool)
    ensures MatchCount([], pieces, d, trimmed) == 0
  {
    MatchCountZeroIff([], pieces, d, trimmed);
  }

  lemma {:induction false} NoEntryNoElementCandidates(elements: seq<Element>, d: int)
    ensures ElementsCandidates([], elements, d) == []
  {
    if elements != [] {
      NoEntryNoElementCandidates(elements[..|elements| - 1], d);
      NoEntryNoCount(SplitEntries(elements[|elements| - 1].text), d, false);
    }
  }

  /** A text to find made only of white space and separators finds nothing on any screen. */
  lemma BlankFindTextFindsNothing(findText: string, page: OcrPage, d: int)
    requires forall i :: 0 <= i < |findText| ==> IsWhiteSpace(findText[i]) || IsSplitChar(findText[i])
    ensures Candidates(findText, page, d) == []
  {
    var lower := Lower(findText);
    assert forall i :: 0 <= i < |lower| ==> lower[i] == findText[i];
    SplitEntriesOfSeparators(lower);
    NoEntryNoElementCandidates(page.elements, d);
  }

  /** Every confidence the walk records lies in (0, 1]. */
  predicate AllInUnitRange(cands: seq<Candidate>) {
    forall k :: 0 <= k < |cands| ==> InUnitRange(cands[k].confidence)
  }

  /** Every word under a line scores at most the line's own confidence, and at least something. */
  lemma {:induction false} WordsWithinLine(findWords: seq<string>, words: seq<Word>, lineConf: Confidence, d: int)
    requires InUnitRange(lineConf)
    ensures AllInUnitRange(WordCandidates(findWords, words, lineConf, d))
    ensures forall k :: 0 <= k < |WordCandidates(findWords, words, lineConf, d)|
              ==> AtLeast(lineConf, WordCandidates(findWords, words, lineConf, d)[k].confidence)
  {
    if words != [] {
      WordsWithinLine(findWords, words[..|words| - 1], lineConf, d);
      var w := words[|words| - 1];
      var pieces := SplitEntries(w.text);
      var m := MatchCount(findWords, pieces, d, true);
      if m > 0 {
        var x := LevelConfidence(m, |findWords|, |pieces|);
        LevelConfidenceRange(m, |findWords|, |pieces|);
        MulInUnitRange(x, lineConf);
        MulAtMost(x, lineConf);
      }
    }
  }

  /**
   * A line's own candidate comes first in its block and none of its words outranks it, so
   * the first-of-maximal choice never clicks a word in preference to its line.
   */
  lemma LineDominatesItsWords(findWords: seq<string>, line: Line, d: int)
    ensures AllInUnitRange(LineCandidates(findWords, line, d))
    ensures forall k :: 0 <= k < |LineCandidates(findWords, line, d)|
              ==> AtLeast(LineCandidates(findWords, line, d)[0].confidence, LineCandidates(findWords, line, d)[k].confidence)
  {
    if line.text != "" {
      var pieces := SplitEntries(line.text);
      var m := MatchCount(findWords, pieces, d, false);
      if m > 0 {
        var c := LevelConfidence(m, |findWords|, |pieces|);
        LevelConfidenceRange(m, |findWords|, |pieces|);
        WordsWithinLine(findWords, line.words, c, d);
      }
    }
  }

  lemma {:induction false} LinesInUnitRange(findWords: seq<string>, lines: seq<Line>, d: int)
    ensures AllInUnitRange(LinesCandidates(findWords, lines, d))
  {
    if lines != [] {
      LinesInUnitRange(findWords, lines[..|lines| - 1], d);
      LineDominatesItsWords(findWords, lines[|lines| - 1], d);
    }
  }

  /** A certain element match stops the walk: the element is its own only candidate. */
  lemma ElementCandidatesShape(findWords: seq<string>, e: Element, d: int)
    ensures AllInUnitRange(ElementCandidates(findWords, e, d))
    ensures |ElementCandidates(findWords, e, d)| > 0 && IsCertain(ElementCandidates(findWords, e, d)[0].confidence)
            ==> |ElementCandidates(findWords, e, d)| == 1
  {
    LinesInUnitRange(findWords, e.lines, d);
    if e.text != "" {
      var pieces := SplitEntries(e.text);
      var m := MatchCount(findWords, pieces, d, false);
      if m > 0 {
        LevelConfidenceRange(m, |findWords|, |pieces|);
      }
    }
  }

  lemma {:induction false} ElementsInUnitRange(findWords: seq<string>, elements: seq<Element>, d: int)
    ensures AllInUnitRange(ElementsCandidates(findWords, elements, d))
  {
    if elements != [] {
      ElementsInUnitRange(findWords, elements[..|elements| - 1], d);
      ElementCandidatesShape(findWords, elements[|elements| - 1], d);
    }
  }

  /** Every candidate of a screen has a confidence in (0, 1]. */
  lemma CandidatesInUnitRange(findText: string, page: OcrPage, d: int)
    ensures AllInUnitRange(Candidates(findText, page, d))
  {
    ElementsInUnitRange(FindWords(findText), page.elements, d);
  }
}
