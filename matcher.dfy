/**
 * The fuzzy text matcher of AutomationService: the bag of words of a screen
 * (GetScreenWordsAsync), the phrase comparison (CompareText) and the screen
 * matchers built on it (both MatchScreen overloads).
 */
module Matcher {
  import opened Wrappers
  import opened Text
  import opened EditDistance
  import opened Ratios
  import opened Models

  // ---------------------------------------------------------------------------
  // The bag of screen words

  /** `s.Trim().ToLower()`, the form in which screen words are kept. */
  function ScreenForm(s: string): string {
    Lower(Trim(s))
  }

  /** The words of one piece list, trimmed, lower-cased and with blank ones dropped. */
  function Tokens(pieces: seq<string>): (r: seq<string>)
    ensures |r| <= |pieces|
  {
    if pieces == [] then []
    else
      var t := ScreenForm(pieces[0]);
      (if t == "" then [] else [t]) + Tokens(pieces[1..])
  }

  /** The words of a whole page: every element's text split, in element order. */
  function ScreenWords(page: OcrPage): (r: seq<string>)
    decreases |page.elements|
  {
    if page.elements == [] then []
    else Tokens(Split(page.elements[0].text)) + ScreenWords(OcrPage(page.elements[1..]))
  }

  /** A token is exactly the screen form of a non-blank piece. */
  lemma {:induction false} TokensExactly(pieces: seq<string>, t: string)
    ensures t in Tokens(pieces) <==> t != "" && exists m :: 0 <= m < |pieces| && t == ScreenForm(pieces[m])
  {
    if pieces != [] {
      TokensExactly(pieces[1..], t);
      if t != "" && t == ScreenForm(pieces[0]) {
        assert t in Tokens(pieces);
      }
      if exists m :: 0 <= m < |pieces[1..]| && t == ScreenForm(pieces[1..][m]) {
        var m :| 0 <= m < |pieces[1..]| && t == ScreenForm(pieces[1..][m]);
        assert pieces[m + 1] == pieces[1..][m];
      }
      if exists m :: 0 <= m < |pieces| && t == ScreenForm(pieces[m]) {
        var m :| 0 <= m < |pieces| && t == ScreenForm(pieces[m]);
        if m > 0 { assert pieces[1..][m - 1] == pieces[m]; }
      }
    }
  }

  /** Every screen word is a non-empty, trimmed, lower-case word. */
  lemma {:induction false} TokensAreWords(pieces: seq<string>)
    ensures forall i :: 0 <= i < |Tokens(pieces)| ==> Tokens(pieces)[i] != "" && IsTrimmed(Tokens(pieces)[i]) && IsLower(Tokens(pieces)[i])
  {
    if pieces != [] {
      TrimTrims(pieces[0]);
      LowerOfTrimmed(Trim(pieces[0]));
      TokensAreWords(pieces[1..]);
    }
  }

  /** A word of the page comes from some element, and every non-blank piece of every element is there. */
  lemma {:induction false} ScreenWordsExactly(page: OcrPage, t: string)
    ensures t in ScreenWords(page) <==> exists k :: 0 <= k < |page.elements| && t in Tokens(Split(page.elements[k].text))
    decreases |page.elements|
  {
    if page.elements != [] {
      var tail := OcrPage(page.elements[1..]);
      ScreenWordsExactly(tail, t);
      if exists k :: 0 <= k < |tail.elements| && t in Tokens(Split(tail.elements[k].text)) {
        var k :| 0 <= k < |tail.elements| && t in Tokens(Split(tail.elements[k].text));
        assert page.elements[k + 1] == tail.elements[k];
      }
      if exists k :: 0 <= k < |page.elements| && t in Tokens(Split(page.elements[k].text)) {
        var k :| 0 <= k < |page.elements| && t in Tokens(Split(page.elements[k].text));
        if k > 0 { assert tail.elements[k - 1] == page.elements[k]; }
      }
    }
  }

  /** GetScreenWordsAsync: no words at all when the screen text could not be read. */
  function WordsOf(page: Option<OcrPage>): (r: Option<seq<string>>)
    ensures r.None? <==> page.None?
  {
    match page
    case None => None
    case Some(p) => Some(ScreenWords(p))
  }

  // ---------------------------------------------------------------------------
  // Phrase comparison

  /** `word.ToLower().Trim()`, the form in which CompareText compares words. */
  function CompareForm(s: string): string {
    Trim(Lower(s))
  }

  /**
   * A screen word accepts a phrase word when the two are equal ignoring case and
   * surrounding white space, or, only when the allowed edit distance is positive,
   * when they are within that distance.
   */
  predicate Accepts(sWord: string, pWord: string, editDistance: int) {
    CompareForm(sWord) == CompareForm(pWord)
    || (editDistance > 0 && Levenshtein(CompareForm(sWord), CompareForm(pWord)) <= editDistance)
  }

  /** Some screen word accepts the phrase word. */
  predicate Found(screenWords: seq<string>, pWord: string, editDistance: int) {
    exists i :: 0 <= i < |screenWords| && Accepts(screenWords[i], pWord, editDistance)
  }

  /** The `matches` list of CompareText: the phrase pieces found on the screen, in order. */
  function Matches(screenWords: seq<string>, pieces: seq<string>, editDistance: int): (r: seq<string>)
    ensures |r| <= |pieces|
  {
    if pieces == [] then []
    else
      var n := |pieces| - 1;
      Matches(screenWords, pieces[..n], editDistance)
        + (if Found(screenWords, pieces[n], editDistance) then [pieces[n]] else [])
  }

  /** A piece is among the matches exactly when it is a piece that some screen word accepts. */
  lemma {:induction false} MatchesExactly(screenWords: seq<string>, pieces: seq<string>, editDistance: int, w: string)
    ensures w in Matches(screenWords, pieces, editDistance) <==> w in pieces && Found(screenWords, w, editDistance)
  {
    if pieces != [] {
      var n := |pieces| - 1;
      MatchesExactly(screenWords, pieces[..n], editDistance, w);
      assert pieces == pieces[..n] + [pieces[n]];
    }
  }

  /** matches.Count / phraseText.Split(_splitChars).Length: the denominator counts empty pieces too. */
  function PhraseConfidence(screenWords: seq<string>, phraseText: string, editDistance: int): (r: Confidence)
    ensures 0 <= r.num <= r.den
  {
    var pieces := Split(phraseText);
    Ratio(|Matches(screenWords, pieces, editDistance)|, |pieces|)
  }

  /** What CompareText answers: some piece matched, and the confidence reaches the required one. */
  predicate PhraseMatches(screenWords: seq<string>, phraseText: string, matchConfidence: Confidence, editDistance: int) {
    var c := PhraseConfidence(screenWords, phraseText, editDistance);
    c.num > 0 && AtLeast(c, matchConfidence)
  }

  /** The inner loop of CompareText: does some screen word accept the phrase word? */
  method FindAccepting(screenWords: seq<string>, pWord: string, acceptableEditDistance: int) returns (hit: bool)
    ensures hit == Found(screenWords, pWord, acceptableEditDistance)
  {
    var pForm := CompareForm(pWord);
    var j := 0;
    while j < |screenWords|
      invariant 0 <= j <= |screenWords|
      invariant !Found(screenWords[..j], pWord, acceptableEditDistance)
    {
      var sForm := CompareForm(screenWords[j]);
      if sForm == pForm {
        assert Accepts(screenWords[j], pWord, acceptableEditDistance);
        return true;
      } else if acceptableEditDistance > 0 {
        var distance := ComputeEditDistance(sForm, pForm);
        if distance <= acceptableEditDistance {
          assert Accepts(screenWords[j], pWord, acceptableEditDistance);
          return true;
        }
      }
      assert !Accepts(screenWords[j], pWord, acceptableEditDistance);
      assert screenWords[..j + 1] == screenWords[..j] + [screenWords[j]];
      j := j + 1;
    }
    assert screenWords[..j] == screenWords;
    return false;
  }

  /** CompareText: over the phrase pieces, each piece counted at most once. */
  method CompareText(screenWords: seq<string>, phraseText: string, matchConfidence: Confidence,
                     acceptableEditDistance: int) returns (matched: bool)
    ensures matched == PhraseMatches(screenWords, phraseText, matchConfidence, acceptableEditDistance)
  {
    var matches: seq<string> := [];
    var pieces := Split(phraseText);
    var i := 0;
    while i < |pieces|
      invariant 0 <= i <= |pieces|
      invariant matches == Matches(screenWords, pieces[..i], acceptableEditDistance)
    {
      var hit := FindAccepting(screenWords, pieces[i], acceptableEditDistance);
      if hit {
        matches := matches + [pieces[i]];
      }
      assert pieces[..i + 1][..i] == pieces[..i];
      i := i + 1;
    }
    assert pieces[..i] == pieces;
    if |matches| > 0 {
      var confidence: Confidence := Ratio(|matches|, |pieces|);
      if AtLeast(confidence, matchConfidence) {
        return true;
      }
    }
    return false;
  }

  /** CompareText given the words of GetScreenWordsAsync: a null word list throws ArgumentNullException. */
  function CompareTextOrRaise(words: Option<seq<string>>, phraseText: string, matchConfidence: Confidence,
                              editDistance: int): (r: Attempt<bool>)
    ensures r.Raised? <==> words.None?
  {
    match words
    case None => Raised
    case Some(w) => Done(PhraseMatches(w, phraseText, matchConfidence, editDistance))
  }

  // ---------------------------------------------------------------------------
  // Screen matching

  predicate PhraseHolds(screenWords: seq<string>, phrase: ScreenPhrase) {
    PhraseMatches(screenWords, phrase.text, phrase.matchConfidence, phrase.editDistance)
  }

  /** The foreach over a screen's phrases with early return. */
  function AnyPhraseHolds(phrases: seq<ScreenPhrase>, screenWords: seq<string>): (r: bool)
    ensures r <==> exists i :: 0 <= i < |phrases| && PhraseHolds(screenWords, phrases[i])
  {
    if phrases == [] then false
    else if PhraseHolds(screenWords, phrases[0]) then true
    else
      assert forall i :: 1 <= i < |phrases| ==> phrases[i] == phrases[1..][i - 1];
      AnyPhraseHolds(phrases[1..], screenWords)
  }

  /** MatchScreen(screen, words): the screen matches when any one of its phrases does. */
  function MatchScreen(screen: AtmScreen, screenWords: seq<string>): (r: bool)
    ensures r <==> exists i :: 0 <= i < |screen.phrases| && PhraseHolds(screenWords, screen.phrases[i])
  {
    AnyPhraseHolds(screen.phrases, screenWords)
  }

  /** MatchScreen(screens, words): the first screen, in list order, that matches. */
  function MatchScreens(screens: seq<AtmScreen>, screenWords: seq<string>): (r: Option<AtmScreen>)
    ensures r.None? <==> forall i :: 0 <= i < |screens| ==> !MatchScreen(screens[i], screenWords)
    ensures r.Some? ==> r.value in screens && MatchScreen(r.value, screenWords)
  {
    if screens == [] then None
    else if MatchScreen(screens[0], screenWords) then Some(screens[0])
    else
      assert forall i :: 1 <= i < |screens| ==> screens[i] == screens[1..][i - 1];
      MatchScreens(screens[1..], screenWords)
  }

  /** The screen MatchScreens answers comes before every other matching screen. */
  lemma {:induction false} MatchScreensIsFirst(screens: seq<AtmScreen>, screenWords: seq<string>)
    requires MatchScreens(screens, screenWords).Some?
    ensures exists i :: 0 <= i < |screens| && screens[i] == MatchScreens(screens, screenWords).value
                        && NoneMatchBefore(screens, i, screenWords)
  {
    if MatchScreen(screens[0], screenWords) {
      assert screens[0] == MatchScreens(screens, screenWords).value && NoneMatchBefore(screens, 0, screenWords);
    } else {
      var tail := screens[1..];
      MatchScreensIsFirst(tail, screenWords);
      var i :| 0 <= i < |tail| && tail[i] == MatchScreens(tail, screenWords).value
        && NoneMatchBefore(tail, i, screenWords);
      assert MatchScreens(tail, screenWords) == MatchScreens(screens, screenWords);
      NoneMatchBeforeCons(screens, i, screenWords);
      assert screens[i + 1] == tail[i];
    }
  }

  /** No screen before position i matches. */
  predicate NoneMatchBefore(screens: seq<AtmScreen>, i: nat, screenWords: seq<string>)
    requires i <= |screens|
  {
    forall j :: 0 <= j < i ==> !MatchScreen(screens[j], screenWords)
  }

  lemma NoneMatchBeforeCons(screens: seq<AtmScreen>, i: nat, screenWords: seq<string>)
    requires i < |screens| - 1
    requires !MatchScreen(screens[0], screenWords) && NoneMatchBefore(screens[1..], i, screenWords)
    ensures NoneMatchBefore(screens, i + 1, screenWords)
  {
    forall j | 0 <= j < i + 1 ensures !MatchScreen(screens[j], screenWords) {
      if j > 0 { assert screens[j] == screens[1..][j - 1]; }
    }
  }

  /**
   * MatchScreen(screen, words) when the words may be null: the phrase loop hands the
   * null list to CompareText, which throws; a screen without phrases never gets there.
   */
  function MatchScreenOrRaise(screen: AtmScreen, words: Option<seq<string>>): (r: Attempt<bool>)
    ensures r.Raised? <==> words.None? && |screen.phrases| > 0
    ensures r == Done(true) ==> words.Some? && MatchScreen(screen, words.value)
  {
    match words
    case None => if |screen.phrases| == 0 then Done(false) else Raised
    case Some(w) => Done(MatchScreen(screen, w))
  }

  // ---------------------------------------------------------------------------
  // Properties of the matcher

  /** A screen word that is the phrase word itself, up to case and surrounding space, is accepted at any distance. */
  lemma ExactAlwaysAccepted(sWord: string, pWord: string, editDistance: int)
    requires CompareForm(sWord) == CompareForm(pWord)
    ensures Accepts(sWord, pWord, editDistance)
  {
  }

  /** With no positive edit distance only exact matches count. */
  lemma ExactOnlyWithoutDistance(sWord: string, pWord: string, editDistance: int)
    requires editDistance <= 0
    ensures Accepts(sWord, pWord, editDistance) <==> CompareForm(sWord) == CompareForm(pWord)
  {
  }

  /** Acceptance does not depend on which of the two words is the screen's. */
  lemma {:induction false} AcceptsSymmetric(sWord: string, pWord: string, editDistance: int)
    ensures Accepts(sWord, pWord, editDistance) == Accepts(pWord, sWord, editDistance)
  {
    LevenshteinSymmetric(CompareForm(sWord), CompareForm(pWord));
  }

  /** Acceptance ignores the case of both words. */
  lemma {:induction false} AcceptsIgnoresCase(sWord: string, pWord: string, editDistance: int)
    ensures Accepts(Upper(sWord), pWord, editDistance) == Accepts(sWord, pWord, editDistance)
    ensures Accepts(sWord, Upper(pWord), editDistance) == Accepts(sWord, pWord, editDistance)
  {
    LowerIgnoresCase(sWord);
    LowerIgnoresCase(pWord);
  }

  lemma InitAndLast<T>(s: seq<T>)
    requires |s| > 0
    ensures s == s[..|s| - 1] + [s[|s| - 1]]
  {
  }

  /** Every piece found: the match list is the whole piece list. */
  lemma {:induction false} AllFoundAllMatch(screenWords: seq<string>, pieces: seq<string>, editDistance: int)
    requires forall m :: 0 <= m < |pieces| ==> Found(screenWords, pieces[m], editDistance)
    ensures Matches(screenWords, pieces, editDistance) == pieces
  {
    if pieces != [] {
      var n := |pieces| - 1;
      var init := pieces[..n];
      forall m | 0 <= m < |init| ensures Found(screenWords, init[m], editDistance) {
        assert init[m] == pieces[m];
      }
      AllFoundAllMatch(screenWords, init, editDistance);
      assert Found(screenWords, pieces[n], editDistance);
      assert Matches(screenWords, pieces, editDistance) == init + [pieces[n]];
      InitAndLast(pieces);
    }
  }

  /** No piece found: nothing matches. */
  lemma {:induction false} NoneFoundNoMatch(screenWords: seq<string>, pieces: seq<string>, editDistance: int)
    requires forall m :: 0 <= m < |pieces| ==> !Found(screenWords, pieces[m], editDistance)
    ensures Matches(screenWords, pieces, editDistance) == []
  {
    if pieces != [] {
      var init := pieces[..|pieces| - 1];
      forall m | 0 <= m < |init| ensures !Found(screenWords, init[m], editDistance) {
        assert init[m] == pieces[m];
      }
      NoneFoundNoMatch(screenWords, init, editDistance);
    }
  }

  /** A larger edit distance never finds fewer pieces. */
  lemma {:induction false} MatchCountMonotoneInDistance(screenWords: seq<string>, pieces: seq<string>, d1: int, d2: int)
    requires d1 <= d2
    ensures |Matches(screenWords, pieces, d1)| <= |Matches(screenWords, pieces, d2)|
  {
    if pieces != [] {
      var n := |pieces| - 1;
      MatchCountMonotoneInDistance(screenWords, pieces[..n], d1, d2);
      if Found(screenWords, pieces[n], d1) {
        var i :| 0 <= i < |screenWords| && Accepts(screenWords[i], pieces[n], d1);
        assert Accepts(screenWords[i], pieces[n], d2);
      }
    }
  }

  /** A phrase that matches at some required confidence matches at every lower one. */
  lemma {:induction false} MonotoneInConfidence(screenWords: seq<string>, phraseText: string,
                                                  c1: Confidence, c2: Confidence, editDistance: int)
    requires PhraseMatches(screenWords, phraseText, c1, editDistance)
    requires AtLeast(c1, c2)
    ensures PhraseMatches(screenWords, phraseText, c2, editDistance)
  {
    AtLeastTransitive(PhraseConfidence(screenWords, phraseText, editDistance), c1, c2);
  }

  /** A phrase that matches with some edit distance still matches with a larger one. */
  lemma {:induction false} MonotoneInDistance(screenWords: seq<string>, phraseText: string,
                                                c: Confidence, d1: int, d2: int)
    requires PhraseMatches(screenWords, phraseText, c, d1)
    requires d1 <= d2
    ensures PhraseMatches(screenWords, phraseText, c, d2)
  {
    var pieces := Split(phraseText);
    var c1 := PhraseConfidence(screenWords, phraseText, d1);
    var c2 := PhraseConfidence(screenWords, phraseText, d2);
    assert c1 == Ratio(|Matches(screenWords, pieces, d1)|, |pieces|);
    assert c2 == Ratio(|Matches(screenWords, pieces, d2)|, |pieces|);
    MatchCountMonotoneInDistance(screenWords, pieces, d1, d2);
    MulMonotone(c1.num, c2.num, |pieces|);
    assert AtLeast(c2, c1);
    AtLeastTransitive(c2, c1, c);
  }

  /** No confidence requirement, however low, lets a phrase match when none of its pieces is on the screen. */
  lemma {:induction false} NothingFoundNeverMatches(screenWords: seq<string>, phraseText: string,
                                                      c: Confidence, editDistance: int)
    requires forall m :: 0 <= m < |Split(phraseText)| ==> !Found(screenWords, Split(phraseText)[m], editDistance)
    ensures !PhraseMatches(screenWords, phraseText, c, editDistance)
  {
    NoneFoundNoMatch(screenWords, Split(phraseText), editDistance);
  }

  /** A phrase all of whose pieces are screen words matches at every required confidence up to one. */
  lemma {:induction false} FullPhraseMatches(screenWords: seq<string>, phraseText: string,
                                               c: Confidence, editDistance: int)
    requires forall m :: 0 <= m < |Split(phraseText)| ==> Split(phraseText)[m] in screenWords
    requires c.num <= c.den
    ensures PhraseMatches(screenWords, phraseText, c, editDistance)
  {
    var pieces := Split(phraseText);
    forall m | 0 <= m < |pieces| ensures Found(screenWords, pieces[m], editDistance) {
      assert pieces[m] in screenWords;
      var i :| 0 <= i < |screenWords| && screenWords[i] == pieces[m];
      assert Accepts(screenWords[i], pieces[m], editDistance);
    }
    AllFoundAllMatch(screenWords, pieces, editDistance);
    var conf := PhraseConfidence(screenWords, phraseText, editDistance);
    assert conf == Ratio(|pieces|, |pieces|);
    MulMonotone(c.num, c.den, |pieces|);
    assert |pieces| * c.den == c.den * |pieces|;
  }

  /**
   * Round trip: a screen whose sole phrase is the whole word bag joined by spaces matches
   * that bag, whatever confidence up to one it requires.
   */
  lemma {:induction false} WholeBagScreenMatches(name: string, screenWords: seq<string>,
                                                   c: Confidence, editDistance: int)
    requires |screenWords| > 0
    requires forall i :: 0 <= i < |screenWords| ==> NoSplitChar(screenWords[i])
    requires c.num <= c.den
    ensures MatchScreen(AtmScreen(name, [ScreenPhrase(Join(screenWords, ' '), c, editDistance)]), screenWords)
  {
    SplitJoin(screenWords, ' ');
    FullPhraseMatches(screenWords, Join(screenWords, ' '), c, editDistance);
    var screen := AtmScreen(name, [ScreenPhrase(Join(screenWords, ' '), c, editDistance)]);
    assert PhraseHolds(screenWords, screen.phrases[0]);
  }

  // ---------------------------------------------------------------------------
  // Worked examples

  /** A trimmed lower-case word is its own comparison form. */
  lemma {:induction false} CompareFormOfWord(s: string)
    requires IsTrimmed(s) && IsLower(s)
    ensures CompareForm(s) == s
  {
    assert Lower(s) == s;
    TrimOfTrimmed(s);
  }

  /** With an allowed distance of one, the misread "balence" stands for "balance". */
  lemma {:induction false} MisreadWordAccepted()
    ensures Accepts("balence", "balance", 1)
  {
    CompareFormOfWord("balence");
    CompareFormOfWord("balance");
    BalenceMismatches();
    LevenshteinAtMostMismatches("balence", "balance");
  }

  lemma BalenceMismatches()
    ensures Mismatches("balence", "balance", 7) == 1
  {
    assert Mismatches("balence", "balance", 3) == 0;
  }
}
