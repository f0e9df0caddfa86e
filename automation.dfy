/**
 * The parts of AutomationService that talk to the terminal: reading the screen words,
 * matching a screen or a phrase against a fresh read, finding and clicking text, and the
 * deadline pollers WaitForScreen(s)Async and WaitForTextAsync.
 */
module Automation {
  import opened Wrappers
  import opened Text
  import opened Ratios
  import opened Models
  import opened Matcher
  import opened ClickResolver
  import opened Terminal

  /** The screen words the n-th answer carries (null when the screen could not be read). */
  function ReadWords(replies: nat -> Reply, n: nat): Option<seq<string>> {
    WordsOf(replies(n).page)
  }

  /** GetScreenWordsAsync: one read, flattened into the bag of screen words. */
  method GetScreenWords(atm: Atm) returns (words: Option<seq<string>>)
    modifies atm
    ensures words == ReadWords(atm.replies, old(atm.step))
    ensures atm.trace == old(atm.trace) + [ReadScreenText]
    ensures atm.Where() == After(old(atm.Where()), [ReadScreenText])
  {
    var reply := atm.Send(ReadScreenText);
    words := WordsOf(reply.page);
  }

  /** MatchScreenAsync(screen): a fresh read matched against one screen. */
  method MatchScreenAsync(atm: Atm, screen: AtmScreen) returns (r: Attempt<bool>)
    modifies atm
    ensures r == MatchScreenOrRaise(screen, ReadWords(atm.replies, old(atm.step)))
    ensures atm.trace == old(atm.trace) + [ReadScreenText]
    ensures atm.Where() == After(old(atm.Where()), [ReadScreenText])
  {
    var words := GetScreenWords(atm);
    r := MatchScreenOrRaise(screen, words);
  }

  /**
   * MatchScreen(screens, words) when the words may be null: the first screen with a phrase
   * hands the null list to CompareText, which throws.
   */
  function MatchScreensOrRaise(screens: seq<AtmScreen>, words: Option<seq<string>>): (r: Attempt<Option<AtmScreen>>)
    ensures words.Some? ==> r == Done(MatchScreens(screens, words.value))
    ensures words.None? ==> (r.Raised? <==> exists i :: 0 <= i < |screens| && |screens[i].phrases| > 0)
  {
    match words
    case Some(w) => Done(MatchScreens(screens, w))
    case None =>
      if screens == [] then Done(None)
      else if |screens[0].phrases| > 0 then Raised
      else
        assert forall i :: 1 <= i < |screens| ==> screens[i] == screens[1..][i - 1];
        MatchScreensOrRaise(screens[1..], None)
  }

  /** MatchScreenAsync(screens): a fresh read matched against a list of screens. */
  method MatchScreensAsync(atm: Atm, screens: seq<AtmScreen>) returns (r: Attempt<Option<AtmScreen>>)
    modifies atm
    ensures r == MatchScreensOrRaise(screens, ReadWords(atm.replies, old(atm.step)))
    ensures atm.trace == old(atm.trace) + [ReadScreenText]
    ensures atm.Where() == After(old(atm.Where()), [ReadScreenText])
  {
    var words := GetScreenWords(atm);
    r := MatchScreensOrRaise(screens, words);
  }

  /** CompareTextAsync: a fresh read compared with one phrase; a null read throws. */
  method CompareTextAsync(atm: Atm, phraseText: string, matchConfidence: Confidence, editDistance: int)
    returns (r: Attempt<bool>)
    modifies atm
    ensures r == CompareTextOrRaise(ReadWords(atm.replies, old(atm.step)), phraseText, matchConfidence, editDistance)
    ensures atm.trace == old(atm.trace) + [ReadScreenText]
    ensures atm.Where() == After(old(atm.Where()), [ReadScreenText])
  {
    var words := GetScreenWords(atm);
    if words.None? {
      r := Raised;
    } else {
      var matched := CompareText(words.value, phraseText, matchConfidence, editDistance);
      r := Done(matched);
    }
  }

  // ---------------------------------------------------------------------------
  // Finding and clicking text

  /**
   * What FindAndClickAsync(findText, d) does from request number n: one read; with a
   * readable screen and at least one candidate, a click on the midpoint of the best
   * candidate, whose success is the answer.
   */
  function FindAndClickRun(replies: nat -> Reply, n: nat, findText: string, d: int): Run<bool> {
    ClickRun(replies, n, TargetOn(replies(n).page, findText, d))
  }

  /** The read at request n followed, when the read gave a target, by a click on its midpoint. */
  function ClickRun(replies: nat -> Reply, n: nat, target: Option<Box>): Run<bool> {
    match target
    case None => Run(false, [ReadScreenText])
    case Some(box) => Run(replies(n + 1).ok, [ReadScreenText, Click(Midpoint(box))])
  }

  /** The click that follows the read: on the target's midpoint, when there is a target. */
  method ClickChosen(atm: Atm, target: Option<Box>) returns (clicked: bool)
    modifies atm
    ensures clicked == (target.Some? && atm.replies(old(atm.step)).ok)
    ensures var rs := if target.Some? then [Click(Midpoint(target.value))] else [];
            && atm.trace == old(atm.trace) + rs
            && atm.Where() == After(old(atm.Where()), rs)
  {
    if target.None? {
      assert atm.trace + [] == atm.trace;
      return false;
    }
    var ack := atm.Send(Click(Midpoint(target.value)));
    clicked := ack.ok;
  }

  /** How the click target is chosen from a read: `choose` seen only through its answers. */
  ghost predicate ChoosesAs(choose: Option<OcrPage> -> Option<Box>, findText: string, d: int) {
    forall page {:trigger TargetOn(page, findText, d)} :: choose(page) == TargetOn(page, findText, d)
  }

  /** ChooseTarget, its answer seen through `choose`. */
  method ChooseVia(page: Option<OcrPage>, findText: string, d: int, ghost choose: Option<OcrPage> -> Option<Box>)
    returns (target: Option<Box>)
    requires ChoosesAs(choose, findText, d)
    ensures target == choose(page)
  {
    target := ChooseTarget(page, findText, d);
  }

  /** FindAndClickAsync with the choice of target seen through `choose`. */
  method ReadAndClick(atm: Atm, findText: string, d: int, ghost choose: Option<OcrPage> -> Option<Box>)
    returns (clicked: bool)
    requires ChoosesAs(choose, findText, d)
    modifies atm
    ensures var run := ClickRun(atm.replies, old(atm.step), choose(atm.replies(old(atm.step)).page));
            && clicked == run.result
            && atm.trace == old(atm.trace) + run.requests
            && atm.Where() == After(old(atm.Where()), run.requests)
  {
    ghost var at0 := atm.Where();
    ghost var trace0 := atm.trace;
    var reply := atm.Send(ReadScreenText);
    var box := ChooseVia(reply.page, findText, d, choose);
    ghost var rs := if box.Some? then [Click(Midpoint(box.value))] else [];
    clicked := ClickChosen(atm, box);
    AfterAppend(at0, [ReadScreenText], rs);
    assert atm.trace == trace0 + ([ReadScreenText] + rs);
    assert ClickRun(atm.replies, at0.n, box).requests == [ReadScreenText] + rs;
  }

  /** FindAndClickAsync(findText, acceptableEditDistance). */
  method FindAndClick(atm: Atm, findText: string, d: int) returns (clicked: bool)
    modifies atm
    ensures var run := FindAndClickRun(atm.replies, old(atm.step), findText, d);
            && clicked == run.result
            && atm.trace == old(atm.trace) + run.requests
            && atm.Where() == After(old(atm.Where()), run.requests)
  {
    ghost var choose: Option<OcrPage> -> Option<Box> := page => TargetOn(page, findText, d);
    clicked := ReadAndClick(atm, findText, d, choose);
  }

  /**
   * FindAndClickAsync clicks at most once, and only on a candidate of highest confidence
   * with none as good before it; it answers true only when that click succeeded.
   */
  lemma FindAndClickClicksBest(replies: nat -> Reply, n: nat, findText: string, d: int)
    ensures var run := FindAndClickRun(replies, n, findText, d);
            && 1 <= |run.requests| <= 2 && run.requests[0] == ReadScreenText
            && (run.result ==> |run.requests| == 2 && replies(n + 1).ok)
            && (|run.requests| == 2 ==>
                  && replies(n).page.Some?
                  && var cands := Candidates(findText, replies(n).page.value, d);
                     exists b :: IsBest(cands, b) && run.requests[1] == Click(Midpoint(cands[b].location)))
  {
    if replies(n).page.Some? {
      ClickTargetIsBest(findText, replies(n).page.value, d);
    }
  }

  /** Without a readable screen or any candidate, FindAndClickAsync reads once and answers false. */
  lemma FindAndClickWithoutCandidates(replies: nat -> Reply, n: nat, findText: string, d: int)
    requires replies(n).page.None? || Candidates(findText, replies(n).page.value, d) == []
    ensures FindAndClickRun(replies, n, findText, d) == Run(false, [ReadScreenText])
  {
    if replies(n).page.Some? {
      ClickTargetIsBest(findText, replies(n).page.value, d);
    }
  }

  /** A text made only of white space and separators is never clicked. */
  lemma BlankFindTextNeverClicks(replies: nat -> Reply, n: nat, findText: string, d: int)
    requires forall i :: 0 <= i < |findText| ==> IsWhiteSpace(findText[i]) || IsSplitChar(findText[i])
    ensures FindAndClickRun(replies, n, findText, d) == Run(false, [ReadScreenText])
  {
    if replies(n).page.Some? {
      BlankFindTextFindsNothing(findText, replies(n).page.value, d);
      ClickTargetIsBest(findText, replies(n).page.value, d);
    }
  }

  /**
   * One item of FindAndClickAsync(items) from request number n: ask the location service;
   * when it found the text, click there. The answer is whether a click succeeded.
   */
  function TryRun(replies: nat -> Reply, n: nat, item: string): Run<bool> {
    var location := replies(n).location;
    if location.Some? && location.value.found then
      Run(replies(n + 1).ok, [LocateText(item), Click(Located(location.value.point))])
    else Run(false, [LocateText(item)])
  }

  /**
   * What FindAndClickAsync(items) does with items k.. from request number n: the items in
   * turn, until a click succeeds.
   */
  function FindAnyRun(replies: nat -> Reply, n: nat, items: seq<string>, k: int): Run<bool>
    requires 0 <= k <= |items|
    decreases |items| - k
  {
    if k == |items| then Run(false, [])
    else
      var try := TryRun(replies, n, items[k]);
      if try.result then try
      else
        var rest := FindAnyRun(replies, n + |try.requests|, items, k + 1);
        Run(rest.result, try.requests + rest.requests)
  }

  /** The body of the `foreach` in FindAndClickAsync(items). */
  method TryItem(atm: Atm, item: string) returns (clicked: bool)
    modifies atm
    ensures var run := TryRun(atm.replies, old(atm.step), item);
            && clicked == run.result
            && atm.trace == old(atm.trace) + run.requests
            && atm.Where() == After(old(atm.Where()), run.requests)
  {
    ghost var at0 := atm.Where();
    var answer := atm.Send(LocateText(item));
    clicked := false;
    if answer.location.Some? && answer.location.value.found {
      var target := Click(Located(answer.location.value.point));
      var ack := atm.Send(target);
      AfterAppend(at0, [LocateText(item)], [target]);
      assert [LocateText(item)] + [target] == [LocateText(item), target];
      clicked := ack.ok;
    }
  }

  /** A failed item is followed by the rest of the list. */
  lemma FindAnyMissStep(replies: nat -> Reply, n: nat, items: seq<string>, k: int, m: nat)
    requires 0 <= k < |items| && !TryRun(replies, n, items[k]).result
    requires m == n + |TryRun(replies, n, items[k]).requests|
    ensures var rest := FindAnyRun(replies, m, items, k + 1);
            FindAnyRun(replies, n, items, k) == Run(rest.result, TryRun(replies, n, items[k]).requests + rest.requests)
  {
  }

  /** FindAndClickAsync(string[] findText). */
  method FindAndClickAny(atm: Atm, items: seq<string>) returns (clicked: bool)
    modifies atm
    ensures var run := FindAnyRun(atm.replies, old(atm.step), items, 0);
            && clicked == run.result
            && atm.trace == old(atm.trace) + run.requests
            && atm.Where() == After(old(atm.Where()), run.requests)
  {
    ghost var at0 := atm.Where();
    ghost var whole := FindAnyRun(atm.replies, at0.n, items, 0);
    ghost var rest := whole;
    var i := 0;
    while i < |items|
      invariant 0 <= i <= |items|
      invariant rest == FindAnyRun(atm.replies, atm.step, items, i)
      invariant whole.result == rest.result
      invariant atm.trace + rest.requests == old(atm.trace) + whole.requests
      invariant After(atm.Where(), rest.requests) == After(at0, whole.requests)
    {
      ghost var at := atm.Where();
      ghost var trace := atm.trace;
      ghost var try := TryRun(atm.replies, at.n, items[i]);
      var ok := TryItem(atm, items[i]);
      if ok {
        return true;
      }
      assert atm.step == at.n + |try.requests|;
      FindAnyMissStep(atm.replies, at.n, items, i, atm.step);
      ghost var next := FindAnyRun(atm.replies, atm.step, items, i + 1);
      assert rest == Run(next.result, try.requests + next.requests);
      AfterAppend(at, try.requests, next.requests);
      AppendAssoc(trace, try.requests, next.requests);
      rest := next;
      i := i + 1;
    }
    assert atm.trace + [] == atm.trace;
    clicked := false;
  }

  /** The texts FindAndClickAsync(items) asked the location service for, in order. */
  function LookedUp(rs: seq<Request>): seq<string> {
    if rs == [] then []
    else if rs[0].LocateText? then [rs[0].text] + LookedUp(rs[1..])
    else LookedUp(rs[1..])
  }

  /** When no click succeeded, every item was looked up, in order. */
  lemma {:induction false} FindAnyLooksUpAll(replies: nat -> Reply, n: nat, items: seq<string>, k: int)
    requires 0 <= k <= |items|
    ensures var run := FindAnyRun(replies, n, items, k);
            !run.result ==> LookedUp(run.requests) == items[k..]
    decreases |items| - k
  {
    if k < |items| {
      var try := TryRun(replies, n, items[k]);
      if !try.result {
        var rest := FindAnyRun(replies, n + |try.requests|, items, k + 1);
        assert FindAnyRun(replies, n, items, k) == Run(rest.result, try.requests + rest.requests);
        if !rest.result {
          assert LookedUp(rest.requests) == items[k + 1..] by {
            FindAnyLooksUpAll(replies, n + |try.requests|, items, k + 1);
          }
          assert LookedUp(try.requests) == [items[k]] by { LookedUpOfTry(replies, n, items[k]); }
          LookedUpAppend(try.requests, rest.requests);
          assert items[k..] == [items[k]] + items[k + 1..];
        }
      }
    }
  }

  /**
   * When a click succeeded, the run ends with that item's lookup and click: some item j,
   * tried from request m, was found and clicked successfully, and those two requests are
   * the last ones. The items looked up are a prefix of the list.
   */
  lemma {:induction false} FindAnyStopsAtClick(replies: nat -> Reply, n: nat, items: seq<string>, k: int)
    requires 0 <= k <= |items|
    requires FindAnyRun(replies, n, items, k).result
    ensures var rs := FindAnyRun(replies, n, items, k).requests;
            && LookedUp(rs) <= items[k..]
            && exists j, m: nat ::
                 && k <= j < |items| && TryRun(replies, m, items[j]).result
                 && m + 2 == n + |rs| && |rs| >= 2
                 && rs[|rs| - 2..] == TryRun(replies, m, items[j]).requests
    decreases |items| - k
  {
    var try := TryRun(replies, n, items[k]);
    LookedUpOfTry(replies, n, items[k]);
    assert items[k..] == [items[k]] + items[k + 1..];
    if try.result {
      assert try.requests[0..] == try.requests;
    } else {
      var m := n + |try.requests|;
      FindAnyStopsAtClick(replies, m, items, k + 1);
      var rest := FindAnyRun(replies, m, items, k + 1).requests;
      var rs := try.requests + rest;
      LookedUpAppend(try.requests, rest);
      assert rs[|rs| - 2..] == rest[|rest| - 2..];
    }
  }

  lemma LookedUpOfTry(replies: nat -> Reply, n: nat, item: string)
    ensures LookedUp(TryRun(replies, n, item).requests) == [item]
  {
    var rs := TryRun(replies, n, item).requests;
    var location := replies(n).location;
    if location.Some? && location.value.found {
      var c := Click(Located(location.value.point));
      assert rs[1..] == [c];
      assert [c][1..] == [];
      assert LookedUp([c]) == LookedUp([]) == [];
    } else {
      assert rs[1..] == [];
    }
  }

  lemma {:induction false} LookedUpAppend(xs: seq<Request>, ys: seq<Request>)
    ensures LookedUp(xs + ys) == LookedUp(xs) + LookedUp(ys)
    decreases |xs|
  {
    if xs != [] {
      LookedUpAppend(xs[1..], ys);
      assert (xs + ys)[0] == xs[0];
      assert (xs + ys)[1..] == xs[1..] + ys;
      if xs[0].LocateText? {
        AppendAssoc([xs[0].text], LookedUp(xs[1..]), LookedUp(ys));
      }
    } else {
      assert xs + ys == ys;
    }
  }

  // ---------------------------------------------------------------------------
  // The deadline pollers

  /** What one check of a poller looks for on a fresh read: a screen, or a phrase. */
  datatype Probe =
    | ScreenProbe(screen: AtmScreen)
    | TextProbe(phrase: string, matchConfidence: Confidence, editDistance: int)

  /** The answer of one check on the words of one read; Raised is the exception the poller catches. */
  function ProbeOn(p: Probe, words: Option<seq<string>>): Attempt<bool> {
    match p
    case ScreenProbe(screen) => MatchScreenOrRaise(screen, words)
    case TextProbe(phrase, c, d) => CompareTextOrRaise(words, phrase, c, d)
  }

  /** One check: MatchScreenAsync or CompareTextAsync. */
  method CheckProbe(atm: Atm, p: Probe) returns (r: Attempt<bool>)
    modifies atm
    ensures r == ProbeOn(p, ReadWords(atm.replies, old(atm.step)))
    ensures atm.trace == old(atm.trace) + [ReadScreenText]
    ensures atm.Where() == After(old(atm.Where()), [ReadScreenText])
  {
    match p
    case ScreenProbe(screen) =>
      r := MatchScreenAsync(atm, screen);
    case TextProbe(phrase, c, d) =>
      r := CompareTextAsync(atm, phrase, c, d);
  }

  /**
   * What the checks of a poller answer: check k on the words of the n-th read. The poll
   * loop depends on the checks only through these answers.
   */
  type Answers = (int, nat) -> Attempt<bool>

  function AnswersOf(replies: nat -> Reply, probes: seq<Probe>): Answers {
    (k: int, n: nat) => if 0 <= k < |probes| then ProbeOn(probes[k], ReadWords(replies, n)) else Done(false)
  }

  /** The answer of check k on the n-th read. */
  function AnswerAt(answers: Answers, k: int, n: nat): Attempt<bool> {
    answers(k, n)
  }

  /** Check `i` of `probes`, seen only through its answer. */
  method CheckAnswer(atm: Atm, probes: seq<Probe>, i: int) returns (r: Attempt<bool>)
    requires 0 <= i < |probes|
    modifies atm
    ensures r == AnswerAt(AnswersOf(atm.replies, probes), i, old(atm.step))
    ensures atm.trace == old(atm.trace) + [ReadScreenText]
    ensures atm.Where() == After(old(atm.Where()), [ReadScreenText])
  {
    r := CheckProbe(atm, probes[i]);
  }

  /** How one pass over the checks of a poller ended. */
  datatype RoundOutcome = Hit(index: int) | Miss | Failed(index: int)

  /** One pass over checks k..count-1, each on its own read, stopping at a hit or a throw. */
  function RoundRun(answers: Answers, at: At, count: int, k: int): Run<RoundOutcome>
    requires 0 <= k <= count
    decreases count - k
  {
    if k == count then Run(Miss, [])
    else
      match AnswerAt(answers, k, at.n)
      case Raised => Run(Failed(k), [ReadScreenText])
      case Done(true) => Run(Hit(k), [ReadScreenText])
      case Done(false) =>
        var rest := RoundRun(answers, After(at, [ReadScreenText]), count, k + 1);
        Run(rest.result, [ReadScreenText] + rest.requests)
  }

  /**
   * The poll loop: while the clock is before `endTime`, one pass over the checks and,
   * when nothing matched, a delay of `refresh`. The answer is the index of the check that
   * matched; None when the deadline passed or a check threw.
   */
  function PollRun(answers: Answers, at: At, endTime: int, count: int, refresh: int): Run<Option<int>>
    requires 0 <= count
    decreases endTime - at.now
  {
    if at.now >= endTime then Run(None, [])
    else
      var round := RoundRun(answers, at, count, 0);
      match round.result
      case Hit(i) => Run(Some(i), round.requests)
      case Failed(_) => Run(None, round.requests)
      case Miss =>
        var rs := round.requests + [Delay(refresh)];
        var rest := PollRun(answers, After(at, rs), endTime, count, refresh);
        Run(rest.result, rs + rest.requests)
  }

  /** PollRun for the checks `probes` against the terminal's answers. */
  function Polling(replies: nat -> Reply, at: At, timeout: int, probes: seq<Probe>, refresh: int): Run<Option<int>> {
    PollRun(AnswersOf(replies, probes), at, at.now + timeout, |probes|, refresh)
  }

  /** A check that answered false moves the pass on to the next check, on the next read. */
  lemma RoundMissStep(answers: Answers, at: At, count: int, k: int)
    requires 0 <= k < count && AnswerAt(answers, k, at.n) == Done(false)
    ensures var rest := RoundRun(answers, After(at, [ReadScreenText]), count, k + 1);
            RoundRun(answers, at, count, k) == Run(rest.result, [ReadScreenText] + rest.requests)
  {
  }

  /** A pass that matched nothing is followed by a delay and the next pass. */
  lemma PollMissStep(answers: Answers, at: At, endTime: int, count: int, refresh: int)
    requires 0 <= count && at.now < endTime && RoundRun(answers, at, count, 0).result == Miss
    ensures var rs := RoundRun(answers, at, count, 0).requests + [Delay(refresh)];
            var rest := PollRun(answers, After(at, rs), endTime, count, refresh);
            PollRun(answers, at, endTime, count, refresh) == Run(rest.result, rs + rest.requests)
  {
  }

  lemma AppendAssoc<T>(a: seq<T>, b: seq<T>, c: seq<T>)
    ensures (a + b) + c == a + (b + c)
  {
  }

  /** The `foreach` inside the poll loop. */
  method Round(atm: Atm, probes: seq<Probe>) returns (outcome: RoundOutcome)
    modifies atm
    ensures var run := RoundRun(AnswersOf(atm.replies, probes), old(atm.Where()), |probes|, 0);
            && outcome == run.result
            && atm.trace == old(atm.trace) + run.requests
            && atm.Where() == After(old(atm.Where()), run.requests)
  {
    ghost var answers := AnswersOf(atm.replies, probes);
    ghost var at0 := atm.Where();
    ghost var whole := RoundRun(answers, at0, |probes|, 0);
    ghost var rest := whole;
    var i := 0;
    while i < |probes|
      invariant 0 <= i <= |probes|
      invariant rest == RoundRun(answers, atm.Where(), |probes|, i)
      invariant whole.result == rest.result
      invariant atm.trace + rest.requests == old(atm.trace) + whole.requests
      invariant After(atm.Where(), rest.requests) == After(at0, whole.requests)
    {
      ghost var at := atm.Where();
      ghost var trace := atm.trace;
      var r := CheckAnswer(atm, probes, i);
      if r.Raised? {
        return Failed(i);
      } else if r.value {
        return Hit(i);
      }
      RoundMissStep(answers, at, |probes|, i);
      ghost var next := RoundRun(answers, atm.Where(), |probes|, i + 1);
      AfterAppend(at, [ReadScreenText], next.requests);
      AppendAssoc(trace, [ReadScreenText], next.requests);
      rest := next;
      i := i + 1;
    }
    assert atm.trace + [] == atm.trace;
    outcome := Miss;
  }

  /** The loop shared by the four pollers, with its `catch` turning a throw into no answer. */
  method Poll(atm: Atm, probes: seq<Probe>, timeout: int, refresh: int) returns (hit: Option<int>)
    modifies atm
    ensures var run := Polling(atm.replies, old(atm.Where()), timeout, probes, refresh);
            && hit == run.result
            && atm.trace == old(atm.trace) + run.requests
            && atm.Where() == After(old(atm.Where()), run.requests)
  {
    ghost var answers := AnswersOf(atm.replies, probes);
    var endTime := atm.now + timeout;
    ghost var at0 := atm.Where();
    ghost var whole := PollRun(answers, at0, endTime, |probes|, refresh);
    ghost var rest := whole;
    while atm.now < endTime
      invariant rest == PollRun(answers, atm.Where(), endTime, |probes|, refresh)
      invariant whole.result == rest.result
      invariant atm.trace + rest.requests == old(atm.trace) + whole.requests
      invariant After(atm.Where(), rest.requests) == After(at0, whole.requests)
      decreases endTime - atm.now
    {
      ghost var at := atm.Where();
      ghost var trace := atm.trace;
      ghost var round := RoundRun(answers, at, |probes|, 0);
      var outcome := Round(atm, probes);
      match outcome
      case Hit(i) =>
        return Some(i);
      case Failed(_) =>
        return None;
      case Miss =>
        PollMissStep(answers, at, endTime, |probes|, refresh);
        var _ := atm.Send(Delay(refresh));
        ghost var rs := round.requests + [Delay(refresh)];
        ghost var next := PollRun(answers, After(at, rs), endTime, |probes|, refresh);
        AfterAppend(at, round.requests, [Delay(refresh)]);
        AfterAppend(at, rs, next.requests);
        AppendAssoc(trace, round.requests, [Delay(refresh)]);
        AppendAssoc(trace, rs, next.requests);
        rest := next;
    }
    assert atm.trace + [] == atm.trace;
    hit := None;
  }

  function ScreenProbes(screens: seq<AtmScreen>): (r: seq<Probe>)
    ensures |r| == |screens|
    ensures forall i :: 0 <= i < |screens| ==> r[i] == ScreenProbe(screens[i])
  {
    seq(|screens|, i requires 0 <= i < |screens| => ScreenProbe(screens[i]))
  }

  function TextProbes(phrases: seq<string>, c: Confidence, d: int): (r: seq<Probe>)
    ensures |r| == |phrases|
    ensures forall i :: 0 <= i < |phrases| ==> r[i] == TextProbe(phrases[i], c, d)
  {
    seq(|phrases|, i requires 0 <= i < |phrases| => TextProbe(phrases[i], c, d))
  }

  /** WaitForScreenAsync: true once the screen is seen before the deadline. */
  method WaitForScreen(atm: Atm, screen: AtmScreen, timeout: int, refresh: int) returns (found: bool)
    modifies atm
    ensures var run := Polling(atm.replies, old(atm.Where()), timeout, [ScreenProbe(screen)], refresh);
            && found == run.result.Some?
            && atm.trace == old(atm.trace) + run.requests
            && atm.Where() == After(old(atm.Where()), run.requests)
  {
    var hit := Poll(atm, [ScreenProbe(screen)], timeout, refresh);
    found := hit.Some?;
  }

  /** WaitForScreensAsync: the first screen of the list seen in a pass, or null. */
  method WaitForScreens(atm: Atm, screens: seq<AtmScreen>, timeout: int, refresh: int) returns (seen: Option<AtmScreen>)
    modifies atm
    ensures var run := Polling(atm.replies, old(atm.Where()), timeout, ScreenProbes(screens), refresh);
            && (seen.None? <==> run.result.None?)
            && (seen.Some? ==> 0 <= run.result.value < |screens| && seen.value == screens[run.result.value])
            && atm.trace == old(atm.trace) + run.requests
            && atm.Where() == After(old(atm.Where()), run.requests)
  {
    ghost var at0 := atm.Where();
    var hit := Poll(atm, ScreenProbes(screens), timeout, refresh);
    if hit.Some? {
      PollHitIsMatch(AnswersOf(atm.replies, ScreenProbes(screens)), at0, at0.now + timeout, |screens|, refresh);
      seen := Some(screens[hit.value]);
    } else {
      seen := None;
    }
  }

  /** WaitForTextAsync(phrase): true once the phrase is seen before the deadline. */
  method WaitForText(atm: Atm, phrase: string, matchConfidence: Confidence, timeout: int, refresh: int,
                     editDistance: int) returns (found: bool)
    modifies atm
    ensures var run := Polling(atm.replies, old(atm.Where()), timeout, [TextProbe(phrase, matchConfidence, editDistance)], refresh);
            && found == run.result.Some? && atm.trace == old(atm.trace) + run.requests
            && atm.Where() == After(old(atm.Where()), run.requests)
  {
    var hit := Poll(atm, [TextProbe(phrase, matchConfidence, editDistance)], timeout, refresh);
    found := hit.Some?;
  }

  /** WaitForTextAsync(phrases): true once any of the phrases is seen before the deadline. */
  method WaitForAnyText(atm: Atm, phrases: seq<string>, matchConfidence: Confidence, timeout: int, refresh: int,
                        editDistance: int) returns (found: bool)
    modifies atm
    ensures var run := Polling(atm.replies, old(atm.Where()), timeout, TextProbes(phrases, matchConfidence, editDistance), refresh);
            && found == run.result.Some? && atm.trace == old(atm.trace) + run.requests
            && atm.Where() == After(old(atm.Where()), run.requests)
  {
    var hit := Poll(atm, TextProbes(phrases, matchConfidence, editDistance), timeout, refresh);
    found := hit.Some?;
  }

  // ---------------------------------------------------------------------------
  // Properties of the pollers

  /** The number of the last of the requests `rs` issued from request n (0 when there are none). */
  function LastRead(n: nat, rs: seq<Request>): nat {
    if rs == [] then 0 else n + |rs| - 1
  }

  /** A pass over the checks only reads the screen, and its answer is about its own reads. */
  lemma {:induction false} RoundFacts(answers: Answers, at: At, count: int, k: int)
    requires 0 <= k <= count
    ensures var run := RoundRun(answers, at, count, k);
            && (forall j :: 0 <= j < |run.requests| ==> run.requests[j] == ReadScreenText)
            && (run.result.Hit? ==>
                  && k <= run.result.index < count && |run.requests| > 0
                  && AnswerAt(answers, run.result.index, LastRead(at.n, run.requests)) == Done(true))
            && (run.result.Failed? ==>
                  && k <= run.result.index < count && |run.requests| > 0
                  && AnswerAt(answers, run.result.index, LastRead(at.n, run.requests)).Raised?)
            && (run.result.Miss? ==> |run.requests| == count - k)
    decreases count - k
  {
    if k < count && AnswerAt(answers, k, at.n) == Done(false) {
      RoundFacts(answers, After(at, [ReadScreenText]), count, k + 1);
    }
  }

  /** Every request in `rs` is a screen read or a delay of `refresh`. */
  predicate ReadsAndWaits(rs: seq<Request>, refresh: int) {
    forall j :: 0 <= j < |rs| ==> rs[j] == ReadScreenText || rs[j] == Delay(refresh)
  }

  lemma ReadsAndWaitsAppend(xs: seq<Request>, ys: seq<Request>, refresh: int)
    requires ReadsAndWaits(xs, refresh) && ReadsAndWaits(ys, refresh)
    ensures ReadsAndWaits(xs + ys, refresh)
  {
    forall j | 0 <= j < |xs + ys| ensures (xs + ys)[j] == ReadScreenText || (xs + ys)[j] == Delay(refresh) {
      if j >= |xs| {
        assert (xs + ys)[j] == ys[j - |xs|];
      }
    }
  }

  /** A poller issues nothing but screen reads and delays of the refresh interval. */
  lemma {:induction false} PollOnlyReadsAndWaits(answers: Answers, at: At, endTime: int, count: int, refresh: int)
    requires 0 <= count
    ensures ReadsAndWaits(PollRun(answers, at, endTime, count, refresh).requests, refresh)
    decreases endTime - at.now
  {
    if at.now < endTime {
      var round := RoundRun(answers, at, count, 0);
      RoundFacts(answers, at, count, 0);
      assert ReadsAndWaits(round.requests, refresh);
      if round.result.Miss? {
        var rs := round.requests + [Delay(refresh)];
        ReadsAndWaitsAppend(round.requests, [Delay(refresh)], refresh);
        PollOnlyReadsAndWaits(answers, After(at, rs), endTime, count, refresh);
        ReadsAndWaitsAppend(rs, PollRun(answers, After(at, rs), endTime, count, refresh).requests, refresh);
      }
    }
  }

  /**
   * A poller answers a check only when that check matched on the last read it made: the
   * requests end with a screen read on which that check answered true.
   */
  lemma {:induction false} PollHitIsMatch(answers: Answers, at: At, endTime: int, count: int, refresh: int)
    requires 0 <= count
    requires PollRun(answers, at, endTime, count, refresh).result.Some?
    ensures var run := PollRun(answers, at, endTime, count, refresh);
            && 0 <= run.result.value < count
            && |run.requests| > 0 && run.requests[|run.requests| - 1] == ReadScreenText
            && AnswerAt(answers, run.result.value, LastRead(at.n, run.requests)) == Done(true)
    decreases endTime - at.now
  {
    var round := RoundRun(answers, at, count, 0);
    RoundFacts(answers, at, count, 0);
    if round.result.Miss? {
      var rs := round.requests + [Delay(refresh)];
      PollHitIsMatch(answers, After(at, rs), endTime, count, refresh);
    }
  }

  /**
   * A poller gives up only when the deadline has passed or a check threw: with no answer,
   * either the clock has reached `endTime`, or the last request is a read on which a
   * check raised.
   */
  lemma {:induction false} PollGivesUpAtDeadlineOrThrow(answers: Answers, at: At, endTime: int, count: int, refresh: int)
    requires 0 <= count
    requires PollRun(answers, at, endTime, count, refresh).result.None?
    ensures var run := PollRun(answers, at, endTime, count, refresh);
            || After(at, run.requests).now >= endTime
            || (&& |run.requests| > 0 && run.requests[|run.requests| - 1] == ReadScreenText
                && exists i :: 0 <= i < count && AnswerAt(answers, i, LastRead(at.n, run.requests)).Raised?)
    decreases endTime - at.now
  {
    if at.now < endTime {
      var round := RoundRun(answers, at, count, 0);
      RoundFacts(answers, at, count, 0);
      if round.result.Failed? {
        assert round.requests[|round.requests| - 1] == ReadScreenText;
        assert AnswerAt(answers, round.result.index, LastRead(at.n, round.requests)).Raised?;
      } else {
        var rs := round.requests + [Delay(refresh)];
        PollGivesUpAtDeadlineOrThrow(answers, After(at, rs), endTime, count, refresh);
        var rest := PollRun(answers, After(at, rs), endTime, count, refresh);
        AfterAppend(at, rs, rest.requests);
        if rest.requests != [] {
          assert LastRead(at.n, rs + rest.requests) == LastRead(After(at, rs).n, rest.requests);
          assert (rs + rest.requests)[|rs + rest.requests| - 1] == rest.requests[|rest.requests| - 1];
        }
      }
    }
  }

  /** With no time left, a poller reads nothing and answers nothing. */
  lemma NoTimeNoRead(replies: nat -> Reply, at: At, timeout: int, probes: seq<Probe>, refresh: int)
    requires timeout <= 0
    ensures Polling(replies, at, timeout, probes, refresh) == Run(None, [])
  {
  }
}
