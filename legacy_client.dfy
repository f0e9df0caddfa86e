/**
 * ClientService of the console application: the older revision of dispatch to idle (six
 * recognised screens, only "no" tried on the more-time screen, the media collection as one
 * call, and an unrecognised branch that returns no answer) and of ConnectAsync (no recovery
 * retry, the answer of OpenAsync not looked at, one startup application and a fixed
 * seven-minute wait).
 */
module LegacyClient {
  import opened Wrappers
  import opened Text
  import opened Models
  import opened Matcher
  import opened Terminal
  import opened Registry
  import opened Automation
  import opened Recovery
  import opened Connection

  // ---------------------------------------------------------------------------
  // Recognising the screen

  /** The screens the older DispatchToIdle tries, in order: there is no thank-you screen. */
  const Rules: seq<Rule> := [
    Rule("welcome", AtIdle), Rule("outofservice", AtIdle), Rule("pleasewait", OnPleaseWait),
    Rule("moretime", OnMoreTime), Rule("anothertransaction", OnAnotherTransaction),
    Rule("takecard", OnTakeCard)]

  /** The branch one pass takes on the answer to a read; None when the screen could not be read. */
  function BranchOn(screens: seq<AtmScreen>, words: Option<seq<string>>): Option<Attempt<Branch>> {
    if words.None? then None else Some(Decide(CheckOn(screens, words.value), Rules))
  }

  /**
   * The requests of the corrective action of `branch` from request n: "no" clicked where
   * found on the more-time and another-transaction screens, the media collection on the
   * take-card screen, nothing otherwise.
   */
  function ActionRequests(replies: nat -> Reply, n: nat, branch: Branch): seq<Request> {
    match branch
    case OnMoreTime => TryRun(replies, n, "no").requests
    case OnAnotherTransaction => TryRun(replies, n, "no").requests
    case OnTakeCard => [TakeAllMediaCall]
    case _ => []
  }

  function BranchesOf(replies: nat -> Reply, screens: seq<AtmScreen>): Branches {
    (n: nat) => BranchOn(screens, ReadWords(replies, n))
  }

  function ActionsOf(replies: nat -> Reply): Actions {
    (n: nat, branch: Branch) => ActionRequests(replies, n, branch)
  }

  // ---------------------------------------------------------------------------
  // Dispatch to idle

  /**
   * What a call that falls off the end of the method after awaiting `c` completes with: an
   * exception (or the model's bound) passes through, but a returned value is dropped.
   */
  function Unreturned(c: Completion): (r: Completion)
    ensures r != Returned(true) && r != Returned(false)
    ensures !c.Returned? ==> r == c
  {
    if c.Returned? then NoResult else c
  }

  /**
   * The older dispatch loop from request n with `fuel` passes left: read the screen; false
   * when it cannot be read; true on welcome or out of service; a throw when a screen whose
   * turn came is not registered; otherwise the corrective action, a delay and the next
   * pass, whose answer is returned except after an unrecognised screen, where the method
   * ends without returning it.
   */
  function DispatchLoop(branches: Branches, actions: Actions, n: nat, standardDelay: int, fuel: nat): Run<Completion>
    decreases fuel
  {
    if fuel == 0 then Run(OutOfFuel, [])
    else
      var decided := BranchAt(branches, n);
      if !Continues(decided) then Run(Verdict(decided), [ReadScreenText])
      else
        var pass := [ReadScreenText] + ActionAt(actions, n + 1, decided.value.value) + [Delay(standardDelay)];
        var rest := DispatchLoop(branches, actions, n + |pass|, standardDelay, fuel - 1);
        Run(if decided.value.value == OnUnrecognised then Unreturned(rest.result) else rest.result,
            pass + rest.requests)
  }

  /** What the older DispatchToIdle does from request n against the registered `screens`. */
  function DispatchRun(replies: nat -> Reply, n: nat, screens: seq<AtmScreen>, standardDelay: int, fuel: nat): Run<Completion> {
    DispatchLoop(BranchesOf(replies, screens), ActionsOf(replies), n, standardDelay, fuel)
  }

  /** `branches` gives, for every request number, the branch a read answered there selects. */
  ghost predicate DecidesAs(branches: Branches, replies: nat -> Reply, screens: seq<AtmScreen>) {
    forall n: nat {:trigger BranchOn(screens, ReadWords(replies, n))} :: branches(n) == BranchOn(screens, ReadWords(replies, n))
  }

  /** `actions` gives, for every request number and branch, the requests of the corrective action. */
  ghost predicate ActsAs(actions: Actions, replies: nat -> Reply) {
    forall n: nat, branch: Branch {:trigger ActionRequests(replies, n, branch)} :: actions(n, branch) == ActionRequests(replies, n, branch)
  }

  /** The screen read of one pass and the branch it selects. */
  method ReadBranch(atm: Atm, screens: seq<AtmScreen>, ghost branches: Branches) returns (decided: Option<Attempt<Branch>>)
    requires DecidesAs(branches, atm.replies, screens)
    modifies atm
    ensures decided == BranchAt(branches, old(atm.step))
    ensures atm.trace == old(atm.trace) + [ReadScreenText]
    ensures atm.Where() == After(old(atm.Where()), [ReadScreenText])
  {
    var words := GetScreenWords(atm);
    decided := BranchOn(screens, words);
  }

  /** The corrective action of one pass, and the delay after it. */
  method ActAndWait(atm: Atm, branch: Branch, standardDelay: int, ghost actions: Actions)
    requires ActsAs(actions, atm.replies)
    modifies atm
    ensures atm.trace == old(atm.trace) + (ActionAt(actions, old(atm.step), branch) + [Delay(standardDelay)])
    ensures atm.Where() == After(old(atm.Where()), ActionAt(actions, old(atm.step), branch) + [Delay(standardDelay)])
  {
    ghost var at := atm.Where();
    ghost var trace := atm.trace;
    ghost var act := ActionRequests(atm.replies, atm.step, branch);
    match branch {
      case OnMoreTime =>
        var _ := TryItem(atm, "no");
      case OnAnotherTransaction =>
        var _ := TryItem(atm, "no");
      case OnTakeCard =>
        var _ := atm.Send(TakeAllMediaCall);
      case _ =>
        assert atm.trace + [] == atm.trace;
    }
    var _ := atm.Send(Delay(standardDelay));
    Then(at, trace, act, [Delay(standardDelay)]);
  }

  /** One pass of the older DispatchToIdle: the read, and the action and delay when the loop goes on. */
  method Pass(atm: Atm, screens: seq<AtmScreen>, standardDelay: int, ghost branches: Branches, ghost actions: Actions)
    returns (decided: Option<Attempt<Branch>>)
    requires DecidesAs(branches, atm.replies, screens) && ActsAs(actions, atm.replies)
    modifies atm
    ensures decided == BranchAt(branches, old(atm.step))
    ensures var pass := PassRun(branches, actions, old(atm.step), standardDelay);
            && atm.trace == old(atm.trace) + pass.requests
            && atm.Where() == After(old(atm.Where()), pass.requests)
  {
    ghost var at := atm.Where();
    ghost var trace := atm.trace;
    decided := ReadBranch(atm, screens, branches);
    if !Continues(decided) {
      return;
    }
    ghost var rest := ActionAt(actions, atm.step, decided.value.value) + [Delay(standardDelay)];
    PassContinues(branches, actions, at.n, standardDelay);
    ActAndWait(atm, decided.value.value, standardDelay, actions);
    Then(at, trace, [ReadScreenText], rest);
    assert [ReadScreenText] + rest == [ReadScreenText] + ActionAt(actions, at.n + 1, decided.value.value) + [Delay(standardDelay)];
  }

  /** `loop` gives the older dispatch loop from every request number and fuel bound. */
  ghost predicate LoopsAs(loop: Loop, branches: Branches, actions: Actions, standardDelay: int) {
    forall n: nat, fuel: nat {:trigger DispatchLoop(branches, actions, n, standardDelay, fuel)} ::
      loop(n, fuel) == DispatchLoop(branches, actions, n, standardDelay, fuel)
  }

  /** A pass that ends the loop gives its verdict after the read alone. */
  lemma LoopStops(loop: Loop, branches: Branches, actions: Actions, n: nat, standardDelay: int, fuel: nat)
    requires LoopsAs(loop, branches, actions, standardDelay)
    requires fuel > 0 && !Continues(BranchAt(branches, n))
    ensures loop(n, fuel) == Run(Verdict(BranchAt(branches, n)), PassRun(branches, actions, n, standardDelay).requests)
  {
    assert loop(n, fuel) == DispatchLoop(branches, actions, n, standardDelay, fuel);
  }

  /** A pass that goes on is followed by the next pass, whose answer is dropped after an unrecognised screen. */
  lemma LoopGoesOn(loop: Loop, branches: Branches, actions: Actions, n: nat, standardDelay: int, fuel: nat)
    requires LoopsAs(loop, branches, actions, standardDelay)
    requires fuel > 0 && Continues(BranchAt(branches, n))
    ensures var pass := PassRun(branches, actions, n, standardDelay).requests;
            var next := loop(n + |pass|, fuel - 1);
            loop(n, fuel)
            == Run(if BranchAt(branches, n).value.value == OnUnrecognised then Unreturned(next.result) else next.result,
                   pass + next.requests)
  {
    var pass := PassRun(branches, actions, n, standardDelay).requests;
    assert loop(n, fuel) == DispatchLoop(branches, actions, n, standardDelay, fuel);
    assert loop(n + |pass|, fuel - 1) == DispatchLoop(branches, actions, n + |pass|, standardDelay, fuel - 1);
  }

  /** The passes of the older DispatchToIdle, the loop seen through `loop`. */
  method DispatchVia(atm: Atm, screens: seq<AtmScreen>, standardDelay: int, fuel: nat,
                     ghost branches: Branches, ghost actions: Actions, ghost loop: Loop) returns (c: Completion)
    requires DecidesAs(branches, atm.replies, screens) && ActsAs(actions, atm.replies)
    requires LoopsAs(loop, branches, actions, standardDelay)
    modifies atm
    ensures var run := loop(old(atm.step), fuel);
            && c == run.result
            && atm.trace == old(atm.trace) + run.requests
            && atm.Where() == After(old(atm.Where()), run.requests)
    decreases fuel
  {
    if fuel == 0 {
      assert loop(atm.step, fuel) == DispatchLoop(branches, actions, atm.step, standardDelay, fuel);
      assert atm.trace + [] == atm.trace;
      return OutOfFuel;
    }
    ghost var at := atm.Where();
    ghost var trace := atm.trace;
    ghost var pass := PassRun(branches, actions, at.n, standardDelay).requests;
    var decided := Pass(atm, screens, standardDelay, branches, actions);
    if !Continues(decided) {
      LoopStops(loop, branches, actions, at.n, standardDelay, fuel);
      return Verdict(decided);
    }
    var branch := decided.value.value;
    LoopGoesOn(loop, branches, actions, at.n, standardDelay, fuel);
    ghost var next := loop(at.n + |pass|, fuel - 1);
    var rest := DispatchVia(atm, screens, standardDelay, fuel - 1, branches, actions, loop);
    Then(at, trace, pass, next.requests);
    c := if branch == OnUnrecognised then Unreturned(rest) else rest;
  }

  /** The passes of the older DispatchToIdle, its recursion bounded by `fuel`. */
  method DispatchFrom(atm: Atm, screens: seq<AtmScreen>, standardDelay: int, fuel: nat,
                      ghost branches: Branches, ghost actions: Actions) returns (c: Completion)
    requires DecidesAs(branches, atm.replies, screens) && ActsAs(actions, atm.replies)
    modifies atm
    ensures var run := DispatchLoop(branches, actions, old(atm.step), standardDelay, fuel);
            && c == run.result
            && atm.trace == old(atm.trace) + run.requests
            && atm.Where() == After(old(atm.Where()), run.requests)
  {
    ghost var loop: Loop := (n: nat, f: nat) => DispatchLoop(branches, actions, n, standardDelay, f);
    c := DispatchVia(atm, screens, standardDelay, fuel, branches, actions, loop);
  }

  /** The older DispatchToIdle against the registered `screens`, with the recursion bounded by `fuel`. */
  method DispatchToIdle(atm: Atm, screens: seq<AtmScreen>, standardDelay: int, fuel: nat) returns (c: Completion)
    modifies atm
    ensures var run := DispatchRun(atm.replies, old(atm.step), screens, standardDelay, fuel);
            && c == run.result
            && atm.trace == old(atm.trace) + run.requests
            && atm.Where() == After(old(atm.Where()), run.requests)
  {
    c := DispatchFrom(atm, screens, standardDelay, fuel, BranchesOf(atm.replies, screens), ActionsOf(atm.replies));
  }

  // ---------------------------------------------------------------------------
  // Properties of the older dispatch

  /** With an unreadable screen, the older dispatch reads once and answers false, with no action. */
  lemma DispatchUnreadable(replies: nat -> Reply, n: nat, screens: seq<AtmScreen>, standardDelay: int, fuel: nat)
    requires fuel > 0 && replies(n).page.None?
    ensures DispatchRun(replies, n, screens, standardDelay, fuel) == Run(Returned(false), [ReadScreenText])
  {
    assert ReadWords(replies, n).None?;
  }

  /** At welcome or out of service, the older dispatch reads once and answers true, with no action. */
  lemma DispatchAtIdle(replies: nat -> Reply, n: nat, screens: seq<AtmScreen>, standardDelay: int, fuel: nat)
    requires fuel > 0 && ReadWords(replies, n).Some? && AtIdleScreen(screens, ReadWords(replies, n).value)
    ensures DispatchRun(replies, n, screens, standardDelay, fuel) == Run(Returned(true), [ReadScreenText])
  {
    IdleScreenIsIdle(screens, ReadWords(replies, n).value);
    assert BranchAt(BranchesOf(replies, screens), n) == Some(Done(AtIdle));
  }

  /** At welcome or out of service, the older chain takes the idle branch. */
  lemma IdleScreenIsIdle(screens: seq<AtmScreen>, words: seq<string>)
    requires AtIdleScreen(screens, words)
    ensures BranchOn(screens, Some(words)) == Some(Done(AtIdle))
  {
    var check := CheckOn(screens, words);
    assert Rules[0].screen == "welcome" && Rules[1].screen == "outofservice";
    if ScreenCheck(screens, words, "welcome") == Some(true) {
      FirstFiringRuleDecides(check, Rules, 0);
    } else {
      assert Skipped(check, Rules, 0);
      assert Fires(check, Rules, 1);
      forall j | 0 <= j < 1 ensures Skipped(check, Rules, j) {
        assert j == 0;
      }
      FirstFiringRuleDecides(check, Rules, 1);
    }
  }

  /**
   * The older revision does not know the thank-you screen: on words where every one of its
   * screens is registered and fails to match and thank-you matches, it takes the
   * unrecognised branch, where the library's dispatcher takes the thank-you branch.
   */
  lemma ThankYouUnrecognised(check: Check)
    requires forall j :: 0 <= j < |Rules| ==> Skipped(check, Rules, j)
    requires CheckAt(check, "thankyou") == Some(true)
    ensures Decide(check, Rules) == Done(OnUnrecognised)
    ensures Decide(check, DispatchRules) == Done(OnThankYou)
  {
    NoRuleFiresUnrecognised(check, Rules);
    forall j | 0 <= j < 6 ensures Skipped(check, DispatchRules, j) {
      assert DispatchRules[j] == Rules[j];
    }
    FirstFiringRuleDecides(check, DispatchRules, 6);
  }

  /** On the more-time and another-transaction screens the older client looks only for "no". */
  lemma ActionsLookUpNo(replies: nat -> Reply, n: nat)
    ensures LookedUp(ActionRequests(replies, n, OnMoreTime)) == ["no"]
    ensures LookedUp(ActionRequests(replies, n, OnAnotherTransaction)) == ["no"]
  {
    LookedUpOfTry(replies, n, "no");
  }

  /**
   * The older dispatch issues exactly the requests the library's dispatch loop issues with
   * the same branches and actions, and answers the same, except that where the library's
   * returns a value the older one may end with no answer.
   */
  lemma {:induction false} DispatchAsLibrary(branches: Branches, actions: Actions, n: nat, standardDelay: int, fuel: nat)
    ensures var older := DispatchLoop(branches, actions, n, standardDelay, fuel);
            var library := Recovery.DispatchLoop(branches, actions, n, standardDelay, fuel);
            && older.requests == library.requests
            && (older.result == library.result || (older.result == NoResult && library.result.Returned?))
    decreases fuel
  {
    if fuel > 0 && Continues(BranchAt(branches, n)) {
      var pass := PassRun(branches, actions, n, standardDelay);
      PassContinues(branches, actions, n, standardDelay);
      DispatchAsLibrary(branches, actions, n + |pass.requests|, standardDelay, fuel - 1);
    }
  }

  /**
   * After an unrecognised screen the older dispatch never answers true or false: it ends
   * with no answer, a throw, or the model's bound.
   */
  lemma UnrecognisedNeverAnswers(branches: Branches, actions: Actions, n: nat, standardDelay: int, fuel: nat)
    requires BranchAt(branches, n) == Some(Done(OnUnrecognised))
    ensures !DispatchLoop(branches, actions, n, standardDelay, fuel).result.Returned?
  {
  }

  /**
   * Only an unrecognised screen costs the answer: when no read selects the unrecognised
   * branch, the older dispatch answers exactly what the library's dispatch loop answers.
   */
  lemma {:induction false} RecognisedAnswersAsLibrary(branches: Branches, actions: Actions, n: nat, standardDelay: int, fuel: nat)
    requires forall m: nat :: BranchAt(branches, m) != Some(Done(OnUnrecognised))
    ensures DispatchLoop(branches, actions, n, standardDelay, fuel) == Recovery.DispatchLoop(branches, actions, n, standardDelay, fuel)
    decreases fuel
  {
    if fuel > 0 && Continues(BranchAt(branches, n)) {
      var pass := PassRun(branches, actions, n, standardDelay);
      PassContinues(branches, actions, n, standardDelay);
      RecognisedAnswersAsLibrary(branches, actions, n + |pass.requests|, standardDelay, fuel - 1);
    }
  }

  /** Every corrective action of the older client consists of recovery requests. */
  lemma ActionIsRecovery(replies: nat -> Reply, n: nat, branch: Branch, standardDelay: int)
    ensures AllRecovery(ActionRequests(replies, n, branch), standardDelay)
  {
    if branch.OnMoreTime? || branch.OnAnotherTransaction? {
      TryIsRecovery(replies, n, "no", standardDelay);
    }
  }

  /** The older dispatch issues nothing but recovery requests. */
  lemma DispatchOnlyRecovers(replies: nat -> Reply, n: nat, screens: seq<AtmScreen>, standardDelay: int, fuel: nat)
    ensures AllRecovery(DispatchRun(replies, n, screens, standardDelay, fuel).requests, standardDelay)
  {
    var branches := BranchesOf(replies, screens);
    var actions := ActionsOf(replies);
    forall m: nat, b: Branch ensures AllRecovery(ActionAt(actions, m, b), standardDelay) {
      ActionIsRecovery(replies, m, b, standardDelay);
    }
    DispatchLoopOnlyRecovers(branches, actions, n, standardDelay, fuel);
    DispatchAsLibrary(branches, actions, n, standardDelay, fuel);
  }

  // ---------------------------------------------------------------------------
  // ConnectAsync

  /** The console client's configuration: the registered screens, its startup application and its standard delay. */
  datatype ConsoleConfig = ConsoleConfig(screens: seq<AtmScreen>, startupApp: string, standardDelay: int)

  /** How long the cold start waits for the application to start (seven minutes). */
  const AppStartWait: int := 420000

  /**
   * From the OpenSession request n on: open the session, read the status again and demand
   * APICONTROLLED (a null status throws and is caught), open the hardware profile unless
   * the agent was paused, and open the connection. Neither of the last two answers is looked
   * at: the stage succeeds once the session is APICONTROLLED.
   */
  function SessionRun(replies: nat -> Reply, n: nat, paused: bool): Run<bool> {
    if !replies(n).ok then Run(false, [OpenSession])
    else
      var status := replies(n + 1).status;
      if status.None? || !IsStatus(status.value, "APICONTROLLED") then Run(false, [OpenSession, GetAgentStatus])
      else Run(true, [OpenSession, GetAgentStatus] + (if paused then [] else [OpenHwProfile]) + [OpenConnection])
  }

  method OpenSessionStage(atm: Atm, paused: bool) returns (ok: bool)
    modifies atm
    ensures var run := SessionRun(atm.replies, old(atm.step), paused);
            && ok == run.result
            && atm.trace == old(atm.trace) + run.requests
            && atm.Where() == After(old(atm.Where()), run.requests)
  {
    ghost var at := atm.Where();
    ghost var trace := atm.trace;
    ghost var run := SessionRun(atm.replies, at.n, paused);
    var session := atm.Send(OpenSession);
    if !session.ok {
      assert run == Run(false, [OpenSession]);
      return false;
    }
    var state := atm.Send(GetAgentStatus);
    Then(at, trace, [OpenSession], [GetAgentStatus]);
    ghost var head := [OpenSession, GetAgentStatus];
    assert [OpenSession] + [GetAgentStatus] == head;
    if state.status.None? || !IsStatus(state.status.value, "APICONTROLLED") {
      assert run == Run(false, head);
      return false;
    }
    if !paused {
      var _ := atm.Send(OpenHwProfile);
      Then(at, trace, head, [OpenHwProfile]);
      head := head + [OpenHwProfile];
    } else {
      assert head + [] == head;
    }
    assert run == Run(true, head + [OpenConnection]);
    var _ := atm.Send(OpenConnection);
    Then(at, trace, head, [OpenConnection]);
    ok := true;
  }

  /**
   * The older session stage issues exactly the requests of the library's, but answers true
   * whatever OpenAsync answered: it succeeds exactly when the session opened and the agent
   * then reported APICONTROLLED, and whenever the library's succeeds.
   */
  lemma SessionIgnoresOpenAnswer(replies: nat -> Reply, n: nat, paused: bool)
    ensures var older := SessionRun(replies, n, paused);
            var library := Connection.SessionRun(replies, n, paused);
            && older.requests == library.requests
            && (older.result <==> replies(n).ok && replies(n + 1).status.Some? && IsStatus(replies(n + 1).status.value, "APICONTROLLED"))
            && (library.result ==> older.result)
  {
    var older := SessionRun(replies, n, paused);
    var library := Connection.SessionRun(replies, n, paused);
    if replies(n).ok && replies(n + 1).status.Some? && IsStatus(replies(n + 1).status.value, "APICONTROLLED") {
      var head := [OpenSession, GetAgentStatus] + (if paused then [] else [OpenHwProfile]);
      assert older.requests == head + [OpenConnection];
    }
  }

  /** The older session stage answers true even when opening the connection failed. */
  lemma SessionTrueWithoutConnection(replies: nat -> Reply, n: nat)
    requires replies(n).ok && replies(n + 1).status == Some("APICONTROLLED") && !replies(n + 3).ok
    ensures SessionRun(replies, n, false).result
    ensures SessionRun(replies, n, false).requests[3] == OpenConnection
    ensures !Connection.SessionRun(replies, n, false).result
  {
    assert Upper("APICONTROLLED") == "APICONTROLLED";
  }

  /**
   * The cold start from `at`: start the application, wait seven minutes, then wait for the
   * registered welcome screen; with no welcome registered `First` throws, which the
   * catch-all answers false.
   */
  function ColdStartRun(replies: nat -> Reply, at: At, cfg: ConsoleConfig): Run<Completion> {
    var starts := [StartApp(cfg.startupApp), Delay(AppStartWait)];
    match FindScreen(cfg.screens, "welcome")
    case None => Run(Returned(false), starts)
    case Some(welcome) =>
      var wait := Polling(replies, After(at, starts), WelcomeTimeout, [ScreenProbe(welcome)], WelcomeRefresh);
      Run(Returned(wait.result.Some?), starts + wait.requests)
  }

  method ColdStart(atm: Atm, cfg: ConsoleConfig) returns (c: Completion)
    modifies atm
    ensures var run := ColdStartRun(atm.replies, old(atm.Where()), cfg);
            && c == run.result
            && atm.trace == old(atm.trace) + run.requests
            && atm.Where() == After(old(atm.Where()), run.requests)
  {
    ghost var at := atm.Where();
    ghost var trace := atm.trace;
    var _ := atm.Send(StartApp(cfg.startupApp));
    var _ := atm.Send(Delay(AppStartWait));
    ghost var starts := [StartApp(cfg.startupApp), Delay(AppStartWait)];
    Then(at, trace, [StartApp(cfg.startupApp)], [Delay(AppStartWait)]);
    assert [StartApp(cfg.startupApp)] + [Delay(AppStartWait)] == starts;
    var welcome := FindScreen(cfg.screens, "welcome");
    if welcome.None? {
      return Returned(false);
    }
    ghost var wait := Polling(atm.replies, atm.Where(), WelcomeTimeout, [ScreenProbe(welcome.value)], WelcomeRefresh);
    var found := WaitForScreen(atm, welcome.value, WelcomeTimeout, WelcomeRefresh);
    Then(at, trace, starts, wait.requests);
    c := Returned(found);
  }

  /**
   * The older cold start starts the one configured application, waits seven minutes, and
   * from there only reads the screen and waits the refresh interval; it answers true exactly
   * when welcome is registered and was seen before the deadline.
   */
  lemma ColdStartFacts(replies: nat -> Reply, at: At, cfg: ConsoleConfig)
    ensures var run := ColdStartRun(replies, at, cfg);
            && |run.requests| >= 2
            && run.requests[0] == StartApp(cfg.startupApp) && run.requests[1] == Delay(AppStartWait)
            && ReadsAndWaits(run.requests[2..], WelcomeRefresh)
            && (run.result == Returned(true) <==>
                  && FindScreen(cfg.screens, "welcome").Some?
                  && Polling(replies, After(at, run.requests[..2]), WelcomeTimeout,
                             [ScreenProbe(FindScreen(cfg.screens, "welcome").value)], WelcomeRefresh).result.Some?)
            && run.result.Returned?
  {
    var run := ColdStartRun(replies, at, cfg);
    var starts := [StartApp(cfg.startupApp), Delay(AppStartWait)];
    var welcome := FindScreen(cfg.screens, "welcome");
    assert run.requests[..2] == starts;
    if welcome.None? {
      assert run.requests[2..] == [];
    } else {
      var at' := After(at, starts);
      var answers := AnswersOf(replies, [ScreenProbe(welcome.value)]);
      PollOnlyReadsAndWaits(answers, at', at'.now + WelcomeTimeout, 1, WelcomeRefresh);
      var wait := Polling(replies, at', WelcomeTimeout, [ScreenProbe(welcome.value)], WelcomeRefresh);
      assert run.requests == starts + wait.requests;
      assert run.requests[2..] == wait.requests;
    }
  }

  /**
   * What the older ConnectAsync does on the screen it matched, from `at`: with no
   * registered screen matching, the cold start; on a screen other than welcome or out of
   * service, the older dispatch, whose answer (or lack of one) it returns and whose
   * exceptions the catch-all answers false; otherwise true at once.
   */
  function OnScreenRun(replies: nat -> Reply, at: At, cfg: ConsoleConfig, fuel: nat, current: Option<AtmScreen>): Run<Completion> {
    match current
    case None => ColdStartRun(replies, at, cfg)
    case Some(screen) =>
      if IsIdleName(screen.name) then Run(Returned(true), [])
      else
        var dispatch := DispatchRun(replies, at.n, cfg.screens, cfg.standardDelay, fuel);
        Run(Caught(dispatch.result), dispatch.requests)
  }

  /** From `at`, after the connection opened: read the screen (false when it cannot be read) and act on the first registered screen it matches. */
  function ScreenStageRun(replies: nat -> Reply, at: At, cfg: ConsoleConfig, fuel: nat): Run<Completion> {
    match ReadWords(replies, at.n)
    case None => Run(Returned(false), [ReadScreenText])
    case Some(words) =>
      var rest := OnScreenRun(replies, After(at, [ReadScreenText]), cfg, fuel, MatchScreens(cfg.screens, words));
      Run(rest.result, [ReadScreenText] + rest.requests)
  }

  method OnScreen(atm: Atm, cfg: ConsoleConfig, fuel: nat, current: Option<AtmScreen>) returns (c: Completion)
    modifies atm
    ensures var run := OnScreenRun(atm.replies, old(atm.Where()), cfg, fuel, current);
            && c == run.result
            && atm.trace == old(atm.trace) + run.requests
            && atm.Where() == After(old(atm.Where()), run.requests)
  {
    if current.None? {
      c := ColdStart(atm, cfg);
    } else if IsIdleName(current.value.name) {
      assert atm.trace + [] == atm.trace;
      c := Returned(true);
    } else {
      var d := DispatchToIdle(atm, cfg.screens, cfg.standardDelay, fuel);
      c := Caught(d);
    }
  }

  method ScreenStage(atm: Atm, cfg: ConsoleConfig, fuel: nat) returns (c: Completion)
    modifies atm
    ensures var run := ScreenStageRun(atm.replies, old(atm.Where()), cfg, fuel);
            && c == run.result
            && atm.trace == old(atm.trace) + run.requests
            && atm.Where() == After(old(atm.Where()), run.requests)
  {
    ghost var at := atm.Where();
    ghost var trace := atm.trace;
    var words := GetScreenWords(atm);
    if words.None? {
      return Returned(false);
    }
    var current := MatchScreens(cfg.screens, words.value);
    ghost var rest := OnScreenRun(atm.replies, atm.Where(), cfg, fuel, current);
    c := OnScreen(atm, cfg, fuel, current);
    Then(at, trace, [ReadScreenText], rest.requests);
  }

  function StageOf(replies: nat -> Reply, cfg: ConsoleConfig): Stage {
    (at: At, fuel: nat) => ScreenStageRun(replies, at, cfg, fuel)
  }

  /**
   * The older ConnectAsync from `at`, given its screen stage: read the agent status (false
   * when null, and false, with no recovery, when neither IDLE nor PAUSED); then the session
   * stage and, when it succeeds, the screen stage.
   */
  function GateRun(replies: nat -> Reply, stage: Stage, at: At, fuel: nat): Run<Completion> {
    match replies(at.n).status
    case None => Run(Returned(false), [GetAgentStatus])
    case Some(status) =>
      if !Ready(status) then Run(Returned(false), [GetAgentStatus])
      else
        var session := SessionRun(replies, at.n + 1, IsStatus(status, "PAUSED"));
        var head := [GetAgentStatus] + session.requests;
        if !session.result then Run(Returned(false), head)
        else
          var screen := StageAt(stage, After(at, head), fuel);
          Run(screen.result, head + screen.requests)
  }

  /** What the older ConnectAsync does from `at` with the configuration `cfg`, the dispatch it may run bounded by `fuel`. */
  function ConnectRun(replies: nat -> Reply, at: At, cfg: ConsoleConfig, fuel: nat): Run<Completion> {
    GateRun(replies, StageOf(replies, cfg), at, fuel)
  }

  /** `stage` gives the older screen stage for every position and fuel bound. */
  ghost predicate StagesAs(stage: Stage, replies: nat -> Reply, cfg: ConsoleConfig) {
    forall at: At, fuel: nat {:trigger ScreenStageRun(replies, at, cfg, fuel)} :: stage(at, fuel) == ScreenStageRun(replies, at, cfg, fuel)
  }

  /** The screen stage, seen through `stage`. */
  method StageStep(atm: Atm, cfg: ConsoleConfig, fuel: nat, ghost stage: Stage) returns (c: Completion)
    requires StagesAs(stage, atm.replies, cfg)
    modifies atm
    ensures var run := StageAt(stage, old(atm.Where()), fuel);
            && c == run.result
            && atm.trace == old(atm.trace) + run.requests
            && atm.Where() == After(old(atm.Where()), run.requests)
  {
    ghost var expected := ScreenStageRun(atm.replies, atm.Where(), cfg, fuel);
    c := ScreenStage(atm, cfg, fuel);
  }

  /** The older ConnectAsync, given its screen stage. */
  method Gate(atm: Atm, cfg: ConsoleConfig, fuel: nat, ghost stage: Stage) returns (c: Completion)
    requires StagesAs(stage, atm.replies, cfg)
    modifies atm
    ensures var run := GateRun(atm.replies, stage, old(atm.Where()), fuel);
            && c == run.result
            && atm.trace == old(atm.trace) + run.requests
            && atm.Where() == After(old(atm.Where()), run.requests)
  {
    ghost var at := atm.Where();
    ghost var trace := atm.trace;
    ghost var run := GateRun(atm.replies, stage, at, fuel);
    var state := atm.Send(GetAgentStatus);
    if state.status.None? || !Ready(state.status.value) {
      return Returned(false);
    }
    var paused := IsStatus(state.status.value, "PAUSED");
    ghost var session := SessionRun(atm.replies, atm.step, paused);
    var acquired := OpenSessionStage(atm, paused);
    Then(at, trace, [GetAgentStatus], session.requests);
    ghost var head := [GetAgentStatus] + session.requests;
    if !acquired {
      assert run == Run(Returned(false), head);
      return Returned(false);
    }
    ghost var screen := StageAt(stage, atm.Where(), fuel);
    assert run == Run(screen.result, head + screen.requests);
    c := StageStep(atm, cfg, fuel, stage);
    Then(at, trace, head, screen.requests);
  }

  /** The older ConnectAsync, with the dispatch it may run bounded by `fuel`. */
  method Connect(atm: Atm, cfg: ConsoleConfig, fuel: nat) returns (c: Completion)
    modifies atm
    ensures var run := ConnectRun(atm.replies, old(atm.Where()), cfg, fuel);
            && c == run.result
            && atm.trace == old(atm.trace) + run.requests
            && atm.Where() == After(old(atm.Where()), run.requests)
  {
    c := Gate(atm, cfg, fuel, StageOf(atm.replies, cfg));
  }

  // ---------------------------------------------------------------------------
  // Properties of the older ConnectAsync

  /** Unless the agent answers IDLE or PAUSED, the older ConnectAsync gives up at once: false, with no recovery and nothing else issued. */
  lemma NotReadyGivesUp(replies: nat -> Reply, at: At, cfg: ConsoleConfig, fuel: nat)
    requires replies(at.n).status.None? || !Ready(replies(at.n).status.value)
    ensures ConnectRun(replies, at, cfg, fuel) == Run(Returned(false), [GetAgentStatus])
  {
  }

  /** Acting on the matched screen never lets an exception out. */
  lemma OnScreenNeverThrows(replies: nat -> Reply, at: At, cfg: ConsoleConfig, fuel: nat, current: Option<AtmScreen>)
    ensures OnScreenRun(replies, at, cfg, fuel, current).result != Threw
  {
    if current.None? {
      ColdStartFacts(replies, at, cfg);
    }
  }

  lemma ScreenStageNeverThrows(replies: nat -> Reply, at: At, cfg: ConsoleConfig, fuel: nat)
    ensures ScreenStageRun(replies, at, cfg, fuel).result != Threw
  {
    var words := ReadWords(replies, at.n);
    if words.Some? {
      OnScreenNeverThrows(replies, After(at, [ReadScreenText]), cfg, fuel, MatchScreens(cfg.screens, words.value));
    }
  }

  /** The older ConnectAsync never lets an exception out. */
  lemma ConnectNeverThrows(replies: nat -> Reply, at: At, cfg: ConsoleConfig, fuel: nat)
    ensures ConnectRun(replies, at, cfg, fuel).result != Threw
  {
    var stage := StageOf(replies, cfg);
    var status := replies(at.n).status;
    if status.Some? && Ready(status.value) {
      var session := SessionRun(replies, at.n + 1, IsStatus(status.value, "PAUSED"));
      var head := [GetAgentStatus] + session.requests;
      if session.result {
        ScreenStageNeverThrows(replies, After(at, head), cfg, fuel);
        assert StageAt(stage, After(at, head), fuel) == ScreenStageRun(replies, After(at, head), cfg, fuel);
      }
    }
  }

  /** Acting on the matched screen makes no call to the agent or connection service. */
  lemma OnScreenQuiet(replies: nat -> Reply, at: At, cfg: ConsoleConfig, fuel: nat, current: Option<AtmScreen>)
    ensures NoAgentCalls(OnScreenRun(replies, at, cfg, fuel, current).requests)
  {
    if current.None? {
      ColdStartQuiet(replies, at, cfg);
    } else if !IsIdleName(current.value.name) {
      var rs := DispatchRun(replies, at.n, cfg.screens, cfg.standardDelay, fuel).requests;
      DispatchOnlyRecovers(replies, at.n, cfg.screens, cfg.standardDelay, fuel);
      forall j | 0 <= j < |rs| ensures !IsAgentCall(rs[j]) {
        assert IsRecoveryRequest(rs[j], cfg.standardDelay);
      }
    }
  }

  /** The cold start only starts the application, waits, reads the screen and waits again. */
  lemma ColdStartQuiet(replies: nat -> Reply, at: At, cfg: ConsoleConfig)
    ensures NoAgentCalls(ColdStartRun(replies, at, cfg).requests)
  {
    var rs := ColdStartRun(replies, at, cfg).requests;
    ColdStartFacts(replies, at, cfg);
    forall j | 0 <= j < |rs| ensures !IsAgentCall(rs[j]) {
      if j >= 2 {
        assert rs[j] == rs[2..][j - 2];
      }
    }
  }

  lemma ScreenStageQuiet(replies: nat -> Reply, at: At, cfg: ConsoleConfig, fuel: nat)
    ensures NoAgentCalls(ScreenStageRun(replies, at, cfg, fuel).requests)
  {
    var words := ReadWords(replies, at.n);
    if words.Some? {
      var current := MatchScreens(cfg.screens, words.value);
      var rest := OnScreenRun(replies, After(at, [ReadScreenText]), cfg, fuel, current);
      OnScreenQuiet(replies, After(at, [ReadScreenText]), cfg, fuel, current);
      assert ScreenStageRun(replies, at, cfg, fuel).requests == [ReadScreenText] + rest.requests;
      forall j | 0 <= j < 1 + |rest.requests| ensures !IsAgentCall(([ReadScreenText] + rest.requests)[j]) {
        if j > 0 {
          assert ([ReadScreenText] + rest.requests)[j] == rest.requests[j - 1];
        }
      }
    }
  }

  /** The status read and the older session stage that follows a ready status keep every gate. */
  lemma HeadGated(replies: nat -> Reply, n: nat)
    requires replies(n).status.Some? && Ready(replies(n).status.value)
    ensures Gated(replies, n, [GetAgentStatus] + SessionRun(replies, n + 1, IsStatus(replies(n).status.value, "PAUSED")).requests)
  {
    SessionIgnoresOpenAnswer(replies, n + 1, IsStatus(replies(n).status.value, "PAUSED"));
    SessionGated(replies, n);
  }

  /** From a ready status, every gate holds over what the older ConnectAsync issues, when its screen stage is quiet. */
  lemma ReadyGateGated(replies: nat -> Reply, stage: Stage, at: At, fuel: nat)
    requires StageQuiet(stage)
    requires replies(at.n).status.Some? && Ready(replies(at.n).status.value)
    ensures Gated(replies, at.n, GateRun(replies, stage, at, fuel).requests)
  {
    var session := SessionRun(replies, at.n + 1, IsStatus(replies(at.n).status.value, "PAUSED"));
    var head := [GetAgentStatus] + session.requests;
    HeadGated(replies, at.n);
    if session.result {
      var screen := StageAt(stage, After(at, head), fuel);
      assert GateRun(replies, stage, at, fuel).requests == head + screen.requests;
      assert NoAgentCalls(screen.requests);
      NoAgentCallsGated(replies, at.n + |head|, screen.requests);
      GatedAppend(replies, at.n, head, screen.requests);
    }
  }

  /** Every gate holds over what the older ConnectAsync issues from `at`, when its screen stage is quiet. */
  lemma GateGated(replies: nat -> Reply, stage: Stage, at: At, fuel: nat)
    requires StageQuiet(stage)
    ensures Gated(replies, at.n, GateRun(replies, stage, at, fuel).requests)
  {
    var status := replies(at.n).status;
    if status.None? || !Ready(status.value) {
      assert GateRun(replies, stage, at, fuel).requests == [GetAgentStatus];
      assert GateHolds(replies, at.n, [GetAgentStatus], 0);
    } else {
      ReadyGateGated(replies, stage, at, fuel);
    }
  }

  /**
   * Every gate of the older ConnectAsync holds over all it issues: a session only right
   * after IDLE or PAUSED, the hardware profile only when the session became APICONTROLLED
   * from IDLE, the connection only once the session is APICONTROLLED, and a recovery only
   * after a status that is neither, which the older revision never follows with one.
   */
  lemma ConnectGated(replies: nat -> Reply, at: At, cfg: ConsoleConfig, fuel: nat)
    ensures Gated(replies, at.n, ConnectRun(replies, at, cfg, fuel).requests)
  {
    var stage := StageOf(replies, cfg);
    forall a: At, f: nat ensures NoAgentCalls(StageAt(stage, a, f).requests) {
      ScreenStageQuiet(replies, a, cfg, f);
    }
    GateGated(replies, stage, at, fuel);
  }
}
