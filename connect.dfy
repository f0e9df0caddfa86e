/**
 * ConnectAsync of the library's ClientService: the agent-status gate with its recovery
 * retry, the session and connection it opens, and what it does on the screen it finds: a
 * cold start of the terminal application when no registered screen matches, dispatch to
 * idle when the screen is neither welcome nor out of service. Every exception on the way
 * is caught and answered false.
 */
module Connection {
  import opened Wrappers
  import opened Text
  import opened Models
  import opened Matcher
  import opened Terminal
  import opened Registry
  import opened Automation
  import opened Recovery

  /** The client's configuration: the registered screens, the startup applications and the delays. */
  datatype ClientConfig = ClientConfig(screens: seq<AtmScreen>, startupApps: seq<string>,
                                       startupDelaySeconds: int, standardDelay: int)

  /** How long the cold start waits for the welcome screen (five minutes), and how often it looks. */
  const WelcomeTimeout: int := 300000
  const WelcomeRefresh: int := 15000

  /** The agent reports `name`, compared after upper-casing as `ToUpper().Equals(name)`. */
  predicate IsStatus(status: string, name: string) {
    Upper(status) == name
  }

  /** The status test ignores case: it holds exactly when the status lower-cases to the name's lower case. */
  lemma IsStatusIgnoresCase(status: string, name: string)
    requires Upper(name) == name
    ensures IsStatus(status, name) <==> Lower(status) == Lower(name)
  {
    UpperEqualIffLowerEqual(status, name);
  }

  /** A session can be acquired only from IDLE or PAUSED. */
  predicate Ready(status: string) {
    IsStatus(status, "IDLE") || IsStatus(status, "PAUSED")
  }

  /** A screen name the client treats as idle. */
  predicate IsIdleName(name: string) {
    Lower(name) == "welcome" || Lower(name) == "outofservice"
  }

  /** The catch-all of ConnectAsync: an exception becomes false. */
  function Caught(c: Completion): (r: Completion)
    ensures r != Threw
    ensures c != Threw ==> r == c
  {
    if c == Threw then Returned(false) else c
  }

  // ---------------------------------------------------------------------------
  // Opening the session and the connection

  /**
   * From the OpenSession request n on: open the session, read the status again and demand
   * APICONTROLLED (a null status throws and is caught), open the hardware profile unless
   * the agent was paused, and open the connection, whose success is the answer.
   */
  function SessionRun(replies: nat -> Reply, n: nat, paused: bool): Run<bool> {
    if !replies(n).ok then Run(false, [OpenSession])
    else
      var status := replies(n + 1).status;
      if status.None? || !IsStatus(status.value, "APICONTROLLED") then Run(false, [OpenSession, GetAgentStatus])
      else
        var head := [OpenSession, GetAgentStatus] + (if paused then [] else [OpenHwProfile]);
        Run(replies(n + |head|).ok, head + [OpenConnection])
  }

  method OpenSessionStage(atm: Atm, paused: bool) returns (ok: bool)
    modifies atm
    ensures var run := SessionRun(atm.replies, old(atm.step), paused);
            && ok == run.result
            && atm.trace == old(atm.trace) + run.requests
            && atm.Where() == After(old(atm.Where()), run.requests)
  {
    ghost var at := atm.Where();
    ghost var trace := atm.trace;
    ghost var run := SessionRun(atm.replies, at.n, paused);
    var session := atm.Send(OpenSession);
    if !session.ok {
      assert run == Run(false, [OpenSession]);
      return false;
    }
    var state := atm.Send(GetAgentStatus);
    Then(at, trace, [OpenSession], [GetAgentStatus]);
    ghost var head := [OpenSession, GetAgentStatus];
    assert [OpenSession] + [GetAgentStatus] == head;
    if state.status.None? || !IsStatus(state.status.value, "APICONTROLLED") {
      assert run == Run(false, head);
      return false;
    }
    if !paused {
      var _ := atm.Send(OpenHwProfile);
      Then(at, trace, head, [OpenHwProfile]);
      head := head + [OpenHwProfile];
    } else {
      assert head + [] == head;
    }
    assert atm.step == at.n + |head|;
    assert run == Run(atm.replies(at.n + |head|).ok, head + [OpenConnection]);
    var connected := atm.Send(OpenConnection);
    Then(at, trace, head, [OpenConnection]);
    ok := connected.ok;
  }

  /**
   * The session stage answers true exactly when the session opened, the agent then reported
   * APICONTROLLED and the connection opened; it opens the hardware profile exactly when the
   * agent was not paused, and it issues no OpenSession after the first request.
   */
  lemma SessionFacts(replies: nat -> Reply, n: nat, paused: bool)
    ensures var run := SessionRun(replies, n, paused);
            && 1 <= |run.requests| <= 4 && run.requests[0] == OpenSession
            && (run.result <==>
                  && replies(n).ok
                  && replies(n + 1).status.Some? && IsStatus(replies(n + 1).status.value, "APICONTROLLED")
                  && run.requests[|run.requests| - 1] == OpenConnection
                  && replies(n + |run.requests| - 1).ok)
            && (run.result ==> (OpenHwProfile in run.requests <==> !paused))
            && OpenSession !in run.requests[1..]
            && Recover !in run.requests
  {
    var run := SessionRun(replies, n, paused);
    if replies(n).ok && replies(n + 1).status.Some? && IsStatus(replies(n + 1).status.value, "APICONTROLLED") {
      if paused {
        assert run.requests == [OpenSession, GetAgentStatus, OpenConnection];
      } else {
        assert run.requests == [OpenSession, GetAgentStatus, OpenHwProfile, OpenConnection];
      }
    }
  }

  // ---------------------------------------------------------------------------
  // Cold start

  /** One StartAtmAppAsync request per startup application, in order. */
  function StartRequests(apps: seq<string>): (r: seq<Request>)
    ensures |r| == |apps|
    ensures forall i :: 0 <= i < |apps| ==> r[i] == StartApp(apps[i])
  {
    seq(|apps|, i requires 0 <= i < |apps| => StartApp(apps[i]))
  }

  /** The `foreach` over the startup applications; their answers are not looked at. */
  method StartApps(atm: Atm, apps: seq<string>)
    modifies atm
    ensures atm.trace == old(atm.trace) + StartRequests(apps)
    ensures atm.Where() == After(old(atm.Where()), StartRequests(apps))
  {
    ghost var at := atm.Where();
    ghost var trace := atm.trace;
    for i := 0 to |apps|
      invariant atm.trace == trace + StartRequests(apps[..i])
      invariant atm.Where() == After(at, StartRequests(apps[..i]))
    {
      ghost var done := StartRequests(apps[..i]);
      var _ := atm.Send(StartApp(apps[i]));
      assert StartRequests(apps[..i + 1]) == done + [StartApp(apps[i])];
      Then(at, trace, done, [StartApp(apps[i])]);
    }
    assert apps[..|apps|] == apps;
  }

  /** The requests before the welcome wait: the applications, then the startup delay. */
  function StartupRequests(cfg: ClientConfig): seq<Request> {
    StartRequests(cfg.startupApps) + [Delay(cfg.startupDelaySeconds * 1000)]
  }

  /**
   * The cold start from `at`: start the applications, wait the startup delay, then wait for
   * the registered welcome screen; with no welcome registered `First` throws, which the
   * catch-all answers false.
   */
  function ColdStartRun(replies: nat -> Reply, at: At, cfg: ClientConfig): Run<Completion> {
    var starts := StartupRequests(cfg);
    match FindScreen(cfg.screens, "welcome")
    case None => Run(Returned(false), starts)
    case Some(welcome) =>
      var wait := Polling(replies, After(at, starts), WelcomeTimeout, [ScreenProbe(welcome)], WelcomeRefresh);
      Run(Returned(wait.result.Some?), starts + wait.requests)
  }

  method ColdStart(atm: Atm, cfg: ClientConfig) returns (c: Completion)
    modifies atm
    ensures var run := ColdStartRun(atm.replies, old(atm.Where()), cfg);
            && c == run.result
            && atm.trace == old(atm.trace) + run.requests
            && atm.Where() == After(old(atm.Where()), run.requests)
  {
    ghost var at := atm.Where();
    ghost var trace := atm.trace;
    StartApps(atm, cfg.startupApps);
    var _ := atm.Send(Delay(cfg.startupDelaySeconds * 1000));
    ghost var starts := StartupRequests(cfg);
    Then(at, trace, StartRequests(cfg.startupApps), [Delay(cfg.startupDelaySeconds * 1000)]);
    var welcome := FindScreen(cfg.screens, "welcome");
    if welcome.None? {
      return Returned(false);
    }
    ghost var wait := Polling(atm.replies, atm.Where(), WelcomeTimeout, [ScreenProbe(welcome.value)], WelcomeRefresh);
    var found := WaitForScreen(atm, welcome.value, WelcomeTimeout, WelcomeRefresh);
    Then(at, trace, starts, wait.requests);
    c := Returned(found);
  }

  /**
   * The cold start starts every configured application once, in order, then waits the
   * startup delay, and from there only reads the screen and waits the refresh interval; it
   * answers true exactly when welcome is registered and was seen before the deadline.
   */
  lemma ColdStartFacts(replies: nat -> Reply, at: At, cfg: ClientConfig)
    ensures var run := ColdStartRun(replies, at, cfg);
            var apps := cfg.startupApps;
            && |run.requests| > |apps|
            && (forall i :: 0 <= i < |apps| ==> run.requests[i] == StartApp(apps[i]))
            && run.requests[|apps|] == Delay(cfg.startupDelaySeconds * 1000)
            && ReadsAndWaits(run.requests[|apps| + 1..], WelcomeRefresh)
            && (run.result == Returned(true) <==>
                  && FindScreen(cfg.screens, "welcome").Some?
                  && Polling(replies, After(at, StartupRequests(cfg)), WelcomeTimeout,
                             [ScreenProbe(FindScreen(cfg.screens, "welcome").value)], WelcomeRefresh).result.Some?)
            && run.result.Returned?
  {
    var run := ColdStartRun(replies, at, cfg);
    var starts := StartupRequests(cfg);
    var k := |cfg.startupApps|;
    var welcome := FindScreen(cfg.screens, "welcome");
    if welcome.None? {
      assert run.requests[k + 1..] == [];
    } else {
      var at' := After(at, starts);
      var answers := AnswersOf(replies, [ScreenProbe(welcome.value)]);
      PollOnlyReadsAndWaits(answers, at', at'.now + WelcomeTimeout, 1, WelcomeRefresh);
      var wait := Polling(replies, at', WelcomeTimeout, [ScreenProbe(welcome.value)], WelcomeRefresh);
      assert run.requests == starts + wait.requests;
      assert run.requests[k + 1..] == wait.requests;
    }
  }

  // ---------------------------------------------------------------------------
  // The screen stage

  /**
   * What ConnectAsync does on the screen it matched, from `at`: with no registered screen
   * matching, the cold start; on a screen other than welcome or out of service, dispatch to
   * idle, whose exceptions the catch-all answers false; otherwise true at once.
   */
  function OnScreenRun(replies: nat -> Reply, at: At, cfg: ClientConfig, fuel: nat, current: Option<AtmScreen>): Run<Completion> {
    match current
    case None => ColdStartRun(replies, at, cfg)
    case Some(screen) =>
      if IsIdleName(screen.name) then Run(Returned(true), [])
      else
        var dispatch := DispatchRun(replies, at.n, cfg.screens, cfg.standardDelay, fuel);
        Run(Caught(dispatch.result), dispatch.requests)
  }

  /** From `at`, after the connection opened: read the screen (false when it cannot be read) and act on the first registered screen it matches. */
  function ScreenStageRun(replies: nat -> Reply, at: At, cfg: ClientConfig, fuel: nat): Run<Completion> {
    match ReadWords(replies, at.n)
    case None => Run(Returned(false), [ReadScreenText])
    case Some(words) =>
      var rest := OnScreenRun(replies, After(at, [ReadScreenText]), cfg, fuel, MatchScreens(cfg.screens, words));
      Run(rest.result, [ReadScreenText] + rest.requests)
  }

  method OnScreen(atm: Atm, cfg: ClientConfig, fuel: nat, current: Option<AtmScreen>) returns (c: Completion)
    modifies atm
    ensures var run := OnScreenRun(atm.replies, old(atm.Where()), cfg, fuel, current);
            && c == run.result
            && atm.trace == old(atm.trace) + run.requests
            && atm.Where() == After(old(atm.Where()), run.requests)
  {
    if current.None? {
      c := ColdStart(atm, cfg);
    } else if IsIdleName(current.value.name) {
      assert atm.trace + [] == atm.trace;
      c := Returned(true);
    } else {
      var d := DispatchToIdle(atm, cfg.screens, cfg.standardDelay, fuel);
      c := Caught(d);
    }
  }

  method ScreenStage(atm: Atm, cfg: ClientConfig, fuel: nat) returns (c: Completion)
    modifies atm
    ensures var run := ScreenStageRun(atm.replies, old(atm.Where()), cfg, fuel);
            && c == run.result
            && atm.trace == old(atm.trace) + run.requests
            && atm.Where() == After(old(atm.Where()), run.requests)
  {
    ghost var at := atm.Where();
    ghost var trace := atm.trace;
    var words := GetScreenWords(atm);
    if words.None? {
      return Returned(false);
    }
    var current := MatchScreens(cfg.screens, words.value);
    ghost var rest := OnScreenRun(atm.replies, atm.Where(), cfg, fuel, current);
    c := OnScreen(atm, cfg, fuel, current);
    Then(at, trace, [ReadScreenText], rest.requests);
  }

  // ---------------------------------------------------------------------------
  // ConnectAsync

  /**
   * What the screen stage does from a position with a fuel bound. ConnectAsync depends on
   * the screen only through it.
   */
  type Stage = (At, nat) -> Run<Completion>

  function StageOf(replies: nat -> Reply, cfg: ClientConfig): Stage {
    (at: At, fuel: nat) => ScreenStageRun(replies, at, cfg, fuel)
  }

  function StageAt(stage: Stage, at: At, fuel: nat): Run<Completion> {
    stage(at, fuel)
  }

  /**
   * One attempt of ConnectAsync from `at`: read the agent status (false when null); when it
   * is neither IDLE nor PAUSED, recover, and when that succeeds leave the answer to the next
   * attempt (None); otherwise the session stage and, when it succeeds, the screen stage,
   * whose fuel bound is `fuel`.
   */
  function AttemptRun(replies: nat -> Reply, stage: Stage, at: At, fuel: nat): Run<Option<Completion>> {
    match replies(at.n).status
    case None => Run(Some(Returned(false)), [GetAgentStatus])
    case Some(status) =>
      if !Ready(status) then
        Run(if replies(at.n + 1).ok then None else Some(Returned(false)), [GetAgentStatus, Recover])
      else
        var session := SessionRun(replies, at.n + 1, IsStatus(status, "PAUSED"));
        var head := [GetAgentStatus] + session.requests;
        if !session.result then Run(Some(Returned(false)), head)
        else
          var screen := StageAt(stage, After(at, head), fuel);
          Run(Some(screen.result), head + screen.requests)
  }

  /** What an attempt does from a position with a fuel bound. The recursion of ConnectAsync sees attempts only through it. */
  type Attempts = (At, nat) -> Run<Option<Completion>>

  function AttemptsOf(replies: nat -> Reply, stage: Stage): Attempts {
    (at: At, fuel: nat) => AttemptRun(replies, stage, at, fuel)
  }

  function AttemptAt(attempts: Attempts, at: At, fuel: nat): Run<Option<Completion>> {
    attempts(at, fuel)
  }

  /**
   * ConnectAsync from `at`: attempts one after the other, as long as each recovers
   * successfully, with the recursion bounded by `fuel` (which also bounds the dispatch an
   * attempt may run).
   */
  function ConnectLoop(attempts: Attempts, at: At, fuel: nat): Run<Completion>
    decreases fuel
  {
    if fuel == 0 then Run(OutOfFuel, [])
    else
      var attempt := AttemptAt(attempts, at, fuel);
      match attempt.result
      case Some(c) => Run(c, attempt.requests)
      case None =>
        var rest := ConnectLoop(attempts, After(at, attempt.requests), fuel - 1);
        Run(rest.result, attempt.requests + rest.requests)
  }

  /** What ConnectAsync does from `at` with the configuration `cfg`. */
  function ConnectRun(replies: nat -> Reply, at: At, cfg: ClientConfig, fuel: nat): Run<Completion> {
    ConnectLoop(AttemptsOf(replies, StageOf(replies, cfg)), at, fuel)
  }

  /**
   * `stage` gives the screen stage for every position and fuel bound. (The trigger keeps
   * the screen stage folded away from callers that only pass it on.)
   */
  ghost predicate StagesAs(stage: Stage, replies: nat -> Reply, cfg: ClientConfig) {
    forall at: At, fuel: nat {:trigger ScreenStageRun(replies, at, cfg, fuel)} :: stage(at, fuel) == ScreenStageRun(replies, at, cfg, fuel)
  }

  /** The screen stage, seen through `stage`. */
  method StageStep(atm: Atm, cfg: ClientConfig, fuel: nat, ghost stage: Stage) returns (c: Completion)
    requires StagesAs(stage, atm.replies, cfg)
    modifies atm
    ensures var run := StageAt(stage, old(atm.Where()), fuel);
            && c == run.result
            && atm.trace == old(atm.trace) + run.requests
            && atm.Where() == After(old(atm.Where()), run.requests)
  {
    ghost var expected := ScreenStageRun(atm.replies, atm.Where(), cfg, fuel);
    c := ScreenStage(atm, cfg, fuel);
  }

  /** `attempts` gives the attempt for every position and fuel bound. */
  ghost predicate AttemptsAs(attempts: Attempts, replies: nat -> Reply, stage: Stage) {
    forall at: At, fuel: nat {:trigger AttemptRun(replies, stage, at, fuel)} :: attempts(at, fuel) == AttemptRun(replies, stage, at, fuel)
  }

  /** One attempt of ConnectAsync: the status gate, then the recovery, or the session and the screen stage. */
  method Attempt(atm: Atm, cfg: ClientConfig, fuel: nat, ghost stage: Stage) returns (verdict: Option<Completion>)
    requires StagesAs(stage, atm.replies, cfg)
    modifies atm
    ensures var run := AttemptRun(atm.replies, stage, old(atm.Where()), fuel);
            && verdict == run.result
            && atm.trace == old(atm.trace) + run.requests
            && atm.Where() == After(old(atm.Where()), run.requests)
  {
    ghost var at := atm.Where();
    ghost var trace := atm.trace;
    ghost var run := AttemptRun(atm.replies, stage, at, fuel);
    var state := atm.Send(GetAgentStatus);
    if state.status.None? {
      return Some(Returned(false));
    }
    var status := state.status.value;
    if !Ready(status) {
      var recovered := atm.Send(Recover);
      Then(at, trace, [GetAgentStatus], [Recover]);
      assert [GetAgentStatus] + [Recover] == [GetAgentStatus, Recover];
      return if recovered.ok then None else Some(Returned(false));
    }
    var paused := IsStatus(status, "PAUSED");
    ghost var session := SessionRun(atm.replies, atm.step, paused);
    var acquired := OpenSessionStage(atm, paused);
    Then(at, trace, [GetAgentStatus], session.requests);
    ghost var head := [GetAgentStatus] + session.requests;
    if !acquired {
      assert run == Run(Some(Returned(false)), head);
      return Some(Returned(false));
    }
    ghost var screen := StageAt(stage, atm.Where(), fuel);
    assert run == Run(Some(screen.result), head + screen.requests);
    var c := StageStep(atm, cfg, fuel, stage);
    Then(at, trace, head, screen.requests);
    verdict := Some(c);
  }

  /** An attempt, seen through `attempts`. */
  method AttemptStep(atm: Atm, cfg: ClientConfig, fuel: nat, ghost stage: Stage, ghost attempts: Attempts)
    returns (verdict: Option<Completion>)
    requires StagesAs(stage, atm.replies, cfg) && AttemptsAs(attempts, atm.replies, stage)
    modifies atm
    ensures var run := AttemptAt(attempts, old(atm.Where()), fuel);
            && verdict == run.result
            && atm.trace == old(atm.trace) + run.requests
            && atm.Where() == After(old(atm.Where()), run.requests)
  {
    ghost var expected := AttemptRun(atm.replies, stage, atm.Where(), fuel);
    verdict := Attempt(atm, cfg, fuel, stage);
  }

  /** ConnectAsync's attempts: after a successful recovery it calls itself, here bounded by `fuel`. */
  method ConnectFrom(atm: Atm, cfg: ClientConfig, fuel: nat, ghost stage: Stage, ghost attempts: Attempts)
    returns (c: Completion)
    requires StagesAs(stage, atm.replies, cfg) && AttemptsAs(attempts, atm.replies, stage)
    modifies atm
    ensures var run := ConnectLoop(attempts, old(atm.Where()), fuel);
            && c == run.result
            && atm.trace == old(atm.trace) + run.requests
            && atm.Where() == After(old(atm.Where()), run.requests)
    decreases fuel
  {
    if fuel == 0 {
      assert atm.trace + [] == atm.trace;
      return OutOfFuel;
    }
    ghost var at := atm.Where();
    ghost var trace := atm.trace;
    ghost var run := ConnectLoop(attempts, at, fuel);
    ghost var attempt := AttemptAt(attempts, at, fuel);
    var verdict := AttemptStep(atm, cfg, fuel, stage, attempts);
    if verdict.Some? {
      assert run == Run(verdict.value, attempt.requests);
      return verdict.value;
    }
    ghost var rest := ConnectLoop(attempts, atm.Where(), fuel - 1);
    assert run == Run(rest.result, attempt.requests + rest.requests);
    c := ConnectFrom(atm, cfg, fuel - 1, stage, attempts);
    Then(at, trace, attempt.requests, rest.requests);
  }

  /** ConnectAsync, with the recursion and the dispatch it may run bounded by `fuel`. */
  method Connect(atm: Atm, cfg: ClientConfig, fuel: nat) returns (c: Completion)
    modifies atm
    ensures var run := ConnectRun(atm.replies, old(atm.Where()), cfg, fuel);
            && c == run.result
            && atm.trace == old(atm.trace) + run.requests
            && atm.Where() == After(old(atm.Where()), run.requests)
  {
    ghost var stage := StageOf(atm.replies, cfg);
    c := ConnectFrom(atm, cfg, fuel, stage, AttemptsOf(atm.replies, stage));
  }

  // ---------------------------------------------------------------------------
  // Properties of ConnectAsync

  /** Dispatch ends by returning, throwing, or running out of fuel: every path of it has an answer. */
  lemma {:induction false} DispatchLoopAnswers(branches: Branches, actions: Actions, n: nat, standardDelay: int, fuel: nat)
    ensures DispatchLoop(branches, actions, n, standardDelay, fuel).result != NoResult
    decreases fuel
  {
    if fuel > 0 && Continues(BranchAt(branches, n)) {
      var pass := PassRun(branches, actions, n, standardDelay);
      DispatchLoopAnswers(branches, actions, n + |pass.requests|, standardDelay, fuel - 1);
    }
  }

  /** Acting on the matched screen never lets an exception out, and always has an answer. */
  lemma OnScreenAnswers(replies: nat -> Reply, at: At, cfg: ClientConfig, fuel: nat, current: Option<AtmScreen>)
    ensures var r := OnScreenRun(replies, at, cfg, fuel, current).result;
            r.Returned? || r.OutOfFuel?
  {
    if current.Some? && !IsIdleName(current.value.name) {
      DispatchLoopAnswers(BranchesOf(replies, cfg.screens), ActionsOf(replies), at.n, cfg.standardDelay, fuel);
    }
  }

  /** The screen stage never lets an exception out, and always has an answer. */
  lemma ScreenStageAnswers(replies: nat -> Reply, at: At, cfg: ClientConfig, fuel: nat)
    ensures var r := ScreenStageRun(replies, at, cfg, fuel).result;
            r.Returned? || r.OutOfFuel?
  {
    var words := ReadWords(replies, at.n);
    if words.Some? {
      OnScreenAnswers(replies, After(at, [ReadScreenText]), cfg, fuel, MatchScreens(cfg.screens, words.value));
    }
  }

  /** With a screen stage that never throws, an attempt never throws. */
  lemma AttemptAnswers(replies: nat -> Reply, stage: Stage, at: At, fuel: nat)
    requires forall a: At, f: nat :: StageAt(stage, a, f).result.Returned? || StageAt(stage, a, f).result.OutOfFuel?
    ensures var r := AttemptRun(replies, stage, at, fuel).result;
            r.None? || r.value.Returned? || r.value.OutOfFuel?
  {
  }

  /** With attempts that never throw, ConnectAsync never throws. */
  lemma {:induction false} ConnectLoopNeverThrows(attempts: Attempts, at: At, fuel: nat)
    requires forall a: At, f: nat :: var r := AttemptAt(attempts, a, f).result; r.None? || r.value.Returned? || r.value.OutOfFuel?
    ensures var r := ConnectLoop(attempts, at, fuel).result;
            r.Returned? || r.OutOfFuel?
    decreases fuel
  {
    if fuel > 0 {
      var attempt := AttemptAt(attempts, at, fuel);
      if attempt.result.None? {
        ConnectLoopNeverThrows(attempts, After(at, attempt.requests), fuel - 1);
      }
    }
  }

  /** ConnectAsync never throws: it returns true or false (or the model's fuel runs out). */
  lemma ConnectNeverThrows(replies: nat -> Reply, at: At, cfg: ClientConfig, fuel: nat)
    ensures var r := ConnectRun(replies, at, cfg, fuel).result;
            r.Returned? || r.OutOfFuel?
  {
    var stage := StageOf(replies, cfg);
    forall a: At, f: nat ensures StageAt(stage, a, f).result.Returned? || StageAt(stage, a, f).result.OutOfFuel? {
      ScreenStageAnswers(replies, a, cfg, f);
    }
    var attempts := AttemptsOf(replies, stage);
    forall a: At, f: nat ensures var r := AttemptAt(attempts, a, f).result; r.None? || r.value.Returned? || r.value.OutOfFuel? {
      AttemptAnswers(replies, stage, a, f);
    }
    ConnectLoopNeverThrows(attempts, at, fuel);
  }

  /** A request to the agent or connection service: what only the gate and the session stage issue. */
  predicate IsAgentCall(r: Request) {
    r.GetAgentStatus? || r.OpenSession? || r.OpenHwProfile? || r.Recover? || r.OpenConnection?
  }

  predicate NoAgentCalls(rs: seq<Request>) {
    forall j :: 0 <= j < |rs| ==> !IsAgentCall(rs[j])
  }

  /** The status answered by request j of `rs` (issued from request n) when it is a status read. */
  function StatusRead(replies: nat -> Reply, n: nat, rs: seq<Request>, j: int): Option<string> {
    if 0 <= j < |rs| && rs[j] == GetAgentStatus then replies(n + j).status else None
  }

  predicate Reads(replies: nat -> Reply, n: nat, rs: seq<Request>, j: int, name: string) {
    var s := StatusRead(replies, n, rs, j);
    s.Some? && IsStatus(s.value, name)
  }

  predicate ReadsReady(replies: nat -> Reply, n: nat, rs: seq<Request>, j: int) {
    var s := StatusRead(replies, n, rs, j);
    s.Some? && Ready(s.value)
  }

  predicate ReadsNotReady(replies: nat -> Reply, n: nat, rs: seq<Request>, j: int) {
    var s := StatusRead(replies, n, rs, j);
    s.Some? && !Ready(s.value)
  }

  /**
   * Request i of `rs` passed its gate: a session is opened right after a status read that
   * answered IDLE or PAUSED, a recovery right after one that answered anything else; the
   * hardware profile only after a status read answered APICONTROLLED on a session opened
   * from a gate that was not PAUSED; the connection only after APICONTROLLED (and the
   * hardware profile, if any).
   */
  predicate GateHolds(replies: nat -> Reply, n: nat, rs: seq<Request>, i: int)
    requires 0 <= i < |rs|
  {
    && (rs[i] == OpenSession ==> ReadsReady(replies, n, rs, i - 1))
    && (rs[i] == Recover ==> ReadsNotReady(replies, n, rs, i - 1))
    && (rs[i] == OpenHwProfile ==>
          && Reads(replies, n, rs, i - 1, "APICONTROLLED") && i >= 2 && rs[i - 2] == OpenSession
          && ReadsReady(replies, n, rs, i - 3) && !Reads(replies, n, rs, i - 3, "PAUSED"))
    && (rs[i] == OpenConnection ==>
          || Reads(replies, n, rs, i - 1, "APICONTROLLED")
          || (i >= 1 && rs[i - 1] == OpenHwProfile && Reads(replies, n, rs, i - 2, "APICONTROLLED")))
  }

  predicate Gated(replies: nat -> Reply, n: nat, rs: seq<Request>) {
    forall i :: 0 <= i < |rs| ==> GateHolds(replies, n, rs, i)
  }

  lemma NoAgentCallsGated(replies: nat -> Reply, n: nat, rs: seq<Request>)
    requires NoAgentCalls(rs)
    ensures Gated(replies, n, rs)
  {
    forall i | 0 <= i < |rs| ensures GateHolds(replies, n, rs, i) {
      assert !IsAgentCall(rs[i]);
    }
  }

  /** Gated stretches of requests, one after the other, are gated: every gate lies within its own stretch. */
  lemma GatedAppend(replies: nat -> Reply, n: nat, xs: seq<Request>, ys: seq<Request>)
    requires Gated(replies, n, xs) && Gated(replies, n + |xs|, ys)
    ensures Gated(replies, n, xs + ys)
  {
    var rs := xs + ys;
    forall i | 0 <= i < |rs| ensures GateHolds(replies, n, rs, i) {
      if i < |xs| {
        assert GateHolds(replies, n, xs, i);
        forall j | j <= i ensures StatusRead(replies, n, rs, j) == StatusRead(replies, n, xs, j) {
        }
        assert rs[i] == xs[i];
        if i >= 2 {
          assert rs[i - 2] == xs[i - 2];
        }
        if i >= 1 {
          assert rs[i - 1] == xs[i - 1];
        }
      } else {
        var k := i - |xs|;
        assert GateHolds(replies, n + |xs|, ys, k);
        forall j | |xs| <= j ensures StatusRead(replies, n, rs, j) == StatusRead(replies, n + |xs|, ys, j - |xs|) {
        }
        assert rs[i] == ys[k];
        if k >= 1 {
          assert rs[i - 1] == ys[k - 1];
        }
        if k >= 2 {
          assert rs[i - 2] == ys[k - 2];
        }
      }
    }
  }

  /** The cold start calls the agent only to start applications, which is not a session call. */
  lemma ColdStartQuiet(replies: nat -> Reply, at: At, cfg: ClientConfig)
    ensures NoAgentCalls(ColdStartRun(replies, at, cfg).requests)
  {
    var rs := ColdStartRun(replies, at, cfg).requests;
    ColdStartFacts(replies, at, cfg);
    var k := |cfg.startupApps|;
    forall j | 0 <= j < |rs| ensures !IsAgentCall(rs[j]) {
      if j > k {
        assert rs[j] == rs[k + 1..][j - k - 1];
      }
    }
  }

  /** Dispatch makes no call to the agent or connection service. */
  lemma DispatchQuiet(replies: nat -> Reply, n: nat, screens: seq<AtmScreen>, standardDelay: int, fuel: nat)
    ensures NoAgentCalls(DispatchRun(replies, n, screens, standardDelay, fuel).requests)
  {
    var rs := DispatchRun(replies, n, screens, standardDelay, fuel).requests;
    DispatchOnlyRecovers(replies, n, screens, standardDelay, fuel);
    forall j | 0 <= j < |rs| ensures !IsAgentCall(rs[j]) {
      assert IsRecoveryRequest(rs[j], standardDelay);
    }
  }

  /** After the connection opened, ConnectAsync makes no further call to the agent or connection service. */
  lemma OnScreenQuiet(replies: nat -> Reply, at: At, cfg: ClientConfig, fuel: nat, current: Option<AtmScreen>)
    ensures NoAgentCalls(OnScreenRun(replies, at, cfg, fuel, current).requests)
  {
    if current.None? {
      ColdStartQuiet(replies, at, cfg);
    } else if !IsIdleName(current.value.name) {
      DispatchQuiet(replies, at.n, cfg.screens, cfg.standardDelay, fuel);
    }
  }

  lemma ScreenStageQuiet(replies: nat -> Reply, at: At, cfg: ClientConfig, fuel: nat)
    ensures NoAgentCalls(ScreenStageRun(replies, at, cfg, fuel).requests)
  {
    var words := ReadWords(replies, at.n);
    if words.Some? {
      var rest := OnScreenRun(replies, After(at, [ReadScreenText]), cfg, fuel, MatchScreens(cfg.screens, words.value));
      OnScreenQuiet(replies, After(at, [ReadScreenText]), cfg, fuel, MatchScreens(cfg.screens, words.value));
      assert ScreenStageRun(replies, at, cfg, fuel).requests == [ReadScreenText] + rest.requests;
      forall j | 0 <= j < 1 + |rest.requests| ensures !IsAgentCall(([ReadScreenText] + rest.requests)[j]) {
        if j > 0 {
          assert ([ReadScreenText] + rest.requests)[j] == rest.requests[j - 1];
        }
      }
    }
  }

  /** The gate read followed by a session stage opened from it. */
  lemma SessionGated(replies: nat -> Reply, n: nat)
    requires replies(n).status.Some? && Ready(replies(n).status.value)
    ensures Gated(replies, n, [GetAgentStatus] + SessionRun(replies, n + 1, IsStatus(replies(n).status.value, "PAUSED")).requests)
  {
    var paused := IsStatus(replies(n).status.value, "PAUSED");
    var rs := [GetAgentStatus] + SessionRun(replies, n + 1, paused).requests;
    assert StatusRead(replies, n, rs, 0) == replies(n).status;
    if |rs| > 2 {
      assert StatusRead(replies, n, rs, 2) == replies(n + 2).status;
    }
    forall i | 0 <= i < |rs| ensures GateHolds(replies, n, rs, i) {
    }
  }

  /** The screen stage makes no call to the agent or connection service, whatever its position and fuel. */
  ghost predicate StageQuiet(stage: Stage) {
    forall a: At, f: nat :: NoAgentCalls(StageAt(stage, a, f).requests)
  }

  /** The gate read answering a status that is neither IDLE nor PAUSED, followed by the recovery. */
  lemma RecoverGated(replies: nat -> Reply, n: nat)
    requires replies(n).status.Some? && !Ready(replies(n).status.value)
    ensures Gated(replies, n, [GetAgentStatus, Recover])
  {
    var head := [GetAgentStatus, Recover];
    assert StatusRead(replies, n, head, 0) == replies(n).status;
    assert GateHolds(replies, n, head, 0) && GateHolds(replies, n, head, 1);
  }

  /** Every gate of one attempt holds, when the screen stage makes no call to the agent or connection service. */
  lemma AttemptGated(replies: nat -> Reply, stage: Stage, at: At, fuel: nat)
    requires StageQuiet(stage)
    ensures Gated(replies, at.n, AttemptRun(replies, stage, at, fuel).requests)
  {
    var status := replies(at.n).status;
    if status.None? {
      assert GateHolds(replies, at.n, [GetAgentStatus], 0);
    } else if !Ready(status.value) {
      assert AttemptRun(replies, stage, at, fuel).requests == [GetAgentStatus, Recover];
      RecoverGated(replies, at.n);
    } else {
      ReadyAttemptGated(replies, stage, at, fuel);
    }
  }

  /** An attempt from IDLE or PAUSED: the gate read, the session stage and the quiet screen stage. */
  lemma ReadyAttemptGated(replies: nat -> Reply, stage: Stage, at: At, fuel: nat)
    requires StageQuiet(stage)
    requires replies(at.n).status.Some? && Ready(replies(at.n).status.value)
    ensures Gated(replies, at.n, AttemptRun(replies, stage, at, fuel).requests)
  {
    var session := SessionRun(replies, at.n + 1, IsStatus(replies(at.n).status.value, "PAUSED"));
    var head := [GetAgentStatus] + session.requests;
    SessionGated(replies, at.n);
    if session.result {
      var screen := StageAt(stage, After(at, head), fuel);
      assert AttemptRun(replies, stage, at, fuel).requests == head + screen.requests;
      assert NoAgentCalls(screen.requests);
      NoAgentCallsGated(replies, at.n + |head|, screen.requests);
      GatedAppend(replies, at.n, head, screen.requests);
    } else {
      assert AttemptRun(replies, stage, at, fuel).requests == head;
    }
  }

  /** When every attempt is gated, all of ConnectAsync is. */
  lemma {:induction false} ConnectLoopGated(replies: nat -> Reply, attempts: Attempts, at: At, fuel: nat)
    requires forall a: At, f: nat :: Gated(replies, a.n, AttemptAt(attempts, a, f).requests)
    ensures Gated(replies, at.n, ConnectLoop(attempts, at, fuel).requests)
    decreases fuel
  {
    if fuel == 0 {
      NoAgentCallsGated(replies, at.n, []);
    } else {
      var attempt := AttemptAt(attempts, at, fuel);
      if attempt.result.None? {
        var rest := ConnectLoop(attempts, After(at, attempt.requests), fuel - 1);
        ConnectLoopGated(replies, attempts, After(at, attempt.requests), fuel - 1);
        GatedAppend(replies, at.n, attempt.requests, rest.requests);
      }
    }
  }

  /**
   * Every gate of ConnectAsync holds over all it issues: it opens a session only right after
   * the agent answered IDLE or PAUSED, recovers only right after it answered something
   * else, opens the hardware profile only when the session became APICONTROLLED from IDLE,
   * and opens the connection only once the session is APICONTROLLED.
   */
  lemma ConnectGated(replies: nat -> Reply, at: At, cfg: ClientConfig, fuel: nat)
    ensures Gated(replies, at.n, ConnectRun(replies, at, cfg, fuel).requests)
  {
    var stage := StageOf(replies, cfg);
    forall a: At, f: nat ensures NoAgentCalls(StageAt(stage, a, f).requests) {
      ScreenStageQuiet(replies, a, cfg, f);
    }
    var attempts := AttemptsOf(replies, stage);
    forall a: At, f: nat ensures Gated(replies, a.n, AttemptAt(attempts, a, f).requests) {
      AttemptGated(replies, stage, a, f);
    }
    ConnectLoopGated(replies, attempts, at, fuel);
  }

  /** Among the requests `rs`, issued from request n, a connection was opened successfully. */
  predicate Opened(replies: nat -> Reply, n: nat, rs: seq<Request>) {
    exists i :: 0 <= i < |rs| && rs[i] == OpenConnection && replies(n + i).ok
  }

  lemma OpenedAppend(replies: nat -> Reply, n: nat, xs: seq<Request>, ys: seq<Request>)
    requires Opened(replies, n + |xs|, ys)
    ensures Opened(replies, n, xs + ys)
  {
    var i :| 0 <= i < |ys| && ys[i] == OpenConnection && replies(n + |xs| + i).ok;
    assert (xs + ys)[|xs| + i] == OpenConnection;
  }

  lemma OpenedExtend(replies: nat -> Reply, n: nat, xs: seq<Request>, ys: seq<Request>)
    requires Opened(replies, n, xs)
    ensures Opened(replies, n, xs + ys)
  {
    var i :| 0 <= i < |xs| && xs[i] == OpenConnection && replies(n + i).ok;
    assert (xs + ys)[i] == OpenConnection;
  }

  /** A session stage that succeeds has opened the connection successfully. */
  lemma SessionOpened(replies: nat -> Reply, n: nat, paused: bool)
    requires SessionRun(replies, n, paused).result
    ensures Opened(replies, n, SessionRun(replies, n, paused).requests)
  {
    var rs := SessionRun(replies, n, paused).requests;
    SessionFacts(replies, n, paused);
    assert rs[|rs| - 1] == OpenConnection && replies(n + (|rs| - 1)).ok;
  }

  /** An attempt that answers true has opened a connection successfully. */
  lemma AttemptTrueIsConnected(replies: nat -> Reply, stage: Stage, at: At, fuel: nat)
    requires AttemptRun(replies, stage, at, fuel).result == Some(Returned(true))
    ensures Opened(replies, at.n, AttemptRun(replies, stage, at, fuel).requests)
  {
    var run := AttemptRun(replies, stage, at, fuel);
    assert replies(at.n).status.Some? && Ready(replies(at.n).status.value);
    var paused := IsStatus(replies(at.n).status.value, "PAUSED");
    var session := SessionRun(replies, at.n + 1, paused);
    var head := [GetAgentStatus] + session.requests;
    assert session.result;
    var screen := StageAt(stage, After(at, head), fuel);
    assert run.requests == head + screen.requests;
    SessionOpened(replies, at.n + 1, paused);
    OpenedAppend(replies, at.n, [GetAgentStatus], session.requests);
    OpenedExtend(replies, at.n, head, screen.requests);
  }

  /** When attempts answer true only after opening a connection, so does ConnectAsync. */
  lemma {:induction false} ConnectLoopTrueIsConnected(replies: nat -> Reply, attempts: Attempts, at: At, fuel: nat)
    requires forall a: At, f: nat :: AttemptAt(attempts, a, f).result == Some(Returned(true)) ==> Opened(replies, a.n, AttemptAt(attempts, a, f).requests)
    requires ConnectLoop(attempts, at, fuel).result == Returned(true)
    ensures Opened(replies, at.n, ConnectLoop(attempts, at, fuel).requests)
    decreases fuel
  {
    var attempt := AttemptAt(attempts, at, fuel);
    if attempt.result.None? {
      var rest := ConnectLoop(attempts, After(at, attempt.requests), fuel - 1);
      ConnectLoopTrueIsConnected(replies, attempts, After(at, attempt.requests), fuel - 1);
      OpenedAppend(replies, at.n, attempt.requests, rest.requests);
    }
  }

  /** ConnectAsync answers true only once a connection was opened successfully. */
  lemma ConnectTrueIsConnected(replies: nat -> Reply, at: At, cfg: ClientConfig, fuel: nat)
    requires ConnectRun(replies, at, cfg, fuel).result == Returned(true)
    ensures Opened(replies, at.n, ConnectRun(replies, at, cfg, fuel).requests)
  {
    var stage := StageOf(replies, cfg);
    var attempts := AttemptsOf(replies, stage);
    forall a: At, f: nat | AttemptAt(attempts, a, f).result == Some(Returned(true))
      ensures Opened(replies, a.n, AttemptAt(attempts, a, f).requests)
    {
      AttemptTrueIsConnected(replies, stage, a, f);
    }
    ConnectLoopTrueIsConnected(replies, attempts, at, fuel);
  }
}
