/**
 * ClientService of the library: the dispatch-to-idle state machine that reads the screen,
 * recognises it against a fixed priority list of registered screens, performs one
 * corrective action and tries again; the media collection it runs on the card and
 * thank-you screens; and the connect sequence with its agent-status gate.
 */
module Recovery {
  import opened Wrappers
  import opened Text
  import opened Models
  import opened Matcher
  import opened Terminal
  import opened Registry
  import opened Automation

  // ---------------------------------------------------------------------------
  // Recognising the screen

  /** What the dispatcher does on the screen it recognised. */
  datatype Branch =
    | AtIdle                 // welcome or out of service: done
    | OnPleaseWait           // wait and look again
    | OnMoreTime             // click "no", "exit", "return card" where found
    | OnAnotherTransaction   // click "no" where found
    | OnTakeCard             // take all media
    | OnThankYou             // take all media
    | OnUnrecognised         // wait and look again

  /** One entry of the dispatcher's priority list: a registered screen name and its branch. */
  datatype Rule = Rule(screen: string, branch: Branch)

  /** The screens DispatchToIdleAsync tries, in order. */
  const DispatchRules: seq<Rule> := [
    Rule("welcome", AtIdle), Rule("outofservice", AtIdle), Rule("pleasewait", OnPleaseWait),
    Rule("moretime", OnMoreTime), Rule("anothertransaction", OnAnotherTransaction),
    Rule("takecard", OnTakeCard), Rule("thankyou", OnThankYou)]

  /**
   * What looking a screen up by name and matching it against the words answers: None when
   * no screen of that name is registered (`First` throws), otherwise whether it matched.
   */
  type Check = string -> Option<bool>

  function ScreenCheck(screens: seq<AtmScreen>, words: seq<string>, name: string): Option<bool> {
    match FindScreen(screens, name)
    case None => None
    case Some(s) => Some(MatchScreen(s, words))
  }

  function CheckOn(screens: seq<AtmScreen>, words: seq<string>): Check {
    (name: string) => ScreenCheck(screens, words, name)
  }

  function CheckAt(check: Check, name: string): Option<bool> {
    check(name)
  }

  /** Rule j was tried: its screen is registered and did not match. */
  predicate Skipped(check: Check, rules: seq<Rule>, j: int) {
    0 <= j < |rules| && CheckAt(check, rules[j].screen) == Some(false)
  }

  /** Rule j fires: its screen is registered and matches. */
  predicate Fires(check: Check, rules: seq<Rule>, j: int) {
    0 <= j < |rules| && CheckAt(check, rules[j].screen) == Some(true)
  }

  /**
   * The `else if` chain from rule k on: the index of the first rule whose screen matches
   * (|rules| when none does), each screen looked up only when its turn comes. Raised when
   * a screen whose turn came is not registered.
   */
  function Classify(check: Check, rules: seq<Rule>, k: nat): Attempt<nat>
    requires k <= |rules|
    decreases |rules| - k
  {
    if k == |rules| then Done(k)
    else
      match CheckAt(check, rules[k].screen)
      case None => Raised
      case Some(matched) =>
        if matched then Done(k)
        else Classify(check, rules, k + 1)
  }

  /**
   * The chain selects the first rule that fires, after rules that were all tried without a
   * match; it throws only at a screen not registered, reached after such rules.
   */
  lemma {:induction false} ClassifyIsFirstMatch(check: Check, rules: seq<Rule>, k: nat)
    requires k <= |rules|
    ensures var r := Classify(check, rules, k);
            && (r.Done? ==> k <= r.value <= |rules| && forall j :: k <= j < r.value ==> Skipped(check, rules, j))
            && (r.Done? && r.value < |rules| ==> Fires(check, rules, r.value))
            && (r.Raised? ==> exists j :: && k <= j < |rules| && CheckAt(check, rules[j].screen).None?
                                          && forall i :: k <= i < j ==> Skipped(check, rules, i))
    decreases |rules| - k
  {
    if k < |rules| && CheckAt(check, rules[k].screen) == Some(false) {
      ClassifyIsFirstMatch(check, rules, k + 1);
    }
  }

  /** The branch the chain selects. */
  function Decide(check: Check, rules: seq<Rule>): Attempt<Branch> {
    match Classify(check, rules, 0)
    case Raised => Raised
    case Done(i) => Done(if i < |rules| then rules[i].branch else OnUnrecognised)
  }

  /** From rule k, when every rule before i was tried without a match and rule i fires, rule i decides. */
  lemma {:induction false} ClassifyReaches(check: Check, rules: seq<Rule>, k: nat, i: int)
    requires k <= i && Fires(check, rules, i)
    requires forall j :: k <= j < i ==> Skipped(check, rules, j)
    ensures Classify(check, rules, k) == Done(i)
    decreases i - k
  {
    if k < i {
      assert Skipped(check, rules, k);
      ClassifyReaches(check, rules, k + 1, i);
    }
  }

  /** From rule k, when every remaining rule is tried without a match, none decides. */
  lemma {:induction false} ClassifyPassesAll(check: Check, rules: seq<Rule>, k: nat)
    requires k <= |rules|
    requires forall j :: k <= j < |rules| ==> Skipped(check, rules, j)
    ensures Classify(check, rules, k) == Done(|rules|)
    decreases |rules| - k
  {
    if k < |rules| {
      assert Skipped(check, rules, k);
      ClassifyPassesAll(check, rules, k + 1);
    }
  }

  /**
   * Only the first rule that fires acts: when every rule before i was tried without a
   * match and rule i fires, its branch is the one taken.
   */
  lemma FirstFiringRuleDecides(check: Check, rules: seq<Rule>, i: int)
    requires Fires(check, rules, i)
    requires forall j :: 0 <= j < i ==> Skipped(check, rules, j)
    ensures Decide(check, rules) == Done(rules[i].branch)
  {
    ClassifyReaches(check, rules, 0, i);
  }

  /** When every screen is registered and none matches, the screen is unrecognised. */
  lemma NoRuleFiresUnrecognised(check: Check, rules: seq<Rule>)
    requires forall j :: 0 <= j < |rules| ==> Skipped(check, rules, j)
    ensures Decide(check, rules) == Done(OnUnrecognised)
  {
    ClassifyPassesAll(check, rules, 0);
  }

  /**
   * The rules are tried in their order and lazily: a screen later in the list that is not
   * registered does not matter once an earlier one fired.
   */
  lemma UnregisteredLaterScreenIgnored(check: Check, rules: seq<Rule>, i: int, j: int)
    requires Fires(check, rules, i) && i < j < |rules| && CheckAt(check, rules[j].screen).None?
    requires forall k :: 0 <= k < i ==> Skipped(check, rules, k)
    ensures Decide(check, rules).Done?
  {
    FirstFiringRuleDecides(check, rules, i);
  }

  // ---------------------------------------------------------------------------
  // Taking all media

  /** The receipt request for the first printer, when it holds media. */
  function ReceiptRequests(printer: Option<Device>): seq<Request> {
    if printer.Some? && printer.value.media > 0 then [TakeReceipt(printer.value.name)] else []
  }

  /** The media request for the first dispenser or item processor, when it holds media. */
  function MediaRequests(device: Option<Device>): seq<Request> {
    if device.Some? && device.value.media > 0 then [TakeMedia(device.value.name, device.value.media)] else []
  }

  /** The requests for a service list: receipt from the printer, then the dispenser, then the item processor. */
  function DeviceRequests(services: seq<Device>): seq<Request> {
    ReceiptRequests(FirstOfType(services, "ptr"))
      + MediaRequests(FirstOfType(services, "cdm"))
      + MediaRequests(FirstOfType(services, "ipm"))
  }

  /** What TakeAllMediaAsync issues from request n: the card, the service list, then the devices. */
  function TakeAllMediaRequests(replies: nat -> Reply, n: nat): seq<Request> {
    match replies(n + 1).services
    case None => [TakeCard, GetServices]
    case Some(services) => [TakeCard, GetServices] + DeviceRequests(services)
  }

  /** Issues the receipt request for `printer` when it holds media. */
  method TakeReceiptFrom(atm: Atm, printer: Option<Device>)
    modifies atm
    ensures atm.trace == old(atm.trace) + ReceiptRequests(printer)
    ensures atm.Where() == After(old(atm.Where()), ReceiptRequests(printer))
  {
    if printer.Some? && printer.value.media > 0 {
      var _ := atm.Send(TakeReceipt(printer.value.name));
    } else {
      assert atm.trace + [] == atm.trace;
    }
  }

  /** Issues the media request for `device` when it holds media. */
  method TakeMediaFrom(atm: Atm, device: Option<Device>)
    modifies atm
    ensures atm.trace == old(atm.trace) + MediaRequests(device)
    ensures atm.Where() == After(old(atm.Where()), MediaRequests(device))
  {
    if device.Some? && device.value.media > 0 {
      var _ := atm.Send(TakeMedia(device.value.name, device.value.media));
    } else {
      assert atm.trace + [] == atm.trace;
    }
  }

  /** Two stretches of requests, one after the other. */
  lemma Then(at: At, trace: seq<Request>, xs: seq<Request>, ys: seq<Request>)
    ensures After(After(at, xs), ys) == After(at, xs + ys)
    ensures trace + xs + ys == trace + (xs + ys)
  {
    AfterAppend(at, xs, ys);
  }

  /** The device part of TakeAllMediaAsync: the printer, then the dispenser, then the item processor. */
  method TakeFromDevices(atm: Atm, services: seq<Device>)
    modifies atm
    ensures atm.trace == old(atm.trace) + DeviceRequests(services)
    ensures atm.Where() == After(old(atm.Where()), DeviceRequests(services))
  {
    ghost var at0 := atm.Where();
    ghost var trace0 := atm.trace;
    var printer := FirstOfType(services, "ptr");
    TakeReceiptFrom(atm, printer);
    var dispenser := FirstOfType(services, "cdm");
    TakeMediaFrom(atm, dispenser);
    var processor := FirstOfType(services, "ipm");
    TakeMediaFrom(atm, processor);
    ghost var r := ReceiptRequests(printer);
    ghost var d := MediaRequests(dispenser);
    ghost var p := MediaRequests(processor);
    Then(at0, trace0, r, d);
    Then(at0, trace0, r + d, p);
  }

  /** TakeAllMediaAsync. */
  method TakeAllMedia(atm: Atm)
    modifies atm
    ensures atm.trace == old(atm.trace) + TakeAllMediaRequests(atm.replies, old(atm.step))
    ensures atm.Where() == After(old(atm.Where()), TakeAllMediaRequests(atm.replies, old(atm.step)))
  {
    ghost var at0 := atm.Where();
    ghost var trace0 := atm.trace;
    ghost var rs := TakeAllMediaRequests(atm.replies, atm.step);
    var _ := atm.Send(TakeCard);
    var answer := atm.Send(GetServices);
    ghost var head := [TakeCard, GetServices];
    Then(at0, trace0, [TakeCard], [GetServices]);
    assert [TakeCard] + [GetServices] == head;
    if answer.services.None? {
      assert rs == head;
      return;
    }
    var services := answer.services.value;
    assert rs == head + DeviceRequests(services);
    TakeFromDevices(atm, services);
    Then(at0, trace0, head, DeviceRequests(services));
  }

  /** The first device of `deviceType` in the list is called `name` and holds media. */
  predicate Holds(services: seq<Device>, deviceType: string, name: string) {
    var d := FirstOfType(services, deviceType);
    d.Some? && d.value.media > 0 && d.value.name == name
  }

  /** The media count of the first device of `deviceType` (0 when there is none). */
  function MediaCount(services: seq<Device>, deviceType: string): int {
    var d := FirstOfType(services, deviceType);
    if d.Some? then d.value.media else 0
  }

  /**
   * TakeAllMediaAsync takes the card first and asks for the service list; with no list it
   * stops there. A receipt is taken exactly from the first printer, when it holds media;
   * media are taken exactly from the first dispenser and the first item processor that
   * hold media, in that order, with their own counts.
   */
  lemma TakeAllMediaTakes(replies: nat -> Reply, n: nat, name: string, count: int)
    ensures var rs := TakeAllMediaRequests(replies, n);
            && 2 <= |rs| <= 5 && rs[0] == TakeCard && rs[1] == GetServices
            && (replies(n + 1).services.None? ==> |rs| == 2)
            && (TakeReceipt(name) in rs <==>
                  replies(n + 1).services.Some? && Holds(replies(n + 1).services.value, "ptr", name))
            && (TakeMedia(name, count) in rs <==>
                  && replies(n + 1).services.Some?
                  && var services := replies(n + 1).services.value;
                     || (Holds(services, "cdm", name) && count == MediaCount(services, "cdm"))
                     || (Holds(services, "ipm", name) && count == MediaCount(services, "ipm")))
  {
    var rs := TakeAllMediaRequests(replies, n);
    if replies(n + 1).services.Some? {
      var services := replies(n + 1).services.value;
      var r := ReceiptRequests(FirstOfType(services, "ptr"));
      var d := MediaRequests(FirstOfType(services, "cdm"));
      var p := MediaRequests(FirstOfType(services, "ipm"));
      assert rs == [TakeCard, GetServices] + r + d + p;
      assert TakeReceipt(name) in rs <==> TakeReceipt(name) in r;
      assert TakeMedia(name, count) in rs <==> TakeMedia(name, count) in d || TakeMedia(name, count) in p;
    }
  }

  // ---------------------------------------------------------------------------
  // The corrective actions

  /** On the more-time screen: "no", "exit" and "return card", each clicked where found. */
  function MoreTimeRequests(replies: nat -> Reply, n: nat): seq<Request> {
    var no := TryRun(replies, n, "no").requests;
    var exit := TryRun(replies, n + |no|, "exit").requests;
    var back := TryRun(replies, n + |no| + |exit|, "return card").requests;
    no + exit + back
  }

  /** The requests of the corrective action of `branch`, from request n. */
  function ActionRequests(replies: nat -> Reply, n: nat, branch: Branch): seq<Request> {
    match branch
    case OnMoreTime => MoreTimeRequests(replies, n)
    case OnAnotherTransaction => TryRun(replies, n, "no").requests
    case OnTakeCard => TakeAllMediaRequests(replies, n)
    case OnThankYou => TakeAllMediaRequests(replies, n)
    case _ => []
  }

  /** The locate-and-click-if-found blocks of the more-time branch. */
  method MoreTime(atm: Atm)
    modifies atm
    ensures atm.trace == old(atm.trace) + MoreTimeRequests(atm.replies, old(atm.step))
    ensures atm.Where() == After(old(atm.Where()), MoreTimeRequests(atm.replies, old(atm.step)))
  {
    ghost var at0 := atm.Where();
    ghost var trace0 := atm.trace;
    ghost var no := TryRun(atm.replies, at0.n, "no").requests;
    var _ := TryItem(atm, "no");
    ghost var exit := TryRun(atm.replies, atm.step, "exit").requests;
    var _ := TryItem(atm, "exit");
    ghost var back := TryRun(atm.replies, atm.step, "return card").requests;
    var _ := TryItem(atm, "return card");
    Then(at0, trace0, no, exit);
    Then(at0, trace0, no + exit, back);
  }

  /** The branch one pass takes on the answer to a read; None when the screen could not be read. */
  function BranchOn(screens: seq<AtmScreen>, words: Option<seq<string>>): Option<Attempt<Branch>> {
    if words.None? then None else Some(Decide(CheckOn(screens, words.value), DispatchRules))
  }

  /**
   * What the dispatcher makes of each read: the branch the n-th answer selects. The
   * dispatch loop depends on the screen only through these.
   */
  type Branches = nat -> Option<Attempt<Branch>>

  function BranchesOf(replies: nat -> Reply, screens: seq<AtmScreen>): Branches {
    (n: nat) => BranchOn(screens, ReadWords(replies, n))
  }

  function BranchAt(branches: Branches, n: nat): Option<Attempt<Branch>> {
    branches(n)
  }

  /** The requests of the corrective action of a branch taken at request n. */
  type Actions = (nat, Branch) -> seq<Request>

  function ActionsOf(replies: nat -> Reply): Actions {
    (n: nat, branch: Branch) => ActionRequests(replies, n, branch)
  }

  function ActionAt(actions: Actions, n: nat, branch: Branch): seq<Request> {
    actions(n, branch)
  }

  /** Whether a pass that selected `decided` goes on to act and try again. */
  predicate Continues(decided: Option<Attempt<Branch>>) {
    decided.Some? && decided.value.Done? && decided.value.value != AtIdle
  }

  /** The answer of a pass that ends the dispatch: false when unreadable, a throw, or true at idle. */
  function Verdict(decided: Option<Attempt<Branch>>): Completion {
    match decided
    case None => Returned(false)
    case Some(Raised) => Threw
    case Some(Done(branch)) => Returned(branch == AtIdle)
  }

  /**
   * One pass of the dispatcher from request n: the screen read and, when the branch it
   * selects goes on, the corrective action and the delay. Its result is the answer of the
   * dispatch when the pass ends it, None when the next pass follows.
   */
  function PassRun(branches: Branches, actions: Actions, n: nat, standardDelay: int): Run<Option<Completion>> {
    var decided := BranchAt(branches, n);
    if Continues(decided) then Run(None, [ReadScreenText] + ActionAt(actions, n + 1, decided.value.value) + [Delay(standardDelay)])
    else Run(Some(Verdict(decided)), [ReadScreenText])
  }

  /**
   * The dispatch loop from request n with `fuel` passes left: read the screen; false when
   * it cannot be read; true on welcome or out of service; a throw when a screen whose turn
   * came is not registered; otherwise the corrective action, a delay, and the next pass.
   */
  function DispatchLoop(branches: Branches, actions: Actions, n: nat, standardDelay: int, fuel: nat): Run<Completion>
    decreases fuel
  {
    if fuel == 0 then Run(OutOfFuel, [])
    else
      var pass := PassRun(branches, actions, n, standardDelay);
      match pass.result
      case Some(c) => Run(c, pass.requests)
      case None =>
        var rest := DispatchLoop(branches, actions, n + |pass.requests|, standardDelay, fuel - 1);
        Run(rest.result, pass.requests + rest.requests)
  }

  /** What DispatchToIdleAsync does from request n against the registered `screens`. */
  function DispatchRun(replies: nat -> Reply, n: nat, screens: seq<AtmScreen>, standardDelay: int, fuel: nat): Run<Completion> {
    DispatchLoop(BranchesOf(replies, screens), ActionsOf(replies), n, standardDelay, fuel)
  }

  /**
   * `branches` gives, for every request number, the branch a read answered there selects.
   * (The trigger keeps the decision folded away from callers that only pass it on.)
   */
  ghost predicate DecidesAs(branches: Branches, replies: nat -> Reply, screens: seq<AtmScreen>) {
    forall n: nat {:trigger BranchOn(screens, ReadWords(replies, n))} :: branches(n) == BranchOn(screens, ReadWords(replies, n))
  }

  /** `actions` gives, for every request number and branch, the requests of the corrective action. */
  ghost predicate ActsAs(actions: Actions, replies: nat -> Reply) {
    forall n: nat, branch: Branch {:trigger ActionRequests(replies, n, branch)} :: actions(n, branch) == ActionRequests(replies, n, branch)
  }

  /** The screen read of one pass and the branch it selects. */
  method ReadBranch(atm: Atm, screens: seq<AtmScreen>, ghost branches: Branches) returns (decided: Option<Attempt<Branch>>)
    requires DecidesAs(branches, atm.replies, screens)
    modifies atm
    ensures decided == BranchAt(branches, old(atm.step))
    ensures atm.trace == old(atm.trace) + [ReadScreenText]
    ensures atm.Where() == After(old(atm.Where()), [ReadScreenText])
  {
    var words := GetScreenWords(atm);
    decided := BranchOn(screens, words);
  }

  /** The corrective action of one pass of the dispatcher. */
  method ActOn(atm: Atm, branch: Branch, ghost actions: Actions)
    requires ActsAs(actions, atm.replies)
    modifies atm
    ensures atm.trace == old(atm.trace) + ActionAt(actions, old(atm.step), branch)
    ensures atm.Where() == After(old(atm.Where()), ActionAt(actions, old(atm.step), branch))
  {
    ghost var expected := ActionRequests(atm.replies, atm.step, branch);
    match branch
    case OnMoreTime =>
      MoreTime(atm);
    case OnAnotherTransaction =>
      var _ := TryItem(atm, "no");
    case OnTakeCard =>
      TakeAllMedia(atm);
    case OnThankYou =>
      TakeAllMedia(atm);
    case _ =>
      assert atm.trace + [] == atm.trace;
  }

  /** The corrective action of a pass that goes on, and the delay after it. */
  method ActAndWait(atm: Atm, branch: Branch, standardDelay: int, ghost actions: Actions)
    requires ActsAs(actions, atm.replies)
    modifies atm
    ensures atm.trace == old(atm.trace) + (ActionAt(actions, old(atm.step), branch) + [Delay(standardDelay)])
    ensures atm.Where() == After(old(atm.Where()), ActionAt(actions, old(atm.step), branch) + [Delay(standardDelay)])
  {
    ghost var at := atm.Where();
    ghost var trace := atm.trace;
    ghost var act := ActionAt(actions, atm.step, branch);
    ActOn(atm, branch, actions);
    var _ := atm.Send(Delay(standardDelay));
    Then(at, trace, act, [Delay(standardDelay)]);
  }

  /** A pass whose branch goes on reads, acts, waits, and leaves the answer to the next pass. */
  lemma PassContinues(branches: Branches, actions: Actions, n: nat, standardDelay: int)
    requires Continues(BranchAt(branches, n))
    ensures PassRun(branches, actions, n, standardDelay)
      == Run(None, [ReadScreenText] + ActionAt(actions, n + 1, BranchAt(branches, n).value.value) + [Delay(standardDelay)])
  {
  }

  /** One pass of DispatchToIdleAsync, up to its tail call. */
  method Pass(atm: Atm, screens: seq<AtmScreen>, standardDelay: int, ghost branches: Branches, ghost actions: Actions)
    returns (verdict: Option<Completion>)
    requires DecidesAs(branches, atm.replies, screens) && ActsAs(actions, atm.replies)
    modifies atm
    ensures var pass := PassRun(branches, actions, old(atm.step), standardDelay);
            && verdict == pass.result
            && atm.trace == old(atm.trace) + pass.requests
            && atm.Where() == After(old(atm.Where()), pass.requests)
  {
    ghost var at := atm.Where();
    ghost var trace := atm.trace;
    var decided := ReadBranch(atm, screens, branches);
    if !Continues(decided) {
      assert PassRun(branches, actions, at.n, standardDelay) == Run(Some(Verdict(decided)), [ReadScreenText]);
      return Some(Verdict(decided));
    }
    ghost var rest := ActionAt(actions, atm.step, decided.value.value) + [Delay(standardDelay)];
    PassContinues(branches, actions, at.n, standardDelay);
    ActAndWait(atm, decided.value.value, standardDelay, actions);
    Then(at, trace, [ReadScreenText], rest);
    assert [ReadScreenText] + rest == [ReadScreenText] + ActionAt(actions, at.n + 1, decided.value.value) + [Delay(standardDelay)];
    verdict := None;
  }

  /** The dispatch loop from every request number and fuel bound, seen only through its answers. */
  type Loop = (nat, nat) -> Run<Completion>

  ghost predicate LoopsAs(loop: Loop, branches: Branches, actions: Actions, standardDelay: int) {
    forall n: nat, fuel: nat {:trigger DispatchLoop(branches, actions, n, standardDelay, fuel)} ::
      loop(n, fuel) == DispatchLoop(branches, actions, n, standardDelay, fuel)
  }

  /** One pass of the loop: its verdict when it ends the loop, otherwise the next pass after it. */
  lemma LoopUnfolds(loop: Loop, branches: Branches, actions: Actions, n: nat, standardDelay: int, fuel: nat)
    requires LoopsAs(loop, branches, actions, standardDelay) && fuel > 0
    ensures var pass := PassRun(branches, actions, n, standardDelay);
            var next := loop(n + |pass.requests|, fuel - 1);
            loop(n, fuel) == if pass.result.Some? then Run(pass.result.value, pass.requests)
                             else Run(next.result, pass.requests + next.requests)
  {
    var pass := PassRun(branches, actions, n, standardDelay);
    assert loop(n, fuel) == DispatchLoop(branches, actions, n, standardDelay, fuel);
    assert loop(n + |pass.requests|, fuel - 1) == DispatchLoop(branches, actions, n + |pass.requests|, standardDelay, fuel - 1);
  }

  /** The passes of DispatchToIdleAsync, the loop seen through `loop`. */
  method DispatchVia(atm: Atm, screens: seq<AtmScreen>, standardDelay: int, fuel: nat,
                     ghost branches: Branches, ghost actions: Actions, ghost loop: Loop) returns (c: Completion)
    requires DecidesAs(branches, atm.replies, screens) && ActsAs(actions, atm.replies)
    requires LoopsAs(loop, branches, actions, standardDelay)
    modifies atm
    ensures var run := loop(old(atm.step), fuel);
            && c == run.result
            && atm.trace == old(atm.trace) + run.requests
            && atm.Where() == After(old(atm.Where()), run.requests)
    decreases fuel
  {
    if fuel == 0 {
      assert loop(atm.step, fuel) == DispatchLoop(branches, actions, atm.step, standardDelay, fuel);
      assert atm.trace + [] == atm.trace;
      return OutOfFuel;
    }
    ghost var at := atm.Where();
    ghost var trace := atm.trace;
    ghost var pass := PassRun(branches, actions, at.n, standardDelay);
    LoopUnfolds(loop, branches, actions, at.n, standardDelay, fuel);
    var verdict := Pass(atm, screens, standardDelay, branches, actions);
    if verdict.Some? {
      return verdict.value;
    }
    ghost var next := loop(at.n + |pass.requests|, fuel - 1);
    c := DispatchVia(atm, screens, standardDelay, fuel - 1, branches, actions, loop);
    Then(at, trace, pass.requests, next.requests);
  }

  /** The passes of DispatchToIdleAsync, its tail call bounded by `fuel`. */
  method DispatchFrom(atm: Atm, screens: seq<AtmScreen>, standardDelay: int, fuel: nat,
                      ghost branches: Branches, ghost actions: Actions) returns (c: Completion)
    requires DecidesAs(branches, atm.replies, screens) && ActsAs(actions, atm.replies)
    modifies atm
    ensures var run := DispatchLoop(branches, actions, old(atm.step), standardDelay, fuel);
            && c == run.result
            && atm.trace == old(atm.trace) + run.requests
            && atm.Where() == After(old(atm.Where()), run.requests)
  {
    ghost var loop: Loop := (n: nat, f: nat) => DispatchLoop(branches, actions, n, standardDelay, f);
    c := DispatchVia(atm, screens, standardDelay, fuel, branches, actions, loop);
  }

  /** DispatchToIdleAsync against the registered `screens`, with the recursion bounded by `fuel`. */
  method DispatchToIdle(atm: Atm, screens: seq<AtmScreen>, standardDelay: int, fuel: nat) returns (c: Completion)
    modifies atm
    ensures var run := DispatchRun(atm.replies, old(atm.step), screens, standardDelay, fuel);
            && c == run.result
            && atm.trace == old(atm.trace) + run.requests
            && atm.Where() == After(old(atm.Where()), run.requests)
  {
    c := DispatchFrom(atm, screens, standardDelay, fuel, BranchesOf(atm.replies, screens), ActionsOf(atm.replies));
  }

  // ---------------------------------------------------------------------------
  // Properties of dispatch

  /** With an unreadable screen, dispatch reads once and answers false, with no action. */
  lemma DispatchUnreadable(replies: nat -> Reply, n: nat, screens: seq<AtmScreen>, standardDelay: int, fuel: nat)
    requires fuel > 0 && replies(n).page.None?
    ensures DispatchRun(replies, n, screens, standardDelay, fuel) == Run(Returned(false), [ReadScreenText])
  {
  }

  /**
   * The words are at idle when welcome is registered and matches, or welcome is registered
   * and does not match while out of service is registered and matches.
   */
  predicate AtIdleScreen(screens: seq<AtmScreen>, words: seq<string>) {
    || ScreenCheck(screens, words, "welcome") == Some(true)
    || (ScreenCheck(screens, words, "welcome") == Some(false) && ScreenCheck(screens, words, "outofservice") == Some(true))
  }

  /** At welcome or out of service, the dispatcher takes the idle branch. */
  lemma IdleScreenIsIdle(screens: seq<AtmScreen>, words: seq<string>)
    requires AtIdleScreen(screens, words)
    ensures BranchOn(screens, Some(words)) == Some(Done(AtIdle))
  {
    var check := CheckOn(screens, words);
    assert DispatchRules[0].screen == "welcome" && DispatchRules[1].screen == "outofservice";
    if ScreenCheck(screens, words, "welcome") == Some(true) {
      FirstFiringRuleDecides(check, DispatchRules, 0);
    } else {
      assert Skipped(check, DispatchRules, 0);
      assert Fires(check, DispatchRules, 1);
      forall j | 0 <= j < 1 ensures Skipped(check, DispatchRules, j) {
        assert j == 0;
      }
      FirstFiringRuleDecides(check, DispatchRules, 1);
    }
  }

  /** At welcome or out of service, dispatch reads once and answers true, with no action. */
  lemma DispatchAtIdle(replies: nat -> Reply, n: nat, screens: seq<AtmScreen>, standardDelay: int, fuel: nat)
    requires fuel > 0 && ReadWords(replies, n).Some? && AtIdleScreen(screens, ReadWords(replies, n).value)
    ensures DispatchRun(replies, n, screens, standardDelay, fuel) == Run(Returned(true), [ReadScreenText])
  {
    IdleScreenIsIdle(screens, ReadWords(replies, n).value);
    assert BranchAt(BranchesOf(replies, screens), n) == Some(Done(AtIdle));
  }

  /** A pass whose branch has no corrective action only reads and waits before the next one. */
  lemma {:induction false} LoopOnlyWaits(branches: Branches, actions: Actions, n: nat, standardDelay: int, fuel: nat)
    requires fuel > 0 && Continues(BranchAt(branches, n))
    requires ActionAt(actions, n + 1, BranchAt(branches, n).value.value) == []
    ensures var rest := DispatchLoop(branches, actions, n + 2, standardDelay, fuel - 1);
            DispatchLoop(branches, actions, n, standardDelay, fuel)
              == Run(rest.result, [ReadScreenText, Delay(standardDelay)] + rest.requests)
  {
    PassContinues(branches, actions, n, standardDelay);
    assert [ReadScreenText] + [] + [Delay(standardDelay)] == [ReadScreenText, Delay(standardDelay)];
  }

  /** On an unrecognised or please-wait screen a pass only waits before the next one. */
  lemma DispatchOnlyWaits(replies: nat -> Reply, n: nat, screens: seq<AtmScreen>, standardDelay: int, fuel: nat)
    requires fuel > 0
    requires BranchOn(screens, ReadWords(replies, n)) in {Some(Done(OnUnrecognised)), Some(Done(OnPleaseWait))}
    ensures var rest := DispatchRun(replies, n + 2, screens, standardDelay, fuel - 1);
            DispatchRun(replies, n, screens, standardDelay, fuel)
              == Run(rest.result, [ReadScreenText, Delay(standardDelay)] + rest.requests)
  {
    var branches := BranchesOf(replies, screens);
    var actions := ActionsOf(replies);
    var branch := BranchOn(screens, ReadWords(replies, n)).value.value;
    assert BranchAt(branches, n) == Some(Done(branch));
    assert ActionAt(actions, n + 1, branch) == [];
    LoopOnlyWaits(branches, actions, n, standardDelay, fuel);
  }

  /** The texts the more-time branch looks for, in order, and the another-transaction branch. */
  lemma ActionsLookUp(replies: nat -> Reply, n: nat)
    ensures LookedUp(ActionRequests(replies, n, OnMoreTime)) == ["no", "exit", "return card"]
    ensures LookedUp(ActionRequests(replies, n, OnAnotherTransaction)) == ["no"]
  {
    MoreTimeLooksUp(replies, n);
    LookedUpOfTry(replies, n, "no");
  }

  /** The more-time branch looks up its three texts in turn, whatever the terminal answers. */
  lemma MoreTimeLooksUp(replies: nat -> Reply, n: nat)
    ensures LookedUp(MoreTimeRequests(replies, n)) == ["no", "exit", "return card"]
  {
    TriesLookUp(replies, n, "no", "exit", "return card");
  }

  /** Three locate-and-click-if-found blocks in a row look up their three texts in order. */
  lemma TriesLookUp(replies: nat -> Reply, n: nat, x: string, y: string, z: string)
    ensures var xs := TryRun(replies, n, x).requests;
            var ys := TryRun(replies, n + |xs|, y).requests;
            var zs := TryRun(replies, n + |xs| + |ys|, z).requests;
            LookedUp(xs + ys + zs) == [x, y, z]
  {
    var xs := TryRun(replies, n, x).requests;
    var ys := TryRun(replies, n + |xs|, y).requests;
    var zs := TryRun(replies, n + |xs| + |ys|, z).requests;
    LookedUpOfTry(replies, n, x);
    LookedUpOfTry(replies, n + |xs|, y);
    LookedUpOfTry(replies, n + |xs| + |ys|, z);
    LookedUpOfThree(xs, ys, zs, x, y, z);
  }

  /** Three stretches that look up one text each look up the three in order. */
  lemma LookedUpOfThree(xs: seq<Request>, ys: seq<Request>, zs: seq<Request>, x: string, y: string, z: string)
    requires LookedUp(xs) == [x] && LookedUp(ys) == [y] && LookedUp(zs) == [z]
    ensures LookedUp(xs + ys + zs) == [x, y, z]
  {
    LookedUpAppend(xs, ys);
    LookedUpAppend(xs + ys, zs);
  }

  /**
   * The requests dispatch may issue: reads, lookups of its three texts, clicks at found
   * points, its delay, and media takes (the older client's media collection is one request).
   */
  predicate IsRecoveryRequest(r: Request, standardDelay: int) {
    match r
    case ReadScreenText => true
    case LocateText(text) => text == "no" || text == "exit" || text == "return card"
    case Click(target) => target.Located?
    case Delay(ms) => ms == standardDelay
    case TakeCard => true
    case GetServices => true
    case TakeReceipt(_) => true
    case TakeMedia(_, count) => count > 0
    case TakeAllMediaCall => true
    case _ => false
  }

  predicate AllRecovery(rs: seq<Request>, standardDelay: int) {
    forall j :: 0 <= j < |rs| ==> IsRecoveryRequest(rs[j], standardDelay)
  }

  lemma AllRecoveryAppend(xs: seq<Request>, ys: seq<Request>, standardDelay: int)
    requires AllRecovery(xs, standardDelay) && AllRecovery(ys, standardDelay)
    ensures AllRecovery(xs + ys, standardDelay)
  {
    forall j | 0 <= j < |xs + ys| ensures IsRecoveryRequest((xs + ys)[j], standardDelay) {
      if j >= |xs| {
        assert (xs + ys)[j] == ys[j - |xs|];
      }
    }
  }

  lemma TryIsRecovery(replies: nat -> Reply, n: nat, text: string, standardDelay: int)
    requires text == "no" || text == "exit" || text == "return card"
    ensures AllRecovery(TryRun(replies, n, text).requests, standardDelay)
  {
  }

  lemma TakeAllMediaIsRecovery(replies: nat -> Reply, n: nat, standardDelay: int)
    ensures AllRecovery(TakeAllMediaRequests(replies, n), standardDelay)
  {
    if replies(n + 1).services.Some? {
      var services := replies(n + 1).services.value;
      var r := ReceiptRequests(FirstOfType(services, "ptr"));
      var d := MediaRequests(FirstOfType(services, "cdm"));
      var p := MediaRequests(FirstOfType(services, "ipm"));
      AllRecoveryAppend([TakeCard, GetServices], r, standardDelay);
      AllRecoveryAppend([TakeCard, GetServices] + r, d, standardDelay);
      AllRecoveryAppend([TakeCard, GetServices] + r + d, p, standardDelay);
    }
  }

  /** Every corrective action consists of recovery requests. */
  lemma ActionIsRecovery(replies: nat -> Reply, n: nat, branch: Branch, standardDelay: int)
    ensures AllRecovery(ActionRequests(replies, n, branch), standardDelay)
  {
    match branch
    case OnMoreTime =>
      var no := TryRun(replies, n, "no").requests;
      var exit := TryRun(replies, n + |no|, "exit").requests;
      var back := TryRun(replies, n + |no| + |exit|, "return card").requests;
      assert AllRecovery(no + exit + back, standardDelay) by {
        TryIsRecovery(replies, n, "no", standardDelay);
        TryIsRecovery(replies, n + |no|, "exit", standardDelay);
        TryIsRecovery(replies, n + |no| + |exit|, "return card", standardDelay);
        AllRecoveryAppend(no, exit, standardDelay);
        AllRecoveryAppend(no + exit, back, standardDelay);
      }
      assert ActionRequests(replies, n, branch) == no + exit + back;
    case OnAnotherTransaction =>
      TryIsRecovery(replies, n, "no", standardDelay);
    case OnTakeCard =>
      TakeAllMediaIsRecovery(replies, n, standardDelay);
    case OnThankYou =>
      TakeAllMediaIsRecovery(replies, n, standardDelay);
    case _ =>
  }

  /** With actions made of recovery requests, the dispatch loop issues only recovery requests. */
  lemma {:induction false} DispatchLoopOnlyRecovers(branches: Branches, actions: Actions, n: nat, standardDelay: int, fuel: nat)
    requires forall m: nat, b: Branch :: AllRecovery(ActionAt(actions, m, b), standardDelay)
    ensures AllRecovery(DispatchLoop(branches, actions, n, standardDelay, fuel).requests, standardDelay)
    decreases fuel
  {
    if fuel > 0 {
      var decided := BranchAt(branches, n);
      if decided.Some? && decided.value.Done? && decided.value.value != AtIdle {
        var branch := decided.value.value;
        var act := ActionAt(actions, n + 1, branch);
        var rs := [ReadScreenText] + act + [Delay(standardDelay)];
        AllRecoveryAppend([ReadScreenText], act, standardDelay);
        AllRecoveryAppend([ReadScreenText] + act, [Delay(standardDelay)], standardDelay);
        DispatchLoopOnlyRecovers(branches, actions, n + |rs|, standardDelay, fuel - 1);
        AllRecoveryAppend(rs, DispatchLoop(branches, actions, n + |rs|, standardDelay, fuel - 1).requests, standardDelay);
      }
    }
  }

  /**
   * Dispatch issues nothing but recovery requests: it never inserts a card, starts an
   * application, opens a session, or clicks anywhere the location service did not report.
   */
  lemma DispatchOnlyRecovers(replies: nat -> Reply, n: nat, screens: seq<AtmScreen>, standardDelay: int, fuel: nat)
    ensures AllRecovery(DispatchRun(replies, n, screens, standardDelay, fuel).requests, standardDelay)
  {
    var actions := ActionsOf(replies);
    forall m: nat, b: Branch ensures AllRecovery(ActionAt(actions, m, b), standardDelay) {
      ActionIsRecovery(replies, m, b, standardDelay);
    }
    DispatchLoopOnlyRecovers(BranchesOf(replies, screens), actions, n, standardDelay, fuel);
  }

  /**
   * Dispatch answers only on a read: when it ends with fuel left, the last request is a
   * screen read, and the answer is what that read selected: true for welcome or out of
   * service, false for a screen that could not be read, a throw for an unregistered screen.
   */
  lemma {:induction false} DispatchAnswersOnRead(branches: Branches, actions: Actions, n: nat, standardDelay: int, fuel: nat)
    requires DispatchLoop(branches, actions, n, standardDelay, fuel).result != OutOfFuel
    ensures var run := DispatchLoop(branches, actions, n, standardDelay, fuel);
            && |run.requests| > 0 && run.requests[|run.requests| - 1] == ReadScreenText
            && var last := BranchAt(branches, LastRead(n, run.requests));
               && (run.result == Returned(true) <==> last == Some(Done(AtIdle)))
               && (run.result == Returned(false) <==> last == None)
               && (run.result == Threw <==> last == Some(Raised))
    decreases fuel
  {
    var decided := BranchAt(branches, n);
    if Continues(decided) {
      var branch := decided.value.value;
      var rs := [ReadScreenText] + ActionAt(actions, n + 1, branch) + [Delay(standardDelay)];
      PassContinues(branches, actions, n, standardDelay);
      var rest := DispatchLoop(branches, actions, n + |rs|, standardDelay, fuel - 1);
      assert DispatchLoop(branches, actions, n, standardDelay, fuel) == Run(rest.result, rs + rest.requests);
      DispatchAnswersOnRead(branches, actions, n + |rs|, standardDelay, fuel - 1);
      assert LastRead(n, rs + rest.requests) == LastRead(n + |rs|, rest.requests);
      assert (rs + rest.requests)[|rs + rest.requests| - 1] == rest.requests[|rest.requests| - 1];
    } else {
      assert DispatchLoop(branches, actions, n, standardDelay, fuel) == Run(Verdict(decided), [ReadScreenText]);
    }
  }
}
