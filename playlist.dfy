/**
 * PlaylistService of the console application: a playlist names transactions; it is run
 * only when every name is an available transaction (ignoring case), and then its
 * transactions run in order until one fails. A transaction is a screen flow: each step
 * waits for a registered screen and performs one typed action, of which only inserting a
 * card exists.
 */
module Playlist {
  import opened Wrappers
  import opened Text
  import opened Models
  import opened Terminal
  import opened Registry
  import opened Automation
  import opened Recovery

  /**
   * One step of a screen flow: the screen to wait for, the wait's timeout and refresh
   * interval in seconds, and the action to perform there with its value.
   */
  datatype Step = Step(name: string, timeout: int, refreshInterval: int, actionType: string, actionValue: string)

  /** An available transaction: its name, the delay after an action, and its screen flow. */
  datatype Transaction = Transaction(name: string, standardDelay: int, screenFlow: seq<Step>)

  /** A playlist: its name and the names of the transactions it runs, in order. */
  datatype PlaylistModel = PlaylistModel(name: string, transactions: seq<string>)

  // ---------------------------------------------------------------------------
  // Running items in order until one fails

  /** What the items of a run-in-order loop do: the run of item i from a position. */
  type Items = (At, int) -> Run<bool>

  function ItemAt(items: Items, at: At, i: int): Run<bool> {
    items(at, i)
  }

  /** Items k to count - 1 in order from `at`, stopping at the first that fails; true when none does. */
  function InOrder(items: Items, at: At, count: int, k: int): Run<bool>
    decreases count - k
  {
    if k >= count then Run(true, [])
    else
      var item := ItemAt(items, at, k);
      if !item.result then Run(false, item.requests)
      else
        var rest := InOrder(items, After(at, item.requests), count, k + 1);
        Run(rest.result, item.requests + rest.requests)
  }

  /** An item that succeeds is followed by the rest of the list. */
  lemma InOrderPassStep(items: Items, at: At, count: int, k: int)
    requires k < count && ItemAt(items, at, k).result
    ensures var item := ItemAt(items, at, k);
            var rest := InOrder(items, After(at, item.requests), count, k + 1);
            InOrder(items, at, count, k) == Run(rest.result, item.requests + rest.requests)
  {
  }

  /** `rs`, issued from request n, holds the requests `part` from request m on. */
  predicate Holds(rs: seq<Request>, n: nat, m: nat, part: seq<Request>) {
    n <= m && m - n + |part| <= |rs| && rs[m - n..m - n + |part|] == part
  }

  lemma HoldsShift(xs: seq<Request>, ys: seq<Request>, n: nat, m: nat, part: seq<Request>)
    requires Holds(ys, n + |xs|, m, part)
    ensures Holds(xs + ys, n, m, part)
  {
    var o := m - n - |xs|;
    assert (xs + ys)[m - n..m - n + |part|] == ys[o..o + |part|];
  }

  /** Item i ran at some point of `rs` (issued from request n) and succeeded there. */
  ghost predicate RanAndPassed(items: Items, rs: seq<Request>, n: nat, i: int) {
    exists p: At :: ItemAt(items, p, i).result && Holds(rs, n, p.n, ItemAt(items, p, i).requests)
  }

  /**
   * Nothing is skipped: when the loop answers true, every item from k on ran, in its turn,
   * and succeeded there.
   */
  lemma {:induction false} InOrderTrueRanAll(items: Items, at: At, count: int, k: int)
    requires InOrder(items, at, count, k).result
    ensures var rs := InOrder(items, at, count, k).requests;
            forall i :: k <= i < count ==> RanAndPassed(items, rs, at.n, i)
    decreases count - k
  {
    if k < count {
      var item := ItemAt(items, at, k);
      var next := After(at, item.requests);
      var rest := InOrder(items, next, count, k + 1);
      var rs := item.requests + rest.requests;
      assert InOrder(items, at, count, k).requests == rs;
      InOrderTrueRanAll(items, next, count, k + 1);
      forall i | k <= i < count
        ensures RanAndPassed(items, rs, at.n, i)
      {
        if i == k {
          assert rs[0..|item.requests|] == item.requests;
          assert Holds(rs, at.n, at.n, ItemAt(items, at, k).requests);
        } else {
          assert RanAndPassed(items, rest.requests, next.n, i);
          var p: At :| ItemAt(items, p, i).result && Holds(rest.requests, next.n, p.n, ItemAt(items, p, i).requests);
          HoldsShift(item.requests, rest.requests, at.n, p.n, ItemAt(items, p, i).requests);
        }
      }
    }
  }

  /**
   * `rs`, issued from request n, ends with the requests of item i (k <= i < count) run at
   * some point where it failed.
   */
  ghost predicate EndsWithFailure(items: Items, rs: seq<Request>, n: nat, k: int, count: int) {
    exists i, p: At ::
      && k <= i < count && !ItemAt(items, p, i).result
      && Holds(rs, n, p.n, ItemAt(items, p, i).requests)
      && p.n + |ItemAt(items, p, i).requests| == n + |rs|
  }

  /**
   * The loop stops at the first failure: when it answers false, it ended with the requests
   * of an item that failed, and nothing was issued after them.
   */
  lemma {:induction false} InOrderFalseStopsAtFailure(items: Items, at: At, count: int, k: int)
    requires !InOrder(items, at, count, k).result
    ensures EndsWithFailure(items, InOrder(items, at, count, k).requests, at.n, k, count)
    decreases count - k
  {
    var item := ItemAt(items, at, k);
    if !item.result {
      assert item.requests[0..|item.requests|] == item.requests;
      assert Holds(item.requests, at.n, at.n, ItemAt(items, at, k).requests);
      assert InOrder(items, at, count, k).requests == item.requests;
    } else {
      var next := After(at, item.requests);
      var rest := InOrder(items, next, count, k + 1);
      InOrderFalseStopsAtFailure(items, next, count, k + 1);
      assert EndsWithFailure(items, rest.requests, next.n, k + 1, count);
      var i, p: At :| && k + 1 <= i < count && !ItemAt(items, p, i).result
                     && Holds(rest.requests, next.n, p.n, ItemAt(items, p, i).requests)
                     && p.n + |ItemAt(items, p, i).requests| == next.n + |rest.requests|;
      HoldsShift(item.requests, rest.requests, at.n, p.n, ItemAt(items, p, i).requests);
    }
  }

  /** An item that fails wherever it runs makes the loop fail when its turn can come. */
  lemma {:induction false} InOrderFailsAtFailingItem(items: Items, at: At, count: int, k: int, i: int)
    requires k <= i < count
    requires forall p: At :: !ItemAt(items, p, i).result
    ensures !InOrder(items, at, count, k).result
    decreases count - k
  {
    var item := ItemAt(items, at, k);
    if item.result {
      InOrderFailsAtFailingItem(items, After(at, item.requests), count, k + 1, i);
    }
  }

  /** Items that succeed wherever they run make the loop succeed. */
  lemma {:induction false} InOrderPassesWhenAllPass(items: Items, at: At, count: int, k: int)
    requires forall p: At, i :: k <= i < count ==> ItemAt(items, p, i).result
    ensures InOrder(items, at, count, k).result
    decreases count - k
  {
    if k < count {
      InOrderPassesWhenAllPass(items, After(at, ItemAt(items, at, k).requests), count, k + 1);
    }
  }

  // ---------------------------------------------------------------------------
  // Validating the playlist

  /** Some available transaction has this name, ignoring case. */
  predicate Listed(available: seq<Transaction>, name: string) {
    exists j :: 0 <= j < |available| && Lower(available[j].name) == Lower(name)
  }

  /** Every name of the playlist is an available transaction. */
  predicate Valid(available: seq<Transaction>, names: seq<string>) {
    forall i :: 0 <= i < |names| ==> Listed(available, names[i])
  }

  /** `available.Any(at => at.Name.ToLower() == name.ToLower())` over the transactions from k on. */
  function AnyNamedFrom(available: seq<Transaction>, name: string, k: nat): (r: bool)
    requires k <= |available|
    ensures r <==> exists j :: k <= j < |available| && Lower(available[j].name) == Lower(name)
    decreases |available| - k
  {
    if k == |available| then false
    else Lower(available[k].name) == Lower(name) || AnyNamedFrom(available, name, k + 1)
  }

  /** ValidatePlayList: every name is checked, and the playlist is valid when none is missing. */
  method ValidatePlayList(available: seq<Transaction>, playlist: PlaylistModel) returns (valid: bool)
    ensures valid <==> Valid(available, playlist.transactions)
  {
    var names := playlist.transactions;
    valid := true;
    for i := 0 to |names|
      invariant valid <==> forall j :: 0 <= j < i ==> Listed(available, names[j])
    {
      if !AnyNamedFrom(available, names[i], 0) {
        valid := false;
      }
    }
  }

  /** The key a transaction is looked up by: its name, lower-cased. */
  function TransactionKey(t: Transaction): string {
    Lower(t.name)
  }

  /** `available.First(at => at.Name.ToLower() == name.ToLower())`, None where First throws. */
  function FindTransaction(available: seq<Transaction>, name: string): Option<Transaction> {
    var i := FirstIndex(available, TransactionKey, Lower(name));
    if i.None? then None else Some(available[i.value])
  }

  /** The lookup finds exactly the listed names, and finds the first transaction of that name. */
  lemma FindTransactionIsFirst(available: seq<Transaction>, name: string)
    ensures FindTransaction(available, name).Some? <==> Listed(available, name)
    ensures FindTransaction(available, name).Some? ==>
              exists i :: && 0 <= i < |available| && available[i] == FindTransaction(available, name).value
                          && Lower(available[i].name) == Lower(name)
                          && forall j :: 0 <= j < i ==> Lower(available[j].name) != Lower(name)
  {
    FirstIndexFromIsFirst(available, TransactionKey, Lower(name), 0);
    var i := FirstIndex(available, TransactionKey, Lower(name));
    if i.None? {
      forall j | 0 <= j < |available| ensures Lower(available[j].name) != Lower(name) {
        assert TransactionKey(available[j]) != Lower(name);
      }
    } else {
      assert TransactionKey(available[i.value]) == Lower(name);
      forall j | 0 <= j < i.value ensures Lower(available[j].name) != Lower(name) {
        assert TransactionKey(available[j]) != Lower(name);
      }
    }
  }

  /** The transactions a valid playlist runs, in its order. */
  function Resolve(available: seq<Transaction>, names: seq<string>): (txs: seq<Transaction>)
    requires Valid(available, names)
    ensures |txs| == |names|
    ensures forall i :: 0 <= i < |names| ==> FindTransaction(available, names[i]) == Some(txs[i])
  {
    if names == [] then []
    else
      FindTransactionIsFirst(available, names[0]);
      assert Valid(available, names[1..]) by {
        forall i | 0 <= i < |names| - 1 ensures Listed(available, names[1..][i]) {
          assert names[1..][i] == names[i + 1];
        }
      }
      [FindTransaction(available, names[0]).value] + Resolve(available, names[1..])
  }

  // ---------------------------------------------------------------------------
  // One step of a transaction

  /**
   * The action of a step from request n: only `insertcard` (ignoring case) exists. It asks
   * for the service list, takes the first `idc` device, demands it be open, inserts the
   * step's card there, and waits the standard delay; any failure answers false.
   */
  function ActionRun(replies: nat -> Reply, n: nat, step: Step, standardDelay: int): Run<bool> {
    if Lower(step.actionType) != "insertcard" then Run(false, [])
    else
      match replies(n).services
      case None => Run(false, [GetServices])
      case Some(services) =>
        match FirstOfType(services, "idc")
        case None => Run(false, [GetServices])
        case Some(reader) =>
          if !reader.isOpen then Run(false, [GetServices])
          else if !replies(n + 1).ok then Run(false, [GetServices, InsertCard(step.actionValue, reader.name)])
          else Run(true, [GetServices, InsertCard(step.actionValue, reader.name), Delay(standardDelay)])
  }

  method Act(atm: Atm, step: Step, standardDelay: int) returns (ok: bool)
    modifies atm
    ensures var run := ActionRun(atm.replies, old(atm.step), step, standardDelay);
            && ok == run.result
            && atm.trace == old(atm.trace) + run.requests
            && atm.Where() == After(old(atm.Where()), run.requests)
  {
    ghost var at := atm.Where();
    ghost var trace := atm.trace;
    ghost var run := ActionRun(atm.replies, at.n, step, standardDelay);
    if Lower(step.actionType) != "insertcard" {
      assert atm.trace + [] == atm.trace;
      return false;
    }
    var answer := atm.Send(GetServices);
    if answer.services.None? {
      return false;
    }
    var reader := FirstOfType(answer.services.value, "idc");
    if reader.None? || !reader.value.isOpen {
      return false;
    }
    var insert := InsertCard(step.actionValue, reader.value.name);
    var inserted := atm.Send(insert);
    Then(at, trace, [GetServices], [insert]);
    assert [GetServices] + [insert] == [GetServices, insert];
    if !inserted.ok {
      assert run == Run(false, [GetServices, insert]);
      return false;
    }
    assert run == Run(true, [GetServices, insert, Delay(standardDelay)]);
    var _ := atm.Send(Delay(standardDelay));
    Then(at, trace, [GetServices, insert], [Delay(standardDelay)]);
    assert [GetServices, insert] + [Delay(standardDelay)] == [GetServices, insert, Delay(standardDelay)];
    ok := true;
  }

  /** The action from request n and, when it succeeds, a screenshot. */
  function PerformRun(replies: nat -> Reply, n: nat, step: Step, standardDelay: int): Run<bool> {
    var act := ActionRun(replies, n, step, standardDelay);
    if !act.result then act else Run(true, act.requests + [Screenshot])
  }

  method Perform(atm: Atm, step: Step, standardDelay: int) returns (ok: bool)
    modifies atm
    ensures var run := PerformRun(atm.replies, old(atm.step), step, standardDelay);
            && ok == run.result
            && atm.trace == old(atm.trace) + run.requests
            && atm.Where() == After(old(atm.Where()), run.requests)
  {
    ghost var at := atm.Where();
    ghost var trace := atm.trace;
    ghost var act := ActionRun(atm.replies, atm.step, step, standardDelay);
    ok := Act(atm, step, standardDelay);
    if ok {
      var _ := atm.Send(Screenshot);
      Then(at, trace, act.requests, [Screenshot]);
    }
  }

  /** Waiting for the step's screen from `at` (false when it is not seen), then performing the step. */
  function ProceedRun(replies: nat -> Reply, at: At, screen: AtmScreen, step: Step, standardDelay: int): Run<bool> {
    AfterWait(Polling(replies, at, step.timeout * 1000, [ScreenProbe(screen)], step.refreshInterval * 1000),
              replies, at, step, standardDelay)
  }

  /** Given how the wait from `at` went: false when the screen was not seen, else the step performed after it. */
  function AfterWait(wait: Run<Option<int>>, replies: nat -> Reply, at: At, step: Step, standardDelay: int): Run<bool> {
    if wait.result.None? then Run(false, wait.requests)
    else
      var done := PerformRun(replies, at.n + |wait.requests|, step, standardDelay);
      Run(done.result, wait.requests + done.requests)
  }

  /** `wait` is the wait for `screen` with these timeout and refresh, from every position. */
  ghost predicate WaitsAs(wait: At -> Run<Option<int>>, replies: nat -> Reply, screen: AtmScreen, timeout: int, refresh: int) {
    forall at {:trigger Polling(replies, at, timeout, [ScreenProbe(screen)], refresh)} ::
      wait(at) == Polling(replies, at, timeout, [ScreenProbe(screen)], refresh)
  }

  /** WaitForScreen, stated through `wait`. */
  method WaitVia(atm: Atm, screen: AtmScreen, timeout: int, refresh: int, ghost wait: At -> Run<Option<int>>) returns (found: bool)
    requires WaitsAs(wait, atm.replies, screen, timeout, refresh)
    modifies atm
    ensures found == wait(old(atm.Where())).result.Some?
    ensures atm.trace == old(atm.trace) + wait(old(atm.Where())).requests
    ensures atm.Where() == After(old(atm.Where()), wait(old(atm.Where())).requests)
  {
    ghost var run := Polling(atm.replies, atm.Where(), timeout, [ScreenProbe(screen)], refresh);
    found := WaitForScreen(atm, screen, timeout, refresh);
  }

  /** The wait and the step, stated through `wait`. */
  method ProceedVia(atm: Atm, screen: AtmScreen, step: Step, standardDelay: int, ghost wait: At -> Run<Option<int>>)
      returns (ok: bool)
    requires WaitsAs(wait, atm.replies, screen, step.timeout * 1000, step.refreshInterval * 1000)
    modifies atm
    ensures var run := AfterWait(wait(old(atm.Where())), atm.replies, old(atm.Where()), step, standardDelay);
            && ok == run.result
            && atm.trace == old(atm.trace) + run.requests
            && atm.Where() == After(old(atm.Where()), run.requests)
  {
    ghost var at := atm.Where();
    ghost var trace := atm.trace;
    var found := WaitVia(atm, screen, step.timeout * 1000, step.refreshInterval * 1000, wait);
    if !found {
      return false;
    }
    ghost var done := PerformRun(atm.replies, atm.step, step, standardDelay);
    ok := Perform(atm, step, standardDelay);
    Then(at, trace, wait(at).requests, done.requests);
  }

  method Proceed(atm: Atm, screen: AtmScreen, step: Step, standardDelay: int) returns (ok: bool)
    modifies atm
    ensures var run := ProceedRun(atm.replies, old(atm.Where()), screen, step, standardDelay);
            && ok == run.result
            && atm.trace == old(atm.trace) + run.requests
            && atm.Where() == After(old(atm.Where()), run.requests)
  {
    ghost var wait := (at: At) => Polling(atm.replies, at, step.timeout * 1000, [ScreenProbe(screen)], step.refreshInterval * 1000);
    ok := ProceedVia(atm, screen, step, standardDelay, wait);
  }

  /**
   * One step from `at`: look the screen up by name (ignoring case; false when it is not
   * registered), wait for it with the step's timeout and refresh interval (false when not
   * seen), perform the action (false when it fails), then take a screenshot.
   */
  function StepRun(replies: nat -> Reply, at: At, screens: seq<AtmScreen>, step: Step, standardDelay: int): Run<bool> {
    match FindScreen(screens, Lower(step.name))
    case None => Run(false, [])
    case Some(screen) => ProceedRun(replies, at, screen, step, standardDelay)
  }

  method RunStep(atm: Atm, screens: seq<AtmScreen>, step: Step, standardDelay: int) returns (ok: bool)
    modifies atm
    ensures var run := StepRun(atm.replies, old(atm.Where()), screens, step, standardDelay);
            && ok == run.result
            && atm.trace == old(atm.trace) + run.requests
            && atm.Where() == After(old(atm.Where()), run.requests)
  {
    var screen := FindScreen(screens, Lower(step.name));
    if screen.None? {
      assert atm.trace + [] == atm.trace;
      return false;
    }
    ok := Proceed(atm, screen.value, step, standardDelay);
  }

  // ---------------------------------------------------------------------------
  // Running a transaction

  /** Step i of the transaction's flow from `at`. */
  function StepAt(replies: nat -> Reply, at: At, screens: seq<AtmScreen>, tx: Transaction, i: int): Run<bool> {
    if 0 <= i < |tx.screenFlow| then StepRun(replies, at, screens, tx.screenFlow[i], tx.standardDelay) else Run(false, [])
  }

  function StepsOf(replies: nat -> Reply, screens: seq<AtmScreen>, tx: Transaction): Items {
    (at: At, i: int) => StepAt(replies, at, screens, tx, i)
  }

  /** RunTransaction from `at`: a screenshot, then the steps of the flow in order until one fails. */
  function TransactionRun(replies: nat -> Reply, at: At, screens: seq<AtmScreen>, tx: Transaction): Run<bool> {
    var flow := InOrder(StepsOf(replies, screens, tx), After(at, [Screenshot]), |tx.screenFlow|, 0);
    Run(flow.result, [Screenshot] + flow.requests)
  }

  /** `items` gives step i of the flow from every position. */
  ghost predicate StepsAs(items: Items, replies: nat -> Reply, screens: seq<AtmScreen>, tx: Transaction) {
    forall at: At, i: int {:trigger StepAt(replies, at, screens, tx, i)} :: items(at, i) == StepAt(replies, at, screens, tx, i)
  }

  /** Step i, seen through `items`. */
  method StepItem(atm: Atm, screens: seq<AtmScreen>, tx: Transaction, i: int, ghost items: Items) returns (ok: bool)
    requires 0 <= i < |tx.screenFlow| && StepsAs(items, atm.replies, screens, tx)
    modifies atm
    ensures var run := ItemAt(items, old(atm.Where()), i);
            && ok == run.result
            && atm.trace == old(atm.trace) + run.requests
            && atm.Where() == After(old(atm.Where()), run.requests)
  {
    ghost var expected := StepAt(atm.replies, atm.Where(), screens, tx, i);
    ok := RunStep(atm, screens, tx.screenFlow[i], tx.standardDelay);
  }

  /** The `foreach` over the screen flow, with its early returns. */
  method RunSteps(atm: Atm, screens: seq<AtmScreen>, tx: Transaction, ghost items: Items) returns (ok: bool)
    requires StepsAs(items, atm.replies, screens, tx)
    modifies atm
    ensures var run := InOrder(items, old(atm.Where()), |tx.screenFlow|, 0);
            && ok == run.result
            && atm.trace == old(atm.trace) + run.requests
            && atm.Where() == After(old(atm.Where()), run.requests)
  {
    ghost var at0 := atm.Where();
    ghost var whole := InOrder(items, at0, |tx.screenFlow|, 0);
    ghost var rest := whole;
    var i := 0;
    while i < |tx.screenFlow|
      invariant 0 <= i <= |tx.screenFlow|
      invariant rest == InOrder(items, atm.Where(), |tx.screenFlow|, i)
      invariant whole.result == rest.result
      invariant atm.trace + rest.requests == old(atm.trace) + whole.requests
      invariant After(atm.Where(), rest.requests) == After(at0, whole.requests)
    {
      ghost var at := atm.Where();
      ghost var trace := atm.trace;
      ghost var item := ItemAt(items, at, i);
      var passed := StepItem(atm, screens, tx, i, items);
      if !passed {
        assert rest == item;
        return false;
      }
      InOrderPassStep(items, at, |tx.screenFlow|, i);
      ghost var next := InOrder(items, atm.Where(), |tx.screenFlow|, i + 1);
      AfterAppend(at, item.requests, next.requests);
      AppendAssoc(trace, item.requests, next.requests);
      rest := next;
      i := i + 1;
    }
    assert atm.trace + [] == atm.trace;
    ok := true;
  }

  /** RunTransaction: a screenshot, then the screen flow. */
  method RunTransaction(atm: Atm, screens: seq<AtmScreen>, tx: Transaction) returns (ok: bool)
    modifies atm
    ensures var run := TransactionRun(atm.replies, old(atm.Where()), screens, tx);
            && ok == run.result
            && atm.trace == old(atm.trace) + run.requests
            && atm.Where() == After(old(atm.Where()), run.requests)
  {
    ghost var at := atm.Where();
    ghost var trace := atm.trace;
    var _ := atm.Send(Screenshot);
    ghost var items := StepsOf(atm.replies, screens, tx);
    ghost var flow := InOrder(items, atm.Where(), |tx.screenFlow|, 0);
    ok := RunSteps(atm, screens, tx, items);
    Then(at, trace, [Screenshot], flow.requests);
  }

  // ---------------------------------------------------------------------------
  // Running the playlist

  /** Transaction i of the resolved playlist from `at`. */
  function TransactionAt(replies: nat -> Reply, at: At, screens: seq<AtmScreen>, txs: seq<Transaction>, i: int): Run<bool> {
    if 0 <= i < |txs| then TransactionRun(replies, at, screens, txs[i]) else Run(false, [])
  }

  function TransactionsOf(replies: nat -> Reply, screens: seq<AtmScreen>, txs: seq<Transaction>): Items {
    (at: At, i: int) => TransactionAt(replies, at, screens, txs, i)
  }

  /**
   * RunPlaylist from `at`: false, with nothing run, when the playlist is not valid;
   * otherwise its transactions in order until one fails.
   */
  function PlaylistRun(replies: nat -> Reply, at: At, screens: seq<AtmScreen>, available: seq<Transaction>,
                       playlist: PlaylistModel): Run<bool> {
    var names := playlist.transactions;
    if !Valid(available, names) then Run(false, [])
    else InOrder(TransactionsOf(replies, screens, Resolve(available, names)), at, |names|, 0)
  }

  /** `items` gives transaction i of the resolved playlist from every position. */
  ghost predicate TransactionsAs(items: Items, replies: nat -> Reply, screens: seq<AtmScreen>, txs: seq<Transaction>) {
    forall at: At, i: int {:trigger TransactionAt(replies, at, screens, txs, i)} :: items(at, i) == TransactionAt(replies, at, screens, txs, i)
  }

  /** Transaction i, seen through `items`. */
  method TransactionItem(atm: Atm, screens: seq<AtmScreen>, tx: Transaction, ghost txs: seq<Transaction>, i: int,
                         ghost items: Items) returns (ok: bool)
    requires 0 <= i < |txs| && tx == txs[i] && TransactionsAs(items, atm.replies, screens, txs)
    modifies atm
    ensures var run := ItemAt(items, old(atm.Where()), i);
            && ok == run.result
            && atm.trace == old(atm.trace) + run.requests
            && atm.Where() == After(old(atm.Where()), run.requests)
  {
    ghost var expected := TransactionAt(atm.replies, atm.Where(), screens, txs, i);
    ok := RunTransaction(atm, screens, tx);
  }

  /** The `foreach` of RunPlaylist: each name looked up and run, the success accumulated, and the loop left at the first failure. */
  method RunAll(atm: Atm, screens: seq<AtmScreen>, available: seq<Transaction>, names: seq<string>,
                ghost txs: seq<Transaction>, ghost items: Items) returns (ok: bool)
    requires |txs| == |names| && forall i :: 0 <= i < |names| ==> FindTransaction(available, names[i]) == Some(txs[i])
    requires TransactionsAs(items, atm.replies, screens, txs)
    modifies atm
    ensures var run := InOrder(items, old(atm.Where()), |names|, 0);
            && ok == run.result
            && atm.trace == old(atm.trace) + run.requests
            && atm.Where() == After(old(atm.Where()), run.requests)
  {
    ghost var at0 := atm.Where();
    ghost var whole := InOrder(items, at0, |names|, 0);
    ghost var rest := whole;
    var playlistSuccess := true;
    var i := 0;
    while i < |names|
      invariant 0 <= i <= |names| && playlistSuccess
      invariant rest == InOrder(items, atm.Where(), |names|, i)
      invariant whole.result == rest.result
      invariant atm.trace + rest.requests == old(atm.trace) + whole.requests
      invariant After(atm.Where(), rest.requests) == After(at0, whole.requests)
    {
      ghost var at := atm.Where();
      ghost var trace := atm.trace;
      ghost var item := ItemAt(items, at, i);
      var t := FindTransaction(available, names[i]);
      var passed := TransactionItem(atm, screens, t.value, txs, i, items);
      playlistSuccess := playlistSuccess && passed;
      if !playlistSuccess {
        assert rest == item;
        return false;
      }
      InOrderPassStep(items, at, |names|, i);
      ghost var next := InOrder(items, atm.Where(), |names|, i + 1);
      AfterAppend(at, item.requests, next.requests);
      AppendAssoc(trace, item.requests, next.requests);
      rest := next;
      i := i + 1;
    }
    assert atm.trace + [] == atm.trace;
    ok := true;
  }

  /** RunPlaylist: validate, then run the transactions in order until one fails. */
  method RunPlaylist(atm: Atm, screens: seq<AtmScreen>, available: seq<Transaction>, playlist: PlaylistModel) returns (ok: bool)
    modifies atm
    ensures var run := PlaylistRun(atm.replies, old(atm.Where()), screens, available, playlist);
            && ok == run.result
            && atm.trace == old(atm.trace) + run.requests
            && atm.Where() == After(old(atm.Where()), run.requests)
  {
    var valid := ValidatePlayList(available, playlist);
    if !valid {
      assert atm.trace + [] == atm.trace;
      return false;
    }
    ghost var txs := Resolve(available, playlist.transactions);
    ok := RunAll(atm, screens, available, playlist.transactions, txs, TransactionsOf(atm.replies, screens, txs));
  }

  // ---------------------------------------------------------------------------
  // Properties

  /** A run that held item i keeps holding it with requests in front of it. */
  lemma RanAndPassedShift(items: Items, xs: seq<Request>, ys: seq<Request>, n: nat, i: int)
    requires RanAndPassed(items, ys, n + |xs|, i)
    ensures RanAndPassed(items, xs + ys, n, i)
  {
    var p: At :| ItemAt(items, p, i).result && Holds(ys, n + |xs|, p.n, ItemAt(items, p, i).requests);
    HoldsShift(xs, ys, n, p.n, ItemAt(items, p, i).requests);
  }

  /** After `first`, a loop that answers true ran every item, each successfully. */
  lemma PrefixedRanAll(items: Items, at: At, first: seq<Request>, count: int)
    requires InOrder(items, After(at, first), count, 0).result
    ensures var rs := first + InOrder(items, After(at, first), count, 0).requests;
            forall i :: 0 <= i < count ==> RanAndPassed(items, rs, at.n, i)
  {
    var flow := InOrder(items, After(at, first), count, 0);
    InOrderTrueRanAll(items, After(at, first), count, 0);
    forall i | 0 <= i < count ensures RanAndPassed(items, first + flow.requests, at.n, i) {
      RanAndPassedShift(items, first, flow.requests, at.n, i);
    }
  }

  /** After `first`, a loop that answers false ends with the requests of an item that failed. */
  lemma PrefixedStopsAtFailure(items: Items, at: At, first: seq<Request>, count: int)
    requires !InOrder(items, After(at, first), count, 0).result
    ensures EndsWithFailure(items, first + InOrder(items, After(at, first), count, 0).requests, at.n, 0, count)
  {
    var next := After(at, first);
    var flow := InOrder(items, next, count, 0);
    InOrderFalseStopsAtFailure(items, next, count, 0);
    assert EndsWithFailure(items, flow.requests, next.n, 0, count);
    var i, p: At :| && 0 <= i < count && !ItemAt(items, p, i).result
                   && Holds(flow.requests, next.n, p.n, ItemAt(items, p, i).requests)
                   && p.n + |ItemAt(items, p, i).requests| == next.n + |flow.requests|;
    HoldsShift(first, flow.requests, at.n, p.n, ItemAt(items, p, i).requests);
  }

  /**
   * The card goes into the first `idc` device of the service list, and only when that
   * device is open and the step's action is `insertcard`.
   */
  lemma CardGoesToFirstReader(replies: nat -> Reply, n: nat, step: Step, standardDelay: int)
    requires ActionRun(replies, n, step, standardDelay).result
    ensures Lower(step.actionType) == "insertcard"
    ensures exists services: seq<Device>, i ::
              && replies(n).services == Some(services)
              && IsFirstOfType(services, "idc", i) && services[i].isOpen
              && ActionRun(replies, n, step, standardDelay).requests
                 == [GetServices, InsertCard(step.actionValue, services[i].name), Delay(standardDelay)]
  {
    var services := replies(n).services.value;
    FirstOfTypeIsFirst(services, "idc");
  }

  /** Without a card reader in the service list the action fails having only asked for the list. */
  lemma NoReaderNoCard(replies: nat -> Reply, n: nat, step: Step, standardDelay: int)
    requires Lower(step.actionType) == "insertcard" && replies(n).services.Some?
    requires var services := replies(n).services.value;
             forall i :: 0 <= i < |services| ==> Lower(services[i].deviceType) != "idc"
    ensures ActionRun(replies, n, step, standardDelay) == Run(false, [GetServices])
  {
    FirstOfTypeIsFirst(replies(n).services.value, "idc");
  }

  /**
   * A step whose screen is registered but not seen before the timeout fails, having only
   * read the screen and waited the refresh interval; its action is never performed.
   */
  lemma UnseenScreenFailsStep(replies: nat -> Reply, at: At, screens: seq<AtmScreen>, step: Step, standardDelay: int, screen: AtmScreen)
    requires FindScreen(screens, Lower(step.name)) == Some(screen)
    requires Polling(replies, at, step.timeout * 1000, [ScreenProbe(screen)], step.refreshInterval * 1000).result.None?
    ensures var run := StepRun(replies, at, screens, step, standardDelay);
            !run.result && ReadsAndWaits(run.requests, step.refreshInterval * 1000)
  {
    var probes := [ScreenProbe(screen)];
    var wait := Polling(replies, at, step.timeout * 1000, probes, step.refreshInterval * 1000);
    assert ReadsAndWaits(wait.requests, step.refreshInterval * 1000) by {
      PollOnlyReadsAndWaits(AnswersOf(replies, probes), at, at.now + step.timeout * 1000, |probes|, step.refreshInterval * 1000);
    }
    assert StepRun(replies, at, screens, step, standardDelay) == AfterWait(wait, replies, at, step, standardDelay);
  }

  /** A step whose screen no registered screen is named like (ignoring case) fails its transaction. */
  lemma UnregisteredScreenFailsTransaction(replies: nat -> Reply, at: At, screens: seq<AtmScreen>, tx: Transaction, i: int)
    requires 0 <= i < |tx.screenFlow|
    requires forall s :: 0 <= s < |screens| ==> Lower(screens[s].name) != Lower(tx.screenFlow[i].name)
    ensures !TransactionRun(replies, at, screens, tx).result
  {
    var step := tx.screenFlow[i];
    FindScreenIsFirst(screens, Lower(step.name));
    var items := StepsOf(replies, screens, tx);
    forall p: At ensures !ItemAt(items, p, i).result {
      assert ItemAt(items, p, i) == StepRun(replies, p, screens, step, tx.standardDelay);
    }
    InOrderFailsAtFailingItem(items, After(at, [Screenshot]), |tx.screenFlow|, 0, i);
  }

  /** A step whose action is anything but `insertcard` (ignoring case) fails its transaction. */
  lemma UnknownActionFailsTransaction(replies: nat -> Reply, at: At, screens: seq<AtmScreen>, tx: Transaction, i: int)
    requires 0 <= i < |tx.screenFlow| && Lower(tx.screenFlow[i].actionType) != "insertcard"
    ensures !TransactionRun(replies, at, screens, tx).result
  {
    var step := tx.screenFlow[i];
    var items := StepsOf(replies, screens, tx);
    forall p: At ensures !ItemAt(items, p, i).result {
      assert ItemAt(items, p, i) == StepRun(replies, p, screens, step, tx.standardDelay);
    }
    InOrderFailsAtFailingItem(items, After(at, [Screenshot]), |tx.screenFlow|, 0, i);
  }

  /** A transaction that succeeds started with a screenshot and ran every step of its flow, each successfully. */
  lemma TransactionTrueRanAllSteps(replies: nat -> Reply, at: At, screens: seq<AtmScreen>, tx: Transaction)
    requires TransactionRun(replies, at, screens, tx).result
    ensures var rs := TransactionRun(replies, at, screens, tx).requests;
            && rs[0] == Screenshot
            && forall i :: 0 <= i < |tx.screenFlow| ==> RanAndPassed(StepsOf(replies, screens, tx), rs, at.n, i)
  {
    PrefixedRanAll(StepsOf(replies, screens, tx), at, [Screenshot], |tx.screenFlow|);
  }

  /** A transaction that fails stops at the failing step: its requests end the transaction's. */
  lemma TransactionStopsAtFailingStep(replies: nat -> Reply, at: At, screens: seq<AtmScreen>, tx: Transaction)
    requires !TransactionRun(replies, at, screens, tx).result
    ensures EndsWithFailure(StepsOf(replies, screens, tx), TransactionRun(replies, at, screens, tx).requests, at.n, 0, |tx.screenFlow|)
  {
    PrefixedStopsAtFailure(StepsOf(replies, screens, tx), at, [Screenshot], |tx.screenFlow|);
  }

  /**
   * A playlist that succeeds was valid, and every transaction it names ran, the first of
   * that name among the available ones, successfully.
   */
  lemma PlaylistTrueRanAll(replies: nat -> Reply, at: At, screens: seq<AtmScreen>, available: seq<Transaction>,
                           playlist: PlaylistModel)
    requires PlaylistRun(replies, at, screens, available, playlist).result
    ensures Valid(available, playlist.transactions)
    ensures var names := playlist.transactions;
            var txs := Resolve(available, names);
            var rs := PlaylistRun(replies, at, screens, available, playlist).requests;
            forall i :: 0 <= i < |names| ==>
              FindTransaction(available, names[i]) == Some(txs[i]) && RanAndPassed(TransactionsOf(replies, screens, txs), rs, at.n, i)
  {
    var names := playlist.transactions;
    var txs := Resolve(available, names);
    InOrderTrueRanAll(TransactionsOf(replies, screens, txs), at, |names|, 0);
  }

  /** A valid playlist that fails stopped at a transaction that failed: its requests end the run. */
  lemma PlaylistStopsAtFailure(replies: nat -> Reply, at: At, screens: seq<AtmScreen>, available: seq<Transaction>,
                               playlist: PlaylistModel)
    requires Valid(available, playlist.transactions)
    requires !PlaylistRun(replies, at, screens, available, playlist).result
    ensures EndsWithFailure(TransactionsOf(replies, screens, Resolve(available, playlist.transactions)),
                            PlaylistRun(replies, at, screens, available, playlist).requests, at.n, 0, |playlist.transactions|)
  {
    InOrderFalseStopsAtFailure(TransactionsOf(replies, screens, Resolve(available, playlist.transactions)), at, |playlist.transactions|, 0);
  }

  /** A playlist naming a transaction with a step on an unregistered screen fails. */
  lemma UnregisteredScreenFailsPlaylist(replies: nat -> Reply, at: At, screens: seq<AtmScreen>, available: seq<Transaction>,
                                        playlist: PlaylistModel, i: int, tx: Transaction, j: int)
    requires 0 <= i < |playlist.transactions| && FindTransaction(available, playlist.transactions[i]) == Some(tx)
    requires 0 <= j < |tx.screenFlow|
    requires forall s :: 0 <= s < |screens| ==> Lower(screens[s].name) != Lower(tx.screenFlow[j].name)
    ensures !PlaylistRun(replies, at, screens, available, playlist).result
  {
    var names := playlist.transactions;
    if Valid(available, names) {
      var txs := Resolve(available, names);
      var items := TransactionsOf(replies, screens, txs);
      forall p: At ensures !ItemAt(items, p, i).result {
        assert ItemAt(items, p, i) == TransactionRun(replies, p, screens, tx);
        UnregisteredScreenFailsTransaction(replies, p, screens, tx, j);
      }
      InOrderFailsAtFailingItem(items, at, |names|, 0, i);
    }
  }
}
