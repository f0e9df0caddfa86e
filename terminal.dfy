/**
 * The remote virtual terminal as the client sees it: every call to the VM, ATM, agent or
 * connection service is one request, answered by whatever the terminal says at that point.
 * The answers are an arbitrary (so universally quantified) sequence `replies`; the ghost
 * `trace` records the requests issued, and `now` is an abstract millisecond clock that
 * each request advances.
 */
module Terminal {
  import opened Wrappers
  import opened Models

  /** Where a click lands: the midpoint of an OCR box, or a point the location service found. */
  datatype Target = Midpoint(box: Box) | Located(point: Point)

  datatype Request =
    | ReadScreenText                          // VirtualMachineService.GetScreenTextAsync
    | LocateText(text: string)                // VirtualMachineService.GetLocationByTextAsync
    | Click(target: Target)                   // VirtualMachineService.ClickScreenAsync
    | Delay(ms: int)                          // Task.Delay
    | GetServices                             // AtmService.GetServicesAsync
    | TakeCard                                // AtmService.TakeCardAsync
    | TakeReceipt(device: string)             // AtmService.TakeReceiptAsync
    | TakeMedia(device: string, count: int)   // AtmService.TakeMediaAsync
    | InsertCard(cardId: string, reader: string)  // AtmService.InsertCardAsync
    | Recover                                 // AtmService.RecoverAsync
    | GetAgentStatus                          // AgentService.GetAgentStatusAsync
    | OpenSession                             // AgentService.OpenSesisonAsync
    | OpenHwProfile                           // AgentService.OpenHwProfileAsync
    | StartApp(app: string)                   // AgentService.StartAtmAppAsync
    | OpenConnection                          // ConnectionService.OpenAsync
    | Screenshot                              // VirtualMachineService.GetScreenJpegAsync (SaveScreenShot)
    | TakeAllMediaCall                        // the older client's TakeAllMedia, whose body is not part of this model

  /**
   * The terminal's answer to one request. Each request reads only its own field: the OCR
   * page (null when unreadable), a text location, a success flag, the device list, or
   * the agent status.
   */
  datatype Reply = Reply(page: Option<OcrPage>, location: Option<Location>, ok: bool,
                         services: Option<seq<Device>>, status: Option<string>)

  /** Every request takes at least one tick; a delay takes its length. */
  function Cost(r: Request): int {
    if r.Delay? && r.ms > 1 then r.ms else 1
  }

  /** The time a sequence of requests takes. */
  function Elapsed(rs: seq<Request>): (t: int)
    ensures t >= |rs|
  {
    CostOfFirst(rs, |rs|)
  }

  /** The time the first k requests of rs take. */
  function CostOfFirst(rs: seq<Request>, k: nat): (t: int)
    requires k <= |rs|
    ensures t >= k
  {
    if k == 0 then 0 else CostOfFirst(rs, k - 1) + Cost(rs[k - 1])
  }

  /** How far the conversation with the terminal has got: requests answered and the clock. */
  datatype At = At(n: nat, now: int)

  /** Where the conversation is after the requests `rs`. */
  function After(at: At, rs: seq<Request>): At {
    At(at.n + |rs|, at.now + Elapsed(rs))
  }

  /** What a client operation did: its result and the requests it issued, in order. */
  datatype Run<T> = Run(result: T, requests: seq<Request>)

  class Atm {
    /** The answer the terminal gives to the n-th request. */
    const replies: nat -> Reply
    var step: nat
    var now: int
    ghost var trace: seq<Request>

    constructor (replies: nat -> Reply, now: int)
      ensures this.replies == replies && step == 0 && this.now == now && trace == []
    {
      this.replies := replies;
      step := 0;
      this.now := now;
      trace := [];
    }

    function Where(): At
      reads this
    {
      At(step, now)
    }

    /** Issues one request and returns the terminal's answer to it. */
    method Send(r: Request) returns (reply: Reply)
      modifies this
      ensures reply == replies(old(step))
      ensures trace == old(trace) + [r]
      ensures Where() == After(old(Where()), [r])
    {
      reply := replies(step);
      step := step + 1;
      now := now + Cost(r);
      trace := trace + [r];
      assert Elapsed([r]) == CostOfFirst([r], 0) + Cost([r][0]);
    }
  }

  // ---------------------------------------------------------------------------
  // Properties of the clock

  /** The first k requests of xs + ys, for k within xs, cost what they cost in xs. */
  lemma {:induction false} CostOfFirstPrefix(xs: seq<Request>, ys: seq<Request>, k: nat)
    requires k <= |xs|
    ensures CostOfFirst(xs + ys, k) == CostOfFirst(xs, k)
  {
    if k > 0 {
      CostOfFirstPrefix(xs, ys, k - 1);
      assert (xs + ys)[k - 1] == xs[k - 1];
    }
  }

  /** Past xs, the first |xs| + k requests of xs + ys cost xs and then the first k of ys. */
  lemma {:induction false} CostOfFirstAppend(xs: seq<Request>, ys: seq<Request>, k: nat)
    requires k <= |ys|
    ensures CostOfFirst(xs + ys, |xs| + k) == CostOfFirst(xs, |xs|) + CostOfFirst(ys, k)
  {
    if k == 0 {
      CostOfFirstPrefix(xs, ys, |xs|);
    } else {
      CostOfFirstAppend(xs, ys, k - 1);
      assert (xs + ys)[|xs| + k - 1] == ys[k - 1];
    }
  }

  /** Time adds up over consecutive stretches of requests. */
  lemma ElapsedAppend(xs: seq<Request>, ys: seq<Request>)
    ensures Elapsed(xs + ys) == Elapsed(xs) + Elapsed(ys)
  {
    CostOfFirstAppend(xs, ys, |ys|);
  }

  /** Positions compose: going through xs and then ys is going through xs + ys. */
  lemma AfterAppend(at: At, xs: seq<Request>, ys: seq<Request>)
    ensures After(After(at, xs), ys) == After(at, xs + ys)
  {
    ElapsedAppend(xs, ys);
  }
}
