/**
  The in-flight request-body budget as a state machine over values.

  Every admitted request owns the variables its middleware closure captures; all requests share
  one counter, `inFlight`. A handler of one request reads and writes that counter and that
  request's own record and nothing else, so each handler is a function on the pair of them (a
  `Cell`), and a step of the whole system replaces one record and the counter.
 */
module InflightProtocol {
  import opened Options

  const STALL_TIMEOUT_MS: nat := 15000
  const STALL_POLL_MS: nat := 5000
  const UNDECLARED_OPENING_RESERVATION_BYTES: nat := 1024 * 1024

  function Max(a: int, b: int): int {
    if a < b then b else a
  }

  function Min(a: int, b: int): int {
    if a < b then a else b
  }

  /** What a body of undeclared length reserves before any of it has been counted. */
  function Opening(budget: int): nat {
    Max(1, Min(UNDECLARED_OPENING_RESERVATION_BYTES, budget))
  }

  /** Which of the two calls to `req.destroy()` in the poller was made. */
  datatype DestroyReason = Stalled | OverBudget

  /** The five events the release handler listens to. */
  datatype TerminalKind = ResFinish | ResClose | ResError | ReqClose | ReqError

  /**
    One admitted request. The first group is what its headers said, the second what the socket and
    the parser show, the third the variables of the closure (`armed` says that the interval timer
    is set, `due` when it next fires).
   */
  datatype Request = Request(
    declared: Option<nat>,
    chunked: bool,

    bytesRead: nat,
    complete: bool,
    ended: bool,
    destroyed: Option<DestroyReason>,

    reserved: nat,
    released: bool,
    armed: bool,
    due: nat,
    startBytes: nat,
    lastBytes: nat,
    lastProgress: nat)

  /** The shared counter together with one request's record. */
  datatype Cell = Cell(inFlight: int, r: Request)

  function InitialReservation(budget: int, declared: Option<nat>, chunked: bool): nat {
    match declared
    case Some(n) => n
    case None => if chunked then Opening(budget) else 0
  }

  /** The record of a request admitted at `now`, when its socket had read `socketBytes` bytes. */
  function NewRequest(budget: int, now: nat, declared: Option<nat>, chunked: bool, socketBytes: nat): Request {
    var reserved := InitialReservation(budget, declared, chunked);
    Request(declared, chunked,
            socketBytes, false, false, None,
            reserved, false, reserved > 0, now + STALL_POLL_MS, socketBytes, socketBytes, now)
  }

  function Release(c: Cell): Cell {
    if c.r.released then c
    else Cell(c.inFlight - c.r.reserved, c.r.(released := true, armed := false))
  }

  function Destroy(c: Cell, reason: DestroyReason): Cell {
    c.(r := c.r.(destroyed := Some(reason)))
  }

  /** Re-prices a body of undeclared length; crossing the budget aborts the request. */
  function Reconcile(budget: int, c: Cell): Cell {
    var actual := Max(Opening(budget), c.r.bytesRead - c.r.startBytes);
    if actual == c.r.reserved then c
    else
      var repriced := Cell(c.inFlight + actual - c.r.reserved, c.r.(reserved := actual));
      if repriced.inFlight > budget then Destroy(Release(repriced), OverBudget) else repriced
  }

  /** The whole declared body has gone over the socket. */
  predicate FullyCounted(r: Request) {
    r.declared.Some? && r.bytesRead - r.startBytes >= r.declared.value
  }

  /** A poll that finds new bytes: it counts them, restarts the clock and stops watching a finished body. */
  function ProgressCell(budget: int, now: nat, c: Cell): Cell {
    var r := c.r;
    var c1 := if r.declared.None? then Reconcile(budget, c) else c;
    var r1 := c1.r.(lastBytes := r.bytesRead, lastProgress := now);
    c1.(r := if FullyCounted(r) then r1.(armed := false) else r1)
  }

  /** One firing of the interval timer at `now`; the next one is due a period later if it stays set. */
  function PollCell(budget: int, now: nat, fired: Cell): Cell {
    var c := fired.(r := fired.r.(due := now + STALL_POLL_MS));
    var r := c.r;
    if r.complete then
      c.(r := r.(armed := false))
    else if r.bytesRead != r.lastBytes then
      ProgressCell(budget, now, c)
    else if now - r.lastProgress >= STALL_TIMEOUT_MS then
      Destroy(Release(c), Stalled)
    else c
  }

  /** What can happen to one admitted request. `Bytes` and `MessageComplete` are the network's. */
  datatype Happening =
    | Bytes(n: nat)
    | MessageComplete
    | EndEvent
    | Terminal(kind: TerminalKind)
    | Poll

  function HandleCell(budget: int, now: nat, c: Cell, h: Happening): Cell {
    match h
    case Bytes(n) => c.(r := c.r.(bytesRead := c.r.bytesRead + n))
    case MessageComplete => c.(r := c.r.(complete := true))
    case EndEvent => c.(r := c.r.(ended := true, armed := false))
    case Terminal(_) => Release(c)
    case Poll => PollCell(budget, now, c)
  }

  /** Admitted requests are numbered in order of admission. */
  datatype State = State(now: nat, inFlight: int, reqs: seq<Request>)

  datatype Event =
    | Arrive(declared: Option<nat>, chunked: bool, socketBytes: nat)
    | Tick(ms: nat)
    | On(id: nat, what: Happening)

  const INITIAL: State := State(0, 0, [])

  predicate Admits(budget: int, s: State, declared: Option<nat>, chunked: bool) {
    s.inFlight + InitialReservation(budget, declared, chunked) <= budget
  }

  /** Events concern admitted requests; an interval timer fires only while set and never early. */
  predicate Enabled(s: State, e: Event) {
    e.On? ==>
      && e.id < |s.reqs|
      && (e.what.Poll? ==> s.reqs[e.id].armed && s.reqs[e.id].due <= s.now)
  }

  function Next(budget: int, s: State, e: Event): State
    requires Enabled(s, e)
  {
    match e
    case Arrive(declared, chunked, socketBytes) =>
      if Admits(budget, s, declared, chunked) then
        s.(inFlight := s.inFlight + InitialReservation(budget, declared, chunked),
           reqs := s.reqs + [NewRequest(budget, s.now, declared, chunked, socketBytes)])
      else s
    case Tick(ms) => s.(now := s.now + ms)
    case On(id, what) =>
      var c := HandleCell(budget, s.now, Cell(s.inFlight, s.reqs[id]), what);
      s.(inFlight := c.inFlight, reqs := s.reqs[id := c.r])
  }

  /** `states` are the states a run through `events` visits, the first one included. */
  ghost predicate IsRun(budget: int, states: seq<State>, events: seq<Event>) {
    && |states| == |events| + 1
    && states[0] == INITIAL
    && forall i :: 0 <= i < |events| ==>
                     Enabled(states[i], events[i]) && states[i + 1] == Next(budget, states[i], events[i])
  }
}
