/**
  What every run of the in-flight body budget keeps: the counter is the sum of the live
  reservations, it never exceeds the budget, every reservation is returned exactly once, and a
  chunked body is charged what the poller has seen of it.
 */
module InflightAccounting {
  import opened Options
  import opened InflightProtocol

  // ---------------------------------------------------------------- sums over requests

  /** What a request currently holds of the budget. */
  function Share(r: Request): nat {
    if r.released then 0 else r.reserved
  }

  ghost function LiveSum(reqs: seq<Request>): nat {
    if reqs == [] then 0 else LiveSum(reqs[..|reqs| - 1]) + Share(reqs[|reqs| - 1])
  }

  lemma {:induction false} LiveSumAppend(reqs: seq<Request>, r: Request)
    ensures LiveSum(reqs + [r]) == LiveSum(reqs) + Share(r)
  {
    assert (reqs + [r])[..|reqs|] == reqs;
  }

  lemma {:induction false} LiveSumConcat(a: seq<Request>, b: seq<Request>)
    ensures LiveSum(a + b) == LiveSum(a) + LiveSum(b)
  {
    if b == [] {
      assert a + b == a;
    } else {
      assert (a + b)[..|a + b| - 1] == a + b[..|b| - 1];
      LiveSumConcat(a, b[..|b| - 1]);
    }
  }

  lemma {:induction false} LiveSumUpdate(reqs: seq<Request>, id: nat, r: Request)
    requires id < |reqs|
    ensures LiveSum(reqs[id := r]) == LiveSum(reqs) - Share(reqs[id]) + Share(r)
  {
    var last := |reqs| - 1;
    if id == last {
      assert reqs[id := r][..last] == reqs[..last];
    } else {
      LiveSumUpdate(reqs[..last], id, r);
      assert reqs[id := r][..last] == reqs[..last][id := r];
    }
  }

  lemma {:induction false} ShareAtMostSum(reqs: seq<Request>, id: nat)
    requires id < |reqs|
    ensures Share(reqs[id]) <= LiveSum(reqs)
  {
    if id == |reqs| - 1 {
    } else {
      ShareAtMostSum(reqs[..|reqs| - 1], id);
    }
  }

  lemma {:induction false} SumZero(reqs: seq<Request>)
    requires forall i :: 0 <= i < |reqs| ==> Share(reqs[i]) == 0
    ensures LiveSum(reqs) == 0
  {
    if reqs == [] {
    } else {
      SumZero(reqs[..|reqs| - 1]);
    }
  }

  // ---------------------------------------------------------------- the invariant

  /** The price of a request: its declared length, or what a poll has counted but at least the opening. */
  function Price(budget: int, r: Request): int {
    match r.declared
    case Some(n) => n
    case None => if r.chunked then Max(Opening(budget), r.lastBytes - r.startBytes) else 0
  }

  /** The body can still stall: some of it is expected and neither parser nor counter has seen its end. */
  predicate Outstanding(r: Request) {
    && !r.complete && !r.ended
    && match r.declared
       case Some(length) => r.bytesRead - r.startBytes < length
       case None => r.chunked
  }

  ghost predicate RequestOk(budget: int, now: nat, r: Request) {
    && r.startBytes <= r.lastBytes <= r.bytesRead
    && r.lastProgress <= now
    && r.reserved == Price(budget, r)
    && (r.armed ==> !r.released && !r.ended && r.reserved > 0)
    && (r.armed && r.declared.Some? ==> r.lastBytes - r.startBytes < r.declared.value)
    && (r.armed ==> r.lastProgress + STALL_POLL_MS <= r.due <= now + STALL_POLL_MS)
    && (r.destroyed.Some? ==> r.released)
    && (!r.released && Outstanding(r) ==> r.armed)
  }

  ghost predicate Inv(budget: int, s: State) {
    && s.inFlight == LiveSum(s.reqs)
    && (budget < 0 ==> s.reqs == [])
    && (0 <= budget ==> s.inFlight <= budget)
    && forall i :: 0 <= i < |s.reqs| ==> RequestOk(budget, s.now, s.reqs[i])
  }

  /** A cell whose timer has just fired. */
  function Fired(c: Cell, now: nat): Cell {
    c.(r := c.r.(due := now + STALL_POLL_MS))
  }

  lemma ProgressKeeps(budget: int, now: nat, c: Cell)
    requires RequestOk(budget, now, c.r.(due := now + STALL_POLL_MS, lastProgress := now))
    requires c.r.armed && c.r.due == now + STALL_POLL_MS
    requires Share(c.r) <= c.inFlight <= budget
    ensures var c' := ProgressCell(budget, now, c);
            && RequestOk(budget, now, c'.r)
            && c'.inFlight - Share(c'.r) == c.inFlight - Share(c.r)
            && c'.inFlight <= budget
  {
  }

  lemma PollKeeps(budget: int, now: nat, c: Cell)
    requires RequestOk(budget, now, c.r) && c.r.armed && c.r.due <= now
    requires Share(c.r) <= c.inFlight <= budget
    ensures var c' := PollCell(budget, now, c);
            && RequestOk(budget, now, c'.r)
            && c'.inFlight - Share(c'.r) == c.inFlight - Share(c.r)
            && c'.inFlight <= budget
  {
    if !c.r.complete && c.r.bytesRead != c.r.lastBytes {
      ProgressKeeps(budget, now, Fired(c, now));
      assert PollCell(budget, now, c) == ProgressCell(budget, now, Fired(c, now));
    }
  }

  /**
    One handler, on the request it belongs to: the counter moves by exactly the change of that
    request's share, and an overshoot while re-pricing is undone before the handler returns.
   */
  lemma HandlerKeeps(budget: int, now: nat, c: Cell, h: Happening)
    requires RequestOk(budget, now, c.r)
    requires h.Poll? ==> c.r.armed && c.r.due <= now
    requires Share(c.r) <= c.inFlight <= budget
    ensures var c' := HandleCell(budget, now, c, h);
            && RequestOk(budget, now, c'.r)
            && c'.inFlight - Share(c'.r) == c.inFlight - Share(c.r)
            && c'.inFlight <= budget
  {
    if h.Poll? {
      PollKeeps(budget, now, c);
    }
  }

  lemma OnKeepsInv(budget: int, s: State, id: nat, what: Happening)
    requires Inv(budget, s) && Enabled(s, On(id, what))
    ensures Inv(budget, Next(budget, s, On(id, what)))
  {
    var c := Cell(s.inFlight, s.reqs[id]);
    var c' := HandleCell(budget, s.now, c, what);
    ShareAtMostSum(s.reqs, id);
    HandlerKeeps(budget, s.now, c, what);
    LiveSumUpdate(s.reqs, id, c'.r);
    assert Next(budget, s, On(id, what)) == State(s.now, c'.inFlight, s.reqs[id := c'.r]);
  }

  lemma NewRequestOk(budget: int, now: nat, declared: Option<nat>, chunked: bool, socketBytes: nat)
    ensures var r := NewRequest(budget, now, declared, chunked, socketBytes);
            RequestOk(budget, now, r) && Share(r) == InitialReservation(budget, declared, chunked)
  {
  }

  lemma ArriveKeepsInv(budget: int, s: State, declared: Option<nat>, chunked: bool, socketBytes: nat)
    requires Inv(budget, s)
    ensures Inv(budget, Next(budget, s, Arrive(declared, chunked, socketBytes)))
  {
    var r := NewRequest(budget, s.now, declared, chunked, socketBytes);
    NewRequestOk(budget, s.now, declared, chunked, socketBytes);
    LiveSumAppend(s.reqs, r);
    var s' := Next(budget, s, Arrive(declared, chunked, socketBytes));
    if Admits(budget, s, declared, chunked) {
      assert s'.reqs == s.reqs + [r];
      forall i | 0 <= i < |s'.reqs| ensures RequestOk(budget, s.now, s'.reqs[i]) {
        if i < |s.reqs| {
          assert s'.reqs[i] == s.reqs[i];
        }
      }
    }
  }

  lemma StepKeepsInv(budget: int, s: State, e: Event)
    requires Inv(budget, s) && Enabled(s, e)
    ensures Inv(budget, Next(budget, s, e))
  {
    match e
    case Tick(_) =>
    case Arrive(declared, chunked, socketBytes) => ArriveKeepsInv(budget, s, declared, chunked, socketBytes);
    case On(id, what) => OnKeepsInv(budget, s, id, what);
  }

  lemma {:induction false} RunKeepsInv(budget: int, states: seq<State>, events: seq<Event>, n: nat)
    requires IsRun(budget, states, events) && n < |states|
    ensures Inv(budget, states[n])
  {
    if n == 0 {
    } else {
      RunKeepsInv(budget, states, events, n - 1);
      StepKeepsInv(budget, states[n - 1], events[n - 1]);
    }
  }

  /**
    In every reachable state a live request is watched as long as some of its body is expected: it
    is neither complete nor ended, and it declared more bytes than its socket has received, or is
    chunked. And only live requests that have not ended are watched, a declared one only until a
    poll has counted all of it.
   */
  lemma ExpectedBodyIsWatched(budget: int, states: seq<State>, events: seq<Event>, n: nat, id: nat)
    requires IsRun(budget, states, events) && n < |states| && id < |states[n].reqs|
    ensures var r := states[n].reqs[id];
            && (!r.released && !r.complete && !r.ended ==>
                  && (r.declared.Some? && r.bytesRead - r.startBytes < r.declared.value ==> r.armed)
                  && (r.declared.None? && r.chunked ==> r.armed))
            && (r.armed ==> !r.released && !r.ended && r.reserved > 0)
            && (r.armed && r.declared.Some? ==> r.lastBytes - r.startBytes < r.declared.value)
  {
    RunKeepsInv(budget, states, events, n);
    assert RequestOk(budget, states[n].now, states[n].reqs[id]);
  }

  // ---------------------------------------------------------------- conservation and safety

  /** In every reachable state the counter is the sum of the reservations that are still held. */
  lemma Conservation(budget: int, states: seq<State>, events: seq<Event>, n: nat)
    requires IsRun(budget, states, events) && n < |states|
    ensures states[n].inFlight == LiveSum(states[n].reqs)
  {
    RunKeepsInv(budget, states, events, n);
  }

  /**
    Budget safety: after every completed step of every run the aggregate is between 0 and the
    budget (a negative budget admits nothing, so the aggregate stays 0).
   */
  lemma BudgetSafety(budget: int, states: seq<State>, events: seq<Event>, n: nat)
    requires IsRun(budget, states, events) && n < |states|
    ensures 0 <= states[n].inFlight <= Max(0, budget)
    ensures budget < 0 ==> states[n].reqs == [] && states[n].inFlight == 0
  {
    RunKeepsInv(budget, states, events, n);
  }

  /**
    In every reachable state, with a budget of at least 0: a request that reserves nothing is
    admitted, one that declares more than the whole budget is refused, and any other is admitted
    exactly when its reservation fits beside those still held. A chunked body never needs more than
    1 MiB of room to begin, and an idle server begins one for every positive budget.
   */
  lemma AdmissionDecision(budget: int, states: seq<State>, events: seq<Event>, n: nat,
                          declared: Option<nat>, chunked: bool)
    requires IsRun(budget, states, events) && n < |states| && 0 <= budget
    ensures declared == Some(0) || (declared.None? && !chunked) ==> Admits(budget, states[n], declared, chunked)
    ensures declared.Some? && declared.value > budget ==> !Admits(budget, states[n], declared, chunked)
    ensures declared.Some? ==>
              (Admits(budget, states[n], declared, chunked) <==> LiveSum(states[n].reqs) + declared.value <= budget)
    ensures declared.None? && chunked ==>
              (Admits(budget, states[n], declared, chunked) <==>
               LiveSum(states[n].reqs)
               + (if budget <= 1 then 1 else if budget < 1048576 then budget else 1048576) <= budget)
  {
    RunKeepsInv(budget, states, events, n);
  }

  /** With a budget of 0 every reachable state refuses every request that reserves anything, and admits all others. */
  lemma ZeroBudgetAdmitsEmptyOnly(states: seq<State>, events: seq<Event>, n: nat, declared: Option<nat>, chunked: bool)
    requires IsRun(0, states, events) && n < |states|
    ensures Admits(0, states[n], declared, chunked) <==> InitialReservation(0, declared, chunked) == 0
  {
    BudgetSafety(0, states, events, n);
  }

  /** No reachable state admits a request that reserves anything. */
  ghost predicate RefusesEveryBody(budget: int) {
    forall states, events, n: nat, declared, chunked ::
      IsRun(budget, states, events) && n < |states| && Admits(budget, states[n], declared, chunked)
      ==> InitialReservation(budget, declared, chunked) == 0
  }

  lemma RefusesEveryBodyIff(budget: nat)
    ensures RefusesEveryBody(budget) <==> budget == 0
  {
    if budget == 0 {
      forall states, events, n: nat, declared, chunked |
        IsRun(budget, states, events) && n < |states| && Admits(budget, states[n], declared, chunked)
        ensures InitialReservation(budget, declared, chunked) == 0
      {
        ZeroBudgetAdmitsEmptyOnly(states, events, n, declared, chunked);
      }
    } else {
      assert IsRun(budget, [INITIAL], []);
      assert Admits(budget, [INITIAL][0], Some(1), false);
    }
  }

  // ---------------------------------------------------------------- the counter-free controller

  /**
    The controller one would write without a counter: it recomputes the sum of the live
    reservations whenever it has to decide. A poll first re-prices the request and then asks
    whether everything still fits.
   */
  datatype SimpleState = SimpleState(now: nat, reqs: seq<Request>)

  function Forget(s: State): SimpleState {
    SimpleState(s.now, s.reqs)
  }

  ghost predicate SimpleAdmits(budget: int, s: SimpleState, declared: Option<nat>, chunked: bool) {
    LiveSum(s.reqs) + InitialReservation(budget, declared, chunked) <= budget
  }

  function Closed(r: Request): Request {
    r.(released := true, armed := false)
  }

  /** What a poll that saw new bytes notes down, before any decision. */
  function Noted(budget: int, now: nat, r: Request): Request {
    var r1 := r.(lastBytes := r.bytesRead, lastProgress := now);
    r1.(reserved := Price(budget, r1), armed := Outstanding(r))
  }

  ghost function SimplePoll(budget: int, s: SimpleState, id: nat): Request
    requires id < |s.reqs|
  {
    var r := s.reqs[id].(due := s.now + STALL_POLL_MS);
    if r.complete then r.(armed := false)
    else if r.bytesRead != r.lastBytes then
      var noted := Noted(budget, s.now, r);
      if LiveSum(s.reqs[id := noted]) <= budget then noted
      else Closed(noted).(destroyed := Some(OverBudget))
    else if s.now - r.lastProgress >= STALL_TIMEOUT_MS then
      Closed(r).(destroyed := Some(Stalled))
    else r
  }

  ghost function SimpleNext(budget: int, s: SimpleState, e: Event): SimpleState
    requires e.On? ==> e.id < |s.reqs|
  {
    match e
    case Arrive(declared, chunked, socketBytes) =>
      if SimpleAdmits(budget, s, declared, chunked) then
        s.(reqs := s.reqs + [NewRequest(budget, s.now, declared, chunked, socketBytes)])
      else s
    case Tick(ms) => s.(now := s.now + ms)
    case On(id, what) =>
      var r := s.reqs[id];
      var r' := match what
        case Bytes(n) => r.(bytesRead := r.bytesRead + n)
        case MessageComplete => r.(complete := true)
        case EndEvent => r.(ended := true, armed := false)
        case Terminal(_) => Closed(r)
        case Poll => SimplePoll(budget, s, id);
      s.(reqs := s.reqs[id := r'])
  }

  lemma StepRefinesSimple(budget: int, s: State, e: Event)
    requires Inv(budget, s) && Enabled(s, e)
    ensures Forget(Next(budget, s, e)) == SimpleNext(budget, Forget(s), e)
  {
    if e.On? {
      var r := s.reqs[e.id].(due := s.now + STALL_POLL_MS);
      LiveSumUpdate(s.reqs, e.id, Noted(budget, s.now, r));
      ShareAtMostSum(s.reqs, e.id);
      assert RequestOk(budget, s.now, s.reqs[e.id]);
    }
  }

  ghost predicate IsSimpleRun(budget: int, states: seq<SimpleState>, events: seq<Event>) {
    && |states| == |events| + 1
    && states[0] == SimpleState(0, [])
    && forall i :: 0 <= i < |events| ==>
                     && (events[i].On? ==> events[i].id < |states[i].reqs|)
                     && states[i + 1] == SimpleNext(budget, states[i], events[i])
  }

  /** A run without its counter. */
  function ForgetAll(states: seq<State>): (simple: seq<SimpleState>)
    ensures |simple| == |states|
    ensures forall i :: 0 <= i < |states| ==> simple[i] == Forget(states[i])
  {
    seq(|states|, i requires 0 <= i < |states| => Forget(states[i]))
  }

  /**
    Refinement over runs: every run of the counter-keeping code, its counter struck out, is a run
    of the counter-free controller on the same events. So every admission, every refusal, every
    release and every aborted body is the one that controller chooses.
   */
  lemma RefinesSimpleController(budget: int, states: seq<State>, events: seq<Event>)
    requires IsRun(budget, states, events)
    ensures IsSimpleRun(budget, ForgetAll(states), events)
  {
    var simple := ForgetAll(states);
    forall i | 0 <= i < |events|
      ensures events[i].On? ==> events[i].id < |simple[i].reqs|
      ensures simple[i + 1] == SimpleNext(budget, simple[i], events[i])
    {
      RunKeepsInv(budget, states, events, i);
      StepRefinesSimple(budget, states[i], events[i]);
    }
  }

  /** Conversely, that is the only run the counter-free controller has on these events. */
  lemma {:induction false} SimpleRunIsUnique(
    budget: int, states: seq<State>, simple: seq<SimpleState>, events: seq<Event>, n: nat)
    requires IsRun(budget, states, events) && IsSimpleRun(budget, simple, events) && n < |states|
    ensures simple[n] == ForgetAll(states)[n]
  {
    if n == 0 {
    } else {
      RefinesSimpleController(budget, states, events);
      SimpleRunIsUnique(budget, states, simple, events, n - 1);
    }
  }

  /** In particular the two admit the same requests, whatever has happened before. */
  lemma SameAdmissions(
    budget: int, states: seq<State>, events: seq<Event>, n: nat, declared: Option<nat>, chunked: bool)
    requires IsRun(budget, states, events) && n < |states|
    ensures IsSimpleRun(budget, ForgetAll(states), events)
    ensures Admits(budget, states[n], declared, chunked) <==>
            SimpleAdmits(budget, ForgetAll(states)[n], declared, chunked)
  {
    RefinesSimpleController(budget, states, events);
    Conservation(budget, states, events, n);
  }

  // ---------------------------------------------------------------- exactly-once release

  /** Does step `i` of a run belong to request `id`: its admission, or an event of its own? */
  ghost predicate StepOf(states: seq<State>, events: seq<Event>, i: nat, id: nat)
    requires i < |events| && |states| == |events| + 1
  {
    match events[i]
    case Arrive(_, _, _) => |states[i].reqs| == id < |states[i + 1].reqs|
    case Tick(_) => false
    case On(other, _) => other == id
  }

  /** The ledger of one request: everything its own steps added to the counter and took from it. */
  ghost function Ledger(states: seq<State>, events: seq<Event>, n: nat, id: nat): int
    requires |states| == |events| + 1 && n < |states|
  {
    if n == 0 then 0
    else Ledger(states, events, n - 1, id)
         + if StepOf(states, events, n - 1, id) then states[n].inFlight - states[n - 1].inFlight else 0
  }

  /** The part of the invariant that concerns one request and one step of its own. */
  lemma OwnStep(budget: int, s: State, id: nat, h: Happening)
    requires Inv(budget, s) && Enabled(s, On(id, h))
    ensures var s' := Next(budget, s, On(id, h));
            && s'.inFlight - s.inFlight == Share(s'.reqs[id]) - Share(s.reqs[id])
            && RequestOk(budget, s.now, s'.reqs[id])
  {
    ShareAtMostSum(s.reqs, id);
    HandlerKeeps(budget, s.now, Cell(s.inFlight, s.reqs[id]), h);
  }

  /**
    Exactly-once release. Whatever finish, close and error events, stall reaps and over-budget
    aborts a request meets, in whatever order, its own steps have moved the counter by exactly
    what it still holds: its reservation while it is live, and nothing once it is released.
   */
  lemma {:induction false} LedgerBalances(
    budget: int, states: seq<State>, events: seq<Event>, n: nat, id: nat)
    requires IsRun(budget, states, events) && n < |states|
    ensures Ledger(states, events, n, id) == if id < |states[n].reqs| then Share(states[n].reqs[id]) else 0
  {
    if n == 0 {
    } else {
      LedgerBalances(budget, states, events, n - 1, id);
      RunKeepsInv(budget, states, events, n - 1);
      if events[n - 1].On? && events[n - 1].id == id {
        OwnStep(budget, states[n - 1], id, events[n - 1].what);
      }
    }
  }

  lemma HandlerKeepsClosed(budget: int, now: nat, c: Cell, h: Happening)
    requires c.r.released && !c.r.armed && !h.Poll?
    ensures var c' := HandleCell(budget, now, c, h);
            && c'.inFlight == c.inFlight && c'.r.released && !c'.r.armed
            && c'.r.reserved == c.r.reserved && c'.r.destroyed == c.r.destroyed
  {
  }

  /** A released request is closed for good: no later event changes its reservation, timer or fate. */
  lemma {:induction false} ReleasedStaysReleased(
    budget: int, states: seq<State>, events: seq<Event>, m: nat, n: nat, id: nat)
    requires IsRun(budget, states, events) && m <= n < |states|
    requires id < |states[m].reqs| && states[m].reqs[id].released
    ensures id < |states[n].reqs|
    ensures var r, r' := states[m].reqs[id], states[n].reqs[id];
            r'.released && !r'.armed && r'.reserved == r.reserved && r'.destroyed == r.destroyed
    decreases n
  {
    if m == n {
      RunKeepsInv(budget, states, events, m);
      assert RequestOk(budget, states[m].now, states[m].reqs[id]);
    } else {
      ReleasedStaysReleased(budget, states, events, m, n - 1, id);
      var s, e := states[n - 1], events[n - 1];
      if e.On? && e.id == id {
        HandlerKeepsClosed(budget, s.now, Cell(s.inFlight, s.reqs[id]), e.what);
      }
    }
  }

  /** From its release on, a request's own steps leave the counter exactly as they found it before its admission. */
  lemma ReleasedLedgerIsZero(budget: int, states: seq<State>, events: seq<Event>, m: nat, n: nat, id: nat)
    requires IsRun(budget, states, events) && m <= n < |states|
    requires id < |states[m].reqs| && states[m].reqs[id].released
    ensures Ledger(states, events, n, id) == 0
  {
    ReleasedStaysReleased(budget, states, events, m, n, id);
    LedgerBalances(budget, states, events, n, id);
  }

  /** What no handler takes back: the headers stand, counters only grow, flags stay set. */
  ghost predicate Grows(r: Request, r': Request) {
    && r'.declared == r.declared && r'.chunked == r.chunked && r'.startBytes == r.startBytes
    && r.bytesRead <= r'.bytesRead && r.lastBytes <= r'.lastBytes
    && (r.released ==> r'.released) && (r.complete ==> r'.complete) && (r.ended ==> r'.ended)
  }

  lemma ProgressGrows(budget: int, now: nat, c: Cell)
    requires c.r.lastBytes <= c.r.bytesRead
    ensures Grows(c.r, ProgressCell(budget, now, c).r)
  {
  }

  lemma HandlerGrows(budget: int, now: nat, c: Cell, h: Happening)
    requires c.r.lastBytes <= c.r.bytesRead
    ensures Grows(c.r, HandleCell(budget, now, c, h).r)
  {
    if h.Poll? {
      ProgressGrows(budget, now, Fired(c, now));
    }
  }

  /** No request is dropped from the books, and what its records show only grows. */
  lemma {:induction false} RequestsPersist(
    budget: int, states: seq<State>, events: seq<Event>, m: nat, n: nat, id: nat)
    requires IsRun(budget, states, events) && m <= n < |states| && id < |states[m].reqs|
    ensures id < |states[n].reqs|
    ensures Grows(states[m].reqs[id], states[n].reqs[id])
    ensures states[m].now <= states[n].now
    decreases n
  {
    if m == n {
    } else {
      RequestsPersist(budget, states, events, m, n - 1, id);
      RunKeepsInv(budget, states, events, n - 1);
      assert RequestOk(budget, states[n - 1].now, states[n - 1].reqs[id]);
      var s, e := states[n - 1], events[n - 1];
      if e.On? && e.id == id {
        HandlerGrows(budget, s.now, Cell(s.inFlight, s.reqs[id]), e.what);
      }
    }
  }

  ghost predicate HadTerminalEvent(events: seq<Event>, id: nat) {
    exists i :: 0 <= i < |events| && events[i].On? && events[i].id == id && events[i].what.Terminal?
  }

  /** Quiescence: once every admitted request has had one terminal event, nothing is in flight. */
  lemma Quiescence(budget: int, states: seq<State>, events: seq<Event>)
    requires IsRun(budget, states, events)
    requires forall id :: 0 <= id < |states[|events|].reqs| ==> HadTerminalEvent(events, id)
    ensures states[|events|].inFlight == 0
  {
    var end := states[|events|];
    forall id | 0 <= id < |end.reqs| ensures Share(end.reqs[id]) == 0 {
      assert HadTerminalEvent(events, id);
      var i :| 0 <= i < |events| && events[i].On? && events[i].id == id && events[i].what.Terminal?;
      ReleasedStaysReleased(budget, states, events, i + 1, |events|, id);
    }
    SumZero(end.reqs);
    Conservation(budget, states, events, |events|);
  }

  // ---------------------------------------------------------------- chunked bodies

  predicate IsChunked(r: Request) {
    r.declared.None? && r.chunked
  }

  /**
    A chunked request is charged, throughout its life, the larger of the opening reservation and
    what its last counting poll saw, and that charge never goes down.
   */
  lemma ChunkedReservation(budget: int, states: seq<State>, events: seq<Event>, m: nat, n: nat, id: nat)
    requires IsRun(budget, states, events) && m <= n < |states|
    requires id < |states[m].reqs| && IsChunked(states[m].reqs[id])
    ensures id < |states[n].reqs|
    ensures var r, r' := states[m].reqs[id], states[n].reqs[id];
            && r'.reserved == Max(Opening(budget), r'.lastBytes - r'.startBytes)
            && r.reserved <= r'.reserved
  {
    RunKeepsInv(budget, states, events, m);
    RunKeepsInv(budget, states, events, n);
    RequestsPersist(budget, states, events, m, n, id);
    assert RequestOk(budget, states[n].now, states[n].reqs[id]);
    assert RequestOk(budget, states[m].now, states[m].reqs[id]);
  }

  predicate LiveChunked(r: Request) {
    IsChunked(r) && !r.released
  }

  /** Bytes that counting polls have seen, over all live chunked requests. */
  ghost function CountedChunkedBytes(reqs: seq<Request>): int {
    if reqs == [] then 0
    else
      var r := reqs[|reqs| - 1];
      CountedChunkedBytes(reqs[..|reqs| - 1]) + if LiveChunked(r) then r.lastBytes - r.startBytes else 0
  }

  ghost function LiveChunkedCount(reqs: seq<Request>): nat {
    if reqs == [] then 0
    else LiveChunkedCount(reqs[..|reqs| - 1]) + if LiveChunked(reqs[|reqs| - 1]) then 1 else 0
  }

  lemma {:induction false} ChunkedWithinSum(opening: nat, reqs: seq<Request>)
    requires forall i :: 0 <= i < |reqs| && LiveChunked(reqs[i]) ==>
                           opening <= reqs[i].reserved && reqs[i].lastBytes - reqs[i].startBytes <= reqs[i].reserved
    ensures CountedChunkedBytes(reqs) <= LiveSum(reqs)
    ensures LiveChunkedCount(reqs) * opening <= LiveSum(reqs)
  {
    if reqs == [] {
    } else {
      ChunkedWithinSum(opening, reqs[..|reqs| - 1]);
      var k := LiveChunkedCount(reqs[..|reqs| - 1]);
      assert (k + 1) * opening == k * opening + opening;
    }
  }

  /**
    In every reachable state the bytes polls have counted for live chunked requests fit the
    budget together, and so do that many opening reservations.
   */
  lemma ChunkedBodiesFit(budget: int, states: seq<State>, events: seq<Event>, n: nat)
    requires IsRun(budget, states, events) && n < |states|
    ensures CountedChunkedBytes(states[n].reqs) <= Max(0, budget)
    ensures LiveChunkedCount(states[n].reqs) * Opening(budget) <= Max(0, budget)
  {
    RunKeepsInv(budget, states, events, n);
    var reqs := states[n].reqs;
    forall i | 0 <= i < |reqs| && LiveChunked(reqs[i])
      ensures Opening(budget) <= reqs[i].reserved && reqs[i].lastBytes - reqs[i].startBytes <= reqs[i].reserved
    {
      assert RequestOk(budget, states[n].now, reqs[i]);
    }
    ChunkedWithinSum(Opening(budget), reqs);
  }

  /** A poll of a live chunked request, on its record alone. */
  lemma PollOfChunked(budget: int, s: State, id: nat)
    requires Inv(budget, s) && Enabled(s, On(id, Poll)) && IsChunked(s.reqs[id])
    ensures var r, r' := s.reqs[id], Next(budget, s, On(id, Poll)).reqs[id];
            var received := r.bytesRead - r.startBytes;
            !r'.released ==> (received <= r'.reserved <==> !r.complete || received <= r.reserved)
  {
    assert RequestOk(budget, s.now, s.reqs[id]);
  }

  /**
    Does a poll leave a chunked body charged for all its socket has received since admission?
    Unless the poll aborts the request, exactly when the message was not yet complete, or the
    charge already covered it. (Body bytes that came in one segment with the headers are read
    before admission, and no counter of the middleware shows them.)
   */
  lemma ChunkedChargeCoversBodyIff(budget: int, states: seq<State>, events: seq<Event>, i: nat, id: nat)
    requires IsRun(budget, states, events) && i < |events| && events[i] == On(id, Poll)
    requires IsChunked(states[i].reqs[id])
    ensures id < |states[i + 1].reqs|
    ensures var r, r' := states[i].reqs[id], states[i + 1].reqs[id];
            var received := r.bytesRead - r.startBytes;
            !r'.released ==> (received <= r'.reserved <==> !r.complete || received <= r.reserved)
  {
    RunKeepsInv(budget, states, events, i);
    PollOfChunked(budget, states[i], id);
  }

  lemma HandlerKeepsUnwatched(budget: int, now: nat, c: Cell, h: Happening)
    requires !c.r.armed && !h.Poll?
    ensures var r' := HandleCell(budget, now, c, h).r; !r'.armed && r'.reserved == c.r.reserved
  {
  }

  /** A request that is not watched any more is never watched again, and its charge stays what it is. */
  lemma {:induction false} UnwatchedChargeIsFinal(
    budget: int, states: seq<State>, events: seq<Event>, m: nat, n: nat, id: nat)
    requires IsRun(budget, states, events) && m <= n < |states|
    requires id < |states[m].reqs| && !states[m].reqs[id].armed
    ensures id < |states[n].reqs|
    ensures !states[n].reqs[id].armed && states[n].reqs[id].reserved == states[m].reqs[id].reserved
    decreases n
  {
    if m == n {
    } else {
      UnwatchedChargeIsFinal(budget, states, events, m, n - 1, id);
      var s, e := states[n - 1], events[n - 1];
      if e.On? && e.id == id {
        HandlerKeepsUnwatched(budget, s.now, Cell(s.inFlight, s.reqs[id]), e.what);
      }
    }
  }

  /** The one step that stops the watch on a live chunked request, on its record alone. */
  lemma DisarmOfChunked(budget: int, now: nat, c: Cell, h: Happening)
    requires RequestOk(budget, now, c.r) && IsChunked(c.r) && c.r.armed
    requires var r' := HandleCell(budget, now, c, h).r; !r'.armed && !r'.released
    ensures h.EndEvent? || (h.Poll? && c.r.complete)
    ensures HandleCell(budget, now, c, h).r.reserved == c.r.reserved
  {
  }

  /**
    The final charge of a chunked body. The watch on it ends, short of a release, only with the
    `end` event or with a poll that finds the message complete; that step counts nothing, and the
    charge of the moment before it stands in every later state. So the body is undercharged from
    then on exactly when it had by then received more than that charge.
   */
  lemma FinalChunkedCharge(budget: int, states: seq<State>, events: seq<Event>, i: nat, n: nat, id: nat)
    requires IsRun(budget, states, events) && i < n < |states|
    requires id < |states[i].reqs| && IsChunked(states[i].reqs[id]) && states[i].reqs[id].armed
    requires id < |states[i + 1].reqs| && !states[i + 1].reqs[id].armed && !states[i + 1].reqs[id].released
    ensures events[i] == On(id, EndEvent) || (events[i] == On(id, Poll) && states[i].reqs[id].complete)
    ensures id < |states[n].reqs|
    ensures states[n].reqs[id].reserved == states[i].reqs[id].reserved
  {
    var s, e := states[i], events[i];
    RunKeepsInv(budget, states, events, i);
    assert RequestOk(budget, s.now, s.reqs[id]);
    if e.On? && e.id == id {
      DisarmOfChunked(budget, s.now, Cell(s.inFlight, s.reqs[id]), e.what);
    }
    UnwatchedChargeIsFinal(budget, states, events, i + 1, n, id);
  }

  /**
    The aggregate does not bound the bytes received: for every positive budget and every size
    there is a run in which a live chunked body of that size is charged the opening reservation
    alone, because it was complete before the poll that would have counted it, and that poll only
    disarms the reaper. By `FinalChunkedCharge` the charge stays so until the request is released.
   */
  lemma UncountedChunkedBody(budget: int, size: nat) returns (states: seq<State>, events: seq<Event>)
    requires 1 <= budget
    ensures IsRun(budget, states, events)
    ensures var s := states[|events|];
            && |s.reqs| == 1 && IsChunked(s.reqs[0]) && s.reqs[0].complete
            && !s.reqs[0].released && !s.reqs[0].armed
            && s.reqs[0].bytesRead - s.reqs[0].startBytes == size
            && s.inFlight == Opening(budget)
  {
    events := [Arrive(None, true, 0), On(0, Bytes(size)), On(0, MessageComplete), Tick(STALL_POLL_MS), On(0, Poll)];
    var s1 := Next(budget, INITIAL, events[0]);
    var s2 := Next(budget, s1, events[1]);
    var s3 := Next(budget, s2, events[2]);
    var s4 := Next(budget, s3, events[3]);
    var s5 := Next(budget, s4, events[4]);
    states := [INITIAL, s1, s2, s3, s4, s5];
  }
}
