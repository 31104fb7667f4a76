/**
  The stall reaper of the in-flight body budget over timed runs. Soundness needs nothing of the
  timers beyond their never firing early; completeness bounds how long a silent sender can hold
  its reservation when every firing is at most `late` milliseconds overdue.
 */
module InflightReaper {
  import opened Options
  import opened InflightProtocol
  import opened InflightAccounting

  // ---------------------------------------------------------------- soundness

  /** From state `j` to state `i` the socket counter of the request did not move. */
  ghost predicate QuietBetween(states: seq<State>, j: nat, i: nat, id: nat)
    requires j <= i < |states|
  {
    forall k :: j <= k <= i ==>
                  id < |states[k].reqs| && id < |states[i].reqs|
                  && states[k].reqs[id].bytesRead == states[i].reqs[id].bytesRead
  }

  /** Step `i` of the run calls `req.destroy()` on request `id` for stalling. */
  ghost predicate StallReapedAt(states: seq<State>, i: nat, id: nat)
    requires i + 1 < |states|
  {
    && id < |states[i + 1].reqs|
    && states[i + 1].reqs[id].destroyed == Some(Stalled)
    && (id < |states[i].reqs| ==> states[i].reqs[id].destroyed != Some(Stalled))
  }

  /** A step leaves a request's last progress alone or sets it to the present. */
  lemma StepProgress(budget: int, s: State, e: Event, id: nat)
    requires Enabled(s, e) && id < |s.reqs|
    ensures var s' := Next(budget, s, e);
            var r, r' := s.reqs[id], s'.reqs[id];
            || (r'.lastProgress == r.lastProgress && r'.lastBytes == r.lastBytes)
            || (r'.lastProgress == s'.now && r'.lastBytes == r'.bytesRead)
  {
    if e.On? && e.id == id {
      var c := HandleCell(budget, s.now, Cell(s.inFlight, s.reqs[id]), e.what);
      assert Next(budget, s, e).reqs[id] == c.r;
    }
  }

  /** `lastProgress` and `lastBytes` are the clock and the counter of one earlier state of the run. */
  lemma {:induction false} ProgressWitness(
    budget: int, states: seq<State>, events: seq<Event>, n: nat, id: nat)
    returns (j: nat)
    requires IsRun(budget, states, events) && n < |states| && id < |states[n].reqs|
    ensures j <= n && id < |states[j].reqs|
    ensures states[j].now == states[n].reqs[id].lastProgress
    ensures states[j].reqs[id].bytesRead == states[n].reqs[id].lastBytes
  {
    if n == 0 || id >= |states[n - 1].reqs| {
      j := n;
    } else {
      StepProgress(budget, states[n - 1], events[n - 1], id);
      var r := states[n].reqs[id];
      if r.lastProgress == states[n].now && r.lastBytes == r.bytesRead {
        j := n;
      } else {
        j := ProgressWitness(budget, states, events, n - 1, id);
      }
    }
  }

  /**
    Reaper soundness: in every run, whatever the timers do, a request is destroyed for stalling
    only by its own poll, only while its body is outstanding (not complete, not ended, and if
    declared not yet fully counted), and only if its socket counter has not moved over a window of
    at least 15000 ms that ends at that poll.
   */
  lemma StallReapedOnlyWhenIdle(budget: int, states: seq<State>, events: seq<Event>, i: nat, id: nat)
    requires IsRun(budget, states, events) && i < |events|
    requires StallReapedAt(states, i, id)
    ensures id < |states[i].reqs| && events[i] == On(id, Poll)
    ensures Outstanding(states[i].reqs[id]) && !states[i].reqs[id].released
    ensures exists j: nat :: j <= i && states[i].now - states[j].now >= 15000
                             && QuietBetween(states, j, i, id)
  {
    RunKeepsInv(budget, states, events, i);
    var s, r := states[i], states[i].reqs[id];
    assert RequestOk(budget, s.now, r);
    var j := ProgressWitness(budget, states, events, i, id);
    forall k | j <= k <= i
      ensures id < |states[k].reqs| && states[k].reqs[id].bytesRead == r.bytesRead
    {
      RequestsPersist(budget, states, events, j, k, id);
      RequestsPersist(budget, states, events, k, i, id);
    }
    assert QuietBetween(states, j, i, id);
  }

  /**
    Up to state `n`, while the request is live: between any two states at least 15000 ms apart the
    counter moved, unless the body is in by then.
   */
  ghost predicate KeepsMoving(states: seq<State>, n: nat, id: nat)
    requires n < |states|
  {
    forall j: nat, i: nat ::
      j <= i <= n && id < |states[j].reqs| && id < |states[i].reqs|
      && !states[i].reqs[id].released && states[i].now - states[j].now >= 15000
      ==> !Outstanding(states[i].reqs[id]) || states[i].reqs[id].bytesRead != states[j].reqs[id].bytesRead
  }

  /** A sender that moves in every 15000 ms window, or whose body is in, is never stall-reaped. */
  lemma {:induction false} MovingSenderSurvives(
    budget: int, states: seq<State>, events: seq<Event>, n: nat, id: nat)
    requires IsRun(budget, states, events) && n < |states| && id < |states[n].reqs|
    requires KeepsMoving(states, n, id)
    ensures states[n].reqs[id].destroyed != Some(Stalled)
  {
    if n == 0 {
    } else {
      if id < |states[n - 1].reqs| {
        MovingSenderSurvives(budget, states, events, n - 1, id);
      }
      if states[n].reqs[id].destroyed == Some(Stalled) {
        StallReapedOnlyWhenIdle(budget, states, events, n - 1, id);
      }
    }
  }

  // ---------------------------------------------------------------- completeness

  /** From state `from` to state `n` no firing of this request's timer is more than `late` ms overdue. */
  ghost predicate Punctual(states: seq<State>, from: nat, n: nat, id: nat, late: nat)
    requires n < |states|
  {
    forall k :: from <= k <= n && id < |states[k].reqs| && states[k].reqs[id].armed ==>
                  states[k].now <= states[k].reqs[id].due + late
  }

  /** From state `from` to state `n` the sender, while its request is live, is silent with its body outstanding. */
  ghost predicate Silent(states: seq<State>, from: nat, n: nat, id: nat)
    requires from <= n < |states|
  {
    forall k :: from <= k <= n ==>
                  && id < |states[from].reqs| && id < |states[k].reqs|
                  && var r := states[k].reqs[id];
                     !r.released ==>
                       && r.bytesRead == states[from].reqs[id].bytesRead
                       && !r.complete && !r.ended
                       && match r.declared
                          case Some(length) => r.bytesRead - r.startBytes < length
                          case None => r.chunked
  }

  /** What silence says about one step. */
  lemma StaysSilent(states: seq<State>, from: nat, n: nat, k: nat, id: nat)
    requires from <= k < n < |states| && Silent(states, from, n, id)
    ensures id < |states[k].reqs| && id < |states[k + 1].reqs|
    ensures !states[k].reqs[id].released ==>
              && Outstanding(states[k].reqs[id])
              && (!states[k + 1].reqs[id].released ==>
                    && Outstanding(states[k + 1].reqs[id])
                    && states[k + 1].reqs[id].bytesRead == states[k].reqs[id].bytesRead)
  {
  }

  /**
    The measure of the reaper: `polls` counts the firings since the silence began. Every one moves
    `due` at least a period past the last progress and at most a period and a delay past the
    previous `due`; the fourth finds the timeout passed.
   */
  ghost predicate Countdown(r: Request, origin: int, late: nat, polls: nat) {
    && r.armed && !r.released
    && polls <= 3
    && r.due <= origin + (polls + 1) * STALL_POLL_MS + polls * late
    && (polls > 0 ==> r.lastBytes == r.bytesRead && r.due >= r.lastProgress + polls * STALL_POLL_MS)
  }

  ghost predicate Counting(r: Request, origin: int, late: nat) {
    exists polls: nat :: Countdown(r, origin, late, polls)
  }

  /** One firing of the timer on a silent request either advances the count or reaps the request. */
  lemma PollAdvancesCountdown(budget: int, s: State, id: nat, origin: int, late: nat, polls: nat)
    requires Inv(budget, s) && Enabled(s, On(id, Poll))
    requires Outstanding(s.reqs[id]) && s.now <= s.reqs[id].due + late
    requires Countdown(s.reqs[id], origin, late, polls)
    ensures var r' := Next(budget, s, On(id, Poll)).reqs[id];
            r'.released || (polls < 3 && Countdown(r', origin, late, polls + 1))
  {
    assert RequestOk(budget, s.now, s.reqs[id]);
    var r' := Next(budget, s, On(id, Poll)).reqs[id];
    if polls == 0 && s.reqs[id].bytesRead != s.reqs[id].lastBytes {
      assert r'.released || Countdown(r', origin, late, 1);
    }
  }

  /** No step of any request disturbs the countdown of a silent one. */
  lemma StepCountdown(budget: int, s: State, e: Event, s': State, id: nat, origin: int, late: nat)
    requires Inv(budget, s) && Enabled(s, e) && s' == Next(budget, s, e) && id < |s.reqs|
    requires Counting(s.reqs[id], origin, late) && s.now <= s.reqs[id].due + late
    requires Outstanding(s.reqs[id])
    requires id < |s'.reqs|
    requires s'.reqs[id].released
             || (Outstanding(s'.reqs[id]) && s'.reqs[id].bytesRead == s.reqs[id].bytesRead)
    ensures s'.reqs[id].released || Counting(s'.reqs[id], origin, late)
  {
    var r' := s'.reqs[id];
    var polls: nat :| Countdown(s.reqs[id], origin, late, polls);
    if e == On(id, Poll) {
      PollAdvancesCountdown(budget, s, id, origin, late, polls);
    } else if !r'.released {
      assert Countdown(r', origin, late, polls);
    }
  }

  lemma CountdownRuns(
    budget: int, states: seq<State>, events: seq<Event>, from: nat, n: nat, id: nat, origin: int, late: nat)
    requires IsRun(budget, states, events) && from <= n < |states|
    requires Silent(states, from, n, id) && Punctual(states, from, n, id, late)
    requires Counting(states[from].reqs[id], origin, late)
    ensures id < |states[n].reqs|
    ensures states[n].reqs[id].released || Counting(states[n].reqs[id], origin, late)
  {
    for k := from to n
      invariant id < |states[k].reqs|
      invariant states[k].reqs[id].released || Counting(states[k].reqs[id], origin, late)
    {
      StaysSilent(states, from, n, k, id);
      if states[k].reqs[id].released {
        ReleasedStaysReleased(budget, states, events, k, k + 1, id);
      } else {
        RunKeepsInv(budget, states, events, k);
        StepCountdown(budget, states[k], events[k], states[k + 1], id, origin, late);
      }
    }
  }

  lemma CountdownBound(
    budget: int, states: seq<State>, events: seq<Event>, from: nat, n: nat, id: nat, origin: int, late: nat)
    requires IsRun(budget, states, events) && from <= n < |states|
    requires Silent(states, from, n, id) && Punctual(states, from, n, id, late)
    requires Counting(states[from].reqs[id], origin, late)
    ensures states[n].reqs[id].released || states[n].now <= origin + 4 * (STALL_POLL_MS + late)
  {
    CountdownRuns(budget, states, events, from, n, id, origin, late);
    if !states[n].reqs[id].released {
      var polls: nat :| Countdown(states[n].reqs[id], origin, late, polls);
      assert (polls + 1) * STALL_POLL_MS + polls * late + late == (polls + 1) * (STALL_POLL_MS + late);
      assert (polls + 1) * (STALL_POLL_MS + late) <= 4 * (STALL_POLL_MS + late);
    }
  }

  /**
    Reaper completeness: if from some state on the sender is silent with its body outstanding and
    the timer is punctual to `late` ms, then every later state in which the reservation is still
    held lies within 4 * (5000 + late) ms of that state (20000 ms with exact timers), whatever all
    other requests do.
   */
  lemma SilentSenderIsReaped(
    budget: int, states: seq<State>, events: seq<Event>, from: nat, n: nat, id: nat, late: nat)
    requires IsRun(budget, states, events) && from <= n < |states|
    requires Silent(states, from, n, id) && Punctual(states, from, n, id, late)
    ensures id < |states[n].reqs|
    ensures states[n].reqs[id].released || states[n].now <= states[from].now + 4 * (5000 + late)
  {
    RunKeepsInv(budget, states, events, from);
    var r := states[from].reqs[id];
    assert RequestOk(budget, states[from].now, r);
    if r.released {
      ReleasedStaysReleased(budget, states, events, from, n, id);
    } else {
      assert Countdown(r, states[from].now, late, 0);
      CountdownBound(budget, states, events, from, n, id, states[from].now, late);
    }
  }

  /** If no byte arrives after admission at all, 3 * (5000 + late) ms suffice: 15000 ms with exact timers. */
  lemma SilentSinceAdmissionIsReaped(
    budget: int, states: seq<State>, events: seq<Event>, from: nat, n: nat, id: nat, late: nat)
    requires IsRun(budget, states, events) && 0 < from <= n < |states|
    requires |states[from - 1].reqs| == id < |states[from].reqs|
    requires Silent(states, from, n, id) && Punctual(states, from, n, id, late)
    ensures id < |states[n].reqs|
    ensures states[n].reqs[id].released || states[n].now <= states[from].now + 3 * (5000 + late)
  {
    var origin := states[from].now - STALL_POLL_MS - late;
    assert Countdown(states[from].reqs[id], origin, late, 1);
    CountdownBound(budget, states, events, from, n, id, origin, late);
  }

  /** A request that holds nothing never holds anything again. */
  lemma NothingHeldStaysSo(budget: int, states: seq<State>, events: seq<Event>, m: nat, n: nat, id: nat)
    requires IsRun(budget, states, events) && m <= n < |states|
    requires id < |states[m].reqs| && Share(states[m].reqs[id]) == 0
    ensures id < |states[n].reqs| && Share(states[n].reqs[id]) == 0
  {
    RunKeepsInv(budget, states, events, m);
    assert RequestOk(budget, states[m].now, states[m].reqs[id]);
    if states[m].reqs[id].released {
      ReleasedStaysReleased(budget, states, events, m, n, id);
    } else {
      UnwatchedChargeIsFinal(budget, states, events, m, n, id);
    }
  }

  lemma SilentSenderHoldsNothing(
    budget: int, states: seq<State>, events: seq<Event>, from: nat, n: nat, id: nat, late: nat)
    requires IsRun(budget, states, events) && from <= n < |states| && id < |states[from].reqs|
    requires Share(states[from].reqs[id]) > 0 ==>
               Silent(states, from, n, id) && Punctual(states, from, n, id, late)
    requires states[n].now > states[from].now + 4 * (5000 + late)
    ensures id < |states[n].reqs| && Share(states[n].reqs[id]) == 0
  {
    if Share(states[from].reqs[id]) > 0 {
      SilentSenderIsReaped(budget, states, events, from, n, id, late);
    } else {
      NothingHeldStaysSo(budget, states, events, from, n, id);
    }
  }

  /** What the requests outside a set hold together. */
  ghost function SumOutside(reqs: seq<Request>, ids: set<nat>): nat {
    if reqs == [] then 0
    else
      var last := |reqs| - 1;
      SumOutside(reqs[..last], ids) + if last in ids then 0 else Share(reqs[last])
  }

  lemma {:induction false} SumOutsideIsLiveSum(reqs: seq<Request>, ids: set<nat>)
    requires forall id :: id in ids && id < |reqs| ==> Share(reqs[id]) == 0
    ensures SumOutside(reqs, ids) == LiveSum(reqs)
  {
    if reqs == [] {
    } else {
      SumOutsideIsLiveSum(reqs[..|reqs| - 1], ids);
    }
  }

  /**
    Silent senders cannot pin the budget. Take any set of requests of which each, from some state
    on, holds nothing or is silent with its body outstanding. Then 4 * (5000 + late) ms later none
    of them holds anything and the counter is what all other requests hold, whatever those do.
   */
  lemma SilentSendersHoldNothing(
    budget: int, states: seq<State>, events: seq<Event>, from: nat, n: nat, late: nat, ids: set<nat>)
    requires IsRun(budget, states, events) && from <= n < |states|
    requires forall id :: id in ids ==>
                            && id < |states[from].reqs|
                            && (Share(states[from].reqs[id]) > 0 ==>
                                  Silent(states, from, n, id) && Punctual(states, from, n, id, late))
    requires states[n].now > states[from].now + 4 * (5000 + late)
    ensures forall id :: id in ids ==> id < |states[n].reqs| && Share(states[n].reqs[id]) == 0
    ensures states[n].inFlight == SumOutside(states[n].reqs, ids)
  {
    forall id | id in ids ensures id < |states[n].reqs| && Share(states[n].reqs[id]) == 0 {
      SilentSenderHoldsNothing(budget, states, events, from, n, id, late);
    }
    SumOutsideIsLiveSum(states[n].reqs, ids);
    Conservation(budget, states, events, n);
  }

  /** When all that is held at some state is held by silent senders, later admissions get the budget to themselves. */
  lemma NewcomersHaveTheBudget(
    budget: int, states: seq<State>, events: seq<Event>, from: nat, n: nat, late: nat)
    requires IsRun(budget, states, events) && from <= n < |states|
    requires forall id :: 0 <= id < |states[from].reqs| && Share(states[from].reqs[id]) > 0 ==>
                            Silent(states, from, n, id) && Punctual(states, from, n, id, late)
    requires states[n].now > states[from].now + 4 * (5000 + late)
    ensures |states[from].reqs| <= |states[n].reqs|
    ensures LiveSum(states[n].reqs[..|states[from].reqs|]) == 0
    ensures states[n].inFlight == LiveSum(states[n].reqs[|states[from].reqs|..])
  {
    var k, reqs := |states[from].reqs|, states[n].reqs;
    forall id | 0 <= id < k ensures id < |reqs| && Share(reqs[id]) == 0 {
      SilentSenderHoldsNothing(budget, states, events, from, n, id, late);
    }
    if k > 0 {
      SilentSenderHoldsNothing(budget, states, events, from, n, k - 1, late);
    }
    SumZero(reqs[..k]);
    LiveSumConcat(reqs[..k], reqs[k..]);
    assert reqs[..k] + reqs[k..] == reqs;
    Conservation(budget, states, events, n);
  }

  // ---------------------------------------------------------------- the exact instant

  /**
    The instant a silent request is due to be reaped. Bytes that no poll has counted yet still
    restart the clock, at the next firing of the timer.
   */
  function ReapTime(r: Request): nat {
    (if r.bytesRead == r.lastBytes then r.lastProgress else r.due) + 15000
  }

  /** A live request is not due before `instant`, and it was not destroyed for stalling before it. */
  ghost predicate NotBefore(s: State, id: nat, instant: nat) {
    && id < |s.reqs|
    && (!s.reqs[id].released ==> instant <= ReapTime(s.reqs[id]))
    && (s.reqs[id].destroyed == Some(Stalled) ==> instant <= s.now)
  }

  lemma StepKeepsNotBefore(budget: int, s: State, e: Event, s': State, id: nat, instant: nat)
    requires Inv(budget, s) && Enabled(s, e) && s' == Next(budget, s, e)
    requires NotBefore(s, id, instant)
    requires id < |s'.reqs| && (!s'.reqs[id].released ==> s'.reqs[id].bytesRead == s.reqs[id].bytesRead)
    requires !s.reqs[id].released ==> Outstanding(s.reqs[id])
    ensures NotBefore(s', id, instant)
  {
    assert RequestOk(budget, s.now, s.reqs[id]);
    if e.On? && e.id == id {
      assert s'.reqs[id] == HandleCell(budget, s.now, Cell(s.inFlight, s.reqs[id]), e.what).r;
    }
  }

  /**
    However the timers behave, a silent request is not destroyed for stalling before the instant
    that stood when the silence began.
   */
  lemma NotReapedEarly(
    budget: int, states: seq<State>, events: seq<Event>, from: nat, n: nat, id: nat)
    requires IsRun(budget, states, events) && from <= n < |states|
    requires Silent(states, from, n, id) && !states[from].reqs[id].released
    ensures NotBefore(states[n], id, ReapTime(states[from].reqs[id]))
  {
    RunKeepsInv(budget, states, events, from);
    assert RequestOk(budget, states[from].now, states[from].reqs[id]);
    var instant := ReapTime(states[from].reqs[id]);
    for k := from to n
      invariant NotBefore(states[k], id, instant)
    {
      RunKeepsInv(budget, states, events, k);
      StaysSilent(states, from, n, k, id);
      RequestsPersist(budget, states, events, k, k + 1, id);
      StepKeepsNotBefore(budget, states[k], events[k], states[k + 1], id, instant);
    }
  }

  /**
    The timer of a watched request in a run whose firings are at most `late` ms overdue: the next
    firing is the first, second or third after the last progress, and every firing before it may
    have added its delay.
   */
  predicate OnSchedule(r: Request, late: nat) {
    r.armed ==>
      || r.due == r.lastProgress + STALL_POLL_MS
      || r.lastProgress + 2 * STALL_POLL_MS <= r.due <= r.lastProgress + 2 * STALL_POLL_MS + late
      || r.lastProgress + 3 * STALL_POLL_MS <= r.due <= r.lastProgress + 3 * STALL_POLL_MS + 2 * late
  }

  lemma StepKeepsSchedule(budget: int, s: State, e: Event, s': State, id: nat, late: nat)
    requires Enabled(s, e) && s' == Next(budget, s, e) && id < |s.reqs|
    requires OnSchedule(s.reqs[id], late)
    requires s.reqs[id].armed ==> s.now <= s.reqs[id].due + late && !s.reqs[id].released
    ensures OnSchedule(s'.reqs[id], late)
  {
    if e.On? && e.id == id {
      assert s'.reqs[id] == HandleCell(budget, s.now, Cell(s.inFlight, s.reqs[id]), e.what).r;
    }
  }

  lemma {:induction false} PunctualTimersKeepSchedule(
    budget: int, states: seq<State>, events: seq<Event>, n: nat, id: nat, late: nat)
    requires IsRun(budget, states, events) && n < |states| && id < |states[n].reqs|
    requires Punctual(states, 0, n, id, late)
    ensures OnSchedule(states[n].reqs[id], late)
  {
    if n == 0 || id >= |states[n - 1].reqs| {
    } else {
      PunctualTimersKeepSchedule(budget, states, events, n - 1, id, late);
      RunKeepsInv(budget, states, events, n - 1);
      assert RequestOk(budget, states[n - 1].now, states[n - 1].reqs[id]);
      StepKeepsSchedule(budget, states[n - 1], events[n - 1], states[n], id, late);
    }
  }

  /** A request on schedule is in the middle of the countdown that began with its last progress. */
  lemma ScheduleCounts(r: Request, late: nat)
    requires r.armed && !r.released && r.bytesRead == r.lastBytes && OnSchedule(r, late)
    ensures Counting(r, r.lastProgress - STALL_POLL_MS - late, late)
  {
    var origin := r.lastProgress - STALL_POLL_MS - late;
    if r.due == r.lastProgress + STALL_POLL_MS {
      assert Countdown(r, origin, late, 1);
    } else if r.due <= r.lastProgress + 2 * STALL_POLL_MS + late {
      assert Countdown(r, origin, late, 2);
    } else {
      assert Countdown(r, origin, late, 3);
    }
  }

  /**
    With timers punctual to `late` ms, a silent request is released once a delay for every firing
    that is still to come has passed after that instant, three or four of them. When its bytes are
    counted already, the timers must have been punctual before the silence too.
   */
  lemma ReleasedByReapTime(
    budget: int, states: seq<State>, events: seq<Event>, from: nat, n: nat, id: nat, late: nat)
    requires IsRun(budget, states, events) && from <= n < |states|
    requires Silent(states, from, n, id) && Punctual(states, from, n, id, late)
    requires states[from].reqs[id].bytesRead == states[from].reqs[id].lastBytes ==> Punctual(states, 0, from, id, late)
    requires var r := states[from].reqs[id];
             states[n].now > ReapTime(r) + if r.bytesRead == r.lastBytes then 3 * late else 4 * late
    ensures id < |states[n].reqs| && states[n].reqs[id].released
  {
    RunKeepsInv(budget, states, events, from);
    var r := states[from].reqs[id];
    assert RequestOk(budget, states[from].now, r);
    if r.released {
      ReleasedStaysReleased(budget, states, events, from, n, id);
    } else if r.bytesRead == r.lastBytes {
      PunctualTimersKeepSchedule(budget, states, events, from, id, late);
      ScheduleCounts(r, late);
      CountdownBound(budget, states, events, from, n, id, r.lastProgress - STALL_POLL_MS - late, late);
    } else {
      assert Countdown(r, r.due - STALL_POLL_MS, late, 0);
      CountdownBound(budget, states, events, from, n, id, r.due - STALL_POLL_MS, late);
    }
  }

  /** Between two states the request meets no terminal event, and it is not aborted for the budget. */
  ghost predicate OnlyReaperReleases(states: seq<State>, events: seq<Event>, from: nat, n: nat, id: nat)
    requires from <= n < |states| == |events| + 1 && id < |states[n].reqs|
  {
    && states[n].reqs[id].destroyed != Some(OverBudget)
    && forall i :: from <= i < n && events[i].On? && events[i].id == id ==> !events[i].what.Terminal?
  }

  lemma StepReleasesWithReason(budget: int, s: State, e: Event, s': State, id: nat)
    requires Enabled(s, e) && s' == Next(budget, s, e)
    requires id < |s.reqs| && (s.reqs[id].released ==> s.reqs[id].destroyed.Some?)
    requires e.On? && e.id == id ==> !e.what.Terminal?
    ensures id < |s'.reqs| && (s'.reqs[id].released ==> s'.reqs[id].destroyed.Some?)
  {
    if e.On? && e.id == id {
      assert s'.reqs[id] == HandleCell(budget, s.now, Cell(s.inFlight, s.reqs[id]), e.what).r;
    }
  }

  /** Without a terminal event a request is released together with the destroy of its poll. */
  lemma ReleasedForStalling(
    budget: int, states: seq<State>, events: seq<Event>, from: nat, n: nat, id: nat)
    requires IsRun(budget, states, events) && from <= n < |states|
    requires id < |states[from].reqs| && !states[from].reqs[id].released
    requires id < |states[n].reqs| && OnlyReaperReleases(states, events, from, n, id)
    ensures states[n].reqs[id].released ==> states[n].reqs[id].destroyed == Some(Stalled)
  {
    for k := from to n
      invariant id < |states[k].reqs| && (states[k].reqs[id].released ==> states[k].reqs[id].destroyed.Some?)
    {
      StepReleasesWithReason(budget, states[k], events[k], states[k + 1], id);
    }
    assert states[n].reqs[id].released ==> !states[n].reqs[id].destroyed.value.OverBudget?;
  }

  /**
    The release of a silent sender, for any lateness of the timers. Unless a terminal event or the
    budget ends the request first, it holds its reservation up to `ReapTime` of the state in which
    the silence began, and no longer than three or four delays after it.
   */
  lemma SilentSenderReleaseWindow(
    budget: int, states: seq<State>, events: seq<Event>, from: nat, n: nat, id: nat, late: nat)
    requires IsRun(budget, states, events) && from <= n < |states|
    requires Silent(states, from, n, id) && Punctual(states, 0, n, id, late)
    requires id < |states[n].reqs| && OnlyReaperReleases(states, events, from, n, id)
    requires !states[from].reqs[id].released
    ensures var r := states[from].reqs[id];
            && (states[n].now < ReapTime(r) ==> !states[n].reqs[id].released)
            && (states[n].now > ReapTime(r) + (if r.bytesRead == r.lastBytes then 3 * late else 4 * late) ==>
                  states[n].reqs[id].released)
  {
    NotReapedEarly(budget, states, events, from, n, id);
    ReleasedForStalling(budget, states, events, from, n, id);
    var r := states[from].reqs[id];
    if states[n].now > ReapTime(r) + if r.bytesRead == r.lastBytes then 3 * late else 4 * late {
      ReleasedByReapTime(budget, states, events, from, n, id, late);
    }
  }

  /** With exact timers the window closes: at that very instant alone the poll may or may not have run yet. */
  lemma SilentSenderReleasedExactly(
    budget: int, states: seq<State>, events: seq<Event>, from: nat, n: nat, id: nat)
    requires IsRun(budget, states, events) && from <= n < |states|
    requires Silent(states, from, n, id) && Punctual(states, 0, n, id, 0)
    requires id < |states[n].reqs| && OnlyReaperReleases(states, events, from, n, id)
    requires !states[from].reqs[id].released
    requires states[n].now != ReapTime(states[from].reqs[id])
    ensures states[n].reqs[id].released <==> states[n].now > ReapTime(states[from].reqs[id])
  {
    SilentSenderReleaseWindow(budget, states, events, from, n, id, 0);
  }

  /**
    So with exact timers a silent sender outlasts the 15000 ms timeout exactly when its last bytes
    came between two firings of its timer; it then does so by the time that was left to the next
    firing, which is at most one period.
   */
  lemma OutlastsTimeoutIff(budget: int, states: seq<State>, events: seq<Event>, from: nat, id: nat)
    requires IsRun(budget, states, events) && from < |states|
    requires id < |states[from].reqs| && !states[from].reqs[id].released && Outstanding(states[from].reqs[id])
    ensures var r, now := states[from].reqs[id], states[from].now;
            && (ReapTime(r) > now + 15000 <==> r.bytesRead != r.lastBytes && r.due > now)
            && ReapTime(r) <= now + 20000
  {
    RunKeepsInv(budget, states, events, from);
    assert RequestOk(budget, states[from].now, states[from].reqs[id]);
  }

  /**
    The bound of 20000 ms is attained for every budget and every declared length above one byte:
    one byte right after admission, then silence, and with exact timers the reservation is still
    held 20000 ms after that byte, just before the poll that reaps it.
   */
  lemma ReaperBoundIsTight(budget: int, length: nat) returns (states: seq<State>, events: seq<Event>)
    requires 2 <= length <= budget
    ensures IsRun(budget, states, events) && |events| > 2
    ensures Silent(states, 2, |events|, 0) && Punctual(states, 0, |events|, 0, 0)
    ensures !states[|events|].reqs[0].released
    ensures states[|events|].now == states[2].now + 20000
    ensures Enabled(states[|events|], On(0, Poll))
    ensures Next(budget, states[|events|], On(0, Poll)).reqs[0].destroyed == Some(Stalled)
  {
    var tick, poll := Tick(STALL_POLL_MS), On(0, Poll);
    events := [Arrive(Some(length), false, 0), On(0, Bytes(1)), tick, poll, tick, poll, tick, poll, tick];
    var s1 := Next(budget, INITIAL, events[0]);
    var s2 := Next(budget, s1, events[1]);
    var s3 := Next(budget, s2, tick);
    var s4 := Next(budget, s3, poll);
    var s5 := Next(budget, s4, tick);
    var s6 := Next(budget, s5, poll);
    var s7 := Next(budget, s6, tick);
    var s8 := Next(budget, s7, poll);
    var s9 := Next(budget, s8, tick);
    states := [INITIAL, s1, s2, s3, s4, s5, s6, s7, s8, s9];
  }
}
