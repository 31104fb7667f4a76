/**
  The in-flight body budget in its own form: one object with a counter, and one object per
  admitted request holding the variables its middleware closure captures. Every method is proved
  to make exactly the step of the protocol it stands for.
 */
module InflightBudget {
  import opened Options
  import opened Numerals
  import opened InflightProtocol
  import opened InflightAccounting
  import opened Text
  import BodyLimits

  /** An admitted request: what its stream and socket show, and its closure's variables. */
  class AdmittedRequest {
    const declared: Option<nat>
    const chunked: bool
    const startBytes: nat

    var bytesRead: nat
    var complete: bool
    var ended: bool
    var destroyed: Option<DestroyReason>

    var reserved: nat
    var released: bool
    var armed: bool
    var due: nat
    var lastBytes: nat
    var lastProgress: nat

    constructor (declared: Option<nat>, chunked: bool, reserved: nat, socketBytes: nat, now: nat)
      ensures this.View() == Request(declared, chunked, socketBytes, false, false, None,
                                     reserved, false, reserved > 0, now + STALL_POLL_MS,
                                     socketBytes, socketBytes, now)
    {
      this.declared, this.chunked, this.startBytes := declared, chunked, socketBytes;
      bytesRead, complete, ended, destroyed := socketBytes, false, false, None;
      this.reserved, released, armed, due := reserved, false, reserved > 0, now + STALL_POLL_MS;
      lastBytes, lastProgress := socketBytes, now;
    }

    ghost function View(): Request
      reads this
    {
      Request(declared, chunked, bytesRead, complete, ended, destroyed,
              reserved, released, armed, due, startBytes, lastBytes, lastProgress)
    }

    method DisarmStallReaper()
      modifies this`armed
      ensures View() == old(View()).(armed := false)
    {
      if !armed {
        return;
      }
      armed := false;
    }

    /** The timer has fired: the runtime schedules the next firing. */
    method Reschedule(now: nat)
      modifies this`due
      ensures View() == old(View()).(due := now + STALL_POLL_MS)
    {
      due := now + STALL_POLL_MS;
    }

    /** `req.destroy()`. */
    method Destroy(reason: DestroyReason)
      modifies this`destroyed
      ensures View() == old(View()).(destroyed := Some(reason))
    {
      destroyed := Some(reason);
    }
  }

  class InflightBodyBudget {
    const budgetBytes: int
    const undeclaredReservation: nat

    var inFlightBytes: int
    var clock: nat
    ghost var requests: seq<AdmittedRequest>

    constructor (budgetBytes: int)
      ensures Valid() && View() == INITIAL && this.budgetBytes == budgetBytes && requests == []
    {
      this.budgetBytes := budgetBytes;
      undeclaredReservation := Max(1, Min(UNDECLARED_OPENING_RESERVATION_BYTES, budgetBytes));
      inFlightBytes, clock := 0, 0;
      requests := [];
    }

    ghost function View(): (s: State)
      reads this, requests
      ensures |s.reqs| == |requests|
      ensures forall i :: 0 <= i < |requests| ==> s.reqs[i] == requests[i].View()
    {
      State(clock, inFlightBytes,
            seq(|requests|, i requires 0 <= i < |requests| reads this, requests => requests[i].View()))
    }

    ghost predicate Valid()
      reads this, requests
    {
      && undeclaredReservation == Opening(budgetBytes)
      && (forall i, j :: 0 <= i < j < |requests| ==> requests[i] != requests[j])
      && Inv(budgetBytes, View())
    }

    /** This request and the counter together. */
    ghost function CellOf(t: AdmittedRequest): Cell
      reads this, t
    {
      Cell(inFlightBytes, t.View())
    }

    /** The new state differs from `before` in the counter and in request `id`, as the handler says. */
    lemma StepDone(before: State, id: nat, what: Happening)
      requires id < |requests| == |before.reqs| && clock == before.now
      requires forall i, j :: 0 <= i < j < |requests| ==> requests[i] != requests[j]
      requires forall i :: 0 <= i < |requests| && i != id ==> requests[i].View() == before.reqs[i]
      requires undeclaredReservation == Opening(budgetBytes)
      requires Inv(budgetBytes, before) && Enabled(before, On(id, what))
      requires CellOf(requests[id]) == HandleCell(budgetBytes, before.now, Cell(before.inFlight, before.reqs[id]), what)
      ensures View() == Next(budgetBytes, before, On(id, what)) && Valid()
    {
      assert View().reqs == Next(budgetBytes, before, On(id, what)).reqs;
      StepKeepsInv(budgetBytes, before, On(id, what));
    }

    /** The new state has one more request than `before`, freshly admitted. */
    lemma Admitted(before: State, declared: Option<nat>, chunked: bool, socketBytes: nat)
      requires |requests| == |before.reqs| + 1 && clock == before.now
      requires forall i, j :: 0 <= i < j < |requests| ==> requests[i] != requests[j]
      requires forall i :: 0 <= i < |before.reqs| ==> requests[i].View() == before.reqs[i]
      requires undeclaredReservation == Opening(budgetBytes)
      requires Inv(budgetBytes, before) && Admits(budgetBytes, before, declared, chunked)
      requires requests[|before.reqs|].View() == NewRequest(budgetBytes, before.now, declared, chunked, socketBytes)
      requires inFlightBytes == before.inFlight + InitialReservation(budgetBytes, declared, chunked)
      ensures View() == Next(budgetBytes, before, Arrive(declared, chunked, socketBytes)) && Valid()
    {
      assert View().reqs == Next(budgetBytes, before, Arrive(declared, chunked, socketBytes)).reqs;
      StepKeepsInv(budgetBytes, before, Arrive(declared, chunked, socketBytes));
    }

    /** Admission control on the reserved size, then the reservation and its reaper. */
    method Admit(declared: Option<nat>, chunked: bool, socketBytes: nat) returns (t: AdmittedRequest?)
      requires Valid()
      modifies this`inFlightBytes, this`requests
      ensures t != null <==> Admits(budgetBytes, old(View()), declared, chunked)
      ensures t != null ==> fresh(t) && requests == old(requests) + [t]
      ensures t == null ==> requests == old(requests)
      ensures Valid() && View() == Next(budgetBytes, old(View()), Arrive(declared, chunked, socketBytes))
    {
      ghost var before := View();
      var reserved := if declared.Some? then declared.value else if chunked then undeclaredReservation else 0;
      if inFlightBytes + reserved > budgetBytes {
        return null;
      }
      inFlightBytes := inFlightBytes + reserved;
      t := new AdmittedRequest(declared, chunked, reserved, socketBytes, clock);
      requests := requests + [t];
      Admitted(before, declared, chunked, socketBytes);
    }

    /**
      The middleware: the headers decide what is reserved. A null result is the 503 refusal. A length
      that `Number` reads as a usable one is reserved as it stands. Without one, chunked bodies
      reserve the opening, at most 1 MiB and at least a byte, and are watched; other requests
      reserve nothing and are never refused.
     */
    method Middleware(contentLength: Option<string>, transferEncoding: bool, socketBytes: nat)
      returns (t: AdmittedRequest?)
      requires Valid()
      modifies this`inFlightBytes, this`requests
      ensures t != null <==> Admits(budgetBytes, old(View()), ParseDeclaredLength(contentLength), transferEncoding)
      ensures t != null ==> fresh(t) && requests == old(requests) + [t]
      ensures t == null ==> requests == old(requests)
      ensures Valid()
      ensures View() == Next(budgetBytes, old(View()),
                             Arrive(ParseDeclaredLength(contentLength), transferEncoding, socketBytes))
      ensures t != null ==> inFlightBytes == old(inFlightBytes) + t.reserved && (t.armed <==> t.reserved > 0)
      ensures t != null ==> t.startBytes == t.bytesRead == t.lastBytes == socketBytes && t.chunked == transferEncoding
      ensures transferEncoding
              && (contentLength.None? || Number(Trim(contentLength.value)).None?
                  || ParseDeclaredLength(contentLength).None?) ==>
                var opening := if budgetBytes <= 1 then 1 else if budgetBytes < 1048576 then budgetBytes else 1048576;
                && (t != null <==> old(inFlightBytes) + opening <= budgetBytes)
                && (t != null ==> t.declared == None && t.reserved == opening && t.armed)
      ensures !transferEncoding && 0 <= budgetBytes
              && (contentLength.None? || Number(Trim(contentLength.value)).None?
                  || ParseDeclaredLength(contentLength).None?) ==>
                t != null && t.declared == None && t.reserved == 0 && !t.armed
      ensures forall length :: ParseDeclaredLength(contentLength) == Some(length) ==>
                && (t != null <==> old(inFlightBytes) + length <= budgetBytes)
                && (t != null ==> t.declared == Some(length) && t.reserved == length)
    {
      var declared := ParseDeclaredLength(contentLength);
      t := Admit(declared, transferEncoding, socketBytes);
    }

    /** Exactly-once release: the first terminal event wins. */
    method ReleaseOnce(t: AdmittedRequest)
      modifies this`inFlightBytes, t`released, t`armed
      ensures CellOf(t) == Release(old(CellOf(t)))
    {
      if t.released {
        return;
      }
      t.released := true;
      t.DisarmStallReaper();
      inFlightBytes := inFlightBytes - t.reserved;
    }

    method OnTerminal(t: AdmittedRequest, kind: TerminalKind, ghost id: nat)
      requires Valid() && id < |requests| && requests[id] == t
      modifies this`inFlightBytes, t
      ensures Valid() && View() == Next(budgetBytes, old(View()), On(id, Terminal(kind)))
    {
      ghost var before := View();
      ReleaseOnce(t);
      StepDone(before, id, Terminal(kind));
    }

    method OnEnd(t: AdmittedRequest, ghost id: nat)
      requires Valid() && id < |requests| && requests[id] == t
      modifies t
      ensures Valid() && View() == Next(budgetBytes, old(View()), On(id, EndEvent))
    {
      ghost var before := View();
      t.ended := true;
      t.DisarmStallReaper();
      StepDone(before, id, EndEvent);
    }

    /** Replaces the opening placeholder of an undeclared body by what has arrived, aborting it past the budget. */
    method ReconcileUndeclared(t: AdmittedRequest, readNow: nat)
      requires undeclaredReservation == Opening(budgetBytes)
      requires readNow == t.bytesRead
      modifies this`inFlightBytes, t`reserved, t`released, t`armed, t`destroyed
      ensures CellOf(t) == Reconcile(budgetBytes, old(CellOf(t)))
    {
      var actual := Max(undeclaredReservation, readNow - t.startBytes);
      if actual == t.reserved {
        return;
      }
      inFlightBytes := inFlightBytes + (actual - t.reserved);
      t.reserved := actual;
      if inFlightBytes > budgetBytes {
        ReleaseOnce(t);
        t.Destroy(OverBudget);
      }
    }

    method NoteProgress(t: AdmittedRequest, readNow: nat)
      requires undeclaredReservation == Opening(budgetBytes)
      requires readNow == t.bytesRead
      modifies this`inFlightBytes, t
      ensures CellOf(t) == ProgressCell(budgetBytes, clock, old(CellOf(t)))
    {
      if t.declared.None? {
        ReconcileUndeclared(t, readNow);
      }
      t.lastBytes := readNow;
      t.lastProgress := clock;
      if t.declared.Some? && readNow - t.startBytes >= t.declared.value {
        t.DisarmStallReaper();
      }
    }

    /** The interval callback, on one request alone. */
    method FireTimer(t: AdmittedRequest)
      requires undeclaredReservation == Opening(budgetBytes)
      modifies this`inFlightBytes, t
      ensures CellOf(t) == PollCell(budgetBytes, clock, old(CellOf(t)))
    {
      t.Reschedule(clock);
      if t.complete {
        t.DisarmStallReaper();
      } else if t.bytesRead != t.lastBytes {
        NoteProgress(t, t.bytesRead);
      } else if clock - t.lastProgress >= STALL_TIMEOUT_MS {
        ReleaseOnce(t);
        t.Destroy(Stalled);
      }
    }

    method StallPoll(t: AdmittedRequest, ghost id: nat)
      requires Valid() && id < |requests| && requests[id] == t
      requires t.armed && t.due <= clock
      modifies this`inFlightBytes, t
      ensures Valid() && View() == Next(budgetBytes, old(View()), On(id, Poll))
    {
      ghost var before := View();
      FireTimer(t);
      StepDone(before, id, Poll);
    }

    /** The network delivers bytes on the socket of a request. */
    method SocketRead(t: AdmittedRequest, n: nat, ghost id: nat)
      requires Valid() && id < |requests| && requests[id] == t
      modifies t
      ensures Valid() && View() == Next(budgetBytes, old(View()), On(id, Bytes(n)))
    {
      ghost var before := View();
      t.bytesRead := t.bytesRead + n;
      StepDone(before, id, Bytes(n));
    }

    /** The parser has seen the end of the message. */
    method MessageParsed(t: AdmittedRequest, ghost id: nat)
      requires Valid() && id < |requests| && requests[id] == t
      modifies t
      ensures Valid() && View() == Next(budgetBytes, old(View()), On(id, MessageComplete))
    {
      ghost var before := View();
      t.complete := true;
      StepDone(before, id, MessageComplete);
    }

    method Elapse(ms: nat)
      requires Valid()
      modifies this`clock
      ensures Valid() && View() == Next(budgetBytes, old(View()), Tick(ms))
    {
      ghost var before := View();
      clock := clock + ms;
      StepKeepsInv(budgetBytes, before, Tick(ms));
      assert View().reqs == before.reqs;
    }

    /** The figure shown to the operator is the sum of the live reservations, and within the budget. */
    method CurrentBytes() returns (bytes: int)
      requires Valid()
      ensures bytes == LiveSum(View().reqs) && 0 <= bytes <= Max(0, budgetBytes)
    {
      bytes := inFlightBytes;
    }
  }

  /**
    The server that is configured so that it refuses every request with a body, whatever has
    happened before: exactly the one without an explicit positive budget whose body limit denotes
    less than one byte.
   */
  lemma BodiesRefusedIff(budgetEnv: Option<string>, limitEnv: Option<string>)
    ensures RefusesEveryBody(BodyLimits.ResolveInflightBodyBudgetBytes(budgetEnv, limitEnv)) <==>
            && BodyLimits.ExplicitBudget(budgetEnv).None?
            && limitEnv.Some?
            && var p := BodyLimits.SplitLimit(Trim(limitEnv.value));
               p.Some? && BodyLimits.BelowOneByte(p.value)
  {
    RefusesEveryBodyIff(BodyLimits.ResolveInflightBodyBudgetBytes(budgetEnv, limitEnv));
    BodyLimits.BudgetIsZeroIff(budgetEnv, limitEnv);
  }
}
