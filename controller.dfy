/** The process-wide failover state of the server: the name of the active
    account and the active database handle, updated in place. */
module FailoverController {
  import opened QuotaErrors
  import opened Failover

  class Controller {
    /** `currentDBName` */
    var current: Backend
    /** `db`, the handle every operation is given */
    var db: Handle
    /** Every observable event since start-up, oldest first. */
    ghost var trace: seq<Event>

    /** The handle is the one of the active backend, and the history replays
        on the reference machine from the start state to the active backend. */
    ghost predicate Valid()
      reads this
    {
      db == HandleOf(current) && Consistent(Primary, trace) && Replay(Primary, trace) == current
    }

    /** Start-up: both handles exist, and the primary is active. */
    constructor ()
      ensures Valid() && current == Primary && db == PrimaryDb && trace == []
    {
      current := Primary;
      db := PrimaryDb;
      trace := [];
    }

    /** Records an event allowed in the current state. */
    ghost method Record(e: Event)
      requires Valid() && Allowed(current, e) && !e.Switched?
      modifies this`trace
      ensures Valid() && trace == old(trace) + [e]
    {
      ghost var before := trace;
      ReplayOne(current, e);
      ReplayAppend(Primary, before, [e]);
      assert Replay(Primary, before + [e]) == current;
      assert Consistent(Primary, before + [e]);
      trace := before + [e];
    }

    method SwitchToFallback()
      requires Valid()
      modifies this
      ensures Valid()
      ensures var m := Failover.SwitchToFallback(old(current));
        current == m.next && trace == old(trace) + m.events
    {
      if current == Primary {
        ReplayAppend(Primary, trace, [Switched(Fallback)]);
        ReplayOne(current, Switched(Fallback));
        db := FallbackDb;
        current := Fallback;
        trace := trace + [Switched(Fallback)];
      }
    }

    method SwitchToPrimary()
      requires Valid()
      modifies this
      ensures Valid()
      ensures var m := Failover.SwitchToPrimary(old(current));
        current == m.next && trace == old(trace) + m.events
    {
      if current == Fallback {
        ReplayAppend(Primary, trace, [Switched(Primary)]);
        ReplayOne(current, Switched(Primary));
        db := PrimaryDb;
        current := Primary;
        trace := trace + [Switched(Primary)];
      }
    }

    /** Probes the primary while on the fallback and switches back when the
        probe succeeds; a failed probe is swallowed. Shared by the success
        path of `executeWithFallback` and the health check. */
    method ProbeAndRecover(probeOk: bool)
      requires Valid() && current == Fallback
      modifies this
      ensures Valid()
      ensures var m := Failover.ProbeAndRecover(probeOk);
        current == m.next && trace == old(trace) + m.events
    {
      Record(Probed(probeOk));
      if probeOk {
        SwitchToPrimary();
      }
    }

    /** Runs `op` on the active handle; `probeOk` is what the probe of the
        primary returns if one is issued. A returned `Thrown` is an error the
        caller sees thrown. */
    method ExecuteWithFallback<T>(op: Handle -> Outcome<T>, probeOk: bool) returns (r: Outcome<T>)
      requires Valid()
      modifies this
      ensures Valid()
      ensures var s := Execute(old(current), op, probeOk);
        r == s.outcome && current == s.next && trace == old(trace) + s.events
    {
      ghost var before, start := current, trace;
      var result := op(db);
      Record(Invoked(db));
      if result.Ok? {
        if current == Fallback {
          ProbeAndRecover(probeOk);
          assert Execute(before, op, probeOk) == SucceedOnFallback(result, probeOk);
        } else {
          assert Execute(before, op, probeOk) == RunOnce(before, result);
        }
        r := result;
      } else {
        var isQuota := IsQuotaError(result.error);
        if isQuota && current == Primary {
          SwitchToFallback();
          r := op(db);
          Record(Invoked(db));
          assert Execute(before, op, probeOk) == RetryOnFallback(op);
        } else {
          r := result;
          assert Execute(before, op, probeOk) == RunOnce(before, result);
        }
      }
    }

    /** One run of the periodic health check. */
    method HealthTick(probeOk: bool)
      requires Valid()
      modifies this
      ensures Valid()
      ensures var m := Failover.HealthTick(old(current), probeOk);
        current == m.next && trace == old(trace) + m.events
    {
      if current == Fallback {
        ProbeAndRecover(probeOk);
      }
    }
  }
}
