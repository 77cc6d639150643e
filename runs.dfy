/** The controller over its whole lifetime: any sequence of caller
    operations and health-check ticks, each a sequential step on the shared
    state. */
module FailoverRuns {
  import opened QuotaErrors
  import opened Failover

  /** One thing that happens to the controller: a call of
      `executeWithFallback`, or a tick of the periodic health check. */
  datatype Request<T> = Call(op: Handle -> Outcome<T>, probeOk: bool) | Tick(probeOk: bool)

  /** Number of calls of `executeWithFallback` in `rs`. */
  function Calls<T>(rs: seq<Request<T>>): nat
    decreases |rs|
  {
    if rs == [] then 0 else (if rs[0].Call? then 1 else 0) + Calls(rs[1..])
  }

  /** One request served from state `b`. */
  function Serve<T>(b: Backend, r: Request<T>): (m: Move)
    ensures Consistent(b, m.events) && Replay(b, m.events) == m.next
  {
    match r
    case Call(op, p) =>
      var s := Execute(b, op, p);
      Move(s.next, s.events)
    case Tick(p) => HealthTick(b, p)
  }

  /** The requests `rs` served one after another from state `b`. */
  function Run<T>(b: Backend, rs: seq<Request<T>>): Move
    decreases |rs|
  {
    if rs == [] then Move(b, [])
    else
      var m := Serve(b, rs[0]);
      var rest := Run(m.next, rs[1..]);
      Move(rest.next, m.events + rest.events)
  }

  /** Every run is a run of the reference machine: operations always use the
      active handle, probes happen only on the fallback, every logged switch
      changes backend, and the events replay to the final state. */
  lemma {:induction false} RunReplays<T>(b: Backend, rs: seq<Request<T>>)
    ensures Consistent(b, Run(b, rs).events) && Replay(b, Run(b, rs).events) == Run(b, rs).next
    decreases |rs|
  {
    if rs == [] {
      assert Run(b, rs).events == [];
    } else {
      var m := Serve(b, rs[0]);
      RunReplays(m.next, rs[1..]);
      ReplayAppend(b, m.events, Run(m.next, rs[1..]).events);
    }
  }

  /** What a probe contributes: no run of the operation, no switch to the
      fallback, and a return to the primary exactly when it succeeds. */
  lemma ProbedCounts(p: bool)
    ensures var es := [Probed(p)] + (if p then [Switched(Primary)] else []);
      Invocations(es) == 0 && Count(es, Switched(Fallback)) == 0
      && Count(es, Switched(Primary)) == Count(es, Probed(true))
  {
    var tail := if p then [Switched(Primary)] else [];
    CountOne(Switched(Primary), Switched(Fallback));
    CountOne(Switched(Primary), Switched(Primary));
    CountOne(Switched(Primary), Probed(true));
    InvocationsOne(Switched(Primary));
    CountCons(Probed(p), tail, Switched(Fallback));
    CountCons(Probed(p), tail, Switched(Primary));
    CountCons(Probed(p), tail, Probed(true));
    InvocationsOne(Probed(p));
    InvocationsAppend([Probed(p)], tail);
  }

  /** What a single run of the operation on `h` contributes. */
  lemma InvokedCounts(h: Handle, es: seq<Event>)
    ensures Invocations([Invoked(h)] + es) == 1 + Invocations(es)
    ensures Count([Invoked(h)] + es, Switched(Fallback)) == Count(es, Switched(Fallback))
    ensures Count([Invoked(h)] + es, Switched(Primary)) == Count(es, Switched(Primary))
    ensures Count([Invoked(h)] + es, Probed(true)) == Count(es, Probed(true))
  {
    CountCons(Invoked(h), es, Switched(Fallback));
    CountCons(Invoked(h), es, Switched(Primary));
    CountCons(Invoked(h), es, Probed(true));
    InvocationsOne(Invoked(h));
    InvocationsAppend([Invoked(h)], es);
  }

  /** What the retry branch contributes: two runs and one switch to the
      fallback. */
  lemma RetryCounts()
    ensures var es := [Invoked(PrimaryDb), Switched(Fallback), Invoked(FallbackDb)];
      Invocations(es) == 2 && Count(es, Switched(Fallback)) == 1
      && Count(es, Switched(Primary)) == 0 && Count(es, Probed(true)) == 0
  {
    InvokedCounts(FallbackDb, []);
    assert [Invoked(FallbackDb)] + [] == [Invoked(FallbackDb)];
    CountCons(Switched(Fallback), [Invoked(FallbackDb)], Switched(Fallback));
    CountCons(Switched(Fallback), [Invoked(FallbackDb)], Switched(Primary));
    CountCons(Switched(Fallback), [Invoked(FallbackDb)], Probed(true));
    InvocationsOne(Switched(Fallback));
    InvocationsAppend([Switched(Fallback)], [Invoked(FallbackDb)]);
    InvokedCounts(PrimaryDb, [Switched(Fallback), Invoked(FallbackDb)]);
    assert [Invoked(PrimaryDb)] + [Switched(Fallback), Invoked(FallbackDb)]
        == [Invoked(PrimaryDb), Switched(Fallback), Invoked(FallbackDb)];
  }

  /** One request: a call runs the operation once plus once per switch to
      the fallback, and switches to the fallback at most once; a tick never
      runs it. Every return to the primary follows a successful probe. */
  lemma ServeCounts<T>(b: Backend, r: Request<T>)
    ensures var es := Serve(b, r).events;
      Invocations(es) == (if r.Call? then 1 else 0) + Count(es, Switched(Fallback))
      && Count(es, Switched(Fallback)) <= (if r.Call? then 1 else 0)
      && Count(es, Switched(Primary)) == Count(es, Probed(true))
  {
    var es := Serve(b, r).events;
    var probed := [Probed(r.probeOk)] + (if r.probeOk then [Switched(Primary)] else []);
    match r
    case Tick(p) =>
      if b == Fallback {
        ProbedCounts(p);
      }
    case Call(op, p) =>
      var first := op(HandleOf(b));
      if first.Ok? && b == Fallback {
        ProbedCounts(p);
        InvokedCounts(FallbackDb, probed);
        assert es == [Invoked(FallbackDb)] + probed;
      } else if first.Thrown? && IsQuotaError(first.error) && b == Primary {
        RetryCounts();
      } else {
        InvokedCounts(HandleOf(b), []);
        assert es == [Invoked(HandleOf(b))] + [];
      }
  }

  /** Over any run: the operation runs once per call plus once per switch to
      the fallback (each retry is paired with the switch that caused it), so
      at most twice per call; and returns to the primary are exactly the
      successful probes. */
  lemma {:induction false} RunCounts<T>(b: Backend, rs: seq<Request<T>>)
    ensures var es := Run(b, rs).events;
      Invocations(es) == Calls(rs) + Count(es, Switched(Fallback))
      && Calls(rs) <= Invocations(es) <= 2 * Calls(rs)
      && Count(es, Switched(Primary)) == Count(es, Probed(true))
    decreases |rs|
  {
    var es := Run(b, rs).events;
    if rs == [] {
      assert es == [];
    } else {
      var m := Serve(b, rs[0]);
      var rest := Run(m.next, rs[1..]).events;
      ServeCounts(b, rs[0]);
      RunCounts(m.next, rs[1..]);
      assert es == m.events + rest;
      InvocationsAppend(m.events, rest);
      CountAppend(m.events, rest, Switched(Fallback));
      CountAppend(m.events, rest, Switched(Primary));
      CountAppend(m.events, rest, Probed(true));
    }
  }
}
