/** The failover state machine between the primary and the fallback
    database accounts, as pure functions of the active backend. */
module Failover {
  import opened QuotaErrors

  /** Which account is active (`currentDBName`). */
  datatype Backend = Primary | Fallback

  /** The two database handles, created once at start-up. */
  datatype Handle = PrimaryDb | FallbackDb

  /** The handle that belongs to a backend. */
  function HandleOf(b: Backend): Handle {
    if b == Primary then PrimaryDb else FallbackDb
  }

  /** What a database operation does: resolve with a value or throw. */
  datatype Outcome<T> = Ok(value: T) | Thrown(error: Error)

  /** What the controller does that a caller or an operator can observe:
      run the caller's operation on a handle, probe the primary (with the
      probe's result), or switch backend (each switch is logged). */
  datatype Event = Invoked(db: Handle) | Probed(ok: bool) | Switched(to: Backend)

  /** The new active backend and the events that led to it. */
  datatype Move = Move(next: Backend, events: seq<Event>)

  /** The same, with the outcome handed back to the caller. */
  datatype Step<T> = Step(outcome: Outcome<T>, next: Backend, events: seq<Event>)

  /** An event may happen in state `b`: operations run on the active handle,
      the primary is probed only while on the fallback, and a switch is a
      real change of backend. */
  predicate Allowed(b: Backend, e: Event) {
    match e
    case Invoked(h) => h == HandleOf(b)
    case Probed(_) => b == Fallback
    case Switched(to) => to != b
  }

  /** The state after event `e`. */
  function After(b: Backend, e: Event): Backend {
    if e.Switched? then e.to else b
  }

  /** The reference machine: every event of `es`, replayed from `b`, is allowed. */
  ghost predicate Consistent(b: Backend, es: seq<Event>)
    decreases |es|
  {
    es == [] || (Consistent(b, es[..|es| - 1]) && Allowed(Replay(b, es[..|es| - 1]), es[|es| - 1]))
  }

  /** The state reached by replaying `es` from `b`. */
  ghost function Replay(b: Backend, es: seq<Event>): Backend
    decreases |es|
  {
    if es == [] then b else After(Replay(b, es[..|es| - 1]), es[|es| - 1])
  }

  /** Replaying a concatenation replays its parts one after the other. */
  lemma {:induction false} ReplayAppend(b: Backend, es: seq<Event>, fs: seq<Event>)
    ensures Replay(b, es + fs) == Replay(Replay(b, es), fs)
    ensures Consistent(b, es + fs) <==> Consistent(b, es) && Consistent(Replay(b, es), fs)
    decreases |fs|
  {
    if fs == [] {
      assert es + fs == es;
    } else {
      var init := fs[..|fs| - 1];
      assert (es + fs)[..|es + fs| - 1] == es + init;
      assert (es + fs)[|es + fs| - 1] == fs[|fs| - 1];
      ReplayAppend(b, es, init);
    }
  }

  /** Replaying a single event. */
  lemma ReplayOne(b: Backend, e: Event)
    ensures Replay(b, [e]) == After(b, e)
    ensures Consistent(b, [e]) <==> Allowed(b, e)
  {
    assert [e][..0] == [];
  }

  /** Number of times `e` occurs in `es`. */
  function Count(es: seq<Event>, e: Event): nat
    decreases |es|
  {
    if es == [] then 0 else Count(es[..|es| - 1], e) + (if es[|es| - 1] == e then 1 else 0)
  }

  /** Counting over a concatenation adds up. */
  lemma {:induction false} CountAppend(es: seq<Event>, fs: seq<Event>, e: Event)
    ensures Count(es + fs, e) == Count(es, e) + Count(fs, e)
    decreases |fs|
  {
    if fs == [] {
      assert es + fs == es;
    } else {
      var init := fs[..|fs| - 1];
      assert (es + fs)[..|es + fs| - 1] == es + init;
      CountAppend(es, init, e);
    }
  }

  /** Counting over an event followed by more events. */
  lemma CountCons(x: Event, es: seq<Event>, e: Event)
    ensures Count([x] + es, e) == (if x == e then 1 else 0) + Count(es, e)
  {
    CountAppend([x], es, e);
    CountOne(x, e);
  }

  /** Counting in a single event. */
  lemma CountOne(x: Event, e: Event)
    ensures Count([x], e) == if x == e then 1 else 0
  {
    assert [x][..0] == [];
  }

  /** Number of times the caller's operation was run. */
  function Invocations(es: seq<Event>): nat {
    Count(es, Invoked(PrimaryDb)) + Count(es, Invoked(FallbackDb))
  }

  lemma InvocationsAppend(es: seq<Event>, fs: seq<Event>)
    ensures Invocations(es + fs) == Invocations(es) + Invocations(fs)
  {
    CountAppend(es, fs, Invoked(PrimaryDb));
    CountAppend(es, fs, Invoked(FallbackDb));
  }

  lemma InvocationsOne(x: Event)
    ensures Invocations([x]) == if x.Invoked? then 1 else 0
  {
    CountOne(x, Invoked(PrimaryDb));
    CountOne(x, Invoked(FallbackDb));
    match x
    case Invoked(h) =>
      assert h == PrimaryDb || h == FallbackDb;
    case _ =>
  }

  /** `switchToFallback`: moves to the fallback, logging the switch, only
      when on the primary. */
  function SwitchToFallback(b: Backend): (m: Move)
    ensures m.next == Fallback
    ensures Consistent(b, m.events) && Replay(b, m.events) == m.next
    ensures b == Fallback ==> m == Move(b, [])
    ensures Invocations(m.events) == 0
  {
    ReplayOne(b, Switched(Fallback));
    InvocationsOne(Switched(Fallback));
    if b == Primary then Move(Fallback, [Switched(Fallback)]) else Move(b, [])
  }

  /** `switchToPrimary`: moves to the primary, logging the switch, only
      when on the fallback. */
  function SwitchToPrimary(b: Backend): (m: Move)
    ensures m.next == Primary
    ensures Consistent(b, m.events) && Replay(b, m.events) == m.next
    ensures b == Primary ==> m == Move(b, [])
    ensures Invocations(m.events) == 0
  {
    ReplayOne(b, Switched(Primary));
    InvocationsOne(Switched(Primary));
    if b == Fallback then Move(Primary, [Switched(Primary)]) else Move(b, [])
  }

  /** Switching twice to the same backend is switching once. */
  lemma SwitchIdempotent(b: Backend)
    ensures SwitchToFallback(SwitchToFallback(b).next) == Move(Fallback, [])
    ensures SwitchToPrimary(SwitchToPrimary(b).next) == Move(Primary, [])
  {
  }

  /** After a successful operation on the fallback: probe the primary and
      switch back when the probe succeeds; a failed probe changes nothing. */
  function ProbeAndRecover(probeOk: bool): (m: Move)
    ensures Consistent(Fallback, m.events) && Replay(Fallback, m.events) == m.next
    ensures m.events == [Probed(probeOk)] + (if probeOk then [Switched(Primary)] else [])
    ensures m.next == Primary <==> probeOk
    ensures Invocations(m.events) == 0
  {
    var sw := if probeOk then SwitchToPrimary(Fallback) else Move(Fallback, []);
    ReplayOne(Fallback, Probed(probeOk));
    ReplayAppend(Fallback, [Probed(probeOk)], sw.events);
    InvocationsOne(Probed(probeOk));
    InvocationsAppend([Probed(probeOk)], sw.events);
    Move(sw.next, [Probed(probeOk)] + sw.events)
  }

  /** The quota branch of `executeWithFallback` on the primary: switch to
      the fallback and run the operation once more on its handle. */
  function RetryOnFallback<T>(op: Handle -> Outcome<T>): (s: Step<T>)
    ensures s.events == [Invoked(PrimaryDb), Switched(Fallback), Invoked(FallbackDb)]
    ensures Invocations(s.events) == 2
    ensures Consistent(Primary, s.events) && Replay(Primary, s.events) == s.next
    ensures s.outcome == op(FallbackDb) && s.next == Fallback
  {
    var m := SwitchToFallback(Primary);
    var es := [Invoked(PrimaryDb)] + m.events + [Invoked(HandleOf(m.next))];
    ReplayOne(Primary, Invoked(PrimaryDb));
    ReplayAppend(Primary, [Invoked(PrimaryDb)], m.events);
    ReplayOne(m.next, Invoked(HandleOf(m.next)));
    ReplayAppend(Primary, [Invoked(PrimaryDb)] + m.events, [Invoked(HandleOf(m.next))]);
    InvocationsOne(Invoked(PrimaryDb));
    InvocationsOne(Invoked(FallbackDb));
    InvocationsAppend([Invoked(PrimaryDb)], m.events);
    InvocationsAppend([Invoked(PrimaryDb)] + m.events, [Invoked(FallbackDb)]);
    Step(op(HandleOf(m.next)), m.next, es)
  }

  /** The success branch of `executeWithFallback` on the fallback: probe the
      primary after the operation, and keep the operation's result. */
  function SucceedOnFallback<T>(result: Outcome<T>, probeOk: bool): (s: Step<T>)
    ensures s.outcome == result
    ensures s.events == [Invoked(FallbackDb), Probed(probeOk)] + (if probeOk then [Switched(Primary)] else [])
    ensures Invocations(s.events) == 1
    ensures Consistent(Fallback, s.events) && Replay(Fallback, s.events) == s.next
    ensures s.next == Primary <==> probeOk
  {
    var m := ProbeAndRecover(probeOk);
    ReplayOne(Fallback, Invoked(FallbackDb));
    ReplayAppend(Fallback, [Invoked(FallbackDb)], m.events);
    InvocationsOne(Invoked(FallbackDb));
    InvocationsAppend([Invoked(FallbackDb)], m.events);
    Step(result, m.next, [Invoked(FallbackDb)] + m.events)
  }

  /** A call that runs the operation once on the active handle and keeps the
      state: a success on the primary, or an error thrown unchanged. */
  function RunOnce<T>(b: Backend, result: Outcome<T>): (s: Step<T>)
    ensures s.outcome == result && s.next == b
    ensures s.events == [Invoked(HandleOf(b))] && Invocations(s.events) == 1
    ensures Consistent(b, s.events) && Replay(b, s.events) == s.next
  {
    ReplayOne(b, Invoked(HandleOf(b)));
    InvocationsOne(Invoked(HandleOf(b)));
    Step(result, b, [Invoked(HandleOf(b))])
  }

  /** `executeWithFallback` for one call, starting on backend `b`, with the
      caller's operation `op` and the result `probeOk` the primary probe
      would have if it were issued. */
  function Execute<T>(b: Backend, op: Handle -> Outcome<T>, probeOk: bool): (s: Step<T>)
    // the operation first runs on the active handle, and at most twice in all
    ensures |s.events| > 0 && s.events[0] == Invoked(HandleOf(b))
    ensures 1 <= Invocations(s.events) <= 2
    // the events replay on the reference machine to the new state
    ensures Consistent(b, s.events) && Replay(b, s.events) == s.next
    // the caller gets the outcome of the last run of the operation
    ensures Invocations(s.events) == 1 ==> s.outcome == op(HandleOf(b))
    ensures Invocations(s.events) == 2 ==> s.outcome == op(FallbackDb) && s.next == Fallback
  {
    var first := op(HandleOf(b));
    if first.Ok? then
      if b == Fallback then SucceedOnFallback(first, probeOk) else RunOnce(b, first)
    else if IsQuotaError(first.error) && b == Primary then
      RetryOnFallback(op)
    else
      RunOnce(b, first)
  }

  /** The body of the periodic health check: while on the fallback, probe
      the primary and return to it when the probe succeeds; on the primary,
      do nothing. A failed probe is swallowed, so the tick has no outcome. */
  function HealthTick(b: Backend, probeOk: bool): (m: Move)
    ensures Consistent(b, m.events) && Replay(b, m.events) == m.next
    ensures m.next == Primary <==> (b == Primary || probeOk)
    ensures b == Primary ==> m.events == []
    ensures b == Fallback ==> m.events == [Probed(probeOk)] + (if probeOk then [Switched(Primary)] else [])
    ensures Invocations(m.events) == 0
  {
    InvocationsOne(Probed(probeOk));
    if b == Primary then Move(Primary, []) else ProbeAndRecover(probeOk)
  }

  /** Success on the primary: the result is returned unchanged, nothing is
      probed, the state stays, and the operation ran once. */
  lemma SuccessOnPrimary<T>(op: Handle -> Outcome<T>, probeOk: bool)
    requires op(PrimaryDb).Ok?
    ensures Execute(Primary, op, probeOk) == Step(op(PrimaryDb), Primary, [Invoked(PrimaryDb)])
  {
  }

  /** Success on the fallback: the original result is returned whatever the
      probe does; the probe decides the new state and its failure is never
      seen by the caller. */
  lemma SuccessOnFallback<T>(op: Handle -> Outcome<T>, probeOk: bool)
    requires op(FallbackDb).Ok?
    ensures var s := Execute(Fallback, op, probeOk);
      s.outcome == op(FallbackDb)
      && (s.next == Primary <==> probeOk)
      && s.events == [Invoked(FallbackDb), Probed(probeOk)] + (if probeOk then [Switched(Primary)] else [])
  {
  }

  /** A quota failure on the primary: switch to the fallback, run the
      operation once more there, and hand back that outcome, success or
      failure, without probing. */
  lemma QuotaFailureOnPrimary<T>(op: Handle -> Outcome<T>, probeOk: bool)
    requires op(PrimaryDb).Thrown? && IsQuotaError(op(PrimaryDb).error)
    ensures Execute(Primary, op, probeOk) ==
      Step(op(FallbackDb), Fallback, [Invoked(PrimaryDb), Switched(Fallback), Invoked(FallbackDb)])
  {
  }

  /** Any other failure (not a quota error, or a quota error while already on
      the fallback) is thrown unchanged: no retry, no probe, no switch. */
  lemma OtherFailure<T>(b: Backend, op: Handle -> Outcome<T>, probeOk: bool)
    requires op(HandleOf(b)).Thrown?
    requires !IsQuotaError(op(HandleOf(b)).error) || b == Fallback
    ensures Execute(b, op, probeOk) == Step(op(HandleOf(b)), b, [Invoked(HandleOf(b))])
  {
  }

  /** The probe never changes what the caller gets back. */
  lemma ProbeIsolation<T>(b: Backend, op: Handle -> Outcome<T>)
    ensures Execute(b, op, true).outcome == Execute(b, op, false).outcome
  {
  }

  /** The machine leaves the primary only on a quota failure there, and
      leaves the fallback only after a successful probe. */
  lemma Transitions<T>(b: Backend, op: Handle -> Outcome<T>, probeOk: bool)
    ensures var s := Execute(b, op, probeOk);
      (b == Primary ==> (s.next == Fallback <==> op(PrimaryDb).Thrown? && IsQuotaError(op(PrimaryDb).error)))
      && (b == Fallback ==> (s.next == Primary <==> op(FallbackDb).Ok? && probeOk))
  {
  }

  /** After a recovery the next call runs on the primary. */
  lemma RecoveryIsUsed<T>(op: Handle -> Outcome<T>, next: Handle -> Outcome<T>, p: bool, q: bool)
    requires op(FallbackDb).Ok? && p
    ensures Execute(Execute(Fallback, op, p).next, next, q).events[0] == Invoked(PrimaryDb)
  {
  }
}
