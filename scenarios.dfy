/** End-to-end behaviour of the failover controller on concrete errors and
    operations. */
module FailoverScenarios {
  import opened QuotaErrors
  import opened Failover
  import opened FailoverController

  /** The message the database client gives when the primary is exhausted. */
  const QuotaMessage := "8 RESOURCE_EXHAUSTED: quota exceeded"

  /** An error that is not about quota. */
  const NotFoundMessage := "document not found"

  lemma QuotaMessageIsQuota()
    ensures IsQuotaError(Error(Some(QuotaMessage), NoCode))
  {
    assert "RESOURCE_EXHAUSTED" <= QuotaMessage[2..];
  }

  lemma NotFoundIsNotQuota()
    ensures !IsQuotaError(Error(Some(NotFoundMessage), NoCode))
  {
    AbsentFirstChar("quota", NotFoundMessage);
    AbsentFirstChar("RESOURCE_EXHAUSTED", NotFoundMessage);
  }

  /** Fails with the quota message on the primary and succeeds with 42 on
      the fallback. */
  function ExhaustedPrimary(h: Handle): Outcome<int> {
    if h == PrimaryDb then Thrown(Error(Some(QuotaMessage), NoCode)) else Ok(42)
  }

  /** Fails with the quota message on both accounts. */
  function ExhaustedEverywhere(h: Handle): Outcome<int> {
    Thrown(Error(Some(QuotaMessage), NoCode))
  }

  /** Always succeeds with 7. */
  function Succeed(h: Handle): Outcome<int> {
    Ok(7)
  }

  /** Always fails with the not-found message. */
  function NotFound(h: Handle): Outcome<int> {
    Thrown(Error(Some(NotFoundMessage), NoCode))
  }

  /** A quota failure on the primary: the caller gets the fallback's result,
      the fallback stays active, and the operation ran twice. */
  lemma FailoverScenario()
    ensures var s := Execute(Primary, ExhaustedPrimary, false);
      s.outcome == Ok(42) && s.next == Fallback && Invocations(s.events) == 2
  {
    QuotaMessageIsQuota();
  }

  /** A quota failure while on the fallback is thrown unchanged, from a
      single run, and the fallback stays active. */
  lemma ExhaustedFallbackScenario()
    ensures var s := Execute(Fallback, ExhaustedEverywhere, true);
      s.outcome == Thrown(Error(Some(QuotaMessage), NoCode)) && s.next == Fallback
      && s.events == [Invoked(FallbackDb)]
  {
  }

  /** A non-quota failure on the primary is thrown unchanged, with no switch
      and no retry. */
  lemma NotFoundScenario()
    ensures var s := Execute(Primary, NotFound, true);
      s.outcome == Thrown(Error(Some(NotFoundMessage), NoCode)) && s.next == Primary
      && s.events == [Invoked(PrimaryDb)]
  {
    NotFoundIsNotQuota();
  }

  /** The controller object through a primary outage and its recovery: a
      quota failure moves it to the fallback, a tick with the primary still
      down leaves it there, and the first success after the primary is back
      returns it to the primary. */
  method OutageAndRecovery() {
    var c := new Controller();
    QuotaMessageIsQuota();
    var r := c.ExecuteWithFallback(ExhaustedPrimary, true);
    assert r == Ok(42) && c.current == Fallback && c.db == FallbackDb;
    assert c.trace == [Invoked(PrimaryDb), Switched(Fallback), Invoked(FallbackDb)];
    c.HealthTick(false);
    assert c.current == Fallback;
    r := c.ExecuteWithFallback(Succeed, true);
    assert r == Ok(7) && c.current == Primary && c.db == PrimaryDb;
  }
}
