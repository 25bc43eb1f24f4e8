/** The `/health` route (backend/src/routes/health.ts): the queue probe's
    result shaping, the aggregation of the three probe outcomes into
    healthy / degraded / unhealthy, the HTTP code, and the circuit-breaker
    report. The probes themselves, memory usage, uptime and the timestamp are
    inputs or left out. */
module Health {
  import opened Wrappers
  import Text

  datatype ProbeStatus = Connected | Error
  /** A database or redis probe: its outcome and measured latency. */
  datatype Probe = Probe(status: ProbeStatus, latencyMs: int)

  datatype QueueStatus = Running | Stopped
  datatype QueueState = QueueState(status: QueueStatus, pendingJobs: int, completedJobs: int, failedJobs: int)

  /** `stats.summary`, each count possibly missing. */
  datatype Summary = Summary(waiting: Option<int>, completed: Option<int>, failed: Option<int>)
  /** What `getQueueStats()` did: threw, or returned a possibly missing summary. */
  datatype QueueStats = StatsFailed | Stats(summary: Option<Summary>)

  /** `checkQueue`: a failed probe is a stopped queue with all counts zero; a
      successful one is running, each missing count read as zero. */
  function CheckQueue(stats: QueueStats): (q: QueueState)
    ensures stats.StatsFailed? <==> q.status == Stopped
    ensures stats.StatsFailed? ==> q.pendingJobs == 0 && q.completedJobs == 0 && q.failedJobs == 0
    ensures stats.Stats? && stats.summary.None? ==> q == QueueState(Running, 0, 0, 0)
    ensures stats.Stats? && stats.summary.Some? ==>
              q.pendingJobs == stats.summary.value.waiting.GetOr(0)
              && q.completedJobs == stats.summary.value.completed.GetOr(0)
              && q.failedJobs == stats.summary.value.failed.GetOr(0)
  {
    match stats
    case StatsFailed => QueueState(Stopped, 0, 0, 0)
    case Stats(summary) =>
      var waiting := if summary.Some? then summary.value.waiting else None;
      var completed := if summary.Some? then summary.value.completed else None;
      var failed := if summary.Some? then summary.value.failed else None;
      QueueState(Running, waiting.GetOr(0), completed.GetOr(0), failed.GetOr(0))
  }

  datatype HealthStatus = Healthy | Degraded | Unhealthy

  /** The reference definition: unhealthy when both stores are down, degraded
      when anything else is wrong, healthy otherwise. */
  function OverallStatus(database: ProbeStatus, redis: ProbeStatus, queue: QueueStatus): HealthStatus {
    if database == Error && redis == Error then Unhealthy
    else if database == Error || redis == Error || queue == Stopped then Degraded
    else Healthy
  }

  /** The handler's `let status` reassignments, in order: start healthy,
      downgrade to degraded on any problem, then to unhealthy when both
      stores failed. */
  method AggregateStatus(database: ProbeStatus, redis: ProbeStatus, queue: QueueStatus) returns (status: HealthStatus)
    ensures status == OverallStatus(database, redis, queue)
    ensures status == Unhealthy <==> database == Error && redis == Error
    ensures status == Degraded <==> !(database == Error && redis == Error)
                                    && (database == Error || redis == Error || queue == Stopped)
    ensures status == Healthy <==> database == Connected && redis == Connected && queue == Running
  {
    status := Healthy;
    if database == Error || redis == Error || queue == Stopped {
      status := Degraded;
    }
    if database == Error && redis == Error {
      status := Unhealthy;
    }
  }

  /** `status === "unhealthy" ? 503 : 200`. */
  function HttpStatusCode(status: HealthStatus): (code: int)
    ensures code == 503 <==> status == Unhealthy
    ensures code == 200 <==> status != Unhealthy
  {
    if status == Unhealthy then 503 else 200
  }

  /** Severity order: healthy < degraded < unhealthy. */
  function Severity(s: HealthStatus): int {
    match s
    case Healthy => 0
    case Degraded => 1
    case Unhealthy => 2
  }

  /** Making any probe worse never makes the overall status better. */
  lemma StatusMonotone(d1: ProbeStatus, r1: ProbeStatus, q1: QueueStatus, d2: ProbeStatus, r2: ProbeStatus, q2: QueueStatus)
    requires d1 == Error ==> d2 == Error
    requires r1 == Error ==> r2 == Error
    requires q1 == Stopped ==> q2 == Stopped
    ensures Severity(OverallStatus(d1, r1, q1)) <= Severity(OverallStatus(d2, r2, q2))
  {
  }

  /** The queue alone can at worst degrade the service: it never decides
      between unhealthy and not. */
  lemma QueueNeverUnhealthy(database: ProbeStatus, redis: ProbeStatus, q1: QueueStatus, q2: QueueStatus)
    ensures OverallStatus(database, redis, q1) == Unhealthy <==> OverallStatus(database, redis, q2) == Unhealthy
  {
  }

  /** `geminiService.getCircuitBreakerState()`, an input to the route. */
  datatype CircuitSnapshot = CircuitSnapshot(state: string, failureCount: int, lastFailure: Option<string>)
  datatype GeminiReport = GeminiReport(circuitBreaker: string, failures: int, lastFailure: Option<string>)

  /** The `gemini` block: the breaker state upper-cased, the rest passed through. */
  function ReportCircuit(c: CircuitSnapshot): (g: GeminiReport)
    ensures |g.circuitBreaker| == |c.state|
    ensures forall i :: 0 <= i < |c.state| ==> g.circuitBreaker[i] == Text.UpperChar(c.state[i])
    ensures g.failures == c.failureCount && g.lastFailure == c.lastFailure
  {
    GeminiReport(Text.ToUpper(c.state), c.failureCount, c.lastFailure)
  }

  datatype HealthReport = HealthReport(
    status: HealthStatus,
    database: Probe,
    redis: Probe,
    queue: QueueState,
    gemini: GeminiReport)

  /** The `/health` handler: the report and the HTTP code it is sent with. */
  function CheckHealth(database: Probe, redis: Probe, stats: QueueStats, circuit: CircuitSnapshot): (r: (HealthReport, int))
    ensures r.0.status == OverallStatus(database.status, redis.status, CheckQueue(stats).status)
    ensures r.1 == HttpStatusCode(r.0.status)
    ensures r.0.database == database && r.0.redis == redis && r.0.queue == CheckQueue(stats)
    ensures r.0.gemini == ReportCircuit(circuit)
  {
    var queue := CheckQueue(stats);
    var status := OverallStatus(database.status, redis.status, queue.status);
    (HealthReport(status, database, redis, queue, ReportCircuit(circuit)), HttpStatusCode(status))
  }

  /** The circuit breaker is reported but never affects the status or code. */
  lemma CircuitIgnored(database: Probe, redis: Probe, stats: QueueStats, c1: CircuitSnapshot, c2: CircuitSnapshot)
    ensures CheckHealth(database, redis, stats, c1).0.status == CheckHealth(database, redis, stats, c2).0.status
    ensures CheckHealth(database, redis, stats, c1).1 == CheckHealth(database, redis, stats, c2).1
  {
  }

  /** A failed queue probe alone gives a degraded 200. */
  lemma QueueFailureDegrades(database: Probe, redis: Probe, circuit: CircuitSnapshot)
    requires database.status == Connected && redis.status == Connected
    ensures CheckHealth(database, redis, StatsFailed, circuit).0.status == Degraded
    ensures CheckHealth(database, redis, StatsFailed, circuit).1 == 200
  {
  }
}
