/** The system-health report: the database check, the two service probes, the storage
    figures of the compressor and the overall verdict. Probe outcomes are inputs. */
module Health {
  import opened Common
  import opened Tasks
  import opened Calendar
  import opened Ledger

  const CONNECTED := "連線正常"
  const NO_CLIENT := "MongoDB client 未初始化"
  const SERVICE_OK := "服務正常"
  const TIMED_OUT := "連線超時"
  const HTTP_PREFIX := "HTTP "
  const COLLECTIONS_FIELD := "collections"

  /** The status of a section or of the whole report: "healthy", "unhealthy" or "degraded". */
  datatype Verdict = Healthy | Unhealthy | Degraded

  // ---------------------------------------------------------------------------
  // Probe outcomes (inputs)

  /** What `response.json()` gives: a JSON object, or the error of a body that is not one. */
  datatype Body = JsonObject(fields: map<string, Value>) | NotAnObject(error: string)

  /** The outcome of one `requests.get(..., timeout=5)`, with the elapsed milliseconds. */
  datatype Probe = Answered(code: nat, latencyMs: int, body: Body) | TimedOut | Failed(error: string)

  /** The outcome of `dbStats` on the compressor database. */
  datatype StatsProbe = NoCompressorDb | StatsFailed(error: string) | StatsOk(fields: map<string, Value>)

  /** What happens after a successful ping: the collection handles are missing, one of the
      counts raises, or all counts succeed and the `dbStats` step follows. */
  datatype HandlesProbe = NoCollections | CountFailed(error: string) | Counted(stats: StatsProbe)

  /** The outcome of the database check: no client, a failed ping, or a ping that answered. */
  datatype DbProbe = NoClient | PingFailed(error: string) | Pinged(handles: HandlesProbe)

  // ---------------------------------------------------------------------------
  // Report sections

  datatype DbCounts = DbCounts(
    totalTasks: nat, processingTasks: nat, waitingTasks: nat, completedToday: nat, holidaysCount: nat)

  datatype DatabaseSection = DatabaseSection(
    status: Verdict, message: string, counts: Option<DbCounts>, collectionsCount: Option<Value>)

  datatype ServiceSection = ServiceSection(
    status: Verdict, message: string, responseTimeMs: Option<int>, url: string)

  datatype Storage = Storage(
    usedMb: Value, totalMb: Value, availableMb: Value, usagePercent: Value, fileCount: Value, warningLevel: Value)

  /** The response; `storage` is None where the handler leaves it the empty object. */
  datatype HealthReport = HealthReport(
    timestamp: int, database: DatabaseSection, compressor: ServiceSection, schedule: ServiceSection,
    storage: Option<Storage>, overall: Verdict)

  // ---------------------------------------------------------------------------
  // The database section

  predicate IsProcessing(t: Task) { HasStatus(t.status, PROCESSING) }

  predicate IsWaiting(t: Task) { HasStatus(t.status, WAITING) }

  /** Completed at or after local midnight (`midnight` is that instant, in seconds). */
  predicate CompletedSince(t: Task, midnight: int) { HasStatus(t.status, COMPLETED) && t.createdAt >= midnight }

  /** The figures of the database section: tasks, tasks per status, and holidays. */
  function CountsOf(ts: seq<Task>, holidays: Records, midnight: int): (c: DbCounts)
    ensures c.totalTasks == |ts| && c.holidaysCount == |holidays|
    ensures c.processingTasks <= c.totalTasks && c.waitingTasks <= c.totalTasks && c.completedToday <= c.totalTasks
    ensures c.processingTasks == 0 <==> forall i :: 0 <= i < |ts| ==> !IsProcessing(ts[i])
    ensures c.waitingTasks == 0 <==> forall i :: 0 <= i < |ts| ==> !IsWaiting(ts[i])
    ensures c.completedToday == 0 <==> forall i :: 0 <= i < |ts| ==> !CompletedSince(ts[i], midnight)
  {
    CountIsZero(ts, IsProcessing);
    CountIsZero(ts, IsWaiting);
    CountIsZero(ts, (t: Task) => CompletedSince(t, midnight));
    DbCounts(|ts|, Count(ts, IsProcessing), Count(ts, IsWaiting),
             Count(ts, (t: Task) => CompletedSince(t, midnight)), |holidays|)
  }

  /** The statuses counted are pairwise exclusive, so the three counts never exceed the total. */
  lemma {:induction false} CountsWithinTotal(ts: seq<Task>, holidays: Records, midnight: int)
    ensures var c := CountsOf(ts, holidays, midnight);
      c.processingTasks + c.waitingTasks + c.completedToday <= c.totalTasks
  {
    if ts != [] {
      CountsWithinTotal(ts[1..], holidays, midnight);
    }
  }

  /** Whether the database check ends healthy: a ping that answers and no later step that raises. */
  predicate DbHealthy(db: DbProbe)
  {
    db.Pinged? && !db.handles.CountFailed? && !(db.handles.Counted? && db.handles.stats.StatsFailed?)
  }

  /** The database section for a given check outcome over the stored tasks and holidays. */
  function DatabaseOf(db: DbProbe, ts: seq<Task>, holidays: Records, midnight: int): (d: DatabaseSection)
    ensures d.status == Healthy <==> DbHealthy(db)
    ensures d.status != Healthy ==> d.status == Unhealthy
    ensures d.status == Healthy ==> d.message == CONNECTED
    ensures d.counts.Some? <==> db.Pinged? && db.handles.Counted?
    ensures d.counts.Some? ==> d.counts.value == CountsOf(ts, holidays, midnight)
    ensures d.collectionsCount.Some? <==> db.Pinged? && db.handles.Counted? && db.handles.stats.StatsOk?
    ensures d.collectionsCount.Some? ==>
      d.collectionsCount.value == Get(db.handles.stats.fields, COLLECTIONS_FIELD, Num(0))
    ensures db.NoClient? ==> d.message == NO_CLIENT
    ensures db.PingFailed? ==> d.message == db.error
    ensures db.Pinged? && db.handles.CountFailed? ==> d.message == db.handles.error
    ensures db.Pinged? && db.handles.Counted? && db.handles.stats.StatsFailed? ==>
      d.message == db.handles.stats.error
  {
    match db
    case NoClient => DatabaseSection(Unhealthy, NO_CLIENT, None, None)
    case PingFailed(e) => DatabaseSection(Unhealthy, e, None, None)
    case Pinged(NoCollections) => DatabaseSection(Healthy, CONNECTED, None, None)
    case Pinged(CountFailed(e)) => DatabaseSection(Unhealthy, e, None, None)
    case Pinged(Counted(stats)) =>
      var counts := Some(CountsOf(ts, holidays, midnight));
      match stats
      case NoCompressorDb => DatabaseSection(Healthy, CONNECTED, counts, None)
      case StatsFailed(e) => DatabaseSection(Unhealthy, e, counts, None)
      case StatsOk(f) => DatabaseSection(Healthy, CONNECTED, counts, Some(Get(f, COLLECTIONS_FIELD, Num(0))))
  }

  // ---------------------------------------------------------------------------
  // The service probes

  /** The classification of a probe whose body is not read (the schedule service). */
  function ServiceOf(probe: Probe, url: string): (s: ServiceSection)
    ensures s.url == url
    ensures s.status == Healthy <==> probe.Answered? && probe.code == 200
    ensures s.status != Healthy ==> s.status == Unhealthy
    ensures s.responseTimeMs.Some? <==> probe.Answered?
    ensures s.responseTimeMs.Some? ==> s.responseTimeMs.value == probe.latencyMs
    ensures probe.TimedOut? ==> s.message == TIMED_OUT
    ensures probe.Failed? ==> s.message == probe.error
  {
    match probe
    case Answered(code, latency, _) =>
      if code == 200 then ServiceSection(Healthy, SERVICE_OK, Some(latency), url)
      else ServiceSection(Unhealthy, HTTP_PREFIX + Decimal(code), Some(latency), url)
    case TimedOut => ServiceSection(Unhealthy, TIMED_OUT, None, url)
    case Failed(e) => ServiceSection(Unhealthy, e, None, url)
  }

  /** An answer other than 200 is reported as "HTTP " followed by the code, which reads back. */
  lemma HttpMessageNamesCode(probe: Probe, url: string)
    requires probe.Answered? && probe.code != 200
    ensures var m := ServiceOf(probe, url).message;
      && |m| > |HTTP_PREFIX| && m[..|HTTP_PREFIX|] == HTTP_PREFIX
      && IsDigits(m[|HTTP_PREFIX|..]) && ParseDecimal(m[|HTTP_PREFIX|..]) == probe.code
  {
    var m := ServiceOf(probe, url).message;
    assert m[|HTTP_PREFIX|..] == Decimal(probe.code);
    ParseDecimalOfDecimal(probe.code);
  }

  /** Two different failing codes are told apart by their messages. */
  lemma HttpMessagesDistinct(p: Probe, q: Probe, url: string)
    requires p.Answered? && q.Answered? && p.code != 200 && q.code != 200
    requires ServiceOf(p, url).message == ServiceOf(q, url).message
    ensures p.code == q.code
  {
    var m := ServiceOf(p, url).message;
    assert Decimal(p.code) == m[|HTTP_PREFIX|..] == Decimal(q.code);
    DecimalInjective(p.code, q.code);
  }

  /** The storage figures the compressor reports, each defaulted when the field is absent. */
  function StorageOf(f: map<string, Value>): (s: Storage)
    ensures s.usedMb == Get(f, "used_space_mb", Num(0))
    ensures s.totalMb == Get(f, "total_space_mb", Num(512))
    ensures s.availableMb == Get(f, "available_mb", Num(0))
    ensures s.usagePercent == Get(f, "usage_percent", Num(0))
    ensures s.fileCount == Get(f, "file_count", Num(0))
    ensures s.warningLevel == Get(f, "warning_level", Str("normal"))
  {
    Storage(
      if "used_space_mb" in f then f["used_space_mb"] else Num(0),
      if "total_space_mb" in f then f["total_space_mb"] else Num(512),
      if "available_mb" in f then f["available_mb"] else Num(0),
      if "usage_percent" in f then f["usage_percent"] else Num(0),
      if "file_count" in f then f["file_count"] else Num(0),
      if "warning_level" in f then f["warning_level"] else Str("normal"))
  }

  /** A compressor that reports nothing is shown with 512 MB total, level "normal" and zeros. */
  lemma StorageDefaults()
    ensures StorageOf(map[]) == Storage(Num(0), Num(512), Num(0), Num(0), Num(0), Str("normal"))
  {
  }

  /** The compressor probe reads its body: a 200 whose body is not a JSON object fails like
      any other error (the section was set healthy, then replaced by the exception's message). */
  function CompressorOf(probe: Probe, url: string): (r: (ServiceSection, Option<Storage>))
    ensures r.1.Some? <==> probe.Answered? && probe.code == 200 && probe.body.JsonObject?
    ensures r.1.Some? ==> r.1.value == StorageOf(probe.body.fields)
    ensures r.0.status == Healthy <==> r.1.Some?
    ensures !(probe.Answered? && probe.code == 200 && probe.body.NotAnObject?) ==> r.0 == ServiceOf(probe, url)
    ensures probe.Answered? && probe.code == 200 && probe.body.NotAnObject? ==>
      r.0 == ServiceSection(Unhealthy, probe.body.error, None, url)
  {
    match probe
    case Answered(200, latency, JsonObject(f)) =>
      (ServiceSection(Healthy, SERVICE_OK, Some(latency), url), Some(StorageOf(f)))
    case Answered(200, _, NotAnObject(e)) => (ServiceSection(Unhealthy, e, None, url), None)
    case _ => (ServiceOf(probe, url), None)
  }

  // ---------------------------------------------------------------------------
  // Composition

  /** The verdict: healthy when every section is, degraded otherwise, never unhealthy. */
  function Overall(db: DatabaseSection, compressor: ServiceSection, schedule: ServiceSection): (h: Verdict)
    ensures h != Unhealthy
    ensures h == Healthy <==> db.status == Healthy && compressor.status == Healthy && schedule.status == Healthy
  {
    if db.status == Healthy && compressor.status == Healthy && schedule.status == Healthy
    then Healthy else Degraded
  }

  /** The whole report for the given store contents and probe outcomes. */
  function HealthReportOf(now: int, midnight: int, ts: seq<Task>, holidays: Records,
                          db: DbProbe, compressor: Probe, schedule: Probe,
                          compressorUrl: string, scheduleUrl: string): (r: HealthReport)
    ensures r.timestamp == now
    ensures r.database == DatabaseOf(db, ts, holidays, midnight)
    ensures (r.compressor, r.storage) == CompressorOf(compressor, compressorUrl)
    ensures r.schedule == ServiceOf(schedule, scheduleUrl)
    ensures r.overall == Overall(r.database, r.compressor, r.schedule)
  {
    var database := DatabaseOf(db, ts, holidays, midnight);
    var (compressorSection, storage) := CompressorOf(compressor, compressorUrl);
    var scheduleSection := ServiceOf(schedule, scheduleUrl);
    HealthReport(now, database, compressorSection, scheduleSection, storage,
                 Overall(database, compressorSection, scheduleSection))
  }

  /** The report is healthy exactly when the database check and both probes succeed, and it is
      degraded otherwise: the overall status is never "unhealthy". */
  lemma OverallVerdict(now: int, midnight: int, ts: seq<Task>, holidays: Records,
                       db: DbProbe, compressor: Probe, schedule: Probe, cu: string, su: string)
    ensures var r := HealthReportOf(now, midnight, ts, holidays, db, compressor, schedule, cu, su);
      && r.overall != Unhealthy
      && (r.overall == Healthy <==>
            && DbHealthy(db)
            && compressor.Answered? && compressor.code == 200 && compressor.body.JsonObject?
            && schedule.Answered? && schedule.code == 200)
      && (r.overall == Healthy <==>
            r.database.status == Healthy && r.compressor.status == Healthy && r.schedule.status == Healthy)
  {
    var r := HealthReportOf(now, midnight, ts, holidays, db, compressor, schedule, cu, su);
    var c := CompressorOf(compressor, cu);
    assert r.compressor == c.0;
  }

  /** A failing database check changes only the database section and the verdict: both probes
      still run and report exactly what they would have reported. */
  lemma DatabaseFailureIsolated(now: int, midnight: int, ts: seq<Task>, holidays: Records,
                                db1: DbProbe, db2: DbProbe, compressor: Probe, schedule: Probe,
                                cu: string, su: string)
    ensures var r1 := HealthReportOf(now, midnight, ts, holidays, db1, compressor, schedule, cu, su);
      var r2 := HealthReportOf(now, midnight, ts, holidays, db2, compressor, schedule, cu, su);
      r1.compressor == r2.compressor && r1.schedule == r2.schedule && r1.storage == r2.storage
  {
  }

  /** A database failure alone leaves the report degraded, not unhealthy. */
  lemma DatabaseFailureDegrades(now: int, midnight: int, ts: seq<Task>, holidays: Records,
                                db: DbProbe, compressor: Probe, schedule: Probe, cu: string, su: string)
    requires !DbHealthy(db)
    ensures var r := HealthReportOf(now, midnight, ts, holidays, db, compressor, schedule, cu, su);
      r.database.status == Unhealthy && r.overall == Degraded
  {
  }

  /** GET /admin/api/system-health: fills the report section by section. */
  method SystemHealth(authorized: bool, now: int, midnight: int,
                      ledger: TaskLedger, calendar: HolidayCalendar,
                      db: DbProbe, compressor: Probe, schedule: Probe,
                      compressorUrl: string, scheduleUrl: string) returns (r: Reply<HealthReport>)
    ensures !authorized ==> r == Err(Unauthorized)
    ensures authorized ==> r == Ok(HealthReportOf(now, midnight, ledger.tasks, calendar.records,
                                                  db, compressor, schedule, compressorUrl, scheduleUrl))
  {
    if !authorized {
      return Err(Unauthorized);
    }
    // the database check
    var dbStatus, dbMessage, counts, collections := Unhealthy, NO_CLIENT, None, None;
    match db {
      case NoClient =>
      case PingFailed(e) =>
        dbMessage := e;
      case Pinged(handles) =>
        dbStatus, dbMessage := Healthy, CONNECTED;
        match handles {
          case NoCollections =>
          case CountFailed(e) =>
            dbStatus, dbMessage := Unhealthy, e;
          case Counted(stats) =>
            var ts := ledger.tasks;
            var total := |ts|;
            var processing := Count(ts, IsProcessing);
            var waiting := Count(ts, IsWaiting);
            var today := Count(ts, (t: Task) => CompletedSince(t, midnight));
            var holidaysCount := |calendar.records|;
            counts := Some(DbCounts(total, processing, waiting, today, holidaysCount));
            match stats {
              case NoCompressorDb =>
              case StatsFailed(e) =>
                dbStatus, dbMessage := Unhealthy, e;
              case StatsOk(f) =>
                collections := Some(Get(f, COLLECTIONS_FIELD, Num(0)));
            }
        }
    }
    var database := DatabaseSection(dbStatus, dbMessage, counts, collections);
    // the compressor probe, then its storage figures
    var compressorSection := ServiceOf(compressor, compressorUrl);
    var storage := None;
    if compressor.Answered? && compressor.code == 200 {
      match compressor.body {
        case JsonObject(f) =>
          storage := Some(StorageOf(f));
        case NotAnObject(e) =>
          compressorSection := ServiceSection(Unhealthy, e, None, compressorUrl);
      }
    }
    // the schedule probe
    var scheduleSection := ServiceOf(schedule, scheduleUrl);
    var allHealthy := database.status == Healthy && compressorSection.status == Healthy && scheduleSection.status == Healthy;
    r := Ok(HealthReport(now, database, compressorSection, scheduleSection, storage,
                         if allHealthy then Healthy else Degraded));
  }
}
