/**
 * The job table built by `start_scheduler` in scheduler/scheduler.py and
 * the decision taken by `renew_token`.
 *
 * The scheduler object is a `BackgroundScheduler` whose state is the list
 * of registered jobs and whether it has been started; what the library
 * does with the jobs once started (timers, worker threads) is not modelled.
 */
module Scheduler {
  import opened Wrappers
  import opened Text
  import opened Decimal

  const IntervalVariable := "SCHEDULER_INTERVAL_HOURS"
  /** The value `os.getenv` falls back to when the variable is unset. */
  const DefaultIntervalSetting := "48"
  /** The interval actually assigned when the setting is invalid (the accompanying message speaks of 48). */
  const FallbackIntervalHours := 1

  const RenewScriptPath := "/app/renew_token.sh"
  const CollectorJobId := "resource_collector_job"
  const MetricJobId := "metric_extraction_job"

  /** `os.getenv(IntervalVariable)`: the setting, when the variable is set. */
  function IntervalSetting(env: map<string, string>): Option<string> {
    if IntervalVariable in env then Some(env[IntervalVariable]) else None
  }

  /**
   * The collection interval in hours: the setting (or "48" when unset)
   * parsed as an integer, kept when positive and replaced by 1 when it is
   * zero, negative or not an integer at all.
   */
  function CollectionIntervalHours(setting: Option<string>): (hours: int)
    ensures hours >= 1
    ensures hours == FallbackIntervalHours ||
            ParseInt(if setting.Some? then setting.value else DefaultIntervalSetting) == Some(hours)
    ensures var parsed := ParseInt(if setting.Some? then setting.value else DefaultIntervalSetting);
      parsed.Some? && parsed.value > 0 ==> hours == parsed.value
  {
    var text := if setting.Some? then setting.value else DefaultIntervalSetting;
    match ParseInt(text)
    case Some(n) => if n <= 0 then FallbackIntervalHours else n
    case None => FallbackIntervalHours
  }

  /** With the variable unset the interval is 48 hours. */
  lemma IntervalWhenUnset()
    ensures CollectionIntervalHours(None) == 48
  {
    assert Format(48) == DefaultIntervalSetting by {
      assert Digits(4) == "4";
    }
    FormatParseRoundTrip(48);
  }

  /** A positive number within the digit limit, possibly surrounded by whitespace, is the interval. */
  lemma IntervalWhenPositive(pre: string, n: int, post: string)
    requires n > 0 && |Digits(n)| <= MaxStrDigits
    requires AllIn(pre, IntWhitespace) && AllIn(post, IntWhitespace)
    ensures CollectionIntervalHours(Some(pre + Format(n) + post)) == n
  {
    ParseIgnoresSurroundingWhitespace(pre, n, post);
  }

  /**
   * Any spelling of a numeral that `int` accepts, such as `+5`, `007` or
   * ` -0 `, gives its value when that is positive, and one hour otherwise.
   */
  lemma IntervalWhenSpelledNumeral(text: string, pre: string, sign: string, ds: string, post: string)
    requires IsPaddedNumeral(text, pre, sign, ds, post)
    ensures var n := SignedValue(sign, ds);
      CollectionIntervalHours(Some(text)) == if n > 0 then n else FallbackIntervalHours
  {
    ParseAcceptsPaddedNumeral(text, pre, sign, ds, post);
  }

  /** Zero or a negative number falls back to one hour, not to 48. */
  lemma IntervalWhenNotPositive(n: int)
    requires n <= 0 && |Digits(-n)| <= MaxStrDigits
    ensures CollectionIntervalHours(Some(Format(n))) == 1
  {
    FormatParseRoundTrip(n);
  }

  /** A setting with more digits than `int` converts falls back to one hour. */
  lemma IntervalWhenTooManyDigits(ds: string)
    requires AllDigits(ds) && |ds| > MaxStrDigits
    ensures CollectionIntervalHours(Some(ds)) == 1
  {
    ParseRefusesTooManyDigits("", "", ds, "");
    assert "" + "" + ds + "" == ds;
  }

  /** Text with no digit at all, the empty string among it, falls back to one hour. */
  lemma IntervalWhenNotANumber(text: string)
    requires forall i :: 0 <= i < |text| ==> !IsDigit(text[i])
    ensures CollectionIntervalHours(Some(text)) == 1
  {
  }

  /** The callables the scheduler runs. */
  datatype JobFunc = RenewToken | CollectResources | ExtractMetrics

  /** An `'interval'` trigger with its `hours=` and `minutes=` arguments. */
  datatype Interval = Interval(hours: int, minutes: int) {
    function Minutes(): int { hours * 60 + minutes }
  }

  /** One `add_job` registration; `id` is `None` when the caller gives none. */
  datatype Job = Job(func: JobFunc, trigger: Interval, id: Option<string>)

  /**
   * The job table `start_scheduler` registers, in registration order, for a
   * resolved collection interval of `intervalHours` hours.
   */
  function JobTable(intervalHours: int): (jobs: seq<Job>)
    requires intervalHours >= 1
    ensures |jobs| == 3
    ensures forall k :: 0 <= k < |jobs| ==> jobs[k].trigger.Minutes() > 0
    ensures forall k, m :: 0 <= k < m < |jobs| ==> jobs[k].func != jobs[m].func
    ensures forall k, m :: 0 <= k < m < |jobs| && jobs[k].id.Some? ==> jobs[k].id != jobs[m].id
  {
    var renewal := Job(RenewToken, Interval(24, 0), None);
    var collection := Job(CollectResources, Interval(intervalHours, 0), Some(CollectorJobId));
    var metrics := Job(ExtractMetrics, Interval(0, 60), Some(MetricJobId));
    assert collection.trigger.Minutes() > 0;
    assert collection.id != metrics.id;
    [renewal, collection, metrics]
  }

  /** The job table for the interval resolved from the environment. */
  function ScheduledJobs(env: map<string, string>): seq<Job> {
    JobTable(CollectionIntervalHours(IntervalSetting(env)))
  }

  /** Only the collection job depends on the environment. */
  lemma OnlyCollectionDependsOnEnvironment(env1: map<string, string>, env2: map<string, string>)
    ensures ScheduledJobs(env1)[0] == ScheduledJobs(env2)[0]
    ensures ScheduledJobs(env1)[2] == ScheduledJobs(env2)[2]
    ensures ScheduledJobs(env1)[1].trigger.Minutes() == 60 * CollectionIntervalHours(IntervalSetting(env1))
  {
  }

  /** A `BackgroundScheduler`: the jobs added so far and whether it was started. */
  class BackgroundScheduler {
    var jobs: seq<Job>
    var running: bool

    constructor ()
      ensures jobs == [] && !running
    {
      jobs := [];
      running := false;
    }

    /** `add_job`: the job is appended to the table. */
    method AddJob(job: Job)
      modifies this
      ensures jobs == old(jobs) + [job]
      ensures running == old(running)
    {
      jobs := jobs + [job];
    }

    /** `start`: the scheduler runs the jobs it holds. */
    method Start()
      modifies this
      ensures running
      ensures jobs == old(jobs)
    {
      running := true;
    }
  }

  /**
   * `start_scheduler`: a new scheduler holding exactly the renewal job
   * (every 24 hours, no id), the collection job (every interval hours) and
   * the metric job (every 60 minutes), in that order, and started.
   */
  method StartScheduler(env: map<string, string>) returns (scheduler: BackgroundScheduler)
    ensures fresh(scheduler)
    ensures scheduler.running
    ensures scheduler.jobs == ScheduledJobs(env)
  {
    var intervalHours := CollectionIntervalHours(IntervalSetting(env));
    var renewal := Job(RenewToken, Interval(24, 0), None);
    var collection := Job(CollectResources, Interval(intervalHours, 0), Some(CollectorJobId));
    var metrics := Job(ExtractMetrics, Interval(0, 60), Some(MetricJobId));
    scheduler := new BackgroundScheduler();
    scheduler.AddJob(renewal);
    scheduler.AddJob(collection);
    scheduler.AddJob(metrics);
    scheduler.Start();
    assert scheduler.jobs == [renewal, collection, metrics] == JobTable(intervalHours);
  }

  /** What one run of `renew_token` does. */
  datatype RenewAction =
    | RunScript(argv: seq<string>)
    | WarnMissing(path: string)

  /**
   * `renew_token`: run the renewal script with bash exactly when it exists
   * among the paths present on the file system; otherwise only warn.
   */
  function RenewTokenAction(existingPaths: set<string>): (action: RenewAction)
    ensures action.RunScript? <==> RenewScriptPath in existingPaths
    ensures action.RunScript? ==> action.argv == ["/bin/bash", RenewScriptPath]
    ensures action.WarnMissing? ==> action.path == RenewScriptPath
  {
    if RenewScriptPath in existingPaths then RunScript(["/bin/bash", RenewScriptPath])
    else WarnMissing(RenewScriptPath)
  }
}
