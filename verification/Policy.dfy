/** The performance policy and the field-by-field merge of endpoint overrides
    (analysis/policy/policy.go). */
module Policy {
  import opened Sequences

  const SCHEMA_VERSION := 1
  const DEFAULT_MIN_SAMPLES := 30

  /** `Other` stands for any text that is not one of the four verdicts; the
      unset value is `Other("")`. */
  datatype Status = Pass | Warn | Fail | Unknown | Other(text: string)

  const UNSET := Other("")
  const DEFAULT_UNKNOWN_TREATMENT := Warn

  datatype LatencyPolicy = LatencyPolicy(
    maxMs: Option<real>,
    warnMaxMs: Option<real>,
    maxRegressionPercent: Option<real>,
    warnRegressionPercent: Option<real>,
    minAbsoluteRegressionMs: Option<real>)

  datatype ErrorRatePolicy = ErrorRatePolicy(
    maxAbsolute: Option<real>,
    warnMaxAbsolute: Option<real>,
    maxAbsoluteIncrease: Option<real>,
    warnAbsoluteIncrease: Option<real>)

  datatype MetricPolicy = MetricPolicy(
    minSamples: Option<int>,
    p50: Option<LatencyPolicy>,
    p95: Option<LatencyPolicy>,
    p99: Option<LatencyPolicy>,
    errorRate: Option<ErrorRatePolicy>)
  {
    function MinSamplesOrDefault(): int {
      if minSamples.Some? then minSamples.value else DEFAULT_MIN_SAMPLES
    }
  }

  datatype Policy = Policy(
    version: int,
    unknownTreatment: Status,
    defaults: MetricPolicy,
    endpoints: map<string, MetricPolicy>)

  // ----- Loading -----

  function Validate(p: Policy): Result<()> {
    if p.version != SCHEMA_VERSION then Err("unsupported policy version")
    else if p.unknownTreatment == UNSET || p.unknownTreatment in {Pass, Warn, Fail} then Ok(())
    else Err("unknown_treatment must be PASS, WARN, or FAIL")
  }

  /** `decoded` is what the YAML library delivered, None if it failed. */
  function Parse(decoded: Option<Policy>): Result<Policy> {
    match decoded
    case None => Err("failed to parse policy")
    case Some(p) =>
      match Validate(p)
      case Err(e) => Err(e)
      case Ok(_) =>
        Ok(if p.unknownTreatment == UNSET then p.(unknownTreatment := DEFAULT_UNKNOWN_TREATMENT) else p)
  }

  /** A policy that went through `Parse`. */
  ghost predicate Loaded(p: Policy) {
    exists decoded :: Parse(decoded) == Ok(p)
  }

  /** Loading is exactly the check for version 1 with a verdict as treatment,
      and loading a loaded policy again changes nothing. */
  lemma LoadedPolicies(p: Policy)
    ensures Loaded(p) <==> p.version == 1 && p.unknownTreatment in {Pass, Warn, Fail}
    ensures Loaded(p) ==> Parse(Some(p)) == Ok(p)
  {
    if p.version == 1 && p.unknownTreatment in {Pass, Warn, Fail} {
      assert Parse(Some(p)) == Ok(p);
    }
  }

  /** Which policies load, and what loading makes of them: an unset treatment of
      unknowns becomes WARN, everything else stays. */
  lemma LoadingExactly(p: Policy)
    ensures Parse(None).Err?
    ensures Parse(Some(p)).Ok? <==> p.version == 1 && p.unknownTreatment in {Other(""), Pass, Warn, Fail}
    ensures Parse(Some(p)).Ok? ==>
      Parse(Some(p)) == Ok(if p.unknownTreatment == Other("") then p.(unknownTreatment := Warn) else p)
  {}

  // ----- Overrides -----

  /** The override's value where it has one, else the inherited value. */
  function Prefer<T>(override: Option<T>, inherited: Option<T>): Option<T> {
    if override.Some? then override else inherited
  }

  function MergeLatency(base: Option<LatencyPolicy>, override: LatencyPolicy): Option<LatencyPolicy> {
    match base
    case None => Some(override)
    case Some(b) => Some(LatencyPolicy(
      Prefer(override.maxMs, b.maxMs),
      Prefer(override.warnMaxMs, b.warnMaxMs),
      Prefer(override.maxRegressionPercent, b.maxRegressionPercent),
      Prefer(override.warnRegressionPercent, b.warnRegressionPercent),
      Prefer(override.minAbsoluteRegressionMs, b.minAbsoluteRegressionMs)))
  }

  function MergeErrorRate(base: Option<ErrorRatePolicy>, override: ErrorRatePolicy): Option<ErrorRatePolicy> {
    match base
    case None => Some(override)
    case Some(b) => Some(ErrorRatePolicy(
      Prefer(override.maxAbsolute, b.maxAbsolute),
      Prefer(override.warnMaxAbsolute, b.warnMaxAbsolute),
      Prefer(override.maxAbsoluteIncrease, b.maxAbsoluteIncrease),
      Prefer(override.warnAbsoluteIncrease, b.warnAbsoluteIncrease)))
  }

  function Resolve(d: MetricPolicy, o: MetricPolicy): MetricPolicy {
    MetricPolicy(
      Prefer(o.minSamples, d.minSamples),
      if o.p50.Some? then MergeLatency(d.p50, o.p50.value) else d.p50,
      if o.p95.Some? then MergeLatency(d.p95, o.p95.value) else d.p95,
      if o.p99.Some? then MergeLatency(d.p99, o.p99.value) else d.p99,
      if o.errorRate.Some? then MergeErrorRate(d.errorRate, o.errorRate.value) else d.errorRate)
  }

  function EffectiveMetricPolicy(p: Policy, endpoint: string): MetricPolicy {
    if endpoint in p.endpoints then Resolve(p.defaults, p.endpoints[endpoint]) else p.defaults
  }

  // ----- Individual settings -----

  /** Everything a policy can set for one endpoint. */
  datatype Setting =
    | MinSamples
    | Latency(percentile: Percentile, field: LatencyField)
    | Errors(errorField: ErrorField)

  datatype Percentile = P50th | P95th | P99th
  datatype LatencyField = MaxMs | WarnMaxMs | MaxRegressionPercent | WarnRegressionPercent | MinAbsoluteRegressionMs
  datatype ErrorField = MaxAbsolute | WarnMaxAbsolute | MaxAbsoluteIncrease | WarnAbsoluteIncrease

  function LatencySetting(lp: LatencyPolicy, f: LatencyField): Option<real> {
    match f
    case MaxMs => lp.maxMs
    case WarnMaxMs => lp.warnMaxMs
    case MaxRegressionPercent => lp.maxRegressionPercent
    case WarnRegressionPercent => lp.warnRegressionPercent
    case MinAbsoluteRegressionMs => lp.minAbsoluteRegressionMs
  }

  function ErrorSetting(ep: ErrorRatePolicy, f: ErrorField): Option<real> {
    match f
    case MaxAbsolute => ep.maxAbsolute
    case WarnMaxAbsolute => ep.warnMaxAbsolute
    case MaxAbsoluteIncrease => ep.maxAbsoluteIncrease
    case WarnAbsoluteIncrease => ep.warnAbsoluteIncrease
  }

  function PercentilePolicy(mp: MetricPolicy, p: Percentile): Option<LatencyPolicy> {
    match p
    case P50th => mp.p50
    case P95th => mp.p95
    case P99th => mp.p99
  }

  /** The value one setting has in a metric policy, None where it is unset. */
  function Lookup(mp: MetricPolicy, s: Setting): Option<real> {
    match s
    case MinSamples => if mp.minSamples.Some? then Some(mp.minSamples.value as real) else None
    case Latency(p, f) =>
      var lp := PercentilePolicy(mp, p);
      if lp.Some? then LatencySetting(lp.value, f) else None
    case Errors(f) =>
      if mp.errorRate.Some? then ErrorSetting(mp.errorRate.value, f) else None
  }

  /** The documented override rule: every single setting comes from the
      endpoint's override if set there and from the defaults otherwise. */
  lemma OverridesMergeFieldByField(p: Policy, endpoint: string, s: Setting)
    ensures Lookup(EffectiveMetricPolicy(p, endpoint), s)
         == if endpoint in p.endpoints && Lookup(p.endpoints[endpoint], s).Some?
            then Lookup(p.endpoints[endpoint], s)
            else Lookup(p.defaults, s)
  {}
}
