/**
 The endurance gate: the supervisor that reads heartbeats and a final summary from the child
 process, and the independent verifier that later accepts or rejects its evidence.
 */
module Endurance {
  import opened PythonValues
  import opened Wrappers

  function PyIncrement(v: Json): Json
    requires IsNumber(v)
  {
    match v
    case Int(i) => Int(i + 1)
    case Float(r) => Float(r + 1.0)
    case Bool(b) => Int(if b then 2 else 1)
  }

  const PROFILES: set<string> :=
    {"abrupt_peer_reset", "callback_exception", "output_overload", "healthy_recovery", "forced_shutdown"}

  const MAX_RSS: int := 512 * 1024 * 1024
  const MAX_GROWTH: int := 64 * 1024 * 1024

  /** The fields both event kinds carry; `profiles` is None unless it is a JSON object. */
  datatype Report = Report(passed: bool, cycle: Json, elapsed: Json, profiles: Option<map<string, Json>>)

  /** One line of child output, with what the environment answers: the resident set read from /proc
      (None if unreadable) and whether the acknowledgment reached the child. */
  datatype Event =
    | LogLine
    | Heartbeat(report: Report, rss: Option<nat>, acknowledged: bool)
    | Summary(report: Report)
    | Invalid       // malformed JSON, another schema, or the heartbeat timeout

  datatype Mode = Candidate1h | Release3h
  datatype Platform = Linux | Windows

  function Duration(mode: Mode): int { match mode case Candidate1h => 3600 case Release3h => 10800 }

  datatype Identity = Identity(mode: Mode, candidateSha: string, platform: Platform, runId: nat, runAttempt: nat)

  datatype Rss = Rss(samples: nat, first: nat, last: nat, minimum: nat, maximum: nat)

  datatype Memory = Unsupported | Supported(rss: Rss, growth: int)

  datatype Evidence = Evidence(identity: Identity, target: int, cycles: Json, elapsed: Json,
                               profiles: map<string, Json>, exitCode: int, memory: Memory)

  datatype Result = Success(evidence: Evidence) | Failure

  // --- The checks on one event -----------------------------------------------------------------

  predicate ProfilesAgree(report: Report) {
    && report.profiles.Some? && report.profiles.value.Keys == PROFILES
    && forall name :: name in report.profiles.value ==> PyEq(report.profiles.value[name], report.cycle)
  }

  predicate ValidateHeartbeat(report: Report, expected: Json, previous: Json)
    requires IsNumber(previous)
  {
    && report.passed && PyEq(report.cycle, expected)
    && IsInt(report.elapsed) && Num(report.elapsed) >= Num(previous)
    && ProfilesAgree(report)
  }

  predicate ValidateSummary(report: Report, cycle: Json, elapsed: Json, target: int)
    requires IsNumber(cycle) && IsNumber(elapsed)
  {
    && report.passed && PyEq(report.cycle, cycle) && Num(cycle) > 0.0
    && IsInt(report.elapsed) && Num(report.elapsed) >= Num(elapsed)
    && Num(report.elapsed) >= (target * 1000) as real
    && ProfilesAgree(report)
  }

  function Sampled(rss: Option<Rss>, sample: nat): Rss {
    match rss
    case None => Rss(1, sample, sample, sample, sample)
    case Some(r) =>
      Rss(r.samples + 1, r.first, sample, if sample < r.minimum then sample else r.minimum,
          if sample > r.maximum then sample else r.maximum)
  }

  function Growth(rss: Rss): int { if rss.last > rss.first then rss.last - rss.first else 0 }

  function MemoryDocument(platform: Platform, rss: Option<Rss>): Memory {
    if platform.Windows? || rss.None? then Unsupported
    else Supported(rss.value, Growth(rss.value))
  }

  // --- The streams the supervisor is meant to accept --------------------------------------------

  function Structured(events: seq<Event>): seq<Event> {
    if events == [] then []
    else (if events[0].LogLine? then [] else [events[0]]) + Structured(events[1..])
  }

  /** Position k holds heartbeat number k + 1, no earlier than the one before it and within budget. */
  predicate HeartbeatAt(stream: seq<Event>, k: nat, platform: Platform)
    requires k < |stream|
  {
    && stream[k].Heartbeat? && stream[k].report.passed
    && PyEq(stream[k].report.cycle, Int(k + 1))
    && IsInt(stream[k].report.elapsed)
    && Num(stream[k].report.elapsed) >= (if k == 0 then 0.0 else ElapsedAt(stream, k - 1))
    && ProfilesAgree(stream[k].report) && stream[k].acknowledged
    && (platform.Linux? ==>
          && stream[k].rss.Some? && stream[k].rss.value <= MAX_RSS
          && stream[0].Heartbeat? && stream[0].rss.Some?
          && stream[k].rss.value - stream[0].rss.value <= MAX_GROWTH)
  }

  function ElapsedAt(stream: seq<Event>, k: nat): real
    requires k < |stream|
  {
    if stream[k].Heartbeat? && IsNumber(stream[k].report.elapsed) then Num(stream[k].report.elapsed) else 0.0
  }

  /** The summary comes last, repeats the last cycle and covers the target duration. */
  predicate SummaryAt(stream: seq<Event>, k: nat, target: int)
    requires 1 <= k < |stream|
  {
    && stream[k].Summary? && stream[k].report.passed
    && PyEq(stream[k].report.cycle, Int(k))
    && IsInt(stream[k].report.elapsed)
    && Num(stream[k].report.elapsed) >= ElapsedAt(stream, k - 1)
    && Num(stream[k].report.elapsed) >= (target * 1000) as real
    && ProfilesAgree(stream[k].report)
  }

  predicate WellFormed(stream: seq<Event>, platform: Platform, target: int) {
    && |stream| >= 2
    && (forall k :: 0 <= k < |stream| - 1 ==> HeartbeatAt(stream, k, platform))
    && SummaryAt(stream, |stream| - 1, target)
  }

  function RssAt(stream: seq<Event>, k: nat): nat
    requires k < |stream|
  {
    if stream[k].Heartbeat? && stream[k].rss.Some? then stream[k].rss.value else 0
  }

  function ReportAt(stream: seq<Event>, k: nat): Report
    requires k < |stream|
  {
    if stream[k].Heartbeat? || stream[k].Summary? then stream[k].report else Report(false, Null, Null, None)
  }

  /** What the five resident-set figures mean after n >= 1 heartbeats. */
  ghost predicate RssOf(stream: seq<Event>, n: nat, rss: Rss)
    requires 1 <= n <= |stream|
  {
    && rss.samples == n && rss.first == RssAt(stream, 0) && rss.last == RssAt(stream, n - 1)
    && (forall k :: 0 <= k < n ==> rss.minimum <= RssAt(stream, k) <= rss.maximum)
    && (exists k :: 0 <= k < n && RssAt(stream, k) == rss.minimum)
    && (exists k :: 0 <= k < n && RssAt(stream, k) == rss.maximum)
  }

  // --- The supervisor --------------------------------------------------------------------------

  /** The variables the event loop updates. */
  datatype Progress = Progress(cycle: Json, elapsed: Json, rss: Option<Rss>, summary: Option<Json>)

  const START := Progress(Int(0), Int(0), None, None)

  predicate WithinBudget(rss: Rss) { rss.maximum <= MAX_RSS && rss.last - rss.first <= MAX_GROWTH }

  /** One structured event; None when the supervisor raises. */
  function Observe(p: Progress, event: Event, platform: Platform, target: int): Option<Progress>
    requires IsNumber(p.cycle) && IsNumber(p.elapsed)
  {
    match event
    case LogLine => Some(p)
    case Invalid => None
    case Heartbeat(report, sample, acknowledged) =>
      if p.summary.Some? || !ValidateHeartbeat(report, PyIncrement(p.cycle), p.elapsed) then None
      else if platform.Windows? then
        if acknowledged then Some(p.(cycle := report.cycle, elapsed := report.elapsed)) else None
      else if sample.None? then None
      else
        var rss := Sampled(p.rss, sample.value);
        if WithinBudget(rss) && acknowledged then
          Some(p.(cycle := report.cycle, elapsed := report.elapsed, rss := Some(rss)))
        else None
    case Summary(report) =>
      if p.summary.Some? || !ValidateSummary(report, p.cycle, p.elapsed, target) then None
      else Some(p.(summary := Some(report.elapsed)))
  }

  /** How many heartbeats a prefix of `seen` structured events holds. */
  function Beats(p: Progress, seen: nat): int { if p.summary.Some? then seen - 1 else seen }

  /** The progress after the first `seen` structured events, none of which was rejected. */
  ghost predicate Tracks(stream: seq<Event>, seen: nat, p: Progress, platform: Platform, target: int)
    requires seen <= |stream|
  {
    var n := Beats(p, seen);
    && 0 <= n
    && (forall k :: 0 <= k < n ==> HeartbeatAt(stream, k, platform))
    && PyEq(p.cycle, Int(n)) && IsNumber(p.elapsed)
    && Num(p.elapsed) == (if n == 0 then 0.0 else ElapsedAt(stream, n - 1))
    && (n > 0 ==> p.cycle == ReportAt(stream, n - 1).cycle)
    && (if n == 0 || platform.Windows? then p.rss.None? else p.rss.Some? && RssOf(stream, n, p.rss.value))
    && (p.summary.Some? ==> n >= 1 && SummaryAt(stream, n, target) && p.summary.value == ReportAt(stream, n).elapsed)
  }

  lemma SampledTracks(stream: seq<Event>, n: nat, rss: Option<Rss>)
    requires n < |stream| && (if n == 0 then rss.None? else rss.Some? && RssOf(stream, n, rss.value))
    ensures RssOf(stream, n + 1, Sampled(rss, RssAt(stream, n)))
  {
    var next := Sampled(rss, RssAt(stream, n));
    if n > 0 {
      var lo :| 0 <= lo < n && RssAt(stream, lo) == rss.value.minimum;
      var hi :| 0 <= hi < n && RssAt(stream, hi) == rss.value.maximum;
      assert RssAt(stream, lo) == next.minimum || RssAt(stream, n) == next.minimum;
      assert RssAt(stream, hi) == next.maximum || RssAt(stream, n) == next.maximum;
    }
  }

  lemma HeartbeatDecision(stream: seq<Event>, seen: nat, p: Progress, platform: Platform, target: int)
    requires seen < |stream| && Tracks(stream, seen, p, platform, target)
    requires p.summary.None? && stream[seen].Heartbeat?
    ensures Observe(p, stream[seen], platform, target).Some? <==> HeartbeatAt(stream, seen, platform)
  {
    if seen > 0 {
      assert HeartbeatAt(stream, 0, platform);
      if platform.Linux? { BudgetSoFar(stream, seen, p.rss.value); }
    }
  }

  lemma ObserveHeartbeat(stream: seq<Event>, seen: nat, p: Progress, platform: Platform, target: int)
    requires seen < |stream| && Tracks(stream, seen, p, platform, target)
    requires p.summary.None? && stream[seen].Heartbeat?
    ensures var next := Observe(p, stream[seen], platform, target);
      && (next.Some? <==> HeartbeatAt(stream, seen, platform))
      && (next.Some? ==> Tracks(stream, seen + 1, next.value, platform, target))
  {
    HeartbeatDecision(stream, seen, p, platform, target);
    if platform.Linux? { SampledTracks(stream, seen, p.rss); }
  }

  lemma BudgetSoFar(stream: seq<Event>, n: nat, rss: Rss)
    requires 1 <= n <= |stream| && RssOf(stream, n, rss)
    requires forall k :: 0 <= k < n ==> HeartbeatAt(stream, k, Linux)
    ensures rss.maximum <= MAX_RSS
  {
    var hi :| 0 <= hi < n && RssAt(stream, hi) == rss.maximum;
    assert HeartbeatAt(stream, hi, Linux);
  }

  lemma ObserveSummary(stream: seq<Event>, seen: nat, p: Progress, platform: Platform, target: int)
    requires seen < |stream| && Tracks(stream, seen, p, platform, target)
    requires p.summary.None? && stream[seen].Summary?
    ensures var next := Observe(p, stream[seen], platform, target);
      && (next.Some? <==> seen >= 1 && SummaryAt(stream, seen, target))
      && (next.Some? ==> Tracks(stream, seen + 1, next.value, platform, target))
  {
  }

  /** Each accepted event keeps the progress exact; each rejected one spoils the stream for good. */
  lemma ObserveTracks(stream: seq<Event>, seen: nat, p: Progress, platform: Platform, target: int)
    requires seen < |stream| && Tracks(stream, seen, p, platform, target) && !stream[seen].LogLine?
    ensures var next := Observe(p, stream[seen], platform, target);
      && (next.Some? ==> Tracks(stream, seen + 1, next.value, platform, target))
      && (next.None? ==> !WellFormed(stream, platform, target))
  {
    if p.summary.Some? {
      assert seen - 1 < |stream| - 1 && !HeartbeatAt(stream, seen - 1, platform);
    } else if stream[seen].Heartbeat? {
      ObserveHeartbeat(stream, seen, p, platform, target);
    } else if stream[seen].Summary? {
      ObserveSummary(stream, seen, p, platform, target);
      assert !HeartbeatAt(stream, seen, platform);
    } else {
      assert !HeartbeatAt(stream, seen, platform);
    }
  }

  /** At the end of the stream, the summary was seen exactly if the stream is well-formed. */
  lemma EndOfStream(stream: seq<Event>, p: Progress, platform: Platform, target: int)
    requires Tracks(stream, |stream|, p, platform, target)
    ensures p.summary.Some? <==> WellFormed(stream, platform, target)
  {
    if p.summary.None? && |stream| >= 1 { assert HeartbeatAt(stream, |stream| - 1, platform); }
  }

  /** The event loop of run_endurance over the child's output; None when it raises. */
  method ObserveAll(events: seq<Event>, platform: Platform, target: int) returns (p: Option<Progress>)
    ensures p.None? ==> !WellFormed(Structured(events), platform, target)
    ensures p.Some? ==> Tracks(Structured(events), |Structured(events)|, p.value, platform, target)
  {
    ghost var stream := Structured(events);
    ghost var seen := 0;
    var progress := START;
    assert events[0..] == events && stream[0..] == stream;
    for i := 0 to |events|
      invariant 0 <= seen <= |stream| && stream[seen..] == Structured(events[i..])
      invariant Tracks(stream, seen, progress, platform, target)
    {
      var event := events[i];
      assert events[i..][1..] == events[i + 1..];
      if event.LogLine? { continue; }
      assert stream[seen] == event && stream[seen + 1..] == stream[seen..][1..];
      ObserveTracks(stream, seen, progress, platform, target);
      var next := Observe(progress, event, platform, target);
      if next.None? { return None; }
      progress := next.value;
      seen := seen + 1;
    }
    assert seen == |stream|;
    p := Some(progress);
  }

  /** The result document. */
  function Gathered(identity: Identity, p: Progress): Evidence
    requires p.summary.Some?
  {
    Evidence(identity, Duration(identity.mode), p.cycle, p.summary.value,
             map name | name in PROFILES :: p.cycle, 0, MemoryDocument(identity.platform, p.rss))
  }

  /** What the evidence of a successful run says about the stream it came from. */
  ghost predicate EvidenceOf(e: Evidence, identity: Identity, stream: seq<Event>)
    requires |stream| >= 2
  {
    var n := |stream| - 1;
    && e.identity == identity && e.target == Duration(identity.mode) && e.exitCode == 0
    && e.cycles == ReportAt(stream, n - 1).cycle && e.elapsed == ReportAt(stream, n).elapsed
    && e.profiles == (map name | name in PROFILES :: e.cycles)
    && (identity.platform.Linux? ==>
          e.memory.Supported? && RssOf(stream, n, e.memory.rss) && e.memory.growth == Growth(e.memory.rss))
  }

  lemma GatheredDescribes(stream: seq<Event>, p: Progress, identity: Identity)
    requires |stream| >= 2 && p.summary.Some?
    requires Tracks(stream, |stream|, p, identity.platform, Duration(identity.mode))
    ensures EvidenceOf(Gathered(identity, p), identity, stream)
  {
  }

  /** run_endurance succeeds exactly on well-formed streams that the process ends with exit code 0
      after at least the target duration, and its evidence describes the stream. */
  method RunEndurance(identity: Identity, events: seq<Event>, exitCode: int, supervisorSeconds: int)
    returns (result: Result)
    ensures result.Success? <==>
              && WellFormed(Structured(events), identity.platform, Duration(identity.mode))
              && exitCode == 0 && supervisorSeconds >= Duration(identity.mode)
    ensures result.Success? ==> EvidenceOf(result.evidence, identity, Structured(events))
  {
    var target := Duration(identity.mode);
    var p := ObserveAll(events, identity.platform, target);
    if p.None? { return Failure; }
    EndOfStream(Structured(events), p.value, identity.platform, target);
    if exitCode != 0 || p.value.summary.None? || supervisorSeconds < target { return Failure; }
    GatheredDescribes(Structured(events), p.value, identity);
    result := Success(Gathered(identity, p.value));
  }

  // --- The verifier ----------------------------------------------------------------------------

  /** load_and_verify: the requirements on the retained evidence. */
  predicate LoadAndVerify(e: Evidence, expected: Identity) {
    && e.identity == expected
    && e.target == Duration(expected.mode)
    && IsInt(e.elapsed) && Num(e.elapsed) >= (e.target * 1000) as real
    && IsInt(e.cycles) && Num(e.cycles) > 0.0
    && e.profiles.Keys == PROFILES && (forall name :: name in e.profiles ==> PyEq(e.profiles[name], e.cycles))
    && e.exitCode == 0
    && (expected.platform.Linux? ==>
          && e.memory.Supported? && PyEq(Int(e.memory.rss.samples), e.cycles)
          && e.memory.growth >= 0
          && e.memory.rss.maximum <= MAX_RSS && e.memory.growth <= MAX_GROWTH)
  }

  /** The supervisor compares cycle numbers by value only, the verifier also asks for an integer: the
      evidence of a well-formed stream is accepted if and only if its last heartbeat wrote the cycle
      as an integer. */
  lemma EvidenceVerdict(e: Evidence, identity: Identity, stream: seq<Event>)
    requires WellFormed(stream, identity.platform, Duration(identity.mode)) && EvidenceOf(e, identity, stream)
    ensures LoadAndVerify(e, identity) <==> IsInt(ReportAt(stream, |stream| - 2).cycle)
  {
    var n := |stream| - 1;
    assert HeartbeatAt(stream, n - 1, identity.platform);
    if identity.platform.Linux? { BudgetSoFar(stream, n, e.memory.rss); }
  }

  /** The supervisor, then the verifier on its evidence. */
  method SuperviseThenVerify(identity: Identity, events: seq<Event>, exitCode: int, supervisorSeconds: int)
    returns (succeeded: bool, accepted: bool)
    ensures succeeded <==>
              && WellFormed(Structured(events), identity.platform, Duration(identity.mode))
              && exitCode == 0 && supervisorSeconds >= Duration(identity.mode)
    ensures accepted <==>
              succeeded && IsInt(ReportAt(Structured(events), |Structured(events)| - 2).cycle)
  {
    var result := RunEndurance(identity, events, exitCode, supervisorSeconds);
    if result.Failure? { return false, false; }
    EvidenceVerdict(result.evidence, identity, Structured(events));
    succeeded, accepted := true, LoadAndVerify(result.evidence, identity);
  }

  /** A run whose only heartbeat says 1.0 instead of 1 succeeds and its evidence is then refused. */
  lemma FloatCycleIsRefused(profiles: map<string, Json>, identity: Identity)
    requires profiles == (map name | name in PROFILES :: Float(1.0)) && identity.platform.Windows?
    ensures var beat := Heartbeat(Report(true, Float(1.0), Int(0), Some(profiles)), None, true);
      var last := Summary(Report(true, Float(1.0), Int(10800000), Some(profiles)));
      var target := Duration(identity.mode);
      var evidence := Evidence(identity, target, Float(1.0), Int(10800000), profiles, 0, Unsupported);
      && WellFormed([beat, last], Windows, target) && EvidenceOf(evidence, identity, [beat, last])
      && !LoadAndVerify(evidence, identity)
  {
    var beat := Heartbeat(Report(true, Float(1.0), Int(0), Some(profiles)), None, true);
    var last := Summary(Report(true, Float(1.0), Int(10800000), Some(profiles)));
    var stream := [beat, last];
    assert HeartbeatAt(stream, 0, Windows) && SummaryAt(stream, 1, Duration(identity.mode));
  }
}
