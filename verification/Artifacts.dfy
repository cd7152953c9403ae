/** The artifacts one registration attempt writes, and the agreement of writer and validator over whole runs. */
module Artifacts {
  import opened Text
  import opened Json
  import opened Evidence
  import R = Registration

  datatype Config = Config(
    runId: string, runtimeProfile: string, expectedAgents: int, startedAt: string,
    timeoutSeconds: int, minBackoff: int, maxBackoff: int)

  /** What a collection returned, or the message of the exception it threw. */
  datatype Outcome = Collected(sources: R.Sources) | Threw(message: string)

  datatype Phase = Settle | Timeout | SteadyState

  /** One call of `write_artifacts`, with the collection its verdict judges. */
  datatype Write = Write(outcome: Outcome, verdict: R.Evaluation, attempt: int, phase: Phase)

  function EmptySnapshot(cfg: Config): R.Snapshot
  {
    R.Snapshot(cfg.expectedAgents, cfg.startedAt, [], [], [], [], [], [], R.Dashboard(None, None))
  }

  function SnapshotOf(cfg: Config, o: Outcome): (s: R.Snapshot)
    ensures R.Canonical(s)
  {
    if o.Collected? then R.CollectSnapshot(cfg.expectedAgents, o.sources) else EmptySnapshot(cfg)
  }

  function ErrorsOf(o: Outcome): seq<string> { if o.Threw? then [o.message] else [] }

  function Judge(cfg: Config, o: Outcome, timedOut: bool): R.Evaluation
  {
    R.Evaluate(SnapshotOf(cfg, o), timedOut, ErrorsOf(o))
  }

  /** The verdict is the collection's; only the timeout phase evaluates with the timed-out flag. */
  ghost predicate Genuine(cfg: Config, w: Write)
  {
    w.attempt > 0 && w.verdict == Judge(cfg, w.outcome, w.phase == Timeout)
  }

  predicate Passes(w: Write) { w.verdict.status == R.Pass }

  /** `registration_timeout` is reported exactly by a failing timeout event, even when its collection threw. */
  lemma TimeoutIsReportedByTheTimeoutEventOnly(cfg: Config, w: Write)
    requires Genuine(cfg, w)
    ensures R.BlamesTimeout(w.verdict.taxonomy) <==> w.phase == Timeout && !Passes(w)
  {
    var s := SnapshotOf(cfg, w.outcome);
    R.TaxonomyOfVerdict(s, w.phase == Timeout, ErrorsOf(w.outcome));
    R.PassMeansAligned(s, w.phase == Timeout, ErrorsOf(w.outcome));
  }

  // ---- Serialisation -------------------------------------------------------------------

  function Plain(s: string): Value { Str(Other(s)) }

  function StatusWord(s: R.Status): Value { Str(if s == R.Pass then PassWord else FailWord) }

  function PhaseWord(p: Phase): Value
  {
    Str(match p case Settle => SettleWord case Timeout => TimeoutWord case SteadyState => SteadyStateWord)
  }

  function CheckNames(checks: seq<R.Check>): (v: Value)
    ensures v.Arr?
  {
    Arr(seq(|checks|, i requires 0 <= i < |checks| => Str(Check(checks[i]))))
  }

  function FindingJson(f: R.Finding): Value
  {
    match f
    case AdapterError(messages) =>
      Obj(map[CodeKey := Str(AdapterErrorWord), SeverityKey := Str(ErrorWord),
              DetailsKey := Arr(seq(|messages|, i requires 0 <= i < |messages| => Plain(messages[i])))])
    case RegistrationTimeout(failed) =>
      Obj(map[CodeKey := Str(RegistrationTimeoutWord), SeverityKey := Str(ErrorWord), DetailsKey := CheckNames(failed)])
    case RegistrationProjectionMismatch(failed) =>
      Obj(map[CodeKey := Str(ProjectionMismatchWord), SeverityKey := Str(ErrorWord), DetailsKey := CheckNames(failed)])
  }

  function TaxonomyJson(t: seq<R.Finding>): (v: Value)
    ensures v.Arr?
  {
    Arr(seq(|t|, i requires 0 <= i < |t| => FindingJson(t[i])))
  }

  function CountJson(n: Option<int>): Value { if n.None? then Null else Int(n.value) }

  function SurfacesJson(s: R.Snapshot): (v: Value)
    ensures v.Obj?
  {
    Obj(map[Surface(0) := Int(|s.ldap|), Surface(1) := Int(|s.registered|), Surface(2) := Int(|s.connected|),
            Surface(3) := Int(|s.cAgent|), Surface(4) := Int(|s.domain|), Surface(5) := Int(|s.tree|),
            Surface(6) := CountJson(s.dashboard.total), Surface(7) := CountJson(s.dashboard.online)])
  }

  function ChecksJson(s: R.Snapshot): Value
  {
    Obj(map c | c in R.CHECKS :: Check(c) := Bool(R.Holds(c, s)))
  }

  function StatesJson(states: map<R.AgentState, bool>): (v: Value)
    ensures v.Obj?
  {
    Obj(map st | st in states :: State(st) := Bool(states[st]))
  }

  function HighestJson(highest: Option<R.AgentState>): Value
  {
    Str(if highest.None? then MissingWord else State(highest.value))
  }

  function EntryJson(e: R.AgentEntry): Value
  {
    Obj(map[AgentId := Plain(e.agentId), StatesKey := StatesJson(e.states), HighestState := HighestJson(e.highest)])
  }

  function PerAgentJson(entries: seq<R.AgentEntry>): Value
  {
    Arr(seq(|entries|, i requires 0 <= i < |entries| => EntryJson(entries[i])))
  }

  function ManifestJson(cfg: Config): Object
  {
    map[SchemaVersion := Int(1), RunId := Plain(cfg.runId), RuntimeProfile := Plain(cfg.runtimeProfile),
        ExpectedAgents := Int(cfg.expectedAgents), StartedAt := Plain(cfg.startedAt),
        TimeoutSeconds := Int(cfg.timeoutSeconds),
        Backoff := Obj(map[MinSeconds := Int(cfg.minBackoff), MaxSeconds := Int(cfg.maxBackoff)])]
  }

  function UpdatedManifest(m: Object, e: R.Evaluation, attempt: int): Object
  {
    m[LastVerdictAt := Plain(e.snapshot.capturedAt)][LastStatus := StatusWord(e.status)][AttemptCount := Int(attempt)]
  }

  function VerdictJson(cfg: Config, e: R.Evaluation): Object
  {
    map[SchemaVersion := Int(1), RunId := Plain(cfg.runId), StatusKey := StatusWord(e.status),
        RuntimeProfile := Plain(cfg.runtimeProfile), ExpectedAgents := Int(cfg.expectedAgents),
        ChecksKey := ChecksJson(e.snapshot), FailedChecksKey := CheckNames(e.failedChecks),
        TaxonomyKey := TaxonomyJson(e.taxonomy), Surfaces := SurfacesJson(e.snapshot),
        PerAgentKey := PerAgentJson(e.perAgent), CapturedAt := Plain(e.snapshot.capturedAt)]
  }

  function SummaryJson(cfg: Config, e: R.Evaluation): Object
  {
    map[SchemaVersion := Int(1), RunId := Plain(cfg.runId), StatusKey := StatusWord(e.status),
        CapturedAt := Plain(e.snapshot.capturedAt), FailedChecksKey := CheckNames(e.failedChecks),
        TaxonomyKey := TaxonomyJson(e.taxonomy)]
  }

  function EventJson(cfg: Config, e: R.Evaluation, attempt: int, phase: Phase): Object
  {
    map[RunId := Plain(cfg.runId), Attempt := Int(attempt), PhaseKey := PhaseWord(phase),
        StatusKey := StatusWord(e.status), FailedChecksKey := CheckNames(e.failedChecks),
        TaxonomyKey := TaxonomyJson(e.taxonomy), CapturedAt := Plain(e.snapshot.capturedAt)]
  }

  function File(o: Object): Option<Parse> { Some(Good(Obj(o))) }

  // ---- The directory over a run --------------------------------------------------------

  /** A new run empties the log and rewrites the manifest; whatever else an earlier run left stays. */
  function Opened(cfg: Config, before: Bundle): Bundle
  {
    before.(manifest := File(ManifestJson(cfg)), events := Some([]))
  }

  function LogOf(b: Bundle): seq<Parse> { if b.events.Some? then b.events.value else [] }

  function EventLineOf(cfg: Config, w: Write): Parse { Good(Obj(EventJson(cfg, w.verdict, w.attempt, w.phase))) }

  function Written(cfg: Config, b: Bundle, w: Write): Bundle
  {
    b.(manifest := File(UpdatedManifest(ManifestJson(cfg), w.verdict, w.attempt)),
       verdict := File(VerdictJson(cfg, w.verdict)),
       summary := File(SummaryJson(cfg, w.verdict)),
       events := Some(LogOf(b) + [EventLineOf(cfg, w)]))
  }

  function Replay(cfg: Config, before: Bundle, writes: seq<Write>): Bundle
  {
    if writes == [] then Opened(cfg, before)
    else Written(cfg, Replay(cfg, before, writes[..|writes| - 1]), writes[|writes| - 1])
  }

  lemma {:induction false} LogOfRun(cfg: Config, before: Bundle, writes: seq<Write>)
    ensures var b := Replay(cfg, before, writes);
      && b.coreReport == before.coreReport && b.operationalReport == before.operationalReport
      && b.events.Some? && |b.events.value| == |writes|
      && forall i | 0 <= i < |writes| :: b.events.value[i] == EventLineOf(cfg, writes[i])
  {
    if writes != [] {
      LogOfRun(cfg, before, writes[..|writes| - 1]);
    }
  }

  // ---- Writer and validator agree ------------------------------------------------------

  lemma ManifestIsOk(cfg: Config, e: R.Evaluation, attempt: int)
    ensures HasFields(UpdatedManifest(ManifestJson(cfg), e, attempt), MANIFEST_FIELDS)
    ensures BackoffOk(UpdatedManifest(ManifestJson(cfg), e, attempt)) <==> 0 <= cfg.minBackoff <= cfg.maxBackoff
  {
  }

  lemma SummaryIsOk(cfg: Config, e: R.Evaluation)
    ensures HasFields(SummaryJson(cfg, e), SUMMARY_FIELDS) && SummaryMatches(SummaryJson(cfg, e), VerdictJson(cfg, e))
  {
    hide CheckNames, TaxonomyJson, ChecksJson, SurfacesJson, PerAgentJson, StatusWord;
    var f, v := SummaryJson(cfg, e), VerdictJson(cfg, e);
    assert HasFields(f, SUMMARY_FIELDS);
    assert Get(f, RunId) == Get(v, RunId) && Get(f, StatusKey) == Get(v, StatusKey);
    assert Get(f, FailedChecksKey) == Get(v, FailedChecksKey) && Get(f, TaxonomyKey) == Get(v, TaxonomyKey);
  }

  lemma TextsAreArrays(e: R.Evaluation)
    ensures CheckNames(e.failedChecks).Arr? && TaxonomyJson(e.taxonomy).Arr?
  {
  }

  lemma EventIsOk(cfg: Config, w: Write)
    requires w.attempt > 0
    ensures LineOk(EventLineOf(cfg, w), Plain(cfg.runId))
  {
    hide CheckNames, TaxonomyJson;
    TextsAreArrays(w.verdict);
    var e := EventJson(cfg, w.verdict, w.attempt, w.phase);
    assert HasFields(e, EVENT_FIELDS);
    assert Get(e, RunId) == Plain(cfg.runId);
    assert Get(e, PhaseKey) == PhaseWord(w.phase);
    assert Get(e, StatusKey) == StatusWord(w.verdict.status);
    assert Get(e, Attempt) == Int(w.attempt);
  }

  lemma EntryIsOk(s: R.Snapshot, id: string)
    ensures EntryOk(EntryJson(R.EntryFor(s, id)))
  {
    hide R.EntryFor, R.LastReached;
    var e := R.EntryFor(s, id);
    StatesOfEntry(s, id);
    StatesAreListed(e.states);
    var entry := EntryJson(e);
    assert Get(entry.fields, StatesKey) == StatesJson(e.states);
    assert Get(entry.fields, HighestState) == HighestJson(e.highest);
  }

  lemma StatesOfEntry(s: R.Snapshot, id: string)
    ensures var e := R.EntryFor(s, id);
      && (forall st: R.AgentState :: st in e.states)
      && (e.highest.Some? ==> e.states[e.highest.value])
  {
  }

  lemma StatesAreListed(states: map<R.AgentState, bool>)
    requires forall st: R.AgentState :: st in states
    ensures StatesJson(states).fields.Keys == STATES
  {
    forall k ensures k in StatesJson(states).fields <==> k in STATES {
      if k.State? {
        R.EveryStateIsListed(k.state);
      }
    }
  }

  lemma ShapeOfVerdict(cfg: Config, e: R.Evaluation)
    requires forall i | 0 <= i < |e.perAgent| :: EntryOk(EntryJson(e.perAgent[i]))
    ensures var v := VerdictJson(cfg, e); HasFields(v, VERDICT_FIELDS) && ShapeOk(v) && EntriesOk(v)
  {
    hide EntryJson, EntryOk, TaxonomyJson, CheckNames, SurfacesJson;
    var v := VerdictJson(cfg, e);
    assert HasFields(v, VERDICT_FIELDS);
    assert Get(v, ChecksKey) == ChecksJson(e.snapshot) && Get(v, PerAgentKey) == PerAgentJson(e.perAgent);
    assert Get(v, FailedChecksKey) == CheckNames(e.failedChecks) && Get(v, TaxonomyKey) == TaxonomyJson(e.taxonomy);
    assert Get(v, Surfaces) == SurfacesJson(e.snapshot) && Get(v, StatusKey) == StatusWord(e.status);
  }

  lemma VerdictShape(cfg: Config, s: R.Snapshot, timedOut: bool, errors: seq<string>)
    ensures var v := VerdictJson(cfg, R.Evaluate(s, timedOut, errors));
      HasFields(v, VERDICT_FIELDS) && ShapeOk(v) && EntriesOk(v)
  {
    hide EntryJson, EntryOk, VerdictJson, ShapeOk, EntriesOk, R.Classify, R.FailedChecks, R.EntryFor;
    var e := R.Evaluate(s, timedOut, errors);
    forall i | 0 <= i < |e.perAgent| ensures EntryOk(EntryJson(e.perAgent[i])) {
      EntryIsOk(s, R.AllIds(s)[i]);
    }
    ShapeOfVerdict(cfg, e);
  }

  lemma FactsOfEvaluation(s: R.Snapshot, timedOut: bool, errors: seq<string>)
    ensures var e := R.Evaluate(s, timedOut, errors);
      && e.snapshot == s && |e.perAgent| == |R.PerAgent(s)|
      && (e.status == R.Pass ==> R.Aligned(s) && e.failedChecks == [] && e.taxonomy == [])
  {
    R.PassMeansAligned(s, timedOut, errors);
  }

  lemma FailIsOk(cfg: Config, e: R.Evaluation)
    requires e.status == R.Fail && ShapeOk(VerdictJson(cfg, e))
    ensures PassOk(VerdictJson(cfg, e))
  {
    hide CheckNames, TaxonomyJson, ChecksJson, SurfacesJson, PerAgentJson;
    assert Get(VerdictJson(cfg, e), StatusKey) == StatusWord(e.status);
  }

  /** The count of per-agent entries is the one thing the validator can object to in a verdict. */
  lemma VerdictIsOkIff(cfg: Config, e: R.Evaluation)
    requires R.Canonical(e.snapshot) && e.snapshot.expectedAgents == cfg.expectedAgents
    requires |e.perAgent| == |R.PerAgent(e.snapshot)|
    requires e.status == R.Pass ==> R.Aligned(e.snapshot) && e.failedChecks == [] && e.taxonomy == []
    requires ShapeOk(VerdictJson(cfg, e)) && EntriesOk(VerdictJson(cfg, e))
    ensures VerdictOk(VerdictJson(cfg, e)) <==> e.status == R.Fail || R.ConnectedAreTheLdapIds(e.snapshot)
  {
    hide VerdictJson, ShapeOk, EntriesOk, PassOk, R.Canonical, R.Aligned, R.PerAgent, R.ConnectedAreTheLdapIds, R.Holds;
    if e.status == R.Pass {
      PassHolds(e.snapshot);
      PassIsOkIff(cfg, e);
    } else {
      FailIsOk(cfg, e);
    }
  }

  lemma PassHolds(s: R.Snapshot)
    requires R.Canonical(s) && R.Aligned(s)
    ensures forall c | c in R.CHECKS :: R.Holds(c, s)
    ensures |R.PerAgent(s)| == s.expectedAgents <==> R.ConnectedAreTheLdapIds(s)
    ensures s.expectedAgents >= 0
    ensures s.expectedAgents == 0 ==> R.ConnectedAreTheLdapIds(s)
  {
    R.NoFailedChecksMeansAligned(s);
    R.PerAgentCountOfPass(s);
    forall c | c in R.CHECKS ensures R.Holds(c, s) { assert c !in R.FailedChecks(R.CHECKS, s); }
    assert s.expectedAgents == 0 ==> s.connected == [] && s.ldap == [];
  }

  lemma PassIsOkIff(cfg: Config, e: R.Evaluation)
    requires ShapeOk(VerdictJson(cfg, e))
    requires e.status == R.Pass && e.failedChecks == [] && e.taxonomy == []
    requires forall c | c in R.CHECKS :: R.Holds(c, e.snapshot)
    ensures PassOk(VerdictJson(cfg, e)) <==> (cfg.expectedAgents > 0 ==> |e.perAgent| == cfg.expectedAgents)
  {
    var v := VerdictJson(cfg, e);
    assert Get(v, ChecksKey) == ChecksJson(e.snapshot);
    assert Get(v, FailedChecksKey) == CheckNames([]) && Get(v, TaxonomyKey) == TaxonomyJson([]);
    assert Get(v, ExpectedAgents) == Int(cfg.expectedAgents);
    assert Get(v, PerAgentKey) == PerAgentJson(e.perAgent);
  }

  lemma VerdictMatchesManifest(cfg: Config, e: R.Evaluation, attempt: int)
    ensures VerdictMatches(UpdatedManifest(ManifestJson(cfg), e, attempt), VerdictJson(cfg, e))
  {
    hide CheckNames, TaxonomyJson, ChecksJson, SurfacesJson, PerAgentJson, StatusWord;
    var m, v := UpdatedManifest(ManifestJson(cfg), e, attempt), VerdictJson(cfg, e);
    assert Get(m, RunId) == Plain(cfg.runId) && Get(v, RunId) == Plain(cfg.runId);
    assert Get(m, ExpectedAgents) == Get(v, ExpectedAgents);
    assert Get(m, RuntimeProfile) == Get(v, RuntimeProfile);
    assert Get(m, LastStatus) == Get(v, StatusKey);
    assert Get(m, LastVerdictAt) == Get(v, CapturedAt);
  }

  lemma DocumentsOfWrite(cfg: Config, w: Write)
    requires Genuine(cfg, w)
    ensures var e := w.verdict;
      DocumentsOk(UpdatedManifest(ManifestJson(cfg), e, w.attempt), VerdictJson(cfg, e), SummaryJson(cfg, e)) <==>
        && 0 <= cfg.minBackoff <= cfg.maxBackoff
        && (!Passes(w) || R.ConnectedAreTheLdapIds(SnapshotOf(cfg, w.outcome)))
  {
    var e, s := w.verdict, SnapshotOf(cfg, w.outcome);
    ManifestIsOk(cfg, e, w.attempt);
    SummaryIsOk(cfg, e);
    VerdictShape(cfg, s, w.phase == Timeout, ErrorsOf(w.outcome));
    FactsOfEvaluation(s, w.phase == Timeout, ErrorsOf(w.outcome));
    VerdictIsOkIff(cfg, e);
    VerdictMatchesManifest(cfg, e, w.attempt);
  }

  lemma LastEventIsTheVerdicts(cfg: Config, w: Write)
    ensures LastEventMatches(
      UpdatedManifest(ManifestJson(cfg), w.verdict, w.attempt), VerdictJson(cfg, w.verdict),
      EventJson(cfg, w.verdict, w.attempt, w.phase))
  {
    hide CheckNames, TaxonomyJson, ChecksJson, SurfacesJson, PerAgentJson, StatusWord, PhaseWord;
    var m, v := UpdatedManifest(ManifestJson(cfg), w.verdict, w.attempt), VerdictJson(cfg, w.verdict);
    var e := EventJson(cfg, w.verdict, w.attempt, w.phase);
    assert Get(m, AttemptCount) == Int(w.attempt) && Get(e, Attempt) == Int(w.attempt);
    assert Get(v, StatusKey) == StatusWord(w.verdict.status) && Get(e, StatusKey) == StatusWord(w.verdict.status);
  }

  lemma LogOfWrites(cfg: Config, before: Bundle, writes: seq<Write>)
    requires writes != [] && forall w | w in writes :: w.attempt > 0
    ensures var last := writes[|writes| - 1];
      LogOk(Replay(cfg, before, writes).events.value,
            UpdatedManifest(ManifestJson(cfg), last.verdict, last.attempt), VerdictJson(cfg, last.verdict))
  {
    LogOfRun(cfg, before, writes);
    var last := writes[|writes| - 1];
    var lines := Replay(cfg, before, writes).events.value;
    var m, v := UpdatedManifest(ManifestJson(cfg), last.verdict, last.attempt), VerdictJson(cfg, last.verdict);
    assert Get(m, RunId) == Plain(cfg.runId);
    forall i | 0 <= i < |lines| ensures LineOk(lines[i], BundleRunId(m, v)) {
      EventIsOk(cfg, writes[i]);
    }
    LastEventIsTheVerdicts(cfg, last);
  }

  lemma DocumentsAreTheLastWrites(cfg: Config, before: Bundle, writes: seq<Write>)
    requires writes != []
    ensures var b, last := Replay(cfg, before, writes), writes[|writes| - 1];
      && IsObject(b.manifest) && ObjectIn(b.manifest) == UpdatedManifest(ManifestJson(cfg), last.verdict, last.attempt)
      && IsObject(b.verdict) && ObjectIn(b.verdict) == VerdictJson(cfg, last.verdict)
      && IsObject(b.summary) && ObjectIn(b.summary) == SummaryJson(cfg, last.verdict)
  {
  }

  lemma ConsistentIn(b: Bundle, m: Object, v: Object, f: Object)
    requires IsObject(b.manifest) && IsObject(b.verdict) && IsObject(b.summary) && b.events.Some?
    requires m == ObjectIn(b.manifest) && v == ObjectIn(b.verdict) && f == ObjectIn(b.summary)
    requires LogOk(b.events.value, m, v)
    ensures Consistent(b) <==> DocumentsOk(m, v, f) && ReportOk(b.coreReport) && ReportOk(b.operationalReport)
  {
  }

  /** After every completed write of every run, from any earlier contents of the directory, the validator is satisfied
      if and only if the backoff bounds are ordered and the latest verdict fails or the connected ids are the
      directory's ids. */
  lemma ValidatorAgreesOnEveryRun(cfg: Config, before: Bundle, writes: seq<Write>)
    requires writes != [] && forall w | w in writes :: Genuine(cfg, w)
    ensures var last := writes[|writes| - 1];
      Consistent(Replay(cfg, before, writes)) <==>
        && ReportOk(before.coreReport) && ReportOk(before.operationalReport)
        && 0 <= cfg.minBackoff <= cfg.maxBackoff
        && (!Passes(last) || R.ConnectedAreTheLdapIds(SnapshotOf(cfg, last.outcome)))
  {
    var last := writes[|writes| - 1];
    assert Genuine(cfg, last);
    LogOfRun(cfg, before, writes);
    LogOfWrites(cfg, before, writes);
    DocumentsOfWrite(cfg, last);
    DocumentsAreTheLastWrites(cfg, before, writes);
    ConsistentIn(Replay(cfg, before, writes), UpdatedManifest(ManifestJson(cfg), last.verdict, last.attempt),
                 VerdictJson(cfg, last.verdict), SummaryJson(cfg, last.verdict));
  }

  /** What a run has written the validator can read: it raises only at a runtime report that was there before. */
  lemma ValidatorReadsEveryRun(cfg: Config, before: Bundle, writes: seq<Write>)
    requires writes != [] && forall w | w in writes :: Genuine(cfg, w)
    ensures Raises(Replay(cfg, before, writes)) <==>
      ReportRaises(before.coreReport) || ReportRaises(before.operationalReport)
  {
    hide LogOk, VerdictRaises, SomeLineRaises, ReportRaises, ShapeOk, EntriesOk, VerdictJson, R.Evaluate;
    var last := writes[|writes| - 1];
    assert Genuine(cfg, last);
    LogOfRun(cfg, before, writes);
    LogOfWrites(cfg, before, writes);
    DocumentsAreTheLastWrites(cfg, before, writes);
    VerdictShape(cfg, SnapshotOf(cfg, last.outcome), last.phase == Timeout, ErrorsOf(last.outcome));
    ShapelyVerdictIsReadable(VerdictJson(cfg, last.verdict));
    OrderlyLogIsReadable(Replay(cfg, before, writes).events.value,
                         UpdatedManifest(ManifestJson(cfg), last.verdict, last.attempt),
                         VerdictJson(cfg, last.verdict));
  }

  /** Before the first write the log is empty, and the validator says so. */
  lemma ValidatorRejectsAnEmptyRun(cfg: Config, before: Bundle)
    ensures !Consistent(Replay(cfg, before, []))
  {
  }
}
