/** What the files of a run say, word by word. */
module RunLog {
  import opened Text

  import opened Artifacts
  import opened Evidence
  import opened Json
  import opened Orchestrator
  import R = Registration

  // ---- One line ------------------------------------------------------------------------

  ghost predicate Fails(cfg: Config, w: Write, c: R.Check) { !R.Holds(c, SnapshotOf(cfg, w.outcome)) }

  /** The items are the names of exactly the checks that fail. */
  ghost predicate NamesTheFailing(v: Value, cfg: Config, w: Write)
  {
    && v.Arr?
    && (forall item | item in v.items :: exists c :: Fails(cfg, w, c) && item == Str(Check(c)))
    && (forall c | Fails(cfg, w, c) :: Str(Check(c)) in v.items)
  }

  ghost predicate IsFinding(v: Value, code: Word)
  {
    v.Obj? && Get(v.fields, CodeKey) == Str(code) && Get(v.fields, SeverityKey) == Str(ErrorWord)
  }

  ghost predicate Blames(v: Value, code: Word) { v.Arr? && exists item :: item in v.items && IsFinding(item, code) }

  /** What the taxonomy of a line or verdict blames, and with which details. */
  ghost predicate TaxonomyTells(v: Value, cfg: Config, w: Write)
  {
    && (Blames(v, RegistrationTimeoutWord) <==> w.phase == Timeout && exists c :: Fails(cfg, w, c))
    && (Blames(v, ProjectionMismatchWord) <==> w.phase != Timeout && exists c :: Fails(cfg, w, c))
    && (Blames(v, AdapterErrorWord) <==> w.outcome.Threw?)
    && v.Arr? && |v.items| == (if w.outcome.Threw? then 1 else 0) + (if exists c :: Fails(cfg, w, c) then 1 else 0)
    && forall item | item in v.items :: DetailsTell(item, cfg, w)
  }

  /** The details of the exception are its message, those of the other classes the names of the failing checks. */
  ghost predicate DetailsTell(item: Value, cfg: Config, w: Write)
  {
    && item.Obj?
    && if IsFinding(item, AdapterErrorWord) then
         w.outcome.Threw? && Get(item.fields, DetailsKey) == Arr([Str(Other(w.outcome.message))])
       else NamesTheFailing(Get(item.fields, DetailsKey), cfg, w)
  }

  /** What one line of the log says of a write. */
  ghost predicate LineTells(e: Object, cfg: Config, w: Write)
  {
    && (Get(e, PhaseKey) == Str(SettleWord) <==> w.phase == Settle)
    && (Get(e, PhaseKey) == Str(TimeoutWord) <==> w.phase == Timeout)
    && (Get(e, PhaseKey) == Str(SteadyStateWord) <==> w.phase == SteadyState)
    && Get(e, Attempt) == Int(w.attempt)
    && (Get(e, StatusKey) == Str(PassWord) <==> Passes(w)) && (Get(e, StatusKey) == Str(FailWord) <==> !Passes(w))
    && Get(e, RunId) == Str(Other(cfg.runId))
    && Get(e, CapturedAt) == Str(Other(if w.outcome.Threw? then cfg.startedAt else w.outcome.sources.at))
    && NamesTheFailing(Get(e, FailedChecksKey), cfg, w) && TaxonomyTells(Get(e, TaxonomyKey), cfg, w)
  }

  lemma NamesOfChecks(cfg: Config, w: Write, checks: seq<R.Check>)
    requires forall c :: c in checks <==> Fails(cfg, w, c)
    ensures NamesTheFailing(CheckNames(checks), cfg, w)
  {
    hide Fails;
    var v := CheckNames(checks);
    forall c | Fails(cfg, w, c) ensures Str(Check(c)) in v.items {
      var i :| 0 <= i < |checks| && checks[i] == c;
      assert v.items[i] == Str(Check(c));
    }
    forall item | item in v.items ensures exists c :: Fails(cfg, w, c) && item == Str(Check(c)) {
      var i :| 0 <= i < |v.items| && v.items[i] == item;
      assert checks[i] in checks;
    }
  }

  lemma OneFinding(f: R.Finding)
    ensures var v := FindingJson(f);
      && v.Obj? && Get(v.fields, SeverityKey) == Str(ErrorWord)
      && (IsFinding(v, AdapterErrorWord) <==> f.AdapterError?)
      && (IsFinding(v, RegistrationTimeoutWord) <==> f.RegistrationTimeout?)
      && (IsFinding(v, ProjectionMismatchWord) <==> f.RegistrationProjectionMismatch?)
      && (f.RegistrationTimeout? || f.RegistrationProjectionMismatch? ==>
            Get(v.fields, DetailsKey) == CheckNames(f.failed))
  {
    hide CheckNames;
  }

  lemma AdapterDetails(message: string)
    ensures Get(FindingJson(R.AdapterError([message])).fields, DetailsKey) == Arr([Str(Other(message))])
  {
    var all := [message];
    assert seq(|all|, i requires 0 <= i < |all| => Plain(all[i])) == [Plain(message)];
  }

  /** The findings of a verdict, one for each class it blames. */
  lemma FindingsOf(cfg: Config, w: Write)
    requires Genuine(cfg, w)
    ensures var t, failed := w.verdict.taxonomy, w.verdict.failedChecks;
      && (forall c :: c in failed <==> Fails(cfg, w, c))
      && t == (if w.outcome.Threw? then [R.AdapterError([w.outcome.message])] else []) +
              (if failed == [] then []
               else if w.phase == Timeout then [R.RegistrationTimeout(failed)]
               else [R.RegistrationProjectionMismatch(failed)])
      && (Passes(w) <==> t == [] && failed == [])
  {
    hide R.Evaluate, SnapshotOf;
    R.EvaluationInWords(SnapshotOf(cfg, w.outcome), w.phase == Timeout, ErrorsOf(w.outcome));
  }

  lemma SomeFails(cfg: Config, w: Write, failed: seq<R.Check>)
    requires forall c :: c in failed <==> Fails(cfg, w, c)
    ensures failed == [] <==> !exists c :: Fails(cfg, w, c)
  {
    if failed != [] { assert failed[0] in failed; }
  }

  lemma BlamesSome(v: Value, code: Word, marked: seq<bool>)
    requires v.Arr? && |v.items| == |marked|
    requires forall i | 0 <= i < |marked| :: IsFinding(v.items[i], code) <==> marked[i]
    ensures Blames(v, code) <==> exists i :: 0 <= i < |marked| && marked[i]
  {
    hide IsFinding;
    if i :| 0 <= i < |marked| && marked[i] { assert v.items[i] in v.items; }
  }

  lemma CodesOf(t: seq<R.Finding>)
    ensures var v := TaxonomyJson(t);
      && |v.items| == |t|
      && (forall item | item in v.items :: exists i :: 0 <= i < |t| && item == FindingJson(t[i]))
      && (Blames(v, AdapterErrorWord) <==> exists i :: 0 <= i < |t| && t[i].AdapterError?)
      && (Blames(v, RegistrationTimeoutWord) <==> exists i :: 0 <= i < |t| && t[i].RegistrationTimeout?)
      && (Blames(v, ProjectionMismatchWord) <==> exists i :: 0 <= i < |t| && t[i].RegistrationProjectionMismatch?)
  {
    hide FindingJson, IsFinding, Blames;
    var v, n := TaxonomyJson(t), |t|;
    forall i | 0 <= i < n ensures IsOf(v.items[i], t[i]) { OneFinding(t[i]); }
    BlamesSome(v, AdapterErrorWord, seq(n, i requires 0 <= i < n => t[i].AdapterError?));
    BlamesSome(v, RegistrationTimeoutWord, seq(n, i requires 0 <= i < n => t[i].RegistrationTimeout?));
    BlamesSome(v, ProjectionMismatchWord, seq(n, i requires 0 <= i < n => t[i].RegistrationProjectionMismatch?));
    forall item | item in v.items ensures exists i :: 0 <= i < n && item == FindingJson(t[i]) {
      var i :| 0 <= i < n && v.items[i] == item;
    }
  }

  ghost predicate IsOf(v: Value, f: R.Finding)
  {
    && (IsFinding(v, AdapterErrorWord) <==> f.AdapterError?)
    && (IsFinding(v, RegistrationTimeoutWord) <==> f.RegistrationTimeout?)
    && (IsFinding(v, ProjectionMismatchWord) <==> f.RegistrationProjectionMismatch?)
  }

  lemma TaxonomyIsTold(cfg: Config, w: Write)
    requires Genuine(cfg, w)
    ensures TaxonomyTells(TaxonomyJson(w.verdict.taxonomy), cfg, w)
  {
    hide Genuine, Fails, FindingJson, IsFinding, NamesTheFailing, Blames, TaxonomyJson, CheckNames;
    FindingsOf(cfg, w);
    var t, failed := w.verdict.taxonomy, w.verdict.failedChecks;
    SomeFails(cfg, w, failed);
    NamesOfChecks(cfg, w, failed);
    if w.outcome.Threw? {
      AdapterDetails(w.outcome.message);
      assert t[0].AdapterError?;
    }
    if failed != [] {
      assert t[|t| - 1].RegistrationTimeout? || t[|t| - 1].RegistrationProjectionMismatch?;
    }
    CodesOf(t);
    forall item | item in TaxonomyJson(t).items ensures DetailsTell(item, cfg, w) {
      var i :| 0 <= i < |t| && item == FindingJson(t[i]);
      OneFinding(t[i]);
    }
  }

  lemma FieldsOfLine(cfg: Config, w: Write)
    ensures var e := EventJson(cfg, w.verdict, w.attempt, w.phase);
      && Get(e, Attempt) == Int(w.attempt) && Get(e, RunId) == Str(Other(cfg.runId))
      && Get(e, CapturedAt) == Str(Other(w.verdict.snapshot.capturedAt))
      && (Get(e, PhaseKey) == Str(SettleWord) <==> w.phase == Settle)
      && (Get(e, PhaseKey) == Str(TimeoutWord) <==> w.phase == Timeout)
      && (Get(e, PhaseKey) == Str(SteadyStateWord) <==> w.phase == SteadyState)
      && (Get(e, StatusKey) == Str(PassWord) <==> Passes(w)) && (Get(e, StatusKey) == Str(FailWord) <==> !Passes(w))
      && Get(e, FailedChecksKey) == CheckNames(w.verdict.failedChecks)
      && Get(e, TaxonomyKey) == TaxonomyJson(w.verdict.taxonomy)
  {
    hide CheckNames, TaxonomyJson;
  }

  /** Line k of the log on disk tells of write k. */
  lemma LineInWords(cfg: Config, before: Bundle, writes: seq<Write>, k: nat)
    requires k < |writes| && Genuine(cfg, writes[k])
    ensures var b := Replay(cfg, before, writes);
      && b.events.Some? && |b.events.value| == |writes|
      && b.events.value[k].Good? && b.events.value[k].value.Obj?
      && LineTells(b.events.value[k].value.fields, cfg, writes[k])
  {
    hide NamesTheFailing, TaxonomyTells, CheckNames, TaxonomyJson, EventJson;
    hide Genuine, Fails, Passes, Replay, SnapshotOf;
    LogOfRun(cfg, before, writes);
    var w := writes[k];
    FieldsOfLine(cfg, w);
    FindingsOf(cfg, w);
    NamesOfChecks(cfg, w, w.verdict.failedChecks);
    TaxonomyIsTold(cfg, w);
    CapturedWhen(cfg, w);
  }

  lemma CapturedWhen(cfg: Config, w: Write)
    requires Genuine(cfg, w)
    ensures w.verdict.snapshot == SnapshotOf(cfg, w.outcome)
    ensures w.verdict.snapshot.capturedAt == if w.outcome.Threw? then cfg.startedAt else w.outcome.sources.at
  {
  }

  // ---- The whole log -------------------------------------------------------------------

  /** What a line has under a key. */
  ghost function At(log: seq<Parse>, i: nat, key: Word): Value
    requires i < |log|
  {
    if log[i].Good? && log[i].value.Obj? then Get(log[i].value.fields, key) else Null
  }

  ghost predicate IsLine(log: seq<Parse>, i: nat, phase: Word, attempt: int)
    requires i < |log|
  {
    At(log, i, PhaseKey) == Str(phase) && At(log, i, Attempt) == Int(attempt)
  }

  ghost predicate IsSettleLine(log: seq<Parse>, i: nat)
    requires i < |log|
  {
    IsLine(log, i, SettleWord, i + 1)
  }

  ghost predicate IsSteadyLine(log: seq<Parse>, i: nat, from: nat, n: nat)
    requires i < |log|
  {
    IsLine(log, i, SteadyStateWord, n + i + 1 - from)
  }

  /** The first n lines say settle and count from 1; those before the last of them failed. */
  ghost predicate SettleLines(log: seq<Parse>, n: nat)
  {
    && n <= |log| && (forall i | 0 <= i < n :: IsSettleLine(log, i))
    && forall i | 0 <= i < n - 1 :: At(log, i, StatusKey) == Str(FailWord)
  }

  /** From there on the lines say steady-state and count on from n. */
  ghost predicate SteadyLines(log: seq<Parse>, from: nat, n: nat)
  {
    forall i | from <= i < |log| :: IsSteadyLine(log, i, from, n)
  }

  /** Settling goes on with failures; or it ended with the n-th attempt, which passed, or failed and was followed by one
      timeout line repeating its number. */
  ghost predicate OrderlyLog(log: seq<Parse>)
  {
    || (SettleLines(log, |log|) && (log != [] ==> At(log, |log| - 1, StatusKey) == Str(FailWord)))
    || exists n: nat :: SettledAt(log, n)
  }

  ghost predicate SettledAt(log: seq<Parse>, n: nat)
  {
    && 1 <= n <= |log| && SettleLines(log, n)
    && if At(log, n - 1, StatusKey) == Str(PassWord) then SteadyLines(log, n, n)
       else n < |log| && IsLine(log, n, TimeoutWord, n) && SteadyLines(log, n + 1, n)
  }

  lemma LinesAreOfWrites(cfg: Config, before: Bundle, writes: seq<Write>)
    requires AllGenuine(cfg, writes)
    ensures var log := LogOf(Replay(cfg, before, writes));
      && |log| == |writes|
      && forall i | 0 <= i < |log| :: LineIsOf(log, i, writes[i])
  {
    hide LineTells;
    LogOfRun(cfg, before, writes);
    forall i | 0 <= i < |writes| ensures LineIsOf(LogOf(Replay(cfg, before, writes)), i, writes[i]) {
      assert writes[i] in writes;
      LineInWords(cfg, before, writes, i);
      LineTellsPhase(LogOf(Replay(cfg, before, writes))[i].value.fields, cfg, writes[i]);
    }
  }

  ghost predicate LineIsOf(log: seq<Parse>, i: nat, w: Write)
    requires i < |log|
  {
    && (At(log, i, PhaseKey) == Str(SettleWord) <==> w.phase == Settle)
    && (At(log, i, PhaseKey) == Str(TimeoutWord) <==> w.phase == Timeout)
    && (At(log, i, PhaseKey) == Str(SteadyStateWord) <==> w.phase == SteadyState)
    && At(log, i, Attempt) == Int(w.attempt)
    && (At(log, i, StatusKey) == Str(PassWord) <==> Passes(w))
    && (At(log, i, StatusKey) == Str(FailWord) <==> !Passes(w))
  }

  lemma LineTellsPhase(e: Object, cfg: Config, w: Write)
    requires LineTells(e, cfg, w)
    ensures LineIsOf([Good(Obj(e))], 0, w)
  {
    hide NamesTheFailing, TaxonomyTells;
  }

  /** The log on disk after any ticks of any run is orderly. */
  lemma LogOfEveryRun(cfg: Config, before: Bundle, ticks: seq<Tick>)
    requires AllHonest(cfg, ticks)
    ensures OrderlyLog(LogOf(Replay(cfg, before, Run(cfg, ticks).writes)))
  {
    hide Run, Replay, LineIsOf, Genuine;
    var p := Run(cfg, ticks);
    EveryRunIsWellShaped(cfg, ticks);
    EveryWriteIsGenuine(cfg, ticks);
    LinesAreOfWrites(cfg, before, p.writes);
    var log := LogOf(Replay(cfg, before, p.writes));
    match p.control {
      case Settling(attempts, _) => SettlingLines(log, p.writes, attempts);
      case Watching(attempts) =>
        var n :| SettledLog(p.writes, n, attempts);
        SettledLines(log, p.writes, n, attempts);
    }
  }

  lemma SettlingLines(log: seq<Parse>, ws: seq<Write>, attempts: nat)
    requires |log| == |ws| && (forall i | 0 <= i < |log| :: LineIsOf(log, i, ws[i])) && SettlingLog(ws, attempts)
    ensures OrderlyLog(log)
  {
    hide At;
    forall i | 0 <= i < |log| ensures IsSettleLine(log, i) && At(log, i, StatusKey) == Str(FailWord) {
      assert LineIsOf(log, i, ws[i]) && IsEvent(ws[i], Settle, i + 1);
    }
  }

  lemma SettledLines(log: seq<Parse>, ws: seq<Write>, n: nat, attempts: nat)
    requires |log| == |ws| && (forall i | 0 <= i < |log| :: LineIsOf(log, i, ws[i])) && SettledLog(ws, n, attempts)
    ensures SettledAt(log, n)
  {
    hide At;
    forall i | 0 <= i < n ensures IsSettleLine(log, i) {
      assert LineIsOf(log, i, ws[i]) && IsEvent(ws[i], Settle, i + 1);
    }
    forall i | 0 <= i < n - 1 ensures At(log, i, StatusKey) == Str(FailWord) { assert LineIsOf(log, i, ws[i]); }
    assert LineIsOf(log, n - 1, ws[n - 1]);
    var from := SettleLength(ws, n);
    if from == n + 1 { assert LineIsOf(log, n, ws[n]) && IsEvent(ws[n], Timeout, n); }
    forall i | from <= i < |log| ensures IsSteadyLine(log, i, from, n) {
      assert LineIsOf(log, i, ws[i]) && IsEvent(ws[i], SteadyState, n + i + 1 - from);
    }
  }

  // ---- The other documents -------------------------------------------------------------

  ghost predicate ManifestTells(m: Object, cfg: Config, w: Write)
  {
    && Get(m, RunId) == Str(Other(cfg.runId)) && Get(m, RuntimeProfile) == Str(Other(cfg.runtimeProfile))
    && Get(m, ExpectedAgents) == Int(cfg.expectedAgents) && Get(m, StartedAt) == Str(Other(cfg.startedAt))
    && Get(m, TimeoutSeconds) == Int(cfg.timeoutSeconds)
    && Get(m, Backoff).Obj? && Get(Get(m, Backoff).fields, MinSeconds) == Int(cfg.minBackoff)
    && Get(Get(m, Backoff).fields, MaxSeconds) == Int(cfg.maxBackoff)
    && Get(m, LastStatus) == Str(if Passes(w) then PassWord else FailWord) && Get(m, AttemptCount) == Int(w.attempt)
    && Get(m, LastVerdictAt) == Str(Other(SnapshotOf(cfg, w.outcome).capturedAt))
  }

  /** What the summary and the verdict both say. */
  ghost predicate OutcomeTells(o: Object, cfg: Config, w: Write)
  {
    && Get(o, RunId) == Str(Other(cfg.runId)) && Get(o, StatusKey) == Str(if Passes(w) then PassWord else FailWord)
    && Get(o, CapturedAt) == Str(Other(SnapshotOf(cfg, w.outcome).capturedAt))
    && NamesTheFailing(Get(o, FailedChecksKey), cfg, w) && TaxonomyTells(Get(o, TaxonomyKey), cfg, w)
  }

  ghost predicate CountTells(v: Value, n: Option<int>) { v == if n.None? then Null else Int(n.value) }

  ghost predicate SurfacesTell(v: Value, s: R.Snapshot)
  {
    && v.Obj?
    && Get(v.fields, Surface(0)) == Int(|s.ldap|) && Get(v.fields, Surface(1)) == Int(|s.registered|)
    && Get(v.fields, Surface(2)) == Int(|s.connected|) && Get(v.fields, Surface(3)) == Int(|s.cAgent|)
    && Get(v.fields, Surface(4)) == Int(|s.domain|) && Get(v.fields, Surface(5)) == Int(|s.tree|)
    && CountTells(Get(v.fields, Surface(6)), s.dashboard.total)
    && CountTells(Get(v.fields, Surface(7)), s.dashboard.online)
  }

  ghost predicate ChecksTell(v: Value, cfg: Config, w: Write)
  {
    v.Obj? && forall c :: Get(v.fields, Check(c)) == Bool(!Fails(cfg, w, c))
  }

  ghost predicate StatesTell(v: Value, s: R.Snapshot, id: string)
  {
    && v.Obj?
    && Get(v.fields, State(R.LdapEntryReady)) == Bool(id in s.ldap)
    && Get(v.fields, State(R.XmppIdentityReady)) == Bool(id in s.registered)
    && Get(v.fields, State(R.RegisterSent)) == Bool(id in s.connected)
    && Get(v.fields, State(R.RegisterAccepted)) == Bool(id in s.domain)
    && Get(v.fields, State(R.CAgentReady)) == Bool(id in s.cAgent)
    && Get(v.fields, State(R.DomainReady)) == Bool(R.InAllSix(s, id))
  }

  ghost predicate EntryTells(v: Value, s: R.Snapshot, id: string)
  {
    && v.Obj? && Get(v.fields, AgentId) == Str(Other(id)) && StatesTell(Get(v.fields, StatesKey), s, id)
    && Get(v.fields, HighestState) == Str(
         if R.InAllSix(s, id) then State(R.DomainReady)
         else if id in s.cAgent then State(R.CAgentReady)
         else if id in s.domain then State(R.RegisterAccepted)
         else if id in s.connected then State(R.RegisterSent)
         else if id in s.registered then State(R.XmppIdentityReady)
         else if id in s.ldap then State(R.LdapEntryReady)
         else MissingWord)
  }

  /** One entry for each id of any inventory, in order. */
  ghost predicate EntriesTell(v: Value, s: R.Snapshot)
  {
    && v.Arr? && |v.items| == |R.AllIds(s)|
    && forall i | 0 <= i < |v.items| :: EntryTells(v.items[i], s, R.AllIds(s)[i])
  }

  lemma FreshFields(cfg: Config)
    ensures var m := ManifestJson(cfg);
      && Get(m, RunId) == Str(Other(cfg.runId)) && Get(m, RuntimeProfile) == Str(Other(cfg.runtimeProfile))
      && Get(m, ExpectedAgents) == Int(cfg.expectedAgents) && Get(m, StartedAt) == Str(Other(cfg.startedAt))
      && Get(m, TimeoutSeconds) == Int(cfg.timeoutSeconds)
      && Get(m, Backoff).Obj? && Get(Get(m, Backoff).fields, MinSeconds) == Int(cfg.minBackoff)
      && Get(Get(m, Backoff).fields, MaxSeconds) == Int(cfg.maxBackoff)
  {
  }

  lemma UpdatedFields(m: Object, e: R.Evaluation, attempt: int)
    ensures var m' := UpdatedManifest(m, e, attempt);
      && Get(m', RunId) == Get(m, RunId) && Get(m', RuntimeProfile) == Get(m, RuntimeProfile)
      && Get(m', ExpectedAgents) == Get(m, ExpectedAgents) && Get(m', StartedAt) == Get(m, StartedAt)
      && Get(m', TimeoutSeconds) == Get(m, TimeoutSeconds) && Get(m', Backoff) == Get(m, Backoff)
      && Get(m', LastStatus) == Str(if e.status == R.Pass then PassWord else FailWord)
      && Get(m', AttemptCount) == Int(attempt) && Get(m', LastVerdictAt) == Str(Other(e.snapshot.capturedAt))
  {
  }

  lemma ManifestIsTold(cfg: Config, w: Write)
    requires Genuine(cfg, w)
    ensures ManifestTells(UpdatedManifest(ManifestJson(cfg), w.verdict, w.attempt), cfg, w)
  {
    hide SnapshotOf, Genuine, UpdatedManifest, ManifestJson;
    CapturedWhen(cfg, w);
    FreshFields(cfg);
    UpdatedFields(ManifestJson(cfg), w.verdict, w.attempt);
  }

  lemma EntryIsTold(s: R.Snapshot, id: string)
    ensures EntryTells(EntryJson(R.EntryFor(s, id)), s, id)
  {
    hide R.EntryFor, R.InAllSix;
    R.StatesInWords(s, id);
    var e := R.EntryFor(s, id);
    var v := EntryJson(e);
    assert Get(v.fields, StatesKey) == StatesJson(e.states) && Get(v.fields, HighestState) == HighestJson(e.highest);
    StatesAreTold(e.states);
  }

  lemma StatesAreTold(states: map<R.AgentState, bool>)
    requires forall st: R.AgentState :: st in states
    ensures forall st: R.AgentState :: Get(StatesJson(states).fields, State(st)) == Bool(states[st])
  {
  }

  lemma EntriesAreTold(s: R.Snapshot)
    ensures EntriesTell(PerAgentJson(R.PerAgent(s)), s)
  {
    hide EntryJson, EntryTells, R.EntryFor;
    var entries := R.PerAgent(s);
    forall i | 0 <= i < |entries| ensures EntryTells(PerAgentJson(entries).items[i], s, R.AllIds(s)[i]) {
      EntryIsTold(s, R.AllIds(s)[i]);
    }
  }

  lemma ChecksAreTold(cfg: Config, w: Write)
    ensures ChecksTell(ChecksJson(SnapshotOf(cfg, w.outcome)), cfg, w)
  {
    hide SnapshotOf, R.Holds;
    var v := ChecksJson(SnapshotOf(cfg, w.outcome));
    forall c ensures Get(v.fields, Check(c)) == Bool(!Fails(cfg, w, c)) { R.EveryCheckIsListed(c); }
  }

  lemma SurfacesAreTold(s: R.Snapshot)
    ensures SurfacesTell(SurfacesJson(s), s)
  {
  }

  lemma VerdictFields(cfg: Config, e: R.Evaluation)
    ensures var v := VerdictJson(cfg, e);
      && Get(v, RunId) == Str(Other(cfg.runId)) && Get(v, RuntimeProfile) == Str(Other(cfg.runtimeProfile))
      && Get(v, ExpectedAgents) == Int(cfg.expectedAgents)
      && Get(v, StatusKey) == Str(if e.status == R.Pass then PassWord else FailWord)
      && Get(v, CapturedAt) == Str(Other(e.snapshot.capturedAt))
      && Get(v, ChecksKey) == ChecksJson(e.snapshot) && Get(v, FailedChecksKey) == CheckNames(e.failedChecks)
      && Get(v, TaxonomyKey) == TaxonomyJson(e.taxonomy) && Get(v, Surfaces) == SurfacesJson(e.snapshot)
      && Get(v, PerAgentKey) == PerAgentJson(e.perAgent)
  {
    hide ChecksJson, CheckNames, TaxonomyJson, SurfacesJson, PerAgentJson;
  }

  lemma SummaryFields(cfg: Config, e: R.Evaluation)
    ensures var f := SummaryJson(cfg, e);
      && Get(f, RunId) == Str(Other(cfg.runId))
      && Get(f, StatusKey) == Str(if e.status == R.Pass then PassWord else FailWord)
      && Get(f, CapturedAt) == Str(Other(e.snapshot.capturedAt))
      && Get(f, FailedChecksKey) == CheckNames(e.failedChecks) && Get(f, TaxonomyKey) == TaxonomyJson(e.taxonomy)
  {
    hide CheckNames, TaxonomyJson;
  }

  /** The manifest, verdict and summary after a run tell of its last write. */
  lemma DocumentsInWords(cfg: Config, before: Bundle, writes: seq<Write>)
    requires writes != [] && Genuine(cfg, writes[|writes| - 1])
    ensures var b, w := Replay(cfg, before, writes), writes[|writes| - 1];
      var s := SnapshotOf(cfg, w.outcome);
      && IsObject(b.manifest) && ManifestTells(ObjectIn(b.manifest), cfg, w)
      && IsObject(b.summary) && OutcomeTells(ObjectIn(b.summary), cfg, w)
      && IsObject(b.verdict) && OutcomeTells(ObjectIn(b.verdict), cfg, w)
      && var v := ObjectIn(b.verdict);
      && Get(v, RuntimeProfile) == Str(Other(cfg.runtimeProfile)) && Get(v, ExpectedAgents) == Int(cfg.expectedAgents)
      && ChecksTell(Get(v, ChecksKey), cfg, w) && SurfacesTell(Get(v, Surfaces), s)
      && EntriesTell(Get(v, PerAgentKey), s)
  {
    hide SnapshotOf, Genuine, ManifestTells, UpdatedManifest, VerdictJson, SummaryJson, ManifestJson, Replay;
    hide ChecksTell, SurfacesTell, EntriesTell, NamesTheFailing, TaxonomyTells, Fails, R.PerAgent;
    hide CheckNames, TaxonomyJson, ChecksJson, SurfacesJson, PerAgentJson;
    var w := writes[|writes| - 1];
    var s := SnapshotOf(cfg, w.outcome);
    DocumentsAreTheLastWrites(cfg, before, writes);
    ManifestIsTold(cfg, w);
    VerdictFields(cfg, w.verdict);
    SummaryFields(cfg, w.verdict);
    CapturedWhen(cfg, w);
    FindingsOf(cfg, w);
    NamesOfChecks(cfg, w, w.verdict.failedChecks);
    TaxonomyIsTold(cfg, w);
    ChecksAreTold(cfg, w);
    SurfacesAreTold(s);
    EntriesOfWrite(cfg, w);
    EntriesAreTold(s);
  }

  lemma EntriesOfWrite(cfg: Config, w: Write)
    requires Genuine(cfg, w)
    ensures w.verdict.perAgent == R.PerAgent(SnapshotOf(cfg, w.outcome))
  {
  }

  /** A collection that threw is judged by six empty lists and a dashboard without counts. */
  lemma ThrownInWords(cfg: Config, message: string)
    ensures var s := SnapshotOf(cfg, Threw(message));
      && s.ldap == s.registered == s.connected == s.cAgent == s.domain == s.tree == []
      && s.dashboard == R.Dashboard(None, None)
      && s.expectedAgents == cfg.expectedAgents && s.capturedAt == cfg.startedAt
  {
  }
}
