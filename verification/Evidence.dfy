/** The independent validator of a run's artifact bundle, and what it accepts. */
module Evidence {
  import opened Text
  import opened Json
  import R = Registration

  datatype Label =
    | RunManifest | RegistrationVerdict | RegistrationEvents | FailureSummary
    | RuntimeCoreReport | RuntimeOperationalReport
    | EventLine(line: nat) | PerAgentItem(item: nat)

  datatype Error =
    | MissingArtifact(file: Label)
    | InvalidJson(at: Label)
    | ExpectedObject(at: Label)
    | NoEvents
    | MissingField(at: Label, field: Word)
    | WrongShape(at: Label, field: Word)
    | MinExceedsMax
    | MissingStates(at: Label) | UnexpectedStates(at: Label) | HighestStateNotTrue(at: Label)
    | PerAgentCount
    | PassWith(field: Word)
    | Mismatch(at: Label, field: Word)

  /** The artifact directory; `None` is a file that does not exist. */
  datatype Bundle = Bundle(
    manifest: Option<Parse>, verdict: Option<Parse>, summary: Option<Parse>, events: Option<seq<Parse>>,
    coreReport: Option<Parse>, operationalReport: Option<Parse>)

  // ---- The evidence contract -----------------------------------------------------------

  const MANIFEST_FIELDS: seq<Word> :=
    [SchemaVersion, RunId, RuntimeProfile, ExpectedAgents, StartedAt, TimeoutSeconds, Backoff]
  const VERDICT_FIELDS: seq<Word> :=
    [SchemaVersion, RunId, StatusKey, RuntimeProfile, ExpectedAgents, ChecksKey, TaxonomyKey, Surfaces, PerAgentKey,
     CapturedAt]
  const SUMMARY_FIELDS: seq<Word> := [SchemaVersion, RunId, StatusKey, CapturedAt, FailedChecksKey, TaxonomyKey]
  const EVENT_FIELDS: seq<Word> := [RunId, Attempt, PhaseKey, StatusKey, FailedChecksKey, TaxonomyKey, CapturedAt]
  const EVENT_PHASES: set<Word> := {SettleWord, TimeoutWord, SteadyStateWord}
  const STATES: set<Word> :=
    {State(R.LdapEntryReady), State(R.XmppIdentityReady), State(R.RegisterSent), State(R.RegisterAccepted),
     State(R.CAgentReady), State(R.DomainReady)}

  // ---- What a consistent bundle is -----------------------------------------------------

  predicate IsStatus(v: Value) { v == Str(PassWord) || v == Str(FailWord) }

  predicate IsObject(file: Option<Parse>) { file.Some? && file.value.Good? && file.value.value.Obj? }

  function ObjectIn(file: Option<Parse>): Object
    requires IsObject(file)
  {
    file.value.value.fields
  }

  predicate HasFields(o: Object, fields: seq<Word>) { forall f | f in fields :: f in o }

  predicate BackoffOk(m: Object)
  {
    var b := Get(m, Backoff);
    && b.Obj?
    && var lo, hi := Get(b.fields, MinSeconds), Get(b.fields, MaxSeconds);
    && lo.IsInt() && hi.IsInt() && 0 <= lo.AsInt() <= hi.AsInt()
  }

  predicate AllBool(o: Object) { forall k | k in o :: o[k].Bool? }

  /** The highest state is `missing`, or one of the states that is marked true. */
  predicate HighestOk(highest: Value, marks: Object, states: set<Word>)
  {
    && highest.Str?
    && (highest.word in states || highest.word == MissingWord)
    && (highest.word in states ==> Get(marks, highest.word) == Bool(true))
  }

  predicate EntryOk(entry: Value)
  {
    && entry.Obj? && AgentId in entry.fields
    && var states := Get(entry.fields, StatesKey);
    && states.Obj? && states.fields.Keys == STATES && AllBool(states.fields)
    && HighestOk(Get(entry.fields, HighestState), states.fields, STATES)
  }

  predicate ShapeOk(v: Object)
  {
    && IsStatus(Get(v, StatusKey))
    && Get(v, ChecksKey).Obj? && AllBool(Get(v, ChecksKey).fields)
    && Get(v, FailedChecksKey).Arr? && Get(v, TaxonomyKey).Arr? && Get(v, Surfaces).Obj? && Get(v, PerAgentKey).Arr?
  }

  predicate EntriesOk(v: Object)
    requires ShapeOk(v)
  {
    forall i | 0 <= i < |Get(v, PerAgentKey).items| :: EntryOk(Get(v, PerAgentKey).items[i])
  }

  /** A passing verdict: no failed check, nothing to report, and one entry per expected agent. */
  predicate PassOk(v: Object)
    requires ShapeOk(v)
  {
    Get(v, StatusKey) == Str(PassWord) ==>
      && (forall k | k in Get(v, ChecksKey).fields :: Get(v, ChecksKey).fields[k].Truthy())
      && Get(v, FailedChecksKey).items == []
      && Get(v, TaxonomyKey).items == []
      && (Get(v, ExpectedAgents).IsInt() && Get(v, ExpectedAgents).AsInt() > 0 ==>
            |Get(v, PerAgentKey).items| == Get(v, ExpectedAgents).AsInt())
  }

  predicate VerdictOk(v: Object) { ShapeOk(v) && EntriesOk(v) && PassOk(v) }

  /** The verdict belongs to the run the manifest describes, and is its latest. */
  predicate VerdictMatches(m: Object, v: Object)
  {
    && (Get(m, RunId) == Null || Get(v, RunId) == Get(m, RunId))
    && Get(v, ExpectedAgents) == Get(m, ExpectedAgents)
    && Get(v, RuntimeProfile) == Get(m, RuntimeProfile)
    && (Get(m, LastStatus) == Null || Get(m, LastStatus) == Get(v, StatusKey))
    && (Get(m, LastVerdictAt) == Null || Get(m, LastVerdictAt) == Get(v, CapturedAt))
  }

  predicate SummaryMatches(f: Object, v: Object)
  {
    forall k | k in SUMMARY_KEYS :: Get(f, k) == Get(v, k)
  }

  const SUMMARY_KEYS: set<Word> := {RunId, StatusKey, FailedChecksKey, TaxonomyKey}

  function BundleRunId(m: Object, v: Object): Value
  {
    if Get(m, RunId) == Null then Get(v, RunId) else Get(m, RunId)
  }

  predicate EventOk(e: Object, runId: Value)
  {
    && HasFields(e, EVENT_FIELDS)
    && (runId == Null || Get(e, RunId) == runId)
    && Get(e, PhaseKey).Str? && Get(e, PhaseKey).word in EVENT_PHASES
    && IsStatus(Get(e, StatusKey))
    && Get(e, Attempt).IsInt() && Get(e, Attempt).AsInt() > 0
    && Get(e, FailedChecksKey).Arr? && Get(e, TaxonomyKey).Arr?
  }

  predicate LineOk(line: Parse, runId: Value)
  {
    line.Good? && line.value.Obj? && EventOk(line.value.fields, runId)
  }

  predicate LastEventMatches(m: Object, v: Object, last: Object)
  {
    && (Get(m, AttemptCount) == Null || Get(m, AttemptCount) == Get(last, Attempt))
    && Get(v, StatusKey) == Get(last, StatusKey)
  }

  /** Python's `v or {}`, if looking a key up in it raises nothing. */
  function OrEmpty(v: Value): Option<Object>
  {
    if !v.Truthy() then Some(map[]) else if v.Obj? then Some(v.fields) else None
  }

  /** The support and topology of a runtime report can be looked into. */
  predicate SupportIsReadable(report: Object)
  {
    && OrEmpty(Get(report, TopologyKey)).Some?
    && var support := OrEmpty(Get(report, SupportKey));
    && support.Some?
    && OrEmpty(Get(support.value, MutationSupport)).Some?
    && OrEmpty(Get(support.value, ScenariosKey)).Some?
    && OrEmpty(Get(support.value, SessionSupport)).Some?
  }

  /** An optional report is absent or an object whose support can be looked into. */
  predicate ReportOk(file: Option<Parse>) { file.None? || (IsObject(file) && SupportIsReadable(ObjectIn(file))) }

  predicate DocumentsOk(m: Object, v: Object, f: Object)
  {
    && HasFields(m, MANIFEST_FIELDS) && HasFields(v, VERDICT_FIELDS) && HasFields(f, SUMMARY_FIELDS)
    && BackoffOk(m) && VerdictOk(v) && VerdictMatches(m, v) && SummaryMatches(f, v)
  }

  predicate LogOk(lines: seq<Parse>, m: Object, v: Object)
  {
    && lines != []
    && (forall i | 0 <= i < |lines| :: LineOk(lines[i], BundleRunId(m, v)))
    && LastEventMatches(m, v, lines[|lines| - 1].value.fields)
  }

  predicate Consistent(b: Bundle)
  {
    && IsObject(b.manifest) && IsObject(b.verdict) && IsObject(b.summary) && b.events.Some?
    && DocumentsOk(ObjectIn(b.manifest), ObjectIn(b.verdict), ObjectIn(b.summary))
    && LogOk(b.events.value, ObjectIn(b.manifest), ObjectIn(b.verdict))
    && ReportOk(b.coreReport) && ReportOk(b.operationalReport)
  }

  // ---- What the validator cannot read --------------------------------------------------

  /** A value whose membership in a set Python cannot decide. */
  predicate Unhashable(v: Value) { v.Arr? || v.Obj? }

  predicate EntryRaises(entry: Value)
  {
    entry.Obj? && Get(entry.fields, StatesKey).Obj? && Unhashable(Get(entry.fields, HighestState))
  }

  predicate VerdictRaises(v: Object)
  {
    || Unhashable(Get(v, StatusKey))
    || (Get(v, PerAgentKey).Arr? && exists entry :: entry in Get(v, PerAgentKey).items && EntryRaises(entry))
  }

  predicate EventRaises(e: Object) { Unhashable(Get(e, PhaseKey)) || Unhashable(Get(e, StatusKey)) }

  predicate LineRaises(line: Parse) { line.Good? && line.value.Obj? && EventRaises(line.value.fields) }

  predicate SomeLineRaises(lines: seq<Parse>) { exists line :: line in lines && LineRaises(line) }

  predicate SomeRaise(events: seq<Object>) { exists e :: e in events && EventRaises(e) }

  lemma OneMoreRaises(events: seq<Object>, e: Object, lines: seq<Parse>, line: Parse)
    ensures SomeRaise(events + [e]) <==> SomeRaise(events) || EventRaises(e)
    ensures SomeLineRaises(lines + [line]) <==> SomeLineRaises(lines) || LineRaises(line)
  {
    hide EventRaises, LineRaises;
    assert e in events + [e] && line in lines + [line];
  }

  lemma NobodyRaises()
    ensures !SomeRaise([]) && !SomeLineRaises([])
  {
  }

  ghost function EventOf(line: Parse): Object { if line.Good? && line.value.Obj? then line.value.fields else map[] }

  predicate ReportRaises(file: Option<Parse>) { IsObject(file) && !SupportIsReadable(ObjectIn(file)) }

  /** The bundles at which the validator raises. */
  predicate Raises(b: Bundle)
  {
    || (IsObject(b.verdict) && VerdictRaises(ObjectIn(b.verdict)))
    || (b.events.Some? && SomeLineRaises(b.events.value))
    || ReportRaises(b.coreReport) || ReportRaises(b.operationalReport)
  }

  lemma ShapelyVerdictIsReadable(v: Object)
    requires ShapeOk(v) && EntriesOk(v)
    ensures !VerdictRaises(v)
  {
    forall entry | entry in Get(v, PerAgentKey).items ensures !EntryRaises(entry) {
      var i :| 0 <= i < |Get(v, PerAgentKey).items| && Get(v, PerAgentKey).items[i] == entry;
      assert EntryOk(Get(v, PerAgentKey).items[i]);
    }
  }

  lemma OrderlyLogIsReadable(lines: seq<Parse>, m: Object, v: Object)
    requires LogOk(lines, m, v)
    ensures !SomeLineRaises(lines)
  {
    hide LastEventMatches, HasFields;
    forall line | line in lines ensures !LineRaises(line) {
      var i :| 0 <= i < |lines| && lines[i] == line;
      assert LineOk(lines[i], BundleRunId(m, v));
    }
  }

  /** It raises at no consistent bundle. */
  lemma ConsistentIsReadable(b: Bundle)
    requires Consistent(b)
    ensures !Raises(b)
  {
    hide ShapeOk, EntriesOk, LogOk, SomeLineRaises, VerdictRaises, SupportIsReadable;
    ShapelyVerdictIsReadable(ObjectIn(b.verdict));
    OrderlyLogIsReadable(b.events.value, ObjectIn(b.manifest), ObjectIn(b.verdict));
  }

  // ---- The validator -------------------------------------------------------------------

  /** Appends `e` when the condition is met. */
  method ReportIf(bad: bool, e: Error, errors: seq<Error>) returns (r: seq<Error>)
    ensures r == if bad then errors + [e] else errors
  {
    r := if bad then errors + [e] else errors;
  }

  method LoadJson(file: Option<Parse>, at: Label, errors: seq<Error>)
    returns (payload: Option<Object>, r: seq<Error>)
    ensures |errors| <= |r|
    ensures |r| == |errors| <==> file.None? || IsObject(file)
    ensures payload.Some? <==> IsObject(file)
    ensures payload.Some? ==> payload.value == ObjectIn(file)
  {
    r, payload := errors, None;
    if file.None? {
      return;
    }
    if file.value.Bad? {
      r := r + [InvalidJson(at)];
    } else if !file.value.value.Obj? {
      r := r + [ExpectedObject(at)];
    } else {
      payload := Some(file.value.value.fields);
    }
  }

  ghost predicate GoodObjects(lines: seq<Parse>)
  {
    forall i | 0 <= i < |lines| :: lines[i].Good? && lines[i].value.Obj?
  }

  method LoadEvents(file: Option<seq<Parse>>, errors: seq<Error>) returns (events: seq<Object>, r: seq<Error>)
    ensures |errors| <= |r|
    ensures file.None? ==> events == [] && |r| == |errors|
    ensures file.Some? ==> (|r| == |errors| <==> file.value != [] && GoodObjects(file.value))
    ensures file.Some? && |r| == |errors| ==> |events| == |file.value|
    ensures file.Some? && |r| == |errors| ==> forall i | 0 <= i < |events| :: events[i] == file.value[i].value.fields
    ensures SomeRaise(events) <==> file.Some? && SomeLineRaises(file.value)
  {
    hide EventRaises, SomeRaise, SomeLineRaises;
    NobodyRaises();
    r, events := errors, [];
    if file.None? {
      return;
    }
    var lines := file.value;
    if lines == [] {
      r := r + [NoEvents];
      return;
    }
    for k := 0 to |lines|
      invariant |errors| <= |r|
      invariant |r| == |errors| <==> GoodObjects(lines[..k])
      invariant |r| == |errors| ==> |events| == k
      invariant |r| == |errors| ==> forall i | 0 <= i < k :: events[i] == lines[i].value.fields
      invariant SomeRaise(events) <==> SomeLineRaises(lines[..k])
    {
      assert lines[..k + 1] == lines[..k] + [lines[k]];
      OneMoreRaises(events, EventOf(lines[k]), lines[..k], lines[k]);
      if lines[k].Bad? {
        r := r + [InvalidJson(EventLine(k + 1))];
      } else if !lines[k].value.Obj? {
        r := r + [ExpectedObject(EventLine(k + 1))];
      } else {
        events := events + [lines[k].value.fields];
      }
    }
    assert lines[..|lines|] == lines;
  }

  method RequireFields(o: Object, fields: seq<Word>, at: Label, errors: seq<Error>) returns (r: seq<Error>)
    ensures |errors| <= |r|
    ensures |r| == |errors| <==> HasFields(o, fields)
  {
    r := errors;
    for k := 0 to |fields|
      invariant |errors| <= |r|
      invariant |r| == |errors| <==> HasFields(o, fields[..k])
    {
      assert fields[..k + 1] == fields[..k] + [fields[k]];
      r := ReportIf(fields[k] !in o, MissingField(at, fields[k]), r);
    }
    assert fields[..|fields|] == fields;
  }

  method CheckBackoff(m: Object, errors: seq<Error>) returns (r: seq<Error>)
    ensures |errors| <= |r|
    ensures |r| == |errors| <==> BackoffOk(m)
  {
    r := errors;
    var b := Get(m, Backoff);
    if !b.Obj? {
      r := r + [WrongShape(RunManifest, Backoff)];
      return;
    }
    var lo, hi := Get(b.fields, MinSeconds), Get(b.fields, MaxSeconds);
    r := ReportIf(!lo.IsInt() || lo.AsInt() < 0, WrongShape(RunManifest, MinSeconds), r);
    r := ReportIf(!hi.IsInt() || hi.AsInt() < 0, WrongShape(RunManifest, MaxSeconds), r);
    r := ReportIf(lo.IsInt() && hi.IsInt() && lo.AsInt() > hi.AsInt(), MinExceedsMax, r);
  }

  /** Reports every value of `o` that is not a boolean. */
  method CheckBooleans(o: Object, at: Label, errors: seq<Error>) returns (r: seq<Error>)
    ensures |errors| <= |r|
    ensures |r| == |errors| <==> AllBool(o)
  {
    r := errors;
    var left := o.Keys;
    while left != {}
      invariant left <= o.Keys
      invariant |errors| <= |r|
      invariant |r| == |errors| <==> forall k | k in o && k !in left :: o[k].Bool?
    {
      var k :| k in left;
      left := left - {k};
      r := ReportIf(!o[k].Bool?, WrongShape(at, k), r);
    }
  }

  method ValidatePerAgentEntry(entry: Value, at: Label, errors: seq<Error>) returns (raised: bool, r: seq<Error>)
    ensures |errors| <= |r|
    ensures raised <==> EntryRaises(entry)
    ensures !raised ==> (|r| == |errors| <==> EntryOk(entry))
  {
    raised, r := false, errors;
    if !entry.Obj? {
      r := r + [ExpectedObject(at)];
      return;
    }
    r := ReportIf(AgentId !in entry.fields, MissingField(at, AgentId), r);
    var states := Get(entry.fields, StatesKey);
    if !states.Obj? {
      r := r + [WrongShape(at, StatesKey)];
      return;
    }
    var marks := states.fields;
    r := CheckStates(marks, STATES, at, r);
    var highest := Get(entry.fields, HighestState);
    if Unhashable(highest) {
      return true, r;
    }
    r := CheckHighest(highest, marks, STATES, at, r);
  }

  /** The marks are booleans, one for each of the contract's states and no other. */
  method CheckStates(marks: Object, states: set<Word>, at: Label, errors: seq<Error>) returns (r: seq<Error>)
    ensures |errors| <= |r|
    ensures |r| == |errors| <==> marks.Keys == states && AllBool(marks)
  {
    r := ReportIf(!(states <= marks.Keys), MissingStates(at), errors);
    if marks.Keys - states != {} {
      r := r + [UnexpectedStates(at)];
    } else {
      forall k | k in marks ensures k in states { assert k !in marks.Keys - states; }
    }
    r := CheckBooleans(marks, at, r);
  }

  method CheckHighest(highest: Value, marks: Object, states: set<Word>, at: Label, errors: seq<Error>)
    returns (r: seq<Error>)
    ensures |errors| <= |r|
    ensures |r| == |errors| <==> HighestOk(highest, marks, states)
  {
    r := errors;
    var known := highest.Str? && highest.word in states;
    r := ReportIf(highest != Str(MissingWord) && !known, WrongShape(at, HighestState), r);
    r := ReportIf(known && Get(marks, highest.word) != Bool(true), HighestStateNotTrue(at), r);
  }

  method ValidatePerAgentStates(perAgent: seq<Value>, errors: seq<Error>) returns (raised: bool, r: seq<Error>)
    ensures |errors| <= |r|
    ensures raised <==> exists entry :: entry in perAgent && EntryRaises(entry)
    ensures !raised ==> (|r| == |errors| <==> forall i | 0 <= i < |perAgent| :: EntryOk(perAgent[i]))
  {
    hide EntryOk, EntryRaises;
    r := errors;
    for k := 0 to |perAgent|
      invariant |errors| <= |r|
      invariant forall i | 0 <= i < k :: !EntryRaises(perAgent[i])
      invariant |r| == |errors| <==> forall i | 0 <= i < k :: EntryOk(perAgent[i])
    {
      raised, r := ValidatePerAgentEntry(perAgent[k], PerAgentItem(k + 1), r);
      if raised {
        return;
      }
    }
    raised := false;
  }

  method CheckVerdict(v: Object, errors: seq<Error>) returns (raised: bool, r: seq<Error>)
    ensures |errors| <= |r|
    ensures raised <==> VerdictRaises(v)
    ensures !raised ==> (|r| == |errors| <==> VerdictOk(v))
  {
    hide EntryOk, EntryRaises;
    raised, r := false, errors;
    var status, checks, perAgent := Get(v, StatusKey), Get(v, ChecksKey), Get(v, PerAgentKey);
    if Unhashable(status) {
      return true, r;
    }
    r := ReportIf(!IsStatus(status), WrongShape(RegistrationVerdict, StatusKey), r);
    if !checks.Obj? {
      r := r + [WrongShape(RegistrationVerdict, ChecksKey)];
    } else {
      r := CheckBooleans(checks.fields, RegistrationVerdict, r);
    }
    r := ReportIf(!Get(v, FailedChecksKey).Arr?, WrongShape(RegistrationVerdict, FailedChecksKey), r);
    r := ReportIf(!Get(v, TaxonomyKey).Arr?, WrongShape(RegistrationVerdict, TaxonomyKey), r);
    r := ReportIf(!Get(v, Surfaces).Obj?, WrongShape(RegistrationVerdict, Surfaces), r);
    if !perAgent.Arr? {
      r := r + [WrongShape(RegistrationVerdict, PerAgentKey)];
    } else {
      raised, r := ValidatePerAgentStates(perAgent.items, r);
      if raised {
        return;
      }
      var expected := Get(v, ExpectedAgents);
      var counted := status == Str(PassWord) && expected.IsInt() && expected.AsInt() > 0;
      r := ReportIf(counted && |perAgent.items| != expected.AsInt(), PerAgentCount, r);
    }
    if status == Str(PassWord) {
      var fails := checks.Obj? && exists k :: k in checks.fields && !checks.fields[k].Truthy();
      r := ReportIf(fails, PassWith(ChecksKey), r);
      r := ReportIf(Get(v, FailedChecksKey).Arr? && Get(v, FailedChecksKey).Truthy(), PassWith(FailedChecksKey), r);
      r := ReportIf(Get(v, TaxonomyKey).Arr? && Get(v, TaxonomyKey).Truthy(), PassWith(TaxonomyKey), r);
    }
  }

  method CheckVerdictAgainstManifest(m: Object, v: Object, errors: seq<Error>) returns (r: seq<Error>)
    ensures |errors| <= |r|
    ensures |r| == |errors| <==> VerdictMatches(m, v)
  {
    r := errors;
    r := ReportIf(Get(m, RunId) != Null && Get(v, RunId) != Get(m, RunId), Mismatch(RegistrationVerdict, RunId), r);
    r := ReportIf(Get(v, ExpectedAgents) != Get(m, ExpectedAgents), Mismatch(RegistrationVerdict, ExpectedAgents), r);
    r := ReportIf(Get(v, RuntimeProfile) != Get(m, RuntimeProfile), Mismatch(RegistrationVerdict, RuntimeProfile), r);
    var status, at := Get(m, LastStatus), Get(m, LastVerdictAt);
    r := ReportIf(status != Null && status != Get(v, StatusKey), Mismatch(RunManifest, LastStatus), r);
    r := ReportIf(at != Null && at != Get(v, CapturedAt), Mismatch(RunManifest, LastVerdictAt), r);
  }

  method CheckSummary(f: Object, v: Object, errors: seq<Error>) returns (r: seq<Error>)
    ensures |errors| <= |r|
    ensures |r| == |errors| <==> SummaryMatches(f, v)
  {
    r := errors;
    r := ReportIf(Get(f, RunId) != Get(v, RunId), Mismatch(FailureSummary, RunId), r);
    r := ReportIf(Get(f, StatusKey) != Get(v, StatusKey), Mismatch(FailureSummary, StatusKey), r);
    r := ReportIf(Get(f, FailedChecksKey) != Get(v, FailedChecksKey), Mismatch(FailureSummary, FailedChecksKey), r);
    r := ReportIf(Get(f, TaxonomyKey) != Get(v, TaxonomyKey), Mismatch(FailureSummary, TaxonomyKey), r);
  }

  method CheckEvent(e: Object, runId: Value, at: Label, errors: seq<Error>) returns (raised: bool, r: seq<Error>)
    ensures |errors| <= |r|
    ensures raised <==> EventRaises(e)
    ensures !raised ==> (|r| == |errors| <==> EventOk(e, runId))
  {
    raised := EventRaises(e);
    r := RequireFields(e, EVENT_FIELDS, at, errors);
    if raised {
      return;
    }
    r := ReportIf(runId != Null && Get(e, RunId) != runId, Mismatch(at, RunId), r);
    r := ReportIf(!(Get(e, PhaseKey).Str? && Get(e, PhaseKey).word in EVENT_PHASES), WrongShape(at, PhaseKey), r);
    r := ReportIf(!IsStatus(Get(e, StatusKey)), WrongShape(at, StatusKey), r);
    r := ReportIf(!Get(e, Attempt).IsInt() || Get(e, Attempt).AsInt() <= 0, WrongShape(at, Attempt), r);
    r := ReportIf(!Get(e, FailedChecksKey).Arr?, WrongShape(at, FailedChecksKey), r);
    r := ReportIf(!Get(e, TaxonomyKey).Arr?, WrongShape(at, TaxonomyKey), r);
  }

  method CheckEvents(events: seq<Object>, runId: Value, errors: seq<Error>)
    returns (raised: bool, lastAttempt: Value, lastStatus: Value, r: seq<Error>)
    ensures |errors| <= |r|
    ensures raised <==> SomeRaise(events)
    ensures !raised ==> (|r| == |errors| <==> forall i | 0 <= i < |events| :: EventOk(events[i], runId))
    ensures events == [] ==> lastAttempt == Null && lastStatus == Null
    ensures !raised && events != [] ==> lastAttempt == Get(events[|events| - 1], Attempt)
    ensures !raised && events != [] ==> lastStatus == Get(events[|events| - 1], StatusKey)
  {
    hide EventRaises, EventOk;
    raised, lastAttempt, lastStatus, r := false, Null, Null, errors;
    for k := 0 to |events|
      invariant |errors| <= |r| && !raised
      invariant forall i | 0 <= i < k :: !EventRaises(events[i])
      invariant |r| == |errors| <==> forall i | 0 <= i < k :: EventOk(events[i], runId)
      invariant k == 0 ==> lastAttempt == Null && lastStatus == Null
      invariant k > 0 ==> lastAttempt == Get(events[k - 1], Attempt) && lastStatus == Get(events[k - 1], StatusKey)
    {
      raised, r := CheckEvent(events[k], runId, EventLine(k + 1), r);
      if raised {
        return;
      }
      lastAttempt, lastStatus := Get(events[k], Attempt), Get(events[k], StatusKey);
    }
  }

  method CheckDocuments(manifest: Option<Object>, verdict: Option<Object>, summary: Option<Object>, errors: seq<Error>)
    returns (raised: bool, runId: Value, r: seq<Error>)
    ensures |errors| <= |r|
    ensures raised <==> verdict.Some? && VerdictRaises(verdict.value)
    ensures !raised && manifest.Some? && verdict.Some? && summary.Some? ==>
      && runId == BundleRunId(manifest.value, verdict.value)
      && (|r| == |errors| <==> DocumentsOk(manifest.value, verdict.value, summary.value))
  {
    hide VerdictRaises;
    raised, runId, r := false, Null, errors;
    if manifest.Some? { r := RequireFields(manifest.value, MANIFEST_FIELDS, RunManifest, r); }
    if verdict.Some? { r := RequireFields(verdict.value, VERDICT_FIELDS, RegistrationVerdict, r); }
    if summary.Some? { r := RequireFields(summary.value, SUMMARY_FIELDS, FailureSummary, r); }
    if manifest.Some? { r := CheckBackoff(manifest.value, r); }
    if verdict.Some? {
      raised, r := CheckVerdict(verdict.value, r);
      if raised {
        return;
      }
    }

    runId := if manifest.Some? then Get(manifest.value, RunId) else Null;
    if verdict.Some? {
      if manifest.Some? {
        r := CheckVerdictAgainstManifest(manifest.value, verdict.value, r);
      }
      if runId == Null {
        runId := Get(verdict.value, RunId);
      }
    }
    if summary.Some? && verdict.Some? {
      r := CheckSummary(summary.value, verdict.value, r);
    }
  }

  method CheckLog(manifest: Option<Object>, verdict: Option<Object>, events: seq<Object>, runId: Value,
                  errors: seq<Error>)
    returns (raised: bool, r: seq<Error>)
    ensures |errors| <= |r|
    ensures raised <==> SomeRaise(events)
    ensures !raised && manifest.Some? && verdict.Some? && events != [] ==>
      (|r| == |errors| <==>
         && (forall i | 0 <= i < |events| :: EventOk(events[i], runId))
         && LastEventMatches(manifest.value, verdict.value, events[|events| - 1]))
  {
    var lastAttempt, lastStatus;
    raised, lastAttempt, lastStatus, r := CheckEvents(events, runId, errors);
    if raised {
      return;
    }
    if manifest.Some? && Get(manifest.value, AttemptCount) != Null && lastAttempt != Null {
      r := ReportIf(Get(manifest.value, AttemptCount) != lastAttempt, Mismatch(RunManifest, AttemptCount), r);
    }
    if verdict.Some? && lastStatus != Null {
      r := ReportIf(Get(verdict.value, StatusKey) != lastStatus, Mismatch(RegistrationVerdict, StatusKey), r);
    }
    if events != [] && forall i | 0 <= i < |events| :: EventOk(events[i], runId) {
      assert EventOk(events[|events| - 1], runId);
    }
  }

  /** Loads an optional report and looks into its support, which may raise. */
  method LoadReport(file: Option<Parse>, at: Label, errors: seq<Error>) returns (raised: bool, r: seq<Error>)
    ensures |errors| <= |r|
    ensures raised <==> ReportRaises(file)
    ensures !raised ==> (|r| == |errors| <==> ReportOk(file))
  {
    var report;
    report, r := LoadJson(file, at, errors);
    raised := report.Some? && !SupportIsReadable(report.value);
  }

  method LoadReports(b: Bundle, errors: seq<Error>) returns (raised: bool, r: seq<Error>)
    ensures |errors| <= |r|
    ensures raised <==> ReportRaises(b.coreReport) || ReportRaises(b.operationalReport)
    ensures !raised ==> (|r| == |errors| <==> ReportOk(b.coreReport) && ReportOk(b.operationalReport))
  {
    hide ReportOk, ReportRaises;
    raised, r := LoadReport(b.coreReport, RuntimeCoreReport, errors);
    if !raised {
      raised, r := LoadReport(b.operationalReport, RuntimeOperationalReport, r);
    }
  }

  /** Accepts a bundle, without a complaint, exactly when it is consistent; raises exactly at what it cannot read. */
  method ValidateRegistrationEvidence(b: Bundle) returns (raised: bool, errors: seq<Error>)
    ensures raised <==> Raises(b)
    ensures !raised && errors == [] <==> Consistent(b)
  {
    hide ReportOk, ReportRaises, VerdictRaises, LineRaises, EventRaises, DocumentsOk;
    if Consistent(b) { ConsistentIsReadable(b); }
    errors := ReportIf(b.manifest.None?, MissingArtifact(RunManifest), []);
    errors := ReportIf(b.verdict.None?, MissingArtifact(RegistrationVerdict), errors);
    errors := ReportIf(b.events.None?, MissingArtifact(RegistrationEvents), errors);
    errors := ReportIf(b.summary.None?, MissingArtifact(FailureSummary), errors);

    var manifest, verdict, summary, events, runId;
    manifest, errors := LoadJson(b.manifest, RunManifest, errors);
    verdict, errors := LoadJson(b.verdict, RegistrationVerdict, errors);
    summary, errors := LoadJson(b.summary, FailureSummary, errors);
    events, errors := LoadEvents(b.events, errors);
    ghost var loaded := errors;
    raised, runId, errors := CheckDocuments(manifest, verdict, summary, errors);
    if raised {
      return;
    }
    raised, errors := CheckLog(manifest, verdict, events, runId, errors);
    if raised {
      return;
    }
    raised, errors := LoadReports(b, errors);
    if loaded == [] {
      LoadedLog(b.events.value, events, runId, ObjectIn(b.manifest), ObjectIn(b.verdict));
    }
  }

  lemma LoadedLog(lines: seq<Parse>, events: seq<Object>, runId: Value, m: Object, v: Object)
    requires lines != [] && |lines| == |events| && GoodObjects(lines) && runId == BundleRunId(m, v)
    requires forall i | 0 <= i < |events| :: events[i] == lines[i].value.fields
    ensures LogOk(lines, m, v) <==>
      (forall i | 0 <= i < |events| :: EventOk(events[i], runId)) && LastEventMatches(m, v, events[|events| - 1])
  {
    forall i | 0 <= i < |events| ensures LineOk(lines[i], runId) <==> EventOk(events[i], runId) {}
    if LogOk(lines, m, v) {
      forall i | 0 <= i < |events| ensures EventOk(events[i], runId) { assert LineOk(lines[i], runId); }
    }
  }
}
