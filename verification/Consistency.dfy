/** What the validator accepts and at what it raises, in terms of the values in the documents. */
module Consistency {
  import opened Text
  import opened Json
  import opened Evidence
  import R = Registration

  /** The key has the number for its value; `true` counts as 1 and `false` as 0. */
  ghost predicate Holds(o: Object, key: Word, n: int)
  {
    key in o && (o[key] == Int(n) || (n == 1 && o[key] == Bool(true)) || (n == 0 && o[key] == Bool(false)))
  }

  /** These values alone are false to Python. */
  lemma FalseValues(v: Value)
    ensures !v.Truthy() <==> v in {Null, Bool(false), Int(0), Str(Other("")), Arr([]), Obj(map[])}
  {
  }

  lemma IntegersAndBooleans(o: Object, key: Word, n: int)
    ensures Get(o, key).IsInt() && Get(o, key).AsInt() == n <==> Holds(o, key, n)
    ensures Get(o, key).IsInt() ==> Holds(o, key, Get(o, key).AsInt())
  {
  }

  // ---- The manifest --------------------------------------------------------------------

  ghost predicate HasBounds(o: Object)
  {
    exists lo, hi :: 0 <= lo <= hi && Holds(o, MinSeconds, lo) && Holds(o, MaxSeconds, hi)
  }

  ghost predicate ManifestIsGood(m: Object)
  {
    && {SchemaVersion, RunId, RuntimeProfile, ExpectedAgents, StartedAt, TimeoutSeconds, Backoff} <= m.Keys
    && m[Backoff].Obj? && HasBounds(m[Backoff].fields)
  }

  lemma ManifestInWords(m: Object)
    ensures HasFields(m, MANIFEST_FIELDS) && BackoffOk(m) <==> ManifestIsGood(m)
  {
    ManifestFields(m);
    if Backoff in m && m[Backoff].Obj? {
      var o := m[Backoff].fields;
      var lo, hi := Get(o, MinSeconds), Get(o, MaxSeconds);
      forall n ensures lo.IsInt() && lo.AsInt() == n <==> Holds(o, MinSeconds, n) {
        IntegersAndBooleans(o, MinSeconds, n);
      }
      forall n ensures hi.IsInt() && hi.AsInt() == n <==> Holds(o, MaxSeconds, n) {
        IntegersAndBooleans(o, MaxSeconds, n);
      }
      if BackoffOk(m) { assert Holds(o, MinSeconds, lo.AsInt()) && Holds(o, MaxSeconds, hi.AsInt()); }
    }
  }

  lemma ManifestFields(o: Object)
    ensures HasFields(o, MANIFEST_FIELDS) <==>
      {SchemaVersion, RunId, RuntimeProfile, ExpectedAgents, StartedAt, TimeoutSeconds, Backoff} <= o.Keys
  {
  }

  lemma VerdictFields(o: Object)
    ensures HasFields(o, VERDICT_FIELDS) <==>
      {SchemaVersion, RunId, StatusKey, RuntimeProfile, ExpectedAgents, ChecksKey, TaxonomyKey, Surfaces, PerAgentKey,
       CapturedAt} <= o.Keys
  {
  }

  lemma SummaryFields(o: Object)
    ensures HasFields(o, SUMMARY_FIELDS) <==>
      {SchemaVersion, RunId, StatusKey, CapturedAt, FailedChecksKey, TaxonomyKey} <= o.Keys
  {
  }

  lemma EventFields(o: Object)
    ensures HasFields(o, EVENT_FIELDS) <==>
      {RunId, Attempt, PhaseKey, StatusKey, FailedChecksKey, TaxonomyKey, CapturedAt} <= o.Keys
  {
  }

  // ---- The verdict ---------------------------------------------------------------------

  /** Six marks, and a highest state that is one of the marked ones or "missing". */
  ghost predicate EntryIsGood(entry: Value)
  {
    && entry.Obj? && {AgentId, StatesKey, HighestState} <= entry.fields.Keys && entry.fields[StatesKey].Obj?
    && var marks := entry.fields[StatesKey].fields;
    && marks.Keys == {State(R.LdapEntryReady), State(R.XmppIdentityReady), State(R.RegisterSent),
                      State(R.RegisterAccepted), State(R.CAgentReady), State(R.DomainReady)}
    && (forall k | k in marks :: marks[k] in {Bool(true), Bool(false)})
    && (entry.fields[HighestState] == Str(MissingWord) ||
        exists w :: w in marks && marks[w] == Bool(true) && entry.fields[HighestState] == Str(w))
  }

  lemma EntryInWords(entry: Value)
    ensures EntryOk(entry) <==> EntryIsGood(entry)
  {
  }

  ghost predicate VerdictIsGood(v: Object)
  {
    && {SchemaVersion, RunId, StatusKey, RuntimeProfile, ExpectedAgents, ChecksKey, TaxonomyKey, Surfaces, PerAgentKey,
        CapturedAt, FailedChecksKey} <= v.Keys
    && v[StatusKey] in {Str(PassWord), Str(FailWord)}
    && v[ChecksKey].Obj? && (forall k | k in v[ChecksKey].fields :: v[ChecksKey].fields[k] in {Bool(true), Bool(false)})
    && v[FailedChecksKey].Arr? && v[TaxonomyKey].Arr? && v[Surfaces].Obj? && v[PerAgentKey].Arr?
    && (forall entry | entry in v[PerAgentKey].items :: EntryIsGood(entry))
    && (v[StatusKey] == Str(PassWord) ==>
          && (forall k | k in v[ChecksKey].fields :: v[ChecksKey].fields[k] == Bool(true))
          && v[FailedChecksKey] == Arr([]) && v[TaxonomyKey] == Arr([])
          && forall n | n > 0 && Holds(v, ExpectedAgents, n) :: |v[PerAgentKey].items| == n)
  }

  lemma VerdictInWords(v: Object)
    ensures HasFields(v, VERDICT_FIELDS) && VerdictOk(v) <==> VerdictIsGood(v)
  {
    hide EntryOk, EntryIsGood, Holds, HasFields, PassOk;
    VerdictFields(v);
    if ShapeOk(v) && HasFields(v, VERDICT_FIELDS) {
      PassInWords(v);
      forall entry ensures EntryOk(entry) <==> EntryIsGood(entry) { EntryInWords(entry); }
    }
  }

  lemma PassInWords(v: Object)
    requires ShapeOk(v) && {StatusKey, ChecksKey, FailedChecksKey, TaxonomyKey, PerAgentKey} <= v.Keys
    ensures PassOk(v) <==>
      (v[StatusKey] == Str(PassWord) ==>
         && (forall k | k in v[ChecksKey].fields :: v[ChecksKey].fields[k] == Bool(true))
         && v[FailedChecksKey] == Arr([]) && v[TaxonomyKey] == Arr([])
         && forall n | n > 0 && Holds(v, ExpectedAgents, n) :: |v[PerAgentKey].items| == n)
  {
    hide Holds;
    var expected := Get(v, ExpectedAgents);
    forall n ensures expected.IsInt() && expected.AsInt() == n <==> Holds(v, ExpectedAgents, n) {
      IntegersAndBooleans(v, ExpectedAgents, n);
    }
    if expected.IsInt() { assert Holds(v, ExpectedAgents, expected.AsInt()); }
    forall k | k in v[ChecksKey].fields
      ensures v[ChecksKey].fields[k].Truthy() <==> v[ChecksKey].fields[k] == Bool(true)
    {
      assert v[ChecksKey].fields[k].Bool?;
    }
  }

  // ---- The events ----------------------------------------------------------------------

  ghost predicate EventIsGood(e: Object, runId: Value)
  {
    && {RunId, Attempt, PhaseKey, StatusKey, FailedChecksKey, TaxonomyKey, CapturedAt} <= e.Keys
    && (runId != Null ==> e[RunId] == runId)
    && e[PhaseKey] in {Str(SettleWord), Str(TimeoutWord), Str(SteadyStateWord)}
    && e[StatusKey] in {Str(PassWord), Str(FailWord)}
    && (exists n :: n > 0 && Holds(e, Attempt, n))
    && e[FailedChecksKey].Arr? && e[TaxonomyKey].Arr?
  }

  lemma EventInWords(e: Object, runId: Value)
    ensures EventOk(e, runId) <==> EventIsGood(e, runId)
  {
    hide HasFields, Holds;
    EventFields(e);
    forall n ensures Get(e, Attempt).IsInt() && Get(e, Attempt).AsInt() == n <==> Holds(e, Attempt, n) {
      IntegersAndBooleans(e, Attempt, n);
    }
    if Get(e, Attempt).IsInt() { assert Holds(e, Attempt, Get(e, Attempt).AsInt()); }
  }

  /** An array or an object where a word is looked up in a set. */
  ghost predicate Nests(o: Object, key: Word) { key in o && (o[key].Arr? || o[key].Obj?) }

  ghost predicate EntryNests(entry: Value)
  {
    entry.Obj? && StatesKey in entry.fields && entry.fields[StatesKey].Obj? && Nests(entry.fields, HighestState)
  }

  ghost predicate VerdictNests(v: Object)
  {
    || Nests(v, StatusKey)
    || (PerAgentKey in v && v[PerAgentKey].Arr? && exists entry :: entry in v[PerAgentKey].items && EntryNests(entry))
  }

  ghost predicate LineNests(line: Parse)
  {
    line.Good? && line.value.Obj? && (Nests(line.value.fields, PhaseKey) || Nests(line.value.fields, StatusKey))
  }

  lemma RaisingInWords(e: Object, v: Object)
    ensures EventRaises(e) <==> Nests(e, PhaseKey) || Nests(e, StatusKey)
    ensures VerdictRaises(v) <==> VerdictNests(v)
  {
    assert forall entry :: EntryRaises(entry) <==> EntryNests(entry);
  }

  // ---- The reports ---------------------------------------------------------------------

  /** The key is absent, or its value is an object or false to Python. */
  ghost predicate IsLookable(o: Object, key: Word)
  {
    key !in o || o[key].Obj? || o[key] in {Null, Bool(false), Int(0), Str(Other("")), Arr([])}
  }

  ghost predicate ReportIsReadable(report: Object)
  {
    && IsLookable(report, TopologyKey) && IsLookable(report, SupportKey)
    && (SupportKey in report && report[SupportKey].Obj? ==>
          && IsLookable(report[SupportKey].fields, MutationSupport)
          && IsLookable(report[SupportKey].fields, ScenariosKey)
          && IsLookable(report[SupportKey].fields, SessionSupport))
  }

  lemma LookupsInWords(o: Object, key: Word)
    ensures OrEmpty(Get(o, key)).Some? <==> IsLookable(o, key)
    ensures IsLookable(o, key) ==>
      OrEmpty(Get(o, key)).value == if key in o && o[key].Obj? then o[key].fields else map[]
  {
  }

  lemma ReportInWords(report: Object)
    ensures SupportIsReadable(report) <==> ReportIsReadable(report)
  {
    hide OrEmpty, IsLookable;
    LookupsInWords(report, TopologyKey);
    LookupsInWords(report, SupportKey);
    if IsLookable(report, SupportKey) {
      var support := OrEmpty(Get(report, SupportKey)).value;
      LookupsInWords(support, MutationSupport);
      LookupsInWords(support, ScenariosKey);
      LookupsInWords(support, SessionSupport);
      NothingToLookAt(MutationSupport);
      NothingToLookAt(ScenariosKey);
      NothingToLookAt(SessionSupport);
    }
  }

  lemma NothingToLookAt(key: Word)
    ensures IsLookable(map[], key)
  {
  }

  // ---- The bundle ----------------------------------------------------------------------

  /** The documents agree with each other where they say the same thing. */
  ghost predicate Agree(m: Object, v: Object, f: Object)
    requires {RunId, RuntimeProfile, ExpectedAgents} <= m.Keys
    requires {RunId, StatusKey, RuntimeProfile, ExpectedAgents, CapturedAt, FailedChecksKey, TaxonomyKey} <= v.Keys
    requires {RunId, StatusKey, FailedChecksKey, TaxonomyKey} <= f.Keys
  {
    && (m[RunId] != Null ==> v[RunId] == m[RunId])
    && v[ExpectedAgents] == m[ExpectedAgents] && v[RuntimeProfile] == m[RuntimeProfile]
    && (LastStatus in m && m[LastStatus] != Null ==> m[LastStatus] == v[StatusKey])
    && (LastVerdictAt in m && m[LastVerdictAt] != Null ==> m[LastVerdictAt] == v[CapturedAt])
    && f[RunId] == v[RunId] && f[StatusKey] == v[StatusKey]
    && f[FailedChecksKey] == v[FailedChecksKey] && f[TaxonomyKey] == v[TaxonomyKey]
  }

  ghost predicate DocumentsAreGood(m: Object, v: Object, f: Object)
  {
    && ManifestIsGood(m) && VerdictIsGood(v)
    && {SchemaVersion, RunId, StatusKey, CapturedAt, FailedChecksKey, TaxonomyKey} <= f.Keys
    && Agree(m, v, f)
  }

  lemma DocumentsInWords(m: Object, v: Object, f: Object)
    ensures DocumentsOk(m, v, f) <==> DocumentsAreGood(m, v, f)
  {
    hide VerdictOk, VerdictIsGood, HasFields, BackoffOk, ManifestIsGood, SummaryMatches;
    ManifestInWords(m);
    VerdictInWords(v);
    SummaryFields(f);
    GoodKeys(m, v);
    SummaryInWords(f, v);
  }

  lemma GoodKeys(m: Object, v: Object)
    ensures ManifestIsGood(m) ==> {RunId, RuntimeProfile, ExpectedAgents} <= m.Keys
    ensures VerdictIsGood(v) ==>
      {RunId, StatusKey, RuntimeProfile, ExpectedAgents, CapturedAt, FailedChecksKey, TaxonomyKey} <= v.Keys
  {
  }

  lemma SummaryInWords(f: Object, v: Object)
    ensures SummaryMatches(f, v) <==>
      && Get(f, RunId) == Get(v, RunId) && Get(f, StatusKey) == Get(v, StatusKey)
      && Get(f, FailedChecksKey) == Get(v, FailedChecksKey) && Get(f, TaxonomyKey) == Get(v, TaxonomyKey)
  {
  }

  /** Every line is an event of the run, and the last one agrees with the manifest and the verdict. */
  ghost predicate LogIsGood(lines: seq<Parse>, m: Object, v: Object)
    requires RunId in m && RunId in v && StatusKey in v
  {
    && lines != []
    && var runId := if m[RunId] != Null then m[RunId] else v[RunId];
    && (forall line | line in lines :: line.Good? && line.value.Obj? && EventIsGood(line.value.fields, runId))
    && var last := lines[|lines| - 1].value.fields;
    && last[StatusKey] == v[StatusKey]
    && (AttemptCount in m && m[AttemptCount] != Null ==> last[Attempt] == m[AttemptCount])
  }

  lemma LogInWords(lines: seq<Parse>, m: Object, v: Object)
    requires RunId in m && RunId in v && StatusKey in v
    ensures LogOk(lines, m, v) <==> LogIsGood(lines, m, v)
  {
    hide EventOk, EventIsGood;
    forall e, runId ensures EventOk(e, runId) <==> EventIsGood(e, runId) { EventInWords(e, runId); }
    forall e, runId | EventIsGood(e, runId) ensures StatusKey in e && Attempt in e { EventHasKeys(e, runId); }
    if lines != [] { assert lines[|lines| - 1] in lines; }
  }

  lemma EventHasKeys(e: Object, runId: Value)
    requires EventIsGood(e, runId)
    ensures StatusKey in e && Attempt in e
  {
  }

  ghost predicate ReportIsGood(report: Option<Parse>)
  {
    match report
    case None => true
    case Some(Good(Obj(fields))) => ReportIsReadable(fields)
    case _ => false
  }

  ghost predicate BundleIsGood(b: Bundle)
  {
    && b.manifest.Some? && b.manifest.value.Good? && b.manifest.value.value.Obj?
    && b.verdict.Some? && b.verdict.value.Good? && b.verdict.value.value.Obj?
    && b.summary.Some? && b.summary.value.Good? && b.summary.value.value.Obj?
    && b.events.Some?
    && var m, v, f := b.manifest.value.value.fields, b.verdict.value.value.fields, b.summary.value.value.fields;
    && DocumentsAreGood(m, v, f) && LogIsGood(b.events.value, m, v)
    && ReportIsGood(b.coreReport) && ReportIsGood(b.operationalReport)
  }

  /** A consistent bundle, value by value. */
  lemma ConsistentInWords(b: Bundle)
    ensures Consistent(b) <==> BundleIsGood(b)
  {
    hide DocumentsOk, DocumentsAreGood, LogOk, LogIsGood, SupportIsReadable, ReportIsReadable;
    if IsObject(b.manifest) && IsObject(b.verdict) && IsObject(b.summary) && b.events.Some? {
      var m, v, f := ObjectIn(b.manifest), ObjectIn(b.verdict), ObjectIn(b.summary);
      DocumentsInWords(m, v, f);
      if DocumentsAreGood(m, v, f) {
        DocumentsHaveKeys(m, v, f);
        LogInWords(b.events.value, m, v);
      }
    }
    if IsObject(b.coreReport) { ReportInWords(ObjectIn(b.coreReport)); }
    if IsObject(b.operationalReport) { ReportInWords(ObjectIn(b.operationalReport)); }
  }

  /** The verdict, a line or a report is an object and has an array or object where a word is looked up, respectively
      something else than an object where a key is. */
  ghost predicate IsUnreadable(b: Bundle)
  {
    || (IsObject(b.verdict) && VerdictNests(b.verdict.value.value.fields))
    || (b.events.Some? && exists line :: line in b.events.value && LineNests(line))
    || (IsObject(b.coreReport) && !ReportIsReadable(b.coreReport.value.value.fields))
    || (IsObject(b.operationalReport) && !ReportIsReadable(b.operationalReport.value.value.fields))
  }

  /** The validator raises at exactly these bundles. */
  lemma RaisesInWords(b: Bundle)
    ensures Raises(b) <==> IsUnreadable(b)
  {
    hide VerdictRaises, VerdictNests, SupportIsReadable, ReportIsReadable, EventRaises, Nests;
    if IsObject(b.verdict) { RaisingInWords(map[], ObjectIn(b.verdict)); }
    forall e: Object ensures EventRaises(e) <==> Nests(e, PhaseKey) || Nests(e, StatusKey) { RaisingInWords(e, map[]); }
    forall line ensures LineRaises(line) <==> LineNests(line) {}
    if IsObject(b.coreReport) { ReportInWords(ObjectIn(b.coreReport)); }
    if IsObject(b.operationalReport) { ReportInWords(ObjectIn(b.operationalReport)); }
  }

  lemma DocumentsHaveKeys(m: Object, v: Object, f: Object)
    requires DocumentsAreGood(m, v, f)
    ensures RunId in m && RunId in v && StatusKey in v
  {
  }
}
