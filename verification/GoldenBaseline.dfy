/** The golden baseline: what capture writes, and what validation accepts. */
module GoldenBaseline {
  import opened Text

  type Path = string

  // ---- Files ---------------------------------------------------------------------------

  datatype Value = Flag(flag: bool) | Words(words: string) | Digest(digest: int)

  type Field = map<string, Value>

  /** A field of a configuration as JSON: an object, a string, an array, or null, a number or a boolean. */
  datatype Shape = Keyed(entries: Field) | Quoted(text: string) | Listed(items: seq<Value>) | Scalar

  type Fields = map<string, Shape>

  datatype Metadata = Metadata(path: Path, size: nat, sha: int)

  datatype ManifestDoc = ManifestDoc(
    keys: set<string>, status: string, contextIsObject: bool, files: Option<map<Path, Metadata>>)

  /** The content of a file: a JSON object read as a manifest or as a configuration, whose `fields` may be no object;
      other JSON with the texts in it; or bytes that are not JSON. */
  datatype Content =
    | ManifestFile(doc: ManifestDoc)
    | ConfigFile(fields: Option<Fields>)
    | OtherJson(isObject: bool, texts: set<string>, tag: int)
    | Raw(bytes: seq<int>)

  predicate IsJson(c: Content) { !c.Raw? }

  predicate IsObject(c: Content) { !c.Raw? && (c.OtherJson? ==> c.isObject) }

  /** A file as the manifest reader sees it; an object without the manifest's keys has none. */
  function ManifestIn(c: Content): ManifestDoc
  {
    if c.ManifestFile? then c.doc else ManifestDoc({}, "", false, Some(map[]))
  }

  /** The fields of a configuration, if they are an object; an object without the key has none. */
  function FieldsIn(c: Content): Option<Fields> { if c.ConfigFile? then c.fields else Some(map[]) }

  function ConfigOf(fields: map<string, Field>): Content
  {
    ConfigFile(Some(map f | f in fields :: Keyed(fields[f])))
  }

  const VALUE := "value"

  /** Python's `"value" in payload`: a key of an object, a part of a string, or an item of an array. */
  predicate Exposes(s: Shape)
  {
    match s
    case Keyed(entries) => VALUE in entries
    case Quoted(text) => exists i :: 0 <= i <= |text| - |VALUE| && text[i..][..|VALUE|] == VALUE
    case Listed(items) => Words(VALUE) in items
    case Scalar => false
  }

  type Files = map<Path, Content>

  // ---- The contract --------------------------------------------------------------------

  datatype Contract = Contract(
    manifest: Path, ldapTree: Path, config: Path, apiCaptures: seq<Path>, uiEvidence: seq<Path>,
    manifestFields: seq<string>, criticalFields: seq<string>, secretFields: seq<string>)
  {
    function Required(): seq<Path> { [manifest, ldapTree, config] + apiCaptures + uiEvidence }

    /** The manifest cannot fingerprint itself. */
    function Tracked(): seq<Path> { Required()[1..] }
  }

  const REGISTRY := Contract(
    "manifest.json", "ldap-tree.json", "config.json",
    ["api-captures/dashboard.json", "api-captures/agent-list.json", "api-captures/computer-tree.json"],
    ["ui-evidence/dashboard.png", "ui-evidence/computer-management.png"],
    ["schemaVersion", "baselineName", "status", "source", "capturedAt", "files", "captureContext"],
    ["ldapRootDn", "agentLdapBaseDn", "userLdapBaseDn", "userGroupLdapBaseDn", "ahenkGroupLdapBaseDn",
     "xmppServiceName", "xmppResource", "ldapPassword", "xmppPassword"],
    ["ldapPassword", "xmppPassword", "fileServerPassword", "mailPassword"])

  const MANIFEST_KEYS: set<string> :=
    {"schemaVersion", "baselineName", "status", "source", "capturedAt", "captureContext", "files"}

  // ---- Capture -------------------------------------------------------------------------

  const SOURCE := "c_config.liderConfigParams"

  /** A runtime field as captured: the value itself only if it is no secret. */
  function FieldOf(name: string, value: Option<string>, secret: bool, hashText: Option<string> -> int): Field
  {
    var entry := map["present" := Flag(value.Some?), "source" := Words(SOURCE),
                     "sha256" := Digest(hashText(value))];
    if !secret && value.Some? then entry["value" := Words(value.value)] else entry
  }

  function Lookup(payload: map<string, string>, name: string): Option<string>
  {
    if name in payload then Some(payload[name]) else None
  }

  /** The captured fields: the critical ones. */
  function CapturedFields(payload: map<string, string>, c: Contract,
                          hashText: Option<string> -> int): map<string, Field>
  {
    map f | f in c.criticalFields :: FieldOf(f, Lookup(payload, f), f in c.secretFields, hashText)
  }

  /** What is captured of a field: whether the payload has it, its source, a hash of it, and the value itself if it is
      there and no secret. */
  ghost predicate IsCapture(e: Field, name: string, payload: map<string, string>, secret: bool,
                            hashText: Option<string> -> int)
  {
    && e.Keys == {"present", "source", "sha256"} + (if name in payload && !secret then {"value"} else {})
    && e["present"] == Flag(name in payload)
    && e["source"] == Words("c_config.liderConfigParams")
    && e["sha256"] == Digest(hashText(if name in payload then Some(payload[name]) else None))
    && (name in payload && !secret ==> e["value"] == Words(payload[name]))
  }

  lemma FieldInWords(name: string, payload: map<string, string>, secret: bool, hashText: Option<string> -> int)
    ensures IsCapture(FieldOf(name, Lookup(payload, name), secret, hashText), name, payload, secret, hashText)
  {
    assert "value"[0] == 'v' && "present"[0] == 'p' && "source"[1] == 'o' && "sha256"[1] == 'h';
  }

  method CaptureRuntimeConfig(payload: map<string, string>, c: Contract, hashText: Option<string> -> int)
    returns (fields: map<string, Field>)
    ensures fields == CapturedFields(payload, c, hashText)
    ensures forall s | s in c.secretFields && s in fields :: "value" !in fields[s]
    ensures forall f | f in fields :: "value" in fields[f] <==> f !in c.secretFields && f in payload
    ensures forall f :: f in fields <==> f in c.criticalFields
    ensures forall f | f in fields :: IsCapture(fields[f], f, payload, f in c.secretFields, hashText)
  {
    fields := map[];
    for k := 0 to |c.criticalFields|
      invariant fields.Keys == set f | f in c.criticalFields[..k]
      invariant forall f | f in fields :: fields[f] == FieldOf(f, Lookup(payload, f), f in c.secretFields, hashText)
    {
      var name := c.criticalFields[k];
      var value := Lookup(payload, name);
      var entry := map["present" := Flag(value.Some?), "source" := Words(SOURCE),
                       "sha256" := Digest(hashText(value))];
      if name !in c.secretFields && value.Some? {
        entry := entry["value" := Words(value.value)];
      }
      assert c.criticalFields[..k + 1] == c.criticalFields[..k] + [name];
      fields := fields[name := entry];
    }
    assert c.criticalFields[..|c.criticalFields|] == c.criticalFields;
    forall f | f in fields ensures IsCapture(fields[f], f, payload, f in c.secretFields, hashText) {
      FieldInWords(f, payload, f in c.secretFields, hashText);
    }
  }

  lemma ValueIsKept(name: string, value: Option<string>, secret: bool, hashText: Option<string> -> int)
    ensures var e := FieldOf(name, value, secret, hashText);
      && ("value" in e <==> !secret && value.Some?)
      && "present" in e && "source" in e && "sha256" in e
  {
    assert "value"[0] == 'v' && "present"[0] == 'p' && "source"[0] == 's' && "sha256"[0] == 's';
  }

  function FileMetadata(files: Files, paths: seq<Path>, hash: Content -> int, size: Content -> nat): map<Path, Metadata>
    requires forall p | p in paths :: p in files
  {
    map p | p in paths :: Metadata(p, size(files[p]), hash(files[p]))
  }

  /** The metadata of the paths; a missing file raises. */
  method CollectFileMetadata(files: Files, paths: seq<Path>, hash: Content -> int, size: Content -> nat)
    returns (r: Option<map<Path, Metadata>>)
    ensures r.Some? <==> forall p | p in paths :: p in files
    ensures r.Some? ==> r.value == FileMetadata(files, paths, hash, size)
  {
    var metadata := map[];
    for k := 0 to |paths|
      invariant forall p | p in paths[..k] :: p in files
      invariant metadata.Keys == set p | p in paths[..k]
      invariant forall p | p in metadata :: p in files && metadata[p] == Metadata(p, size(files[p]), hash(files[p]))
    {
      assert paths[..k + 1] == paths[..k] + [paths[k]];
      if paths[k] !in files {
        return None;
      }
      metadata := metadata[paths[k] := Metadata(paths[k], size(files[paths[k]]), hash(files[paths[k]]))];
    }
    assert paths[..|paths|] == paths;
    r := Some(metadata);
  }

  function ManifestFor(files: map<Path, Metadata>): Content
  {
    ManifestFile(ManifestDoc(MANIFEST_KEYS, "capture-complete", true, Some(files)))
  }

  // ---- Validation ----------------------------------------------------------------------

  /** Every required file is there, JSON where it must be, and no screenshot is empty. */
  ghost predicate FilesOk(files: Files, c: Contract, size: Content -> nat)
  {
    forall p | p in c.Required() :: FileOk(files, p, size)
  }

  predicate FileOk(files: Files, p: Path, size: Content -> nat)
  {
    p in files && if EndsWith(p, ".json") then IsJson(files[p]) else EndsWith(p, ".png") ==> size(files[p]) > 0
  }

  ghost predicate ManifestOk(doc: ManifestDoc, files: Files, c: Contract, hash: Content -> int, size: Content -> nat)
  {
    && (forall k | k in c.manifestFields :: k in doc.keys)
    && doc.status == "capture-complete" && doc.contextIsObject && doc.files.Some?
    && forall p | p in c.Tracked() :: MetadataOk(doc.files.value, files, p, hash, size)
  }

  predicate MetadataOk(m: map<Path, Metadata>, files: Files, p: Path, hash: Content -> int, size: Content -> nat)
  {
    p in m && m[p].path == p && (p in files ==> m[p].sha == hash(files[p]) && m[p].size == size(files[p]))
  }

  ghost predicate ConfigOk(fields: Fields, c: Contract)
  {
    && (forall f | f in c.criticalFields :: f in fields && FieldOk(fields[f]))
    && forall s | s in c.secretFields && s in fields :: !Exposes(fields[s])
  }

  predicate FieldOk(s: Shape) { s.Keyed? && "present" in s.entries && "source" in s.entries && "sha256" in s.entries }

  /** Looking up the contract's fields raises nothing: a configuration whose `fields` is no object has none to look up,
      and no secret is null, a number or a boolean. */
  ghost predicate CanLookUp(fields: Option<Fields>, c: Contract)
  {
    if fields.None? then c.criticalFields == [] && c.secretFields == []
    else forall s | s in c.secretFields && s in fields.value :: !fields.value[s].Scalar?
  }

  ghost predicate IsReadable(content: Content, c: Contract) { IsObject(content) && CanLookUp(FieldsIn(content), c) }

  ghost predicate ConfigFileOk(content: Content, c: Contract)
  {
    IsReadable(content, c) && (FieldsIn(content).Some? ==> ConfigOk(FieldsIn(content).value, c))
  }

  /** What a valid baseline is. A manifest that is JSON but no object is not looked into. */
  ghost predicate Valid(files: Files, c: Contract, hash: Content -> int, size: Content -> nat)
  {
    && FilesOk(files, c, size)
    && (c.manifest in files ==> IsJson(files[c.manifest]))
    && (c.manifest in files && IsObject(files[c.manifest]) ==>
          ManifestOk(ManifestIn(files[c.manifest]), files, c, hash, size))
    && (c.config in files ==> ConfigFileOk(files[c.config], c))
  }

  // ---- Validity in words ---------------------------------------------------------------

  /** Among the names: "value" as a key, as an item or inside the text. */
  ghost predicate HasValue(s: Shape)
  {
    match s
    case Keyed(entries) => "value" in entries
    case Quoted(text) => exists a, b :: text == a + "value" + b
    case Listed(items) => Words("value") in items
    case Scalar => false
  }

  lemma ExposesInWords(s: Shape)
    ensures Exposes(s) <==> HasValue(s)
  {
    if s.Quoted? {
      var text := s.text;
      if Exposes(s) {
        var i :| 0 <= i <= |text| - 5 && text[i..][..5] == "value";
        assert text == text[..i] + "value" + text[i..][5..];
      }
      if HasValue(s) {
        var a, b :| text == a + "value" + b;
        assert text[|a|..][..5] == "value";
      }
    }
  }

  /** The manifest is complete and describes every tracked file as it is, or is JSON but no object. */
  ghost predicate ManifestIsGood(manifest: Content, files: Files, c: Contract, hash: Content -> int,
                                 size: Content -> nat)
  {
    match manifest
    case ManifestFile(doc) =>
      && (forall k | k in c.manifestFields :: k in doc.keys)
      && doc.status == "capture-complete" && doc.contextIsObject && doc.files.Some?
      && forall p | p in [c.ldapTree, c.config] + c.apiCaptures + c.uiEvidence ::
           p in files && p in doc.files.value && doc.files.value[p] == Metadata(p, size(files[p]), hash(files[p]))
    case OtherJson(isObject, _, _) => !isObject
    case _ => false
  }

  /** Every critical field has its three keys, no secret has a value, and no secret is null, a number or a boolean. */
  ghost predicate ConfigIsGood(config: Content, c: Contract)
  {
    match config
    case ConfigFile(Some(fields)) =>
      && (forall f | f in c.criticalFields ::
            f in fields && fields[f].Keyed? && {"present", "source", "sha256"} <= fields[f].entries.Keys)
      && (forall s | s in c.secretFields && s in fields :: !HasValue(fields[s]) && fields[s] != Scalar)
    case ConfigFile(None) => c.criticalFields == [] && c.secretFields == []
    case OtherJson(isObject, _, _) => isObject && c.criticalFields == []
    case ManifestFile(_) => c.criticalFields == []
    case Raw(_) => false
  }

  ghost predicate IsGood(files: Files, c: Contract, hash: Content -> int, size: Content -> nat)
  {
    && (forall p | p in [c.manifest, c.ldapTree, c.config] + c.apiCaptures + c.uiEvidence ::
          && p in files
          && (EndsWith(p, ".json") ==> !files[p].Raw?)
          && (EndsWith(p, ".png") && !EndsWith(p, ".json") ==> size(files[p]) > 0))
    && ManifestIsGood(files[c.manifest], files, c, hash, size)
    && ConfigIsGood(files[c.config], c)
  }

  lemma ManifestInWords(files: Files, c: Contract, hash: Content -> int, size: Content -> nat)
    requires c.manifest in files && forall p | p in c.Tracked() :: p in files
    ensures ManifestIsGood(files[c.manifest], files, c, hash, size) <==>
      && IsJson(files[c.manifest])
      && (IsObject(files[c.manifest]) ==> ManifestOk(ManifestIn(files[c.manifest]), files, c, hash, size))
  {
    TrackedAre(c);
    var doc := ManifestIn(files[c.manifest]);
    if doc.files.Some? {
      assert forall p | p in c.Tracked() :: MetadataOk(doc.files.value, files, p, hash, size) <==>
        p in doc.files.value && doc.files.value[p] == Metadata(p, size(files[p]), hash(files[p]));
    }
  }

  lemma ConfigInWords(config: Content, c: Contract)
    ensures ConfigIsGood(config, c) <==> ConfigFileOk(config, c)
  {
    hide Exposes, HasValue;
    forall s ensures Exposes(s) <==> HasValue(s) { ExposesInWords(s); }
    var fields := FieldsIn(config);
    if fields.Some? && c.criticalFields != [] { assert c.criticalFields[0] in c.criticalFields; }
    if fields.Some? {
      assert forall f | f in fields.value :: FieldOk(fields.value[f]) <==>
        fields.value[f].Keyed? && {"present", "source", "sha256"} <= fields.value[f].entries.Keys;
    }
  }

  /** What a valid baseline is, in terms of the contents of its files. */
  lemma ValidInWords(files: Files, c: Contract, hash: Content -> int, size: Content -> nat)
    ensures Valid(files, c, hash, size) <==> IsGood(files, c, hash, size)
  {
    hide ManifestIsGood, ManifestOk, ConfigIsGood, ConfigFileOk, EndsWith, IsObject;
    TrackedAre(c);
    assert c.Required()[0] == c.manifest && c.Required()[2] == c.config;
    assert forall p | p in c.Required() :: FileOk(files, p, size) <==>
      && p in files
      && (EndsWith(p, ".json") ==> !files[p].Raw?)
      && (EndsWith(p, ".png") && !EndsWith(p, ".json") ==> size(files[p]) > 0);
    if forall p | p in c.Required() :: p in files {
      ManifestInWords(files, c, hash, size);
      ConfigInWords(files[c.config], c);
    }
  }

  datatype Report = Report(valid: bool, errors: nat) | Raised

  /** A missing file, JSON that does not parse, or an empty screenshot. */
  method CheckFile(files: Files, p: Path, size: Content -> nat) returns (errors: nat)
    ensures errors == 0 <==> FileOk(files, p, size)
  {
    errors := 0;
    if p !in files {
      return 1;
    }
    if EndsWith(p, ".json") {
      if !IsJson(files[p]) { errors := 1; }
    } else if EndsWith(p, ".png") && size(files[p]) <= 0 {
      errors := 1;
    }
  }

  method CheckFiles(files: Files, c: Contract, size: Content -> nat) returns (errors: nat)
    ensures errors == 0 <==> FilesOk(files, c, size)
  {
    errors := 0;
    var required := c.Required();
    for k := 0 to |required|
      invariant errors == 0 <==> forall p | p in required[..k] :: FileOk(files, p, size)
    {
      assert required[..k + 1] == required[..k] + [required[k]];
      var more := CheckFile(files, required[k], size);
      errors := errors + more;
    }
    assert required[..|required|] == required;
  }

  method CheckManifest(doc: ManifestDoc, files: Files, c: Contract, hash: Content -> int, size: Content -> nat)
    returns (errors: nat)
    ensures errors == 0 <==> ManifestOk(doc, files, c, hash, size)
  {
    errors := 0;
    for k := 0 to |c.manifestFields|
      invariant errors == 0 <==> forall f | f in c.manifestFields[..k] :: f in doc.keys
    {
      assert c.manifestFields[..k + 1] == c.manifestFields[..k] + [c.manifestFields[k]];
      if c.manifestFields[k] !in doc.keys { errors := errors + 1; }
    }
    assert c.manifestFields[..|c.manifestFields|] == c.manifestFields;
    if doc.status != "capture-complete" { errors := errors + 1; }
    if !doc.contextIsObject { errors := errors + 1; }
    if doc.files.None? { errors := errors + 1; }
    var metadata := if doc.files.Some? then doc.files.value else map[];
    var more := CheckMetadata(metadata, files, c.Tracked(), hash, size);
    errors := errors + more;
  }

  method CheckMetadataOf(m: map<Path, Metadata>, files: Files, p: Path, hash: Content -> int, size: Content -> nat)
    returns (errors: nat)
    ensures errors == 0 <==> MetadataOk(m, files, p, hash, size)
  {
    errors := 0;
    if p !in m {
      return 1;
    }
    if m[p].path != p { errors := errors + 1; }
    if p !in files {
      return;
    }
    if m[p].sha != hash(files[p]) { errors := errors + 1; }
    if m[p].size != size(files[p]) { errors := errors + 1; }
  }

  method CheckMetadata(m: map<Path, Metadata>, files: Files, tracked: seq<Path>, hash: Content -> int,
                       size: Content -> nat)
    returns (errors: nat)
    ensures errors == 0 <==> forall p | p in tracked :: MetadataOk(m, files, p, hash, size)
  {
    errors := 0;
    for k := 0 to |tracked|
      invariant errors == 0 <==> forall p | p in tracked[..k] :: MetadataOk(m, files, p, hash, size)
    {
      assert tracked[..k + 1] == tracked[..k] + [tracked[k]];
      var more := CheckMetadataOf(m, files, tracked[k], hash, size);
      errors := errors + more;
    }
    assert tracked[..|tracked|] == tracked;
  }

  method CheckCritical(fields: Fields, c: Contract) returns (errors: nat)
    ensures errors == 0 <==> forall f | f in c.criticalFields :: f in fields && FieldOk(fields[f])
  {
    errors := 0;
    for k := 0 to |c.criticalFields|
      invariant errors == 0 <==> forall f | f in c.criticalFields[..k] :: f in fields && FieldOk(fields[f])
    {
      var f := c.criticalFields[k];
      assert c.criticalFields[..k + 1] == c.criticalFields[..k] + [f];
      if f !in fields || !fields[f].Keyed? {
        errors := errors + 1;
        continue;
      }
      if "present" !in fields[f].entries { errors := errors + 1; }
      if "source" !in fields[f].entries { errors := errors + 1; }
      if "sha256" !in fields[f].entries { errors := errors + 1; }
    }
    assert c.criticalFields[..|c.criticalFields|] == c.criticalFields;
  }

  method CheckSecrets(fields: Fields, c: Contract) returns (raised: bool, exposed: nat)
    ensures raised <==> !CanLookUp(Some(fields), c)
    ensures !raised ==> (exposed == 0 <==> forall s | s in c.secretFields && s in fields :: !Exposes(fields[s]))
  {
    exposed := 0;
    for k := 0 to |c.secretFields|
      invariant forall s | s in c.secretFields[..k] && s in fields :: !fields[s].Scalar?
      invariant exposed == 0 <==> forall s | s in c.secretFields[..k] && s in fields :: !Exposes(fields[s])
    {
      var s := c.secretFields[k];
      assert c.secretFields[..k + 1] == c.secretFields[..k] + [s];
      if s in fields {
        if fields[s].Scalar? {
          return true, exposed;
        }
        if Exposes(fields[s]) { exposed := exposed + 1; }
      }
    }
    assert c.secretFields[..|c.secretFields|] == c.secretFields;
    raised := false;
  }

  method CheckConfig(content: Content, c: Contract) returns (raised: bool, errors: nat)
    ensures raised <==> !IsReadable(content, c)
    ensures !raised ==> (errors == 0 <==> ConfigFileOk(content, c))
  {
    raised, errors := true, 0;
    if !IsObject(content) {
      return;
    }
    var fields := FieldsIn(content);
    if fields.None? {
      raised := c.criticalFields != [] || c.secretFields != [];
      return;
    }
    errors := CheckCritical(fields.value, c);
    var exposed;
    raised, exposed := CheckSecrets(fields.value, c);
    errors := errors + exposed;
  }

  /** A report that is right about the files. */
  ghost predicate Judges(r: Report, files: Files, c: Contract, hash: Content -> int, size: Content -> nat)
  {
    && (r.Report? && r.valid <==> Valid(files, c, hash, size))
    && (r.Report? ==> (r.valid <==> r.errors == 0))
    && (r == Raised <==> c.config in files && !IsReadable(files[c.config], c))
  }

  /** Reports validity exactly for valid baselines; a configuration that cannot be read raises. */
  method ValidateGoldenBaseline(files: Files, c: Contract, hash: Content -> int, size: Content -> nat)
    returns (r: Report)
    ensures Judges(r, files, c, hash, size)
  {
    var errors := CheckFiles(files, c, size);
    if c.manifest in files {
      if !IsJson(files[c.manifest]) {
        errors := errors + 1;
      } else if IsObject(files[c.manifest]) {
        var more := CheckManifest(ManifestIn(files[c.manifest]), files, c, hash, size);
        errors := errors + more;
      }
    }
    if c.config in files {
      var raised, more := CheckConfig(files[c.config], c);
      if raised {
        return Raised;
      }
      errors := errors + more;
    }
    if !(c.manifest in files && IsObject(files[c.manifest])) && errors == 0 {
      assert c.manifest in c.Required();
    }
    r := Report(errors == 0, errors);
  }

  // ---- Capture, then validate ----------------------------------------------------------

  /** What the sources answer: the payload files by path, the runtime configuration, and the screenshots. */
  datatype Live = Live(
    payloads: map<Path, Content>, runtimeConfig: map<string, string>, screenshots: map<Path, Content>)

  /** Capture writes what the contract requires: JSON payloads, a configuration, nonempty screenshots, and a manifest
      that is neither of them. */
  ghost predicate Matching(c: Contract, live: Live, size: Content -> nat)
  {
    && (forall p | p in c.Tracked() :: p in live.payloads || p == c.config || p in live.screenshots)
    && (forall p | p in live.payloads :: IsObject(live.payloads[p]))
    && (forall p | p in live.screenshots ::
          EndsWith(p, ".png") && !EndsWith(p, ".json") && size(live.screenshots[p]) > 0)
    && (forall p | p in live.payloads :: !EndsWith(p, ".png"))
    && c.config !in live.payloads && c.config !in live.screenshots && !EndsWith(c.config, ".png")
    && c.manifest !in c.Tracked() && !EndsWith(c.manifest, ".png")
    && (forall k | k in c.manifestFields :: k in MANIFEST_KEYS)
  }

  /** What the paths of a contract show by their endings. */
  ghost predicate WellNamed(c: Contract)
  {
    && (forall p | p in Payloads(c) :: EndsIn(p, 'n') && p != c.config)
    && (forall p | p in c.uiEvidence :: EndsIn(p, 'g') && EndsWith(p, ".png"))
    && EndsIn(c.config, 'n') && EndsIn(c.manifest, 'n')
    && c.manifest != c.config && c.manifest !in Payloads(c)
    && (forall k | k in c.manifestFields :: k in MANIFEST_KEYS)
  }

  ghost function Payloads(c: Contract): set<Path> { {c.ldapTree} + set p | p in c.apiCaptures }

  /** A contract with telling file names is matched by captures of its payloads and nonempty screenshots. */
  lemma NamedContractIsMatched(c: Contract, live: Live, size: Content -> nat)
    requires WellNamed(c) && live.payloads.Keys == Payloads(c) && live.screenshots.Keys == set p | p in c.uiEvidence
    requires forall p | p in live.payloads :: IsObject(live.payloads[p])
    requires forall p | p in live.screenshots :: size(live.screenshots[p]) > 0
    ensures Matching(c, live, size)
  {
    hide EndsWith;
    TrackedAre(c);
    SuffixLetter(c.config);
    SuffixLetter(c.manifest);
    forall p ensures EndsWith(p, ".png") ==> EndsIn(p, 'g') { SuffixLetter(p); }
    forall p ensures EndsWith(p, ".json") ==> EndsIn(p, 'n') { SuffixLetter(p); }
  }

  lemma PngIsPng(stem: string)
    ensures EndsWith(stem + ".png", ".png") && EndsIn(stem + ".png", 'g')
  {
  }

  lemma JsonIsJson(stem: string)
    ensures EndsIn(stem + ".json", 'n')
  {
  }

  lemma ManifestFieldsAreKeys()
    ensures forall k | k in REGISTRY.manifestFields :: k in MANIFEST_KEYS
  {
  }

  lemma ScreenshotsAreNamed()
    ensures forall p | p in REGISTRY.uiEvidence :: EndsIn(p, 'g') && EndsWith(p, ".png")
  {
    PngIsPng("ui-evidence/dashboard");
    PngIsPng("ui-evidence/computer-management");
    assert REGISTRY.uiEvidence[0] == "ui-evidence/dashboard" + ".png";
    assert REGISTRY.uiEvidence[1] == "ui-evidence/computer-management" + ".png";
  }

  lemma PayloadsAreNamed(p: Path)
    requires p in Payloads(REGISTRY)
    ensures EndsIn(p, 'n') && p[0] in "la"
  {
    JsonIsJson("ldap-tree");
    JsonIsJson("api-captures/dashboard");
    JsonIsJson("api-captures/agent-list");
    JsonIsJson("api-captures/computer-tree");
    if p == REGISTRY.ldapTree {
      assert p == "ldap-tree" + ".json" && p[0] == "la"[0];
    } else {
      assert p[0] == "la"[1];
    }
  }

  /** The repository's own contract is such a one. */
  lemma RegistryIsWellNamed()
    ensures WellNamed(REGISTRY)
  {
    hide EndsWith;
    ManifestFieldsAreKeys();
    ScreenshotsAreNamed();
    assert REGISTRY.config[0] == 'c' && REGISTRY.manifest[0] == 'm' && "la"[0] == 'l' && "la"[1] == 'a';
    assert REGISTRY.config == "config" + ".json" && REGISTRY.manifest == "manifest" + ".json";
    JsonIsJson("config");
    JsonIsJson("manifest");
    forall p | p in Payloads(REGISTRY) ensures EndsIn(p, 'n') && p != REGISTRY.config && p != REGISTRY.manifest {
      PayloadsAreNamed(p);
    }
  }

  ghost predicate EndsIn(p: Path, c: char) { p != "" && p[|p| - 1] == c }

  lemma SuffixLetter(p: Path)
    ensures EndsWith(p, ".png") ==> EndsIn(p, 'g')
    ensures EndsWith(p, ".json") ==> EndsIn(p, 'n')
  {
    if EndsWith(p, ".png") { assert p[|p| - 4..][3] == ".png"[3]; }
    if EndsWith(p, ".json") { assert p[|p| - 5..][4] == ".json"[4]; }
  }

  function Written(before: Files, live: Live, c: Contract, fields: map<string, Field>): Files
  {
    before + live.payloads + map[c.config := ConfigOf(fields)] + live.screenshots
  }

  /** Every tracked path was there before or is written by the capture. */
  predicate AllWritten(before: Files, live: Live, c: Contract)
  {
    forall p | p in c.Tracked() :: p in before || p in live.payloads || p == c.config || p in live.screenshots
  }

  datatype CaptureResult = Refused | Failed | Captured(report: Report)

  predicate IsComplete(files: Files, c: Contract)
  {
    c.manifest in files && ManifestIn(files[c.manifest]).status == "capture-complete"
  }

  /** A manifest that is JSON but no object raises when it is asked for its status. */
  predicate IsUnreadable(files: Files, c: Contract)
  {
    c.manifest in files && IsJson(files[c.manifest]) && !IsObject(files[c.manifest])
  }

  /** A complete manifest, or JSON that is no object. */
  ghost predicate HoldsBack(manifest: Content)
  {
    match manifest
    case ManifestFile(doc) => doc.status == "capture-complete"
    case OtherJson(isObject, _, _) => !isObject
    case _ => false
  }

  class Baseline {
    var files: Files

    constructor (files: Files)
      ensures this.files == files
    {
      this.files := files;
    }

    /** Writes the payloads, the configuration and the screenshots. */
    method WriteCaptures(live: Live, c: Contract, hashText: Option<string> -> int)
      modifies this
      ensures files == Written(old(files), live, c, CapturedFields(live.runtimeConfig, c, hashText))
    {
      var fields := CaptureRuntimeConfig(live.runtimeConfig, c, hashText);
      files := files + live.payloads + map[c.config := ConfigOf(fields)];
      files := files + live.screenshots;
    }

    /** Writes the manifest of the tracked files and validates; a missing one raises. */
    method Seal(c: Contract, hash: Content -> int, size: Content -> nat) returns (r: CaptureResult)
      modifies this
      ensures files == IfComplete(old(files), c, hash, size)
      ensures r != Refused && (r == Failed <==> exists p :: p in c.Tracked() && p !in old(files))
      ensures r.Captured? ==> Judges(r.report, files, c, hash, size)
    {
      var metadata := CollectFileMetadata(files, c.Tracked(), hash, size);
      if metadata.None? {
        return Failed;
      }
      files := files[c.manifest := ManifestFor(metadata.value)];
      var report := ValidateGoldenBaseline(files, c, hash, size);
      r := Captured(report);
    }

    /** Writes the baseline and validates it; raises before writing anything without confirmation, or if the manifest
        that is there is complete or unreadable. */
    method Capture(live: Live, c: Contract, confirmed: bool, force: bool, hashText: Option<string> -> int,
                   hash: Content -> int, size: Content -> nat)
      returns (r: CaptureResult)
      modifies this
      ensures r == Refused ==> files == old(files)
      ensures r == Refused <==>
        !confirmed || (!force && c.manifest in old(files) && HoldsBack(old(files)[c.manifest]))
      ensures r != Refused ==> files == Baselined(old(files), live, c, hashText, hash, size)
      ensures r == Failed <==> r != Refused && !AllWritten(old(files), live, c)
      ensures r.Captured? ==> Judges(r.report, files, c, hash, size)
      ensures r != Refused && Matching(c, live, size) ==> r == Captured(Report(true, 0))
    {
      hide Matching, Valid;
      if !confirmed {
        return Refused;
      }
      if c.manifest in files && !force {
        if IsComplete(files, c) || IsUnreadable(files, c) {
          return Refused;
        }
      }
      WriteCaptures(live, c, hashText);
      MatchingIsCaptured(old(files), live, c, hashText, hash, size);
      r := Seal(c, hash, size);
    }
  }

  lemma TrackedAre(c: Contract)
    ensures c.Tracked() == [c.ldapTree, c.config] + c.apiCaptures + c.uiEvidence
    ensures c.Required() == [c.manifest] + c.Tracked() && c.config in c.Tracked()
  {
    assert c.Tracked()[1] == c.config;
  }

  lemma TrackedIsWritten(before: Files, live: Live, c: Contract, fields: map<string, Field>, size: Content -> nat,
                         p: Path)
    requires Matching(c, live, size) && p in c.Tracked()
    ensures p in Written(before, live, c, fields) && FileOk(Written(before, live, c, fields), p, size)
  {
    var files := Written(before, live, c, fields);
    if p in live.screenshots {
      assert files[p] == live.screenshots[p];
    } else if p == c.config {
      assert files[p] == ConfigOf(fields);
    } else {
      assert files[p] == live.payloads[p];
    }
  }

  lemma TrackedAreWritten(before: Files, live: Live, c: Contract, fields: map<string, Field>, size: Content -> nat)
    requires Matching(c, live, size)
    ensures forall p | p in c.Tracked() ::
      p in Written(before, live, c, fields) && FileOk(Written(before, live, c, fields), p, size)
    ensures c.config in Written(before, live, c, fields) &&
      Written(before, live, c, fields)[c.config] == ConfigOf(fields)
  {
    forall p | p in c.Tracked()
      ensures p in Written(before, live, c, fields) && FileOk(Written(before, live, c, fields), p, size)
    {
      TrackedIsWritten(before, live, c, fields, size, p);
    }
  }

  /** The files with a manifest of the tracked ones. */
  function Sealed(written: Files, c: Contract, hash: Content -> int, size: Content -> nat): Files
    requires forall p | p in c.Tracked() :: p in written
  {
    written[c.manifest := ManifestFor(FileMetadata(written, c.Tracked(), hash, size))]
  }

  /** Files fit to be sealed. */
  ghost predicate Sealable(written: Files, c: Contract, fields: map<string, Field>, size: Content -> nat)
  {
    && (forall p | p in c.Tracked() :: p in written && FileOk(written, p, size))
    && c.manifest !in c.Tracked() && !EndsWith(c.manifest, ".png")
    && (forall k | k in c.manifestFields :: k in MANIFEST_KEYS)
    && c.config in written && written[c.config] == ConfigOf(fields) && ConfigFileOk(ConfigOf(fields), c)
  }

  lemma SealedManifestIsOk(written: Files, c: Contract, fields: map<string, Field>, hash: Content -> int,
                           size: Content -> nat)
    requires Sealable(written, c, fields, size)
    ensures var files := Sealed(written, c, hash, size);
      ManifestOk(ManifestIn(files[c.manifest]), files, c, hash, size)
  {
    var files := Sealed(written, c, hash, size);
    var m := FileMetadata(written, c.Tracked(), hash, size);
    forall p | p in c.Tracked() ensures MetadataOk(m, files, p, hash, size) {
      assert m[p] == Metadata(p, size(written[p]), hash(written[p]));
    }
  }

  lemma SealedIsValid(written: Files, c: Contract, fields: map<string, Field>, hash: Content -> int,
                      size: Content -> nat)
    requires Sealable(written, c, fields, size)
    ensures Valid(Sealed(written, c, hash, size), c, hash, size)
  {
    var files := Sealed(written, c, hash, size);
    TrackedAre(c);
    SealedManifestIsOk(written, c, fields, hash, size);
    forall p | p in c.Required() ensures FileOk(files, p, size) {
      if p != c.manifest { assert p in c.Tracked(); }
    }
    assert files[c.config] == ConfigOf(fields);
  }

  /** The files after sealing: unchanged if a tracked one is missing. */
  function IfComplete(files: Files, c: Contract, hash: Content -> int, size: Content -> nat): Files
  {
    if forall p | p in c.Tracked() :: p in files then Sealed(files, c, hash, size) else files
  }

  /** The files after a capture. */
  function Baselined(before: Files, live: Live, c: Contract, hashText: Option<string> -> int,
                     hash: Content -> int, size: Content -> nat): Files
  {
    IfComplete(Written(before, live, c, CapturedFields(live.runtimeConfig, c, hashText)), c, hash, size)
  }

  /** The screenshots, the configuration and the payloads are written over what was there. */
  ghost predicate IsWritten(files: Files, p: Path, before: Files, live: Live, c: Contract, fields: map<string, Field>)
  {
    && (p in files <==> p in before || p in live.payloads || p in live.screenshots || p == c.config)
    && (p in files ==>
          files[p] ==
            if p in live.screenshots then live.screenshots[p]
            else if p == c.config then ConfigOf(fields)
            else if p in live.payloads then live.payloads[p]
            else before[p])
  }

  lemma WrittenInWords(before: Files, live: Live, c: Contract, fields: map<string, Field>, p: Path)
    ensures IsWritten(Written(before, live, c, fields), p, before, live, c, fields)
  {
    hide ConfigOf;
  }

  /** After a capture the manifest describes every tracked file as it is, and every other file is as the sources
      answered, or as before. */
  lemma BaselinedInWords(before: Files, live: Live, c: Contract, hashText: Option<string> -> int,
                         hash: Content -> int, size: Content -> nat, p: Path)
    requires AllWritten(before, live, c) && c.manifest !in [c.ldapTree, c.config] + c.apiCaptures + c.uiEvidence
    ensures var files, fields :=
        Baselined(before, live, c, hashText, hash, size), CapturedFields(live.runtimeConfig, c, hashText);
      && c.manifest in files
      && ManifestIsGood(files[c.manifest], files, c.(manifestFields := []), hash, size)
      && (p != c.manifest ==> IsWritten(files, p, before, live, c, fields))
  {
    hide CapturedFields, ManifestIsGood, ManifestFor, FileMetadata, Written, ConfigOf;
    TrackedAre(c);
    var fields := CapturedFields(live.runtimeConfig, c, hashText);
    var written := Written(before, live, c, fields);
    forall q | q in c.Tracked() ensures q in written { WrittenInWords(before, live, c, fields, q); }
    SealedManifestIsGood(written, c, hash, size);
    WrittenInWords(before, live, c, fields, p);
  }

  lemma SealedManifestIsGood(written: Files, c: Contract, hash: Content -> int, size: Content -> nat)
    requires (forall p | p in c.Tracked() :: p in written) && c.manifest !in c.Tracked()
    ensures var files := Sealed(written, c, hash, size);
      ManifestIsGood(files[c.manifest], files, c.(manifestFields := []), hash, size)
  {
    TrackedAre(c);
    var files := Sealed(written, c, hash, size);
    var m := FileMetadata(written, c.Tracked(), hash, size);
    assert files[c.manifest] == ManifestFile(ManifestDoc(MANIFEST_KEYS, "capture-complete", true, Some(m)));
  }

  lemma CapturedIsSealable(before: Files, live: Live, c: Contract, hashText: Option<string> -> int,
                           size: Content -> nat)
    requires Matching(c, live, size)
    ensures var fields := CapturedFields(live.runtimeConfig, c, hashText);
      Sealable(Written(before, live, c, fields), c, fields, size)
  {
    TrackedAreWritten(before, live, c, CapturedFields(live.runtimeConfig, c, hashText), size);
    CapturedConfigIsOk(live.runtimeConfig, c, hashText);
  }

  /** The baseline that capture writes validates without errors. */
  lemma CapturedBaselineIsValid(before: Files, live: Live, c: Contract, hashText: Option<string> -> int,
                                hash: Content -> int, size: Content -> nat)
    requires Matching(c, live, size)
    ensures Valid(Baselined(before, live, c, hashText, hash, size), c, hash, size)
  {
    var fields := CapturedFields(live.runtimeConfig, c, hashText);
    CapturedIsSealable(before, live, c, hashText, size);
    SealedIsValid(Written(before, live, c, fields), c, fields, hash, size);
  }

  lemma MatchingIsCaptured(before: Files, live: Live, c: Contract, hashText: Option<string> -> int,
                           hash: Content -> int, size: Content -> nat)
    ensures Matching(c, live, size) ==>
      && AllWritten(before, live, c)
      && Valid(Baselined(before, live, c, hashText, hash, size), c, hash, size)
  {
    if Matching(c, live, size) {
      CapturedBaselineIsValid(before, live, c, hashText, hash, size);
    }
  }

  lemma CapturedConfigIsOk(payload: map<string, string>, c: Contract, hashText: Option<string> -> int)
    ensures ConfigFileOk(ConfigOf(CapturedFields(payload, c, hashText)), c)
  {
    forall f ensures var e := FieldOf(f, Lookup(payload, f), f in c.secretFields, hashText);
      "present" in e && "source" in e && "sha256" in e && (f in c.secretFields ==> "value" !in e)
    {
      ValueIsKept(f, Lookup(payload, f), f in c.secretFields, hashText);
    }
  }

  ghost predicate CollisionFree(hash: Content -> int) { forall x, y :: hash(x) == hash(y) ==> x == y }

  /** The tracked files are there with the same content. */
  ghost predicate SameTracked(later: Files, captured: Files, c: Contract)
  {
    forall p | p in c.Tracked() :: p in later && p in captured && later[p] == captured[p]
  }

  lemma UntouchedIsValid(captured: Files, later: Files, c: Contract, hash: Content -> int, size: Content -> nat)
    requires Valid(captured, c, hash, size) && SameTracked(later, captured, c)
    requires c.manifest in later && c.manifest in captured && later[c.manifest] == captured[c.manifest]
    ensures Valid(later, c, hash, size)
  {
    TrackedAre(c);
    forall p | p in c.Required() ensures FileOk(later, p, size) { assert FileOk(captured, p, size); }
    var doc := ManifestIn(captured[c.manifest]);
    if IsObject(captured[c.manifest]) {
      forall p | p in c.Tracked() ensures MetadataOk(doc.files.value, later, p, hash, size) {
        assert MetadataOk(doc.files.value, captured, p, hash, size);
      }
    }
  }

  lemma ValidIsUntouched(written: Files, later: Files, c: Contract, fields: map<string, Field>, hash: Content -> int,
                         size: Content -> nat)
    requires Sealable(written, c, fields, size) && CollisionFree(hash)
    requires c.manifest in later && later[c.manifest] == Sealed(written, c, hash, size)[c.manifest]
    requires Valid(later, c, hash, size)
    ensures SameTracked(later, Sealed(written, c, hash, size), c)
  {
    TrackedAre(c);
    var m := FileMetadata(written, c.Tracked(), hash, size);
    assert later[c.manifest] == ManifestFor(m);
    forall p | p in c.Tracked()
      ensures p in later && p in Sealed(written, c, hash, size) && later[p] == Sealed(written, c, hash, size)[p]
    {
      assert p in c.Required() && FileOk(later, p, size) && MetadataOk(m, later, p, hash, size);
      assert hash(later[p]) == hash(written[p]);
    }
  }

  /** While the manifest is untouched, later validation succeeds exactly when every tracked file still has its captured
      bytes. */
  lemma LaterValidationComparesTheBytes(before: Files, live: Live, c: Contract, hashText: Option<string> -> int,
                                        hash: Content -> int, size: Content -> nat, later: Files)
    requires Matching(c, live, size) && CollisionFree(hash)
    requires var captured := Baselined(before, live, c, hashText, hash, size);
      c.manifest in later && c.manifest in captured && later[c.manifest] == captured[c.manifest]
    ensures Valid(later, c, hash, size) <==> SameTracked(later, Baselined(before, live, c, hashText, hash, size), c)
  {
    var fields := CapturedFields(live.runtimeConfig, c, hashText);
    var written, captured := Written(before, live, c, fields), Baselined(before, live, c, hashText, hash, size);
    CapturedIsSealable(before, live, c, hashText, size);
    CapturedBaselineIsValid(before, live, c, hashText, hash, size);
    assert captured == Sealed(written, c, hash, size);
    if Valid(later, c, hash, size) {
      ValidIsUntouched(written, later, c, fields, hash, size);
    } else if SameTracked(later, captured, c) {
      UntouchedIsValid(captured, later, c, hash, size);
    }
  }

  // ---- What the manifest pins ----------------------------------------------------------

  /** The file could be in a valid baseline: JSON or no empty screenshot, and as a configuration in order. */
  ghost predicate Presentable(p: Path, content: Content, c: Contract, size: Content -> nat)
  {
    FileOk(map[p := content], p, size) && (p == c.config ==> ConfigFileOk(content, c))
  }

  /** In a valid baseline another presentable content of a tracked file is accepted exactly if the manifest is no
      object, for then it is not looked into. */
  lemma BytesAreComparedIff(files: Files, p: Path, content: Content, c: Contract, hash: Content -> int,
                            size: Content -> nat)
    requires Valid(files, c, hash, size) && CollisionFree(hash)
    requires p in c.Tracked() && p != c.manifest && Presentable(p, content, c, size)
    ensures Valid(files[p := content], c, hash, size) <==>
      (p in files && content == files[p]) || (c.manifest in files && !IsObject(files[c.manifest]))
  {
    hide ConfigFileOk, EndsWith;
    TrackedAre(c);
    var other := files[p := content];
    assert p in c.Required() && c.manifest in c.Required() && FileOk(files, p, size) && FileOk(files, c.manifest, size);
    forall q | q in c.Required() ensures FileOk(other, q, size) { assert FileOk(files, q, size); }
    assert other[c.manifest] == files[c.manifest];
    if IsObject(files[c.manifest]) {
      var m := ManifestIn(files[c.manifest]).files.value;
      assert MetadataOk(m, files, p, hash, size);
      if Valid(other, c, hash, size) { assert MetadataOk(m, other, p, hash, size); }
      if content == files[p] { assert other == files; }
    }
  }

  /** A manifest that is an object pins the tracked files: at most one content of each is valid with it. */
  lemma ObjectManifestPins(files: Files, other: Files, c: Contract, hash: Content -> int, size: Content -> nat)
    requires Valid(files, c, hash, size) && Valid(other, c, hash, size) && CollisionFree(hash)
    requires c.manifest in files && c.manifest in other && files[c.manifest] == other[c.manifest]
    requires IsObject(files[c.manifest])
    ensures SameTracked(other, files, c)
  {
    hide ConfigFileOk, EndsWith;
    TrackedAre(c);
    var m := ManifestIn(files[c.manifest]).files.value;
    forall p | p in c.Tracked() ensures p in files && p in other && other[p] == files[p] {
      assert p in c.Required() && FileOk(files, p, size) && FileOk(other, p, size);
      assert MetadataOk(m, files, p, hash, size) && MetadataOk(m, other, p, hash, size);
    }
  }

  /** A valid baseline stays valid when its manifest becomes an array; then nothing is pinned any more. */
  lemma ArrayForAManifest(files: Files, c: Contract, hash: Content -> int, size: Content -> nat, tag: int)
    requires Valid(files, c, hash, size) && c.manifest !in c.Tracked() && !EndsWith(c.manifest, ".png")
    ensures Valid(files[c.manifest := OtherJson(false, {}, tag)], c, hash, size)
  {
    hide ConfigFileOk;
    TrackedAre(c);
    var other := files[c.manifest := OtherJson(false, {}, tag)];
    forall q | q in c.Required() ensures FileOk(other, q, size) { assert FileOk(files, q, size); }
  }

  // ---- Which texts are written ---------------------------------------------------------

  ghost predicate ListsPath(m: map<Path, Metadata>, path: Path) { exists p :: p in m && m[p].path == path }

  /** The texts in a file, as values; the capture context of a manifest is not among them. */
  ghost predicate Shows(content: Content, text: string)
  {
    match content
    case ManifestFile(doc) => text == doc.status || (doc.files.Some? && ListsPath(doc.files.value, text))
    case ConfigFile(fields) => fields.Some? && exists f :: f in fields.value && FieldShows(fields.value[f], text)
    case OtherJson(_, texts, _) => text in texts
    case Raw(_) => false
  }

  ghost predicate FieldShows(s: Shape, text: string)
  {
    match s
    case Keyed(entries) => exists k :: k in entries && entries[k] == Words(text)
    case Quoted(t) => t == text
    case Listed(items) => Words(text) in items
    case Scalar => false
  }

  /** The paths a capture writes. */
  ghost function WrittenPaths(live: Live, c: Contract): set<Path>
  {
    live.payloads.Keys + live.screenshots.Keys + {c.config, c.manifest}
  }

  /** No text of the baseline's own. */
  ghost predicate IsForeign(text: string, c: Contract)
  {
    text != SOURCE && text != "capture-complete" && text !in c.Tracked()
  }

  lemma CapturedFieldShows(payload: map<string, string>, f: string, secret: bool, hashText: Option<string> -> int,
                           text: string)
    requires text != SOURCE
    ensures FieldShows(Keyed(FieldOf(f, Lookup(payload, f), secret, hashText)), text) <==>
      !secret && Lookup(payload, f) == Some(text)
  {
    var e := FieldOf(f, Lookup(payload, f), secret, hashText);
    ValueIsKept(f, Lookup(payload, f), secret, hashText);
    if !secret && Lookup(payload, f) == Some(text) { assert e["value"] == Words(text); }
  }

  lemma CapturedConfigShows(payload: map<string, string>, c: Contract, hashText: Option<string> -> int, text: string)
    requires IsForeign(text, c)
    ensures Shows(ConfigOf(CapturedFields(payload, c, hashText)), text) <==>
      exists f :: f in c.criticalFields && f !in c.secretFields && Lookup(payload, f) == Some(text)
  {
    hide FieldShows, FieldOf;
    var fields := CapturedFields(payload, c, hashText);
    forall f ensures FieldShows(Keyed(FieldOf(f, Lookup(payload, f), f in c.secretFields, hashText)), text) <==>
      f !in c.secretFields && Lookup(payload, f) == Some(text)
    {
      CapturedFieldShows(payload, f, f in c.secretFields, hashText, text);
    }
    if f :| f in c.criticalFields && f !in c.secretFields && Lookup(payload, f) == Some(text) {
      var shown := ConfigOf(fields).fields.value;
      assert f in fields && f in shown && FieldShows(shown[f], text);
    }
  }

  /** After a capture a text, say of a secret, stands in a written file exactly if a source shows it, or a field that is
      no secret has it for a value. */
  lemma TextIsWrittenIff(before: Files, live: Live, c: Contract, hashText: Option<string> -> int,
                         hash: Content -> int, size: Content -> nat, text: string)
    requires Matching(c, live, size) && c.manifest !in live.payloads && c.manifest !in live.screenshots
    requires IsForeign(text, c)
    ensures var files := Baselined(before, live, c, hashText, hash, size);
      (exists p :: p in WrittenPaths(live, c) && p in files && Shows(files[p], text)) <==>
        || (exists p :: p in live.payloads && Shows(live.payloads[p], text))
        || (exists p :: p in live.screenshots && Shows(live.screenshots[p], text))
        || (exists f :: f in c.criticalFields && f !in c.secretFields && Lookup(live.runtimeConfig, f) == Some(text))
  {
    hide Matching, Baselined, Shows, ConfigOf, CapturedFields, Lookup, IsForeign;
    CapturedConfigShows(live.runtimeConfig, c, hashText, text);
    WrittenFiles(before, live, c, hashText, hash, size, text);
  }

  lemma WrittenFiles(before: Files, live: Live, c: Contract, hashText: Option<string> -> int,
                     hash: Content -> int, size: Content -> nat, text: string)
    requires Matching(c, live, size) && c.manifest !in live.payloads && c.manifest !in live.screenshots
    requires IsForeign(text, c)
    ensures var files := Baselined(before, live, c, hashText, hash, size);
      && (forall p | p in live.payloads :: p in files && files[p] == live.payloads[p])
      && (forall p | p in live.screenshots :: p in files && files[p] == live.screenshots[p])
      && c.config in files && files[c.config] == ConfigOf(CapturedFields(live.runtimeConfig, c, hashText))
      && c.manifest in files && !Shows(files[c.manifest], text)
  {
    hide Shows, EndsWith, ConfigOf, CapturedFields;
    CapturedIsSealable(before, live, c, hashText, size);
    PathsDiffer(live, c, size);
    var written := Written(before, live, c, CapturedFields(live.runtimeConfig, c, hashText));
    ManifestShowsNothing(written, c, hash, size, text);
  }

  lemma PathsDiffer(live: Live, c: Contract, size: Content -> nat)
    requires Matching(c, live, size)
    ensures live.payloads.Keys !! live.screenshots.Keys && c.manifest != c.config
  {
    TrackedAre(c);
  }

  lemma ManifestShowsNothing(written: Files, c: Contract, hash: Content -> int, size: Content -> nat, text: string)
    requires (forall p | p in c.Tracked() :: p in written) && IsForeign(text, c)
    ensures !Shows(Sealed(written, c, hash, size)[c.manifest], text)
  {
  }
}
