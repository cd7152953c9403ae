/** The six registration inventories, the verdict on them, and what a verdict means. */
module Registration {
  import opened Text

  // ---- Identities ----------------------------------------------------------------------

  /** An agent id from a uid, a JID, a distinguished name or a host name. */
  function NormalizeAgentId(value: Option<string>): Option<string>
  {
    if value.None? then None else
    var text := Trim(value.value);
    if text == "" then None else
    var user := Before(Before(text, '@'), '/');
    var head := Before(user, ',');
    var name := if ',' in user && '=' in head then After(head, '=') else user;
    Some(WithoutHost(name))
  }

  function WithoutHost(text: string): string
  {
    if EndsWith(text, "-host") then text[..|text| - 5] else text
  }

  /** The first field that yields a nonempty id, as every `_identity_from_...` helper takes it. */
  function FirstIdentity(fields: seq<Option<string>>): (id: Option<string>)
    ensures id.Some? <==> exists f :: f in fields && NamesAgent(f)
    ensures id.Some? ==> id.value != ""
  {
    if fields == [] then None
    else if NamesAgent(fields[0]) then NormalizeAgentId(fields[0])
    else FirstIdentity(fields[1..])
  }

  /** The id is that of the first field that names an agent. */
  lemma {:induction false} FirstIdentityIsTheFirst(fields: seq<Option<string>>)
    ensures FirstIdentity(fields).Some? ==>
      exists k :: 0 <= k < |fields| && IsFirstName(fields, k) && FirstIdentity(fields) == NormalizeAgentId(fields[k])
    ensures FirstIdentity(fields).None? ==> forall f | f in fields :: !NamesAgent(f)
  {
    hide NormalizeAgentId, NamesAgent;
    if fields != [] && !NamesAgent(fields[0]) {
      FirstIdentityIsTheFirst(fields[1..]);
      if FirstIdentity(fields).Some? {
        var k :| 0 <= k < |fields| - 1 && IsFirstName(fields[1..], k) &&
          FirstIdentity(fields[1..]) == NormalizeAgentId(fields[1..][k]);
        assert fields[k + 1] == fields[1..][k];
        forall j | 0 <= j < k + 1 ensures !NamesAgent(fields[j]) {
          if j > 0 { assert fields[j] == fields[1..][j - 1]; }
        }
        assert IsFirstName(fields, k + 1);
      }
    } else if fields != [] {
      assert IsFirstName(fields, 0);
    }
  }

  ghost predicate IsFirstName(fields: seq<Option<string>>, k: nat)
    requires k < |fields|
  {
    NamesAgent(fields[k]) && forall j | 0 <= j < k :: !NamesAgent(fields[j])
  }

  predicate NamesAgent(field: Option<string>)
  {
    var id := NormalizeAgentId(field);
    id.Some? && id.value != ""
  }

  /** The ids of a list of rows; rows without one are dropped. */
  function Identities(rows: seq<seq<Option<string>>>): (ids: seq<string>)
    ensures forall x :: x in ids <==> OfSomeRow(rows, x)
    ensures |ids| <= |rows|
  {
    if rows == [] then [] else
    var id := FirstIdentity(rows[0]);
    FirstOrLaterRow(rows);
    var rest := Identities(rows[1..]);
    if id.Some? then [id.value] + rest else rest
  }

  ghost predicate OfSomeRow(rows: seq<seq<Option<string>>>, id: string)
  {
    exists i :: 0 <= i < |rows| && FirstIdentity(rows[i]) == Some(id)
  }

  lemma FirstOrLaterRow(rows: seq<seq<Option<string>>>)
    requires rows != []
    ensures forall id :: OfSomeRow(rows, id) <==> FirstIdentity(rows[0]) == Some(id) || OfSomeRow(rows[1..], id)
  {
    hide FirstIdentity, OfSomeRow;
    forall id ensures OfSomeRow(rows, id) <==> FirstIdentity(rows[0]) == Some(id) || OfSomeRow(rows[1..], id) {
      FirstOrLater(rows[0], rows[1..], id);
      assert [rows[0]] + rows[1..] == rows;
    }
  }

  lemma FirstOrLater(row: seq<Option<string>>, rows: seq<seq<Option<string>>>, id: string)
    ensures OfSomeRow([row] + rows, id) <==> FirstIdentity(row) == Some(id) || OfSomeRow(rows, id)
  {
    hide FirstIdentity;
    var all := [row] + rows;
    assert all[0] == row;
    forall i | 0 <= i < |rows| ensures all[i + 1] == rows[i] {}
    if OfSomeRow(all, id) {
      var i :| 0 <= i < |all| && FirstIdentity(all[i]) == Some(id);
      if i > 0 { assert FirstIdentity(rows[i - 1]) == Some(id); }
    }
  }

  // ---- Spellings of one agent ----------------------------------------------------------

  /** A name with none of the characters the normaliser splits at or trims. */
  ghost predicate Clean(name: string)
  {
    name != "" && NoSpace(name) && '@' !in name && '/' !in name && ',' !in name && !EndsWith(name, "-host")
  }

  lemma CleanNamesAreFixed(name: string)
    requires Clean(name)
    ensures NormalizeAgentId(Some(name)) == Some(name) && NamesAgent(Some(name))
  {
  }

  /** A full JID normalises to its local part. */
  lemma CleanJids(name: string, rest: string)
    requires Clean(name) && NoSpace(name + "@" + rest)
    ensures NormalizeAgentId(Some(name + "@" + rest)) == Some(name) && NamesAgent(Some(name + "@" + rest))
  {
    assert name + "@" + rest == name + ['@'] + rest;
    BeforeOfJoin(name, '@', rest);
  }

  lemma PlainText(text: string)
    requires text != "" && NoSpace(text) && '@' !in text && '/' !in text
    ensures ',' !in text ==> NormalizeAgentId(Some(text)) == Some(WithoutHost(text))
    ensures ',' in text && '=' in Before(text, ',') ==>
      NormalizeAgentId(Some(text)) == Some(WithoutHost(After(Before(text, ','), '=')))
  {
    hide EndsWith;
  }

  lemma InConcat(a: string, b: string, c: char)
    ensures c in a + b <==> c in a || c in b
  {
  }

  /** A host name normalises to the agent's name. */
  lemma HostNames(name: string)
    requires Clean(name)
    ensures NormalizeAgentId(Some(name + "-host")) == Some(name)
  {
    hide NormalizeAgentId;
    var host := name + "-host";
    forall c | c in host ensures !IsSpace(c) && c != '@' && c != '/' && c != ',' { InConcat(name, "-host", c); }
    PlainText(host);
    assert host[|host| - 5..] == "-host" && host[..|host| - 5] == name;
  }

  /** A distinguished name normalises to the value of its first RDN. */
  lemma DistinguishedNames(attribute: string, name: string, rest: string)
    requires Clean(name) && NoSpace(attribute) && NoSpace(rest) && '=' !in attribute && ',' !in attribute
    requires '@' !in attribute && '/' !in attribute && '@' !in rest && '/' !in rest
    ensures NormalizeAgentId(Some(attribute + ['='] + name + [','] + rest)) == Some(name)
  {
    hide NormalizeAgentId;
    var rdn := attribute + ['='] + name;
    forall c | c in rdn ensures !IsSpace(c) && c != '@' && c != '/' && c != ',' {
      InConcat(attribute + ['='], name, c);
      InConcat(attribute, ['='], c);
    }
    forall c | c in rdn + [','] + rest ensures !IsSpace(c) && c != '@' && c != '/' {
      InConcat(rdn + [','], rest, c);
      InConcat(rdn, [','], c);
    }
    assert (rdn + [','] + rest)[|rdn|] == ',' && rdn[|attribute|] == '=';
    BeforeOfJoin(rdn, ',', rest);
    AfterOfJoin(attribute, '=', name);
    PlainText(rdn + [','] + rest);
  }

  /** What follows the first at sign or slash is dropped. */
  lemma SeparatedNames(name: string, separator: char, rest: string)
    requires Clean(name) && NoSpace(rest) && (separator == '@' || separator == '/')
    ensures NormalizeAgentId(Some(name + [separator] + rest)) == Some(name)
  {
    hide NormalizeAgentId;
    var text := name + [separator] + rest;
    forall c | c in text ensures !IsSpace(c) {
      InConcat(name + [separator], rest, c);
      InConcat(name, [separator], c);
    }
    BeforeOfJoin(name, separator, rest);
    if separator == '/' {
      if '@' in text { SlashFirst(name, rest); } else { assert Before(text, '@') == text; }
    }
    FrontIsClean(text, name);
  }

  lemma SlashFirst(name: string, rest: string)
    requires '@' !in name && '/' !in name
    ensures Before(Before(name + ['/'] + rest, '@'), '/') == name
  {
    InConcat(name, ['/'], '@');
    BeforeSkips(name + ['/'], rest, '@');
    BeforeOfJoin(name, '/', Before(rest, '@'));
  }

  lemma FrontIsClean(text: string, name: string)
    requires Clean(name) && NoSpace(text) && text != "" && Before(Before(text, '@'), '/') == name
    ensures NormalizeAgentId(Some(text)) == Some(name)
  {
  }

  /** Whitespace around a text makes no difference, and nothing comes of whitespace alone. */
  lemma SurroundingSpace(before: string, text: string, after: string)
    requires (forall c | c in before :: c <= ' ') && (forall c | c in after :: c <= ' ')
    ensures NormalizeAgentId(Some(before + text + after)) == NormalizeAgentId(Some(text))
    ensures NormalizeAgentId(Some(before)) == None
    ensures NormalizeAgentId(None) == None
  {
    TrimOfPadded(before, text, after);
    TrimOfPadded(before, "", "");
    assert before + "" + "" == before;
  }

  /** Text that is no JID, has commas, but no equals sign before the first one is kept whole, but for the ending. */
  lemma NamesWithCommas(text: string)
    requires text != "" && NoSpace(text) && '@' !in text && '/' !in text && '=' !in Before(text, ',')
    ensures NormalizeAgentId(Some(text)) == Some(if EndsWith(text, "-host") then text[..|text| - 5] else text)
  {
    hide EndsWith;
    assert Before(text, '@') == text && Before(text, '/') == text;
  }

  datatype LdapDevice = LdapDevice(dn: Option<string>, cn: seq<string>, uid: seq<string>)
  datatype DomainAgent = DomainAgent(jid: Option<string>, uid: Option<string>, hostname: Option<string>,
                                     commonName: Option<string>, distinguishedName: Option<string>)
  datatype CAgentRow = CAgentRow(jid: Option<string>, hostname: Option<string>, agentId: Option<string>,
                                 clientId: Option<string>, dn: Option<string>)

  function FirstValue(values: seq<string>): Option<string>
  {
    if values == [] then None else Some(values[0])
  }

  function LdapFields(e: LdapDevice): seq<Option<string>> { [FirstValue(e.cn), FirstValue(e.uid), e.dn] }

  function DomainFields(a: DomainAgent): seq<Option<string>>
  {
    [a.jid, a.uid, a.hostname, a.commonName, a.distinguishedName]
  }

  function CAgentFields(a: CAgentRow): seq<Option<string>> { [a.jid, a.hostname, a.agentId, a.clientId, a.dn] }

  /** A device is known by its first common name, else by its first uid, else by its distinguished name. */
  lemma DeviceIsKnownBy(e: LdapDevice)
    ensures var id := FirstIdentity(LdapFields(e));
      var cn, uid := if e.cn == [] then None else Some(e.cn[0]), if e.uid == [] then None else Some(e.uid[0]);
      id == if NamesAgent(cn) then NormalizeAgentId(cn)
            else if NamesAgent(uid) then NormalizeAgentId(uid)
            else if NamesAgent(e.dn) then NormalizeAgentId(e.dn)
            else None
  {
    hide NormalizeAgentId, NamesAgent;
    FirstOfThree(FirstValue(e.cn), FirstValue(e.uid), e.dn);
  }

  lemma FirstOfThree(a: Option<string>, b: Option<string>, c: Option<string>)
    ensures FirstIdentity([a, b, c]) ==
      if NamesAgent(a) then NormalizeAgentId(a)
      else if NamesAgent(b) then NormalizeAgentId(b)
      else if NamesAgent(c) then NormalizeAgentId(c)
      else None
  {
    hide NormalizeAgentId, NamesAgent, FirstIdentity;
    NextField(a, [b, c]);
    NextField(b, [c]);
    NextField(c, []);
    NoField();
    assert [a] + [b, c] == [a, b, c] && [b] + [c] == [b, c] && [c] + [] == [c];
  }

  lemma NextField(a: Option<string>, rest: seq<Option<string>>)
    ensures FirstIdentity([a] + rest) == if NamesAgent(a) then NormalizeAgentId(a) else FirstIdentity(rest)
  {
    assert ([a] + rest)[1..] == rest;
  }

  lemma NoField()
    ensures FirstIdentity([]) == None
  {
  }

  lemma FirstOfFive(a: Option<string>, b: Option<string>, c: Option<string>, d: Option<string>, e: Option<string>)
    ensures FirstIdentity([a, b, c, d, e]) ==
      if NamesAgent(a) then NormalizeAgentId(a)
      else if NamesAgent(b) then NormalizeAgentId(b)
      else if NamesAgent(c) then NormalizeAgentId(c)
      else if NamesAgent(d) then NormalizeAgentId(d)
      else if NamesAgent(e) then NormalizeAgentId(e)
      else None
  {
    hide NormalizeAgentId, NamesAgent, FirstIdentity;
    NextField(a, [b, c, d, e]);
    NextField(b, [c, d, e]);
    assert [a] + [b, c, d, e] == [a, b, c, d, e] && [b] + [c, d, e] == [b, c, d, e];
    FirstOfThree(c, d, e);
  }

  /** A listed agent is known by its JID, else by its uid, host name, common name or distinguished name; a table row by
      its JID, else by its host name, agent id, client id or distinguished name. */
  lemma RowsAreKnownBy(a: DomainAgent, r: CAgentRow)
    ensures FirstIdentity(DomainFields(a)) ==
      if NamesAgent(a.jid) then NormalizeAgentId(a.jid)
      else if NamesAgent(a.uid) then NormalizeAgentId(a.uid)
      else if NamesAgent(a.hostname) then NormalizeAgentId(a.hostname)
      else if NamesAgent(a.commonName) then NormalizeAgentId(a.commonName)
      else if NamesAgent(a.distinguishedName) then NormalizeAgentId(a.distinguishedName)
      else None
    ensures FirstIdentity(CAgentFields(r)) ==
      if NamesAgent(r.jid) then NormalizeAgentId(r.jid)
      else if NamesAgent(r.hostname) then NormalizeAgentId(r.hostname)
      else if NamesAgent(r.agentId) then NormalizeAgentId(r.agentId)
      else if NamesAgent(r.clientId) then NormalizeAgentId(r.clientId)
      else if NamesAgent(r.dn) then NormalizeAgentId(r.dn)
      else None
  {
    hide NormalizeAgentId, NamesAgent, FirstIdentity;
    FirstOfFive(a.jid, a.uid, a.hostname, a.commonName, a.distinguishedName);
    FirstOfFive(r.jid, r.hostname, r.agentId, r.clientId, r.dn);
  }

  // ---- The computer tree ---------------------------------------------------------------

  datatype TreeNode = TreeNode(
    typ: Option<string>, nodeType: Option<string>,
    uid: Option<string>, cn: Option<string>, name: Option<string>, distinguishedName: Option<string>,
    childEntries: seq<TreeNode>, children: seq<TreeNode>)
  {
    function Kind(): string { FirstTruthy([typ, nodeType]).GetOr("") }
    predicate IsAgent() { Kind() == "AHENK" || Kind() == "WINDOWS_AHENK" }
    function Label(): Option<string> { OptionOf(FirstTruthy([uid, cn, name, distinguishedName])) }
    function Below(): seq<TreeNode> { if childEntries != [] then childEntries else children }
  }

  datatype Truthy = Nothing | Text(text: string)
  {
    function GetOr(default: string): string { if Nothing? then default else text }
  }

  function OptionOf(t: Truthy): Option<string> { if t.Nothing? then None else Some(t.text) }

  /** Python's chain of `or` over optional strings. */
  function FirstTruthy(fields: seq<Option<string>>): (r: Truthy)
    ensures r.Text? ==> r.text != "" && Some(r.text) in fields
  {
    if fields == [] then Nothing
    else if fields[0].Some? && fields[0].value != "" then Text(fields[0].value)
    else FirstTruthy(fields[1..])
  }

  predicate IsText(s: Option<string>) { s.Some? && s.value != "" }

  /** A node is an agent by its type, or if that is missing or empty by its node type; it bears its uid, else its common
      name, name or distinguished name; its children are the child entries, or if there are none the children. */
  lemma NodeInWords(n: TreeNode)
    ensures n.IsAgent() <==> var kind := if IsText(n.typ) then n.typ else n.nodeType;
      kind == Some("AHENK") || kind == Some("WINDOWS_AHENK")
    ensures n.Label() ==
      if IsText(n.uid) then n.uid
      else if IsText(n.cn) then n.cn
      else if IsText(n.name) then n.name
      else if IsText(n.distinguishedName) then n.distinguishedName
      else None
    ensures n.Below() == if |n.childEntries| > 0 then n.childEntries else n.children
  {
    hide FirstTruthy;
    var uid, cn, name, dn := n.uid, n.cn, n.name, n.distinguishedName;
    NextTruthy(n.typ, [n.nodeType]);
    NextTruthy(n.nodeType, []);
    NextTruthy(uid, [cn, name, dn]);
    NextTruthy(cn, [name, dn]);
    NextTruthy(name, [dn]);
    NextTruthy(dn, []);
    assert [uid] + [cn, name, dn] == [uid, cn, name, dn] && [cn] + [name, dn] == [cn, name, dn];
    assert [name] + [dn] == [name, dn] && [dn] + [] == [dn];
    assert [n.typ] + [n.nodeType] == [n.typ, n.nodeType] && [n.nodeType] + [] == [n.nodeType];
  }

  lemma NextTruthy(a: Option<string>, rest: seq<Option<string>>)
    ensures FirstTruthy([a] + rest) == if IsText(a) then Text(a.value) else FirstTruthy(rest)
    ensures FirstTruthy([]) == Nothing
  {
    assert ([a] + rest)[1..] == rest;
  }

  /** `n` is one of the nodes of the forest. */
  ghost predicate Occurs(n: TreeNode, forest: seq<TreeNode>)
    decreases forest
  {
    forest != [] && (n == forest[0] || Occurs(n, forest[0].Below()) || Occurs(n, forest[1..]))
  }

  function AgentIds(n: TreeNode): seq<string>
  {
    if n.IsAgent() then Identities([[n.Label()]]) else []
  }

  /** The ids in the order of the source's walk. */
  function TreeIds(forest: seq<TreeNode>): seq<string>
    decreases forest
  {
    if forest == [] then [] else
    AgentIds(forest[0]) + TreeIds(forest[0].Below()) + TreeIds(forest[1..])
  }

  ghost predicate IsAgentNamed(n: TreeNode, id: string)
  {
    n.IsAgent() && NamesAgent(n.Label()) && NormalizeAgentId(n.Label()) == Some(id)
  }

  lemma OwnIds(node: TreeNode, id: string)
    ensures id in AgentIds(node) <==> IsAgentNamed(node, id)
  {
    var row := [node.Label()];
    assert row[1..] == [];
    assert [row][0] == row;
  }

  lemma {:induction false} TreeIdsAreTheAgentsInTheForest(forest: seq<TreeNode>, id: string)
    ensures id in TreeIds(forest) <==> exists n :: Occurs(n, forest) && IsAgentNamed(n, id)
    decreases forest
  {
    hide AgentIds, IsAgentNamed;
    if forest != [] {
      var node, below, rest := forest[0], forest[0].Below(), forest[1..];
      TreeIdsAreTheAgentsInTheForest(below, id);
      TreeIdsAreTheAgentsInTheForest(rest, id);
      OwnIds(node, id);
      if id in TreeIds(forest) {
        if id in AgentIds(node) {
          assert Occurs(node, forest);
        } else if id in TreeIds(below) {
          var n :| Occurs(n, below) && IsAgentNamed(n, id);
          assert Occurs(n, forest);
        } else {
          var n :| Occurs(n, rest) && IsAgentNamed(n, id);
          assert Occurs(n, forest);
        }
      }
    }
  }

  lemma AppendingInSteps<T>(a: seq<T>, b: seq<T>, c: seq<T>, d: seq<T>)
    ensures a + (b + c + d) == a + b + c + d
  {
  }

  method Walk(forest: seq<TreeNode>, found: seq<string>) returns (r: seq<string>)
    ensures r == found + TreeIds(forest)
    decreases forest
  {
    r := found;
    var k := 0;
    while k < |forest|
      invariant 0 <= k <= |forest|
      invariant r + TreeIds(forest[k..]) == found + TreeIds(forest)
    {
      var node := forest[k];
      ghost var own, below, rest := AgentIds(node), TreeIds(node.Below()), TreeIds(forest[k + 1..]);
      assert TreeIds(forest[k..]) == own + below + rest by {
        assert forest[k..][0] == node && forest[k..][1..] == forest[k + 1..];
      }
      AppendingInSteps(r, own, below, rest);
      r := r + AgentIds(node);
      r := Walk(node.Below(), r);
      k := k + 1;
    }
    assert forest[k..] == [];
  }

  method FlattenTreeAgentIds(forest: seq<TreeNode>) returns (ids: seq<string>)
    ensures StrictlySorted(ids)
    ensures forall id :: id in ids <==> exists n :: Occurs(n, forest) && IsAgentNamed(n, id)
    ensures ids == SortedUnique(TreeIds(forest))
  {
    var found := Walk(forest, []);
    assert found == TreeIds(forest);
    ids := SortedUnique(found);
    forall id ensures id in ids <==> exists n :: Occurs(n, forest) && IsAgentNamed(n, id) {
      TreeIdsAreTheAgentsInTheForest(forest, id);
    }
  }

  // ---- Snapshots -----------------------------------------------------------------------

  datatype Dashboard = Dashboard(total: Option<int>, online: Option<int>)

  /** What the six surfaces answer, before identities are normalised. */
  datatype Sources = Sources(
    dashboard: Dashboard, agentList: seq<DomainAgent>, computerTree: seq<TreeNode>, devices: seq<LdapDevice>,
    registeredUsers: seq<string>, connectedUsers: seq<string>, cAgents: seq<CAgentRow>, at: string)

  datatype Snapshot = Snapshot(
    expectedAgents: int, capturedAt: string,
    ldap: seq<string>, registered: seq<string>, connected: seq<string>,
    cAgent: seq<string>, domain: seq<string>, tree: seq<string>, dashboard: Dashboard)

  const SERVER_ACCOUNT := "lider_sunucu"

  function UserFields(users: seq<string>): (rows: seq<seq<Option<string>>>)
    ensures |rows| == |users| && forall i | 0 <= i < |users| :: rows[i] == [Some(users[i])]
  {
    seq(|users|, i requires 0 <= i < |users| => [Some(users[i])])
  }

  function WithoutServer(ids: seq<string>): (r: seq<string>)
    ensures forall x :: x in r <==> x in ids && x != "lider_sunucu"
  {
    if ids == [] then []
    else if ids[0] == SERVER_ACCOUNT then WithoutServer(ids[1..])
    else [ids[0]] + WithoutServer(ids[1..])
  }

  /** The rows of the inventories, before normalisation. */
  function DeviceRows(s: Sources): seq<seq<Option<string>>>
  {
    seq(|s.devices|, i requires 0 <= i < |s.devices| => LdapFields(s.devices[i]))
  }

  function TableRows(s: Sources): seq<seq<Option<string>>>
  {
    seq(|s.cAgents|, i requires 0 <= i < |s.cAgents| => CAgentFields(s.cAgents[i]))
  }

  function ListRows(s: Sources): seq<seq<Option<string>>>
  {
    seq(|s.agentList|, i requires 0 <= i < |s.agentList| => DomainFields(s.agentList[i]))
  }

  function CollectSnapshot(expectedAgents: int, s: Sources): (r: Snapshot)
    ensures Canonical(r)
  {
    Snapshot(
      expectedAgents, s.at,
      SortedUnique(Identities(DeviceRows(s))),
      SortedUnique(WithoutServer(Identities(UserFields(s.registeredUsers)))),
      SortedUnique(WithoutServer(Identities(UserFields(s.connectedUsers)))),
      SortedUnique(Identities(TableRows(s))),
      SortedUnique(Identities(ListRows(s))),
      SortedUnique(TreeIds(s.computerTree)),
      s.dashboard)
  }

  /** The ids the users of a list name, the server account aside. */
  ghost predicate NamedByAUser(users: seq<string>, id: string)
  {
    && id != SERVER_ACCOUNT
    && exists i :: 0 <= i < |users| && NamesAgent(Some(users[i])) && NormalizeAgentId(Some(users[i])) == Some(id)
  }

  lemma IdsOfUsers(users: seq<string>, id: string)
    ensures id in WithoutServer(Identities(UserFields(users))) <==> NamedByAUser(users, id)
  {
    forall i | 0 <= i < |users|
      ensures FirstIdentity(UserFields(users)[i]) == Some(id) <==>
        NamesAgent(Some(users[i])) && NormalizeAgentId(Some(users[i])) == Some(id)
    {
      var row := UserFields(users)[i];
      assert row == [Some(users[i])] && row[1..] == [];
    }
  }

  lemma IdsOfDevices(s: Sources, id: string)
    ensures id in Identities(DeviceRows(s)) <==>
      exists i :: 0 <= i < |s.devices| && FirstIdentity(LdapFields(s.devices[i])) == Some(id)
  {
    hide FirstIdentity, LdapFields, Identities;
    assert id in Identities(DeviceRows(s)) <==> OfSomeRow(DeviceRows(s), id);
    assert forall i | 0 <= i < |s.devices| :: DeviceRows(s)[i] == LdapFields(s.devices[i]);
  }

  lemma IdsOfTable(s: Sources, id: string)
    ensures id in Identities(TableRows(s)) <==>
      exists i :: 0 <= i < |s.cAgents| && FirstIdentity(CAgentFields(s.cAgents[i])) == Some(id)
  {
    hide FirstIdentity, CAgentFields, Identities;
    assert id in Identities(TableRows(s)) <==> OfSomeRow(TableRows(s), id);
    assert forall i | 0 <= i < |s.cAgents| :: TableRows(s)[i] == CAgentFields(s.cAgents[i]);
  }

  lemma IdsOfList(s: Sources, id: string)
    ensures id in Identities(ListRows(s)) <==>
      exists i :: 0 <= i < |s.agentList| && FirstIdentity(DomainFields(s.agentList[i])) == Some(id)
  {
    hide FirstIdentity, DomainFields, Identities;
    assert id in Identities(ListRows(s)) <==> OfSomeRow(ListRows(s), id);
    assert forall i | 0 <= i < |s.agentList| :: ListRows(s)[i] == DomainFields(s.agentList[i]);
  }

  /** What each list of a snapshot holds. */
  lemma CollectedIds(expectedAgents: int, s: Sources, id: string)
    ensures var r := CollectSnapshot(expectedAgents, s);
      && (id in r.ldap <==> exists i :: 0 <= i < |s.devices| && FirstIdentity(LdapFields(s.devices[i])) == Some(id))
      && (id in r.registered <==> NamedByAUser(s.registeredUsers, id))
      && (id in r.connected <==> NamedByAUser(s.connectedUsers, id))
      && (id in r.cAgent <==> exists i :: 0 <= i < |s.cAgents| && FirstIdentity(CAgentFields(s.cAgents[i])) == Some(id))
      && (id in r.domain <==>
          exists i :: 0 <= i < |s.agentList| && FirstIdentity(DomainFields(s.agentList[i])) == Some(id))
      && (id in r.tree <==> exists n :: Occurs(n, s.computerTree) && IsAgentNamed(n, id))
  {
    hide FirstIdentity, LdapFields, CAgentFields, DomainFields, IsAgentNamed, NamedByAUser, WithoutServer, Identities,
      DeviceRows, TableRows, ListRows;
    IdsOfDevices(s, id);
    IdsOfUsers(s.registeredUsers, id);
    IdsOfUsers(s.connectedUsers, id);
    IdsOfTable(s, id);
    IdsOfList(s, id);
    TreeIdsAreTheAgentsInTheForest(s.computerTree, id);
  }

  /** Every id list is sorted and free of duplicates. */
  ghost predicate Canonical(s: Snapshot)
  {
    && StrictlySorted(s.ldap) && StrictlySorted(s.registered) && StrictlySorted(s.connected)
    && StrictlySorted(s.cAgent) && StrictlySorted(s.domain) && StrictlySorted(s.tree)
  }

  // ---- Verdicts ------------------------------------------------------------------------

  datatype Check =
    | LdapMatchesExpected | XmppRegisteredMatchesExpected | XmppConnectedMatchesExpected
    | CAgentMatchesExpected | DomainAgentListMatchesExpected | ComputerTreeMatchesExpected
    | DashboardTotalMatchesExpected | DashboardOnlineMatchesXmppConnected
    | LdapMatchesXmppRegistered | LdapMatchesCAgent | CAgentMatchesDomainAgentList | CAgentMatchesComputerTree

  const CHECKS: seq<Check> := [
    LdapMatchesExpected, XmppRegisteredMatchesExpected, XmppConnectedMatchesExpected,
    CAgentMatchesExpected, DomainAgentListMatchesExpected, ComputerTreeMatchesExpected,
    DashboardTotalMatchesExpected, DashboardOnlineMatchesXmppConnected,
    LdapMatchesXmppRegistered, LdapMatchesCAgent, CAgentMatchesDomainAgentList, CAgentMatchesComputerTree]

  predicate Holds(c: Check, s: Snapshot)
  {
    match c
    case LdapMatchesExpected => |s.ldap| == s.expectedAgents
    case XmppRegisteredMatchesExpected => |s.registered| == s.expectedAgents
    case XmppConnectedMatchesExpected => |s.connected| == s.expectedAgents
    case CAgentMatchesExpected => |s.cAgent| == s.expectedAgents
    case DomainAgentListMatchesExpected => |s.domain| == s.expectedAgents
    case ComputerTreeMatchesExpected => |s.tree| == s.expectedAgents
    case DashboardTotalMatchesExpected => s.dashboard.total == Some(s.expectedAgents)
    case DashboardOnlineMatchesXmppConnected => s.dashboard.online == Some(|s.connected|)
    case LdapMatchesXmppRegistered => s.ldap == s.registered
    case LdapMatchesCAgent => s.ldap == s.cAgent
    case CAgentMatchesDomainAgentList => s.cAgent == s.domain
    case CAgentMatchesComputerTree => s.cAgent == s.tree
  }

  function FailedChecks(checks: seq<Check>, s: Snapshot): (failed: seq<Check>)
    ensures forall c :: c in failed <==> c in checks && !Holds(c, s)
  {
    if checks == [] then []
    else if Holds(checks[0], s) then FailedChecks(checks[1..], s)
    else [checks[0]] + FailedChecks(checks[1..], s)
  }

  datatype Finding =
    | AdapterError(details: seq<string>)
    | RegistrationTimeout(failed: seq<Check>)
    | RegistrationProjectionMismatch(failed: seq<Check>)

  datatype Status = Pass | Fail

  datatype Evaluation = Evaluation(
    status: Status, failedChecks: seq<Check>, taxonomy: seq<Finding>, perAgent: seq<AgentEntry>, snapshot: Snapshot)

  function Classify(failed: seq<Check>, timedOut: bool, errors: seq<string>): seq<Finding>
  {
    var adapter := if errors != [] then [AdapterError(errors)] else [];
    var projection :=
      if timedOut && failed != [] then [RegistrationTimeout(failed)]
      else if failed != [] then [RegistrationProjectionMismatch(failed)]
      else [];
    adapter + projection
  }

  function Evaluate(s: Snapshot, timedOut: bool, errors: seq<string>): Evaluation
  {
    var failed := FailedChecks(CHECKS, s);
    var taxonomy := Classify(failed, timedOut, errors);
    Evaluation(
      if taxonomy == [] && failed == [] then Pass else Fail,
      failed, taxonomy, PerAgent(s), s)
  }

  /** All five inventories besides the connected users agree, and every count is the expected one. */
  ghost predicate Aligned(s: Snapshot)
  {
    && s.ldap == s.registered == s.cAgent == s.domain == s.tree
    && |s.ldap| == |s.connected| == s.expectedAgents
    && s.dashboard == Dashboard(Some(s.expectedAgents), Some(s.expectedAgents))
  }

  lemma NoFailedChecksMeansAligned(s: Snapshot)
    ensures FailedChecks(CHECKS, s) == [] <==> Aligned(s)
  {
    var failed := FailedChecks(CHECKS, s);
    forall c ensures failed == [] ==> Holds(c, s) { EveryCheckIsListed(c); }
    if failed == [] {
      assert Holds(LdapMatchesExpected, s) && Holds(XmppConnectedMatchesExpected, s);
      assert Holds(LdapMatchesXmppRegistered, s) && Holds(LdapMatchesCAgent, s);
      assert Holds(CAgentMatchesDomainAgentList, s) && Holds(CAgentMatchesComputerTree, s);
      assert Holds(DashboardTotalMatchesExpected, s) && Holds(DashboardOnlineMatchesXmppConnected, s);
    } else {
      assert failed[0] in failed;
    }
  }

  /** Which checks fail, one by one. */
  lemma FailedChecksInWords(s: Snapshot)
    ensures var failed, n := FailedChecks(CHECKS, s), s.expectedAgents;
      && (LdapMatchesExpected in failed <==> |s.ldap| != n)
      && (XmppRegisteredMatchesExpected in failed <==> |s.registered| != n)
      && (XmppConnectedMatchesExpected in failed <==> |s.connected| != n)
      && (CAgentMatchesExpected in failed <==> |s.cAgent| != n)
      && (DomainAgentListMatchesExpected in failed <==> |s.domain| != n)
      && (ComputerTreeMatchesExpected in failed <==> |s.tree| != n)
      && (DashboardTotalMatchesExpected in failed <==> s.dashboard.total != Some(n))
      && (DashboardOnlineMatchesXmppConnected in failed <==> s.dashboard.online != Some(|s.connected|))
      && (LdapMatchesXmppRegistered in failed <==> s.ldap != s.registered)
      && (LdapMatchesCAgent in failed <==> s.ldap != s.cAgent)
      && (CAgentMatchesDomainAgentList in failed <==> s.cAgent != s.domain)
      && (CAgentMatchesComputerTree in failed <==> s.cAgent != s.tree)
  {
    forall c ensures c in FailedChecks(CHECKS, s) <==> !Holds(c, s) { EveryCheckIsListed(c); }
  }

  /** The place of a check in a report. */
  ghost function Rank(c: Check): nat
  {
    match c
    case LdapMatchesExpected => 0
    case XmppRegisteredMatchesExpected => 1
    case XmppConnectedMatchesExpected => 2
    case CAgentMatchesExpected => 3
    case DomainAgentListMatchesExpected => 4
    case ComputerTreeMatchesExpected => 5
    case DashboardTotalMatchesExpected => 6
    case DashboardOnlineMatchesXmppConnected => 7
    case LdapMatchesXmppRegistered => 8
    case LdapMatchesCAgent => 9
    case CAgentMatchesDomainAgentList => 10
    case CAgentMatchesComputerTree => 11
  }

  ghost predicate Ranked(checks: seq<Check>)
  {
    forall i, j | 0 <= i < j < |checks| :: Rank(checks[i]) < Rank(checks[j])
  }

  lemma {:induction false} FailedAreRanked(checks: seq<Check>, s: Snapshot)
    requires Ranked(checks)
    ensures Ranked(FailedChecks(checks, s))
  {
    if checks != [] {
      var rest := FailedChecks(checks[1..], s);
      FailedAreRanked(checks[1..], s);
      forall i | 0 <= i < |rest| ensures Rank(checks[0]) < Rank(rest[i]) { assert rest[i] in checks[1..]; }
    }
  }

  /** What an evaluation reports: the checks that fail, each once and in the order of the twelve; the exception first,
      if there was one, then all the failed checks under the class that the time-out flag decides; and a pass if there
      is nothing to report. */
  lemma EvaluationInWords(s: Snapshot, timedOut: bool, errors: seq<string>)
    ensures var e := Evaluate(s, timedOut, errors);
      && (forall c :: c in e.failedChecks <==> !Holds(c, s)) && Ranked(e.failedChecks)
      && e.taxonomy ==
           (if |errors| > 0 then [AdapterError(errors)] else []) +
           (if |e.failedChecks| == 0 then []
            else if timedOut then [RegistrationTimeout(e.failedChecks)]
            else [RegistrationProjectionMismatch(e.failedChecks)])
      && (e.status == Pass <==> e.failedChecks == [] && errors == [])
      && e.snapshot == s && e.perAgent == PerAgent(s)
  {
    hide Holds, PerAgent, FailedChecks, Ranked;
    forall c ensures c in FailedChecks(CHECKS, s) <==> !Holds(c, s) { EveryCheckIsListed(c); }
    ChecksAreRanked();
    FailedAreRanked(CHECKS, s);
  }

  lemma ChecksAreRanked()
    ensures Ranked(CHECKS)
  {
  }

  lemma EveryCheckIsListed(c: Check)
    ensures c in CHECKS
  {
    var k := match c
      case LdapMatchesExpected => 0
      case XmppRegisteredMatchesExpected => 1
      case XmppConnectedMatchesExpected => 2
      case CAgentMatchesExpected => 3
      case DomainAgentListMatchesExpected => 4
      case ComputerTreeMatchesExpected => 5
      case DashboardTotalMatchesExpected => 6
      case DashboardOnlineMatchesXmppConnected => 7
      case LdapMatchesXmppRegistered => 8
      case LdapMatchesCAgent => 9
      case CAgentMatchesDomainAgentList => 10
      case CAgentMatchesComputerTree => 11;
    assert CHECKS[k] == c;
  }

  /** A verdict passes exactly when no adapter failed and the surfaces are aligned. */
  lemma PassMeansAligned(s: Snapshot, timedOut: bool, errors: seq<string>)
    ensures Evaluate(s, timedOut, errors).status == Pass <==> errors == [] && Aligned(s)
    ensures Evaluate(s, timedOut, errors).status == Pass ==>
      Evaluate(s, timedOut, errors).failedChecks == [] && Evaluate(s, timedOut, errors).taxonomy == []
  {
    NoFailedChecksMeansAligned(s);
  }

  predicate BlamesAdapter(t: seq<Finding>) { exists i :: 0 <= i < |t| && t[i].AdapterError? }
  predicate BlamesTimeout(t: seq<Finding>) { exists i :: 0 <= i < |t| && t[i].RegistrationTimeout? }
  predicate BlamesProjection(t: seq<Finding>) { exists i :: 0 <= i < |t| && t[i].RegistrationProjectionMismatch? }

  lemma ClassifiedAs(failed: seq<Check>, timedOut: bool, errors: seq<string>)
    ensures var t := Classify(failed, timedOut, errors);
      && (BlamesAdapter(t) <==> errors != [])
      && (BlamesTimeout(t) <==> timedOut && failed != [])
      && (BlamesProjection(t) <==> !timedOut && failed != [])
  {
    var t := Classify(failed, timedOut, errors);
    if errors != [] {
      assert t[0].AdapterError?;
    }
    if failed != [] {
      assert t[|t| - 1].RegistrationTimeout? <==> timedOut;
      assert t[|t| - 1].RegistrationProjectionMismatch? <==> !timedOut;
    }
  }

  /** How a verdict is classified: `registration_timeout` marks the mismatches of a timed-out collection,
      `registration_projection_mismatch` those of any other, `adapter_error` a collection that threw. */
  lemma TaxonomyOfVerdict(s: Snapshot, timedOut: bool, errors: seq<string>)
    ensures var t := Evaluate(s, timedOut, errors).taxonomy;
      && (BlamesAdapter(t) <==> errors != [])
      && (BlamesTimeout(t) <==> timedOut && !Aligned(s))
      && (BlamesProjection(t) <==> !timedOut && !Aligned(s))
  {
    hide Classify, FailedChecks, PerAgent, Aligned;
    NoFailedChecksMeansAligned(s);
    ClassifiedAs(FailedChecks(CHECKS, s), timedOut, errors);
  }

  // ---- Per-agent states ----------------------------------------------------------------

  datatype AgentState =
    | LdapEntryReady | XmppIdentityReady | RegisterSent | RegisterAccepted | CAgentReady | DomainReady

  const AGENT_STATES: seq<AgentState> :=
    [LdapEntryReady, XmppIdentityReady, RegisterSent, RegisterAccepted, CAgentReady, DomainReady]

  lemma EveryStateIsListed(st: AgentState)
    ensures st in AGENT_STATES
  {
    var k := match st
      case LdapEntryReady => 0
      case XmppIdentityReady => 1
      case RegisterSent => 2
      case RegisterAccepted => 3
      case CAgentReady => 4
      case DomainReady => 5;
    assert AGENT_STATES[k] == st;
  }

  datatype AgentEntry = AgentEntry(agentId: string, states: map<AgentState, bool>, highest: Option<AgentState>)

  predicate Reached(st: AgentState, s: Snapshot, id: string)
  {
    match st
    case LdapEntryReady => id in s.ldap
    case XmppIdentityReady => id in s.registered
    case RegisterSent => id in s.connected
    case RegisterAccepted => id in s.domain
    case CAgentReady => id in s.cAgent
    case DomainReady =>
      && id in s.ldap && id in s.registered && id in s.connected
      && id in s.cAgent && id in s.domain && id in s.tree
  }

  function StateFlags(s: Snapshot, id: string): (flags: map<AgentState, bool>)
    ensures forall st: AgentState :: st in flags && (flags[st] <==> Reached(st, s, id))
  {
    assert forall st: AgentState :: st in AGENT_STATES by {
      forall st: AgentState ensures st in AGENT_STATES { EveryStateIsListed(st); }
    }
    map st | st in AGENT_STATES :: Reached(st, s, id)
  }

  /** The last state of `order` that is marked true, as `reached[-1]`. */
  function LastReached(order: seq<AgentState>, flags: map<AgentState, bool>): (r: Option<AgentState>)
    ensures r.Some? ==> r.value in order && r.value in flags && flags[r.value]
    ensures r.None? ==> forall st :: st in order && st in flags ==> !flags[st]
  {
    if order == [] then None else
    var last := order[|order| - 1];
    if last in flags && flags[last] then Some(last) else LastReached(order[..|order| - 1], flags)
  }

  function EntryFor(s: Snapshot, id: string): AgentEntry
  {
    AgentEntry(id, StateFlags(s, id), LastReached(AGENT_STATES, StateFlags(s, id)))
  }

  function AllIds(s: Snapshot): (ids: seq<string>)
    ensures StrictlySorted(ids)
    ensures Elements(ids) == Elements(s.ldap) + Elements(s.registered) + Elements(s.connected)
                             + Elements(s.cAgent) + Elements(s.domain) + Elements(s.tree)
  {
    SortedUnique(s.ldap + s.registered + s.connected + s.cAgent + s.domain + s.tree)
  }

  function PerAgent(s: Snapshot): (entries: seq<AgentEntry>)
    ensures |entries| == |AllIds(s)|
    ensures forall i | 0 <= i < |entries| :: entries[i] == EntryFor(s, AllIds(s)[i])
  {
    var ids := AllIds(s);
    seq(|ids|, i requires 0 <= i < |ids| => EntryFor(s, ids[i]))
  }

  method BuildPerAgentState(s: Snapshot) returns (entries: seq<AgentEntry>)
    ensures entries == PerAgent(s)
  {
    hide EntryFor;
    var ids := AllIds(s);
    entries := [];
    for k := 0 to |ids|
      invariant |entries| == k
      invariant forall i | 0 <= i < k :: entries[i] == EntryFor(s, ids[i])
    {
      entries := entries + [EntryFor(s, ids[k])];
    }
  }

  /** The states of an agent, one by one, and the highest: the last of the six it has reached. */
  lemma StatesInWords(s: Snapshot, id: string)
    ensures var e := EntryFor(s, id);
      && e.agentId == id && (forall st: AgentState :: st in e.states)
      && (e.states[LdapEntryReady] <==> id in s.ldap)
      && (e.states[XmppIdentityReady] <==> id in s.registered)
      && (e.states[RegisterSent] <==> id in s.connected)
      && (e.states[RegisterAccepted] <==> id in s.domain)
      && (e.states[CAgentReady] <==> id in s.cAgent)
      && (e.states[DomainReady] <==> InAllSix(s, id))
      && e.highest ==
           if InAllSix(s, id) then Some(DomainReady)
           else if id in s.cAgent then Some(CAgentReady)
           else if id in s.domain then Some(RegisterAccepted)
           else if id in s.connected then Some(RegisterSent)
           else if id in s.registered then Some(XmppIdentityReady)
           else if id in s.ldap then Some(LdapEntryReady)
           else None
  {
    HighestInWords(StateFlags(s, id));
  }

  lemma HighestInWords(flags: map<AgentState, bool>)
    requires forall st: AgentState :: st in flags
    ensures LastReached(AGENT_STATES, flags) ==
      if flags[DomainReady] then Some(DomainReady)
      else if flags[CAgentReady] then Some(CAgentReady)
      else if flags[RegisterAccepted] then Some(RegisterAccepted)
      else if flags[RegisterSent] then Some(RegisterSent)
      else if flags[XmppIdentityReady] then Some(XmppIdentityReady)
      else if flags[LdapEntryReady] then Some(LdapEntryReady)
      else None
  {
    var a := AGENT_STATES;
    assert a[..5][..4] == a[..4] && a[..4][..3] == a[..3] && a[..3][..2] == a[..2] && a[..2][..1] == a[..1];
    LastOf(a, flags);
    LastOf(a[..5], flags);
    LastOf(a[..4], flags);
    LastOf(a[..3], flags);
    LastOf(a[..2], flags);
    LastOf(a[..1], flags);
  }

  lemma LastOf(order: seq<AgentState>, flags: map<AgentState, bool>)
    requires order != [] && forall st: AgentState :: st in flags
    ensures var last := order[|order| - 1];
      LastReached(order, flags) == if flags[last] then Some(last) else LastReached(order[..|order| - 1], flags)
  {
  }

  ghost predicate InAllSix(s: Snapshot, id: string)
  {
    id in s.ldap && id in s.registered && id in s.connected && id in s.cAgent && id in s.domain && id in s.tree
  }

  lemma LastStateWins(flags: map<AgentState, bool>)
    requires forall st: AgentState :: st in flags
    ensures LastReached(AGENT_STATES, flags) == Some(DomainReady) <==> flags[DomainReady]
    ensures LastReached(AGENT_STATES, flags) == None <==> forall st: AgentState :: !flags[st]
  {
    assert AGENT_STATES[|AGENT_STATES| - 1] == DomainReady;
    forall st: AgentState ensures st in AGENT_STATES { EveryStateIsListed(st); }
  }

  /** An agent's highest state is `domain_ready` exactly when all six inventories list it, and a listed agent is
      `missing` exactly when the computer tree alone knows it. */
  lemma HighestStateIsDomainReady(s: Snapshot, i: nat)
    requires i < |PerAgent(s)|
    ensures PerAgent(s)[i].highest == Some(DomainReady) <==> InAllSix(s, PerAgent(s)[i].agentId)
    ensures PerAgent(s)[i].highest == None <==> OnlyInTree(s, PerAgent(s)[i].agentId)
  {
    hide *;
    var id := AllIds(s)[i];
    assert PerAgent(s)[i] == EntryFor(s, id);
    HighestOfEntry(s, id);
    UnreachedMeansOnlyInTree(s, id);
  }

  lemma HighestOfEntry(s: Snapshot, id: string)
    ensures EntryFor(s, id).agentId == id
    ensures EntryFor(s, id).highest == Some(DomainReady) <==> InAllSix(s, id)
    ensures EntryFor(s, id).highest == None <==> Unreached(s, id)
  {
    LastStateWins(StateFlags(s, id));
  }

  ghost predicate Unreached(s: Snapshot, id: string) { forall st: AgentState :: !Reached(st, s, id) }

  lemma UnreachedMeansOnlyInTree(s: Snapshot, id: string)
    requires id in AllIds(s)
    ensures Unreached(s, id) <==> OnlyInTree(s, id)
  {
    assert id in Elements(AllIds(s));
    if Unreached(s, id) {
      assert !Reached(LdapEntryReady, s, id) && !Reached(XmppIdentityReady, s, id) && !Reached(RegisterSent, s, id);
      assert !Reached(RegisterAccepted, s, id) && !Reached(CAgentReady, s, id);
    }
  }

  ghost predicate OnlyInTree(s: Snapshot, id: string)
  {
    && id in s.tree
    && id !in s.ldap && id !in s.registered && id !in s.connected && id !in s.cAgent && id !in s.domain
  }

  ghost function DomainReadyIds(s: Snapshot): set<string>
  {
    set i | 0 <= i < |PerAgent(s)| && PerAgent(s)[i].states[DomainReady] :: PerAgent(s)[i].agentId
  }

  ghost predicate ConnectedAreTheLdapIds(s: Snapshot)
  {
    Elements(s.connected) == Elements(s.ldap)
  }

  lemma DomainReadyIdsAreInAllSix(s: Snapshot, id: string)
    ensures id in DomainReadyIds(s) <==> InAllSix(s, id)
  {
    if InAllSix(s, id) {
      assert id in Elements(AllIds(s));
      var i :| 0 <= i < |AllIds(s)| && AllIds(s)[i] == id;
      assert PerAgent(s)[i] == EntryFor(s, id);
    }
  }

  /** Of a passing verdict, exactly the expected number of agents is domain-ready if and only if the connected ids
      are the directory's ids. */
  lemma ExpectedAgentsAreDomainReady(s: Snapshot)
    requires Canonical(s) && Aligned(s)
    ensures |DomainReadyIds(s)| == s.expectedAgents <==> ConnectedAreTheLdapIds(s)
    ensures ConnectedAreTheLdapIds(s) ==> DomainReadyIds(s) == Elements(s.ldap)
  {
    var ldap, connected := Elements(s.ldap), Elements(s.connected);
    forall id ensures id in DomainReadyIds(s) <==> id in ldap * connected { DomainReadyIdsAreInAllSix(s, id); }
    assert DomainReadyIds(s) == ldap * connected;
    SortedSize(s.ldap);
    SortedSize(s.connected);
    assert ldap == connected ==> ldap * connected == ldap;
    if |ldap * connected| == |ldap| {
      SubsetOfSameSize(ldap * connected, ldap);
      SubsetOfSameSize(ldap * connected, connected);
    }
  }

  /** The report lists one entry per expected agent if and only if the connected ids are the directory's ids. */
  lemma PerAgentCountOfPass(s: Snapshot)
    requires Canonical(s) && Aligned(s)
    ensures |PerAgent(s)| == s.expectedAgents <==> ConnectedAreTheLdapIds(s)
  {
    var ldap, connected := Elements(s.ldap), Elements(s.connected);
    assert Elements(AllIds(s)) == ldap + connected;
    SortedSize(AllIds(s));
    SortedSize(s.ldap);
    SortedSize(s.connected);
    assert ldap == connected ==> ldap + connected == ldap;
    if |ldap + connected| == |ldap| {
      SubsetOfSameSize(ldap, ldap + connected);
      assert connected <= ldap;
      SubsetOfSameSize(connected, ldap);
    }
  }

  /** Connected users that are all registered leave no room for a mismatch. */
  lemma ConnectedWithinRegistered(s: Snapshot)
    requires Canonical(s) && Aligned(s)
    requires Elements(s.connected) <= Elements(s.registered)
    ensures ConnectedAreTheLdapIds(s)
  {
    SortedSize(s.ldap);
    SortedSize(s.connected);
    SubsetOfSameSize(Elements(s.connected), Elements(s.ldap));
  }

  /** Surfaces of one agent that all know it, but whose session list, unlike the dashboard's count, was taken when only
      a stranger was connected. */
  ghost function StrangerSources(agent: string, stranger: string): Sources
  {
    Sources(Dashboard(Some(1), Some(1)), [DomainAgent(Some(agent), None, None, None, None)],
            [TreeNode(Some("AHENK"), None, Some(agent), None, None, None, [], [])],
            [LdapDevice(None, [agent], [])], [agent], [stranger], [CAgentRow(Some(agent), None, None, None, None)], "")
  }

  ghost function OneStranger(agent: string, stranger: string): Snapshot
  {
    Snapshot(1, "", [agent], [agent], [stranger], [agent], [agent], [agent], Dashboard(Some(1), Some(1)))
  }

  lemma OneRow(row: seq<Option<string>>, name: string)
    requires row != [] && row[0] == Some(name) && Clean(name)
    ensures SortedUnique(Identities([row])) == [name]
    ensures name != SERVER_ACCOUNT ==> SortedUnique(WithoutServer(Identities([row]))) == [name]
  {
    CleanNamesAreFixed(name);
    assert Identities([row]) == [name] by { assert [row][1..] == []; }
    assert [name][1..] == [];
  }

  lemma OneNode(name: string)
    requires Clean(name)
    ensures SortedUnique(TreeIds([TreeNode(Some("AHENK"), None, Some(name), None, None, None, [], [])])) == [name]
  {
    hide NormalizeAgentId;
    var node := TreeNode(Some("AHENK"), None, Some(name), None, None, None, [], []);
    assert FirstTruthy([node.typ, node.nodeType]) == Text("AHENK");
    assert node.Label() == Some(name);
    OneRow([node.Label()], name);
    assert node.Below() == [] && [node][1..] == [];
    assert TreeIds([node]) == AgentIds(node) + TreeIds([]) + TreeIds([]);
  }

  lemma StrangerIsCollected(agent: string, stranger: string)
    requires Clean(agent) && Clean(stranger) && agent != SERVER_ACCOUNT && stranger != SERVER_ACCOUNT
    ensures CollectSnapshot(1, StrangerSources(agent, stranger)) == OneStranger(agent, stranger)
  {
    hide Identities, SortedUnique, WithoutServer, TreeIds, Clean;
    var s := StrangerSources(agent, stranger);
    OneRow(LdapFields(s.devices[0]), agent);
    OneRow(CAgentFields(s.cAgents[0]), agent);
    OneRow(DomainFields(s.agentList[0]), agent);
    OneRow([Some(agent)], agent);
    OneRow([Some(stranger)], stranger);
    OneNode(agent);
    assert DeviceRows(s) == [LdapFields(s.devices[0])] && TableRows(s) == [CAgentFields(s.cAgents[0])];
    assert ListRows(s) == [DomainFields(s.agentList[0])];
    assert UserFields(s.registeredUsers) == [[Some(agent)]] && UserFields(s.connectedUsers) == [[Some(stranger)]];
  }

  lemma StrangerIsAligned(agent: string, stranger: string)
    requires agent != stranger
    ensures var s := OneStranger(agent, stranger); Aligned(s) && !ConnectedAreTheLdapIds(s)
  {
    assert agent in Elements([agent]) && agent !in Elements([stranger]);
  }

  /** A collection can pass on counts although a different agent is connected. */
  lemma PassWithAStrangerConnected()
    ensures exists s: Sources :: var r := CollectSnapshot(1, s);
      Evaluate(r, false, []).status == Pass && !ConnectedAreTheLdapIds(r)
  {
    hide Evaluate, CollectSnapshot, StrangerSources, Clean;
    TwoCleanNames();
    StrangerIsCollected("ahenk-001", "intruder");
    StrangerIsAligned("ahenk-001", "intruder");
    PassMeansAligned(OneStranger("ahenk-001", "intruder"), false, []);
  }

  lemma TwoCleanNames()
    ensures Clean("ahenk-001") && Clean("intruder") && "ahenk-001" != "intruder"
    ensures "ahenk-001" != SERVER_ACCOUNT && "intruder" != SERVER_ACCOUNT
  {
    assert "ahenk-001"[0] == 'a' && "intruder"[0] == 'i' && SERVER_ACCOUNT[0] == 'l';
    assert "ahenk-001"[8] == '1' && "intruder"[7] == 'r' && "-host"[4] == 't';
    assert "ahenk-001"[4..][4] == '1' && "intruder"[3..][4] == 'r';
  }
}
