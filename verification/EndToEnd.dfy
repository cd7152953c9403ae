/** From an empty installation to a passing verdict: provisioning, reconciliation and connection together. */
module EndToEnd {
  import opened Text
  import opened GroupSeeding
  import D = Directory
  import P = Provisioner
  import R = Registration
  import C = Reconciler
  import L = AgentListing
  import X = PresenceIndex

  lemma {:induction false} NamesAreMany(n: nat)
    ensures |AgentNames(n)| == n
  {
    hide AgentName;
    if n == 0 {
      NoNames();
    } else {
      NamesAreMany(n - 1);
      forall i | 1 <= i < n ensures AgentName(i) != AgentName(n) { AgentNamesAreDistinct(i, n); }
      OneMoreName(n);
    }
  }

  // ---- Agent names survive normalisation -----------------------------------------------

  lemma AgentNamesAreClean(i: nat)
    ensures R.Clean(AgentName(i))
  {
    var name, digits := AgentName(i), Padded(i);
    forall c | c in name ensures c != '@' && c != '/' && c != ',' && !IsSpace(c) {
      assert name == "ahenk-" + digits;
      if c !in digits { assert c in "ahenk-"; }
    }
    assert name[|name| - 1] == digits[|digits| - 1] && digits[|digits| - 1] in digits;
    assert name[|name| - 5..][4] == name[|name| - 1] && "-host"[4] == 't';
  }

  // ---- The directory -------------------------------------------------------------------

  /** A device that bears the agent's name, whatever else it holds. */
  ghost predicate IsAgentEntry(e: D.Entry, name: string)
  {
    && "device" in e.classes
    && "cn" in e.attributes && e.attributes["cn"] == {D.Plain(name)}
    && "uid" in e.attributes && e.attributes["uid"] == {D.Plain(name)}
  }

  ghost function AgentDn(cfg: P.Config, i: nat): D.Dn { GroupDn(AgentName(i), cfg.agentRoot) }

  /** What has an agent's name is that agent's entry. */
  ghost predicate NamesAreKept(cfg: P.Config, m: D.Tree)
  {
    forall i | 1 <= i <= cfg.agents :: NameIsKept(cfg, m, i)
  }

  ghost predicate NameIsKept(cfg: P.Config, m: D.Tree, i: nat)
  {
    AgentDn(cfg, i) in m ==> IsAgentEntry(m[AgentDn(cfg, i)], AgentName(i))
  }

  /** A directory whose devices, if any, are agents' own. */
  ghost predicate NoForeignDevices(cfg: P.Config, m: D.Tree)
  {
    DevicesOf(m, cfg) <= P.GeneratedDns(cfg) && NamesAreKept(cfg, m)
  }

  /** The devices that a run leaves under the agent root are the agents' own, and none of these moves. */
  ghost predicate OnlyAgentsLand(cfg: P.Config, m: D.Tree)
  {
    && P.Landing(cfg, m) == P.GeneratedDns(cfg)
    && AgentsStay(cfg, m) && NamesAreKept(cfg, m)
  }

  ghost predicate AgentsStay(cfg: P.Config, m: D.Tree)
  {
    forall d | d in P.GeneratedDns(cfg) :: P.Lands(cfg, m, d) == Some(d)
  }

  ghost function DevicesOf(m: D.Tree, cfg: P.Config): set<D.Dn> { P.Devices(m, cfg.agentRoot) }

  /** Seeds that never replace leave an entry as it is, or make it theirs. */
  lemma {:induction false} EntryAfterSeeding(m: D.Tree, seeds: seq<P.Seed>, d: D.Dn, e: D.Entry)
    requires P.Placed(m, seeds)
    requires forall s | s in seeds && s.dn == d :: !s.upsert && s.entry == e
    ensures d in P.ApplySeeds(m, seeds) ==> P.ApplySeeds(m, seeds)[d] == if d in m then m[d] else e
    ensures d in m ==> d in P.ApplySeeds(m, seeds)
  {
    if seeds != [] {
      EntryAfterSeeding(m, seeds[..|seeds| - 1], d, e);
    }
  }

  lemma OnlyItsSeed(cfg: P.Config, i: nat, s: P.Seed)
    requires 1 <= i <= cfg.agents && s in P.Seeds(cfg) && s.dn == P.AgentSeed(cfg, i).dn
    ensures s == P.AgentSeed(cfg, i)
  {
    P.EverySeedIsAgentOrOther(cfg, s);
    P.DeviceSeeds(cfg, s);
    assert s.dn in P.GeneratedDns(cfg);
    DeviceSeedsAreAgentSeeds(cfg, s);
    var k :| 1 <= k <= cfg.agents && s == P.AgentSeed(cfg, k);
    GroupDnsDiffer(AgentName(i), AgentName(k), cfg.agentRoot);
    AgentNamesAreDistinct(i, k);
  }

  lemma DeviceSeedsAreAgentSeeds(cfg: P.Config, s: P.Seed)
    requires s in P.Seeds(cfg) && "device" in s.entry.classes
    ensures exists k :: 1 <= k <= cfg.agents && s == P.AgentSeed(cfg, k)
  {
    hide P.Users, P.UserGroupSeeds, P.RoleSeeds, P.EndpointSeeds, P.AgentSeeds, P.Bears;
    P.UsersBear(cfg);
    P.UserGroupsBear(cfg);
    P.RolesBear(cfg);
    P.EndpointGroupsBear(cfg);
    AgentSeedsAreNumbered(cfg, s);
  }

  lemma AgentSeedsAreNumbered(cfg: P.Config, s: P.Seed)
    ensures s in P.AgentSeeds(cfg) ==> exists k :: 1 <= k <= cfg.agents && s == P.AgentSeed(cfg, k)
  {
    hide P.AgentSeed;
    if s in P.AgentSeeds(cfg) {
      var k :| 0 <= k < cfg.agents && s == P.AgentSeed(cfg, k + 1);
    }
  }

  ghost predicate Provisionable(cfg: P.Config, m: D.Tree, order: seq<D.Dn>)
  {
    P.Rooted(cfg, m) && P.IsOrder(cfg, m, order) && OnlyAgentsLand(cfg, m)
  }

  /** The devices are the agents' entries. */
  ghost predicate Furnished(cfg: P.Config, tree: D.Tree)
  {
    && DevicesOf(tree, cfg) == P.GeneratedDns(cfg)
    && forall i | 1 <= i <= cfg.agents :: Holds(cfg, tree, i)
  }

  ghost predicate Holds(cfg: P.Config, tree: D.Tree, i: nat)
  {
    AgentDn(cfg, i) in tree && IsAgentEntry(tree[AgentDn(cfg, i)], AgentName(i))
  }

  /** A fault-free run leaves exactly the agents' entries if and only if only agents land under the agent root. */
  lemma RunFurnishes(cfg: P.Config, m: D.Tree, order: seq<D.Dn>)
    requires P.Rooted(cfg, m) && P.IsOrder(cfg, m, order)
    ensures Furnished(cfg, P.Provisioned(cfg, m, order)) <==> OnlyAgentsLand(cfg, m)
  {
    hide P.Provisioned, P.Lands, P.Landing, P.GeneratedDns, P.Rooted, Holds, IsAgentEntry, P.Devices;
    P.DevicesAfterRun(cfg, m, order);
    var after := P.Provisioned(cfg, m, order);
    if DevicesOf(after, cfg) == P.GeneratedDns(cfg) {
      forall o | o in P.Landing(cfg, m) ensures o in P.GeneratedDns(cfg) && P.Lands(cfg, m, o) == Some(o) {
        OwnNameOnly(cfg, m, o, after);
      }
      assert P.Landing(cfg, m) == P.GeneratedDns(cfg);
    }
    if P.Landing(cfg, m) == P.GeneratedDns(cfg) && AgentsStay(cfg, m) {
      assert DevicesOf(after, cfg) == P.GeneratedDns(cfg);
      forall i | 1 <= i <= cfg.agents ensures Holds(cfg, after, i) <==> NameIsKept(cfg, m, i) {
        AgentIsGenerated(cfg, i);
        AgentEntryAfterRun(cfg, m, order, i);
      }
    }
  }

  lemma AgentIsGenerated(cfg: P.Config, i: nat)
    requires 1 <= i <= cfg.agents
    ensures AgentDn(cfg, i) in P.GeneratedDns(cfg)
  {
  }

  lemma OwnNameOnly(cfg: P.Config, m: D.Tree, o: D.Dn, after: D.Tree)
    requires P.Rooted(cfg, m) && o in P.Landing(cfg, m) && DevicesOf(after, cfg) == P.GeneratedDns(cfg)
    requires forall e :: e in DevicesOf(after, cfg) <==>
      exists d :: d in P.Landing(cfg, m) && P.Lands(cfg, m, d) == Some(e)
    ensures o in P.GeneratedDns(cfg) && P.Lands(cfg, m, o) == Some(o)
  {
    hide P.Lands, P.DevicesEverywhere, P.GeneratedDns, P.Rooted, P.Devices;
    var e := P.Lands(cfg, m, o).value;
    assert P.Lands(cfg, m, o) == Some(e);
    AgentIsThereAfterSeeding(cfg, m, e);
    P.LandedInUse(cfg, m, o);
  }

  /** An agent that stays has its entry after a run unless something else had the name. */
  lemma AgentEntryAfterRun(cfg: P.Config, m: D.Tree, order: seq<D.Dn>, i: nat)
    requires P.Rooted(cfg, m) && P.IsOrder(cfg, m, order) && 1 <= i <= cfg.agents
    requires P.Lands(cfg, m, AgentDn(cfg, i)) == Some(AgentDn(cfg, i))
    ensures Holds(cfg, P.Provisioned(cfg, m, order), i) <==> NameIsKept(cfg, m, i)
  {
    hide P.ApplySeeds, P.Seeds, P.Provisioned, P.Lands, IsAgentEntry;
    var s, seeded, d := P.AgentSeed(cfg, i), P.ApplySeeds(m, P.Seeds(cfg)), AgentDn(cfg, i);
    assert s.dn == d && d in P.GeneratedDns(cfg);
    P.SeedsArePlaced(cfg, m);
    forall x | x in P.Seeds(cfg) && x.dn == d ensures !x.upsert && x.entry == s.entry { OnlyItsSeed(cfg, i, x); }
    EntryAfterSeeding(m, P.Seeds(cfg), d, s.entry);
    AgentIsThereAfterSeeding(cfg, m, d);
    AgentAttributes(cfg, i);
    P.LandedUnchanged(cfg, m, order, d);
  }

  /** Where the migration moves no device, only agents land exactly if there is no foreign device. */
  lemma UndisturbedIsFurnished(cfg: P.Config, m: D.Tree, order: seq<D.Dn>)
    requires P.Rooted(cfg, m) && P.AgentsUndisturbed(cfg, m) && P.IsOrder(cfg, m, order)
    ensures OnlyAgentsLand(cfg, m) <==> NoForeignDevices(cfg, m)
  {
    hide P.Lands, P.Landing, P.Rooted, P.AgentsUndisturbed, P.IsOrder, P.GeneratedDns, IsAgentEntry;
    P.UndisturbedLanding(cfg, m, order);
    if NamesAreKept(cfg, m) {
      forall d | d in P.GeneratedDns(cfg) ensures d in DevicesOf(m, cfg) || d !in m { KeptNameIsADevice(cfg, m, d); }
    }
  }

  lemma KeptNameIsADevice(cfg: P.Config, m: D.Tree, d: D.Dn)
    requires NamesAreKept(cfg, m) && d in P.GeneratedDns(cfg)
    ensures d in DevicesOf(m, cfg) || d !in m
  {
    var i :| 1 <= i <= cfg.agents && d == GroupDn(AgentName(i), cfg.agentRoot);
    assert NameIsKept(cfg, m, i) && d == AgentDn(cfg, i);
    P.EveryAgentIsSeeded(cfg, d);
  }

  lemma AgentIsThereAfterSeeding(cfg: P.Config, m: D.Tree, d: D.Dn)
    requires P.Rooted(cfg, m) && d in P.GeneratedDns(cfg)
    ensures d in P.ApplySeeds(m, P.Seeds(cfg))
  {
    hide P.ApplySeeds, P.Seeds;
    P.SeedsArePlaced(cfg, m);
    P.EveryAgentIsSeeded(cfg, d);
    P.SeedsAreDistinct(cfg);
    P.SeedingSettles(m, P.Seeds(cfg));
    var s :| s in P.Seeds(cfg) && s.dn == d;
    assert P.Settled(P.ApplySeeds(m, P.Seeds(cfg)), s);
  }

  // ---- What the surfaces show ----------------------------------------------------------

  /** The surfaces of an installation, each in an order of its own: the directory's devices as the collector and as the
      management server read them, the agent table and its listing, the accounts, the sessions and the computer tree. */
  datatype Surfaces = Surfaces(
    dns: seq<D.Dn>, devices: seq<R.LdapDevice>, entries: seq<Option<C.LdapEntry>>,
    rows: seq<C.Agent>, listing: seq<C.Agent>,
    registered: seq<string>, connected: seq<string>, forest: seq<R.TreeNode>, at: string)

  ghost predicate Reads(e: D.Entry, device: R.LdapDevice, entry: Option<C.LdapEntry>)
  {
    && "cn" in e.attributes && device.cn != [] && D.Plain(device.cn[0]) in e.attributes["cn"]
    && "uid" in e.attributes && entry.Some? && entry.value.uid.Some?
    && D.Plain(entry.value.uid.value) in e.attributes["uid"]
  }

  ghost predicate ShowsDirectory(cfg: P.Config, tree: D.Tree, x: Surfaces)
  {
    && |x.dns| == |x.devices| == |x.entries|
    && (forall d :: d in x.dns <==> d in DevicesOf(tree, cfg))
    && (forall i, j | 0 <= i < j < |x.dns| :: x.dns[i] != x.dns[j])
    && forall i | 0 <= i < |x.dns| :: x.dns[i] in tree && Reads(tree[x.dns[i]], x.devices[i], x.entries[i])
  }

  lemma DeviceShowsAName(cfg: P.Config, tree: D.Tree, x: Surfaces, i: nat)
    requires Furnished(cfg, tree) && ShowsDirectory(cfg, tree, x) && i < |x.dns|
    ensures ShowsName(cfg, x, i)
  {
    assert x.dns[i] in x.dns && x.dns[i] in P.GeneratedDns(cfg);
    var k :| 1 <= k <= cfg.agents && x.dns[i] == GroupDn(AgentName(k), cfg.agentRoot);
    assert Holds(cfg, tree, k) && x.dns[i] == AgentDn(cfg, k);
    assert x.dns[i][0][3..] == AgentName(k);
  }

  ghost predicate ShowsName(cfg: P.Config, x: Surfaces, i: nat)
    requires i < |x.dns| == |x.devices| == |x.entries|
  {
    var name := ShownName(cfg, x, i);
    && name in AgentNames(cfg.agents)
    && x.devices[i].cn != [] && x.devices[i].cn[0] == name
    && x.entries[i].Some? && x.entries[i].value.uid == Some(name)
  }

  lemma NameIsShown(cfg: P.Config, tree: D.Tree, x: Surfaces, name: string)
    requires Furnished(cfg, tree) && ShowsDirectory(cfg, tree, x) && name in AgentNames(cfg.agents)
    ensures exists i :: 0 <= i < |x.dns| && ShownName(cfg, x, i) == name
  {
    var k :| 1 <= k <= cfg.agents && name == AgentName(k);
    var d := GroupDn(AgentName(k), cfg.agentRoot);
    assert d in P.GeneratedDns(cfg) && d in x.dns;
    var i :| 0 <= i < |x.dns| && x.dns[i] == d;
    assert d[0][3..] == AgentName(k);
    assert ShownName(cfg, x, i) == name;
  }

  lemma DevicesAreMany(cfg: P.Config, tree: D.Tree, x: Surfaces)
    requires Furnished(cfg, tree) && ShowsDirectory(cfg, tree, x)
    ensures |x.dns| == cfg.agents
  {
    hide Holds, Reads, P.AgentDnSet, P.Devices;
    P.GeneratedDnsAreDistinct(cfg.agentRoot, cfg.agents);
    DistinctSize(x.dns);
    assert (set d | d in x.dns) == P.GeneratedDns(cfg);
  }

  ghost function ShownName(cfg: P.Config, x: Surfaces, i: nat): string
    requires i < |x.dns|
  {
    if x.dns[i] != [] && |x.dns[i][0]| >= 3 then x.dns[i][0][3..] else ""
  }

  lemma AgentAttributes(cfg: P.Config, k: nat)
    ensures IsAgentEntry(P.AgentSeed(cfg, k).entry, AgentName(k))
  {
    assert "cn"[0] == 'c' && "uid"[0] == 'u' && "userPassword"[1] == 's' && "owner"[0] == 'o';
    assert "uid"[1] == 'i';
  }

  lemma {:induction false} DistinctSize<T>(s: seq<T>)
    requires forall i, j | 0 <= i < j < |s| :: s[i] != s[j]
    ensures |set x | x in s| == |s|
  {
    if s != [] {
      var k := |s| - 1;
      DistinctSize(s[..k]);
      assert s == s[..k] + [s[k]];
      assert (set x | x in s) == (set x | x in s[..k]) + {s[k]};
    }
  }

  // ---- The agent table -----------------------------------------------------------------

  /** One row per agent, and no row of anyone else. */
  ghost predicate OwnRows(rows: seq<C.Agent>, names: set<string>)
  {
    && (forall i | 0 <= i < |rows| :: rows[i].jid.Some? && rows[i].jid.value in names)
    && forall i, j | 0 <= i < j < |rows| :: rows[i].jid != rows[j].jid
  }

  lemma {:induction false} ReconciliationKeepsOwnRows(rows: seq<C.Agent>, entries: seq<Option<C.LdapEntry>>,
                                                      online: set<string>,
                                                     clock: nat -> int, names: set<string>)
    requires OwnRows(rows, names)
    requires forall i | 0 <= i < |entries| :: C.JidOf(entries[i]).Some? && C.JidOf(entries[i]).value in names
    ensures OwnRows(C.Run(rows, entries, online, clock).rows, names)
  {
    if entries != [] {
      var k := |entries| - 1;
      ReconciliationKeepsOwnRows(rows, entries[..k], online, clock, names);
      var before := C.Run(rows, entries[..k], online, clock);
      var jid := C.JidOf(entries[k]).value;
      var after := C.Step(before, entries[k], online, clock(k)).rows;
      var found := C.Find(before.rows, jid);
      if found.Some? {
        assert forall i | 0 <= i < |after| :: after[i].jid == before.rows[i].jid;
      }
    }
  }

  lemma {:induction false} RowsAreTheirJids(rows: seq<C.Agent>, names: set<string>)
    requires OwnRows(rows, names)
    ensures |C.Jids(rows)| == |rows|
  {
    if rows != [] {
      var k := |rows| - 1;
      RowsAreTheirJids(rows[..k], names);
      assert C.Jids(rows) == C.Jids(rows[..k]) + {rows[k].jid.value} by {
        assert forall i | 0 <= i < k :: rows[..k][i] == rows[i];
      }
      assert rows[k].jid.value !in C.Jids(rows[..k]);
    }
  }

  lemma ShownJids(cfg: P.Config, tree: D.Tree, x: Surfaces)
    requires Furnished(cfg, tree) && ShowsDirectory(cfg, tree, x)
    ensures forall i | 0 <= i < |x.entries| :: C.JidOf(x.entries[i]) == Some(ShownName(cfg, x, i))
    ensures forall i | 0 <= i < |x.entries| :: ShownName(cfg, x, i) in AgentNames(cfg.agents)
    ensures C.LdapJids(x.entries) == AgentNames(cfg.agents)
  {
    forall i | 0 <= i < |x.entries|
      ensures C.JidOf(x.entries[i]) == Some(ShownName(cfg, x, i)) && ShownName(cfg, x, i) in AgentNames(cfg.agents)
    {
      DeviceShowsAName(cfg, tree, x, i);
      NameIsClean(cfg.agents, ShownName(cfg, x, i));
      assert ShownName(cfg, x, i)[0] in ShownName(cfg, x, i);
    }
    forall name | name in AgentNames(cfg.agents) ensures name in C.LdapJids(x.entries) {
      NameIsShown(cfg, tree, x, name);
    }
  }

  lemma NameIsClean(n: nat, name: string)
    requires name in AgentNames(n)
    ensures R.Clean(name) && name != R.SERVER_ACCOUNT
  {
    var i :| 1 <= i <= n && name == AgentName(i);
    AgentNamesAreClean(i);
    assert name[0] == 'a' && R.SERVER_ACCOUNT[0] == 'l';
  }

  /** After reconciliation the table holds one row per agent. */
  lemma TableAfterReconciliation(cfg: P.Config, tree: D.Tree, x: Surfaces, before: seq<C.Agent>, online: set<string>,
                                 clock: nat -> int)
    requires Furnished(cfg, tree) && ShowsDirectory(cfg, tree, x) && OwnRows(before, AgentNames(cfg.agents))
    requires x.rows == C.Run(before, x.entries, online, clock).rows
    ensures OwnRows(x.rows, AgentNames(cfg.agents)) && C.Jids(x.rows) == AgentNames(cfg.agents) &&
      |x.rows| == cfg.agents
  {
    ShownJids(cfg, tree, x);
    ReconciliationKeepsOwnRows(before, x.entries, online, clock, AgentNames(cfg.agents));
    C.JidsAfterRun(before, x.entries, online, clock);
    assert C.Jids(x.rows) == AgentNames(cfg.agents);
    RowsAreTheirJids(x.rows, AgentNames(cfg.agents));
    NamesAreMany(cfg.agents);
  }

  // ---- The snapshot --------------------------------------------------------------------

  /** A row whose first field names an agent yields that name. */
  lemma FirstField(row: seq<Option<string>>, name: string)
    requires row != [] && R.NamesAgent(row[0]) && R.NormalizeAgentId(row[0]) == Some(name)
    ensures R.FirstIdentity(row) == Some(name)
  {
  }

  lemma CleanField(row: seq<Option<string>>, name: string)
    requires row != [] && row[0] == Some(name) && R.Clean(name)
    ensures R.FirstIdentity(row) == Some(name)
  {
    R.CleanNamesAreFixed(name);
    FirstField(row, name);
  }

  /** The rows yield the shown names. */
  ghost predicate Yield(rows: seq<seq<Option<string>>>, shown: seq<string>)
  {
    |rows| == |shown| && forall i | 0 <= i < |rows| :: R.FirstIdentity(rows[i]) == Some(shown[i])
  }

  lemma IdentitiesOf(rows: seq<seq<Option<string>>>, shown: seq<string>)
    requires Yield(rows, shown)
    ensures Elements(R.Identities(rows)) == Elements(shown)
  {
    forall name ensures name in R.Identities(rows) <==> name in shown {
      if name in shown {
        var i :| 0 <= i < |shown| && shown[i] == name;
        assert R.FirstIdentity(rows[i]) == Some(name);
      }
    }
  }

  function CAgentRowOf(a: C.Agent): R.CAgentRow { R.CAgentRow(a.jid, a.hostname, None, None, a.dn) }

  function DomainAgentOf(a: C.Agent): R.DomainAgent { R.DomainAgent(a.jid, None, a.hostname, None, a.dn) }

  /** A session of an agent or of the server account. */
  ghost predicate IsSession(jid: string, name: string)
  {
    NoSpace(jid) && exists rest :: jid == name + "@" + rest
  }

  /** Every session is an agent's or the server's, and every agent has one. */
  ghost predicate AllConnected(users: seq<string>, names: set<string>)
  {
    && (forall u | u in users :: exists name :: (name in names || name == R.SERVER_ACCOUNT) && IsSession(u, name))
    && forall name | name in names :: exists u :: u in users && IsSession(u, name)
  }

  ghost predicate AllRegistered(users: seq<string>, names: set<string>)
  {
    && (forall u | u in users :: u in names || u == R.SERVER_ACCOUNT)
    && forall name | name in names :: name in users
  }

  ghost predicate TreeShows(forest: seq<R.TreeNode>, names: set<string>)
  {
    forall id :: id in names <==> exists n :: R.Occurs(n, forest) && R.IsAgentNamed(n, id)
  }

  lemma ServerIsClean()
    ensures R.Clean(R.SERVER_ACCOUNT)
  {
    assert R.SERVER_ACCOUNT == "lider_sunucu";
    assert R.SERVER_ACCOUNT[11] == 'u' && "-host"[4] == 't';
    assert R.SERVER_ACCOUNT[7..][4] == R.SERVER_ACCOUNT[11];
  }

  lemma RegisteredIds(users: seq<string>, n: nat)
    requires AllRegistered(users, AgentNames(n))
    ensures Elements(R.WithoutServer(R.Identities(R.UserFields(users)))) == AgentNames(n)
  {
    ServerIsClean();
    forall i | 0 <= i < |users| ensures R.FirstIdentity(R.UserFields(users)[i]) == Some(users[i]) {
      assert users[i] in users;
      if users[i] in AgentNames(n) { NameIsClean(n, users[i]); }
      CleanField([Some(users[i])], users[i]);
    }
    IdentitiesOf(R.UserFields(users), users);
    forall name | name in AgentNames(n) ensures name != R.SERVER_ACCOUNT { NameIsClean(n, name); }
    WithoutServerElements(R.Identities(R.UserFields(users)), users, AgentNames(n));
  }

  lemma WithoutServerElements(ids: seq<string>, shown: seq<string>, names: set<string>)
    requires Elements(ids) == Elements(shown) && R.SERVER_ACCOUNT !in names
    requires forall u | u in shown :: u in names || u == R.SERVER_ACCOUNT
    requires forall name | name in names :: name in shown
    ensures Elements(R.WithoutServer(ids)) == names
  {
    forall x ensures x in R.WithoutServer(ids) <==> x in names {
      assert x in ids <==> x in Elements(shown);
    }
  }

  lemma SessionId(u: string, name: string)
    requires IsSession(u, name) && R.Clean(name)
    ensures R.NormalizeAgentId(Some(u)) == Some(name) && R.NamesAgent(Some(u))
  {
    var rest :| u == name + "@" + rest;
    R.CleanJids(name, rest);
  }

  ghost function IdOf(u: string): string
  {
    var id := R.NormalizeAgentId(Some(u));
    if id.Some? then id.value else ""
  }

  lemma EverySessionHasAnId(users: seq<string>, n: nat, u: string)
    requires AllConnected(users, AgentNames(n)) && u in users
    ensures R.NamesAgent(Some(u)) && R.NormalizeAgentId(Some(u)) == Some(IdOf(u))
    ensures IdOf(u) in AgentNames(n) || IdOf(u) == R.SERVER_ACCOUNT
  {
    ServerIsClean();
    var name :| (name in AgentNames(n) || name == R.SERVER_ACCOUNT) && IsSession(u, name);
    if name in AgentNames(n) { NameIsClean(n, name); }
    SessionId(u, name);
  }

  lemma EveryNameHasASession(users: seq<string>, n: nat, name: string)
    requires AllConnected(users, AgentNames(n)) && name in AgentNames(n)
    ensures exists u :: u in users && IdOf(u) == name
  {
    NameIsClean(n, name);
    var u :| u in users && IsSession(u, name);
    SessionId(u, name);
  }

  ghost function IdsOf(users: seq<string>): (ids: seq<string>)
    ensures |ids| == |users| && forall i | 0 <= i < |users| :: ids[i] == IdOf(users[i])
  {
    seq(|users|, i requires 0 <= i < |users| => IdOf(users[i]))
  }

  lemma ConnectedIds(users: seq<string>, n: nat)
    requires AllConnected(users, AgentNames(n))
    ensures Elements(R.WithoutServer(R.Identities(R.UserFields(users)))) == AgentNames(n)
  {
    var shown := IdsOf(users);
    forall i | 0 <= i < |users|
      ensures R.FirstIdentity(R.UserFields(users)[i]) == Some(shown[i]) &&
        (shown[i] in AgentNames(n) || shown[i] == R.SERVER_ACCOUNT)
    {
      assert users[i] in users;
      EverySessionHasAnId(users, n, users[i]);
      FirstField([Some(users[i])], shown[i]);
    }
    IdentitiesOf(R.UserFields(users), shown);
    forall name | name in AgentNames(n) ensures name in shown && name != R.SERVER_ACCOUNT {
      NameIsClean(n, name);
      EveryNameHasASession(users, n, name);
      var u :| u in users && IdOf(u) == name;
      var i :| 0 <= i < |users| && users[i] == u;
      assert shown[i] == name;
    }
    WithoutServerElements(R.Identities(R.UserFields(users)), shown, AgentNames(n));
  }

  // ---- The dashboard -------------------------------------------------------------------

  function CountOnline(entries: seq<Option<C.LdapEntry>>, online: set<string>, domain: string): nat
  {
    if entries == [] then 0 else
    var e := entries[|entries| - 1];
    var here := if e.Some? && X.IsOnline(e.value.uid, online, domain) then 1 else 0;
    CountOnline(entries[..|entries| - 1], online, domain) + here
  }

  method TotalOnlineComputerCount(entries: seq<Option<C.LdapEntry>>, online: set<string>, domain: string)
    returns (count: nat)
    ensures count == CountOnline(entries, online, domain) <= |entries|
  {
    count := 0;
    for k := 0 to |entries|
      invariant count == CountOnline(entries[..k], online, domain) <= k
    {
      assert entries[..k + 1][..k] == entries[..k];
      if entries[k].Some? && X.IsOnline(entries[k].value.uid, online, domain) {
        count := count + 1;
      }
    }
    assert entries[..|entries|] == entries;
  }

  lemma {:induction false} EveryoneOnline(entries: seq<Option<C.LdapEntry>>, online: set<string>, domain: string)
    requires forall i | 0 <= i < |entries| :: entries[i].Some? && X.IsOnline(entries[i].value.uid, online, domain)
    ensures CountOnline(entries, online, domain) == |entries|
  {
    if entries != [] { EveryoneOnline(entries[..|entries| - 1], online, domain); }
  }

  /** The sessions as the presence provider reads them. */
  function Payload(users: seq<string>): (p: seq<Option<string>>)
    ensures |p| == |users| && forall i | 0 <= i < |users| :: p[i] == Some(users[i])
  {
    seq(|users|, i requires 0 <= i < |users| => Some(users[i]))
  }

  lemma CleanLocalPart(name: string)
    requires R.Clean(name)
    ensures X.Bare(name) == name && X.LocalPart(name) == Lower(name)
  {
  }

  lemma SessionLocalPart(u: string, name: string)
    requires IsSession(u, name) && R.Clean(name)
    ensures X.Bare(u) != "" && X.LocalPart(u) == Lower(name)
  {
    var rest :| u == name + "@" + rest;
    var bare := Before(rest, '/');
    BareOfSession(name, rest);
    assert X.Bare(u) == name + ['@'] + bare;
    BeforeOfJoin(name, '@', bare);
  }

  lemma BareOfSession(name: string, rest: string)
    requires '/' !in name
    ensures Before(name + "@" + rest, '/') == name + ['@'] + Before(rest, '/')
  {
    BeforeSkips(name + "@", rest, '/');
    assert "@" == ['@'];
  }

  lemma SessionsAreTidy(users: seq<string>, n: nat)
    requires AllConnected(users, AgentNames(n))
    ensures X.Tidy(Payload(users))
  {
    forall i | 0 <= i < |users| ensures NoSpace(users[i]) { assert users[i] in users; }
  }

  lemma AgentIsOnline(users: seq<string>, n: nat, name: string, domain: string)
    requires AllConnected(users, AgentNames(n)) && name in AgentNames(n)
    ensures X.IsOnline(Some(name), X.IndexOf(Payload(users)), domain)
  {
    NameIsClean(n, name);
    SessionsAreTidy(users, n);
    CleanLocalPart(name);
    var u :| u in users && IsSession(u, name);
    SessionLocalPart(u, name);
    var i :| 0 <= i < |users| && users[i] == u;
    assert Payload(users)[i] == Some(u);
    X.OnlineMeansSameLocalPart(Payload(users), name, domain);
  }

  // ---- The theorem ---------------------------------------------------------------------

  /** The collection from the surfaces, with the agent list cut to its first page. */
  function SourcesOf(x: Surfaces, domain: string): R.Sources
  {
    var online := X.IndexOf(Payload(x.connected));
    var page := L.AgentList(x.listing, true);
    R.Sources(
      R.Dashboard(Some(|x.entries|), Some(CountOnline(x.entries, online, domain))),
      seq(|page|, i requires 0 <= i < |page| => DomainAgentOf(page[i])),
      x.forest, x.devices, x.registered, x.connected,
      seq(|x.rows|, i requires 0 <= i < |x.rows| => CAgentRowOf(x.rows[i])), x.at)
  }

  /** All agents are registered and connected, reconciled into the table and shown in the tree. */
  ghost predicate Running(cfg: P.Config, tree: D.Tree, x: Surfaces, before: seq<C.Agent>, online: set<string>,
                          clock: nat -> int)
  {
    && Furnished(cfg, tree) && ShowsDirectory(cfg, tree, x)
    && OwnRows(before, AgentNames(cfg.agents)) && x.rows == C.Run(before, x.entries, online, clock).rows
    && multiset(x.listing) == multiset(x.rows)
    && AllRegistered(x.registered, AgentNames(cfg.agents)) && AllConnected(x.connected, AgentNames(cfg.agents))
    && TreeShows(x.forest, AgentNames(cfg.agents))
  }

  /** A row whose first field is one of the names. */
  ghost predicate RowShows(row: seq<Option<string>>, name: string, names: set<string>)
  {
    row != [] && row[0] == Some(name) && name in names
  }

  /** Every row shows its name, and every name is shown. */
  ghost predicate RowsShow(rows: seq<seq<Option<string>>>, shown: seq<string>, names: set<string>)
  {
    && |rows| == |shown|
    && (forall i | 0 <= i < |rows| :: RowShows(rows[i], shown[i], names))
    && forall name | name in names :: name in shown
  }

  lemma NameField(row: seq<Option<string>>, name: string, n: nat)
    requires RowShows(row, name, AgentNames(n))
    ensures R.FirstIdentity(row) == Some(name)
  {
    NameIsClean(n, name);
    CleanField(row, name);
  }

  lemma NamesOf(rows: seq<seq<Option<string>>>, shown: seq<string>, n: nat)
    requires RowsShow(rows, shown, AgentNames(n))
    ensures Elements(R.Identities(rows)) == AgentNames(n)
  {
    forall i | 0 <= i < |rows| ensures R.FirstIdentity(rows[i]) == Some(shown[i]) { NameField(rows[i], shown[i], n); }
    IdentitiesOf(rows, shown);
    AllShown(rows, shown, AgentNames(n));
  }

  lemma AllShown(rows: seq<seq<Option<string>>>, shown: seq<string>, names: set<string>)
    requires RowsShow(rows, shown, names)
    ensures Elements(shown) == names
  {
    assert forall i | 0 <= i < |rows| :: RowShows(rows[i], shown[i], names);
  }

  ghost function ShownNames(cfg: P.Config, x: Surfaces): (shown: seq<string>)
    ensures |shown| == |x.dns| && forall i | 0 <= i < |x.dns| :: shown[i] == ShownName(cfg, x, i)
  {
    seq(|x.dns|, i requires 0 <= i < |x.dns| => ShownName(cfg, x, i))
  }

  lemma DeviceRowShows(cfg: P.Config, tree: D.Tree, x: Surfaces, i: nat)
    requires Furnished(cfg, tree) && ShowsDirectory(cfg, tree, x) && i < |x.dns|
    ensures RowShows(R.LdapFields(x.devices[i]), ShownName(cfg, x, i), AgentNames(cfg.agents))
  {
    DeviceShowsAName(cfg, tree, x, i);
  }

  lemma DeviceIds(cfg: P.Config, tree: D.Tree, x: Surfaces, rows: seq<seq<Option<string>>>)
    requires Furnished(cfg, tree) && ShowsDirectory(cfg, tree, x)
    requires |rows| == |x.devices| && forall i | 0 <= i < |rows| :: rows[i] == R.LdapFields(x.devices[i])
    ensures Elements(R.Identities(rows)) == AgentNames(cfg.agents)
  {
    var shown := ShownNames(cfg, x);
    forall i | 0 <= i < |rows| ensures RowShows(rows[i], shown[i], AgentNames(cfg.agents)) {
      DeviceRowShows(cfg, tree, x, i);
    }
    forall name | name in AgentNames(cfg.agents) ensures name in shown {
      NameIsShown(cfg, tree, x, name);
      var i :| 0 <= i < |x.dns| && ShownName(cfg, x, i) == name;
      assert shown[i] == name;
    }
    NamesOf(rows, shown, cfg.agents);
  }

  /** The first field of each row is the agent's jid. */
  ghost predicate JidFields(rows: seq<C.Agent>, fields: seq<seq<Option<string>>>)
  {
    |fields| == |rows| && forall i | 0 <= i < |rows| :: fields[i] != [] && fields[i][0] == rows[i].jid
  }

  ghost function JidsOf(rows: seq<C.Agent>): (shown: seq<string>)
    ensures |shown| == |rows| && forall i | 0 <= i < |rows| && rows[i].jid.Some? :: shown[i] == rows[i].jid.value
  {
    seq(|rows|, i requires 0 <= i < |rows| => if rows[i].jid.Some? then rows[i].jid.value else "")
  }

  lemma TableRowsShow(rows: seq<C.Agent>, fields: seq<seq<Option<string>>>, names: set<string>)
    requires C.Jids(rows) == names && JidFields(rows, fields)
    requires forall i | 0 <= i < |rows| :: rows[i].jid.Some? && rows[i].jid.value in names
    ensures RowsShow(fields, JidsOf(rows), names)
  {
    var shown := JidsOf(rows);
    forall name | name in names ensures name in shown {
      var i :| 0 <= i < |rows| && rows[i].jid.Some? && rows[i].jid.value == name;
      assert shown[i] == name;
    }
  }

  /** A listing in another order has the same rows. */
  lemma SameRows(rows: seq<C.Agent>, listing: seq<C.Agent>, names: set<string>)
    requires multiset(listing) == multiset(rows) && OwnRows(rows, names)
    ensures |listing| == |rows| && C.Jids(listing) == C.Jids(rows)
    ensures forall i | 0 <= i < |listing| :: listing[i].jid.Some? && listing[i].jid.value in names
  {
    assert |multiset(listing)| == |listing| && |multiset(rows)| == |rows|;
    forall a ensures a in listing <==> a in rows { assert a in multiset(listing) <==> a in multiset(rows); }
    forall i | 0 <= i < |listing| ensures listing[i].jid.Some? && listing[i].jid.value in names {
      assert listing[i] in rows;
    }
    forall j ensures j in C.Jids(listing) <==> j in C.Jids(rows) {
      if j in C.Jids(listing) {
        var i :| 0 <= i < |listing| && listing[i].jid.Some? && listing[i].jid.value == j;
        assert listing[i] in rows;
      }
      if j in C.Jids(rows) {
        var i :| 0 <= i < |rows| && rows[i].jid.Some? && rows[i].jid.value == j;
        assert rows[i] in listing;
      }
    }
  }

  /** A listing of the whole table yields the names. */
  lemma ListingIds(rows: seq<C.Agent>, listing: seq<C.Agent>, fields: seq<seq<Option<string>>>, n: nat)
    requires OwnRows(rows, AgentNames(n)) && C.Jids(rows) == AgentNames(n) && multiset(listing) == multiset(rows)
    requires JidFields(listing, fields)
    ensures Elements(R.Identities(fields)) == AgentNames(n)
  {
    SameRows(rows, listing, AgentNames(n));
    TableRowsShow(listing, fields, AgentNames(n));
    NamesOf(fields, JidsOf(listing), n);
  }

  lemma TreeIds(forest: seq<R.TreeNode>, n: nat)
    requires TreeShows(forest, AgentNames(n))
    ensures Elements(R.TreeIds(forest)) == AgentNames(n)
  {
    forall id ensures id in R.TreeIds(forest) <==> id in AgentNames(n) { R.TreeIdsAreTheAgentsInTheForest(forest, id); }
  }

  lemma AllOnline(cfg: P.Config, tree: D.Tree, x: Surfaces, domain: string)
    requires Furnished(cfg, tree) && ShowsDirectory(cfg, tree, x) && AllConnected(x.connected, AgentNames(cfg.agents))
    ensures CountOnline(x.entries, X.IndexOf(Payload(x.connected)), domain) == |x.entries| == cfg.agents
  {
    DevicesAreMany(cfg, tree, x);
    var online := X.IndexOf(Payload(x.connected));
    forall i | 0 <= i < |x.entries| ensures x.entries[i].Some? && X.IsOnline(x.entries[i].value.uid, online, domain) {
      DeviceShowsAName(cfg, tree, x, i);
      AgentIsOnline(x.connected, cfg.agents, ShownName(cfg, x, i), domain);
    }
    EveryoneOnline(x.entries, online, domain);
  }

  /** Six lists over the same names, in canonical order, with matching counts are aligned. */
  lemma AlignedOver(s: R.Snapshot, n: nat)
    requires R.Canonical(s) && s.expectedAgents == n && s.dashboard == R.Dashboard(Some(n), Some(n))
    requires Shows(s, AgentNames(n))
    ensures R.Aligned(s) && R.ConnectedAreTheLdapIds(s)
  {
    SortedIsCanonical(s.ldap, s.registered);
    SortedIsCanonical(s.ldap, s.cAgent);
    SortedIsCanonical(s.ldap, s.domain);
    SortedIsCanonical(s.ldap, s.tree);
    SortedSize(s.ldap);
    SortedSize(s.connected);
    NamesAreMany(n);
  }

  lemma SameElements(a: seq<string>, b: set<string>)
    requires Elements(a) == b
    ensures Elements(SortedUnique(a)) == b
  {
    assert forall x :: x in SortedUnique(a) <==> x in a;
  }

  /** For one to a hundred agents: a running installation gives a snapshot whose verdict passes, with every agent
      domain-ready. */
  lemma RunningInstallationPasses(cfg: P.Config, tree: D.Tree, x: Surfaces, before: seq<C.Agent>, online: set<string>,
                                  clock: nat -> int, domain: string, timedOut: bool)
    requires 1 <= cfg.agents <= L.PAGE_SIZE && Running(cfg, tree, x, before, online, clock)
    ensures var s := R.CollectSnapshot(cfg.agents, SourcesOf(x, domain));
      && R.Evaluate(s, timedOut, []).status == R.Pass
      && R.DomainReadyIds(s) == AgentNames(cfg.agents) && |R.DomainReadyIds(s)| == cfg.agents
  {
    var n, src := cfg.agents, SourcesOf(x, domain);
    var s := R.CollectSnapshot(n, src);
    SnapshotShowsTheNames(cfg, tree, x, before, online, clock, domain);
    AlignedOver(s, n);
    R.PassMeansAligned(s, timedOut, []);
    R.ExpectedAgentsAreDomainReady(s);
  }

  ghost predicate Collects(src: R.Sources, names: set<string>)
  {
    && Elements(R.Identities(R.DeviceRows(src))) == names
    && Elements(R.WithoutServer(R.Identities(R.UserFields(src.registeredUsers)))) == names
    && Elements(R.WithoutServer(R.Identities(R.UserFields(src.connectedUsers)))) == names
    && Elements(R.Identities(R.TableRows(src))) == names
    && Elements(R.Identities(R.ListRows(src))) == names
    && Elements(R.TreeIds(src.computerTree)) == names
  }

  ghost predicate Shows(s: R.Snapshot, names: set<string>)
  {
    && Elements(s.ldap) == Elements(s.registered) == Elements(s.connected) == names
    && Elements(s.cAgent) == Elements(s.domain) == Elements(s.tree) == names
  }

  lemma CollectedShows(n: nat, src: R.Sources, names: set<string>)
    requires Collects(src, names)
    ensures Shows(R.CollectSnapshot(n, src), names)
  {
    SameElements(R.Identities(R.DeviceRows(src)), names);
    SameElements(R.WithoutServer(R.Identities(R.UserFields(src.registeredUsers))), names);
    SameElements(R.WithoutServer(R.Identities(R.UserFields(src.connectedUsers))), names);
    SameElements(R.Identities(R.TableRows(src)), names);
    SameElements(R.Identities(R.ListRows(src)), names);
    SameElements(R.TreeIds(src.computerTree), names);
  }

  lemma TableRowsAreJidFields(x: Surfaces, domain: string)
    ensures JidFields(x.rows, R.TableRows(SourcesOf(x, domain)))
  {
    var rows := R.TableRows(SourcesOf(x, domain));
    forall i | 0 <= i < |rows| ensures rows[i] != [] && rows[i][0] == x.rows[i].jid {
      assert rows[i] == R.CAgentFields(CAgentRowOf(x.rows[i]));
    }
  }

  lemma ListRowsAreJidFields(x: Surfaces, domain: string)
    requires |x.listing| <= L.PAGE_SIZE
    ensures JidFields(x.listing, R.ListRows(SourcesOf(x, domain)))
  {
    var rows := R.ListRows(SourcesOf(x, domain));
    forall i | 0 <= i < |rows| ensures rows[i] != [] && rows[i][0] == x.listing[i].jid {
      assert rows[i] == R.DomainFields(DomainAgentOf(x.listing[i]));
    }
  }

  lemma TableCollects(cfg: P.Config, x: Surfaces, domain: string)
    requires cfg.agents <= L.PAGE_SIZE && |x.rows| == cfg.agents
    requires OwnRows(x.rows, AgentNames(cfg.agents)) && C.Jids(x.rows) == AgentNames(cfg.agents)
    requires multiset(x.listing) == multiset(x.rows)
    ensures Elements(R.Identities(R.TableRows(SourcesOf(x, domain)))) == AgentNames(cfg.agents)
    ensures Elements(R.Identities(R.ListRows(SourcesOf(x, domain)))) == AgentNames(cfg.agents)
  {
    SameRows(x.rows, x.listing, AgentNames(cfg.agents));
    TableRowsAreJidFields(x, domain);
    ListRowsAreJidFields(x, domain);
    ListingIds(x.rows, x.rows, R.TableRows(SourcesOf(x, domain)), cfg.agents);
    ListingIds(x.rows, x.listing, R.ListRows(SourcesOf(x, domain)), cfg.agents);
  }

  lemma AccountsCollect(users: seq<string>, n: nat, sessions: seq<string>)
    requires AllRegistered(users, AgentNames(n)) && AllConnected(sessions, AgentNames(n))
    ensures Elements(R.WithoutServer(R.Identities(R.UserFields(users)))) == AgentNames(n)
    ensures Elements(R.WithoutServer(R.Identities(R.UserFields(sessions)))) == AgentNames(n)
  {
    RegisteredIds(users, n);
    ConnectedIds(sessions, n);
  }

  lemma RunningCollects(cfg: P.Config, tree: D.Tree, x: Surfaces, before: seq<C.Agent>, online: set<string>,
                        clock: nat -> int, domain: string)
    requires cfg.agents <= L.PAGE_SIZE && Running(cfg, tree, x, before, online, clock)
    ensures Collects(SourcesOf(x, domain), AgentNames(cfg.agents))
  {
    TableAfterReconciliation(cfg, tree, x, before, online, clock);
    TableCollects(cfg, x, domain);
    DeviceIds(cfg, tree, x, R.DeviceRows(SourcesOf(x, domain)));
    AccountsCollect(x.registered, cfg.agents, x.connected);
    TreeIds(x.forest, cfg.agents);
  }

  lemma SnapshotShowsTheNames(cfg: P.Config, tree: D.Tree, x: Surfaces, before: seq<C.Agent>, online: set<string>,
                              clock: nat -> int, domain: string)
    requires 1 <= cfg.agents <= L.PAGE_SIZE && Running(cfg, tree, x, before, online, clock)
    ensures var s := R.CollectSnapshot(cfg.agents, SourcesOf(x, domain));
      s.dashboard == R.Dashboard(Some(cfg.agents), Some(cfg.agents)) && Shows(s, AgentNames(cfg.agents))
  {
    AllOnline(cfg, tree, x, domain);
    RunningCollects(cfg, tree, x, before, online, clock, domain);
    CollectedShows(cfg.agents, SourcesOf(x, domain), AgentNames(cfg.agents));
  }

  /** The accounts a provisioning run leaves, where only agents and the server had one before. */
  ghost predicate AccountsAfterRun(before: set<string>, after: set<string>, n: nat)
  {
    before <= AgentNames(n) + {R.SERVER_ACCOUNT} && AgentNames(n) <= after && before <= after <= before + AgentNames(n)
  }

  lemma AccountsAreRegistered(before: set<string>, after: set<string>, users: seq<string>, n: nat)
    requires AccountsAfterRun(before, after, n) && Elements(users) == after
    ensures AllRegistered(users, AgentNames(n))
  {
    hide AgentNames;
    forall u | u in users ensures u in AgentNames(n) || u == R.SERVER_ACCOUNT { assert u in Elements(users); }
    forall name | name in AgentNames(n) ensures name in users { assert name in Elements(users); }
  }

  /** From a directory, accounts and an agent table without foreign agents: a provisioning run, a reconciliation and the
      agents' connections lead to a passing verdict. */
  lemma ProvisionedInstallationPasses(cfg: P.Config, m: D.Tree, order: seq<D.Dn>, accounts: set<string>,
                                      registered: set<string>, x: Surfaces, before: seq<C.Agent>,
                                      online: set<string>, clock: nat -> int, domain: string, timedOut: bool)
    requires 1 <= cfg.agents <= L.PAGE_SIZE && Provisionable(cfg, m, order)
    requires AccountsAfterRun(accounts, registered, cfg.agents) && Elements(x.registered) == registered
    requires ShowsDirectory(cfg, P.Provisioned(cfg, m, order), x) && OwnRows(before, AgentNames(cfg.agents))
    requires x.rows == C.Run(before, x.entries, online, clock).rows && multiset(x.listing) == multiset(x.rows)
    requires AllConnected(x.connected, AgentNames(cfg.agents)) && TreeShows(x.forest, AgentNames(cfg.agents))
    ensures var s := R.CollectSnapshot(cfg.agents, SourcesOf(x, domain));
      R.Evaluate(s, timedOut, []).status == R.Pass && |R.DomainReadyIds(s)| == cfg.agents
  {
    RunFurnishes(cfg, m, order);
    AccountsAreRegistered(accounts, registered, x.registered, cfg.agents);
    RunningInstallationPasses(cfg, P.Provisioned(cfg, m, order), x, before, online, clock, domain, timedOut);
  }

  // ---- One view of the sessions ----------------------------------------------------------

  /** Sessions without whitespace or capital letters. */
  ghost predicate PlainSessions(users: seq<string>)
  {
    forall i | 0 <= i < |users| :: NoSpace(users[i]) && Lower(users[i]) == users[i]
  }

  lemma {:induction false} FirstSeparators(s: string, a: char, b: char)
    ensures Before(Before(s, a), b) == Before(Before(s, b), a)
  {
    if s != "" && s[0] != a && s[0] != b {
      FirstSeparators(s[1..], a, b);
      assert Before(s, a)[1..] == Before(s[1..], a) && Before(s, b)[1..] == Before(s[1..], b);
    }
  }

  lemma LowerPrefix(s: string, r: string)
    requires r <= s && Lower(s) == s
    ensures Lower(r) == r
  {
    assert forall i | 0 <= i < |r| :: r[i] == s[i] == Lower(s)[i];
    assert forall i | 0 <= i < |r| :: Lower(r)[i] == r[i];
  }

  lemma AgentNamesAreLower(n: nat, name: string)
    requires name in AgentNames(n)
    ensures Lower(name) == name
  {
    var i :| 1 <= i <= n && name == AgentName(i);
    forall k | 0 <= k < |name| ensures Lower(name)[k] == name[k] {
      assert name == "ahenk-" + Padded(i);
      if k >= 6 { assert name[k] == Padded(i)[k - 6] && name[k] in Padded(i); }
    }
  }

  /** A session whose local part is an agent's name normalises to that name. */
  lemma SessionNamesItsLocalPart(u: string, name: string)
    requires NoSpace(u) && Lower(u) == u && R.Clean(name) && X.LocalPart(u) == name
    ensures R.NormalizeAgentId(Some(u)) == Some(name) && R.NamesAgent(Some(u))
  {
    FirstSeparators(u, '@', '/');
    LowerPrefix(u, Before(Before(u, '/'), '@'));
  }

  /** Where the dashboard's view of the sessions is the collector's, every agent it counts as online is connected. */
  lemma CountedAgentIsConnected(sessions: seq<string>, n: nat, name: string, domain: string)
    requires PlainSessions(sessions) && name in AgentNames(n)
    requires X.IsOnline(Some(name), X.IndexOf(Payload(sessions)), domain)
    ensures R.NamedByAUser(sessions, name)
  {
    hide R.NormalizeAgentId, X.IsOnline, X.IndexOf, AgentNames;
    NameIsClean(n, name);
    AgentNamesAreLower(n, name);
    CleanLocalPart(name);
    X.OnlineMeansSameLocalPart(Payload(sessions), name, domain);
    assert X.Listed(Payload(sessions), X.LocalPart(name));
    var i :| 0 <= i < |Payload(sessions)| && Payload(sessions)[i].Some? && X.Bare(Payload(sessions)[i].value) != "" &&
      X.LocalPart(Payload(sessions)[i].value) == X.LocalPart(name);
    SessionNamesItsLocalPart(sessions[i], name);
  }

  lemma {:induction false} FullCountMeansEveryone(entries: seq<Option<C.LdapEntry>>, online: set<string>,
                                                  domain: string)
    ensures CountOnline(entries, online, domain) <= |entries|
    ensures CountOnline(entries, online, domain) == |entries| ==>
      forall i | 0 <= i < |entries| :: entries[i].Some? && X.IsOnline(entries[i].value.uid, online, domain)
  {
    hide X.IsOnline;
    if entries != [] { FullCountMeansEveryone(entries[..|entries| - 1], online, domain); }
  }

  /** In a furnished directory, over one view of the sessions, a pass leaves no room for a stranger: whatever the other
      inventories show, the connected ids are the directory's, and the validator agrees with the writer. */
  lemma OneViewLeavesNoStranger(cfg: P.Config, tree: D.Tree, x: Surfaces, domain: string, timedOut: bool)
    requires Furnished(cfg, tree) && ShowsDirectory(cfg, tree, x) && PlainSessions(x.connected)
    ensures var s := R.CollectSnapshot(cfg.agents, SourcesOf(x, domain));
      R.Evaluate(s, timedOut, []).status == R.Pass ==> R.ConnectedAreTheLdapIds(s)
  {
    hide R.Evaluate, R.CollectSnapshot, R.FirstIdentity, R.IsAgentNamed, R.NamedByAUser, Furnished, ShowsDirectory;
    var src := SourcesOf(x, domain);
    var s := R.CollectSnapshot(cfg.agents, src);
    if R.Evaluate(s, timedOut, []).status == R.Pass {
      R.PassMeansAligned(s, timedOut, []);
      EveryNameIsConnected(cfg, tree, x, domain, s);
      LdapListShowsTheNames(cfg, tree, x, domain, s);
      NamesAreMany(cfg.agents);
      CollectedIsCanonical(cfg.agents, src);
      SortedSize(s.connected);
      SubsetOfSameSize(AgentNames(cfg.agents), Elements(s.connected));
    }
  }

  lemma CollectedIsCanonical(n: nat, src: R.Sources)
    ensures R.Canonical(R.CollectSnapshot(n, src))
    ensures R.CollectSnapshot(n, src).dashboard == src.dashboard && R.CollectSnapshot(n, src).expectedAgents == n
  {
  }

  lemma LdapListShowsTheNames(cfg: P.Config, tree: D.Tree, x: Surfaces, domain: string, s: R.Snapshot)
    requires Furnished(cfg, tree) && ShowsDirectory(cfg, tree, x)
    requires s == R.CollectSnapshot(cfg.agents, SourcesOf(x, domain))
    ensures Elements(s.ldap) == AgentNames(cfg.agents)
  {
    hide AgentNames, Furnished, ShowsDirectory, R.Identities;
    var rows := R.DeviceRows(SourcesOf(x, domain));
    DeviceIds(cfg, tree, x, rows);
    SameElements(R.Identities(rows), AgentNames(cfg.agents));
  }

  lemma EveryNameIsConnected(cfg: P.Config, tree: D.Tree, x: Surfaces, domain: string, s: R.Snapshot)
    requires Furnished(cfg, tree) && ShowsDirectory(cfg, tree, x) && PlainSessions(x.connected)
    requires s == R.CollectSnapshot(cfg.agents, SourcesOf(x, domain)) && R.Aligned(s)
    ensures AgentNames(cfg.agents) <= Elements(s.connected)
  {
    hide R.CollectSnapshot, R.NamedByAUser, R.FirstIdentity, R.IsAgentNamed;
    hide X.IsOnline, X.IndexOf, AgentNames, Furnished;
    CollectedIsCanonical(cfg.agents, SourcesOf(x, domain));
    var online := X.IndexOf(Payload(x.connected));
    assert s.dashboard == R.Dashboard(Some(|x.entries|), Some(CountOnline(x.entries, online, domain)));
    FullCountMeansEveryone(x.entries, online, domain);
    forall name | name in AgentNames(cfg.agents) ensures name in s.connected {
      NameIsShown(cfg, tree, x, name);
      var i :| 0 <= i < |x.dns| && ShownName(cfg, x, i) == name;
      DeviceShowsAName(cfg, tree, x, i);
      CountedAgentIsConnected(x.connected, cfg.agents, name, domain);
      R.CollectedIds(cfg.agents, SourcesOf(x, domain), name);
    }
  }

  /** Beyond a hundred agents no collection passes: the agent list is one page. */
  lemma NoPassBeyondOnePage(expected: int, sources: R.Sources, rows: seq<R.DomainAgent>, answered: bool, timedOut: bool,
                            errors: seq<string>)
    requires expected > L.PAGE_SIZE && sources.agentList == L.AgentList(rows, answered)
    ensures R.Evaluate(R.CollectSnapshot(expected, sources), timedOut, errors).status == R.Fail
  {
    var s := R.CollectSnapshot(expected, sources);
    var ids := R.Identities(R.ListRows(sources));
    NoMoreElements(ids);
    SortedSize(s.domain);
    assert Elements(s.domain) == Elements(ids);
    R.PassMeansAligned(s, timedOut, errors);
  }

  lemma {:induction false} NoMoreElements(s: seq<string>)
    ensures |Elements(s)| <= |s|
  {
    if s != [] {
      NoMoreElements(s[1..]);
      assert s == [s[0]] + s[1..];
      assert Elements(s) == {s[0]} + Elements(s[1..]);
    }
  }
}
