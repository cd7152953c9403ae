/** The provisioning run: seeded users and groups, agent registration, endpoint groups, migration, verification. */
module Provisioner {
  import opened Text
  import opened Directory
  import opened GroupSeeding
  import opened Migration
  import W = Whereabouts

  datatype Config = Config(
    agents: nat, operators: nat, directoryUsers: nat, userGroups: nat, endpointGroups: nat,
    adminUid: string, agentPassword: string, baseDn: Dn,
    agentRoot: Dn, usersRoot: Dn, rolesRoot: Dn, groupsRoot: Dn, agentGroupsRoot: Dn)
  {
    function LegacyRoot(): Dn { ["ou=Agent", "ou=Groups"] + baseDn }

    /** The roots without which nothing is begun. */
    function CheckedRoots(): set<Dn> { {usersRoot, agentRoot, groupsRoot, agentGroupsRoot} }

    function Roots(): set<Dn> { {agentRoot, usersRoot, rolesRoot, groupsRoot, agentGroupsRoot} }
  }

  // ---- Seeds ---------------------------------------------------------------------------

  /** An entry to add unless it exists; an upsert also replaces the attributes of one that exists. */
  datatype Seed = Seed(dn: Dn, entry: Entry, upsert: bool)

  const OPERATOR_UIDS := ["", "ops-operator", "policy-operator"]
  const DIRECTORY_USER_ARCHETYPES := ["standard", "privileged", "restricted", "shared"]

  function OperatorUid(cfg: Config, index: nat): string
  {
    if index == 0 then cfg.adminUid
    else if index < |OPERATOR_UIDS| then OPERATOR_UIDS[index]
    else "operator-" + Padded(index + 1)
  }

  function DirectoryUserUid(index: nat): string
  {
    "user-" + DIRECTORY_USER_ARCHETYPES[index % 4] + "-" + Padded(index / 4 + 1)
  }

  function UserDn(cfg: Config, uid: string): Dn { ["uid=" + uid] + cfg.usersRoot }

  function UserSeed(cfg: Config, uid: string, privileges: set<string>): Seed
  {
    Seed(UserDn(cfg, uid),
         Entry({"inetOrgPerson", "organizationalPerson", "person", "pardusAccount", "pardusLider", "top"},
               map["uid" := {Plain(uid)}, "liderPrivilege" := set p | p in privileges :: Plain(p)]),
         false)
  }

  function Users(cfg: Config): seq<Seed>
  {
    seq(cfg.operators, i requires 0 <= i =>
      UserSeed(cfg, OperatorUid(cfg, i), if i == 0 then {"ROLE_ADMIN", "ROLE_USER"} else {"ROLE_USER"})) +
    seq(cfg.directoryUsers, i requires 0 <= i => UserSeed(cfg, DirectoryUserUid(i), {"ROLE_USER"}))
  }

  function OperatorDns(cfg: Config): seq<Dn>
  {
    seq(cfg.operators, i requires 0 <= i => UserDn(cfg, OperatorUid(cfg, i)))
  }

  function DirectoryUserDns(cfg: Config): seq<Dn>
  {
    seq(cfg.directoryUsers, i requires 0 <= i => UserDn(cfg, DirectoryUserUid(i)))
  }

  function DefaultMember(cfg: Config): Dn
  {
    if cfg.operators > 0 then UserDn(cfg, OperatorUid(cfg, 0)) else UserDn(cfg, cfg.adminUid)
  }

  function Members(dns: seq<Dn>): set<Value> { set d | d in dns :: Name(d) }

  function UserGroupSeed(g: GroupSpec): Seed
  {
    Seed(g.dn, Entry({"groupOfNames", "top"}, map["cn" := {Plain(g.cn)}, "member" := Members(g.members)]), true)
  }

  function EndpointGroupSeed(g: GroupSpec): Seed
  {
    var attributes := map["cn" := {Plain(g.cn)}, "member" := Members(g.members), "liderGroupType" := {Plain("AHENK")}];
    Seed(g.dn, Entry({"groupOfNames", "pardusDeviceGroup", "top"}, attributes), true)
  }

  function IdentitySeeds(cfg: Config): seq<Seed>
  {
    Users(cfg) + UserGroupSeeds(cfg)
  }

  function RoleSeeds(cfg: Config): seq<Seed>
  {
    var agentNames := set i | 1 <= i <= cfg.agents :: Plain(AgentName(i));
    var agentHosts := set i | 1 <= i <= cfg.agents :: Plain(AgentName(i) + "-host");
    var admins := if cfg.operators > 0 then OperatorDns(cfg) else [UserDn(cfg, cfg.adminUid)];
    [Seed(GroupDn("liderahenk", cfg.rolesRoot),
          Entry({"sudoRole", "top"},
                map["cn" := {Plain("liderahenk")}, "sudoUser" := agentNames, "sudoHost" := agentHosts,
                    "sudoCommand" := {Plain("ALL")}]), false),
     Seed(GroupDn("DomainAdmins", cfg.groupsRoot),
          Entry({"groupOfNames", "pardusLider", "top"},
                map["cn" := {Plain("DomainAdmins")}, "member" := Members(admins),
                    "liderPrivilege" := {Plain("ROLE_DOMAIN_ADMIN")}, "liderGroupType" := {Plain("USER")}]), true)]
  }

  function AgentSeed(cfg: Config, index: nat): Seed
  {
    var cn := AgentName(index);
    Seed(GroupDn(cn, cfg.agentRoot),
         Entry({"pardusDevice", "device"},
               map["cn" := {Plain(cn)}, "uid" := {Plain(cn)}, "userPassword" := {Plain(cfg.agentPassword)},
                   "owner" := {Name(UserDn(cfg, cfg.adminUid))}]), false)
  }

  function AgentSeeds(cfg: Config): (seeds: seq<Seed>)
    ensures |seeds| == cfg.agents && forall i | 0 <= i < |seeds| :: !seeds[i].upsert
  {
    seq(cfg.agents, i requires 0 <= i => AgentSeed(cfg, i + 1))
  }

  function EndpointSeeds(cfg: Config): seq<Seed>
  {
    var groups := EndpointGroups(AgentDns(cfg.agents, cfg.agentRoot), cfg.endpointGroups, cfg.agentGroupsRoot);
    seq(|groups|, i requires 0 <= i < |groups| => EndpointGroupSeed(groups[i]))
  }

  function Seeds(cfg: Config): seq<Seed>
  {
    IdentitySeeds(cfg) + RoleSeeds(cfg) + AgentSeeds(cfg) + EndpointSeeds(cfg)
  }

  // ---- Applying seeds ------------------------------------------------------------------

  function Changes(e: Entry): map<string, set<Value>> { e.attributes - {"cn"} }

  function ApplySeed(m: Tree, s: Seed): Answer
  {
    var added := Add(m, s.dn, s.entry);
    if added.code == ENTRY_ALREADY_EXISTS then
      if s.upsert then Replace(m, s.dn, Changes(s.entry)) else Answer(SUCCESS, m)
    else added
  }

  function ApplySeeds(m: Tree, seeds: seq<Seed>): Tree
  {
    if seeds == [] then m else ApplySeed(ApplySeeds(m, seeds[..|seeds| - 1]), seeds[|seeds| - 1]).tree
  }

  ghost predicate Placed(m: Tree, seeds: seq<Seed>)
  {
    forall s | s in seeds :: s.dn != [] && s.dn[1..] in m
  }

  /** The entry is there, and what the seed would write is what it holds. */
  ghost predicate Settled(m: Tree, s: Seed)
  {
    s.dn in m && (s.upsert ==> m[s.dn].attributes + Changes(s.entry) == m[s.dn].attributes)
  }

  /** The entry has every attribute of the seed but its name. */
  ghost predicate HoldsSeed(e: Entry, s: Seed)
  {
    forall a | a in s.entry.attributes && a != "cn" :: a in e.attributes && e.attributes[a] == s.entry.attributes[a]
  }

  /** The entry has what an earlier one had, apart from the attributes of the seed besides its name. */
  ghost predicate KeepsTheRest(e: Entry, earlier: Entry, s: Seed)
  {
    && e.classes == earlier.classes
    && (forall a | a in e.attributes && IsRest(a, s) ::
          a in earlier.attributes && e.attributes[a] == earlier.attributes[a])
    && (forall a | a in earlier.attributes && IsRest(a, s) :: a in e.attributes)
  }

  ghost predicate IsRest(a: string, s: Seed) { a !in s.entry.attributes || a == "cn" }

  ghost predicate DistinctUpserts(seeds: seq<Seed>)
  {
    forall i, j | 0 <= i < j < |seeds| && seeds[i].upsert && seeds[j].upsert :: seeds[i].dn != seeds[j].dn
  }

  lemma {:induction false} SeedingSettles(m: Tree, seeds: seq<Seed>)
    requires Placed(m, seeds) && DistinctUpserts(seeds)
    ensures m.Keys <= ApplySeeds(m, seeds).Keys
    ensures forall s | s in seeds :: Settled(ApplySeeds(m, seeds), s)
  {
    if seeds != [] {
      var k := |seeds| - 1;
      var front, last := seeds[..k], seeds[k];
      SeedingSettles(m, front);
      var before, after := ApplySeeds(m, front), ApplySeeds(m, seeds);
      assert last.dn != [] && last.dn[1..] in m;
      assert Settled(after, last);
      forall s | s in front ensures Settled(after, s) {
        assert Settled(before, s);
        var i :| 0 <= i < k && seeds[i] == s;
      }
    }
  }

  lemma {:induction false} SettledStays(m: Tree, seeds: seq<Seed>)
    requires forall s | s in seeds :: Settled(m, s)
    ensures ApplySeeds(m, seeds) == m
  {
    if seeds != [] {
      SettledStays(m, seeds[..|seeds| - 1]);
      var last := seeds[|seeds| - 1];
      assert Settled(m, last);
    }
  }

  // ---- The seeds are distinct ----------------------------------------------------------

  /** The fourth character of a seed's RDN tells what it is: users, agents, roles and the three sorts of groups differ.
      */
  ghost predicate Bears(s: Seed, letter: char, parent: Dn)
  {
    s.dn != [] && s.dn[1..] == parent && |s.dn[0]| > 3 && s.dn[0][3] == letter
  }

  lemma UsersBear(cfg: Config)
    ensures forall s | s in Users(cfg) :: Bears(s, '=', cfg.usersRoot) && !s.upsert && "device" !in s.entry.classes
  {
  }

  lemma AgentBears(cfg: Config, i: nat)
    ensures var s := AgentSeed(cfg, i);
      Bears(s, 'a', cfg.agentRoot) && !s.upsert && "device" in s.entry.classes
  {
    hide Padded;
    GroupLetter(AgentName(i), cfg.agentRoot, AgentSeed(cfg, i));
  }

  lemma AgentsBear(cfg: Config)
    ensures forall s | s in AgentSeeds(cfg) :: Bears(s, 'a', cfg.agentRoot) && !s.upsert && "device" in s.entry.classes
  {
    hide Bears, AgentSeed;
    forall s | s in AgentSeeds(cfg)
      ensures Bears(s, 'a', cfg.agentRoot) && !s.upsert && "device" in s.entry.classes
    {
      var i :| 0 <= i < cfg.agents && s == AgentSeed(cfg, i + 1);
      AgentBears(cfg, i + 1);
    }
  }

  function UserGroupSeeds(cfg: Config): seq<Seed>
  {
    var groups := UserGroups(DirectoryUserDns(cfg), DefaultMember(cfg), cfg.userGroups, cfg.groupsRoot);
    seq(|groups|, i requires 0 <= i < |groups| => UserGroupSeed(groups[i]))
  }

  lemma UserGroupsBear(cfg: Config)
    ensures forall s | s in UserGroupSeeds(cfg) :: Bears(s, 'u', cfg.groupsRoot) && "device" !in s.entry.classes
    ensures DistinctUpserts(UserGroupSeeds(cfg))
  {
    var seeds := UserGroupSeeds(cfg);
    forall i | 0 <= i < |seeds|
      ensures seeds[i].dn == GroupDn(UserGroupName(i), cfg.groupsRoot) && Bears(seeds[i], 'u', cfg.groupsRoot)
    {
      GroupLetter(UserGroupName(i), cfg.groupsRoot, seeds[i]);
    }
    forall i, j | 0 <= i < j < |seeds| ensures seeds[i].dn != seeds[j].dn {
      UserGroupNamesAreDistinct(i, j);
      GroupDnsDiffer(UserGroupName(i), UserGroupName(j), cfg.groupsRoot);
    }
  }

  lemma GroupLetter(cn: string, root: Dn, s: Seed)
    requires cn != "" && s.dn == GroupDn(cn, root)
    ensures Bears(s, cn[0], root)
  {
    assert s.dn[0] == "cn=" + cn;
  }

  lemma EndpointGroupBears(cfg: Config, i: nat, s: Seed)
    requires s.dn == GroupDn(EndpointGroupName(i), cfg.agentGroupsRoot)
    ensures Bears(s, 'e', cfg.agentGroupsRoot)
  {
    assert EndpointGroupName(i)[0] == EndpointGroupName(i)[..3][0];
    GroupLetter(EndpointGroupName(i), cfg.agentGroupsRoot, s);
  }

  lemma EndpointGroupsBear(cfg: Config)
    ensures forall s | s in EndpointSeeds(cfg) :: Bears(s, 'e', cfg.agentGroupsRoot) && "device" !in s.entry.classes
    ensures DistinctUpserts(EndpointSeeds(cfg))
  {
    hide Bears, EndpointGroupName, GroupDn;
    var seeds := EndpointSeeds(cfg);
    forall i | 0 <= i < |seeds|
      ensures seeds[i].dn == GroupDn(EndpointGroupName(i), cfg.agentGroupsRoot) &&
        Bears(seeds[i], 'e', cfg.agentGroupsRoot)
    {
      EndpointGroupBears(cfg, i, seeds[i]);
    }
    forall i, j | 0 <= i < j < |seeds| ensures seeds[i].dn != seeds[j].dn {
      EndpointGroupNamesAreDistinct(i, j);
      GroupDnsDiffer(EndpointGroupName(i), EndpointGroupName(j), cfg.agentGroupsRoot);
    }
  }

  lemma RolesBear(cfg: Config)
    ensures |RoleSeeds(cfg)| == 2 && Bears(RoleSeeds(cfg)[0], 'l', cfg.rolesRoot) && !RoleSeeds(cfg)[0].upsert
    ensures Bears(RoleSeeds(cfg)[1], 'D', cfg.groupsRoot)
    ensures forall s | s in RoleSeeds(cfg) :: "device" !in s.entry.classes
  {
    GroupLetter("liderahenk", cfg.rolesRoot, RoleSeeds(cfg)[0]);
    GroupLetter("DomainAdmins", cfg.groupsRoot, RoleSeeds(cfg)[1]);
  }

  function Letter(s: Seed): char { if s.dn != [] && |s.dn[0]| > 3 then s.dn[0][3] else ' ' }

  ghost predicate UpsertLetters(seeds: seq<Seed>, letters: set<char>)
  {
    forall s | s in seeds && s.upsert :: Letter(s) in letters
  }

  lemma UpsertsOf(a: seq<Seed>, x: set<char>, b: seq<Seed>, y: set<char>)
    requires DistinctUpserts(a) && DistinctUpserts(b) && UpsertLetters(a, x) && UpsertLetters(b, y) && x !! y
    ensures DistinctUpserts(a + b) && UpsertLetters(a + b, x + y)
  {
    var c := a + b;
    forall i, j | 0 <= i < j < |c| && c[i].upsert && c[j].upsert ensures c[i].dn != c[j].dn {
      if i < |a| <= j {
        assert c[i] in a && c[j] in b;
        assert Letter(c[i]) in x && Letter(c[j]) in y;
      }
    }
  }

  lemma SeedsBearTheirLetters(cfg: Config)
    ensures DistinctUpserts(Users(cfg)) && UpsertLetters(Users(cfg), {})
    ensures DistinctUpserts(UserGroupSeeds(cfg)) && UpsertLetters(UserGroupSeeds(cfg), {'u'})
    ensures DistinctUpserts(RoleSeeds(cfg)) && UpsertLetters(RoleSeeds(cfg), {'D'})
    ensures DistinctUpserts(AgentSeeds(cfg)) && UpsertLetters(AgentSeeds(cfg), {})
    ensures DistinctUpserts(EndpointSeeds(cfg)) && UpsertLetters(EndpointSeeds(cfg), {'e'})
  {
    hide Users, UserGroupSeeds, RoleSeeds, AgentSeeds, EndpointSeeds;
    UsersBear(cfg);
    UserGroupsBear(cfg);
    RolesBear(cfg);
    AgentsBear(cfg);
    EndpointGroupsBear(cfg);
  }

  lemma SeedsAreDistinct(cfg: Config)
    ensures DistinctUpserts(Seeds(cfg))
  {
    hide DistinctUpserts, UpsertLetters;
    SeedsBearTheirLetters(cfg);
    UpsertsOf(Users(cfg), {}, UserGroupSeeds(cfg), {'u'});
    UpsertsOf(IdentitySeeds(cfg), {'u'}, RoleSeeds(cfg), {'D'});
    UpsertsOf(IdentitySeeds(cfg) + RoleSeeds(cfg), {'u', 'D'}, AgentSeeds(cfg), {});
    UpsertsOf(IdentitySeeds(cfg) + RoleSeeds(cfg) + AgentSeeds(cfg), {'u', 'D'}, EndpointSeeds(cfg), {'e'});
  }

  // ---- The directory after a run -------------------------------------------------------

  /** The roots the directory initialisation owns are there. */
  ghost predicate Rooted(cfg: Config, m: Tree) { cfg.Roots() <= m.Keys }

  /** No root lies under the legacy root, unless that is itself the root for agent groups. */
  ghost predicate Separate(cfg: Config)
  {
    cfg.LegacyRoot() == cfg.agentGroupsRoot || forall r | r in cfg.Roots() :: !Under(r, cfg.LegacyRoot())
  }

  const SEED_LETTERS: set<char> := {'=', 'a', 'u', 'e', 'l', 'D'}

  ghost predicate WellPlaced(cfg: Config, s: Seed)
  {
    s.dn != [] && s.dn[1..] in cfg.Roots() && Letter(s) in SEED_LETTERS
  }

  lemma EverySeedIsWellPlaced(cfg: Config)
    ensures forall s | s in Seeds(cfg) :: WellPlaced(cfg, s)
  {
    UsersBear(cfg);
    UserGroupsBear(cfg);
    RolesBear(cfg);
    AgentsBear(cfg);
    EndpointGroupsBear(cfg);
  }

  lemma NotBelowLegacy(dn: Dn, legacy: Dn)
    requires dn != [] && |dn[0]| > 3 && dn[0][3] != 'A' && !Under(dn[1..], legacy)
    requires legacy != [] && legacy[0] == "ou=Agent"
    ensures !Under(dn, legacy)
  {
    assert "ou=Agent"[3] == 'A';
    if |legacy| < |dn| {
      assert dn[1..][|dn| - 1 - |legacy|..] == dn[|dn| - |legacy|..];
    }
    if |legacy| == |dn| { assert dn[0..] == dn; }
  }

  lemma SeedIsOutsideTheLegacyRoot(cfg: Config, s: Seed)
    requires Separate(cfg) && WellPlaced(cfg, s)
    ensures Unaffected(cfg, s.dn)
  {
    if cfg.LegacyRoot() != cfg.agentGroupsRoot { NotBelowLegacy(s.dn, cfg.LegacyRoot()); }
  }

  /** A name the migration leaves alone. */
  ghost predicate Unaffected(cfg: Config, d: Dn)
  {
    cfg.LegacyRoot() == cfg.agentGroupsRoot || !Under(d, cfg.LegacyRoot())
  }

  /** The directory after a run without faults; `order` is how the server listed the legacy children. */
  function Provisioned(cfg: Config, m: Tree, order: seq<Dn>): Tree
    requires Proper(order)
  {
    Migrated(ApplySeeds(m, Seeds(cfg)), cfg.LegacyRoot(), cfg.agentGroupsRoot, order)
  }

  ghost predicate IsOrder(cfg: Config, m: Tree, order: seq<Dn>)
  {
    && Proper(order)
    && (cfg.LegacyRoot() != cfg.agentGroupsRoot ==> ListsIfPresent(order, ApplySeeds(m, Seeds(cfg)), cfg.LegacyRoot()))
  }

  lemma {:induction false} SeedingKeepsTheTree(m: Tree, seeds: seq<Seed>, base: Dn)
    requires IsTree(m, base)
    ensures IsTree(ApplySeeds(m, seeds), base)
  {
    hide IsTree, Add, Replace;
    if seeds != [] {
      var before, s := ApplySeeds(m, seeds[..|seeds| - 1]), seeds[|seeds| - 1];
      SeedingKeepsTheTree(m, seeds[..|seeds| - 1], base);
      AddInWords(before, base, s.dn, s.entry);
      ReplaceInWords(before, base, s.dn, Changes(s.entry));
    }
  }

  /** A run leaves a directory information tree, in which every entry has its superior. */
  lemma RunKeepsTheTree(cfg: Config, m: Tree, order: seq<Dn>, base: Dn)
    requires IsTree(m, base) && cfg.LegacyRoot() != base && IsOrder(cfg, m, order)
    ensures IsTree(Provisioned(cfg, m, order), base)
  {
    hide IsTree, Seeds;
    var seeded, legacy := ApplySeeds(m, Seeds(cfg)), cfg.LegacyRoot();
    SeedingKeepsTheTree(m, Seeds(cfg), base);
    if legacy != cfg.agentGroupsRoot && legacy in seeded {
      forall i | 0 <= i < |order| ensures order[i] in seeded && IsChild(order[i], legacy) { assert order[i] in order; }
      MigrationKeepsTheTree(seeded, legacy, cfg.agentGroupsRoot, order, Willing(|order|), false, base);
    }
  }

  lemma SeedsArePlaced(cfg: Config, m: Tree)
    requires Rooted(cfg, m)
    ensures Placed(m, Seeds(cfg))
  {
    EverySeedIsWellPlaced(cfg);
  }

  lemma MigrationIsLocalAt(cfg: Config, m: Tree, order: seq<Dn>, d: Dn)
    requires IsOrder(cfg, m, order) && Unaffected(cfg, d)
    ensures var seeded, after := ApplySeeds(m, Seeds(cfg)), Provisioned(cfg, m, order);
      && (d in seeded ==> d in after && after[d] == seeded[d])
      && (!Under(d, cfg.agentGroupsRoot) ==> d in after ==> d in seeded)
  {
    hide ApplySeeds, Seeds;
    if cfg.LegacyRoot() != cfg.agentGroupsRoot {
      MigrationIsLocal(ApplySeeds(m, Seeds(cfg)), cfg.LegacyRoot(), cfg.agentGroupsRoot, order, d);
    }
  }

  /** Roots that are not below the legacy root are there after a run. */
  lemma SeparateRootsStay(cfg: Config, m: Tree, order: seq<Dn>)
    requires Rooted(cfg, m) && Separate(cfg) && IsOrder(cfg, m, order)
    ensures Rooted(cfg, Provisioned(cfg, m, order))
  {
    hide ApplySeeds, Seeds, Provisioned;
    SeedsArePlaced(cfg, m);
    SeedsAreDistinct(cfg);
    SeedingSettles(m, Seeds(cfg));
    forall r | r in cfg.Roots() ensures r in Provisioned(cfg, m, order) {
      assert Unaffected(cfg, r);
      MigrationIsLocalAt(cfg, m, order, r);
    }
  }

  /** A seed that became a child of the legacy root, which stays, and went from there to the root for agent groups. */
  ghost predicate Returning(cfg: Config, x: Tree, s: Seed)
  {
    && cfg.LegacyRoot() in x && cfg.LegacyRoot() != cfg.agentGroupsRoot
    && IsChild(s.dn, cfg.LegacyRoot()) && s.dn !in x && Gone(x, s.dn, cfg.agentGroupsRoot)
  }

  lemma SeedBelowLegacy(cfg: Config, seeded: Tree, order: seq<Dn>, s: Seed)
    requires Proper(order) && Lists(order, seeded, cfg.LegacyRoot()) && cfg.LegacyRoot() in seeded
    requires cfg.LegacyRoot() != cfg.agentGroupsRoot && WellPlaced(cfg, s) && Under(s.dn, cfg.LegacyRoot())
    requires s.dn in seeded
    requires var x := Migrated(seeded, cfg.LegacyRoot(), cfg.agentGroupsRoot, order); s.dn[1..] in x
    ensures var x := Migrated(seeded, cfg.LegacyRoot(), cfg.agentGroupsRoot, order);
      (s.dn in x && x[s.dn] == seeded[s.dn]) || Returning(cfg, x, s)
  {
    hide ChildSteps, ChildStep, Gone, Vacant, IsLeaf, Letter;
    var legacy, root, willing := cfg.LegacyRoot(), cfg.agentGroupsRoot, Willing(|order|);
    var t := ChildSteps(seeded, order, root, willing).tree;
    ListedAreSiblings(order, seeded, legacy);
    EveryChildIsResolved(seeded, order, legacy, root, willing);
    SeedIsNotTheLegacyRoot(cfg, s);
    assert s.dn[0..] == s.dn && s.dn[1..][|s.dn| - 1 - |legacy|..] == legacy;
    if s.dn[1..] == legacy {
      assert IsChild(s.dn, legacy) && s.dn in order;
      var i :| 0 <= i < |order| && order[i] == s.dn;
      assert Resolved(seeded, t, order[i], root);
      if s.dn in t { ParentHasNotGone(t, s.dn, s.dn, root); }
    } else if i :| 0 <= i < |order| && Under(s.dn, order[i]) {
      assert Under(s.dn[1..], order[i]) by { assert s.dn[1..][|s.dn| - 1 - |order[i]|..] == order[i]; }
      assert Resolved(seeded, t, order[i], root);
      ParentHasNotGone(t, order[i], s.dn[1..], root);
    } else {
      ApartStays(seeded, order, root, willing, s.dn);
    }
  }

  lemma ParentHasNotGone(t: Tree, child: Dn, d: Dn, root: Dn)
    requires child != [] && d in t && Under(d, child)
    ensures !Gone(t, child, root)
  {
  }

  lemma SeedIsNotTheLegacyRoot(cfg: Config, s: Seed)
    requires WellPlaced(cfg, s)
    ensures s.dn != cfg.LegacyRoot()
  {
    assert cfg.LegacyRoot()[0] == "ou=Agent" && "ou=Agent"[3] == 'A';
  }

  /** If the roots are there after a run, every seed is settled, or a next run would add and remove it again. */
  lemma RunSettlesSeeds(cfg: Config, m: Tree, order: seq<Dn>)
    requires Rooted(cfg, m) && IsOrder(cfg, m, order) && Rooted(cfg, Provisioned(cfg, m, order))
    ensures forall s | s in Seeds(cfg) ::
      Settled(Provisioned(cfg, m, order), s) || Returning(cfg, Provisioned(cfg, m, order), s)
  {
    hide ApplySeeds, Seeds, Returning, Migrated;
    var seeded := ApplySeeds(m, Seeds(cfg));
    SeedsArePlaced(cfg, m);
    SeedsAreDistinct(cfg);
    SeedingSettles(m, Seeds(cfg));
    EverySeedIsWellPlaced(cfg);
    forall s | s in Seeds(cfg)
      ensures Settled(Provisioned(cfg, m, order), s) || Returning(cfg, Provisioned(cfg, m, order), s)
    {
      assert Settled(seeded, s) && WellPlaced(cfg, s);
      if Unaffected(cfg, s.dn) {
        MigrationIsLocalAt(cfg, m, order, s.dn);
      } else if cfg.LegacyRoot() in seeded {
        SeedBelowLegacy(cfg, seeded, order, s);
      } else {
        NothingToMigrate(seeded, cfg.LegacyRoot(), cfg.agentGroupsRoot, order);
      }
    }
  }

  lemma NothingToMigrate(m: Tree, legacy: Dn, root: Dn, order: seq<Dn>)
    requires Proper(order)
    ensures legacy == root || legacy !in m ==> Migrated(m, legacy, root, order) == m
  {
  }

  lemma ReseedingStep(cfg: Config, x: Tree, y: Tree, s: Seed)
    requires Extends(x, y, cfg.LegacyRoot(), cfg.agentGroupsRoot) && (Settled(x, s) || Returning(cfg, x, s))
    ensures Extends(x, ApplySeed(y, s).tree, cfg.LegacyRoot(), cfg.agentGroupsRoot)
  {
    hide Gone, IsChild;
  }

  lemma {:induction false} ReseedingExtends(cfg: Config, x: Tree, seeds: seq<Seed>)
    requires forall s | s in seeds :: Settled(x, s) || Returning(cfg, x, s)
    ensures Extends(x, ApplySeeds(x, seeds), cfg.LegacyRoot(), cfg.agentGroupsRoot)
  {
    hide ApplySeed, Settled, Returning;
    if seeds != [] {
      ReseedingExtends(cfg, x, seeds[..|seeds| - 1]);
      assert seeds[|seeds| - 1] in seeds;
      ReseedingStep(cfg, x, ApplySeeds(x, seeds[..|seeds| - 1]), seeds[|seeds| - 1]);
    }
  }

  /** A second run with the same configuration that finds its roots leaves the directory as the first one left it. */
  lemma ProvisioningIsIdempotent(cfg: Config, m: Tree, order: seq<Dn>, again: seq<Dn>)
    requires Rooted(cfg, m) && IsOrder(cfg, m, order) && Rooted(cfg, Provisioned(cfg, m, order))
    requires IsOrder(cfg, Provisioned(cfg, m, order), again)
    ensures Provisioned(cfg, Provisioned(cfg, m, order), again) == Provisioned(cfg, m, order)
  {
    hide ApplySeeds, Seeds, Settled, Migrated, Stuck, Rooted, IsLeaf;
    var once, seeded := Provisioned(cfg, m, order), ApplySeeds(m, Seeds(cfg));
    var legacy, root := cfg.LegacyRoot(), cfg.agentGroupsRoot;
    RunSettlesSeeds(cfg, m, order);
    if legacy in once && legacy != root {
      ReseedingExtends(cfg, once, Seeds(cfg));
      RootsOfRun(cfg, m);
      RootsOfRun(cfg, once);
      NothingToMigrate(seeded, legacy, root, order);
      LegacyWasThere(cfg, m, order);
      WhatIsLeftIsStuck(seeded, legacy, root, order);
      MigrationAbsorbs(once, ApplySeeds(once, Seeds(cfg)), again, legacy, root);
    } else {
      SettledStays(once, Seeds(cfg));
      NothingToMigrate(once, legacy, root, again);
    }
  }

  lemma RootsOfRun(cfg: Config, m: Tree)
    requires Rooted(cfg, m)
    ensures cfg.agentGroupsRoot in m && cfg.agentGroupsRoot in ApplySeeds(m, Seeds(cfg))
  {
    hide ApplySeeds, Seeds;
    KeysGrow(m, Seeds(cfg));
  }

  /** A migration brings no legacy root into being. */
  lemma LegacyWasThere(cfg: Config, m: Tree, order: seq<Dn>)
    requires Proper(order) && cfg.LegacyRoot() in Provisioned(cfg, m, order)
    ensures cfg.LegacyRoot() in ApplySeeds(m, Seeds(cfg))
  {
    hide ApplySeeds, Seeds;
    NothingToMigrate(ApplySeeds(m, Seeds(cfg)), cfg.LegacyRoot(), cfg.agentGroupsRoot, order);
  }

  // ---- Devices -------------------------------------------------------------------------

  function Devices(m: Tree, root: Dn): set<Dn>
  {
    set d | d in m && Under(d, root) && "device" in m[d].classes
  }

  ghost function GeneratedDns(cfg: Config): set<Dn> { AgentDnSet(cfg.agentRoot, cfg.agents) }

  ghost function AgentDnSet(root: Dn, n: nat): set<Dn> { set i | 1 <= i <= n :: GroupDn(AgentName(i), root) }

  lemma OneMoreDn(root: Dn, n: nat)
    requires n > 0
    ensures AgentDnSet(root, n) == AgentDnSet(root, n - 1) + {GroupDn(AgentName(n), root)}
    ensures GroupDn(AgentName(n), root) !in AgentDnSet(root, n - 1)
  {
    hide AgentName, GroupDn;
    forall i | 1 <= i <= n - 1 ensures GroupDn(AgentName(i), root) != GroupDn(AgentName(n), root) {
      AgentNamesAreDistinct(i, n);
      GroupDnsDiffer(AgentName(i), AgentName(n), root);
    }
  }

  lemma NoDns(root: Dn)
    ensures AgentDnSet(root, 0) == {}
  {
  }

  lemma {:induction false} GeneratedDnsAreDistinct(root: Dn, n: nat)
    ensures |AgentDnSet(root, n)| == n
  {
    hide AgentDnSet;
    if n == 0 {
      NoDns(root);
    } else {
      GeneratedDnsAreDistinct(root, n - 1);
      OneMoreDn(root, n);
    }
  }

  ghost predicate Seeded(seeds: seq<Seed>, d: Dn) { exists s :: s in seeds && s.dn == d }

  lemma SeedAddsADevice(m: Tree, s: Seed, root: Dn, d: Dn, device: bool)
    requires s.dn != [] && s.dn[1..] in m
    requires s.dn == d ==> ("device" in s.entry.classes <==> device)
    requires device ==> Under(d, root)
    ensures d in ApplySeed(m, s).tree <==> d in m || s.dn == d
    ensures d in Devices(ApplySeed(m, s).tree, root) <==> d in Devices(m, root) || (device && d !in m && s.dn == d)
    ensures m.Keys <= ApplySeed(m, s).tree.Keys
  {
  }

  /** A seeded name that was free is a device afterwards if its seeds say so; nothing else becomes or ceases to be one.
      */
  lemma {:induction false} SeedingAddsDevices(m: Tree, seeds: seq<Seed>, root: Dn, d: Dn, device: bool)
    requires Placed(m, seeds)
    requires forall s | s in seeds && s.dn == d :: "device" in s.entry.classes <==> device
    requires device ==> Under(d, root)
    ensures d in ApplySeeds(m, seeds) <==> d in m || Seeded(seeds, d)
    ensures d in Devices(ApplySeeds(m, seeds), root) <==>
      d in Devices(m, root) || (device && d !in m && Seeded(seeds, d))
    ensures m.Keys <= ApplySeeds(m, seeds).Keys
  {
    hide ApplySeed, Devices;
    if seeds != [] {
      var k := |seeds| - 1;
      var front, last := seeds[..k], seeds[k];
      SeedingAddsDevices(m, front, root, d, device);
      assert last in seeds && last.dn[1..] in m;
      SeedAddsADevice(ApplySeeds(m, front), last, root, d, device);
      assert Seeded(seeds, d) <==> last.dn == d || Seeded(front, d);
    }
  }

  ghost predicate NoDevicesBelow(m: Tree, base: Dn) { forall d | d in m && Under(d, base) :: "device" !in m[d].classes }

  /** The migration has no device to move under or from the agent root: there is nothing to migrate, or the agent root
      is not below the legacy root, and either there is no device below that or the three roots are not nested. */
  ghost predicate AgentsUndisturbed(cfg: Config, m: Tree)
  {
    cfg.LegacyRoot() == cfg.agentGroupsRoot ||
    (&& !Under(cfg.agentRoot, cfg.LegacyRoot())
     && (NoDevicesBelow(m, cfg.LegacyRoot()) || AgentsApart(cfg)))
  }

  /** The agent root, the new and the legacy group root are not nested. */
  ghost predicate AgentsApart(cfg: Config)
  {
    && !Under(cfg.agentGroupsRoot, cfg.agentRoot) && !Under(cfg.agentRoot, cfg.agentGroupsRoot)
    && !Under(cfg.LegacyRoot(), cfg.agentRoot)
  }

  ghost predicate AgentOrOther(cfg: Config, s: Seed)
  {
    if "device" in s.entry.classes then s.dn in GeneratedDns(cfg) else Letter(s) != 'a'
  }

  lemma AgentSeedsAreGenerated(cfg: Config)
    ensures forall s | s in AgentSeeds(cfg) :: AgentOrOther(cfg, s)
  {
    forall s | s in AgentSeeds(cfg) ensures "device" in s.entry.classes && s.dn in GeneratedDns(cfg) {
      var i :| 0 <= i < cfg.agents && s == AgentSeed(cfg, i + 1);
      assert s.dn == GroupDn(AgentName(i + 1), cfg.agentRoot);
    }
  }

  lemma OtherSeedsAreOther(cfg: Config)
    ensures forall s | s in IdentitySeeds(cfg) :: AgentOrOther(cfg, s)
    ensures forall s | s in RoleSeeds(cfg) :: AgentOrOther(cfg, s)
    ensures forall s | s in EndpointSeeds(cfg) :: AgentOrOther(cfg, s)
  {
    UsersBear(cfg);
    UserGroupsBear(cfg);
    RolesBear(cfg);
    EndpointGroupsBear(cfg);
  }

  lemma EverySeedIsAgentOrOther(cfg: Config, s: Seed)
    requires s in Seeds(cfg)
    ensures AgentOrOther(cfg, s)
  {
    AgentSeedsAreGenerated(cfg);
    OtherSeedsAreOther(cfg);
  }

  lemma DeviceSeeds(cfg: Config, s: Seed)
    requires AgentOrOther(cfg, s)
    ensures "device" in s.entry.classes <==> s.dn in GeneratedDns(cfg)
  {
    if s.dn in GeneratedDns(cfg) {
      var i :| 1 <= i <= cfg.agents && s.dn == GroupDn(AgentName(i), cfg.agentRoot);
      assert s.dn[0] == "cn=" + ("ahenk-" + Padded(i));
      assert Letter(s) == 'a';
    }
  }

  lemma EveryAgentIsSeeded(cfg: Config, d: Dn)
    requires d in GeneratedDns(cfg)
    ensures Seeded(Seeds(cfg), d) && Under(d, cfg.agentRoot)
  {
    var i :| 1 <= i <= cfg.agents && d == GroupDn(AgentName(i), cfg.agentRoot);
    assert AgentSeeds(cfg)[i - 1].dn == d && AgentSeeds(cfg)[i - 1] in Seeds(cfg);
    assert d[1..] == cfg.agentRoot;
  }

  lemma DevicesAfterSeeding(cfg: Config, m: Tree, base: Dn)
    requires Rooted(cfg, m) && Under(cfg.agentRoot, base)
    ensures Devices(ApplySeeds(m, Seeds(cfg)), base) == Devices(m, base) + (GeneratedDns(cfg) - m.Keys)
  {
    SeedsArePlaced(cfg, m);
    forall d ensures d in Devices(ApplySeeds(m, Seeds(cfg)), base) <==>
      d in Devices(m, base) || d in GeneratedDns(cfg) - m.Keys
    {
      forall s | s in Seeds(cfg) && s.dn == d ensures "device" in s.entry.classes <==> d in GeneratedDns(cfg) {
        EverySeedIsAgentOrOther(cfg, s);
        DeviceSeeds(cfg, s);
      }
      if d in GeneratedDns(cfg) {
        EveryAgentIsSeeded(cfg, d);
        UnderIsTransitive(d, cfg.agentRoot, base);
      }
      SeedingAddsDevices(m, Seeds(cfg), base, d, d in GeneratedDns(cfg));
    }
  }

  lemma BasesNest(d: Dn, a: Dn, b: Dn)
    requires Under(d, a) && Under(d, b)
    ensures Under(a, b) || Under(b, a)
  {
    if |a| <= |b| { BasesOfOneNameNest(d, a, b); } else { BasesOfOneNameNest(d, b, a); }
  }

  lemma AgentRootIsUnaffected(cfg: Config, d: Dn)
    requires cfg.LegacyRoot() != cfg.agentGroupsRoot && !Under(cfg.agentRoot, cfg.LegacyRoot()) && AgentsApart(cfg)
    requires Under(d, cfg.agentRoot)
    ensures Unaffected(cfg, d) && !Under(d, cfg.agentGroupsRoot)
  {
    if Under(d, cfg.LegacyRoot()) { BasesNest(d, cfg.LegacyRoot(), cfg.agentRoot); }
    if Under(d, cfg.agentGroupsRoot) { BasesNest(d, cfg.agentGroupsRoot, cfg.agentRoot); }
  }

  lemma AgentIsNotBelowLegacy(cfg: Config, d: Dn)
    requires !Under(cfg.agentRoot, cfg.LegacyRoot()) && d in GeneratedDns(cfg)
    ensures !Under(d, cfg.LegacyRoot())
  {
    var i :| 1 <= i <= cfg.agents && d == GroupDn(AgentName(i), cfg.agentRoot);
    assert d[0] == "cn=" + ("ahenk-" + Padded(i)) && d[0][3] == 'a' && d[1..] == cfg.agentRoot;
    NotBelowLegacy(d, cfg.LegacyRoot());
  }

  /** Seeding adds no device below the legacy root. */
  lemma NoDevicesSeededBelow(cfg: Config, m: Tree)
    requires Rooted(cfg, m) && !Under(cfg.agentRoot, cfg.LegacyRoot()) && NoDevicesBelow(m, cfg.LegacyRoot())
    ensures NoDevicesBelow(ApplySeeds(m, Seeds(cfg)), cfg.LegacyRoot())
  {
    hide ApplySeeds, Seeds, GeneratedDns;
    SeedsArePlaced(cfg, m);
    var seeded := ApplySeeds(m, Seeds(cfg));
    forall d | d in seeded && Under(d, cfg.LegacyRoot()) ensures "device" !in seeded[d].classes {
      if d in GeneratedDns(cfg) { AgentIsNotBelowLegacy(cfg, d); }
      forall s | s in Seeds(cfg) && s.dn == d ensures "device" !in s.entry.classes {
        EverySeedIsAgentOrOther(cfg, s);
        DeviceSeeds(cfg, s);
      }
      SeedingAddsDevices(m, Seeds(cfg), cfg.LegacyRoot(), d, false);
      assert d !in Devices(m, cfg.LegacyRoot());
    }
  }

  lemma DevicesStay(cfg: Config, m: Tree, order: seq<Dn>, d: Dn)
    requires IsOrder(cfg, m, order) && Under(d, cfg.agentRoot) && cfg.LegacyRoot() != cfg.agentGroupsRoot
    requires NoDevicesBelow(ApplySeeds(m, Seeds(cfg)), cfg.LegacyRoot())
    ensures d in Devices(Provisioned(cfg, m, order), cfg.agentRoot) <==>
      d in Devices(ApplySeeds(m, Seeds(cfg)), cfg.agentRoot)
  {
    hide ApplySeeds, Seeds;
    var seeded, after := ApplySeeds(m, Seeds(cfg)), Provisioned(cfg, m, order);
    var legacy, root := cfg.LegacyRoot(), cfg.agentGroupsRoot;
    if d in seeded && "device" in seeded[d].classes {
      assert Unaffected(cfg, d);
      MigrationIsLocalAt(cfg, m, order, d);
    } else if d in after && legacy in seeded {
      ListedAreSiblings(order, seeded, legacy);
      EveryEntryCameFrom(seeded, order, legacy, root, Willing(|order|));
      assert d in ChildSteps(seeded, order, root, Willing(|order|)).tree;
    }
  }

  /** Where the migration moves no device, a run adds the generated names that were free, and no more. */
  lemma UndisturbedDevices(cfg: Config, m: Tree, order: seq<Dn>)
    requires Rooted(cfg, m) && AgentsUndisturbed(cfg, m) && IsOrder(cfg, m, order)
    ensures Devices(Provisioned(cfg, m, order), cfg.agentRoot)
         == Devices(m, cfg.agentRoot) + (GeneratedDns(cfg) - m.Keys)
  {
    hide ApplySeeds, Seeds, Provisioned, AgentsApart, GeneratedDns, NoDevicesBelow;
    DevicesAfterSeeding(cfg, m, cfg.agentRoot);
    var seeded, after := ApplySeeds(m, Seeds(cfg)), Provisioned(cfg, m, order);
    if cfg.LegacyRoot() == cfg.agentGroupsRoot {
      NothingMoves(cfg, m, order);
    } else {
      forall d ensures d in Devices(after, cfg.agentRoot) <==> d in Devices(seeded, cfg.agentRoot) {
        if Under(d, cfg.agentRoot) {
          if AgentsApart(cfg) {
            AgentRootIsUnaffected(cfg, d);
            MigrationIsLocalAt(cfg, m, order, d);
          } else {
            NoDevicesSeededBelow(cfg, m);
            DevicesStay(cfg, m, order, d);
          }
        }
      }
    }
  }

  lemma NothingMoves(cfg: Config, m: Tree, order: seq<Dn>)
    requires Proper(order) && cfg.LegacyRoot() == cfg.agentGroupsRoot
    ensures Provisioned(cfg, m, order) == ApplySeeds(m, Seeds(cfg))
  {
  }

  // ---- Where the devices land ----------------------------------------------------------

  /** Where a run leaves what the seeded directory has under this name. */
  ghost function Lands(cfg: Config, m: Tree, d: Dn): Option<Dn>
  {
    W.Place(ApplySeeds(m, Seeds(cfg)), cfg.LegacyRoot(), cfg.agentGroupsRoot, d)
  }

  /** The devices there are before the migration, wherever they are: those of `m` and the generated names that were
      free. */
  ghost function DevicesEverywhere(cfg: Config, m: Tree): set<Dn> { Devices(m, []) + (GeneratedDns(cfg) - m.Keys) }

  ghost predicate LandsBelowAgents(cfg: Config, m: Tree, d: Dn)
  {
    Lands(cfg, m, d).Some? && Under(Lands(cfg, m, d).value, cfg.agentRoot)
  }

  /** Those of them that the run leaves under the agent root. */
  ghost function Landing(cfg: Config, m: Tree): set<Dn>
  {
    set d | d in DevicesEverywhere(cfg, m) && LandsBelowAgents(cfg, m, d)
  }

  lemma AllDevicesOnceSeeded(cfg: Config, m: Tree)
    requires Rooted(cfg, m)
    ensures DevicesEverywhere(cfg, m) == Devices(ApplySeeds(m, Seeds(cfg)), [])
  {
    hide Devices, GeneratedDns, ApplySeeds, Seeds, Rooted;
    assert Under(cfg.agentRoot, []);
    DevicesAfterSeeding(cfg, m, []);
  }

  /** A device is under the agent root after a run exactly if it landed there. */
  lemma DevicesHaveLanded(cfg: Config, m: Tree, order: seq<Dn>, e: Dn)
    requires Rooted(cfg, m) && IsOrder(cfg, m, order)
    ensures e in Devices(Provisioned(cfg, m, order), cfg.agentRoot) <==>
      exists d :: d in Landing(cfg, m) && Lands(cfg, m, d) == Some(e)
  {
    hide ApplySeeds, Seeds, GeneratedDns, Migrated, Rooted, W.Movers, W.Ends, W.EndsAt, DevicesEverywhere;
    var seeded, after := ApplySeeds(m, Seeds(cfg)), Provisioned(cfg, m, order);
    AllDevicesOnceSeeded(cfg, m);
    var legacy, root := cfg.LegacyRoot(), cfg.agentGroupsRoot;
    W.WillingMigrationKeeps(seeded, legacy, root, order);
    if e in Devices(after, cfg.agentRoot) {
      var d := W.Origin(seeded, after, W.Movers(seeded, legacy, root), W.Ends(seeded, legacy, root), legacy, root, e);
      assert Under(d, []) && d in Devices(seeded, []);
      assert Lands(cfg, m, d) == Some(e) && LandsBelowAgents(cfg, m, d);
    }
  }

  lemma {:induction false} InjectiveMap(f: map<Dn, Dn>)
    requires forall x, y | x in f && y in f && f[x] == f[y] :: x == y
    ensures |f.Values| == |f.Keys|
    decreases |f|
  {
    if f.Keys != {} {
      var x :| x in f;
      var g := f - {x};
      assert f.Keys == g.Keys + {x};
      forall v | v in f.Values ensures v in g.Values + {f[x]} {
        var k :| k in f && f[k] == v;
        if k != x { assert k in g && g[k] == v; }
      }
      forall v | v in g.Values ensures v in f.Values && v != f[x] {
        var k :| k in g && g[k] == v;
        assert k in f && f[k] == v;
      }
      assert f.Values == g.Values + {f[x]};
      InjectiveMap(g);
    } else {
      assert f.Values == {};
    }
  }

  /** After any fault-free run there are as many devices under the agent root as have landed there. */
  lemma DevicesAfterRun(cfg: Config, m: Tree, order: seq<Dn>)
    requires Rooted(cfg, m) && IsOrder(cfg, m, order)
    ensures forall e :: e in Devices(Provisioned(cfg, m, order), cfg.agentRoot) <==>
      exists d :: d in Landing(cfg, m) && Lands(cfg, m, d) == Some(e)
    ensures |Devices(Provisioned(cfg, m, order), cfg.agentRoot)| == |Landing(cfg, m)|
  {
    hide Provisioned, Rooted, Devices, Lands, DevicesEverywhere;
    forall e { DevicesHaveLanded(cfg, m, order, e); }
    var f := map d | d in Landing(cfg, m) :: Lands(cfg, m, d).value;
    forall d, d' | d in f && d' in f && f[d] == f[d'] ensures d == d' { LandingsDiffer(cfg, m, d, d'); }
    assert f.Keys == Landing(cfg, m);
    forall e ensures e in Devices(Provisioned(cfg, m, order), cfg.agentRoot) <==> exists d :: d in f && f[d] == e {
      if d :| d in f && f[d] == e { assert Lands(cfg, m, d) == Some(e); }
    }
    ImageOfMap(f, Devices(Provisioned(cfg, m, order), cfg.agentRoot));
  }

  lemma ImageOfMap(f: map<Dn, Dn>, image: set<Dn>)
    requires forall x, y | x in f && y in f && f[x] == f[y] :: x == y
    requires forall e :: e in image <==> exists d :: d in f && f[d] == e
    ensures |image| == |f.Keys|
  {
    InjectiveMap(f);
    assert f.Values == image;
  }

  lemma LandingsDiffer(cfg: Config, m: Tree, d: Dn, d': Dn)
    requires Rooted(cfg, m) && d in Landing(cfg, m) && d' in Landing(cfg, m) && Lands(cfg, m, d) == Lands(cfg, m, d')
    ensures d == d'
  {
    hide ApplySeeds, Seeds, GeneratedDns, Rooted, W.Place, DevicesEverywhere;
    AllDevicesOnceSeeded(cfg, m);
    W.PlaceIsInjective(ApplySeeds(m, Seeds(cfg)), cfg.LegacyRoot(), cfg.agentGroupsRoot, d, d');
  }

  /** Devices that land under the agent root though no agent number generates them. */
  ghost function Strangers(cfg: Config, m: Tree): set<Dn> { Landing(cfg, m) - GeneratedDns(cfg) }

  /** Generated names whose device does not land under the agent root: another entry has the name, or it is moved
      away. */
  ghost function Absent(cfg: Config, m: Tree): set<Dn> { GeneratedDns(cfg) - Landing(cfg, m) }

  /** The verification after a fault-free run finds N devices exactly when as many strangers land under the agent root
      as agents do not; where all agents do, exactly when no stranger does. */
  lemma VerificationSucceedsIff(cfg: Config, m: Tree, order: seq<Dn>)
    requires Rooted(cfg, m) && IsOrder(cfg, m, order)
    ensures |Devices(Provisioned(cfg, m, order), cfg.agentRoot)| == cfg.agents <==>
      |Strangers(cfg, m)| == |Absent(cfg, m)|
    ensures Absent(cfg, m) == {} ==>
      (|Devices(Provisioned(cfg, m, order), cfg.agentRoot)| == cfg.agents <==> Landing(cfg, m) == GeneratedDns(cfg))
  {
    hide Provisioned, Rooted, Landing, Devices, AgentDnSet;
    DevicesAfterRun(cfg, m, order);
    GeneratedDnsAreDistinct(cfg.agentRoot, cfg.agents);
    SetsDiffer(Landing(cfg, m), GeneratedDns(cfg));
  }

  lemma SetsDiffer(a: set<Dn>, b: set<Dn>)
    ensures |a| == |b| <==> |a - b| == |b - a|
    ensures b - a == {} ==> (|a| == |b| <==> a == b)
  {
    assert a == (a * b) + (a - b) && b == (a * b) + (b - a);
    assert |a| == |a * b| + |a - b| && |b| == |a * b| + |b - a|;
    if b - a == {} && |a| == |b| { assert a - b == {} && a == a * b == b; }
  }

  /** Devices under the agent root that no agent number generates. */
  ghost function ForeignDevices(cfg: Config, m: Tree): set<Dn> { Devices(m, cfg.agentRoot) - GeneratedDns(cfg) }

  /** Generated names an entry other than a device already has. */
  ghost function Occupied(cfg: Config, m: Tree): set<Dn>
  {
    (GeneratedDns(cfg) * m.Keys) - Devices(m, cfg.agentRoot)
  }

  /** Where the migration moves no device, the strangers are the foreign devices and the absent names the occupied ones.
      */
  lemma UndisturbedLanding(cfg: Config, m: Tree, order: seq<Dn>)
    requires Rooted(cfg, m) && AgentsUndisturbed(cfg, m) && IsOrder(cfg, m, order)
    ensures Landing(cfg, m) == Devices(m, cfg.agentRoot) + (GeneratedDns(cfg) - m.Keys)
    ensures Strangers(cfg, m) == ForeignDevices(cfg, m) && Absent(cfg, m) == Occupied(cfg, m)
    ensures forall d | d in Landing(cfg, m) :: Lands(cfg, m, d) == Some(d)
  {
    hide Provisioned, Rooted, AgentsUndisturbed, Devices, Lands, Landing, ApplySeeds, Seeds, GeneratedDns;
    UndisturbedDevices(cfg, m, order);
    AgentRootIsItself(cfg);
    DevicesAfterSeeding(cfg, m, cfg.agentRoot);
    DevicesAfterRun(cfg, m, order);
    var devices := Devices(m, cfg.agentRoot) + (GeneratedDns(cfg) - m.Keys);
    forall d | d in Landing(cfg, m) ensures Lands(cfg, m, d) == Some(d) {
      LandingLands(cfg, m, d);
      assert Lands(cfg, m, d).value in devices;
      DevicesAreEntries(ApplySeeds(m, Seeds(cfg)), cfg.agentRoot);
      LandedInUse(cfg, m, d);
    }
    forall e | e in devices ensures e in Landing(cfg, m) {
      var d :| d in Landing(cfg, m) && Lands(cfg, m, d) == Some(e);
    }
    assert Devices(m, cfg.agentRoot) <= m.Keys by { DevicesAreEntries(m, cfg.agentRoot); }
  }

  lemma LandingLands(cfg: Config, m: Tree, d: Dn)
    requires d in Landing(cfg, m)
    ensures Lands(cfg, m, d).Some?
  {
  }

  lemma AgentRootIsItself(cfg: Config)
    ensures Under(cfg.agentRoot, cfg.agentRoot)
  {
    assert cfg.agentRoot[0..] == cfg.agentRoot;
  }

  lemma DevicesAreEntries(m: Tree, base: Dn)
    ensures Devices(m, base) <= m.Keys
  {
  }

  /** What lands at a name of the seeded directory has not moved. */
  lemma LandedInUse(cfg: Config, m: Tree, d: Dn)
    requires Rooted(cfg, m) && d in Landing(cfg, m) && Lands(cfg, m, d).value in ApplySeeds(m, Seeds(cfg))
    ensures Lands(cfg, m, d) == Some(d)
  {
    hide ApplySeeds, Seeds, GeneratedDns, Rooted, W.Place, DevicesEverywhere;
    AllDevicesOnceSeeded(cfg, m);
    W.PlaceInUse(ApplySeeds(m, Seeds(cfg)), cfg.LegacyRoot(), cfg.agentGroupsRoot, d);
  }

  /** What lands at its own name is there after a run, as seeded. */
  lemma LandedUnchanged(cfg: Config, m: Tree, order: seq<Dn>, d: Dn)
    requires IsOrder(cfg, m, order) && d in ApplySeeds(m, Seeds(cfg)) && Lands(cfg, m, d) == Some(d)
    ensures d in Provisioned(cfg, m, order) && Provisioned(cfg, m, order)[d] == ApplySeeds(m, Seeds(cfg))[d]
  {
    hide ApplySeeds, Seeds, Migrated, W.Movers, W.Ends, W.EndsAt;
    W.WillingMigrationKeeps(ApplySeeds(m, Seeds(cfg)), cfg.LegacyRoot(), cfg.agentGroupsRoot, order);
  }

  /** A run can verify although a foreign device was there: the name of an agent was taken by something else. */
  lemma VerificationCanBeBalanced()
    ensures exists cfg, m: Tree ::
      && Rooted(cfg, m) && AgentsUndisturbed(cfg, m) && IsOrder(cfg, m, [])
      && |Devices(Provisioned(cfg, m, []), cfg.agentRoot)| == cfg.agents
      && !(Devices(m, cfg.agentRoot) <= GeneratedDns(cfg))
  {
    hide *;
    var cfg := OneAgent();
    var taken, foreign := GroupDn(AgentName(1), cfg.agentRoot), ["cn=printer"] + cfg.agentRoot;
    OneAgentIsApart();
    OneAgentIsUndisturbed(TwoEntries(cfg, taken, foreign));
    OneForeigner(cfg, taken, foreign);
    LegacyIsNotSeeded(cfg, TwoEntries(cfg, taken, foreign));
    Balance(cfg, TwoEntries(cfg, taken, foreign), taken, foreign);
  }

  function TwoEntries(cfg: Config, taken: Dn, foreign: Dn): Tree
  {
    (map r | r in cfg.Roots() :: Entry({}, map[]))[taken := Entry({}, map[])][foreign := Entry({"device"}, map[])]
  }

  lemma OneForeigner(cfg: Config, taken: Dn, foreign: Dn)
    requires cfg == OneAgent() && taken == GroupDn(AgentName(1), cfg.agentRoot) &&
      foreign == ["cn=printer"] + cfg.agentRoot
    ensures var m := TwoEntries(cfg, taken, foreign);
      && Rooted(cfg, m) && cfg.LegacyRoot() !in m && taken in m
      && Devices(m, cfg.agentRoot) == {foreign} && GeneratedDns(cfg) == {taken} && foreign != taken
      && cfg.agents == 1
  {
    OneMoreDn(cfg.agentRoot, 1);
    NoDns(cfg.agentRoot);
    assert taken[0] == "cn=" + ("ahenk-" + Padded(1));
    assert taken[0][3] == 'a' && foreign[0][3] == 'p' && foreign[1..] == cfg.agentRoot;
    assert cfg.LegacyRoot()[0] == "ou=Agent" && |cfg.LegacyRoot()| == 2;
    assert "ou=Agent"[0] == 'o' && "cn=printer"[0] == 'c' && taken[0][0] == 'c';
  }

  lemma Balance(cfg: Config, m: Tree, taken: Dn, foreign: Dn)
    requires Rooted(cfg, m) && AgentsUndisturbed(cfg, m) && IsOrder(cfg, m, [])
    requires Devices(m, cfg.agentRoot) == {foreign} && GeneratedDns(cfg) == {taken} && taken in m && foreign != taken
    ensures |Devices(Provisioned(cfg, m, []), cfg.agentRoot)| == cfg.agents
    ensures !(Devices(m, cfg.agentRoot) <= GeneratedDns(cfg))
  {
    hide Rooted, AgentsUndisturbed, Devices, GeneratedDns, Provisioned, Strangers, Absent, Landing, Lands;
    assert Occupied(cfg, m) == {taken} && ForeignDevices(cfg, m) == {foreign};
    UndisturbedLanding(cfg, m, []);
    VerificationSucceedsIff(cfg, m, []);
    assert foreign in Devices(m, cfg.agentRoot) && foreign !in GeneratedDns(cfg);
  }

  function OneAgent(): Config
  {
    Config(1, 0, 0, 0, 0, "lider-admin", "secret", [],
           ["ou=Ahenkler"], ["ou=users"], ["ou=Roles"], ["ou=Groups"], ["ou=AgentGroups"])
  }

  lemma OneAgentIsApart()
    ensures Separate(OneAgent()) && AgentsApart(OneAgent()) && OneAgent().agentRoot in OneAgent().Roots()
  {
    RootsOfOneAgentDiffer();
    var cfg, legacy := OneAgent(), OneAgent().LegacyRoot();
    assert |legacy| == 2 && legacy[1..] == ["ou=Groups"];
    assert cfg.agentGroupsRoot[0..] == cfg.agentGroupsRoot && cfg.agentRoot[0..] == cfg.agentRoot;
  }

  lemma RootsOfOneAgentDiffer()
    ensures var cfg := OneAgent();
      cfg.agentRoot != cfg.agentGroupsRoot && cfg.agentRoot != ["ou=Groups"]
  {
    var cfg := OneAgent();
    assert cfg.agentRoot[0][4] == 'h' && cfg.agentGroupsRoot[0][4] == 'g';
    assert cfg.agentRoot[0][3] == 'A' && ["ou=Groups"][0][3] == 'G';
  }

  lemma OneAgentIsUndisturbed(m: Tree)
    ensures AgentsUndisturbed(OneAgent(), m)
  {
    OneAgentIsApart();
  }

  lemma LegacyIsNotSeeded(cfg: Config, m: Tree)
    requires Rooted(cfg, m) && Separate(cfg) && cfg.LegacyRoot() !in m
    ensures IsOrder(cfg, m, [])
  {
    var legacy := cfg.LegacyRoot();
    if legacy != cfg.agentGroupsRoot {
      SeedsArePlaced(cfg, m);
      EverySeedIsWellPlaced(cfg);
      forall s | s in Seeds(cfg) ensures s.dn != legacy {
        SeedIsOutsideTheLegacyRoot(cfg, s);
        assert legacy[0..] == legacy;
      }
      SeedingAddsDevices(m, Seeds(cfg), cfg.agentRoot, legacy, false);
    }
  }

  // ---- The run -------------------------------------------------------------------------

  /** The accounts of the XMPP server; a moody one may answer any request with an error, whether it took effect or not.
      */
  class XmppServer {
    const moody: bool
    var accounts: set<string>

    constructor (accounts: set<string>, moody: bool)
      ensures this.accounts == accounts && this.moody == moody
    {
      this.accounts, this.moody := accounts, moody;
    }

    method Register(user: string) returns (status: int)
      modifies this
      ensures status == 200 ==> user !in old(accounts) && accounts == old(accounts) + {user}
      ensures status == 409 ==> user in old(accounts) && accounts == old(accounts)
      ensures status != 200 && status != 409 ==>
        moody && (accounts == old(accounts) || accounts == old(accounts) + {user})
    {
      var failing, takesEffect := false, false;
      if moody { failing, takesEffect := *, *; }
      if failing {
        status := 500;
        if takesEffect { accounts := accounts + {user}; }
      } else if user in accounts {
        status := 409;
      } else {
        status := 200;
        accounts := accounts + {user};
      }
    }
  }

  datatype Seeding = Created | Exists | Updated | Failed

  method EnsureEntry(server: Server, s: Seed) returns (r: Seeding)
    requires !s.upsert
    modifies server
    ensures !server.moody && ApplySeed(old(server.tree), s).code == SUCCESS ==>
      r != Failed && server.tree == ApplySeed(old(server.tree), s).tree
    ensures server.tree == old(server.tree) || server.tree == ApplySeed(old(server.tree), s).tree
    ensures r == Created ==> s.dn !in old(server.tree) && server.tree == old(server.tree)[s.dn := s.entry]
    ensures r == Exists ==> s.dn in old(server.tree) || server.moody
    ensures r != Created ==> server.tree == old(server.tree)
    ensures !server.lied ==> !old(server.lied) && (r != Failed ==> server.tree == ApplySeed(old(server.tree), s).tree)
  {
    var code := server.Apply(Add(server.tree, s.dn, s.entry));
    r := if code == SUCCESS then Created else if code == ENTRY_ALREADY_EXISTS then Exists else Failed;
  }

  method EnsureGroupEntry(server: Server, s: Seed) returns (r: Seeding)
    requires s.upsert
    modifies server
    ensures !server.moody && ApplySeed(old(server.tree), s).code == SUCCESS ==>
      r != Failed && server.tree == ApplySeed(old(server.tree), s).tree
    ensures server.tree == old(server.tree) || server.tree == ApplySeed(old(server.tree), s).tree
    ensures r == Created ==> s.dn !in old(server.tree) && server.tree == old(server.tree)[s.dn := s.entry]
    ensures r == Updated ==>
      && s.dn in old(server.tree) && s.dn in server.tree
      && server.tree == old(server.tree)[s.dn := server.tree[s.dn]]
      && HoldsSeed(server.tree[s.dn], s) && KeepsTheRest(server.tree[s.dn], old(server.tree)[s.dn], s)
    ensures r != Created && r != Updated ==> r == Failed && server.tree == old(server.tree)
    ensures !server.lied ==> !old(server.lied) && (r != Failed ==> server.tree == ApplySeed(old(server.tree), s).tree)
  {
    var code := server.Apply(Add(server.tree, s.dn, s.entry));
    if code == SUCCESS { return Created; }
    if code != ENTRY_ALREADY_EXISTS { return Failed; }
    code := server.Apply(Replace(server.tree, s.dn, Changes(s.entry)));
    r := if code == SUCCESS then Updated else Failed;
  }

  lemma PlacedSeedSucceeds(m: Tree, seeds: seq<Seed>, k: nat)
    requires Placed(m, seeds) && k < |seeds|
    ensures ApplySeed(ApplySeeds(m, seeds[..k]), seeds[k]).code == SUCCESS
    ensures ApplySeeds(m, seeds[..k + 1]) == ApplySeed(ApplySeeds(m, seeds[..k]), seeds[k]).tree
    ensures m.Keys <= ApplySeeds(m, seeds[..k]).Keys
    decreases k
  {
    if k > 0 { PlacedSeedSucceeds(m, seeds, k - 1); }
    assert seeds[..k + 1][..k] == seeds[..k];
    assert seeds[k] in seeds;
  }

  method EnsureSeeds(server: Server, seeds: seq<Seed>) returns (ok: bool)
    modifies server
    ensures !server.moody && Placed(old(server.tree), seeds) ==>
      ok && server.tree == ApplySeeds(old(server.tree), seeds)
    ensures !server.lied ==> !old(server.lied) && (ok ==> server.tree == ApplySeeds(old(server.tree), seeds))
  {
    ghost var m := server.tree;
    ok := true;
    for k := 0 to |seeds|
      invariant ok
      invariant !server.moody && Placed(m, seeds) ==> server.tree == ApplySeeds(m, seeds[..k])
      invariant !server.lied ==> !old(server.lied) && server.tree == ApplySeeds(m, seeds[..k])
    {
      assert seeds[..k + 1][..k] == seeds[..k];
      if !server.moody && Placed(m, seeds) { PlacedSeedSucceeds(m, seeds, k); }
      var r;
      if seeds[k].upsert {
        r := EnsureGroupEntry(server, seeds[k]);
      } else {
        r := EnsureEntry(server, seeds[k]);
      }
      if r == Failed {
        return false;
      }
    }
    assert seeds[..|seeds|] == seeds;
  }

  /** Registers each agent's XMPP account, then its directory entry. */
  method RegisterAgents(cfg: Config, server: Server, xmpp: XmppServer) returns (ok: bool)
    modifies server, xmpp
    ensures ok ==> AgentNames(cfg.agents) <= xmpp.accounts
    ensures old(xmpp.accounts) <= xmpp.accounts <= old(xmpp.accounts) + AgentNames(cfg.agents)
    ensures !server.moody && !xmpp.moody && Placed(old(server.tree), AgentSeeds(cfg)) ==>
      ok && server.tree == ApplySeeds(old(server.tree), AgentSeeds(cfg))
    ensures !server.lied ==> !old(server.lied) && (ok ==> server.tree == ApplySeeds(old(server.tree), AgentSeeds(cfg)))
  {
    hide ApplySeed, Placed, AgentName, AgentNames, AgentSeeds;
    NoNames();
    ghost var m := server.tree;
    var seeds := AgentSeeds(cfg);
    ok := true;
    for k := 0 to cfg.agents
      invariant ok && AgentNames(k) <= xmpp.accounts
      invariant old(xmpp.accounts) <= xmpp.accounts <= old(xmpp.accounts) + AgentNames(k)
      invariant !server.moody && !xmpp.moody && Placed(m, seeds) ==> server.tree == ApplySeeds(m, seeds[..k])
      invariant !server.lied ==> !old(server.lied) && server.tree == ApplySeeds(m, seeds[..k])
    {
      assert seeds[..k + 1][..k] == seeds[..k];
      if !server.moody && Placed(m, seeds) { PlacedSeedSucceeds(m, seeds, k); }
      OneMoreName(k + 1);
      MoreNames(k + 1, cfg.agents);
      var status := xmpp.Register(AgentName(k + 1));
      if status != 200 && status != 409 {
        return false;
      }
      var r := EnsureEntry(server, seeds[k]);
      if r == Failed {
        return false;
      }
    }
    assert seeds[..|seeds|] == seeds;
  }

  lemma {:induction false} SeedsAppend(m: Tree, a: seq<Seed>, b: seq<Seed>)
    ensures ApplySeeds(ApplySeeds(m, a), b) == ApplySeeds(m, a + b)
  {
    hide ApplySeed;
    if b == [] {
      assert a + b == a;
    } else {
      SeedsAppend(m, a, b[..|b| - 1]);
      assert (a + b)[..|a + b| - 1] == a + b[..|b| - 1];
    }
  }

  lemma SeedsInParts(m: Tree, a: seq<Seed>, b: seq<Seed>)
    requires Placed(m, a + b)
    ensures Placed(m, a) && Placed(ApplySeeds(m, a), b)
    ensures ApplySeeds(ApplySeeds(m, a), b) == ApplySeeds(m, a + b)
  {
    hide ApplySeed, ApplySeeds;
    assert forall s :: s in a ==> s in a + b;
    assert forall s :: s in b ==> s in a + b;
    KeysGrow(m, a);
    SeedsAppend(m, a, b);
  }

  lemma {:induction false} KeysGrow(m: Tree, seeds: seq<Seed>)
    ensures m.Keys <= ApplySeeds(m, seeds).Keys
  {
    if seeds != [] { KeysGrow(m, seeds[..|seeds| - 1]); }
  }

  datatype Outcome = Exit0 | Raised

  /** The part before the agents: the roots are checked, users, groups and roles seeded. */
  method SeedIdentities(cfg: Config, server: Server, identity: seq<Seed>, roles: seq<Seed>) returns (ok: bool)
    modifies server
    ensures var m := old(server.tree);
      Rooted(cfg, m) && !server.moody && Placed(m, identity) && Rooted(cfg, ApplySeeds(m, identity)) &&
      Placed(ApplySeeds(m, identity), roles) ==>
        ok && server.tree == ApplySeeds(ApplySeeds(m, identity), roles)
    ensures !server.lied ==>
      !old(server.lied) && (ok ==> server.tree == ApplySeeds(ApplySeeds(old(server.tree), identity), roles))
    ensures ok ==> cfg.CheckedRoots() <= old(server.tree).Keys
    ensures !(cfg.CheckedRoots() <= old(server.tree).Keys) ==> server.tree == old(server.tree)
  {
    hide Rooted, ApplySeeds, Placed;
    var first := [cfg.usersRoot, cfg.agentRoot, cfg.groupsRoot, cfg.agentGroupsRoot];
    var second := [cfg.rolesRoot, cfg.groupsRoot];
    RootsAreThere(cfg, server.tree, first);
    ok := HaveRoots(server, first);
    if !ok { return; }
    ok := EnsureSeeds(server, identity);
    if !ok { return; }
    RootsAreThere(cfg, server.tree, second);
    ok := HaveRoots(server, second);
    if !ok { return; }
    ok := EnsureSeeds(server, roles);
  }

  /** Everything up to the migration. */
  method SeedDirectory(cfg: Config, server: Server, xmpp: XmppServer) returns (ok: bool)
    modifies server, xmpp
    ensures ok ==> AgentNames(cfg.agents) <= xmpp.accounts
    ensures old(xmpp.accounts) <= xmpp.accounts <= old(xmpp.accounts) + AgentNames(cfg.agents)
    ensures Rooted(cfg, old(server.tree)) && !server.moody && !xmpp.moody ==>
      ok && server.tree == ApplySeeds(old(server.tree), Seeds(cfg))
    ensures !server.lied ==> !old(server.lied) && (ok ==> server.tree == ApplySeeds(old(server.tree), Seeds(cfg)))
    ensures ok ==> cfg.CheckedRoots() <= old(server.tree).Keys
    ensures !(cfg.CheckedRoots() <= old(server.tree).Keys) ==>
      server.tree == old(server.tree) && xmpp.accounts == old(xmpp.accounts)
  {
    ghost var m := server.tree;
    ghost var smooth := Rooted(cfg, m) && !server.moody && !xmpp.moody;
    hide Rooted, ApplySeeds, Placed, IdentitySeeds, RoleSeeds, AgentSeeds, EndpointSeeds, AgentNames;
    var identity, roles, agents, endpoints := IdentitySeeds(cfg), RoleSeeds(cfg), AgentSeeds(cfg), EndpointSeeds(cfg);
    if smooth { SeedsApplyInStages(cfg, m, identity, roles, agents, endpoints); }
    StagesAppend(m, identity, roles, agents, endpoints);
    ok := SeedIdentities(cfg, server, identity, roles);
    if !ok { return; }
    ok := RegisterAgents(cfg, server, xmpp);
    if !ok { return; }
    ok := EnsureSeeds(server, endpoints);
  }

  lemma StagesAppend(m: Tree, a: seq<Seed>, b: seq<Seed>, c: seq<Seed>, d: seq<Seed>)
    ensures ApplySeeds(ApplySeeds(ApplySeeds(ApplySeeds(m, a), b), c), d) == ApplySeeds(m, a + b + c + d)
  {
    hide ApplySeeds;
    SeedsAppend(m, a, b);
    SeedsAppend(m, a + b, c);
    SeedsAppend(m, a + b + c, d);
  }

  lemma RootsAreThere(cfg: Config, m: Tree, roots: seq<Dn>)
    requires forall r | r in roots :: r in cfg.Roots()
    ensures Rooted(cfg, m) ==> forall r | r in roots :: r in m
  {
  }

  lemma SeedsApplyInStages(cfg: Config, m: Tree, identity: seq<Seed>, roles: seq<Seed>, agents: seq<Seed>,
                           endpoints: seq<Seed>)
    requires Rooted(cfg, m) && identity + roles + agents + endpoints == Seeds(cfg)
    ensures Placed(m, identity) && Rooted(cfg, ApplySeeds(m, identity))
    ensures var m1 := ApplySeeds(m, identity); var m2 := ApplySeeds(m1, roles); var m3 := ApplySeeds(m2, agents);
      && Placed(m1, roles) && Placed(m2, agents) && Placed(m3, endpoints)
      && ApplySeeds(m3, endpoints) == ApplySeeds(m, Seeds(cfg))
  {
    SeedsArePlaced(cfg, m);
    SeedsInParts(m, identity + roles + agents, endpoints);
    SeedsInParts(m, identity + roles, agents);
    SeedsInParts(m, identity, roles);
    KeysGrow(m, identity);
  }

  /** The whole run. It exits normally only with exactly N devices under the agent root and an account for each agent,
      and then, whatever was refused, every seed has been applied and only the migration may be incomplete, provided the
      server has not lied; without faults the directory is the provisioned one. Without its roots it does nothing. */
  method Provision(cfg: Config, server: Server, xmpp: XmppServer)
    returns (outcome: Outcome, ghost order: seq<Dn>, ghost refused: seq<bool>, ghost rootRefused: bool)
    modifies server, xmpp
    ensures outcome == Exit0 ==> |Devices(server.tree, cfg.agentRoot)| == cfg.agents
    ensures outcome == Exit0 ==> AgentNames(cfg.agents) <= xmpp.accounts
    ensures !({cfg.usersRoot, cfg.agentRoot, cfg.groupsRoot, cfg.agentGroupsRoot} <= old(server.tree).Keys) ==>
      outcome == Raised && server.tree == old(server.tree) && xmpp.accounts == old(xmpp.accounts)
    ensures outcome == Exit0 && !server.lied ==>
      && Proper(order) && |refused| == |order|
      && server.tree == MigratedWith(ApplySeeds(old(server.tree), Seeds(cfg)), cfg.LegacyRoot(), cfg.agentGroupsRoot,
                                     order, refused, rootRefused)
    ensures old(xmpp.accounts) <= xmpp.accounts <= old(xmpp.accounts) + AgentNames(cfg.agents)
    ensures Rooted(cfg, old(server.tree)) && !server.moody && !xmpp.moody ==>
      && IsOrder(cfg, old(server.tree), order)
      && server.tree == Provisioned(cfg, old(server.tree), order)
      && (outcome == Exit0 <==> |Devices(server.tree, cfg.agentRoot)| == cfg.agents)
  {
    outcome, order, refused, rootRefused := Raised, [], [], false;
    var ok := SeedDirectory(cfg, server, xmpp);
    if !ok { return; }
    var report;
    report, refused, rootRefused := MigrateLegacyAgentGroupRoot(server, cfg.LegacyRoot(), cfg.agentGroupsRoot);
    order := report.children;
    var count := |Devices(server.tree, cfg.agentRoot)|;
    if count == cfg.agents {
      outcome := Exit0;
    }
  }

  /** `_require_base_entry`, for several roots. */
  method HaveRoots(server: Server, roots: seq<Dn>) returns (all: bool)
    ensures all <==> forall r | r in roots :: r in server.tree
  {
    all := true;
    for k := 0 to |roots|
      invariant all <==> forall r | r in roots[..k] :: r in server.tree
    {
      var found := server.Exists(roots[k]);
      all := all && found;
      assert roots[..k + 1] == roots[..k] + [roots[k]];
    }
    assert roots[..|roots|] == roots;
  }
}
