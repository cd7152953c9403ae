/** What seeding, and a whole run, leave in the directory, seed by seed. */
module SeededDirectory {
  import opened Text

  import opened Directory
  import opened GroupSeeding
  import opened Migration
  import opened Provisioner

  // ---- Any seeds -----------------------------------------------------------------------

  /** Seeds that never replace leave an entry alone. */
  lemma {:induction false} OnlyUpsertsChange(m: Tree, seeds: seq<Seed>, d: Dn)
    requires forall s | s in seeds && s.dn == d :: !s.upsert
    ensures d in m ==> d in ApplySeeds(m, seeds) && ApplySeeds(m, seeds)[d] == m[d]
  {
    if seeds != [] { OnlyUpsertsChange(m, seeds[..|seeds| - 1], d); }
  }

  lemma OneUpsert(m: Tree, s: Seed)
    requires s.upsert && s.dn != [] && s.dn[1..] in m
    ensures var m' := ApplySeed(m, s).tree;
      && s.dn in m' && HoldsSeed(m'[s.dn], s)
      && (s.dn in m ==> KeepsTheRest(m'[s.dn], m[s.dn], s))
      && (s.dn !in m ==> m'[s.dn] == s.entry)
  {
  }

  lemma AnotherSeed(m: Tree, s: Seed, d: Dn)
    requires s.dn == d ==> !s.upsert
    ensures d in m ==> d in ApplySeed(m, s).tree && ApplySeed(m, s).tree[d] == m[d]
    ensures d !in m && s.dn != d ==> d !in ApplySeed(m, s).tree
  {
  }

  /** After seeding every entry an updating seed names has the seed's attributes, the members of a group among them, and
      what it had besides is as it was. */
  lemma {:induction false} UpsertsAreWritten(m: Tree, seeds: seq<Seed>, k: nat)
    requires Placed(m, seeds) && DistinctUpserts(seeds) && k < |seeds| && seeds[k].upsert
    ensures var m', s := ApplySeeds(m, seeds), seeds[k];
      && s.dn in m' && HoldsSeed(m'[s.dn], s) && (s.dn in m ==> KeepsTheRest(m'[s.dn], m[s.dn], s))
    decreases |seeds|
  {
    hide ApplySeed, HoldsSeed, KeepsTheRest;
    var n := |seeds| - 1;
    var front, last, s := seeds[..n], seeds[n], seeds[k];
    SeedingSettles(m, front);
    assert last in seeds && last.dn[1..] in m;
    if k == n {
      forall x | x in front && x.dn == s.dn ensures !x.upsert {
        var i :| 0 <= i < n && seeds[i] == x;
      }
      OnlyUpsertsChange(m, front, s.dn);
      OneUpsert(ApplySeeds(m, front), s);
    } else {
      assert front[k] == s;
      UpsertsAreWritten(m, front, k);
      AnotherSeed(ApplySeeds(m, front), last, s.dn);
    }
  }

  lemma AddedSeed(m: Tree, s: Seed)
    requires s.dn != [] && s.dn[1..] in m && s.dn !in m
    ensures s.dn in ApplySeed(m, s).tree && ApplySeed(m, s).tree[s.dn] == s.entry
  {
  }

  /** A name that was free has the entry of the first seed that bears it, unless a later one updates it. */
  lemma {:induction false} FirstSeedAdds(m: Tree, seeds: seq<Seed>, k: nat)
    requires Placed(m, seeds) && k < |seeds| && seeds[k].dn !in m
    requires forall j | 0 <= j < k :: seeds[j].dn != seeds[k].dn
    requires forall j | k < j < |seeds| && seeds[j].dn == seeds[k].dn :: !seeds[j].upsert
    ensures seeds[k].dn in ApplySeeds(m, seeds) && ApplySeeds(m, seeds)[seeds[k].dn] == seeds[k].entry
    decreases |seeds|
  {
    hide ApplySeed;
    var n := |seeds| - 1;
    var front, last := seeds[..n], seeds[n];
    KeysGrow(m, front);
    assert last in seeds && last.dn[1..] in m;
    if k == n {
      NotAdded(m, front, last.dn);
      AddedSeed(ApplySeeds(m, front), last);
    } else {
      assert front[k] == seeds[k];
      FirstSeedAdds(m, front, k);
      AnotherSeed(ApplySeeds(m, front), last, seeds[k].dn);
    }
  }

  lemma {:induction false} NotAdded(m: Tree, seeds: seq<Seed>, d: Dn)
    requires d !in m && forall s | s in seeds :: s.dn != d
    ensures d !in ApplySeeds(m, seeds)
  {
    hide ApplySeed;
    if seeds != [] {
      NotAdded(m, seeds[..|seeds| - 1], d);
      AnotherSeed(ApplySeeds(m, seeds[..|seeds| - 1]), seeds[|seeds| - 1], d);
    }
  }

  // ---- A run ---------------------------------------------------------------------------

  /** The migration takes nothing away from the name. */
  ghost predicate Stays(cfg: Config, m: Tree, d: Dn) { Lands(cfg, m, d) == Some(d) }

  /** After a fault-free run the entry of an updating seed that stays has the seed's attributes, and the rest as it
      was. */
  lemma UpsertsOfARun(cfg: Config, m: Tree, order: seq<Dn>, s: Seed)
    requires Rooted(cfg, m) && IsOrder(cfg, m, order) && s in Seeds(cfg) && s.upsert && Stays(cfg, m, s.dn)
    ensures var after := Provisioned(cfg, m, order);
      && s.dn in after && HoldsSeed(after[s.dn], s) && (s.dn in m ==> KeepsTheRest(after[s.dn], m[s.dn], s))
  {
    hide HoldsSeed, KeepsTheRest, Provisioned, Seeds, ApplySeeds, Rooted, Lands;
    SeedsArePlaced(cfg, m);
    SeedsAreDistinct(cfg);
    var k :| 0 <= k < |Seeds(cfg)| && Seeds(cfg)[k] == s;
    UpsertsAreWritten(m, Seeds(cfg), k);
    LandedUnchanged(cfg, m, order, s.dn);
  }

  /** An entry that no updating seed names, and that stays, is as it was; if its name was free, it is that of the first
      seed that bears it. */
  lemma AddedOfARun(cfg: Config, m: Tree, order: seq<Dn>, k: nat)
    requires Rooted(cfg, m) && IsOrder(cfg, m, order) && k < |Seeds(cfg)| && Stays(cfg, m, Seeds(cfg)[k].dn)
    requires forall s | s in Seeds(cfg) && s.dn == Seeds(cfg)[k].dn :: !s.upsert
    ensures var after, d := Provisioned(cfg, m, order), Seeds(cfg)[k].dn;
      && (d in m ==> d in after && after[d] == m[d])
      && (d !in m && (forall j | 0 <= j < k :: Seeds(cfg)[j].dn != d) ==> d in after && after[d] == Seeds(cfg)[k].entry)
  {
    hide Provisioned, Seeds, ApplySeeds, Rooted, Lands;
    var seeds, d := Seeds(cfg), Seeds(cfg)[k].dn;
    SeedsArePlaced(cfg, m);
    OnlyUpsertsChange(m, seeds, d);
    forall j | k < j < |seeds| && seeds[j].dn == d ensures !seeds[j].upsert { assert seeds[j] in seeds; }
    if d !in m && forall j | 0 <= j < k :: seeds[j].dn != d { FirstSeedAdds(m, seeds, k); }
    SeedIsThere(m, seeds, k);
    LandedUnchanged(cfg, m, order, d);
  }

  lemma SeedIsThere(m: Tree, seeds: seq<Seed>, k: nat)
    requires Placed(m, seeds) && k < |seeds|
    ensures seeds[k].dn in ApplySeeds(m, seeds)
  {
    PlacedSeedSucceeds(m, seeds, k);
    assert seeds[..k + 1] + seeds[k + 1..] == seeds;
    SeedsAppend(m, seeds[..k + 1], seeds[k + 1..]);
    KeysGrow(ApplySeeds(m, seeds[..k + 1]), seeds[k + 1..]);
  }

  ghost predicate HasMembers(m: Tree, d: Dn, members: set<Value>)
  {
    d in m && "member" in m[d].attributes && m[d].attributes["member"] == members
  }

  /** The agents j with j - 1 modulo n equal to i. */
  ghost function EveryNthAgent(cfg: Config, n: nat, i: nat): set<Value>
    requires n > 0
  {
    set j | 1 <= j <= cfg.agents && (j - 1) % n == i :: Name(["cn=ahenk-" + Padded(j)] + cfg.agentRoot)
  }

  /** The uids in the order of seeding: the administrator, the two named operators, numbered ones, then the directory
      users, whose archetypes alternate. */
  ghost function UidAt(cfg: Config, i: nat): string
  {
    if i < cfg.operators then
      if i == 0 then cfg.adminUid
      else if i == 1 then "ops-operator"
      else if i == 2 then "policy-operator"
      else "operator-" + Padded(i + 1)
    else
      var k := i - cfg.operators;
      "user-" +
      (if k % 4 == 0 then "standard" else if k % 4 == 1 then "privileged" else if k % 4 == 2 then "restricted"
       else "shared") +
      "-" + Padded(k / 4 + 1)
  }

  /** The directory users j with j modulo n equal to i. */
  ghost function EveryNthUser(cfg: Config, n: nat, i: nat): set<Value>
    requires n > 0
  {
    set j | 0 <= j < cfg.directoryUsers && j % n == i :: Name(["uid=" + UidAt(cfg, cfg.operators + j)] + cfg.usersRoot)
  }

  /** A bucket holds the members whose index is b modulo n, and no other. */
  lemma {:induction false} MembersOfBucket<T>(members: seq<T>, n: nat, b: nat)
    requires b < n
    ensures forall x :: x in Bucket(members, n, b) <==> exists j :: 0 <= j < |members| && j % n == b && members[j] == x
  {
    if members != [] {
      var k := |members| - 1;
      MembersOfBucket(members[..k], n, b);
      forall x ensures x in Bucket(members, n, b) <==>
        exists j :: 0 <= j < |members| && j % n == b && members[j] == x
      {
        if x in Bucket(members[..k], n, b) {
          var j :| 0 <= j < k && j % n == b && members[..k][j] == x;
          assert members[j] == x;
        }
        if j :| 0 <= j < |members| && j % n == b && members[j] == x {
          if j < k { assert members[..k][j] == x; }
        }
      }
    }
  }

  lemma AgentDnInWords(cfg: Config, j: nat)
    ensures GroupDn(AgentName(j), cfg.agentRoot) == ["cn=ahenk-" + Padded(j)] + cfg.agentRoot
  {
    assert "cn=" + ("ahenk-" + Padded(j)) == "cn=ahenk-" + Padded(j);
  }

  lemma MembersOfEndpointGroup(cfg: Config, i: nat)
    requires i < cfg.endpointGroups && i < cfg.agents
    ensures Members(Bucket(AgentDns(cfg.agents, cfg.agentRoot), cfg.endpointGroups, i)) ==
      EveryNthAgent(cfg, cfg.endpointGroups, i)
  {
    hide Bucket, Padded, GroupDn;
    var dns, n := AgentDns(cfg.agents, cfg.agentRoot), cfg.endpointGroups;
    MembersOfBucket(dns, n, i);
    forall j | 1 <= j <= cfg.agents ensures dns[j - 1] == ["cn=ahenk-" + Padded(j)] + cfg.agentRoot {
      AgentDnInWords(cfg, j);
    }
    forall v | v in Members(Bucket(dns, n, i)) ensures v in EveryNthAgent(cfg, n, i) {
      var j :| 0 <= j < |dns| && j % n == i && dns[j] == v.dn;
      assert dns[(j + 1) - 1] == v.dn && (j + 1 - 1) % n == i;
    }
    forall v | v in EveryNthAgent(cfg, n, i) ensures v in Members(Bucket(dns, n, i)) {
      var j :| 1 <= j <= cfg.agents && (j - 1) % n == i && v == Name(["cn=ahenk-" + Padded(j)] + cfg.agentRoot);
      assert dns[j - 1] == v.dn && dns[j - 1] in Bucket(dns, n, i);
    }
  }

  /** Endpoint group i has every n-th agent, beginning with the one after i, for its members. */
  lemma EndpointGroupsInWords(cfg: Config, m: Tree, order: seq<Dn>, i: nat)
    requires Rooted(cfg, m) && IsOrder(cfg, m, order) && i < cfg.endpointGroups && i < cfg.agents
    requires Stays(cfg, m, ["cn=" + EndpointGroupName(i)] + cfg.agentGroupsRoot)
    ensures var after, d := Provisioned(cfg, m, order), ["cn=" + EndpointGroupName(i)] + cfg.agentGroupsRoot;
      && HasMembers(after, d, EveryNthAgent(cfg, cfg.endpointGroups, i))
      && "liderGroupType" in after[d].attributes && after[d].attributes["liderGroupType"] == {Plain("AHENK")}
  {
    assert Proper(order);
    hide Seeds, Rooted, Provisioned, Stays, EveryNthAgent, IsOrder, EndpointGroupName, KeepsTheRest, HoldsSeed, Bucket;
    hide Members, EndpointSeeds;
    EndpointSeedIsASeed(cfg, i);
    MembersOfEndpointGroup(cfg, i);
    UpsertsOfARun(cfg, m, order, EndpointSeeds(cfg)[i]);
    EndpointEntry(cfg, i, Provisioned(cfg, m, order)[EndpointSeeds(cfg)[i].dn]);
  }

  lemma EndpointEntry(cfg: Config, i: nat, e: Entry)
    requires i < cfg.endpointGroups && i < cfg.agents
    requires |EndpointSeeds(cfg)| > i && HoldsSeed(e, EndpointSeeds(cfg)[i])
    ensures "member" in e.attributes && "liderGroupType" in e.attributes
    ensures e.attributes["member"] == Members(Bucket(AgentDns(cfg.agents, cfg.agentRoot), cfg.endpointGroups, i))
    ensures e.attributes["liderGroupType"] == {Plain("AHENK")}
  {
    hide Seeds, EndpointSeeds, Bucket, Members, EndpointGroupName;
    EndpointSeedIsASeed(cfg, i);
    WordsDiffer();
  }

  lemma EndpointSeedIsASeed(cfg: Config, i: nat)
    requires i < cfg.endpointGroups && i < cfg.agents
    ensures |EndpointSeeds(cfg)| > i && EndpointSeeds(cfg)[i] in Seeds(cfg) && EndpointSeeds(cfg)[i].upsert
    ensures EndpointSeeds(cfg)[i].dn == ["cn=" + EndpointGroupName(i)] + cfg.agentGroupsRoot
    ensures EndpointSeeds(cfg)[i].entry == Entry(
      {"groupOfNames", "pardusDeviceGroup", "top"},
      map["cn" := {Plain(EndpointGroupName(i))},
          "member" := Members(Bucket(AgentDns(cfg.agents, cfg.agentRoot), cfg.endpointGroups, i)),
          "liderGroupType" := {Plain("AHENK")}])
  {
    hide IdentitySeeds, RoleSeeds, AgentSeeds, Bucket, EndpointGroupName, Members;
  }

  lemma WordsDiffer()
    ensures "cn" != "member" && "cn" != "liderGroupType" && "member" != "liderGroupType" && "cn" != "liderPrivilege"
    ensures "member" != "liderPrivilege" && "liderGroupType" != "liderPrivilege"
  {
    assert "cn"[0] == 'c' && "member"[0] == 'm' && "liderGroupType"[0] == 'l' && "liderPrivilege"[0] == 'l';
    assert "liderGroupType"[5] == 'G' && "liderPrivilege"[5] == 'P';
  }

  lemma MembersOfUserGroup(cfg: Config, i: nat)
    requires i < cfg.userGroups
    ensures Members(Bucket(DirectoryUserDns(cfg), cfg.userGroups, i)) == EveryNthUser(cfg, cfg.userGroups, i)
    ensures Bucket(DirectoryUserDns(cfg), cfg.userGroups, i) == [] <==> cfg.directoryUsers <= i
  {
    hide Bucket, DirectoryUserUid, UidAt;
    var dns, n := DirectoryUserDns(cfg), cfg.userGroups;
    forall j | 0 <= j < cfg.directoryUsers ensures dns[j] == ["uid=" + UidAt(cfg, cfg.operators + j)] + cfg.usersRoot {
      UserIsDirectoryUser(cfg, j);
    }
    MembersOfBucket(dns, n, i);
    EmptyBuckets(dns, n, i);
    forall v | v in Members(Bucket(dns, n, i)) ensures v in EveryNthUser(cfg, n, i) {
      var j :| 0 <= j < |dns| && j % n == i && dns[j] == v.dn;
    }
    forall v | v in EveryNthUser(cfg, n, i) ensures v in Members(Bucket(dns, n, i)) {
      var j :| 0 <= j < cfg.directoryUsers && j % n == i &&
        v == Name(["uid=" + UidAt(cfg, cfg.operators + j)] + cfg.usersRoot);
      assert dns[j] == v.dn && dns[j] in Bucket(dns, n, i);
    }
  }

  lemma UserIsDirectoryUser(cfg: Config, j: nat)
    ensures UidAt(cfg, cfg.operators + j) == DirectoryUserUid(j)
  {
    hide Padded;
  }

  lemma OperatorIsNamed(cfg: Config, j: nat)
    requires j < cfg.operators
    ensures UidAt(cfg, j) == OperatorUid(cfg, j)
  {
    hide Padded;
  }

  lemma UserSeedIsASeed(cfg: Config, i: nat)
    requires i < cfg.userGroups
    ensures |UserGroupSeeds(cfg)| > i && UserGroupSeeds(cfg)[i] in Seeds(cfg) && UserGroupSeeds(cfg)[i].upsert
    ensures UserGroupSeeds(cfg)[i].dn == ["cn=" + UserGroupName(i)] + cfg.groupsRoot
    ensures var bucket := Bucket(DirectoryUserDns(cfg), cfg.userGroups, i);
      UserGroupSeeds(cfg)[i].entry == Entry(
        {"groupOfNames", "top"},
        map["cn" := {Plain(UserGroupName(i))},
            "member" := Members(if bucket != [] then bucket else [["uid=" + cfg.adminUid] + cfg.usersRoot])])
  {
    hide Users, RoleSeeds, AgentSeeds, EndpointSeeds, Bucket, UserGroupName, Members;
    assert UserGroupSeeds(cfg)[i] in IdentitySeeds(cfg);
  }

  /** User group i has every n-th directory user, beginning with user i, for its members; if there is none, the
      administrator. */
  lemma UserGroupsInWords(cfg: Config, m: Tree, order: seq<Dn>, i: nat)
    requires Rooted(cfg, m) && IsOrder(cfg, m, order) && i < cfg.userGroups
    requires Stays(cfg, m, ["cn=" + UserGroupName(i)] + cfg.groupsRoot)
    ensures HasMembers(Provisioned(cfg, m, order), ["cn=" + UserGroupName(i)] + cfg.groupsRoot,
                       if i < cfg.directoryUsers then EveryNthUser(cfg, cfg.userGroups, i)
                       else {Name(["uid=" + cfg.adminUid] + cfg.usersRoot)})
  {
    hide Seeds, Rooted, Provisioned, Stays, EveryNthUser, IsOrder, UserGroupName, KeepsTheRest, UserGroupSeeds, Bucket;
    UserSeedIsASeed(cfg, i);
    MembersOfUserGroup(cfg, i);
    UpsertsOfARun(cfg, m, order, UserGroupSeeds(cfg)[i]);
    WordsDiffer();
  }

  ghost function Administrators(cfg: Config): set<Value>
  {
    if cfg.operators == 0 then {Name(["uid=" + cfg.adminUid] + cfg.usersRoot)}
    else set j | 0 <= j < cfg.operators :: Name(["uid=" + UidAt(cfg, j)] + cfg.usersRoot)
  }

  lemma AdminSeed(cfg: Config)
    ensures |RoleSeeds(cfg)| == 2 && RoleSeeds(cfg)[1] in Seeds(cfg) && RoleSeeds(cfg)[1].upsert
    ensures RoleSeeds(cfg)[1].dn == ["cn=DomainAdmins"] + cfg.groupsRoot
    ensures RoleSeeds(cfg)[1].entry == Entry(
      {"groupOfNames", "pardusLider", "top"},
      map["cn" := {Plain("DomainAdmins")}, "member" := Administrators(cfg),
          "liderPrivilege" := {Plain("ROLE_DOMAIN_ADMIN")}, "liderGroupType" := {Plain("USER")}])
  {
    hide IdentitySeeds, AgentSeeds, EndpointSeeds, OperatorUid, AgentName;
    assert "cn=" + "DomainAdmins" == "cn=DomainAdmins";
    if cfg.operators == 0 {
      assert Members([UserDn(cfg, cfg.adminUid)]) == Administrators(cfg);
    } else {
      AdminMembers(cfg);
    }
    assert RoleSeeds(cfg)[1] in RoleSeeds(cfg);
  }

  lemma AdminMembers(cfg: Config)
    requires cfg.operators > 0
    ensures Members(OperatorDns(cfg)) == Administrators(cfg)
  {
    hide OperatorUid, UidAt;
    var dns := OperatorDns(cfg);
    forall j | 0 <= j < cfg.operators ensures dns[j] == ["uid=" + UidAt(cfg, j)] + cfg.usersRoot {
      OperatorIsNamed(cfg, j);
    }
    forall v | v in Administrators(cfg) ensures v in Members(dns) {
      var j :| 0 <= j < cfg.operators && v == Name(["uid=" + UidAt(cfg, j)] + cfg.usersRoot);
      assert dns[j] == v.dn && dns[j] in dns;
    }
  }

  /** The domain administrators are the operators, or without any the administrator. */
  lemma DomainAdminsInWords(cfg: Config, m: Tree, order: seq<Dn>)
    requires Rooted(cfg, m) && IsOrder(cfg, m, order) && Stays(cfg, m, ["cn=DomainAdmins"] + cfg.groupsRoot)
    ensures var after, d := Provisioned(cfg, m, order), ["cn=DomainAdmins"] + cfg.groupsRoot;
      && HasMembers(after, d, Administrators(cfg))
      && "liderPrivilege" in after[d].attributes
      && after[d].attributes["liderPrivilege"] == {Plain("ROLE_DOMAIN_ADMIN")}
      && "liderGroupType" in after[d].attributes && after[d].attributes["liderGroupType"] == {Plain("USER")}
  {
    hide Seeds, Rooted, Provisioned, Stays, Administrators, IsOrder, KeepsTheRest, RoleSeeds;
    AdminSeed(cfg);
    UpsertsOfARun(cfg, m, order, RoleSeeds(cfg)[1]);
    WordsDiffer();
  }

  // ---- Entries that are only added -----------------------------------------------------

  /** No updating seed has a user's, an agent's or the role's name. */
  lemma UpsertsAreGroups(cfg: Config, s: Seed)
    requires s in Seeds(cfg) && s.upsert
    ensures Letter(s) in {'u', 'D', 'e'}
  {
    hide Users, UserGroupSeeds, RoleSeeds, AgentSeeds, EndpointSeeds;
    SeedsBearTheirLetters(cfg);
  }

  ghost predicate IsAdded(cfg: Config, m: Tree, after: Tree, d: Dn, e: Entry)
  {
    d in after && after[d] == if d in m then m[d] else e
  }

  /** An agent's entry is the one that was there; if its name was free, it is the agent's, with its password and
      owner. */
  lemma AgentsInWords(cfg: Config, m: Tree, order: seq<Dn>, j: nat)
    requires Rooted(cfg, m) && IsOrder(cfg, m, order) && 1 <= j <= cfg.agents
    requires Stays(cfg, m, ["cn=ahenk-" + Padded(j)] + cfg.agentRoot)
    ensures var name := "ahenk-" + Padded(j);
      IsAdded(cfg, m, Provisioned(cfg, m, order), ["cn=ahenk-" + Padded(j)] + cfg.agentRoot,
              Entry({"pardusDevice", "device"},
                    map["cn" := {Plain(name)}, "uid" := {Plain(name)}, "userPassword" := {Plain(cfg.agentPassword)},
                        "owner" := {Name(["uid=" + cfg.adminUid] + cfg.usersRoot)}]))
  {
    hide Provisioned, Rooted, Stays, IsOrder, Padded, IdentitySeeds, RoleSeeds, EndpointSeeds, Letter;
    AgentDnInWords(cfg, j);
    var at := |IdentitySeeds(cfg) + RoleSeeds(cfg)| + j - 1;
    assert Seeds(cfg)[at] == AgentSeeds(cfg)[j - 1] == AgentSeed(cfg, j);
    forall s | s in Seeds(cfg) && s.dn == Seeds(cfg)[at].dn ensures !s.upsert { NotAnUpsert(cfg, s, j); }
    AddedOfARun(cfg, m, order, at);
    forall i | 0 <= i < at ensures Seeds(cfg)[i].dn != Seeds(cfg)[at].dn { EarlierSeed(cfg, i, j); }
  }

  lemma NotAnUpsert(cfg: Config, s: Seed, j: nat)
    requires s in Seeds(cfg) && s.dn == AgentSeed(cfg, j).dn
    ensures !s.upsert
  {
    hide Seeds;
    AgentBears(cfg, j);
    if s.upsert { UpsertsAreGroups(cfg, s); }
  }

  lemma EarlierSeed(cfg: Config, i: nat, j: nat)
    requires 1 <= j <= cfg.agents && i < |IdentitySeeds(cfg) + RoleSeeds(cfg)| + j - 1
    ensures |Seeds(cfg)| > i && Seeds(cfg)[i].dn != AgentSeed(cfg, j).dn
  {
    hide Padded, IdentitySeeds, RoleSeeds, EndpointSeeds;
    var others := IdentitySeeds(cfg) + RoleSeeds(cfg);
    if i < |others| {
      assert Seeds(cfg)[i] == others[i];
      OthersAreNoAgents(cfg, others[i]);
      AgentBears(cfg, j);
    } else {
      assert Seeds(cfg)[i] == AgentSeeds(cfg)[i - |others|];
      AgentNamesAreDistinct(i - |others| + 1, j);
      GroupDnsDiffer(AgentName(i - |others| + 1), AgentName(j), cfg.agentRoot);
    }
  }

  lemma OthersAreNoAgents(cfg: Config, s: Seed)
    requires s in IdentitySeeds(cfg) + RoleSeeds(cfg)
    ensures Letter(s) != 'a'
  {
    hide Users, UserGroupSeeds, RoleSeeds;
    UsersBear(cfg);
    UserGroupsBear(cfg);
    RolesBear(cfg);
    var r := RoleSeeds(cfg);
    if s in r { assert s == r[0] || s == r[1]; }
  }

  lemma UserSeedAt(cfg: Config, i: nat)
    requires i < cfg.operators + cfg.directoryUsers
    ensures |Users(cfg)| == cfg.operators + cfg.directoryUsers
    ensures Users(cfg)[i].dn == ["uid=" + UidAt(cfg, i)] + cfg.usersRoot && !Users(cfg)[i].upsert
    ensures Users(cfg)[i].entry == Entry(
      {"inetOrgPerson", "organizationalPerson", "person", "pardusAccount", "pardusLider", "top"},
      map["uid" := {Plain(UidAt(cfg, i))},
          "liderPrivilege" := if i == 0 && cfg.operators > 0 then {Plain("ROLE_ADMIN"), Plain("ROLE_USER")}
                              else {Plain("ROLE_USER")}])
  {
    hide Padded;
    var both, one := {"ROLE_ADMIN", "ROLE_USER"}, {"ROLE_USER"};
    assert (set p | p in both :: Plain(p)) == {Plain("ROLE_ADMIN"), Plain("ROLE_USER")};
    assert (set p | p in one :: Plain(p)) == {Plain("ROLE_USER")};
    assert i < cfg.operators ==> UidAt(cfg, i) == OperatorUid(cfg, i);
    assert i >= cfg.operators ==> UidAt(cfg, i) == DirectoryUserUid(i - cfg.operators);
  }

  /** A user's entry is the one that was there; if its name was free, it has the uid and privileges of the first user of
      that uid: the administrator's are the two roles, the others' the one. */
  lemma UsersInWords(cfg: Config, m: Tree, order: seq<Dn>, i: nat)
    requires Rooted(cfg, m) && IsOrder(cfg, m, order) && i < cfg.operators + cfg.directoryUsers
    requires Stays(cfg, m, ["uid=" + UidAt(cfg, i)] + cfg.usersRoot)
    requires forall j | 0 <= j < i :: UidAt(cfg, j) != UidAt(cfg, i)
    ensures IsAdded(cfg, m, Provisioned(cfg, m, order), ["uid=" + UidAt(cfg, i)] + cfg.usersRoot,
                    Entry({"inetOrgPerson", "organizationalPerson", "person", "pardusAccount", "pardusLider", "top"},
                          map["uid" := {Plain(UidAt(cfg, i))},
                              "liderPrivilege" :=
                                if i == 0 && cfg.operators > 0 then {Plain("ROLE_ADMIN"), Plain("ROLE_USER")}
                                else {Plain("ROLE_USER")}]))
  {
    hide Provisioned, Rooted, Stays, IsOrder, UidAt, Users, UserGroupSeeds, RoleSeeds, AgentSeeds, EndpointSeeds;
    hide Letter;
    UserSeedAt(cfg, i);
    assert Seeds(cfg)[i] == Users(cfg)[i];
    var d := ["uid=" + UidAt(cfg, i)] + cfg.usersRoot;
    forall s | s in Seeds(cfg) && s.dn == d ensures !s.upsert { NoGroupIsAUser(cfg, s, UidAt(cfg, i)); }
    forall j | 0 <= j < i ensures Seeds(cfg)[j].dn != d {
      UserSeedAt(cfg, j);
      assert Seeds(cfg)[j] == Users(cfg)[j];
      UidsDiffer(UidAt(cfg, j), UidAt(cfg, i), cfg.usersRoot);
    }
    AddedOfARun(cfg, m, order, i);
  }

  lemma UidsDiffer(a: string, b: string, root: Dn)
    requires a != b
    ensures ["uid=" + a] + root != ["uid=" + b] + root
  {
    assert (["uid=" + a] + root)[0][4..] == a && (["uid=" + b] + root)[0][4..] == b;
  }

  lemma NoGroupIsAUser(cfg: Config, s: Seed, uid: string)
    requires s in Seeds(cfg) && s.dn == ["uid=" + uid] + cfg.usersRoot
    ensures !s.upsert
  {
    hide Seeds;
    assert s.dn[0] == "uid=" + uid && ("uid=" + uid)[3] == '=';
    if s.upsert { UpsertsAreGroups(cfg, s); }
  }

  ghost function NumberedNames(n: nat, ending: string): set<Value>
  {
    set j | 1 <= j <= n :: Plain("ahenk-" + Padded(j) + ending)
  }

  lemma SudoNames(n: nat)
    ensures (set i | 1 <= i <= n :: Plain(AgentName(i))) == NumberedNames(n, "")
    ensures (set i | 1 <= i <= n :: Plain(AgentName(i) + "-host")) == NumberedNames(n, "-host")
  {
    hide Padded;
    forall j ensures "ahenk-" + Padded(j) + "" == AgentName(j) {}
    forall v | v in NumberedNames(n, "") ensures exists i :: 1 <= i <= n && v == Plain(AgentName(i)) {
      var j :| 1 <= j <= n && v == Plain("ahenk-" + Padded(j) + "");
      assert v == Plain(AgentName(j));
    }
    forall i | 1 <= i <= n ensures Plain(AgentName(i)) in NumberedNames(n, "") {
      assert Plain("ahenk-" + Padded(i) + "") == Plain(AgentName(i));
    }
    forall v | v in NumberedNames(n, "-host") ensures exists i :: 1 <= i <= n && v == Plain(AgentName(i) + "-host") {
      var j :| 1 <= j <= n && v == Plain("ahenk-" + Padded(j) + "-host");
      assert v == Plain(AgentName(j) + "-host");
    }
    forall i | 1 <= i <= n ensures Plain(AgentName(i) + "-host") in NumberedNames(n, "-host") {
      assert Plain("ahenk-" + Padded(i) + "-host") == Plain(AgentName(i) + "-host");
    }
  }

  lemma RoleSeedInWords(cfg: Config)
    ensures |RoleSeeds(cfg)| == 2 && !RoleSeeds(cfg)[0].upsert
    ensures RoleSeeds(cfg)[0].dn == ["cn=liderahenk"] + cfg.rolesRoot
    ensures RoleSeeds(cfg)[0].entry == Entry(
      {"sudoRole", "top"},
      map["cn" := {Plain("liderahenk")}, "sudoUser" := NumberedNames(cfg.agents, ""),
          "sudoHost" := NumberedNames(cfg.agents, "-host"), "sudoCommand" := {Plain("ALL")}])
  {
    hide NumberedNames, AgentName;
    SudoNames(cfg.agents);
    assert "cn=" + "liderahenk" == "cn=liderahenk";
  }

  /** The role names every agent and every agent's host, unless there was one. */
  lemma RoleInWords(cfg: Config, m: Tree, order: seq<Dn>)
    requires Rooted(cfg, m) && IsOrder(cfg, m, order) && Stays(cfg, m, ["cn=liderahenk"] + cfg.rolesRoot)
    ensures IsAdded(cfg, m, Provisioned(cfg, m, order), ["cn=liderahenk"] + cfg.rolesRoot,
                    Entry({"sudoRole", "top"},
                          map["cn" := {Plain("liderahenk")}, "sudoUser" := NumberedNames(cfg.agents, ""),
                              "sudoHost" := NumberedNames(cfg.agents, "-host"), "sudoCommand" := {Plain("ALL")}]))
  {
    hide Provisioned, Rooted, Stays, IsOrder, Users, UserGroupSeeds, AgentSeeds, EndpointSeeds, Letter;
    hide NumberedNames, RoleSeeds, IdentitySeeds;
    RoleSeedInWords(cfg);
    var at, s := |IdentitySeeds(cfg)|, RoleSeeds(cfg)[0];
    assert Seeds(cfg)[at] == s;
    forall x | x in Seeds(cfg) && x.dn == s.dn ensures !x.upsert { TheRoleIsNoGroup(cfg, x); }
    forall i | 0 <= i < at ensures Seeds(cfg)[i].dn != s.dn {
      assert Seeds(cfg)[i] == IdentitySeeds(cfg)[i];
      IdentitiesAreNoRole(cfg, IdentitySeeds(cfg)[i]);
    }
    AddedOfARun(cfg, m, order, at);
  }

  lemma TheRoleIsNoGroup(cfg: Config, s: Seed)
    requires s in Seeds(cfg) && s.dn == ["cn=liderahenk"] + cfg.rolesRoot
    ensures !s.upsert
  {
    hide Seeds;
    assert s.dn[0] == "cn=liderahenk" && "cn=liderahenk"[3] == 'l';
    if s.upsert { UpsertsAreGroups(cfg, s); }
  }

  lemma IdentitiesAreNoRole(cfg: Config, s: Seed)
    requires s in IdentitySeeds(cfg)
    ensures s.dn != ["cn=liderahenk"] + cfg.rolesRoot
  {
    hide Users, UserGroupSeeds;
    UsersBear(cfg);
    UserGroupsBear(cfg);
    assert "cn=liderahenk"[3] == 'l';
  }
}
