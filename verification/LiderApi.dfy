/** The management server as the roundtrip checks see it: groups, profiles and policies behind calls that may fail, and
    the cleanup both checks share. */
module LiderApi {
  import opened Text

  /** A JSON record of a reply; `None` is an absent key. */
  datatype Record = Record(distinguishedName: Option<string>, dn: Option<string>, id: Option<int>, altId: Option<int>)

  /** A call returns, raises an HTTP error with its status, or raises something else. */
  datatype Reply<+T> = Ok(value: T) | HttpError(status: int) | Exception

  /** A policy executed on the group of that name, and the status or exception that came of it. */
  datatype Execution = Execution(policyId: int, dn: string, reply: Reply<int>)

  datatype Artifact = GroupArtifact(dn: string) | ProfileArtifact(id: int) | PolicyArtifact(id: int)

  // ---- Trees ---------------------------------------------------------------------------

  datatype Node = Node(kind: Option<string>, cn: Option<string>, name: Option<string>, dn: Option<string>,
                       childEntries: seq<Node>, children: seq<Node>)
  {
    function Label(): (called: string)
      ensures called != "" ==> GoesBy(called)
      ensures forall other | GoesBy(other) && other != "" :: called == other
    {
      if cn.Some? && cn.value != "" then cn.value else if name.Some? then name.value else ""
    }

    /** Bears the name as its `cn`, or as its `name` if it has no `cn` or a blank one. */
    ghost predicate GoesBy(text: string)
    {
      cn == Some(text) || ((cn.None? || cn == Some("")) && name == Some(text))
    }

    function Below(): (below: seq<Node>)
      ensures (childEntries != [] ==> below == childEntries) && (childEntries == [] ==> below == children)
    { if childEntries != [] then childEntries else children }
  }

  ghost predicate Occurs(n: Node, forest: seq<Node>)
    decreases forest
  {
    forest != [] && (n == forest[0] || Occurs(n, forest[0].Below()) || Occurs(n, forest[1..]))
  }

  /** The first node of that name, a node before those below it. */
  function FindGroupEntry(forest: seq<Node>, name: string): Option<Node>
    decreases forest
  {
    if forest == [] then None
    else if forest[0].Label() == name then Some(forest[0])
    else
      var child := FindGroupEntry(forest[0].Below(), name);
      if child.Some? then child else FindGroupEntry(forest[1..], name)
  }

  /** The search finds a node of the name if there is one anywhere, and nothing else. */
  lemma {:induction false} FindGroupEntryFindsTheName(forest: seq<Node>, name: string)
    ensures var r := FindGroupEntry(forest, name);
      if r.Some? then Occurs(r.value, forest) && r.value.Label() == name
      else forall n :: Occurs(n, forest) ==> n.Label() != name
    decreases forest
  {
    if forest != [] {
      FindGroupEntryFindsTheName(forest[0].Below(), name);
      FindGroupEntryFindsTheName(forest[1..], name);
    }
  }

  /** Group nodes carry their group's name; the other nodes only names of folders. */
  predicate Honest(forest: seq<Node>, groups: map<string, string>, folders: set<string>)
    decreases forest
  {
    forest == [] ||
      (&& HonestNode(forest[0], groups, folders)
       && Honest(forest[0].Below(), groups, folders)
       && Honest(forest[1..], groups, folders))
  }

  predicate HonestNode(n: Node, groups: map<string, string>, folders: set<string>)
  {
    if n.dn.Some? && n.dn.value in groups then n.Label() == groups[n.dn.value] else n.Label() in folders
  }

  lemma {:induction false} OccurringNodesAreHonest(n: Node, forest: seq<Node>, groups: map<string, string>,
                                                   folders: set<string>)
    requires Honest(forest, groups, folders) && Occurs(n, forest)
    ensures HonestNode(n, groups, folders)
    decreases forest
  {
    if n != forest[0] {
      if Occurs(n, forest[0].Below()) {
        OccurringNodesAreHonest(n, forest[0].Below(), groups, folders);
      } else {
        OccurringNodesAreHonest(n, forest[1..], groups, folders);
      }
    }
  }

  // ---- The server ----------------------------------------------------------------------

  function GroupDn(name: string, ou: string): string { "cn=" + name + "," + ou }

  /** The number is the record's `id`, or its `policyId` if it has no `id` or a zero one. */
  ghost predicate Numbers(r: Record, k: int)
  {
    (r.id == Some(k) && k != 0) || ((r.id.None? || r.id == Some(0)) && r.altId == Some(k))
  }

  /** Python's `record.get("id") or record.get("policyId")`. */
  function IdOf(r: Record): (id: Option<int>)
    ensures forall k :: id == Some(k) <==> Numbers(r, k)
  {
    if r.id.Some? && r.id.value != 0 then r.id else r.altId
  }

  /** The record reveals the one number that is new. */
  ghost predicate Reveals(r: Record, before: set<int>, after: set<int>)
  {
    IdOf(r).Some? && IdOf(r).value !in before && after == before + {IdOf(r).value}
  }

  /** Any call may fail. On an orderly server a failed create has no effect and deletes succeed. The ghost fields are
      the history: the creates that returned, the deletes that were called and whether they returned, and the replies to
      creates, tree queries and policy executions. */
  class Api {
    const orderly: bool
    const folders: set<string>
    var groups: map<string, string>
    var profiles: set<int>
    var policies: set<int>
    ghost var answered: seq<Artifact>
    ghost var tried: seq<Artifact>
    ghost var gone: seq<bool>
    ghost var groupReplies: seq<Reply<Record>>
    ghost var profileReplies: seq<Reply<Record>>
    ghost var policyReplies: seq<Reply<Record>>
    ghost var treeReplies: seq<Reply<seq<Node>>>
    ghost var executions: seq<Execution>

    constructor (groups: map<string, string>, profiles: set<int>, policies: set<int>, folders: set<string>,
                 orderly: bool)
    {
      this.groups, this.profiles, this.policies := groups, profiles, policies;
      this.folders, this.orderly, this.answered, this.tried := folders, orderly, [], [];
      this.groupReplies, this.treeReplies, this.executions := [], [], [];
      this.profileReplies, this.policyReplies, this.gone := [], [], [];
    }

    /** Whether a call fails, and whether it has its effect all the same. */
    method Weather() returns (fails: bool, effect: bool)
      ensures !fails ==> effect
    {
      fails := *;
      effect := *;
      if !fails { effect := true; }
    }

    method Error() returns (r: Reply<Record>)
      ensures !r.Ok?
    {
      var status: int := *;
      var http: bool := *;
      r := if http then HttpError(status) else Exception;
    }

    /** Creates the group of that name in that organisational unit; the record reveals its name under one of two keys,
        or neither. */
    method CreateGroup(name: string, ou: string, revealing: bool) returns (r: Reply<Record>)
      modifies this`groups, this`answered, this`groupReplies
      ensures groupReplies == old(groupReplies) + [r]
      ensures var dn := "cn=" + name + "," + ou;
        && (r.Ok? ==>
              && dn !in old(groups) && groups == old(groups)[dn := name]
              && answered == old(answered) + [GroupArtifact(dn)]
              && (r.value.distinguishedName.Some? ==> r.value.distinguishedName.value == dn)
              && (r.value.dn.Some? ==> r.value.dn.value == dn)
              && (revealing ==> r.value.distinguishedName.Some?))
        && (!r.Ok? ==>
              && answered == old(answered)
              && (groups == old(groups) || (dn !in old(groups) && groups == old(groups)[dn := name])))
        && (!r.Ok? && orderly ==> groups == old(groups))
    {
      var dn := GroupDn(name, ou);
      var fails, effect := Weather();
      if dn in groups || fails {
        if dn !in groups && effect && !orderly { groups := groups[dn := name]; }
        r := Error();
        groupReplies := groupReplies + [r];
        return;
      }
      groups := groups[dn := name];
      answered := answered + [GroupArtifact(dn)];
      var full: bool := *;
      var alternative: bool := *;
      r := Ok(Record(if full || revealing then Some(dn) else None, if alternative then Some(dn) else None, None, None));
      groupReplies := groupReplies + [r];
    }

    /** A number of the server's choosing, and a record that reveals it. */
    method Numbered() returns (k: int, r: Record)
      ensures k != 0 ==> IdOf(r) == Some(k)
    {
      k := *;
      var plain: bool := *;
      r := if plain then Record(None, None, Some(k), None) else Record(None, None, None, Some(k));
    }

    method CreateProfile() returns (r: Reply<Record>)
      modifies this`profiles, this`answered, this`profileReplies
      ensures profileReplies == old(profileReplies) + [r]
      ensures r.Ok? ==> IdOf(r.value).Some? && IdOf(r.value).value > 0 && IdOf(r.value).value !in old(profiles)
      ensures r.Ok? ==> profiles == old(profiles) + {IdOf(r.value).value}
      ensures r.Ok? ==> answered == old(answered) + [ProfileArtifact(IdOf(r.value).value)]
      ensures !r.Ok? ==> answered == old(answered) && (orderly ==> profiles == old(profiles))
    {
      var fails, effect := Weather();
      var k, record := Numbered();
      var usable := k > 0 && k !in profiles;
      if fails || !usable {
        if usable && effect && !orderly { profiles := profiles + {k}; }
        r := Error();
        profileReplies := profileReplies + [r];
        return;
      }
      profiles := profiles + {k};
      answered := answered + [ProfileArtifact(k)];
      r := Ok(record);
      profileReplies := profileReplies + [r];
    }

    method CreatePolicy() returns (r: Reply<Record>)
      modifies this`policies, this`answered, this`policyReplies
      ensures policyReplies == old(policyReplies) + [r]
      ensures r.Ok? ==> IdOf(r.value).Some? && IdOf(r.value).value > 0 && IdOf(r.value).value !in old(policies)
      ensures r.Ok? ==> policies == old(policies) + {IdOf(r.value).value}
      ensures r.Ok? ==> answered == old(answered) + [PolicyArtifact(IdOf(r.value).value)]
      ensures !r.Ok? ==> answered == old(answered) && (orderly ==> policies == old(policies))
    {
      var fails, effect := Weather();
      var k, record := Numbered();
      var usable := k > 0 && k !in policies;
      if fails || !usable {
        if usable && effect && !orderly { policies := policies + {k}; }
        r := Error();
        policyReplies := policyReplies + [r];
        return;
      }
      policies := policies + {k};
      answered := answered + [PolicyArtifact(k)];
      r := Ok(record);
      policyReplies := policyReplies + [r];
    }

    method Execute(policyId: int, dn: string) returns (r: Reply<int>)
      modifies this`executions
      ensures executions == old(executions) + [Execution(policyId, dn, r)]
    {
      var fails, effect := Weather();
      var status: int := *;
      r := if fails then Exception else Ok(status);
      executions := executions + [Execution(policyId, dn, r)];
    }

    /** The tree of groups, in any shape. */
    method GroupTree() returns (r: Reply<seq<Node>>)
      modifies this`treeReplies
      ensures r.Ok? ==> Honest(r.value, groups, folders)
      ensures treeReplies == old(treeReplies) + [r]
    {
      var fails, effect := Weather();
      var forest: seq<Node> := *;
      r := if fails || !Honest(forest, groups, folders) then Exception else Ok(forest);
      treeReplies := treeReplies + [r];
    }

    /** Deletes an artifact; a return means it is gone. */
    method Delete(a: Artifact) returns (ok: bool)
      modifies this`groups, this`profiles, this`policies, this`tried, this`gone
      ensures tried == old(tried) + [a] && gone == old(gone) + [ok]
      ensures orderly ==> ok
      ensures ok || groups != old(groups) ==> groups == old(groups) - (if a.GroupArtifact? then {a.dn} else {})
      ensures ok || profiles != old(profiles) ==>
        profiles == old(profiles) - (if a.ProfileArtifact? then {a.id} else {})
      ensures ok || policies != old(policies) ==> policies == old(policies) - (if a.PolicyArtifact? then {a.id} else {})
    {
      var fails, effect := Weather();
      ok := orderly || !fails;
      tried, gone := tried + [a], gone + [ok];
      if ok || effect {
        match a {
          case GroupArtifact(dn) => groups := groups - {dn};
          case ProfileArtifact(id) => profiles := profiles - {id};
          case PolicyArtifact(id) => policies := policies - {id};
        }
      }
    }
  }

  /** The only reply of that kind returned. */
  ghost predicate Came(replies: seq<Reply<Record>>) { |replies| == 1 && replies[0].Ok? }

  /** The record a create returned, if it was called and did. */
  ghost function RecordOf(replies: seq<Reply<Record>>): Option<Record>
  {
    if Came(replies) then Some(replies[0].value) else None
  }

  /** What follows if a step was reached: one reply; else none. */
  ghost predicate CalledIff(reached: bool, replies: seq<Reply<Record>>) { |replies| == if reached then 1 else 0 }

  /** One more execution, which returned. */
  ghost predicate Executed(before: seq<Execution>, after: seq<Execution>)
  {
    |after| == |before| + 1 && before <= after && after[|before|].reply.Ok?
  }

  // ---- Cleanup -------------------------------------------------------------------------

  datatype CleanupStatus = NotRequired | PartialFailure | Completed

  datatype Cleanup = Cleanup(status: CleanupStatus, attempted: seq<Artifact>, failed: seq<Artifact>)

  function PolicyPart(policy: Option<Record>): (s: seq<Artifact>)
    ensures |s| <= 1
  {
    if policy.Some? && IdOf(policy.value).Some? then [PolicyArtifact(IdOf(policy.value).value)] else []
  }

  function ProfilePart(profile: Option<Record>): (s: seq<Artifact>)
    ensures |s| <= 1
  {
    if profile.Some? && IdOf(profile.value).Some? then [ProfileArtifact(IdOf(profile.value).value)] else []
  }

  function GroupPart(dn: Option<string>): (s: seq<Artifact>)
    ensures |s| <= 1
  {
    if dn.Some? && dn.value != "" then [GroupArtifact(dn.value)] else []
  }

  /** What a cleanup deletes, in its order. */
  function Operations(policy: Option<Record>, profile: Option<Record>, groupDn: Option<string>): seq<Artifact>
  {
    PolicyPart(policy) + ProfilePart(profile) + GroupPart(groupDn)
  }

  function GroupsIn(s: seq<Artifact>): set<string> { set a | a in s && a.GroupArtifact? :: a.dn }
  function ProfilesIn(s: seq<Artifact>): set<int> { set a | a in s && a.ProfileArtifact? :: a.id }
  function PoliciesIn(s: seq<Artifact>): set<int> { set a | a in s && a.PolicyArtifact? :: a.id }

  /** The second state is the first without the artifacts. */
  ghost predicate Without(groups: map<string, string>, profiles: set<int>, policies: set<int>, s: seq<Artifact>,
                          groups': map<string, string>, profiles': set<int>, policies': set<int>)
  {
    groups' == groups - GroupsIn(s) && profiles' == profiles - ProfilesIn(s) && policies' == policies - PoliciesIn(s)
  }

  /** The failures are the operations whose delete did not return, in order. */
  ghost predicate AreFailures(failures: seq<Artifact>, operations: seq<Artifact>, gone: seq<bool>)
  {
    |gone| == |operations| && failures == Unreturned(operations, gone)
  }

  ghost function Unreturned(operations: seq<Artifact>, gone: seq<bool>): (s: seq<Artifact>)
    requires |gone| == |operations|
    ensures forall a :: a in s <==> exists i :: 0 <= i < |gone| && !gone[i] && operations[i] == a
  {
    if gone == [] then [] else
    var k := |gone| - 1;
    assert operations == operations[..k] + [operations[k]] && gone == gone[..k] + [gone[k]];
    Unreturned(operations[..k], gone[..k]) + if gone[k] then [] else [operations[k]]
  }

  lemma NothingDeleted(groups: map<string, string>, profiles: set<int>, policies: set<int>)
    ensures AreFailures([], [], []) && Without(groups, profiles, policies, [], groups, profiles, policies)
  {
  }

  lemma OneMoreDeleted(groups: map<string, string>, profiles: set<int>, policies: set<int>,
                       s: seq<Artifact>, a: Artifact,
                       groups': map<string, string>, profiles': set<int>, policies': set<int>,
                       groups'': map<string, string>, profiles'': set<int>, policies'': set<int>)
    requires Without(groups, profiles, policies, s, groups', profiles', policies')
    requires groups'' == groups' - (if a.GroupArtifact? then {a.dn} else {})
    requires profiles'' == profiles' - (if a.ProfileArtifact? then {a.id} else {})
    requires policies'' == policies' - (if a.PolicyArtifact? then {a.id} else {})
    ensures Without(groups, profiles, policies, s + [a], groups'', profiles'', policies'')
  {
    OneMore(s, a);
  }

  lemma OneMoreFailure(failures: seq<Artifact>, operations: seq<Artifact>, gone: seq<bool>, a: Artifact, ok: bool)
    requires AreFailures(failures, operations, gone)
    ensures AreFailures(if ok then failures else failures + [a], operations + [a], gone + [ok])
  {
    assert (operations + [a])[..|operations|] == operations && (gone + [ok])[..|gone|] == gone;
  }

  method DeleteAll(api: Api, operations: seq<Artifact>) returns (failures: seq<Artifact>)
    modifies api`groups, api`profiles, api`policies, api`tried, api`gone
    ensures api.tried == old(api.tried) + operations
    ensures |failures| <= |operations| && (api.orderly ==> failures == [])
    ensures old(api.gone) <= api.gone && AreFailures(failures, operations, api.gone[|old(api.gone)|..])
    ensures failures == [] ==>
      Without(old(api.groups), old(api.profiles), old(api.policies), operations, api.groups, api.profiles, api.policies)
  {
    hide AreFailures, Without;
    failures := [];
    NothingDeleted(api.groups, api.profiles, api.policies);
    assert api.gone[|api.gone|..] == [] && operations[..0] == [];
    for k := 0 to |operations|
      invariant api.tried == old(api.tried) + operations[..k]
      invariant |failures| <= k && (api.orderly ==> failures == [])
      invariant old(api.gone) <= api.gone && AreFailures(failures, operations[..k], api.gone[|old(api.gone)|..])
      invariant failures == [] ==>
        Without(old(api.groups), old(api.profiles), old(api.policies), operations[..k],
                api.groups, api.profiles, api.policies)
    {
      assert operations[..k + 1] == operations[..k] + [operations[k]];
      ghost var before := api.gone[|old(api.gone)|..];
      ghost var groups, profiles, policies := api.groups, api.profiles, api.policies;
      var ok := api.Delete(operations[k]);
      assert api.gone[|old(api.gone)|..] == before + [ok];
      OneMoreFailure(failures, operations[..k], before, operations[k], ok);
      if ok && failures == [] {
        OneMoreDeleted(old(api.groups), old(api.profiles), old(api.policies), operations[..k], operations[k],
                       groups, profiles, policies, api.groups, api.profiles, api.policies);
      }
      if !ok {
        failures := failures + [operations[k]];
      }
    }
    assert operations[..|operations|] == operations;
  }

  method CleanUp(api: Api, policy: Option<Record>, profile: Option<Record>, groupDn: Option<string>)
    returns (c: Cleanup)
    modifies api`groups, api`profiles, api`policies, api`tried, api`gone
    ensures c.attempted == Operations(policy, profile, groupDn)
    ensures old(api.gone) <= api.gone && AreFailures(c.failed, c.attempted, api.gone[|old(api.gone)|..])
    ensures api.tried == old(api.tried) + c.attempted
    ensures c.status == NotRequired <==> c.attempted == []
    ensures c.status == Completed || c.status == NotRequired <==> c.failed == []
    ensures api.orderly ==> c.failed == []
    ensures c.failed == [] ==>
      Without(old(api.groups), old(api.profiles), old(api.policies), c.attempted,
              api.groups, api.profiles, api.policies)
  {
    var attempts := Operations(policy, profile, groupDn);
    var failures := DeleteAll(api, attempts);
    var status := if attempts == [] then NotRequired else if failures != [] then PartialFailure else Completed;
    c := Cleanup(status, attempts, failures);
  }

  lemma OneMore(s: seq<Artifact>, a: Artifact)
    ensures GroupsIn(s + [a]) == GroupsIn(s) + if a.GroupArtifact? then {a.dn} else {}
    ensures ProfilesIn(s + [a]) == ProfilesIn(s) + if a.ProfileArtifact? then {a.id} else {}
    ensures PoliciesIn(s + [a]) == PoliciesIn(s) + if a.PolicyArtifact? then {a.id} else {}
  {
  }

  /** Deleting what a run created restores the server. */
  lemma TakingBackRestores(groups: map<string, string>, profiles: set<int>, policies: set<int>,
                           groups': map<string, string>, profiles': set<int>, policies': set<int>,
                           g: Artifact, p: Artifact, q: Artifact)
    requires g.GroupArtifact? && groups' - {g.dn} == groups
    requires p.ProfileArtifact? && p.id !in profiles && profiles' == profiles + {p.id}
    requires q.PolicyArtifact? && q.id !in policies && policies' == policies + {q.id}
    ensures Without(groups', profiles', policies', [g] + [p] + [q], groups, profiles, policies)
  {
    assert [] + [g] == [g];
    OneMore([], g);
    OneMore([g], p);
    OneMore([g] + [p], q);
  }

  // ---- Reverse order -------------------------------------------------------------------

  function Reverse(s: seq<Artifact>): seq<Artifact>
  {
    if s == [] then [] else Reverse(s[1..]) + [s[0]]
  }

  lemma ReverseOfThree(a: seq<Artifact>, b: seq<Artifact>, c: seq<Artifact>)
    requires |a| <= 1 && |b| <= 1 && |c| <= 1
    ensures Reverse(a + b + c) == c + b + a
  {
    ReverseOfParts(a + b, c);
    ReverseOfParts(a, b);
    ReverseOfOne(a);
    ReverseOfOne(b);
    ReverseOfOne(c);
    assert c + b + a == c + (b + a);
  }

  lemma ReverseOfOne(a: seq<Artifact>)
    requires |a| <= 1
    ensures Reverse(a) == a
  {
    if a != [] { assert a[1..] == []; }
  }

  lemma {:induction false} ReverseOfParts(a: seq<Artifact>, b: seq<Artifact>)
    ensures Reverse(a + b) == Reverse(b) + Reverse(a)
  {
    if a == [] {
      assert a + b == b;
    } else {
      ReverseOfParts(a[1..], b);
      assert (a + b)[1..] == a[1..] + b;
    }
  }
}
