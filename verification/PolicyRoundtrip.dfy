/** The readiness check that creates a computer group, a profile and a policy, executes the policy and cleans up. */
module PolicyRoundtrip {
  import opened Text
  import opened LiderApi

  /** What a run holds when it reaches its cleanup. */
  datatype Holdings = Holdings(group: Option<Record>, profile: Option<Record>, policy: Option<Record>)
  {
    /** `group.get("distinguishedName")`, if a group is held. */
    function GroupDn(): Option<string> { if group.Some? then group.value.distinguishedName else None }

    /** The artifacts held, in the order they were obtained. */
    function Obtained(): seq<Artifact> { GroupPart(GroupDn()) + ProfilePart(profile) + PolicyPart(policy) }
  }

  datatype Check = Check(passed: bool, cleanup: Cleanup)

  lemma CleanupIsInReverse(h: Holdings)
    ensures Operations(h.policy, h.profile, h.GroupDn()) == Reverse(h.Obtained())
  {
    ReverseOfThree(GroupPart(h.GroupDn()), ProfilePart(h.profile), PolicyPart(h.policy));
  }

  /** A name no group and no folder has. */
  ghost predicate FreshName(groups: map<string, string>, folders: set<string>, name: string)
  {
    name !in groups.Values && name !in folders
  }

  /** The group a search of the tree yields. */
  ghost function FoundIn(replies: seq<Reply<seq<Node>>>, name: string): seq<Artifact>
  {
    if replies == [] || !replies[0].Ok? then [] else
    var node := FindGroupEntry(replies[0].value, name);
    if node.None? then [] else GroupPart(node.value.dn)
  }

  /** The create returned, or it was answered 417 and the tree has a node of the name. */
  ghost predicate GroupCame(creates: seq<Reply<Record>>, trees: seq<Reply<seq<Node>>>, name: string)
  {
    && |creates| == 1
    && (creates[0].Ok? ||
        (creates[0] == HttpError(417) && |trees| == 1 && trees[0].Ok? &&
         exists n :: Occurs(n, trees[0].value) && n.Label() == name))
  }

  /** Creates the group; if the answer is 417, and only then, looks for it in the tree. `found` is what the tree
      revealed. */
  method CreateComputerGroupWithReconciliation(api: Api, name: string, ou: string)
    returns (r: Reply<Record>, ghost found: seq<Artifact>)
    modifies api`groups, api`answered, api`groupReplies, api`treeReplies
    ensures |api.groupReplies| == |old(api.groupReplies)| + 1 && old(api.treeReplies) <= api.treeReplies
    ensures var create := api.groupReplies[|old(api.groupReplies)|];
      if create == HttpError(417) then |api.treeReplies| == |old(api.treeReplies)| + 1
      else r == create && api.treeReplies == old(api.treeReplies)
    ensures found == FoundIn(api.treeReplies[|old(api.treeReplies)|..], name)
    ensures old(api.groupReplies) <= api.groupReplies
    ensures r.Ok? <==>
      GroupCame(api.groupReplies[|old(api.groupReplies)|..], api.treeReplies[|old(api.treeReplies)|..], name)
    ensures !r.Ok? ==> found == [] && api.answered == old(api.answered)
    ensures r.Ok? ==> var obtained := GroupPart(r.value.distinguishedName);
      || (found == [] && api.answered == old(api.answered) + obtained)
      || (found == obtained && api.answered == old(api.answered))
    ensures r.Ok? && FreshName(old(api.groups), api.folders, name) ==>
      r.value.distinguishedName.Some? && r.value.distinguishedName.value != ""
      && api.groups - {r.value.distinguishedName.value} == old(api.groups)
  {
    found := [];
    ghost var before := api.groups;
    ghost var creates := api.groupReplies;
    r := api.CreateGroup(name, ou, true);
    assert api.groupReplies[|creates|..] == [r];
    if r.Ok? {
      return;
    }
    if r != HttpError(417) {
      return;
    }
    ghost var replies := api.treeReplies;
    var tree := api.GroupTree();
    assert api.treeReplies[|replies|..] == [tree];
    if !tree.Ok? {
      r := Exception;
      return;
    }
    var node := FindGroupEntry(tree.value, name);
    FindGroupEntryFindsTheName(tree.value, name);
    if node.None? {
      return;
    }
    OccurringNodesAreHonest(node.value, tree.value, api.groups, api.folders);
    r := Ok(Record(node.value.dn, None, None, None));
    found := GroupPart(node.value.dn);
    if FreshName(before, api.folders, name) {
      var dn := LiderApi.GroupDn(name, ou);
      assert forall d :: d in before ==> before[d] in before.Values;
      assert node.value.dn == Some(dn) && api.groups == before[dn := name];
    }
  }

  /** Creates the profile and the policy, up to the first exception. */
  method CreateProfileAndPolicy(api: Api) returns (profile: Option<Record>, policy: Option<Record>)
    modifies api`profiles, api`policies, api`answered, api`profileReplies, api`policyReplies
    ensures old(api.profileReplies) <= api.profileReplies && old(api.policyReplies) <= api.policyReplies
    ensures |api.profileReplies| == |old(api.profileReplies)| + 1
    ensures profile == RecordOf(api.profileReplies[|old(api.profileReplies)|..])
    ensures CalledIff(profile.Some?, api.policyReplies[|old(api.policyReplies)|..])
    ensures policy == RecordOf(api.policyReplies[|old(api.policyReplies)|..])
    ensures api.answered == old(api.answered) + ProfilePart(profile) + PolicyPart(policy)
    ensures policy.Some? ==> profile.Some? && Reveals(profile.value, old(api.profiles), api.profiles)
    ensures policy.Some? ==> Reveals(policy.value, old(api.policies), api.policies)
  {
    profile, policy := None, None;
    var r := api.CreateProfile();
    assert api.profileReplies[|old(api.profileReplies)|..] == [r];
    if !r.Ok? {
      return;
    }
    profile := Some(r.value);
    r := api.CreatePolicy();
    assert api.policyReplies[|old(api.policyReplies)|..] == [r];
    if r.Ok? {
      policy := Some(r.value);
    }
  }

  /** One step after the other, each only if the one before came to something; what is held is what the replies say. */
  ghost predicate WentOn(h: Holdings, name: string, groups: seq<Reply<Record>>, trees: seq<Reply<seq<Node>>>,
                         profiles: seq<Reply<Record>>, policies: seq<Reply<Record>>)
  {
    && (h.group.Some? <==> GroupCame(groups, trees, name))
    && CalledIff(h.group.Some?, profiles) && h.profile == RecordOf(profiles)
    && CalledIff(h.profile.Some?, policies) && h.policy == RecordOf(policies)
  }

  /** The policy's record has an `id` and the group's a distinguished name. */
  ghost predicate IsReady(h: Holdings) { h.policy.Some? && h.policy.value.id.Some? && h.GroupDn().Some? }

  /** Create group, profile and policy and execute the policy, up to the first exception. `status` is the execution's,
      if it came to that. */
  method CreateAndExecute(api: Api, name: string, ou: string)
    returns (h: Holdings, status: Option<int>, ghost found: seq<Artifact>)
    modifies api`groups, api`profiles, api`policies, api`answered, api`groupReplies, api`treeReplies, api`executions
    modifies api`profileReplies, api`policyReplies
    ensures old(api.treeReplies) <= api.treeReplies && old(api.groupReplies) <= api.groupReplies
    ensures old(api.profileReplies) <= api.profileReplies && old(api.policyReplies) <= api.policyReplies
    ensures WentOn(h, name, api.groupReplies[|old(api.groupReplies)|..], api.treeReplies[|old(api.treeReplies)|..],
                   api.profileReplies[|old(api.profileReplies)|..], api.policyReplies[|old(api.policyReplies)|..])
    ensures if IsReady(h) then
        && |api.executions| == |old(api.executions)| + 1 && old(api.executions) <= api.executions
        && api.executions[|old(api.executions)|].policyId == h.policy.value.id.value
        && api.executions[|old(api.executions)|].dn == h.GroupDn().value
      else api.executions == old(api.executions)
    ensures found == FoundIn(api.treeReplies[|old(api.treeReplies)|..], name)
    ensures |api.groupReplies| == |old(api.groupReplies)| + 1
    ensures |api.treeReplies| > |old(api.treeReplies)| <==> api.groupReplies[|old(api.groupReplies)|] == HttpError(417)
    ensures status.Some? <==> Executed(old(api.executions), api.executions)
    ensures status.Some? ==>
      && h.policy.Some? && h.policy.value.id.Some? && h.GroupDn().Some?
      && api.executions == old(api.executions) +
           [Execution(h.policy.value.id.value, h.GroupDn().value, Ok(status.value))]
    ensures old(api.answered) <= api.answered
    ensures h.Obtained() == found + api.answered[|old(api.answered)|..]
    ensures status.Some? && FreshName(old(api.groups), api.folders, name) ==>
      && h.Obtained() != []
      && Without(api.groups, api.profiles, api.policies, h.Obtained(),
                 old(api.groups), old(api.profiles), old(api.policies))
  {
    hide FreshName, Without, PolicyPart, ProfilePart, GroupPart, Reveals, FoundIn, GroupCame;
    assert api.profileReplies[|api.profileReplies|..] == [] && api.policyReplies[|api.policyReplies|..] == [];
    h, status := Holdings(None, None, None), None;
    NothingHeld();
    ghost var before := api.answered;
    var group;
    group, found := CreateComputerGroupWithReconciliation(api, name, ou);
    if !group.Ok? {
      return;
    }
    ghost var between := api.answered;
    var profile, policy := CreateProfileAndPolicy(api);
    h := Holdings(Some(group.value), profile, policy);
    Bookkeeping(before, between, api.answered, found, GroupPart(h.GroupDn()), ProfilePart(profile), PolicyPart(policy));
    if policy.None? || policy.value.id.None? || group.value.distinguishedName.None? {
      return; // the exception of the create, or a KeyError
    }
    var response := api.Execute(policy.value.id.value, group.value.distinguishedName.value);
    if !response.Ok? {
      return;
    }
    status := Some(response.value);
    if FreshName(old(api.groups), api.folders, name) {
      TakenBack(old(api.groups), old(api.profiles), old(api.policies),
                api.groups, api.profiles, api.policies, h.GroupDn().value, profile.value, policy.value);
    }
  }

  /** What was found or answered for the group, and answered for the others, is what is obtained. */
  lemma Bookkeeping(start: seq<Artifact>, between: seq<Artifact>, log: seq<Artifact>, found: seq<Artifact>,
                    g: seq<Artifact>, p: seq<Artifact>, q: seq<Artifact>)
    requires (found == [] && between == start + g) || (found == g && between == start)
    requires log == between + p + q
    ensures start <= log && g + p + q == found + log[|start|..]
  {
  }

  lemma NothingHeld()
    ensures PolicyPart(None) == [] && ProfilePart(None) == [] && GroupPart(None) == []
  {
  }

  lemma TakenBack(groups: map<string, string>, profiles: set<int>, policies: set<int>,
                  groups': map<string, string>, profiles': set<int>, policies': set<int>,
                  dn: string, profile: Record, policy: Record)
    requires dn != "" && groups' - {dn} == groups
    requires Reveals(profile, profiles, profiles') && Reveals(policy, policies, policies')
    ensures var obtained := GroupPart(Some(dn)) + ProfilePart(Some(profile)) + PolicyPart(Some(policy));
      obtained != [] && Without(groups', profiles', policies', obtained, groups, profiles, policies)
  {
    hide Without;
    TakingBackRestores(groups, profiles, policies, groups', profiles', policies',
                       GroupArtifact(dn), ProfileArtifact(IdOf(profile).value), PolicyArtifact(IdOf(policy).value));
  }

  /** A check that reports pass leaves groups, profiles and policies as they were. In any run every artifact obtained
      gets a delete attempt, policy first, then profile, then group. */
  method RunPolicyRoundtripCheck(api: Api, agentFound: Reply<bool>, name: string, ou: string)
    returns (check: Check, ghost obtained: seq<Artifact>, ghost found: seq<Artifact>, ghost held: Holdings)
    modifies api
    ensures old(api.answered) <= api.answered && old(api.treeReplies) <= api.treeReplies
    ensures old(api.groupReplies) <= api.groupReplies
    ensures old(api.profileReplies) <= api.profileReplies && old(api.policyReplies) <= api.policyReplies
    ensures found == FoundIn(api.treeReplies[|old(api.treeReplies)|..], name)
    ensures agentFound == Ok(true) ==>
      && |api.groupReplies| == |old(api.groupReplies)| + 1
      && (|api.treeReplies| > |old(api.treeReplies)| <==> api.groupReplies[|old(api.groupReplies)|] == HttpError(417))
    ensures agentFound != Ok(true) ==>
      !check.passed && check.cleanup.status == NotRequired && obtained == [] &&
      api.groupReplies == old(api.groupReplies) && api.executions == old(api.executions)
    ensures agentFound == Ok(true) ==>
      && WentOn(held, name, api.groupReplies[|old(api.groupReplies)|..], api.treeReplies[|old(api.treeReplies)|..],
                api.profileReplies[|old(api.profileReplies)|..], api.policyReplies[|old(api.policyReplies)|..])
      && |api.executions| == |old(api.executions)| + (if IsReady(held) then 1 else 0)
      && obtained == held.Obtained()
    ensures check.cleanup.attempted == Reverse(obtained)
    ensures check.passed <==>
      && Executed(old(api.executions), api.executions)
      && api.executions[|old(api.executions)|].reply == Ok(200) && check.cleanup.status == Completed
    ensures check.passed ==> GroupPart(Some(api.executions[|old(api.executions)|].dn)) <= obtained
    ensures obtained == found + api.answered[|old(api.answered)|..]
    ensures api.tried == old(api.tried) + Reverse(obtained)
    ensures check.passed && FreshName(old(api.groups), api.folders, name) ==>
      api.groups == old(api.groups) && api.profiles == old(api.profiles) && api.policies == old(api.policies)
  {
    hide WentOn, IsReady, Without, FoundIn, FreshName, GroupPart, Operations, AreFailures, Reverse;
    obtained, found, held := [], [], Holdings(None, None, None);
    NothingFound(name);
    assert api.treeReplies[|api.treeReplies|..] == [];
    check := Check(false, Cleanup(NotRequired, [], []));
    if !agentFound.Ok? || !agentFound.value {
      return;
    }
    var h, status;
    h, status, found := CreateAndExecute(api, name, ou);
    held, obtained := h, h.Obtained();
    CleanupIsInReverse(h);
    if status.Some? { assert api.executions[|old(api.executions)|].reply == Ok(status.value); }
    ghost var groups, profiles, policies := api.groups, api.profiles, api.policies;
    var cleanup := CleanUp(api, h.policy, h.profile, h.GroupDn());
    check := Check(status == Some(200) && cleanup.status == Completed, cleanup);
    if check.passed && FreshName(old(api.groups), api.folders, name) {
      SameRemains(groups, profiles, policies, obtained, old(api.groups), old(api.profiles), old(api.policies),
                  api.groups, api.profiles, api.policies);
    }
  }

  lemma NothingFound(name: string)
    ensures FoundIn([], name) == [] && Reverse([]) == []
  {
  }

  /** The order of the deletes does not matter. */
  lemma SameRemains(groups: map<string, string>, profiles: set<int>, policies: set<int>, s: seq<Artifact>,
                    groups': map<string, string>, profiles': set<int>, policies': set<int>,
                    groups'': map<string, string>, profiles'': set<int>, policies'': set<int>)
    requires Without(groups, profiles, policies, s, groups', profiles', policies')
    requires Without(groups, profiles, policies, Reverse(s), groups'', profiles'', policies'')
    ensures groups' == groups'' && profiles' == profiles'' && policies' == policies''
  {
    ReverseHasTheSame(s);
  }

  lemma {:induction false} ReverseHasTheSame(s: seq<Artifact>)
    ensures GroupsIn(Reverse(s)) == GroupsIn(s) && ProfilesIn(Reverse(s)) == ProfilesIn(s)
    ensures PoliciesIn(Reverse(s)) == PoliciesIn(s)
  {
    SameElements(s);
    assert forall a :: a in Reverse(s) <==> a in s;
  }

  lemma {:induction false} SameElements(s: seq<Artifact>)
    ensures forall a :: a in Reverse(s) <==> a in s
  {
    if s != [] {
      SameElements(s[1..]);
      assert s == [s[0]] + s[1..];
    }
  }
}
