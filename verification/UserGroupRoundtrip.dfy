/** The user-group policy roundtrip of the end-to-end facade, with an exception possible at every call. */
module UserGroupRoundtrip {
  import opened Text
  import opened LiderApi

  // ---- The fallback group --------------------------------------------------------------

  function Size(forest: seq<Node>): nat
    decreases forest
  {
    if forest == [] then 0 else 1 + Size(forest[0].Below()) + Size(forest[1..])
  }

  lemma {:induction false} InBothParts(a: seq<Node>, b: seq<Node>, n: Node)
    ensures Size(a + b) == Size(a) + Size(b)
    ensures Occurs(n, a + b) <==> Occurs(n, a) || Occurs(n, b)
  {
    if a == [] {
      assert a + b == b;
    } else {
      assert (a + b)[1..] == a[1..] + b;
      InBothParts(a[1..], b, n);
    }
  }

  /** The nodes of a forest, level by level. */
  method IterTreeNodes(forest: seq<Node>) returns (flattened: seq<Node>)
    ensures forall n :: n in flattened <==> Occurs(n, forest)
  {
    var queue := forest;
    flattened := [];
    while queue != []
      invariant forall n :: Occurs(n, forest) <==> n in flattened || Occurs(n, queue)
      decreases Size(queue)
    {
      var node, rest := queue[0], queue[1..];
      forall n ensures Occurs(n, queue) <==> n == node || Occurs(n, rest + node.Below()) {
        InBothParts(rest, node.Below(), n);
      }
      InBothParts(rest, node.Below(), node);
      flattened := flattened + [node];
      queue := rest + node.Below();
    }
  }

  predicate IsGroup(n: Node) { n.kind == Some("GROUP") && n.dn.Some? && n.dn.value != "" }

  predicate IsPreferred(n: Node) { IsGroup(n) && (n.Label() == "DomainAdmins" || n.Label() == "readers") }

  /** An existing group of the tree, a preferred one if there is any. */
  method GetExistingUserGroup(forest: seq<Node>) returns (r: Option<Node>)
    ensures r.Some? <==> exists n :: Occurs(n, forest) && IsGroup(n)
    ensures r.Some? ==> Occurs(r.value, forest) && IsGroup(r.value)
    ensures (exists n :: Occurs(n, forest) && IsPreferred(n)) ==> r.Some? && IsPreferred(r.value)
  {
    var nodes := IterTreeNodes(forest);
    var fallback: Option<Node> := None;
    for k := 0 to |nodes|
      invariant fallback.Some? ==> fallback.value in nodes && IsGroup(fallback.value)
      invariant fallback.None? ==> forall i | 0 <= i < k :: !IsGroup(nodes[i])
      invariant forall i | 0 <= i < k :: !IsPreferred(nodes[i])
    {
      if !IsGroup(nodes[k]) {
        continue;
      }
      if fallback.None? {
        fallback := Some(nodes[k]);
      }
      if IsPreferred(nodes[k]) {
        return Some(nodes[k]);
      }
    }
    r := fallback;
  }

  // ---- The roundtrip -------------------------------------------------------------------

  /** What the cleanup is handed: the two records, the group's name and whether the run made it. */
  datatype Handover = Handover(
    profile: Option<Record>, policy: Option<Record>, groupDn: Option<string>, deleteGroup: bool)
  {
    function CleanupGroup(): Option<string> { if deleteGroup then groupDn else None }
  }

  /** The record's `distinguishedName`, else its `dn`, else the fallback; blank names are passed over. */
  ghost predicate IsNameOf(text: string, r: Record, fallback: string)
  {
    var full := r.distinguishedName.Some? && r.distinguishedName != Some("");
    var short := r.dn.Some? && r.dn != Some("");
    if full then r.distinguishedName == Some(text) else if short then r.dn == Some(text) else text == fallback
  }

  /** `record.get("distinguishedName") or record.get("dn") or fallback`. */
  function DnOf(r: Record, fallback: string): (dn: string)
    ensures IsNameOf(dn, r, fallback)
  {
    if r.distinguishedName.Some? && r.distinguishedName.value != "" then r.distinguishedName.value
    else if r.dn.Some? && r.dn.value != "" then r.dn.value
    else fallback
  }

  /** The groups differ from what they were by the one the run made, if it made one. */
  ghost predicate GroupMade(before: map<string, string>, after: map<string, string>, dn: Option<string>)
  {
    if dn.None? then after == before else dn.value !in before && after - {dn.value} == before
  }

  /** A group of that name, which is not blank. */
  ghost predicate BearsGroup(n: Node, dn: string) { n.kind == Some("GROUP") && n.dn == Some(dn) && dn != "" }

  ghost predicate HasGroup(forest: seq<Node>) { exists n, dn :: Occurs(n, forest) && BearsGroup(n, dn) }

  /** One of the forest's groups, and the domain admins or the readers if it has either. */
  ghost predicate IsFallback(forest: seq<Node>, dn: string)
  {
    exists n :: Occurs(n, forest) && BearsGroup(n, dn) &&
      ((exists other, d :: Occurs(other, forest) && BearsGroup(other, d) && IsWellKnown(other)) ==> IsWellKnown(n))
  }

  /** The tree came, and the group is its fallback. */
  ghost predicate FellBack(trees: seq<Reply<seq<Node>>>, dn: string)
  {
    trees != [] && trees[0].Ok? && IsFallback(trees[0].value, dn)
  }

  ghost predicate IsWellKnown(n: Node) { n.GoesBy("DomainAdmins") || n.GoesBy("readers") }

  /** The create was answered "not acceptable" or "expectation failed". */
  ghost predicate Refused(creates: seq<Reply<Record>>)
  {
    creates == [HttpError(406)] || creates == [HttpError(417)]
  }

  /** The tree is the fallback of a run without a user of its own whose create was refused. */
  ghost predicate FallsBack(existing: Option<string>, createUser: bool, creates: seq<Reply<Record>>)
  {
    existing.None? && !createUser && Refused(creates)
  }

  /** There is a group: the given one took the member, the create returned, or the fallback tree has one. */
  ghost predicate HasObtained(existing: Option<string>, membership: Reply<Record>, createUser: bool,
                              creates: seq<Reply<Record>>, trees: seq<Reply<seq<Node>>>)
  {
    if existing.Some? then membership.Ok?
    else
      || Came(creates)
      || (&& FallsBack(existing, createUser, creates)
          && trees != [] && trees[0].Ok? && HasGroup(trees[0].value))
  }

  lemma FallbackIsFound(forest: seq<Node>, node: Option<Node>)
    requires node.Some? <==> exists n :: Occurs(n, forest) && IsGroup(n)
    requires node.Some? ==> Occurs(node.value, forest) && IsGroup(node.value)
    requires (exists n :: Occurs(n, forest) && IsPreferred(n)) ==> node.Some? && IsPreferred(node.value)
    ensures node.Some? <==> HasGroup(forest)
    ensures node.Some? ==> node.value.dn.Some? && IsFallback(forest, node.value.dn.value)
  {
    if node.Some? {
      assert BearsGroup(node.value, node.value.dn.value);
      forall other, d | Occurs(other, forest) && BearsGroup(other, d) && IsWellKnown(other)
        ensures IsWellKnown(node.value)
      {
        assert IsPreferred(other);
      }
    } else {
      forall n, dn | Occurs(n, forest) ensures !BearsGroup(n, dn) {
        assert !IsGroup(n);
      }
    }
  }

  lemma NoGroupInNothing()
    ensures !HasGroup([])
  {
  }

  /** Finds or makes the group. An existing group is never marked for deletion. */
  method ObtainGroup(api: Api, existing: Option<string>, membership: Reply<Record>, createUser: bool, name: string,
                     ou: string)
    returns (ok: bool, groupDn: Option<string>, deleteGroup: bool)
    modifies api`groups, api`answered, api`groupReplies, api`treeReplies
    ensures old(api.groupReplies) <= api.groupReplies && old(api.treeReplies) <= api.treeReplies
    ensures CalledIff(existing.None?, api.groupReplies[|old(api.groupReplies)|..])
    ensures |api.treeReplies| == |old(api.treeReplies)| +
      if FallsBack(existing, createUser, api.groupReplies[|old(api.groupReplies)|..]) then 1 else 0
    ensures deleteGroup <==> Came(api.groupReplies[|old(api.groupReplies)|..])
    ensures ok <==>
      HasObtained(existing, membership, createUser, api.groupReplies[|old(api.groupReplies)|..],
                  api.treeReplies[|old(api.treeReplies)|..])
    ensures deleteGroup ==> groupDn == Some("cn=" + name + "," + ou) && groupDn.value !in old(api.groups)
    ensures deleteGroup ==> existing.None? && api.groups == old(api.groups)[groupDn.value := name]
    ensures !deleteGroup && api.orderly ==> api.groups == old(api.groups)
    ensures api.answered == old(api.answered) + GroupPart(if deleteGroup then groupDn else None)
    ensures ok ==> groupDn.Some?
    ensures ok && FallsBack(existing, createUser, api.groupReplies[|old(api.groupReplies)|..]) ==>
      FellBack(api.treeReplies[|old(api.treeReplies)|..], groupDn.value)
    ensures existing.Some? ==> groupDn == existing
  {
    hide HasGroup, IsFallback;
    NoGroupInNothing();
    assert api.groupReplies[|api.groupReplies|..] == [] && api.treeReplies[|api.treeReplies|..] == [];
    ok, groupDn, deleteGroup := false, existing, false;
    if existing.Some? {
      ok := membership.Ok?;
      return;
    }
    var created := api.CreateGroup(name, ou, false);
    assert api.groupReplies[|old(api.groupReplies)|..] == [created];
    if created.Ok? {
      groupDn := Some(DnOf(created.value, GroupDn(name, ou)));
      ok, deleteGroup := true, true;
      return;
    }
    if createUser || (created != HttpError(406) && created != HttpError(417)) {
      return;
    }
    var tree := api.GroupTree();
    assert api.treeReplies[|old(api.treeReplies)|..] == [tree];
    var node := GetExistingUserGroup(if tree.Ok? then tree.value else []);
    FallbackIsFound(if tree.Ok? then tree.value else [], node);
    if node.None? {
      return;
    }
    ok, groupDn := true, node.value.dn;
  }

  /** One step after the other, each only if the one before came to something; what is handed over is what the replies
      say. */
  ghost predicate WentOn(h: Handover, existing: Option<string>, membership: Reply<Record>, createUser: bool,
                         creates: seq<Reply<Record>>, trees: seq<Reply<seq<Node>>>,
                         profiles: seq<Reply<Record>>, policies: seq<Reply<Record>>)
  {
    && CalledIff(existing.None?, creates) && (h.deleteGroup <==> Came(creates))
    && |trees| == (if FallsBack(existing, createUser, creates) then 1 else 0)
    && CalledIff(HasObtained(existing, membership, createUser, creates, trees), profiles)
    && h.profile == RecordOf(profiles)
    && CalledIff(h.profile.Some?, policies) && h.policy == RecordOf(policies)
  }

  /** The group a policy is executed on: the given one, by the name the membership update answers; the one made; or, as
      a fallback, an existing one of the tree. */
  ghost predicate IsRightGroup(dn: string, existing: Option<string>, membership: Reply<Record>, createUser: bool,
                               name: string, ou: string, creates: seq<Reply<Record>>, trees: seq<Reply<seq<Node>>>)
  {
    var made := "cn=" + name + "," + ou;
    if existing.Some? then
      membership.Ok? && IsNameOf(dn, membership.value, if existing.value != "" then existing.value else made)
    else if Came(creates) then dn == made
    else FallsBack(existing, createUser, creates) && FellBack(trees, dn)
  }

  /** An obtained group is executed on by the right name. */
  lemma GroupIsRight(existing: Option<string>, membership: Reply<Record>, createUser: bool, name: string, ou: string,
                     creates: seq<Reply<Record>>, trees: seq<Reply<seq<Node>>>, made: bool, groupDn: Option<string>)
    requires HasObtained(existing, membership, createUser, creates, trees) && groupDn.Some?
    requires made <==> Came(creates)
    requires existing.Some? ==> groupDn == existing && !made
    requires made ==> groupDn == Some("cn=" + name + "," + ou)
    requires FallsBack(existing, createUser, creates) ==> FellBack(trees, groupDn.value)
    ensures var dn := if !made && existing.Some? && membership.Ok? then
        DnOf(membership.value, if existing.value != "" then existing.value else GroupDn(name, ou))
      else groupDn.value;
      IsRightGroup(dn, existing, membership, createUser, name, ou, creates, trees)
  {
    hide FellBack, HasGroup;
  }

  /** One more execution, of that policy. */
  ghost predicate ExecutedOnce(before: seq<Execution>, after: seq<Execution>, policy: Record)
  {
    |after| == |before| + 1 && before <= after && Numbers(policy, after[|before|].policyId)
  }

  /** Creates the profile and the policy and executes the policy on the group, up to the first exception. */
  method Apply(api: Api, dn: string) returns (profile: Option<Record>, policy: Option<Record>, status: Option<int>)
    modifies api`profiles, api`policies, api`answered, api`profileReplies, api`policyReplies, api`executions
    ensures old(api.profileReplies) <= api.profileReplies && old(api.policyReplies) <= api.policyReplies
    ensures CalledIff(true, api.profileReplies[|old(api.profileReplies)|..])
    ensures profile == RecordOf(api.profileReplies[|old(api.profileReplies)|..])
    ensures CalledIff(profile.Some?, api.policyReplies[|old(api.policyReplies)|..])
    ensures policy == RecordOf(api.policyReplies[|old(api.policyReplies)|..])
    ensures policy.None? ==> api.executions == old(api.executions)
    ensures policy.Some? ==>
      && ExecutedOnce(old(api.executions), api.executions, policy.value)
      && api.executions[|old(api.executions)|].dn == dn
    ensures profile.Some? ==> Reveals(profile.value, old(api.profiles), api.profiles)
    ensures policy.Some? ==> Reveals(policy.value, old(api.policies), api.policies)
    ensures profile.None? && api.orderly ==> api.profiles == old(api.profiles)
    ensures policy.None? && api.orderly ==> api.policies == old(api.policies)
    ensures api.answered == old(api.answered) + ProfilePart(profile) + PolicyPart(policy)
    ensures status.Some? <==> Executed(old(api.executions), api.executions)
    ensures status.Some? ==> api.executions[|old(api.executions)|].reply == Ok(status.value)
  {
    profile, policy, status := None, None, None;
    var created := api.CreateProfile();
    assert api.profileReplies[|old(api.profileReplies)|..] == [created];
    assert api.policyReplies[|api.policyReplies|..] == [];
    if !created.Ok? {
      return;
    }
    profile := Some(created.value);
    created := api.CreatePolicy();
    assert api.policyReplies[|old(api.policyReplies)|..] == [created];
    if !created.Ok? {
      return;
    }
    policy := Some(created.value);
    var id := IdOf(created.value);
    if id.None? {
      return; // TypeError of int(None)
    }
    var response := api.Execute(id.value, dn);
    if response.Ok? {
      status := Some(response.value);
    }
  }

  method Steps(api: Api, existing: Option<string>, membership: Reply<Record>, createUser: bool, name: string,
               ou: string)
    returns (h: Handover, status: Option<int>)
    modifies api`groups, api`profiles, api`policies, api`answered, api`groupReplies, api`treeReplies, api`executions
    modifies api`profileReplies, api`policyReplies
    ensures old(api.groupReplies) <= api.groupReplies && old(api.treeReplies) <= api.treeReplies
    ensures old(api.profileReplies) <= api.profileReplies && old(api.policyReplies) <= api.policyReplies
    ensures WentOn(h, existing, membership, createUser, api.groupReplies[|old(api.groupReplies)|..],
                   api.treeReplies[|old(api.treeReplies)|..], api.profileReplies[|old(api.profileReplies)|..],
                   api.policyReplies[|old(api.policyReplies)|..])
    ensures h.policy.None? ==> api.executions == old(api.executions)
    ensures h.policy.Some? ==>
      && ExecutedOnce(old(api.executions), api.executions, h.policy.value)
      && IsRightGroup(api.executions[|old(api.executions)|].dn, existing, membership, createUser, name, ou,
                      api.groupReplies[|old(api.groupReplies)|..], api.treeReplies[|old(api.treeReplies)|..])
    ensures h.deleteGroup ==>
      existing.None? && h.groupDn == Some("cn=" + name + "," + ou) && h.groupDn.value !in old(api.groups)
    ensures api.orderly ==> GroupMade(old(api.groups), api.groups, h.CleanupGroup())
    ensures h.profile.Some? ==> Reveals(h.profile.value, old(api.profiles), api.profiles)
    ensures h.policy.Some? ==> Reveals(h.policy.value, old(api.policies), api.policies)
    ensures h.profile.None? && api.orderly ==> api.profiles == old(api.profiles)
    ensures h.policy.None? && api.orderly ==> api.policies == old(api.policies)
    ensures api.answered ==
      old(api.answered) + GroupPart(h.CleanupGroup()) + ProfilePart(h.profile) + PolicyPart(h.policy)
    ensures status.Some? <==> Executed(old(api.executions), api.executions)
    ensures status.Some? ==> api.executions[|old(api.executions)|].reply == Ok(status.value)
  {
    hide GroupPart, ProfilePart, PolicyPart, HasObtained, FallsBack, IsNameOf, FellBack, IsRightGroup, Reveals;
    hide ExecutedOnce, Came, RecordOf, CalledIff;
    NothingMade();
    assert api.profileReplies[|api.profileReplies|..] == [] && api.policyReplies[|api.policyReplies|..] == [];
    h, status := Handover(None, None, existing, false), None;
    var ok, groupDn, deleteGroup := ObtainGroup(api, existing, membership, createUser, name, ou);
    h := h.(groupDn := groupDn, deleteGroup := deleteGroup);
    assert api.answered == api.answered + [] + [];
    if !ok {
      return;
    }
    if !deleteGroup && existing.Some? && membership.Ok? {
      var fallback := if existing.value != "" then existing.value else GroupDn(name, ou);
      h := h.(groupDn := Some(DnOf(membership.value, fallback)));
    }
    GroupIsRight(existing, membership, createUser, name, ou, api.groupReplies[|old(api.groupReplies)|..],
                 api.treeReplies[|old(api.treeReplies)|..], deleteGroup, groupDn);
    var profile, policy;
    profile, policy, status := Apply(api, h.groupDn.value);
    h := h.(profile := profile, policy := policy);
  }

  lemma NothingMade()
    ensures PolicyPart(None) == [] && ProfilePart(None) == [] && Reverse([]) == []
    ensures CalledIff(false, []) && RecordOf([]) == None
  {
  }

  datatype Outcome = Returned(status: int, cleanup: Cleanup) | Raised

  /** On both exits the run tries to delete what it made and nothing that existed before; if that succeeds and failed
      creates have no effect, groups, profiles and policies are as before. */
  method ExecuteUserGroupPolicyRoundtrip(api: Api, preflight: bool, existing: Option<string>, membership: Reply<Record>,
                                         createUser: bool, name: string, ou: string)
    returns (outcome: Outcome, ghost tried: seq<Artifact>, ghost held: Handover)
    modifies api
    ensures old(api.groupReplies) <= api.groupReplies && old(api.treeReplies) <= api.treeReplies
    ensures old(api.profileReplies) <= api.profileReplies && old(api.policyReplies) <= api.policyReplies
    ensures !preflight ==>
      && outcome == Raised && api.executions == old(api.executions) && api.groupReplies == old(api.groupReplies)
      && api.treeReplies == old(api.treeReplies) && api.profileReplies == old(api.profileReplies)
    ensures preflight ==>
      WentOn(held, existing, membership, createUser, api.groupReplies[|old(api.groupReplies)|..],
             api.treeReplies[|old(api.treeReplies)|..], api.profileReplies[|old(api.profileReplies)|..],
             api.policyReplies[|old(api.policyReplies)|..])
    ensures held.policy.None? ==> api.executions == old(api.executions)
    ensures held.policy.Some? ==>
      && ExecutedOnce(old(api.executions), api.executions, held.policy.value)
      && IsRightGroup(api.executions[|old(api.executions)|].dn, existing, membership, createUser, name, ou,
                      api.groupReplies[|old(api.groupReplies)|..], api.treeReplies[|old(api.treeReplies)|..])
    ensures outcome.Returned? <==> Executed(old(api.executions), api.executions)
    ensures outcome.Returned? ==>
      api.executions[|old(api.executions)|].reply == Ok(outcome.status) && outcome.cleanup.attempted == tried
    ensures api.tried == old(api.tried) + tried
    ensures forall dn | GroupArtifact(dn) in tried ::
      dn !in old(api.groups) && existing.None? && dn == "cn=" + name + "," + ou
    ensures forall k | ProfileArtifact(k) in tried :: k !in old(api.profiles)
    ensures forall k | PolicyArtifact(k) in tried :: k !in old(api.policies)
    ensures old(api.answered) <= api.answered && tried == Reverse(api.answered[|old(api.answered)|..])
    ensures api.orderly ==>
      api.groups == old(api.groups) && api.profiles == old(api.profiles) && api.policies == old(api.policies)
  {
    hide Operations, GroupsIn, ProfilesIn, PoliciesIn, Reverse, WentOn, IsRightGroup, ExecutedOnce;
    outcome, tried, held := Raised, [], Handover(None, None, existing, false);
    NothingMade();
    assert api.answered[|api.answered|..] == [];
    if !preflight {
      return; // unsupported scenario, or the user could not be created
    }
    var h, status := Steps(api, existing, membership, createUser, name, ou);
    held := h;
    var cleanup := CleanUp(api, h.policy, h.profile, h.CleanupGroup());
    tried := cleanup.attempted;
    MadeNames(h.policy, h.profile, h.CleanupGroup());
    MadeInOrder(old(api.answered), api.answered, h);
    if status.Some? {
      outcome := Returned(status.value, cleanup);
    }
  }

  /** An artifact is on the list exactly if it is the policy, the profile or the group handed over. */
  lemma MadeParts(policy: Option<Record>, profile: Option<Record>, dn: Option<string>)
    ensures var s := Operations(policy, profile, dn);
      forall a :: a in s <==> a in PolicyPart(policy) || a in ProfilePart(profile) || a in GroupPart(dn)
  {
    hide PolicyPart, ProfilePart, GroupPart;
  }

  lemma MadeNames(policy: Option<Record>, profile: Option<Record>, dn: Option<string>)
    ensures var s := Operations(policy, profile, dn);
      && GroupsIn(s) == (if dn.Some? && dn.value != "" then {dn.value} else {})
      && ProfilesIn(s) == (if profile.Some? && IdOf(profile.value).Some? then {IdOf(profile.value).value} else {})
      && PoliciesIn(s) == (if policy.Some? && IdOf(policy.value).Some? then {IdOf(policy.value).value} else {})
      && (forall d | GroupArtifact(d) in s :: dn == Some(d))
      && (forall k | ProfileArtifact(k) in s :: profile.Some? && IdOf(profile.value) == Some(k))
      && (forall k | PolicyArtifact(k) in s :: policy.Some? && IdOf(policy.value) == Some(k))
  {
    hide Operations, IdOf;
    MadeParts(policy, profile, dn);
  }

  /** What was answered is cleaned up in reverse. */
  lemma MadeInOrder(before: seq<Artifact>, after: seq<Artifact>, h: Handover)
    requires after == before + GroupPart(h.CleanupGroup()) + ProfilePart(h.profile) + PolicyPart(h.policy)
    ensures before <= after
    ensures Operations(h.policy, h.profile, h.CleanupGroup()) == Reverse(after[|before|..])
    ensures h.CleanupGroup().Some? && h.CleanupGroup().value != "" ==>
      GroupArtifact(h.CleanupGroup().value) in Operations(h.policy, h.profile, h.CleanupGroup())
  {
    hide PolicyPart, ProfilePart;
    var g, p, q := GroupPart(h.CleanupGroup()), ProfilePart(h.profile), PolicyPart(h.policy);
    assert after[|before|..] == g + p + q;
    ReverseOfThree(g, p, q);
  }
}
