/** The seeded groups of the provisioner: their names, and the round-robin assignment of members. */
module GroupSeeding {
  import opened Text
  import opened Directory

  // ---- Round robin ---------------------------------------------------------------------

  /** The members whose index is `b` modulo `n`, in order. */
  function Bucket<T>(members: seq<T>, n: nat, b: nat): seq<T>
    requires b < n
  {
    if members == [] then [] else
    var k := |members| - 1;
    Bucket(members[..k], n, b) + if k % n == b then [members[k]] else []
  }

  method RoundRobinMembers<T>(members: seq<T>, bucketCount: int) returns (buckets: seq<seq<T>>)
    ensures |buckets| == if bucketCount > 0 then bucketCount else 0
    ensures forall b | 0 <= b < |buckets| :: buckets[b] == Bucket(members, bucketCount, b)
  {
    buckets := seq(if bucketCount > 0 then bucketCount else 0, _ => []);
    if bucketCount <= 0 {
      return;
    }
    for k := 0 to |members|
      invariant |buckets| == bucketCount
      invariant forall b | 0 <= b < bucketCount :: buckets[b] == Bucket(members[..k], bucketCount, b)
    {
      var b := k % bucketCount;
      assert members[..k + 1][..k] == members[..k];
      buckets := buckets[b := buckets[b] + [members[k]]];
    }
    assert members[..|members|] == members;
  }

  /** How many of the first `len` indices are `b` modulo `n`. */
  function Share(len: nat, n: nat, b: nat): nat
    requires b < n
  {
    len / n + if b < len % n then 1 else 0
  }

  lemma DivModUnique(a: int, n: nat, q: int, r: int)
    requires n > 0 && a == q * n + r && 0 <= r < n
    ensures a / n == q && a % n == r
  {
    var d := a / n - q;
    assert d * n == r - a % n by { assert a == a / n * n + a % n; }
    if d >= 1 { MulMonotone(1, d, n); }
    if d <= -1 { MulMonotone(d, -1, n); }
  }

  lemma NextShare(len: nat, n: nat, b: nat)
    requires b < n
    ensures Share(len + 1, n, b) == Share(len, n, b) + if len % n == b then 1 else 0
    ensures len % n == b ==> b + Share(len, n, b) * n == len
  {
    var q, r := len / n, len % n;
    assert len == q * n + r;
    if r + 1 < n {
      DivModUnique(len + 1, n, q, r + 1);
    } else {
      assert len + 1 == (q + 1) * n;
      DivModUnique(len + 1, n, q + 1, 0);
    }
  }

  /** A bucket is a stride through the members. */
  lemma {:induction false} BucketIsAStride<T>(members: seq<T>, n: nat, b: nat)
    requires b < n
    ensures |Bucket(members, n, b)| == Share(|members|, n, b)
    ensures forall j | 0 <= j < |Bucket(members, n, b)| :: 0 <= b + j * n < |members|
    ensures forall j | 0 <= j < |Bucket(members, n, b)| :: Bucket(members, n, b)[j] == members[b + j * n]
  {
    if members != [] {
      var k := |members| - 1;
      BucketIsAStride(members[..k], n, b);
      NextShare(k, n, b);
      var front := Bucket(members[..k], n, b);
      forall j | 0 <= j < |Bucket(members, n, b)|
        ensures 0 <= b + j * n < |members| && Bucket(members, n, b)[j] == members[b + j * n]
      {
        if j < |front| {
          assert Bucket(members, n, b)[j] == front[j] == members[..k][b + j * n];
        } else {
          assert j == Share(k, n, b);
        }
      }
    }
  }

  /** Bucket sizes differ by at most one, the earlier buckets being the larger ones. */
  lemma BucketsAreBalanced<T>(members: seq<T>, n: nat, a: nat, b: nat)
    requires a < b < n
    ensures |Bucket(members, n, b)| <= |Bucket(members, n, a)| <= |Bucket(members, n, b)| + 1
  {
    BucketIsAStride(members, n, a);
    BucketIsAStride(members, n, b);
  }

  lemma QuotientsGrow(i: nat, len: nat, n: nat)
    requires i <= len && n > 0
    ensures i / n < len / n || (i / n == len / n && i % n == i - len + len % n)
  {
    var q, p := i / n, len / n;
    DivMod(i, n);
    DivMod(len, n);
    if q > p { MulMonotone(p + 1, q, n); }
  }

  lemma DivMod(a: nat, n: nat)
    requires n > 0
    ensures a == a / n * n + a % n && 0 <= a % n < n
  {
  }

  lemma InShare(i: nat, len: nat, n: nat)
    requires i < len && n > 0
    ensures i / n < Share(len, n, i % n)
  {
    QuotientsGrow(i, len, n);
  }

  /** Each member lands in exactly one bucket, at one place. */
  lemma EveryMemberLandsOnce<T>(members: seq<T>, n: nat, i: nat, b: nat, j: nat)
    requires n > 0 && i < |members| && b < n
    ensures i / n < |Bucket(members, n, i % n)| && Bucket(members, n, i % n)[i / n] == members[i]
    ensures b + j * n == i <==> b == i % n && j == i / n
  {
    DivMod(i, n);
    if b + j * n == i { DivModUnique(i, n, j, b); }
    MemberInItsBucket(members, n, i, i / n, i % n);
  }

  lemma MemberInItsBucket<T>(members: seq<T>, n: nat, i: nat, q: nat, r: nat)
    requires n > 0 && i < |members| && r < n && q == i / n && r == i % n && r + q * n == i
    ensures q < |Bucket(members, n, r)| && Bucket(members, n, r)[q] == members[i]
  {
    hide Share, Bucket;
    BucketIsAStride(members, n, r);
    InShare(i, |members|, n);
  }

  /** A bucket is empty exactly when there are too few members to reach it. */
  lemma EmptyBuckets<T>(members: seq<T>, n: nat, b: nat)
    requires b < n
    ensures Bucket(members, n, b) == [] <==> |members| <= b
  {
    BucketIsAStride(members, n, b);
    if |members| > b {
      InShare(b, |members|, n);
      DivModUnique(b, n, 0, b);
    } else {
      DivModUnique(|members|, n, 0, |members|);
    }
  }

  // ---- Names ---------------------------------------------------------------------------

  const USER_GROUP_ARCHETYPES := ["standard", "privileged", "restricted", "shared"]
  const ENDPOINT_GROUP_ARCHETYPES := ["standard", "restricted", "privileged"]

  function UserGroupName(index: nat): (name: string)
    ensures |name| > 3 && name[..3] == "ug-"
  {
    if index < |USER_GROUP_ARCHETYPES| then "ug-" + USER_GROUP_ARCHETYPES[index] else "ug-" + Padded(index + 1)
  }

  function EndpointGroupName(index: nat): (name: string)
    ensures |name| > 3 && name[..3] == "eg-"
  {
    if index < |ENDPOINT_GROUP_ARCHETYPES| then "eg-" + ENDPOINT_GROUP_ARCHETYPES[index] else "eg-" + Padded(index + 1)
  }

  /** The first groups are named by their archetypes, the others by their numbers, counted from 1. */
  lemma GroupNamesInWords(index: nat)
    ensures UserGroupName(index) ==
      if index == 0 then "ug-standard" else if index == 1 then "ug-privileged"
      else if index == 2 then "ug-restricted" else if index == 3 then "ug-shared"
      else "ug-" + Padded(index + 1)
    ensures EndpointGroupName(index) ==
      if index == 0 then "eg-standard" else if index == 1 then "eg-restricted"
      else if index == 2 then "eg-privileged"
      else "eg-" + Padded(index + 1)
  {
    hide Padded;
    assert "ug-" + "standard" == "ug-standard" && "ug-" + "privileged" == "ug-privileged";
    assert "ug-" + "restricted" == "ug-restricted" && "ug-" + "shared" == "ug-shared";
    assert "eg-" + "standard" == "eg-standard" && "eg-" + "restricted" == "eg-restricted";
    assert "eg-" + "privileged" == "eg-privileged";
  }

  function AgentName(index: nat): string { "ahenk-" + Padded(index) }

  /** The names of agents 1 to n. */
  function AgentNames(n: nat): set<string> { set i | 1 <= i <= n :: AgentName(i) }

  lemma NoNames()
    ensures AgentNames(0) == {}
  {
  }

  lemma OneMoreName(n: nat)
    requires n > 0
    ensures AgentNames(n) == AgentNames(n - 1) + {AgentName(n)}
  {
  }

  lemma MoreNames(k: nat, n: nat)
    requires k <= n
    ensures AgentNames(k) <= AgentNames(n)
  {
  }

  lemma PaddedIsInjective(i: nat, j: nat)
    ensures Padded(i) == Padded(j) ==> i == j
  {
    PaddedReadsBack(i);
    PaddedReadsBack(j);
  }

  lemma AgentNamesAreDistinct(i: nat, j: nat)
    ensures AgentName(i) == AgentName(j) <==> i == j
  {
    PaddedIsInjective(i, j);
    assert AgentName(i)[6..] == Padded(i) && AgentName(j)[6..] == Padded(j);
  }

  lemma EndpointGroupNamesAreDistinct(i: nat, j: nat)
    ensures EndpointGroupName(i) == EndpointGroupName(j) <==> i == j
  {
    hide Padded;
    NumbersAreNotLetters(i + 1);
    NumbersAreNotLetters(j + 1);
    PaddedIsInjective(i + 1, j + 1);
    EndpointNameTail(i);
    EndpointNameTail(j);
  }

  lemma EndpointNameTail(i: nat)
    ensures i >= 3 ==> EndpointGroupName(i)[3..] == Padded(i + 1)
    ensures i < 3 ==> EndpointGroupName(i)[3] == "srp"[i]
  {
  }

  lemma UserGroupNamesAreDistinct(i: nat, j: nat)
    ensures UserGroupName(i) == UserGroupName(j) <==> i == j
  {
    NumbersAreNotLetters(i + 1);
    NumbersAreNotLetters(j + 1);
    PaddedIsInjective(i + 1, j + 1);
    if i < 4 && j < 4 { UserArchetypesDiffer(i, j); }
    assert UserGroupName(i)[3..] == if i < 4 then USER_GROUP_ARCHETYPES[i] else Padded(i + 1);
    assert UserGroupName(j)[3..] == if j < 4 then USER_GROUP_ARCHETYPES[j] else Padded(j + 1);
    if i < 4 { ArchetypeIsAWord(i); }
    if j < 4 { ArchetypeIsAWord(j); }
  }

  lemma ArchetypeIsAWord(i: nat)
    requires i < 4
    ensures |USER_GROUP_ARCHETYPES[i]| >= 2 && 'a' <= USER_GROUP_ARCHETYPES[i][0] <= 'z'
    ensures USER_GROUP_ARCHETYPES[i][0] == "sprs"[i] && USER_GROUP_ARCHETYPES[i][1] == "treh"[i]
  {
  }

  lemma UserArchetypesDiffer(i: nat, j: nat)
    requires i < 4 && j < 4
    ensures USER_GROUP_ARCHETYPES[i] == USER_GROUP_ARCHETYPES[j] ==> i == j
  {
    ArchetypeIsAWord(i);
    ArchetypeIsAWord(j);
  }

  lemma NumbersAreNotLetters(n: nat)
    ensures '0' <= Padded(n)[0] <= '9'
  {
    assert Padded(n)[0] in Padded(n);
  }

  // ---- Group specifications ------------------------------------------------------------

  datatype GroupSpec = GroupSpec(dn: Dn, cn: string, members: seq<Dn>)

  function GroupDn(cn: string, root: Dn): Dn { ["cn=" + cn] + root }

  function AgentDns(n: nat, agentRoot: Dn): (dns: seq<Dn>)
    ensures |dns| == n && forall i | 0 <= i < n :: dns[i] == GroupDn(AgentName(i + 1), agentRoot)
  {
    seq(n, i requires 0 <= i < n => GroupDn(AgentName(i + 1), agentRoot))
  }

  /** A user group; one that got no member has the default one. */
  function UserGroup(bucket: seq<Dn>, defaultMember: Dn, root: Dn, index: nat): (g: GroupSpec)
    ensures g.members != [] && g.dn == GroupDn(UserGroupName(index), root)
  {
    var name := UserGroupName(index);
    GroupSpec(GroupDn(name, root), name, if bucket != [] then bucket else [defaultMember])
  }

  function EndpointGroup(bucket: seq<Dn>, root: Dn, index: nat): GroupSpec
  {
    var name := EndpointGroupName(index);
    GroupSpec(GroupDn(name, root), name, bucket)
  }

  function UserGroups(users: seq<Dn>, defaultMember: Dn, count: nat, root: Dn): (groups: seq<GroupSpec>)
    ensures |groups| == count
  {
    seq(count, i requires 0 <= i < count => UserGroup(Bucket(users, count, i), defaultMember, root, i))
  }

  function EndpointGroups(agents: seq<Dn>, count: nat, root: Dn): (groups: seq<GroupSpec>)
    ensures |groups| == if count < |agents| then count else |agents|
  {
    seq(if count < |agents| then count else |agents|,
        i requires 0 <= i < count => EndpointGroup(Bucket(agents, count, i), root, i))
  }

  method UserGroupSpecs(users: seq<Dn>, operators: seq<Dn>, adminDn: Dn, count: nat, root: Dn)
    returns (specs: seq<GroupSpec>)
    ensures specs == UserGroups(users, if operators != [] then operators[0] else adminDn, count, root)
    ensures forall i | 0 <= i < count :: specs[i].members != []
  {
    hide UserGroupName;
    specs := [];
    if count <= 0 {
      return;
    }
    var defaultMember := if operators != [] then operators[0] else adminDn;
    var buckets := RoundRobinMembers(users, count);
    for index := 0 to count
      invariant |specs| == index
      invariant forall i | 0 <= i < index :: specs[i] == UserGroup(Bucket(users, count, i), defaultMember, root, i)
    {
      specs := specs + [UserGroup(buckets[index], defaultMember, root, index)];
    }
  }

  /** As many endpoint groups as there are agents to fill them, under distinct names. */
  method EndpointGroupSpecs(agents: seq<Dn>, count: nat, root: Dn) returns (specs: seq<GroupSpec>)
    ensures specs == EndpointGroups(agents, count, root)
    ensures forall i | 0 <= i < |specs| :: specs[i].members != []
    ensures forall i, j | 0 <= i < j < |specs| :: specs[i].dn != specs[j].dn
  {
    hide Bucket, EndpointGroupName;
    specs := [];
    if count <= 0 {
      return;
    }
    var buckets := RoundRobinMembers(agents, count);
    for index := 0 to count
      invariant |specs| == if index < |agents| then index else |agents|
      invariant forall i | 0 <= i < |specs| :: specs[i] == EndpointGroup(Bucket(agents, count, i), root, i)
      invariant forall i | 0 <= i < |specs| :: specs[i].members != []
    {
      EmptyBuckets(agents, count, index);
      if buckets[index] == [] {
        continue;
      }
      specs := specs + [EndpointGroup(buckets[index], root, index)];
    }
    EndpointGroupsAreDistinct(agents, count, root, specs);
  }

  lemma EndpointGroupsAreDistinct(agents: seq<Dn>, count: nat, root: Dn, specs: seq<GroupSpec>)
    requires |specs| <= count
    requires forall i | 0 <= i < |specs| :: specs[i] == EndpointGroup(Bucket(agents, count, i), root, i)
    ensures forall i, j | 0 <= i < j < |specs| :: specs[i].dn != specs[j].dn
  {
    hide Bucket, EndpointGroupName;
    forall i, j | 0 <= i < j < |specs| ensures specs[i].dn != specs[j].dn {
      GroupDnsDiffer(EndpointGroupName(i), EndpointGroupName(j), root);
      EndpointGroupNamesAreDistinct(i, j);
    }
  }

  lemma GroupDnsDiffer(a: string, b: string, root: Dn)
    ensures GroupDn(a, root) == GroupDn(b, root) <==> a == b
  {
    assert GroupDn(a, root)[0][3..] == a && GroupDn(b, root)[0][3..] == b;
  }
}
