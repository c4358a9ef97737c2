/** What nache asks chala for, and how it finds it again. */
module NacheCompute {
  import opened ChalaNames
  import opened Docker
  import opened NacheStore

  const SERVICE := "nache"
  const ENGINE := "img-nache-engine"
  const TAG_MANAGED_BY := "managed-by"
  const TAG_CLUSTER_ACCOUNT := "cluster-account"
  const TAG_CLUSTER := "cluster"

  /** `^[a-z0-9]([a-z0-9-]{0,38}[a-z0-9])?$` */
  predicate IsClusterName(s: string) {
    && 1 <= |s| <= 40
    && IsLowerAlnum(s[0]) && IsLowerAlnum(s[|s| - 1])
    && forall i | 0 <= i < |s| :: IsLowerAlnum(s[i]) || s[i] == '-'
  }

  /** The account comes from a capability, the name was checked by the API. */
  predicate ValidKey(k: Key) { IsAccountId(k.account) && IsClusterName(k.cluster) }

  function Endpoint(account: string, name: string): string {
    name + "." + account + ".nache.dariya.internal"
  }

  function NodeName(account: string, cluster: string): string { "n-" + account + "-" + cluster }

  /** The request of `RunNode`, as nache's service account `nache`. */
  function NodeRequest(nache: string, k: Key): Request {
    Request(nache, NodeName(k.account, k.cluster), ENGINE,
            map[TAG_MANAGED_BY := SERVICE, TAG_CLUSTER_ACCOUNT := k.account, TAG_CLUSTER := k.cluster],
            k.account, [Endpoint(k.account, k.cluster)])
  }

  function NodeSlot(nache: string, k: Key): Slot { Slot(nache, NodeName(k.account, k.cluster)) }

  /** The whole request: one name and one alias for each cluster, its account to attach to, and three tags to find
      it by. */
  lemma NodeRequestReads(nache: string, k: Key)
    ensures var r := NodeRequest(nache, k);
      && r.account == nache && r.name == "n-" + k.account + "-" + k.cluster && r.image == "img-nache-engine"
      && r.attach == k.account && r.aliases == [k.cluster + "." + k.account + ".nache.dariya.internal"]
      && |r.tags| == 3 && "managed-by" in r.tags && r.tags["managed-by"] == "nache"
      && "cluster-account" in r.tags && r.tags["cluster-account"] == k.account
      && "cluster" in r.tags && r.tags["cluster"] == k.cluster
  {
    assert |"managed-by"| == 10 && |"cluster-account"| == 15 && |"cluster"| == 7;
    assert NodeRequest(nache, k).tags.Keys == {"managed-by", "cluster-account", "cluster"};
  }

  lemma NodeNameInjective(k: Key, k': Key)
    requires IsAccountId(k.account) && IsAccountId(k'.account)
    requires NodeName(k.account, k.cluster) == NodeName(k'.account, k'.cluster)
    ensures k == k'
  {
    var n, n' := NodeName(k.account, k.cluster), NodeName(k'.account, k'.cluster);
    assert n[2..14] == k.account && n'[2..14] == k'.account;
    assert n[15..] == k.cluster && n'[15..] == k'.cluster;
  }

  lemma NodeNameIsValid(k: Key)
    requires ValidKey(k)
    ensures IsInstanceName(NodeName(k.account, k.cluster))
  {
    var n := NodeName(k.account, k.cluster);
    assert |n| == 15 + |k.cluster|;
    forall i | 0 <= i < |n| ensures IsLowerAlnum(n[i]) || n[i] == '-' {
      if i < 2 {
      } else if i < 14 {
        assert n[i] == k.account[i - 2];
      } else if i > 14 {
        assert n[i] == k.cluster[i - 15];
      }
    }
  }

  lemma EndpointIsValid(k: Key)
    requires ValidKey(k)
    ensures ValidAlias(Endpoint(k.account, k.cluster), AliasSuffix(k.account, SERVICE))
  {
    var suffix := AliasSuffix(k.account, SERVICE);
    assert Endpoint(k.account, k.cluster) == k.cluster + suffix;
  }

  /** chala accepts what nache asks for exactly when the cluster is not of nache's own account: nobody can
      be attached to himself. */
  lemma NodeRequestIsValid(nache: string, k: Key)
    requires ValidKey(k) && IsAccountId(nache)
    ensures Validated(NodeRequest(nache, k), SERVICE) <==> k.account != nache
  {
    hide AliasSuffix, ValidAlias, IsInstanceName, NodeName, Endpoint, IsClusterName;
    NodeNameIsValid(k);
    EndpointIsValid(k);
    ServiceIsValid();
    TagsAreValid(k);
    assert IsAccountId(k.account);
    assert |k.account| == 12;
  }

  lemma ServiceIsValid()
    ensures IsInstanceName(SERVICE)
  {}

  lemma TagsAreValid(k: Key)
    requires ValidKey(k)
    ensures ValidTags(map[TAG_MANAGED_BY := SERVICE, TAG_CLUSTER_ACCOUNT := k.account, TAG_CLUSTER := k.cluster])
  {
    var tags := map[TAG_MANAGED_BY := SERVICE, TAG_CLUSTER_ACCOUNT := k.account, TAG_CLUSTER := k.cluster];
    assert tags.Keys == {TAG_MANAGED_BY, TAG_CLUSTER_ACCOUNT, TAG_CLUSTER};
    assert |tags| == |tags.Keys| <= 3;
    assert IsTagKey(TAG_MANAGED_BY) && IsTagKey(TAG_CLUSTER_ACCOUNT) && IsTagKey(TAG_CLUSTER);
  }

  // ---- What a listing shows ----

  datatype InstanceState = Pending | InService | Stopped | Terminating

  function StateOf(s: Status): InstanceState {
    match s
    case Created => Pending
    case Running => InService
    case Restarting => InService
    case Paused => InService
    case Exited => Stopped
    case Dead => Stopped
    case Removing => Terminating
  }

  /** In service is what runs, pauses or restarts; stopped is what has exited or is dead. */
  lemma StateIs(s: Status)
    ensures StateOf(s) == Pending <==> s == Created
    ensures StateOf(s) == InService <==> s in {Running, Paused, Restarting}
    ensures StateOf(s) == Stopped <==> s in {Exited, Dead}
    ensures StateOf(s) == Terminating <==> s == Removing
  {}

  datatype View = View(name: string, tags: map<string, string>, state: InstanceState, health: Health)

  function ViewOf(c: Container): View {
    View(c.made.name, TagsFrom(LabelsFor(c.made)), StateOf(c.status), c.health)
  }

  /** The tags a view is filed under; a missing tag reads as the empty string. */
  function KeyOf(v: View): Key { Key(Label(v.tags, TAG_CLUSTER_ACCOUNT), Label(v.tags, TAG_CLUSTER)) }

  /** nache asks only for instances of its own account that carry its tag. */
  predicate IsListed(nache: string, c: Container) {
    c.made.account == nache && Label(TagsFrom(LabelsFor(c.made)), TAG_MANAGED_BY) == SERVICE
  }

  lemma NodeIsListedUnderItsKey(nache: string, k: Key, c: Container)
    requires c.made == NodeRequest(nache, k)
    ensures IsListed(nache, c) && KeyOf(ViewOf(c)) == k && ViewOf(c).name == NodeName(k.account, k.cluster)
  {
    hide LabelsFor, NodeName, Endpoint;
    TagsFromUndoes(c.made);
    TagKeysDiffer();
  }

  lemma TagKeysDiffer()
    ensures TAG_MANAGED_BY != TAG_CLUSTER_ACCOUNT && TAG_MANAGED_BY != TAG_CLUSTER
    ensures TAG_CLUSTER_ACCOUNT != TAG_CLUSTER
  {
    assert |TAG_MANAGED_BY| == 10 && |TAG_CLUSTER_ACCOUNT| == 15 && |TAG_CLUSTER| == 7;
  }
}
