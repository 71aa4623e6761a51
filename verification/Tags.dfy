/** Names and tags of the file systems the driver creates, and how it finds them again (manager.go). */
module Tags {
  import opened Strings

  type TagMap = map<string, string>

  const NAMESPACE_KEY: string := "kubernetes.io/namespace"
  const CLUSTER_KEY: string := "kubernetes.io/cluster"
  const MANAGED_BY_KEY: string := "kubernetes.io/managed-by"
  const CREATED_BY_KEY: string := "kubernetes.io/created-by"
  const PROVISIONER_KEY: string := "kubernetes.io/provisioner"
  const COMPONENT_KEY: string := "kubernetes.io/component"
  const RESERVED: string := "kubernetes.io/"
  const NAME_KEY: string := "Name"
  const MANAGED_BY: string := "efs-csi-driver"
  const CREATED_BY: string := "efs-ns-provisioner"

  /** FileSystemNameFormat */
  function NameFor(ns: string, cluster: string): (name: string) {
    "efs-ns-" + ns + "-" + cluster
  }

  /** For one cluster, a name belongs to one namespace. */
  lemma NameForInjective(a: string, b: string, cluster: string)
    ensures NameFor(a, cluster) == NameFor(b, cluster) <==> a == b
    ensures var n := |NameFor(a, cluster)| - |cluster|;
            NameFor(a, cluster)[..n] == "efs-ns-" + a + "-" && NameFor(a, cluster)[n..] == cluster
  {
    var p: string := "efs-ns-";
    assert |NameFor(a, cluster)| == |p| + |a| + 1 + |cluster|;
    assert |NameFor(b, cluster)| == |p| + |b| + 1 + |cluster|;
    assert NameFor(a, cluster)[|p|..|p| + |a|] == a;
    assert NameFor(b, cluster)[|p|..|p| + |b|] == b;
  }

  function SystemTags(ns: string, cluster: string): (tags: TagMap) {
    map[NAMESPACE_KEY := ns, CLUSTER_KEY := cluster, MANAGED_BY_KEY := MANAGED_BY, CREATED_BY_KEY := CREATED_BY,
        PROVISIONER_KEY := "efs.csi.aws.com", COMPONENT_KEY := "efs-ns-filesystem"]
  }

  function UserTags(user: TagMap): (tags: TagMap) {
    map k | k in user && !(RESERVED <= k) :: user[k]
  }

  /** What buildTags returns. */
  function Built(ns: string, cluster: string, user: TagMap): (tags: TagMap) {
    SystemTags(ns, cluster) + UserTags(user)
  }

  /** buildTags: the user's tags are copied one by one, in any order. */
  method BuildTags(namespace: string, cluster: string, user: TagMap) returns (tags: TagMap)
    ensures tags == Built(namespace, cluster, user)
  {
    tags := SystemTags(namespace, cluster);
    var todo := user.Keys;
    while todo != {}
      invariant todo <= user.Keys
      invariant tags == SystemTags(namespace, cluster) + (UserTags(user) - todo)
    {
      var key :| key in todo;
      if !(RESERVED <= key) {
        tags := tags[key := user[key]];
      }
      todo := todo - {key};
    }
  }

  /** isEFSNSManagedFileSystem */
  predicate Managed(tags: TagMap) {
    || (MANAGED_BY_KEY in tags && tags[MANAGED_BY_KEY] == MANAGED_BY)
    || (CREATED_BY_KEY in tags && tags[CREATED_BY_KEY] == CREATED_BY)
  }

  /** What findExistingFileSystem accepts for a namespace. */
  predicate Findable(tags: TagMap, ns: string, cluster: string) {
    NAME_KEY in tags && tags[NAME_KEY] == NameFor(ns, cluster) && Managed(tags)
  }

  /** Which file systems are found for a namespace, whoever has tagged them. */
  lemma FindableText(tags: TagMap, ns: string, cluster: string)
    ensures Findable(tags, ns, cluster)
            <==> && "Name" in tags && tags["Name"] == "efs-ns-" + ns + "-" + cluster
                 && (|| ("kubernetes.io/managed-by", "efs-csi-driver") in tags.Items
                     || ("kubernetes.io/created-by", "efs-ns-provisioner") in tags.Items)
  {
  }

  /** The tags of a file system after tagFileSystem and setFileSystemName, either of which may fail. */
  function Tagged(ns: string, cluster: string, user: TagMap, tagOk: bool, nameOk: bool): (tags: TagMap) {
    var tags := if tagOk then Built(ns, cluster, user) else map[];
    if nameOk then tags[NAME_KEY := NameFor(ns, cluster)] else tags
  }

  /** The user's tags never change a system tag. */
  lemma SystemTagsWin(ns: string, cluster: string, user: TagMap, key: string)
    ensures RESERVED <= key ==>
              && (key in Built(ns, cluster, user) <==> key in SystemTags(ns, cluster))
              && (key in SystemTags(ns, cluster) ==> Built(ns, cluster, user)[key] == SystemTags(ns, cluster)[key])
    ensures !(RESERVED <= key) && key in user ==>
              key in Built(ns, cluster, user) && Built(ns, cluster, user)[key] == user[key]
  {
  }

  /** The six tags the driver sets, with their values, and every tag of the user's that is not reserved. */
  lemma BuiltExactly(ns: string, cluster: string, user: TagMap, key: string)
    ensures var tags := Built(ns, cluster, user);
            if "kubernetes.io/" <= key then
              (if key == "kubernetes.io/namespace" then key in tags && tags[key] == ns
               else if key == "kubernetes.io/cluster" then key in tags && tags[key] == cluster
               else if key == "kubernetes.io/managed-by" then key in tags && tags[key] == "efs-csi-driver"
               else if key == "kubernetes.io/created-by" then key in tags && tags[key] == "efs-ns-provisioner"
               else if key == "kubernetes.io/provisioner" then key in tags && tags[key] == "efs.csi.aws.com"
               else if key == "kubernetes.io/component" then key in tags && tags[key] == "efs-ns-filesystem"
               else key !in tags)
            else (key in tags <==> key in user) && (key in user ==> tags[key] == user[key])
  {
    assert RESERVED <= NAMESPACE_KEY && RESERVED <= CLUSTER_KEY && RESERVED <= MANAGED_BY_KEY
           && RESERVED <= CREATED_BY_KEY && RESERVED <= PROVISIONER_KEY && RESERVED <= COMPONENT_KEY;
    KeysDiffer();
    SystemTagsWin(ns, cluster, user, key);
  }

  lemma KeysDiffer()
    ensures NAMESPACE_KEY != CLUSTER_KEY && NAMESPACE_KEY != MANAGED_BY_KEY && NAMESPACE_KEY != CREATED_BY_KEY
    ensures NAMESPACE_KEY != PROVISIONER_KEY && NAMESPACE_KEY != COMPONENT_KEY && CLUSTER_KEY != MANAGED_BY_KEY
    ensures CLUSTER_KEY != CREATED_BY_KEY && CLUSTER_KEY != PROVISIONER_KEY && CLUSTER_KEY != COMPONENT_KEY
    ensures MANAGED_BY_KEY != CREATED_BY_KEY && MANAGED_BY_KEY != PROVISIONER_KEY && MANAGED_BY_KEY != COMPONENT_KEY
    ensures CREATED_BY_KEY != PROVISIONER_KEY && CREATED_BY_KEY != COMPONENT_KEY && PROVISIONER_KEY != COMPONENT_KEY
  {
    assert NAMESPACE_KEY[14] == 'n' && CLUSTER_KEY[14] == 'c' && MANAGED_BY_KEY[14] == 'm' && CREATED_BY_KEY[14] == 'c'
           && PROVISIONER_KEY[14] == 'p' && COMPONENT_KEY[14] == 'c';
    assert CLUSTER_KEY[15] == 'l' && CREATED_BY_KEY[15] == 'r' && COMPONENT_KEY[15] == 'o';
  }

  /** The tags after both calls: the name if it could be set, the others if the tag call worked. */
  lemma TaggedExactly(ns: string, cluster: string, user: TagMap, tagOk: bool, nameOk: bool, key: string)
    ensures var tags, built := Tagged(ns, cluster, user, tagOk, nameOk), Built(ns, cluster, user);
            && (key in tags <==> (nameOk && key == "Name") || (tagOk && key in built))
            && (key in tags ==> tags[key] == if nameOk && key == "Name" then NameFor(ns, cluster) else built[key])
  {
  }

  lemma BuiltManaged(ns: string, cluster: string, user: TagMap)
    ensures Managed(Built(ns, cluster, user))
    ensures NAMESPACE_KEY in Built(ns, cluster, user) && Built(ns, cluster, user)[NAMESPACE_KEY] == ns
    ensures NAME_KEY in Built(ns, cluster, user) <==> NAME_KEY in user
    ensures NAME_KEY in user ==> Built(ns, cluster, user)[NAME_KEY] == user[NAME_KEY]
  {
    assert RESERVED <= MANAGED_BY_KEY && RESERVED <= NAMESPACE_KEY;
    assert RESERVED[0] != NAME_KEY[0];
    assert !(RESERVED <= NAME_KEY);
    SystemTagsWin(ns, cluster, user, MANAGED_BY_KEY);
    SystemTagsWin(ns, cluster, user, NAMESPACE_KEY);
    SystemTagsWin(ns, cluster, user, NAME_KEY);
    assert NAME_KEY !in SystemTags(ns, cluster) by {
      assert NAMESPACE_KEY[0] == 'k' && CLUSTER_KEY[0] == 'k' && MANAGED_BY_KEY[0] == 'k' && CREATED_BY_KEY[0] == 'k'
          && PROVISIONER_KEY[0] == 'k' && COMPONENT_KEY[0] == 'k' && NAME_KEY[0] == 'N';
    }
  }

  /** A file system is findable by its own namespace when both calls succeeded, and only when the tags were set. */
  lemma FindableExactly(ns: string, cluster: string, user: TagMap, tagOk: bool, nameOk: bool, other: string)
    ensures Findable(Tagged(ns, cluster, user, tagOk, nameOk), other, cluster)
            <==> tagOk && if nameOk then other == ns else NAME_KEY in user && user[NAME_KEY] == NameFor(other, cluster)
  {
    BuiltManaged(ns, cluster, user);
    NameForInjective(ns, other, cluster);
    assert NAME_KEY[0] == 'N' && MANAGED_BY_KEY[0] == 'k' && CREATED_BY_KEY[0] == 'k';
  }

  /**
   * A file system made for one namespace is taken for another's exactly when a user tag says so: the `Name` tag is not
   * reserved, and stays if the call that sets the name fails.
   */
  lemma WrongNamespaceExactly(ns: string, cluster: string, user: TagMap, tagOk: bool, nameOk: bool, other: string)
    requires other != ns
    ensures Findable(Tagged(ns, cluster, user, tagOk, nameOk), other, cluster)
            <==> tagOk && !nameOk && NAME_KEY in user && user[NAME_KEY] == NameFor(other, cluster)
  {
    FindableExactly(ns, cluster, user, tagOk, nameOk, other);
  }

  /** No user tag gives the name of another namespace's file system. */
  ghost predicate NamesNoOther(ns: string, cluster: string, user: TagMap) {
    NAME_KEY in user ==> forall other :: other != ns ==> user[NAME_KEY] != NameFor(other, cluster)
  }

  /** That is exactly what keeps every outcome of the two calls from being taken for another namespace's. */
  lemma NamesNoOtherExactly(ns: string, cluster: string, user: TagMap)
    ensures NamesNoOther(ns, cluster, user)
            <==> forall tagOk, nameOk, other ::
                   Findable(Tagged(ns, cluster, user, tagOk, nameOk), other, cluster) ==> other == ns
  {
    forall tagOk, nameOk, other ensures Findable(Tagged(ns, cluster, user, tagOk, nameOk), other, cluster)
      <==> tagOk && if nameOk then other == ns else NAME_KEY in user && user[NAME_KEY] == NameFor(other, cluster)
    {
      FindableExactly(ns, cluster, user, tagOk, nameOk, other);
    }
    if !NamesNoOther(ns, cluster, user) {
      var other :| other != ns && user[NAME_KEY] == NameFor(other, cluster);
      assert Findable(Tagged(ns, cluster, user, true, false), other, cluster);
    }
  }

  lemma NamespaceTag(ns: string, cluster: string, user: TagMap, tagOk: bool, nameOk: bool)
    ensures var tags := Tagged(ns, cluster, user, tagOk, nameOk);
            NAMESPACE_KEY in tags ==> tags[NAMESPACE_KEY] == ns
  {
    BuiltManaged(ns, cluster, user);
    assert NAME_KEY[0] == 'N' && NAMESPACE_KEY[0] == 'k';
  }
}
