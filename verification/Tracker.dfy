/** The PVC tracker, which keeps its mappings in one ConfigMap per namespace (tracker.go). */
module Tracker {
  import opened Strings
  import opened Collections
  import VolumeIds

  /** PVCMappingEntry without its creation time. */
  datatype Mapping = Mapping(namespace: string, pvcName: string, volumeId: string, fileSystemId: string)

  type Claims = map<string, Mapping>
  /** What the tracker stands for: the tracked claims of every namespace that has some. */
  type Book = map<string, Claims>

  function ClaimsOf(b: Book, ns: string): (c: Claims) {
    if ns in b then b[ns] else map[]
  }

  function Rewrite(b: Book, ns: string, c: Claims): (b': Book) {
    if |c| == 0 then b - {ns} else b[ns := c]
  }

  function Add(b: Book, m: Mapping): (b': Book) {
    Rewrite(b, m.namespace, ClaimsOf(b, m.namespace)[m.pvcName := m])
  }

  function Remove(b: Book, ns: string, pvc: string): (b': Book) {
    Rewrite(b, ns, ClaimsOf(b, ns) - {pvc})
  }

  function Count(b: Book, ns: string): (n: nat) {
    |ClaimsOf(b, ns)|
  }

  /** Every mapping of a namespace is filed under its own names. */
  ghost predicate Filed(c: Claims, ns: string) {
    forall p :: p in c ==> c[p].namespace == ns && c[p].pvcName == p
  }

  /** No namespace is kept without claims. */
  ghost predicate WellKept(b: Book) {
    forall ns :: ns in b ==> |b[ns]| > 0 && Filed(b[ns], ns)
  }

  lemma RewriteHere(b: Book, ns: string, c: Claims)
    ensures ClaimsOf(Rewrite(b, ns, c), ns) == c
  {
  }

  lemma RewriteElsewhere(b: Book, ns: string, c: Claims, other: string)
    requires other != ns
    ensures ClaimsOf(Rewrite(b, ns, c), other) == ClaimsOf(b, other)
    ensures other in Rewrite(b, ns, c) <==> other in b
  {
  }

  lemma RewriteKept(b: Book, ns: string, c: Claims)
    requires WellKept(b) && Filed(c, ns)
    ensures WellKept(Rewrite(b, ns, c))
  {
  }

  /** The book is exactly a set of claims per namespace: adding adds one claim, of that namespace only. */
  lemma AddIsInsert(b: Book, m: Mapping, ns: string)
    requires WellKept(b)
    ensures WellKept(Add(b, m))
    ensures ClaimsOf(Add(b, m), ns) == if ns == m.namespace then ClaimsOf(b, ns)[m.pvcName := m] else ClaimsOf(b, ns)
    ensures ClaimsOf(Add(b, m), ns).Keys == ClaimsOf(b, ns).Keys + if ns == m.namespace then {m.pvcName} else {}
  {
    var c := ClaimsOf(b, m.namespace)[m.pvcName := m];
    RewriteKept(b, m.namespace, c);
    if ns == m.namespace { RewriteHere(b, ns, c); } else { RewriteElsewhere(b, m.namespace, c, ns); }
  }

  lemma RemoveAbsent(b: Book, ns: string, pvc: string)
    requires ns !in b
    ensures Remove(b, ns, pvc) == b
  {
    assert ClaimsOf(b, ns) - {pvc} == map[];
  }

  lemma MinusSize(c: Claims, pvc: string)
    ensures |c - {pvc}| == 0 <==> c.Keys <= {pvc}
  {
    assert (c - {pvc}).Keys == c.Keys - {pvc};
    assert |c - {pvc}| == |(c - {pvc}).Keys|;
  }

  /** Removing takes out one claim of one namespace; the namespace is gone exactly when that left nothing. */
  lemma RemoveIsDelete(b: Book, ns: string, pvc: string, other: string)
    requires WellKept(b)
    ensures WellKept(Remove(b, ns, pvc))
    ensures ClaimsOf(Remove(b, ns, pvc), other)
            == if other == ns then ClaimsOf(b, other) - {pvc} else ClaimsOf(b, other)
    ensures ns !in Remove(b, ns, pvc) <==> ClaimsOf(b, ns).Keys <= {pvc}
    ensures Count(Remove(b, ns, pvc), ns) == 0 <==> ClaimsOf(b, ns).Keys <= {pvc}
  {
    var c := ClaimsOf(b, ns) - {pvc};
    MinusSize(ClaimsOf(b, ns), pvc);
    RewriteKept(b, ns, c);
    RewriteHere(b, ns, c);
    if other != ns { RewriteElsewhere(b, ns, c, other); }
  }

  /** Adding a claim that was not tracked and removing it again restores the book. */
  lemma AddRemove(b: Book, m: Mapping)
    requires WellKept(b) && m.pvcName !in ClaimsOf(b, m.namespace)
    ensures Remove(Add(b, m), m.namespace, m.pvcName) == b
  {
    var ns, c := m.namespace, ClaimsOf(b, m.namespace);
    RewriteHere(b, ns, c[m.pvcName := m]);
    assert c[m.pvcName := m] - {m.pvcName} == c;
    RewriteTwice(b, ns, c[m.pvcName := m], c);
    if ns in b { RewriteSame(b, ns); }
  }

  lemma RewriteTwice(b: Book, ns: string, c: Claims, d: Claims)
    ensures Rewrite(Rewrite(b, ns, c), ns, d) == Rewrite(b, ns, d)
  {
    if |c| == 0 { RemovedThenSet(b, ns, d); } else { Overwritten(b, ns, c, d); }
  }

  lemma RemovedThenSet<T>(b: map<string, T>, ns: string, d: T)
    ensures (b - {ns}) - {ns} == b - {ns} && (b - {ns})[ns := d] == b[ns := d]
  {
  }

  // ---------------------------------------------------------------------------------------------------------
  // Synchronisation with the cluster

  /** What reading a claim's storage class returned: an error, or its provisioningMode parameter. */
  datatype ClassRead = GetFailed | Class(mode: Option<string>)
  datatype Pvc = Pvc(name: string, storageClass: Option<ClassRead>)
  datatype PvcList = ListFailed | Items(pvcs: seq<Pvc>)

  /** What one synchronisation sees of the cluster, and the namespaces whose ConfigMap it fails to write. */
  datatype Cluster = Cluster(lists: map<string, PvcList>, failedWrites: set<string>)

  function ListIn(cl: Cluster, ns: string): (l: PvcList) {
    if ns in cl.lists then cl.lists[ns] else Items([])
  }

  predicate IsEfsNs(p: Pvc) {
    p.storageClass == Some(Class(Some("efs-ns")))
  }

  function Recognised(pvcs: seq<Pvc>): (names: set<string>) {
    set i | 0 <= i < |pvcs| && IsEfsNs(pvcs[i]) :: pvcs[i].name
  }

  function Restrict(c: Claims, names: set<string>): (c': Claims) {
    map p | p in c && p in names :: c[p]
  }

  /** The claims of one namespace after its synchronisation. */
  function Synced(c: Claims, ns: string, cl: Cluster): (c': Claims) {
    if ListIn(cl, ns).ListFailed? || ns in cl.failedWrites then c
    else Restrict(c, Recognised(ListIn(cl, ns).pvcs))
  }

  function Sync(b: Book, cl: Cluster): (b': Book) {
    map ns | ns in b && |Synced(b[ns], ns, cl)| > 0 :: Synced(b[ns], ns, cl)
  }

  predicate SyncFails(b: Book, ns: string, cl: Cluster) {
    ns in b && (ListIn(cl, ns).ListFailed?
                || (ns in cl.failedWrites && !(b[ns].Keys <= Recognised(ListIn(cl, ns).pvcs))))
  }

  /** No namespace failed to synchronise. */
  ghost predicate NoFailure(b: Book, cl: Cluster) {
    forall ns :: ns in b ==> !SyncFails(b, ns, cl)
  }

  /** A synchronisation without failures keeps exactly the claims recognised as live efs-ns claims. */
  lemma SyncIsIntersection(b: Book, cl: Cluster, ns: string)
    requires WellKept(b)
    ensures WellKept(Sync(b, cl))
    ensures !ListIn(cl, ns).ListFailed? && ns !in cl.failedWrites ==>
              ClaimsOf(Sync(b, cl), ns).Keys == ClaimsOf(b, ns).Keys * Recognised(ListIn(cl, ns).pvcs)
    ensures ListIn(cl, ns).ListFailed? || ns in cl.failedWrites ==> ClaimsOf(Sync(b, cl), ns) == ClaimsOf(b, ns)
    ensures forall p :: p in ClaimsOf(Sync(b, cl), ns) ==>
              p in ClaimsOf(b, ns) && ClaimsOf(Sync(b, cl), ns)[p] == ClaimsOf(b, ns)[p]
  {
    if ns in b {
      var c := Synced(b[ns], ns, cl);
      assert ClaimsOf(Sync(b, cl), ns) == c;
    }
  }

  lemma SyncIdempotent(b: Book, cl: Cluster)
    requires WellKept(b)
    ensures Sync(Sync(b, cl), cl) == Sync(b, cl)
  {
    forall ns | ns in Sync(b, cl) ensures Synced(Sync(b, cl)[ns], ns, cl) == Sync(b, cl)[ns] {
      SyncedTwice(b[ns], ns, cl);
    }
  }

  lemma SyncedTwice(c: Claims, ns: string, cl: Cluster)
    ensures Synced(Synced(c, ns, cl), ns, cl) == Synced(c, ns, cl)
  {
    if ListIn(cl, ns).Items? {
      var names := Recognised(ListIn(cl, ns).pvcs);
      assert Restrict(Restrict(c, names), names) == Restrict(c, names);
    }
  }

  /**
   * A tracked claim that is alive survives a synchronisation that reports no failure exactly when its storage class
   * could be read as an efs-ns one: an API failure on that read drops a live claim.
   */
  lemma LiveClaimSurvives(b: Book, cl: Cluster, ns: string, i: int)
    requires WellKept(b) && ns in b
    requires ListIn(cl, ns).Items? && 0 <= i < |ListIn(cl, ns).pvcs| && ListIn(cl, ns).pvcs[i].name in b[ns]
    requires forall j ::
               0 <= j < |ListIn(cl, ns).pvcs| && ListIn(cl, ns).pvcs[j].name == ListIn(cl, ns).pvcs[i].name ==> j == i
    requires !SyncFails(b, ns, cl)
    ensures ListIn(cl, ns).pvcs[i].name in ClaimsOf(Sync(b, cl), ns) <==> IsEfsNs(ListIn(cl, ns).pvcs[i])
  {
    var name := ListIn(cl, ns).pvcs[i].name;
    assert name in Recognised(ListIn(cl, ns).pvcs) <==> IsEfsNs(ListIn(cl, ns).pvcs[i]);
    SyncIsIntersection(b, cl, ns);
    if ns in cl.failedWrites {
      assert ClaimsOf(b, ns).Keys <= Recognised(ListIn(cl, ns).pvcs);
    }
  }

  /** A tracked namespace fails to synchronise exactly if its listing fails, or a write that has to drop a claim. */
  lemma SyncFailsExactly(b: Book, ns: string, cl: Cluster)
    requires ns in b
    ensures SyncFails(b, ns, cl)
            <==> || ListIn(cl, ns).ListFailed?
                 || (ns in cl.failedWrites && exists p :: p in b[ns] && p !in Recognised(ListIn(cl, ns).pvcs))
  {
  }

  /** Such a drop: the claim exists, its class read failed, no failure is reported and the claim is untracked. */
  lemma DroppedLiveClaim(m: Mapping)
    ensures var cl := Cluster(map[m.namespace := Items([Pvc(m.pvcName, Some(GetFailed))])], {});
            !SyncFails(Add(map[], m), m.namespace, cl) && Sync(Add(map[], m), cl) == map[]
  {
    var cl := Cluster(map[m.namespace := Items([Pvc(m.pvcName, Some(GetFailed))])], {});
    assert Recognised([Pvc(m.pvcName, Some(GetFailed))]) == {};
    var b: Book := Add(map[], m);
    assert m.pvcName in ClaimsOf(map[], m.namespace)[m.pvcName := m].Keys;
    assert |Synced(b[m.namespace], m.namespace, cl)| == 0;
  }

  // ---------------------------------------------------------------------------------------------------------
  // The ConfigMaps

  /** A ConfigMap of kube-system that carries the tracker's labels, with the mappings its data decodes to. */
  datatype ConfigMap = ConfigMap(target: string, data: Claims)
  type Store = map<string, ConfigMap>

  /** getConfigMapName */
  function ConfigMapName(ns: string, clusterId: string): (name: string) {
    "efs-ns-pvc-tracker" + "-" + ns + "-" + clusterId
  }

  lemma ConfigMapNameInjective(a: string, b: string, clusterId: string)
    ensures ConfigMapName(a, clusterId) == ConfigMapName(b, clusterId) <==> a == b
    ensures var n := |ConfigMapName(a, clusterId)| - |clusterId|;
            && ConfigMapName(a, clusterId)[..n] == "efs-ns-pvc-tracker-" + a + "-"
            && ConfigMapName(a, clusterId)[n..] == clusterId
  {
    assert "efs-ns-pvc-tracker" + "-" == "efs-ns-pvc-tracker-";
    var p := "efs-ns-pvc-tracker" + "-";
    assert ConfigMapName(a, clusterId)[|p|..|p| + |a|] == a;
    assert |ConfigMapName(a, clusterId)| == |p| + |a| + 1 + |clusterId|;
    assert |ConfigMapName(b, clusterId)| == |p| + |b| + 1 + |clusterId|;
    assert ConfigMapName(b, clusterId)[|p|..|p| + |b|] == b;
  }

  /** The store holds one ConfigMap for each namespace of the book, with its claims, and no other. */
  ghost predicate Linked(store: Store, clusterId: string, b: Book) {
    && WellKept(b) && "" !in b
    && (forall ns :: ns in b ==>
          ConfigMapName(ns, clusterId) in store && store[ConfigMapName(ns, clusterId)] == ConfigMap(ns, b[ns]))
    && (forall n :: n in store ==> store[n].target in b && n == ConfigMapName(store[n].target, clusterId))
  }

  function WriteMap(store: Store, clusterId: string, ns: string, c: Claims): (store': Store) {
    var name := ConfigMapName(ns, clusterId);
    if |c| == 0 then store - {name} else store[name := ConfigMap(ns, c)]
  }

  /** Writing or deleting one ConfigMap rewrites one namespace of the book, and no other namespace. */
  lemma WriteIsRewrite(store: Store, clusterId: string, b: Book, ns: string, c: Claims)
    requires Linked(store, clusterId, b) && ns != "" && Filed(c, ns)
    ensures Linked(WriteMap(store, clusterId, ns, c), clusterId, Rewrite(b, ns, c))
  {
    var store', b' := WriteMap(store, clusterId, ns, c), Rewrite(b, ns, c);
    RewriteKept(b, ns, c);
    forall other | other in b'
      ensures ConfigMapName(other, clusterId) in store'
      ensures store'[ConfigMapName(other, clusterId)] == ConfigMap(other, b'[other])
    {
      ConfigMapNameInjective(other, ns, clusterId);
    }
    forall n | n in store' ensures store'[n].target in b' && n == ConfigMapName(store'[n].target, clusterId) {
      if n != ConfigMapName(ns, clusterId) { assert n in store; }
    }
  }

  lemma NotTracked(store: Store, clusterId: string, b: Book, ns: string)
    requires Linked(store, clusterId, b)
    ensures ConfigMapName(ns, clusterId) in store <==> ns in b
  {
    if ConfigMapName(ns, clusterId) in store {
      ConfigMapNameInjective(ns, store[ConfigMapName(ns, clusterId)].target, clusterId);
    }
  }

  /** ConfigMapPVCTracker. `store` is the API server's side; the boolean arguments say whether a call reaches it. */
  class ConfigMapTracker {
    const clusterId: string
    var store: Store
    ghost var book: Book

    ghost predicate Valid()
      reads this
    {
      Linked(store, clusterId, book)
    }

    constructor (clusterId: string)
      ensures Valid() && book == map[] && this.clusterId == clusterId
    {
      this.clusterId := clusterId;
      store, book := map[], map[];
    }

    /** A create, update or delete call that reaches the API server: an empty mapping is never stored. */
    method WriteConfigMap(namespace: string, mappings: Claims)
      requires Valid() && namespace != "" && Filed(mappings, namespace)
      modifies this
      ensures Valid() && book == Rewrite(old(book), namespace, mappings)
      ensures store == WriteMap(old(store), clusterId, namespace, mappings)
    {
      WriteIsRewrite(store, clusterId, book, namespace, mappings);
      var name := ConfigMapName(namespace, clusterId);
      if |mappings| == 0 {
        store := store - {name};
      } else {
        store := store[name := ConfigMap(namespace, mappings)];
      }
      book := Rewrite(book, namespace, mappings);
    }

    /** Reading the ConfigMap of a namespace: its claims, or none when there is no ConfigMap. */
    method ReadConfigMap(namespace: string) returns (mappings: Option<Claims>)
      requires Valid() && namespace != ""
      ensures mappings == if namespace in book then Some(book[namespace]) else None
      ensures namespace in book ==> Filed(book[namespace], namespace)
    {
      NotTracked(store, clusterId, book, namespace);
      var name := ConfigMapName(namespace, clusterId);
      if name !in store { return None; }
      return Some(store[name].data);
    }

    method AddPVC(namespace: string, pvcName: string, volumeId: string, getOk: bool, writeOk: bool) returns (ok: bool)
      requires Valid()
      modifies this
      ensures Valid()
      ensures ok <==> namespace != "" && pvcName != "" && VolumeIds.Parse(volumeId).Some? && getOk && writeOk
      ensures book == if !ok then old(book)
                      else Add(old(book),
                               Mapping(namespace, pvcName, volumeId, VolumeIds.Parse(volumeId).value.fileSystemId))
    {
      if namespace == "" || pvcName == "" || volumeId == "" { return false; }
      var volId := VolumeIds.Parse(volumeId);
      if volId.None? { return false; }
      if !getOk { return false; }
      var configMap := ReadConfigMap(namespace);
      var mappings := map[];
      if configMap.Some? { mappings := configMap.value; }
      mappings := mappings[pvcName := Mapping(namespace, pvcName, volumeId, volId.value.fileSystemId)];
      if !writeOk { return false; }
      WriteConfigMap(namespace, mappings);
      return true;
    }

    method RemovePVC(namespace: string, pvcName: string, getOk: bool, writeOk: bool) returns (empty: bool, ok: bool)
      requires Valid()
      modifies this
      ensures Valid()
      ensures ok <==> namespace != "" && pvcName != "" && getOk && (writeOk || namespace !in old(book))
      ensures book == if !ok then old(book) else Remove(old(book), namespace, pvcName)
      ensures empty <==> ok && Count(book, namespace) == 0
    {
      if namespace == "" || pvcName == "" { return false, false; }
      if !getOk { return false, false; }
      var configMap := ReadConfigMap(namespace);
      if configMap.None? {
        RemoveAbsent(book, namespace, pvcName);
        return true, true;
      }
      var mappings := configMap.value - {pvcName};
      empty := |mappings| == 0;
      if !writeOk { return false, false; }
      WriteConfigMap(namespace, mappings);
      RewriteHere(old(book), namespace, mappings);
      return empty, true;
    }

    method GetPVCCount(namespace: string, getOk: bool) returns (count: Option<nat>)
      requires Valid()
      ensures count == if namespace == "" || !getOk then None else Some(Count(book, namespace))
    {
      if namespace == "" { return None; }
      if !getOk { return None; }
      var configMap := ReadConfigMap(namespace);
      if configMap.None? { return Some(0); }
      return Some(|configMap.value|);
    }

    method ListPVCsInNamespace(namespace: string, getOk: bool) returns (names: Option<seq<string>>)
      requires Valid()
      ensures names.Some? <==> namespace != "" && getOk
      ensures names.Some? ==> multiset(names.value) == multiset(ClaimsOf(book, namespace).Keys)
    {
      if namespace == "" || !getOk { return None; }
      var configMap := ReadConfigMap(namespace);
      if configMap.None? { return Some([]); }
      var pvcNames := KeysOf(configMap.value);
      return Some(pvcNames);
    }

    method KeysOf(mappings: Claims) returns (names: seq<string>)
      ensures multiset(names) == multiset(mappings.Keys)
    {
      var todo := mappings.Keys;
      names := [];
      while todo != {}
        invariant todo <= mappings.Keys
        invariant multiset(names) == multiset(mappings.Keys - todo)
      {
        var pvcName :| pvcName in todo;
        assert mappings.Keys - (todo - {pvcName}) == (mappings.Keys - todo) + {pvcName};
        names := names + [pvcName];
        todo := todo - {pvcName};
      }
      assert mappings.Keys - {} == mappings.Keys;
    }

    /** The set of live claims of the efs-ns provisioning mode, as syncNamespace collects it. */
    method CollectRecognised(pvcs: seq<Pvc>) returns (actual: set<string>)
      ensures actual == Recognised(pvcs)
    {
      actual := {};
      for i := 0 to |pvcs|
        invariant actual == Recognised(pvcs[..i])
      {
        var pvc := pvcs[i];
        assert pvcs[..i + 1] == pvcs[..i] + [pvc];
        RecognisedSnoc(pvcs[..i], pvc);
        if pvc.storageClass.Some? && pvc.storageClass.value.Class? && pvc.storageClass.value.mode == Some("efs-ns") {
          actual := actual + {pvc.name};
        }
      }
      assert pvcs[..|pvcs|] == pvcs;
    }

    /** The loop of syncNamespace that deletes the mappings of claims that are not there any more. */
    method DropStale(mappings: Claims, actual: set<string>) returns (kept: Claims, updated: bool)
      ensures kept == Restrict(mappings, actual)
      ensures updated <==> !(mappings.Keys <= actual)
    {
      kept, updated := mappings, false;
      var todo := mappings.Keys;
      while todo != {}
        invariant todo <= mappings.Keys
        invariant kept == map p | p in mappings && (p in todo || p in actual) :: mappings[p]
        invariant updated <==> !(mappings.Keys - todo <= actual)
      {
        var pvcName :| pvcName in todo;
        if pvcName !in actual {
          kept := kept - {pvcName};
          updated := true;
        }
        todo := todo - {pvcName};
      }
    }

    /** syncNamespace */
    method SyncNamespace(namespace: string, cl: Cluster) returns (ok: bool)
      requires Valid() && namespace in book
      modifies this
      ensures Valid() && book == SyncOne(old(book), namespace, cl)
      ensures ok == !SyncFails(old(book), namespace, cl)
    {
      var configMap := ReadConfigMap(namespace);
      var mappings := configMap.value;
      RewriteSame(book, namespace);
      if ListIn(cl, namespace).ListFailed? { return false; }
      var actual := CollectRecognised(ListIn(cl, namespace).pvcs);
      var kept, updated := DropStale(mappings, actual);
      if !updated {
        assert kept == mappings;
        return true;
      }
      if namespace in cl.failedWrites { return false; }
      WriteConfigMap(namespace, kept);
      return true;
    }

    /** SyncWithCluster: `listed` is what the List call returned, one item per ConfigMap in any order. */
    method SyncWithCluster(listed: Option<seq<string>>, cl: Cluster) returns (ok: bool)
      requires Valid()
      requires listed.Some? ==> Lists(listed.value, book)
      modifies this
      ensures Valid()
      ensures book == if listed.Some? then Sync(old(book), cl) else old(book)
      ensures ok <==> listed.Some? && NoFailure(old(book), cl)
    {
      if listed.None? { return false; }
      var names := listed.value;
      ok := true;
      ghost var b := book;
      for i := 0 to |names|
        invariant Valid()
        invariant book == SyncSeq(b, names[..i], cl)
        invariant ok <==> forall k :: 0 <= k < i ==> !SyncFails(b, names[k], cl)
      {
        SyncSeqNext(b, names, i, cl);
        var nsOk := SyncNamespace(names[i], cl);
        if !nsOk { ok := false; }
      }
      assert names[..|names|] == names;
      SyncSeqIsSync(b, names, cl);
    }
  }

  // ---------------------------------------------------------------------------------------------------------
  // A synchronisation namespace by namespace

  /** A listing of the tracked namespaces: each one once. */
  ghost predicate Lists(names: seq<string>, b: Book) {
    && (forall ns :: ns in b <==> ns in names)
    && forall i, j :: 0 <= i < j < |names| ==> names[i] != names[j]
  }

  function SyncOne(b: Book, ns: string, cl: Cluster): (b': Book) {
    Rewrite(b, ns, Synced(ClaimsOf(b, ns), ns, cl))
  }

  function SyncSeq(b: Book, names: seq<string>, cl: Cluster): (b': Book) {
    if names == [] then b else SyncOne(SyncSeq(b, names[..|names| - 1], cl), names[|names| - 1], cl)
  }

  lemma {:induction false} SyncSeqUntouched(b: Book, names: seq<string>, cl: Cluster, ns: string)
    requires ns !in names
    ensures ns in SyncSeq(b, names, cl) <==> ns in b
    ensures ClaimsOf(SyncSeq(b, names, cl), ns) == ClaimsOf(b, ns)
  {
    if names != [] {
      var rest, last := names[..|names| - 1], names[|names| - 1];
      assert last in names;
      SyncSeqUntouched(b, rest, cl, ns);
      var b1 := SyncSeq(b, rest, cl);
      RewriteElsewhere(b1, last, Synced(ClaimsOf(b1, last), last, cl), ns);
    }
  }

  /** Namespace by namespace, what a partial synchronisation leaves. */
  lemma {:induction false} SyncSeqAt(b: Book, names: seq<string>, cl: Cluster, i: int)
    requires 0 <= i < |names| && forall j, k :: 0 <= j < k < |names| ==> names[j] != names[k]
    ensures ClaimsOf(SyncSeq(b, names, cl), names[i]) == Synced(ClaimsOf(b, names[i]), names[i], cl)
    ensures names[i] in SyncSeq(b, names, cl) <==> |Synced(ClaimsOf(b, names[i]), names[i], cl)| > 0
  {
    var rest, last := names[..|names| - 1], names[|names| - 1];
    var b1 := SyncSeq(b, rest, cl);
    if i == |names| - 1 {
      SyncSeqUntouched(b, rest, cl, last);
      RewriteHere(b1, last, Synced(ClaimsOf(b, last), last, cl));
      RewriteIn(b1, last, Synced(ClaimsOf(b, last), last, cl));
    } else {
      SyncSeqAt(b, rest, cl, i);
      RewriteElsewhere(b1, last, Synced(ClaimsOf(b1, last), last, cl), names[i]);
    }
  }

  lemma RewriteIn(b: Book, ns: string, c: Claims)
    ensures ns in Rewrite(b, ns, c) <==> |c| > 0
  {
  }

  lemma SyncSeqNext(b: Book, names: seq<string>, i: nat, cl: Cluster)
    requires Lists(names, b) && i < |names|
    ensures ClaimsOf(SyncSeq(b, names[..i], cl), names[i]) == b[names[i]] && names[i] in SyncSeq(b, names[..i], cl)
    ensures SyncSeq(b, names[..i + 1], cl) == SyncOne(SyncSeq(b, names[..i], cl), names[i], cl)
    ensures SyncFails(SyncSeq(b, names[..i], cl), names[i], cl) == SyncFails(b, names[i], cl)
  {
    assert names[..i + 1][..i] == names[..i];
    assert names[i] !in names[..i] && names[i] in names;
    SyncSeqUntouched(b, names[..i], cl, names[i]);
  }

  /** Whatever the order of the listing, the synchronisation is the intersection of the whole book. */
  lemma SyncSeqIsSync(b: Book, names: seq<string>, cl: Cluster)
    requires Lists(names, b)
    ensures SyncSeq(b, names, cl) == Sync(b, cl)
    ensures NoFailure(b, cl) <==> forall k :: 0 <= k < |names| ==> !SyncFails(b, names[k], cl)
  {
    var x, y := SyncSeq(b, names, cl), Sync(b, cl);
    forall ns ensures (ns in x <==> ns in y) && (ns in x ==> ClaimsOf(x, ns) == ClaimsOf(y, ns)) {
      SyncedAt(b, names, cl, ns);
    }
    assert x.Keys == y.Keys;
    assert forall ns :: ns in x ==> x[ns] == ClaimsOf(x, ns) && y[ns] == ClaimsOf(y, ns);
  }

  lemma SyncedAt(b: Book, names: seq<string>, cl: Cluster, ns: string)
    requires Lists(names, b)
    ensures ns in SyncSeq(b, names, cl) <==> ns in Sync(b, cl)
    ensures ns in Sync(b, cl) ==> ClaimsOf(SyncSeq(b, names, cl), ns) == ClaimsOf(Sync(b, cl), ns)
  {
    if ns in names {
      var i :| 0 <= i < |names| && names[i] == ns;
      SyncSeqAt(b, names, cl, i);
    } else {
      SyncSeqUntouched(b, names, cl, ns);
    }
  }

  lemma RewriteSame(b: Book, ns: string)
    requires ns in b && |b[ns]| > 0
    ensures Rewrite(b, ns, b[ns]) == b
  {
  }

  lemma RecognisedSnoc(pvcs: seq<Pvc>, pvc: Pvc)
    ensures Recognised(pvcs + [pvc]) == Recognised(pvcs) + if IsEfsNs(pvc) then {pvc.name} else {}
  {
    var all := pvcs + [pvc];
    forall n | n in Recognised(all) ensures n in Recognised(pvcs) + if IsEfsNs(pvc) then {pvc.name} else {} {
      var i :| 0 <= i < |all| && IsEfsNs(all[i]) && all[i].name == n;
      if i < |pvcs| { assert pvcs[i] == all[i]; }
    }
    forall n | n in Recognised(pvcs) ensures n in Recognised(all) {
      var i :| 0 <= i < |pvcs| && IsEfsNs(pvcs[i]) && pvcs[i].name == n;
      assert all[i] == pvcs[i];
    }
    assert all[|pvcs|] == pvc;
  }
}
