/**
 * What the operations of Lifecycle do, exactly: which answers of the outside world make them succeed, and what they
 * leave in the account, the cache and the finalizers, said in terms of what was there before.
 */
module LifecycleExact {
  import opened Strings
  import opened Types
  import opened Tags
  import opened Lifecycle
  import Cache
  import Tracker
  import VolumeIds

  function Live(s: State, ns: string): (info: Option<FileSystemInfo>) {
    Cache.Lookup(s.cache, ns, s.now)
  }

  function Claims(s: State, ns: string): (pvcs: set<string>) {
    Tracker.ClaimsOf(s.book, ns).Keys
  }

  /** The file system a lookup comes to: that of the live entry, or else one that a listing shows. */
  predicate Finds(s: State, ns: string, r: Reading, id: string) {
    if Live(s, ns).Some? then Live(s, ns).value.fileSystemId == id
    else r.order.Some? && Seen(s.aws, s.cluster, ns, id)
  }

  /** It is neither on its way in nor on its way out, and the count that goes with it is zero. */
  predicate Idle(s: State, ns: string, r: Reading) {
    if Live(s, ns).Some? then Live(s, ns).value.pvcCount <= 0 && Settled(Live(s, ns).value.state)
    else Settled(r.state) && (r.countOk ==> Claims(s, ns) == {})
  }

  predicate Settled(state: FsState) {
    state == Available || state == Errored
  }

  // ---------------------------------------------------------------------------------------------------------
  // Lookup and deletion

  /** What a lookup says and stores. */
  lemma LookupExactly(s: State, ns: string, r: Reading, id: string)
    requires Inv(s) && Reads(s, r) && ns != ""
    ensures var (s', f) := GetInfo(s, ns, r);
            && (f.Unknown? <==> Live(s, ns).None? && r.order.None?)
            && (f.Missing? <==> r.order.Some? && Nothing(s, ns))
            && (f.Present? && f.info.fileSystemId == id <==> Finds(s, ns, r, id))
            && (Live(s, ns).Some? ==> f == Present(Live(s, ns).value))
            && (Live(s, ns).None? && f.Present? ==>
                  && f.info.namespace == ns && f.info.state == r.state
                  && f.info.pvcCount == (if r.countOk then |Claims(s, ns)| else 0)
                  && s' == s.(cache := s.cache.(data := s.cache.data[ns := Cache.Entry(f.info, s.now, s.cache.ttl)])))
            && (Live(s, ns).Some? || !f.Present? ==> s' == s)
  {
    GetInfoKeeps(s, ns, r);
    var f := GetInfo(s, ns, r).1;
    if f.Present? { FoundIsSomething(s, ns, r); }
    assert |Tracker.ClaimsOf(s.book, ns)| == |Claims(s, ns)|;
  }

  lemma IdleIsDeletable(s: State, ns: string, r: Reading)
    requires Inv(s) && Reads(s, r) && ns != "" && GetInfo(s, ns, r).1.Present?
    ensures GetInfo(s, ns, r).1.info.CanBeDeleted() <==> Idle(s, ns, r)
  {
    var info := GetInfo(s, ns, r).1.info;
    LookupExactly(s, ns, r, info.fileSystemId);
    NoClaims(s, ns);
    assert info.CanBeDeleted() <==> info.pvcCount <= 0 && Settled(info.state);
  }

  /** The condition under which a deletion goes through. */
  ghost predicate Goes(s: State, ns: string, volumeId: string, d: Deleting) {
    && ns != "" && VolumeIds.Parse(volumeId).Some? && d.countOk && Claims(s, ns) == {}
    && (|| (Nothing(s, ns) && d.reading.order.Some?)
        || ((exists id :: Finds(s, ns, d.reading, id)) && Idle(s, ns, d.reading) && d.mountsOk && d.deleteOk))
  }

  /**
   * A deletion removes exactly the file system a lookup finds, and forgets it, exactly if it goes through; otherwise
   * it may leave what its lookup stored.
   */
  lemma DeletionExactly(s: State, ns: string, volumeId: string, d: Deleting, id: string)
    requires Inv(s) && Reads(s, d.reading)
    ensures var (s', ok) := Delete(s, ns, volumeId, d);
            && (ok <==> Goes(s, ns, volumeId, d))
            && (ok && Finds(s, ns, d.reading, id) ==> s'.aws == s.aws - {id})
            && (!ok || Nothing(s, ns) ==> s'.aws == s.aws)
            && (ok ==> s'.cache.data == s.cache.data - {ns} && s'.cache.ttl == s.cache.ttl)
            && (!ok ==> s'.cache == s.cache || s'.cache == GetInfo(s, ns, d.reading).0.cache)
            && s' == s.(aws := s'.aws, cache := s'.cache)
  {
    NoClaims(s, ns);
    if ns == "" || VolumeIds.Parse(volumeId).None? || !d.countOk || Claims(s, ns) != {} {
      assert Delete(s, ns, volumeId, d) == (s, false);
    } else if GetInfo(s, ns, d.reading).1.Present? {
      DeletionFound(s, ns, volumeId, d, id);
      FoundIsFound(s, ns, d.reading);
    } else {
      DeletionNotFound(s, ns, volumeId, d);
    }
  }

  lemma NoClaims(s: State, ns: string)
    ensures Tracker.Count(s.book, ns) == |Claims(s, ns)|
    ensures Tracker.Count(s.book, ns) == 0 <==> Claims(s, ns) == {}
  {
    assert |Tracker.ClaimsOf(s.book, ns)| == |Claims(s, ns)|;
  }

  lemma FoundIsFound(s: State, ns: string, r: Reading)
    requires Inv(s) && Reads(s, r) && ns != "" && GetInfo(s, ns, r).1.Present?
    ensures exists id :: Finds(s, ns, r, id)
  {
    var id := GetInfo(s, ns, r).1.info.fileSystemId;
    LookupExactly(s, ns, r, id);
    assert Finds(s, ns, r, id);
  }

  lemma DeletionNotFound(s: State, ns: string, volumeId: string, d: Deleting)
    requires Inv(s) && Reads(s, d.reading) && !GetInfo(s, ns, d.reading).1.Present?
    requires ns != "" && VolumeIds.Parse(volumeId).Some? && d.countOk && Tracker.Count(s.book, ns) == 0
    ensures forall id :: !Finds(s, ns, d.reading, id)
    ensures Delete(s, ns, volumeId, d)
            == if d.reading.order.Some? && Nothing(s, ns) then (Forget(s, ns), true) else (s, false)
  {
    NotFound(s, ns, d.reading);
    LookupExactly(s, ns, d.reading, "");
  }

  lemma DeletionFound(s: State, ns: string, volumeId: string, d: Deleting, id: string)
    requires Inv(s) && Reads(s, d.reading) && GetInfo(s, ns, d.reading).1.Present?
    requires ns != "" && VolumeIds.Parse(volumeId).Some? && d.countOk && Tracker.Count(s.book, ns) == 0
    ensures var (s1, f) := GetInfo(s, ns, d.reading);
            var (s', ok) := Delete(s, ns, volumeId, d);
            && !Nothing(s, ns) && (Finds(s, ns, d.reading, id) <==> id == f.info.fileSystemId)
            && (ok <==> Idle(s, ns, d.reading) && d.mountsOk && d.deleteOk)
            && s' == if !ok then s1
                     else s.(aws := s.aws - {f.info.fileSystemId}, cache := s.cache.(data := s.cache.data - {ns}))
  {
    var (s1, f) := GetInfo(s, ns, d.reading);
    GetInfoKeeps(s, ns, d.reading);
    FoundIsSomething(s, ns, d.reading);
    IdleIsDeletable(s, ns, d.reading);
    LookupExactly(s, ns, d.reading, id);
    assert s1.cache.data - {ns} == s.cache.data - {ns};
  }

  lemma NotFound(s: State, ns: string, r: Reading)
    requires Inv(s) && Reads(s, r) && ns != "" && !GetInfo(s, ns, r).1.Present?
    ensures forall id :: !Finds(s, ns, r, id)
  {
    forall id ensures !Finds(s, ns, r, id) { LookupExactly(s, ns, r, id); }
  }

  /** A found file system that is still being created, or on its way out, is refused, and so is one with claims. */
  lemma UnsettledRefused(s: State, ns: string, volumeId: string, d: Deleting)
    requires Inv(s) && Reads(s, d.reading) && Live(s, ns).None? && !Nothing(s, ns)
    requires d.reading.state in {FsState.Creating, FsState.Deleting, FsState.Deleted}
    ensures !Delete(s, ns, volumeId, d).1 && Delete(s, ns, volumeId, d).0.aws == s.aws
  {
    assert !Idle(s, ns, d.reading);
    DeletionExactly(s, ns, volumeId, d, "");
  }

  // ---------------------------------------------------------------------------------------------------------
  // Creation

  /** Whether a request comes to a file system: one is found, or none is and one is made. */
  ghost predicate Obtains(s: State, ns: string, optionsOk: bool, r: Reading, m: Making, id: string) {
    && ns != "" && optionsOk
    && (|| Finds(s, ns, r, id)
        || (Nothing(s, ns) && r.order.Some? && m.id == Some(id) && m.waitOk && m.mountsOk))
  }

  /** The account once a file system has been made, with the tags that got through. */
  function WithMade(s: State, ns: string, user: TagMap, m: Making): (aws: Account)
    requires m.id.Some?
  {
    s.aws[m.id.value := FileSystem(ns, if m.waitOk then Tagged(ns, s.cluster, user, m.tagOk, m.nameOk) else map[])]
  }

  /**
   * CreateOrGetFileSystemForNamespace: which file system it hands out, that it caches it, and what it leaves in the
   * account: nothing new unless none was found, and then what was made, unless its cleanup took it away again.
   */
  lemma CreationExactly(s: State, ns: string, optionsOk: bool, user: TagMap, r: Reading, m: Making, id: string)
    requires Inv(s) && Reads(s, r) && Gives(s, m) && NamesNoOther(ns, s.cluster, user)
    ensures var (s', info) := CreateOrGet(s, ns, optionsOk, user, r, m);
            && (info.Some? && info.value.fileSystemId == id <==> Obtains(s, ns, optionsOk, r, m, id))
            && (info.Some? ==> Live(s', ns) == info)
            && s'.aws == (if ns == "" || !optionsOk || r.order.None? || !Nothing(s, ns) || m.id.None?
                             || (!(m.waitOk && m.mountsOk) && m.cleanupOk)
                          then s.aws else WithMade(s, ns, user, m))
            && (info.None? ==> s'.cache == s.cache) && s' == s.(aws := s'.aws, cache := s'.cache)
  {
    if ns != "" && optionsOk {
      if GetInfo(s, ns, r).1.Present? {
        CreationFinds(s, ns, user, r, m, id);
      } else {
        CreationMakes(s, ns, user, r, m, id);
      }
    }
  }

  lemma CreationFinds(s: State, ns: string, user: TagMap, r: Reading, m: Making, id: string)
    requires Inv(s) && Reads(s, r) && ns != "" && GetInfo(s, ns, r).1.Present?
    ensures var (s1, f) := GetInfo(s, ns, r);
            && CreateOrGet(s, ns, true, user, r, m) == (s1, Some(f.info)) && s1 == s.(cache := s1.cache)
            && !Nothing(s, ns) && Live(s1, ns) == Some(f.info) && (f.info.fileSystemId == id <==> Finds(s, ns, r, id))
  {
    LookupExactly(s, ns, r, id);
    GetInfoKeeps(s, ns, r);
    FoundIsSomething(s, ns, r);
  }

  lemma CreationMakes(s: State, ns: string, user: TagMap, r: Reading, m: Making, id: string)
    requires Inv(s) && Reads(s, r) && Gives(s, m) && ns != "" && !GetInfo(s, ns, r).1.Present?
    ensures var (s', info) := CreateOrGet(s, ns, true, user, r, m);
            && !Finds(s, ns, r, id)
            && (info.Some? <==> r.order.Some? && Nothing(s, ns) && m.id.Some? && m.waitOk && m.mountsOk)
            && (info.Some? ==> info.value.fileSystemId == m.id.value && Live(s', ns) == info)
            && s'.aws == (if r.order.None? || !Nothing(s, ns) || m.id.None?
                             || (!(m.waitOk && m.mountsOk) && m.cleanupOk)
                          then s.aws else WithMade(s, ns, user, m))
            && (info.None? ==> s'.cache == s.cache) && s' == s.(aws := s'.aws, cache := s'.cache)
  {
    LookupExactly(s, ns, r, id);
    NotFound(s, ns, r);
  }

  /** A volume request succeeds exactly if it comes to a file system, and the volume ID names that one. */
  lemma VolumeExactly(s: State, ns: string, clusterId: string, pvc: string, optionsOk: bool, user: TagMap, r: Reading,
                      m: Making, t: Tracking, id: string)
    requires Inv(s) && Reads(s, r) && Gives(s, m) && NamesNoOther(ns, s.cluster, user)
    ensures var volumeId := CreateVolume(s, ns, clusterId, pvc, optionsOk, user, r, m, t).1;
            && (volumeId.Some? ==> clusterId != "" && VolumeIds.IsDnsLabel(ns))
            && (clusterId != "" && VolumeIds.IsDnsLabel(ns) && Obtains(s, ns, optionsOk, r, m, id) ==>
                  volumeId == Some("efs-ns::" + (ns + "::" + (id + "::" + clusterId))))
            && (volumeId.Some? ==> exists i :: Obtains(s, ns, optionsOk, r, m, i))
  {
    if clusterId != "" && VolumeIds.IsDnsLabel(ns) {
      CreationExactly(s, ns, optionsOk, user, r, m, id);
      var info := CreateOrGet(s, ns, optionsOk, user, r, m).1;
      if info.Some? {
        CreationExactly(s, ns, optionsOk, user, r, m, info.value.fileSystemId);
        assert Obtains(s, ns, optionsOk, r, m, info.value.fileSystemId);
      }
      assert "efs-ns" + "::" == "efs-ns::";
    }
  }

  // ---------------------------------------------------------------------------------------------------------
  // Volume deletion and claims

  /** The tracker's calls for removing a claim work; the write is needed only if the namespace has a ConfigMap. */
  predicate Untracks(s: State, ns: string, t: Tracking) {
    t.getOk && (t.writeOk || ns !in s.book)
  }

  function Without(s: State, ns: string, pvc: string): (s': State) {
    s.(book := Tracker.Remove(s.book, ns, pvc))
  }

  /**
   * deleteEFSNSVolume: success for an ID that does not parse, and failure exactly if the claim of the made-up name
   * cannot be untracked; then the file system goes exactly if its deletion goes through without that claim.
   */
  lemma DeleteVolumeExactly(s: State, volumeId: string, t: Tracking, d: Deleting, id: string)
    requires Inv(s) && Reads(s, d.reading)
    ensures var (s', ok), v := DeleteVolume(s, volumeId, t, d), VolumeIds.Parse(volumeId);
            && (v.None? ==> s' == s && ok)
            && (v.Some? && !Untracks(s, v.value.namespace, t) ==> s' == s && !ok)
            && (v.Some? && Untracks(s, v.value.namespace, t) ==>
                  var ns := v.value.namespace;
                  var s1 := Without(s, ns, "pvc-" + v.value.fileSystemId);
                  && ok && s'.book == s1.book
                  && (Goes(s1, ns, volumeId, d) && Finds(s1, ns, d.reading, id) ==> s'.aws == s.aws - {id})
                  && (!Goes(s1, ns, volumeId, d) || Nothing(s, ns) ==> s'.aws == s.aws))
  {
    var v := VolumeIds.Parse(volumeId);
    if v.Some? && Untracks(s, v.value.namespace, t) {
      var ns, pvc := v.value.namespace, "pvc-" + v.value.fileSystemId;
      DeletionWithout(s, ns, pvc, t, volumeId, d, id);
    }
  }

  /** What a deletion does once a claim is untracked. */
  lemma DeletionWithout(s: State, ns: string, pvc: string, t: Tracking, volumeId: string, d: Deleting, id: string)
    requires Inv(s) && Reads(s, d.reading) && ns != "" && pvc != "" && Untracks(s, ns, t)
    ensures var s1 := Without(s, ns, pvc);
            var s' := Delete(s1, ns, volumeId, d).0;
            && Untrack(s, ns, pvc, t) == (s1, true) && s'.book == s1.book
            && (Tracker.Count(s1.book, ns) > 0 ==> s' == s1 && !Goes(s1, ns, volumeId, d))
            && (Goes(s1, ns, volumeId, d) && Finds(s1, ns, d.reading, id) ==> s'.aws == s.aws - {id})
            && (!Goes(s1, ns, volumeId, d) || Nothing(s, ns) ==> s'.aws == s.aws)
  {
    UntrackKeeps(s, ns, pvc, t);
    NoClaims(Without(s, ns, pvc), ns);
    DeletionExactly(Without(s, ns, pvc), ns, volumeId, d, id);
  }

  /**
   * Finalizing a claim takes the file system exactly if a volume ID can be read, the claim can be untracked, it was
   * the last, and the deletion goes through without it.
   */
  lemma ClaimExactly(s: State, ns: string, pvc: string, claim: Claim, t: Tracking, d: Deleting, id: string)
    requires Inv(s) && Reads(s, d.reading) && ns != "" && pvc != ""
    ensures var s', s1, volumeId := FinalizeClaim(s, ns, pvc, claim, t, d), Without(s, ns, pvc), ClaimVolume(claim);
            if volumeId == "" || !Untracks(s, ns, t) then s' == s
            else
              && s'.book == s1.book && Claims(s1, ns) == Claims(s, ns) - {pvc}
              && (Goes(s1, ns, volumeId, d) && Finds(s1, ns, d.reading, id) ==> s'.aws == s.aws - {id})
              && (!Goes(s1, ns, volumeId, d) || Nothing(s, ns) ==> s'.aws == s.aws)
  {
    if ClaimVolume(claim) == "" || !Untracks(s, ns, t) {
      UntrackExactly(s, ns, pvc, t);
    } else {
      Tracker.RemoveIsDelete(s.book, ns, pvc, ns);
      ClaimDeletes(s, ns, pvc, claim, t, d);
      DeletionWithout(s, ns, pvc, t, ClaimVolume(claim), d, id);
    }
  }

  /** The annotation comes first; without one, the handle of the volume the claim names, if it can be read. */
  lemma ClaimVolumeExactly(claim: Claim)
    ensures claim.annotation != "" ==> ClaimVolume(claim) == claim.annotation
    ensures claim.annotation == "" && claim.volumeName != "" && claim.volume.Volume? && claim.volume.handle.Some? ==>
              ClaimVolume(claim) == claim.volume.handle.value
    ensures claim.annotation == "" && claim.volumeName == "" ==> ClaimVolume(claim) == ""
    ensures claim.annotation == "" && claim.volume.ReadFailed? ==> ClaimVolume(claim) == ""
    ensures claim.annotation == "" && claim.volume.Volume? && claim.volume.handle.None? ==> ClaimVolume(claim) == ""
  {
  }

  lemma ClaimDeletes(s: State, ns: string, pvc: string, claim: Claim, t: Tracking, d: Deleting)
    requires ns != "" && pvc != "" && ClaimVolume(claim) != "" && Untracks(s, ns, t)
    ensures FinalizeClaim(s, ns, pvc, claim, t, d) == Delete(Without(s, ns, pvc), ns, ClaimVolume(claim), d).0
  {
  }

  // ---------------------------------------------------------------------------------------------------------
  // Synchronisation

  /**
   * SyncFromAWS: a live entry whose describe call works is dropped if its file system is gone, and otherwise carries
   * the state, the count and the time of this synchronisation, if AWS knows its namespace; every other entry stays.
   */
  lemma SyncExactly(s: State, w: map<string, Refresh>, ns: string)
    ensures var s' := SyncFromAws(s, w);
            && s' == s.(cache := s'.cache) && s'.cache.ttl == s.cache.ttl
            && (ns !in s.cache.data ==> ns !in s'.cache.data)
            && (ns in s.cache.data ==>
                  var e := s.cache.data[ns];
                  var id, asked := e.info.fileSystemId, Live(s, ns).Some? && ns in w && w[ns].describeOk;
                  && (ns !in s'.cache.data <==> asked && id !in s.aws)
                  && (ns in s'.cache.data ==>
                        if asked && NAMESPACE_KEY in s.aws[id].tags && s.aws[id].tags[NAMESPACE_KEY] != "" then
                          var owner := s.aws[id].tags[NAMESPACE_KEY];
                          var count := if w[ns].countOk then |Claims(s, owner)| else 0;
                          s'.cache.data[ns]
                          == Cache.Entry(FileSystemInfo(id, owner, w[ns].state, count), s.now, s.cache.ttl)
                        else s'.cache.data[ns] == e))
  {
    forall n ensures |Claims(s, n)| == Tracker.Count(s.book, n) { NoClaims(s, n); }
  }

  /**
   * The steps that are not calls: time passes, and entries lapse with it; a sweep takes out what has lapsed and changes
   * no lookup; a synchronisation of the tracker changes the claims only; and a restart empties the cache only.
   */
  lemma UpkeepExactly(s: State, now: int, cl: Tracker.Cluster, ns: string)
    ensures var s', data := Next(s, TickStep(now)), s.cache.data;
            && s' == s.(now := now)
            && (Live(s', ns).Some?
                <==> ns != "" && ns in data && (data[ns].ttl <= 0 || now - data[ns].createdAt <= data[ns].ttl))
    ensures var s' := Next(s, CleanupCacheStep);
            && s' == s.(cache := s'.cache) && Live(s', ns) == Live(s, ns)
            && (ns != "" ==> (ns in s'.cache.data <==> Live(s, ns).Some?))
    ensures var s' := Next(s, SyncTrackerStep(cl));
            && s' == s.(book := s'.book)
            && (Tracker.WellKept(s.book) && !Tracker.ListIn(cl, ns).ListFailed? && ns !in cl.failedWrites ==>
                  Claims(s', ns) == Claims(s, ns) * Tracker.Recognised(Tracker.ListIn(cl, ns).pvcs))
    ensures Next(s, RestartStep) == s.(cache := Cache.State(map[], 300_000_000_000))
  {
    Cache.SweepExactly(s.cache, s.now, ns);
    if Tracker.WellKept(s.book) { Tracker.SyncIsIntersection(s.book, cl, ns); }
  }

  /** A claim is untracked exactly if the namespace and the claim are named and the tracker's calls work. */
  lemma UntrackExactly(s: State, ns: string, pvc: string, t: Tracking)
    ensures Untrack(s, ns, pvc, t)
            == if ns != "" && pvc != "" && Untracks(s, ns, t) then (Without(s, ns, pvc), true) else (s, false)
  {
  }

  // ---------------------------------------------------------------------------------------------------------
  // Namespaces that go

  /** The volume ID a controller makes up for a file system parses. */
  predicate Addressable(s: State, ns: string, id: string) {
    VolumeIds.Parse(VolumeIds.Print(VolumeIds.NsVolumeId(ns, id, s.cluster))).Some?
  }

  /** The condition under which the cleanup of a namespace succeeds. */
  ghost predicate Cleans(s: State, ns: string, r: Reading, d: Deleting) {
    && ns != ""
    && (|| (Nothing(s, ns) && r.order.Some?)
        || (&& (exists id :: Finds(s, ns, r, id) && Addressable(s, ns, id))
            && Idle(s, ns, r) && d.countOk && Claims(s, ns) == {} && d.mountsOk && d.deleteOk))
  }

  /** The cleanup of a namespace succeeds exactly then, and takes exactly the file system that is found for it. */
  lemma CleanupExactly(s: State, ns: string, r: Reading, d: Deleting, id: string)
    requires Inv(s) && Reads(s, r) && Reads(s, d.reading)
    ensures var (s', ok) := Cleanup(s, ns, r, d);
            && (ok <==> Cleans(s, ns, r, d))
            && (ok ==> Nothing(s', ns))
            && (ok && Finds(s, ns, r, id) ==> s'.aws == s.aws - {id})
            && (!ok || Nothing(s, ns) ==> s'.aws == s.aws)
            && s' == s.(aws := s'.aws, cache := s'.cache)
  {
    CleanupKeeps(s, ns, r, d);
    if ns != "" {
      if GetInfo(s, ns, r).1.Present? {
        CleanupFound(s, ns, r, d, id);
      } else {
        NotFound(s, ns, r);
        LookupExactly(s, ns, r, id);
      }
    }
  }

  lemma CleanupFound(s: State, ns: string, r: Reading, d: Deleting, id: string)
    requires Inv(s) && Reads(s, r) && Reads(s, d.reading) && ns != "" && GetInfo(s, ns, r).1.Present?
    ensures var (s', ok) := Cleanup(s, ns, r, d);
            && !Nothing(s, ns) && (ok <==> Cleans(s, ns, r, d))
            && (ok && Finds(s, ns, r, id) ==> s'.aws == s.aws - {id}) && (!ok ==> s'.aws == s.aws)
  {
    var (s1, f) := GetInfo(s, ns, r);
    var found := f.info.fileSystemId;
    GetInfoKeeps(s, ns, r);
    FoundIsSomething(s, ns, r);
    LookupExactly(s, ns, r, found);
    IdleIsDeletable(s, ns, r);
    OnlyFound(s, ns, r, found);
    KnownDeletion(s1, ns, VolumeOf(s1, ns, f.info), d, f.info);
  }

  /** With the file system known from the cache, its deletion goes through exactly if nothing refuses it. */
  lemma KnownDeletion(s: State, ns: string, volumeId: string, d: Deleting, info: FileSystemInfo)
    requires Inv(s) && Reads(s, d.reading) && ns != "" && Live(s, ns) == Some(info)
    ensures var (s', ok) := Delete(s, ns, volumeId, d);
            && (ok <==> && VolumeIds.Parse(volumeId).Some? && d.countOk && Claims(s, ns) == {}
                        && info.CanBeDeleted() && d.mountsOk && d.deleteOk)
            && s'.aws == if ok then s.aws - {info.fileSystemId} else s.aws
  {
    DeletionExactly(s, ns, volumeId, d, info.fileSystemId);
    KnownFileSystem(s, ns, d, info);
  }

  /** A live entry settles what a deletion finds. */
  lemma KnownFileSystem(s: State, ns: string, d: Deleting, info: FileSystemInfo)
    requires Live(s, ns) == Some(info)
    ensures Finds(s, ns, d.reading, info.fileSystemId) && !Nothing(s, ns)
    ensures Idle(s, ns, d.reading) <==> info.CanBeDeleted()
  {
  }

  lemma OnlyFound(s: State, ns: string, r: Reading, found: string)
    requires Inv(s) && Finds(s, ns, r, found)
    ensures forall id :: Finds(s, ns, r, id) ==> id == found
  {
  }

  /** Nothing is counted among the claims of a namespace: there are none, or counting them fails. */
  predicate NoneCounted(s: State, ns: string, w: Departing) {
    !w.countOk || Claims(s, ns) == {}
  }

  /** The condition under which processing the deletion of a namespace takes its finalizer off. */
  ghost predicate Releases(s: State, ns: string, w: Departing) {
    NoneCounted(s, ns, w) && Cleans(s, ns, w.reading, w.deleting) && w.removeOk
  }

  /** ProcessNamespaceDeletion: when it succeeds, and what becomes of the finalizers and the account. */
  lemma ProcessDeletionExactly(s: State, ns: string, w: Departing, id: string)
    requires Inv(s) && Possible(s, ProcessDeletionStep(ns, w))
    ensures var (s', ok) := ProcessDeletion(s, ns, w);
            && (ok <==> Releases(s, ns, w))
            && s'.finalizers == (if ok then s.finalizers - {ns}
                                 else if ns != "" && !NoneCounted(s, ns, w) && w.addOk then s.finalizers + {ns}
                                 else s.finalizers)
            && (NoneCounted(s, ns, w) && Cleans(s, ns, w.reading, w.deleting) && Finds(s, ns, w.reading, id) ==>
                  s'.aws == s.aws - {id})
            && (!NoneCounted(s, ns, w) || !Cleans(s, ns, w.reading, w.deleting) || Nothing(s, ns) ==> s'.aws == s.aws)
  {
    NoClaims(s, ns);
    CleanupExactly(s, ns, w.reading, w.deleting, id);
  }

  /**
   * processNamespaceFinalization: nothing happens without the finalizer or while claims are counted; otherwise the
   * finalizer goes whatever the deletion did, and the file system exactly if the deletion goes through.
   */
  lemma FinalizationExactly(s: State, ns: string, w: Departing, id: string)
    requires Inv(s) && Possible(s, FinalizeNamespaceStep(ns, w))
    ensures var (s', ok) := FinalizeNamespace(s, ns, w);
            && (ns !in s.finalizers ==> s' == s && ok)
            && (ns in s.finalizers && !NoneCounted(s, ns, w) ==> s' == s && !ok)
            && (ns in s.finalizers && NoneCounted(s, ns, w) ==>
                  && (ok <==> w.removeOk && ns != "")
                  && s'.finalizers == (if ok then s.finalizers - {ns} else s.finalizers)
                  && (Cleans(s, ns, w.reading, w.deleting) && Finds(s, ns, w.reading, id) ==> s'.aws == s.aws - {id})
                  && (!Cleans(s, ns, w.reading, w.deleting) ==> s'.aws == s.aws))
  {
    NoClaims(s, ns);
    if ns in s.finalizers && NoneCounted(s, ns, w) {
      CleanupExactly(s, ns, w.reading, w.deleting, id);
      FinalizationCleans(s, ns, w);
    }
  }

  lemma FinalizationCleans(s: State, ns: string, w: Departing)
    requires ns in s.finalizers && CountRead(s, ns, w.countOk) == 0
    ensures FinalizeNamespace(s, ns, w).0.aws == Cleanup(s, ns, w.reading, w.deleting).0.aws
  {
  }

  // ---------------------------------------------------------------------------------------------------------
  // Reconciliation

  /** A listed namespace that is being deleted and carries the finalizer. */
  predicate Due(item: Listed, ns: string) {
    item.ns == ns && item.departing && item.carries
  }

  /** Nothing of the namespace is any different. */
  ghost predicate Undisturbed(s: State, s': State, ns: string) {
    && s'.book == s.book && s'.cluster == s.cluster && Live(s', ns) == Live(s, ns)
    && (ns in s'.finalizers <==> ns in s.finalizers)
    && (forall id :: Owns(s'.aws, ns, id) <==> Owns(s.aws, ns, id))
    && (forall id :: Seen(s'.aws, s.cluster, ns, id) <==> Seen(s.aws, s.cluster, ns, id))
  }

  lemma ElsewhereUndisturbed(s: State, item: Listed, ns: string)
    requires Inv(s) && Possible(s, ProcessDeletionStep(item.ns, item.w)) && item.ns != ns
    ensures Undisturbed(s, ProcessDeletion(s, item.ns, item.w).0, ns)
  {
    var s' := ProcessDeletion(s, item.ns, item.w).0;
    ProcessDeletionExactly(s, item.ns, item.w, "");
    DeletionElsewhere(s, item.ns, item.w, ns, "");
    forall id
      ensures Owns(s'.aws, ns, id) <==> Owns(s.aws, ns, id)
      ensures Seen(s'.aws, s.cluster, ns, id) <==> Seen(s.aws, s.cluster, ns, id)
    {
      DeletionElsewhere(s, item.ns, item.w, ns, id);
      assert Seen(s.aws, s.cluster, ns, id) ==> SoundFs(id, s.aws[id], s.cluster);
    }
  }

  lemma PossiblePrefix(s: State, items: seq<Listed>)
    requires items != [] && ReconcilePossible(s, items)
    ensures var n := |items| - 1;
            && ReconcilePossible(s, items[..n])
            && Possible(Reconcile(s, items[..n]), ProcessDeletionStep(items[n].ns, items[n].w))
  {
    var n := |items| - 1;
    forall i | 0 <= i < n
      ensures Possible(Reconcile(s, items[..n][..i]), ProcessDeletionStep(items[..n][i].ns, items[..n][i].w))
    {
      assert items[..n][..i] == items[..i];
    }
  }

  /** One item that is not due for the namespace leaves it alone. */
  lemma NotDueUndisturbed(s: State, items: seq<Listed>, ns: string)
    requires Inv(s) && items != [] && ReconcilePossible(s, items) && !Due(items[|items| - 1], ns)
    ensures Undisturbed(Reconcile(s, items[..|items| - 1]), Reconcile(s, items), ns)
  {
    var n := |items| - 1;
    PossiblePrefix(s, items);
    ReconcileReleasesOnlyWhenClean(s, items[..n], ns, "");
    var x := Reconcile(s, items[..n]);
    if items[n].ns != ns { ElsewhereUndisturbed(x, items[n], ns); }
  }

  /** A reconciliation leaves alone every namespace of which no listed one is being deleted with the finalizer on it. */
  lemma {:induction false} ReconcileSkips(s: State, items: seq<Listed>, ns: string)
    requires Inv(s) && ReconcilePossible(s, items) && NoneDue(items, ns)
    ensures Undisturbed(s, Reconcile(s, items), ns)
  {
    if items != [] {
      var n := |items| - 1;
      PossiblePrefix(s, items);
      assert items[n] in items;
      ReconcileSkips(s, items[..n], ns);
      NotDueUndisturbed(s, items, ns);
    }
  }

  /** Nothing is counted and the cleanup works. */
  ghost predicate Cleared(s: State, ns: string, w: Departing) {
    NoneCounted(s, ns, w) && Cleans(s, ns, w.reading, w.deleting)
  }

  /** What one such item does to its namespace. */
  ghost predicate Processed(s: State, s': State, ns: string, w: Departing) {
    && (ns !in s'.finalizers
        <==> Releases(s, ns, w) || (ns !in s.finalizers && (ns == "" || NoneCounted(s, ns, w) || !w.addOk)))
    && (forall id :: Owns(s'.aws, ns, id)
                     <==> && Owns(s.aws, ns, id)
                          && !(Cleared(s, ns, w) && Finds(s, ns, w.reading, id)))
  }

  lemma DueProcessed(s: State, ns: string, w: Departing)
    requires Inv(s) && Possible(s, ProcessDeletionStep(ns, w))
    ensures Processed(s, ProcessDeletion(s, ns, w).0, ns, w)
  {
    ProcessDeletionExactly(s, ns, w, "");
    forall id
      ensures Owns(ProcessDeletion(s, ns, w).0.aws, ns, id)
              <==> && Owns(s.aws, ns, id)
                   && !(Cleared(s, ns, w) && Finds(s, ns, w.reading, id))
    {
      DueOwns(s, ns, w, id);
    }
  }

  lemma DueOwns(s: State, ns: string, w: Departing, id: string)
    requires Inv(s) && Possible(s, ProcessDeletionStep(ns, w))
    ensures Owns(ProcessDeletion(s, ns, w).0.aws, ns, id)
            <==> && Owns(s.aws, ns, id)
                 && !(Cleared(s, ns, w) && Finds(s, ns, w.reading, id))
  {
    ProcessDeletionExactly(s, ns, w, id);
    if NoneCounted(s, ns, w) && Cleans(s, ns, w.reading, w.deleting) && !Nothing(s, ns) {
      var found :| Finds(s, ns, w.reading, found);
      ProcessDeletionExactly(s, ns, w, found);
      OnlyFound(s, ns, w.reading, found);
    } else if Nothing(s, ns) {
      NothingFound(s, ns, w.reading);
    }
  }

  lemma NothingFound(s: State, ns: string, r: Reading)
    requires Nothing(s, ns)
    ensures forall id :: !Finds(s, ns, r, id)
  {
  }

  /** Whatever a condition says of a namespace, it says again where nothing of the namespace is different. */
  lemma UndisturbedConditions(s: State, x: State, ns: string, w: Departing)
    requires Undisturbed(s, x, ns)
    ensures Releases(x, ns, w) <==> Releases(s, ns, w)
    ensures NoneCounted(x, ns, w) <==> NoneCounted(s, ns, w)
    ensures Cleans(x, ns, w.reading, w.deleting) <==> Cleans(s, ns, w.reading, w.deleting)
    ensures forall id :: Finds(x, ns, w.reading, id) <==> Finds(s, ns, w.reading, id)
  {
    assert Nothing(x, ns) <==> Nothing(s, ns);
    forall id ensures Finds(x, ns, w.reading, id) <==> Finds(s, ns, w.reading, id) {}
    forall id ensures Addressable(x, ns, id) <==> Addressable(s, ns, id) {}
  }

  ghost predicate NoneDue(items: seq<Listed>, ns: string) {
    forall item :: item in items ==> !Due(item, ns)
  }

  /**
   * A reconciliation with exactly one listed namespace `ns` that is being deleted with the finalizer on it: the
   * finalizer goes exactly if nothing is counted, the cleanup works and so does the removal, and the file system that
   * is found goes exactly if the cleanup works, whatever else is listed before and after.
   */
  lemma {:induction false} ReconcileProcesses(s: State, before: seq<Listed>, item: Listed, after: seq<Listed>,
                                              ns: string)
    requires Inv(s) && Due(item, ns) && NoneDue(before, ns) && NoneDue(after, ns)
    requires ReconcilePossible(s, before + [item] + after)
    ensures Processed(s, Reconcile(s, before + [item] + after), ns, item.w)
    decreases |after|
  {
    if after == [] {
      assert before + [item] + after == before + [item];
      LastProcessed(s, before, item, ns);
    } else {
      var n := |after| - 1;
      var items, less := before + [item] + after, before + [item] + after[..n];
      assert items[..|items| - 1] == less && items[|items| - 1] == after[n] && after[n] in after;
      PossiblePrefix(s, items);
      ReconcileProcesses(s, before, item, after[..n], ns);
      StillProcessed(s, items, ns, item.w);
    }
  }

  lemma StillProcessed(s: State, items: seq<Listed>, ns: string, w: Departing)
    requires Inv(s) && items != [] && ReconcilePossible(s, items) && !Due(items[|items| - 1], ns)
    requires Processed(s, Reconcile(s, items[..|items| - 1]), ns, w)
    ensures Processed(s, Reconcile(s, items), ns, w)
  {
    NotDueUndisturbed(s, items, ns);
    ProcessedBefore(s, Reconcile(s, items[..|items| - 1]), Reconcile(s, items), ns, w);
  }

  lemma LastProcessed(s: State, before: seq<Listed>, item: Listed, ns: string)
    requires Inv(s) && Due(item, ns) && NoneDue(before, ns) && ReconcilePossible(s, before + [item])
    ensures Processed(s, Reconcile(s, before + [item]), ns, item.w)
  {
    var items := before + [item];
    assert items[..|items| - 1] == before && items[|items| - 1] == item;
    PossiblePrefix(s, items);
    ReconcileSkips(s, before, ns);
    ReconcileReleasesOnlyWhenClean(s, before, ns, "");
    DueProcessed(Reconcile(s, before), ns, item.w);
    ProcessedSince(s, Reconcile(s, before), Reconcile(s, items), ns, item.w);
  }

  lemma ProcessedSince(s: State, x: State, s': State, ns: string, w: Departing)
    requires Undisturbed(s, x, ns) && Processed(x, s', ns, w)
    ensures Processed(s, s', ns, w)
  {
    UndisturbedConditions(s, x, ns, w);
  }

  lemma ProcessedBefore(s: State, x: State, s': State, ns: string, w: Departing)
    requires Processed(s, x, ns, w) && Undisturbed(x, s', ns)
    ensures Processed(s, s', ns, w)
  {
  }
}
