/**
 * The driver's components as they run: the manager of namespace file systems over a mutable account, cache and tracker,
 * and the requests and controllers that call it. Each method is one atomic step of Lifecycle.
 */
module DriverModel {
  import opened Strings
  import opened Collections
  import opened Types
  import opened Lifecycle
  import Tags
  import Cache
  import Finalizers
  import Tracker
  import VolumeIds

  class Driver {
    const clusterId: string
    const cache: Cache.MemoryCache
    const tracker: Tracker.ConfigMapTracker
    var aws: Account
    var finalizers: set<string>

    constructor (clusterId: string, account: Account)
      ensures Valid() && View(0) == State(clusterId, 0, account, Cache.FRESH, map[], {})
      ensures fresh(cache) && fresh(tracker)
    {
      this.clusterId := clusterId;
      cache := new Cache.MemoryCache();
      tracker := new Tracker.ConfigMapTracker(clusterId);
      aws, finalizers := account, {};
    }

    ghost predicate Valid()
      reads this, tracker
    {
      tracker.Valid()
    }

    /** The state of the lifecycle at time `now`. */
    ghost function View(now: int): State
      reads this, cache, tracker
    {
      State(clusterId, now, aws, cache.View(), tracker.book, finalizers)
    }

    // -------------------------------------------------------------------------------------------------------
    // namespaceFileSystemManager

    /** The loop of findExistingFileSystem. */
    method FindByName(namespace: string, order: seq<string>) returns (id: Option<string>)
      ensures id == FindIn(aws, clusterId, namespace, order)
    {
      var expected := Tags.NameFor(namespace, clusterId);
      for i := 0 to |order|
        invariant FindIn(aws, clusterId, namespace, order) == FindIn(aws, clusterId, namespace, order[i..])
      {
        if order[i] in aws {
          var tags := aws[order[i]].tags;
          if Tags.NAME_KEY in tags && tags[Tags.NAME_KEY] == expected {
            if Tags.Managed(tags) {
              return Some(order[i]);
            }
          }
        }
        assert order[i..][1..] == order[i + 1..];
      }
      return None;
    }

    /** findExistingFileSystem and convertAWSFileSystemToInfo: a count that cannot be read is taken for zero. */
    method FindExistingFileSystem(namespace: string, r: Reading, ghost now: int) returns (f: Found)
      requires Valid() && namespace != ""
      ensures f == Find(View(now), namespace, r)
    {
      if r.order.None? { return Unknown; }
      var id := FindByName(namespace, r.order.value);
      if id.None? { return Missing; }
      var count := tracker.GetPVCCount(namespace, r.countOk);
      return Present(FileSystemInfo(id.value, namespace, r.state, if count.Some? then count.value else 0));
    }

    method GetFileSystemInfo(namespace: string, r: Reading, now: int) returns (f: Found)
      requires Valid()
      modifies cache
      ensures Valid() && (View(now), f) == GetInfo(old(View(now)), namespace, r)
    {
      if namespace == "" { return Unknown; }
      var hit := cache.Get(namespace, now);
      if hit.Some? { return Present(hit.value); }
      f := FindExistingFileSystem(namespace, r, now);
      if f.Present? { cache.Store(namespace, Some(f.info), now); }
    }

    /** createFileSystem */
    method CreateFileSystem(namespace: string, user: Tags.TagMap, m: Making, ghost now: int)
      returns (info: Option<FileSystemInfo>)
      requires Gives(View(now), m)
      modifies this`aws
      ensures (View(now), info) == Make(old(View(now)), namespace, user, m)
    {
      ghost var before := aws;
      if m.id.None? { return None; }
      var id := m.id.value;
      aws := aws[id := FileSystem(namespace, map[])];
      if !m.waitOk {
        DeleteFileSystem(id, m.cleanupOk);
        Restored(before, id, FileSystem(namespace, map[]));
        return None;
      }
      var tags := map[];
      if m.tagOk { tags := Tags.BuildTags(namespace, clusterId, user); }
      if m.nameOk { tags := tags[Tags.NAME_KEY := Tags.NameFor(namespace, clusterId)]; }
      aws := aws[id := FileSystem(namespace, tags)];
      Overwritten(before, id, FileSystem(namespace, map[]), FileSystem(namespace, tags));
      if !m.mountsOk {
        DeleteFileSystem(id, m.cleanupOk);
        Restored(before, id, FileSystem(namespace, tags));
        return None;
      }
      return Some(FileSystemInfo(id, namespace, Available, 0));
    }

    method DeleteFileSystem(id: string, ok: bool)
      modifies this`aws
      ensures aws == if ok then old(aws) - {id} else old(aws)
    {
      if ok { aws := aws - {id}; }
    }

    method CreateOrGetFileSystemForNamespace(namespace: string, optionsOk: bool, user: Tags.TagMap, r: Reading,
                                             m: Making, now: int)
      returns (info: Option<FileSystemInfo>)
      requires Valid() && Gives(View(now), m)
      modifies this`aws, cache
      ensures Valid() && (View(now), info) == CreateOrGet(old(View(now)), namespace, optionsOk, user, r, m)
    {
      if namespace == "" || !optionsOk { return None; }
      var hit := cache.Get(namespace, now);
      if hit.Some? { return hit; }
      var f := FindExistingFileSystem(namespace, r, now);
      if f.Unknown? { return None; }
      if f.Present? {
        cache.Store(namespace, Some(f.info), now);
        return Some(f.info);
      }
      info := CreateFileSystem(namespace, user, m, now);
      if info.None? { return None; }
      cache.Store(namespace, info, now);
    }

    method DeleteFileSystemForNamespace(namespace: string, volumeId: string, d: Deleting, now: int) returns (ok: bool)
      requires Valid()
      modifies this`aws, cache
      ensures Valid() && (View(now), ok) == Delete(old(View(now)), namespace, volumeId, d)
    {
      if namespace == "" || volumeId == "" { return false; }
      if VolumeIds.Parse(volumeId).None? { return false; }
      var count := tracker.GetPVCCount(namespace, d.countOk);
      if count.None? { return false; }
      if count.value > 0 { return false; }
      ok := DeleteUnusedFileSystem(namespace, d, now);
    }

    /** The rest of DeleteFileSystemForNamespace, once no claim is left. */
    method DeleteUnusedFileSystem(namespace: string, d: Deleting, now: int) returns (ok: bool)
      requires Valid() && namespace != ""
      modifies this`aws, cache
      ensures Valid() && (View(now), ok) == DeleteUnused(old(View(now)), namespace, d)
    {
      var f := GetFileSystemInfo(namespace, d.reading, now);
      if f.Unknown? { return false; }
      if f.Missing? {
        cache.Remove(namespace);
        return true;
      }
      if !f.info.CanBeDeleted() { return false; }
      if !d.mountsOk { return false; }
      if !d.deleteOk || f.info.fileSystemId !in aws { return false; }
      aws := aws - {f.info.fileSystemId};
      cache.Remove(namespace);
      return true;
    }

    /**
     * getFileSystemFromAWS: None when the call fails or the namespace tag is missing, Some(None) when it is not there.
     */
    method GetFileSystemFromAws(id: string, w: Refresh) returns (r: Option<Option<FileSystemInfo>>)
      requires Valid()
      ensures r.None?
              <==> || !w.describeOk
                   || (id in aws && (Tags.NAMESPACE_KEY !in aws[id].tags || aws[id].tags[Tags.NAMESPACE_KEY] == ""))
      ensures r.Some? ==>
                && (r.value.None? <==> id !in aws)
                && (id in aws ==>
                   r.value == Some(InfoOf(View(0), id, aws[id].tags[Tags.NAMESPACE_KEY], w.state, w.countOk)))
    {
      if !w.describeOk { return None; }
      if id !in aws { return Some(None); }
      var tags := aws[id].tags;
      if Tags.NAMESPACE_KEY !in tags || tags[Tags.NAMESPACE_KEY] == "" { return None; }
      var namespace := tags[Tags.NAMESPACE_KEY];
      var count := tracker.GetPVCCount(namespace, w.countOk);
      return Some(Some(FileSystemInfo(id, namespace, w.state, if count.Some? then count.value else 0)));
    }

    /** One turn of SyncFromAWS. */
    method RefreshEntry(namespace: string, info: FileSystemInfo, w: Refresh, now: int)
      requires Valid() && namespace != "" && namespace in cache.data && cache.data[namespace].info == info
      modifies cache
      ensures Valid() && cache.ttl == old(cache.ttl)
      ensures var e := Refreshed(old(View(now)), old(cache.data[namespace]), w);
              cache.data == if e.Some? then old(cache.data)[namespace := e.value] else old(cache.data) - {namespace}
    {
      var updated := GetFileSystemFromAws(info.fileSystemId, w);
      if updated.None? {
        assert cache.data == cache.data[namespace := cache.data[namespace]];
      } else if updated.value.None? {
        cache.Remove(namespace);
      } else {
        cache.Store(namespace, updated.value, now);
      }
    }

    /** The same turn, as progress towards the synchronised cache. */
    method VisitEntry(namespace: string, info: FileSystemInfo, w: map<string, Refresh>, now: int, ghost s: State,
                      ghost todo: set<string>)
      requires Valid() && s.now == now && View(now) == s.(cache := s.cache.(data := PartlySynced(s, w, todo)))
      requires namespace in todo && todo <= Cache.Listing(s.cache, now).Keys && s.cache.data[namespace].info == info
      modifies cache
      ensures Valid() && View(now) == s.(cache := s.cache.(data := PartlySynced(s, w, todo - {namespace})))
    {
      OneSynced(s, w, todo, namespace);
      if namespace in w && namespace != "" {
        assert Refreshed(View(now), cache.data[namespace], w[namespace]) == RefreshedAt(s, namespace, w);
        RefreshEntry(namespace, info, w[namespace], now);
      } else {
        assert cache.data[namespace := s.cache.data[namespace]] == cache.data;
      }
    }

    /** SyncFromAWS: the live entries are visited in any order, each once. */
    method SyncFromAWS(w: map<string, Refresh>, now: int)
      requires Valid()
      modifies cache
      ensures Valid() && View(now) == SyncFromAws(old(View(now)), w)
    {
      ghost var s := View(now);
      var cached := cache.List(now);
      var todo := cached.Keys;
      AllSynced(s, w);
      while todo != {}
        invariant Valid() && todo <= cached.Keys
        invariant View(now) == s.(cache := s.cache.(data := PartlySynced(s, w, todo)))
      {
        var namespace :| namespace in todo;
        VisitEntry(namespace, cached[namespace], w, now, s, todo);
        todo := todo - {namespace};
      }
    }

    // -------------------------------------------------------------------------------------------------------
    // Volume requests

    method CreateEFSNSVolume(namespace: string, cluster: string, pvcName: string, optionsOk: bool, user: Tags.TagMap,
                             r: Reading, m: Making, t: Tracking, now: int) returns (volumeId: Option<string>)
      requires Valid() && Gives(View(now), m)
      modifies this`aws, cache, tracker
      ensures Valid()
      ensures (View(now), volumeId)
              == CreateVolume(old(View(now)), namespace, cluster, pvcName, optionsOk, user, r, m, t)
    {
      if cluster == "" { return None; }
      var validName := VolumeIds.ValidateNamespaceName(namespace);
      if !validName { return None; }
      var info := CreateOrGetFileSystemForNamespace(namespace, optionsOk, user, r, m, now);
      if info.None? { return None; }
      var id := VolumeIds.Print(VolumeIds.NsVolumeId(namespace, info.value.fileSystemId, cluster));
      var _ := tracker.AddPVC(namespace, pvcName, id, t.getOk, t.writeOk);
      return Some(id);
    }

    method DeleteEFSNSVolume(volumeId: string, t: Tracking, d: Deleting, now: int) returns (ok: bool)
      requires Valid()
      modifies this`aws, cache, tracker
      ensures Valid() && (View(now), ok) == DeleteVolume(old(View(now)), volumeId, t, d)
    {
      var v := VolumeIds.Parse(volumeId);
      if v.None? { return true; }
      var _, removed := tracker.RemovePVC(v.value.namespace, "pvc-" + v.value.fileSystemId, t.getOk, t.writeOk);
      if !removed { return false; }
      var _ := DeleteFileSystemForNamespace(v.value.namespace, volumeId, d, now);
      return true;
    }

    // -------------------------------------------------------------------------------------------------------
    // Finalization

    /** What processPVCFinalization does before it takes the finalizer off. */
    method CleanupClaim(namespace: string, pvcName: string, claim: Claim, t: Tracking, d: Deleting, now: int)
      requires Valid()
      modifies this`aws, cache, tracker
      ensures Valid() && View(now) == FinalizeClaim(old(View(now)), namespace, pvcName, claim, t, d)
    {
      var volumeId := claim.annotation;
      if volumeId == "" && claim.volumeName != "" {
        if claim.volume.Volume? && claim.volume.handle.Some? { volumeId := claim.volume.handle.value; }
      }
      if volumeId == "" { return; }
      ghost var s := View(now);
      var empty, removed := tracker.RemovePVC(namespace, pvcName, t.getOk, t.writeOk);
      assert (View(now), removed) == Untrack(s, namespace, pvcName, t);
      if removed && empty {
        var _ := DeleteFileSystemForNamespace(namespace, volumeId, d, now);
      }
    }

    /**
     * processPVCFinalization: nothing happens without the finalizer; with it the claim is cleaned up, and whatever that
     * did, the finalizer is taken off the list that is read then. `written` is the list that was written, if one was.
     */
    method ProcessPVCFinalization(namespace: string, pvcName: string, listed: seq<string>, claim: Claim, t: Tracking,
                                  d: Deleting, script: nat -> Finalizers.Attempt, now: int)
      returns (ok: bool, written: Option<seq<string>>)
      requires Valid()
      modifies this`aws, cache, tracker
      ensures Valid()
      ensures "efs-csi.aws.com/efs-ns-cleanup" !in listed ==> ok && written.None? && View(now) == old(View(now))
      ensures "efs-csi.aws.com/efs-ns-cleanup" in listed ==>
                && View(now) == FinalizeClaim(old(View(now)), namespace, pvcName, claim, t, d)
                && (ok <==> Finalizers.Updates(script, Finalizers.CLAIM_FINALIZER, false))
                && (written.Some? ==> ok && Finalizers.CLAIM_FINALIZER !in written.value)
    {
      var _, found := Finalizers.Filter(listed, Finalizers.CLAIM_FINALIZER);
      if !found { return true, None; }
      CleanupClaim(namespace, pvcName, claim, t, d, now);
      ok, written := Finalizers.UpdateFinalizers(Finalizers.CLAIM_FINALIZER, false, script);
    }

    method AddNamespaceFinalizer(namespace: string)
      modifies this`finalizers
      ensures finalizers == old(finalizers) + {namespace}
    {
      finalizers := finalizers + {namespace};
    }

    method RemoveNamespaceFinalizer(namespace: string)
      modifies this`finalizers
      ensures finalizers == old(finalizers) - {namespace}
    {
      finalizers := finalizers - {namespace};
    }

    method CleanupNamespaceFilesystem(namespace: string, r: Reading, d: Deleting, now: int) returns (ok: bool)
      requires Valid()
      modifies this`aws, cache
      ensures Valid() && (View(now), ok) == Cleanup(old(View(now)), namespace, r, d)
    {
      var f := GetFileSystemInfo(namespace, r, now);
      if f.Missing? { return true; }
      if f.Unknown? { return false; }
      var id := VolumeIds.Print(VolumeIds.NsVolumeId(namespace, f.info.fileSystemId, clusterId));
      ok := DeleteFileSystemForNamespace(namespace, id, d, now);
    }

    method ProcessNamespaceDeletion(namespace: string, w: Departing, now: int) returns (ok: bool)
      requires Valid()
      modifies this, cache
      ensures Valid() && (View(now), ok) == ProcessDeletion(old(View(now)), namespace, w)
    {
      if namespace == "" { return false; }
      var count := tracker.GetPVCCount(namespace, w.countOk);
      if count.Some? && count.value > 0 {
        if w.addOk { AddNamespaceFinalizer(namespace); }
        return false;
      }
      var cleaned := CleanupNamespaceFilesystem(namespace, w.reading, w.deleting, now);
      if !cleaned { return false; }
      if !w.removeOk { return false; }
      RemoveNamespaceFinalizer(namespace);
      return true;
    }

    method ProcessNamespaceFinalization(namespace: string, w: Departing, now: int) returns (ok: bool)
      requires Valid()
      modifies this, cache
      ensures Valid() && (View(now), ok) == FinalizeNamespace(old(View(now)), namespace, w)
    {
      if namespace !in finalizers { return true; }
      var count := tracker.GetPVCCount(namespace, w.countOk);
      if count.Some? && count.value > 0 { return false; }
      var f := GetFileSystemInfo(namespace, w.reading, now);
      if f.Present? {
        var id := VolumeIds.Print(VolumeIds.NsVolumeId(namespace, f.info.fileSystemId, clusterId));
        var _ := DeleteFileSystemForNamespace(namespace, id, w.deleting, now);
      }
      if !w.removeOk || namespace == "" { return false; }
      RemoveNamespaceFinalizer(namespace);
      return true;
    }

    method ReconcileNamespaces(listed: seq<Listed>, now: int)
      requires Valid()
      modifies this, cache
      ensures Valid() && View(now) == Reconcile(old(View(now)), listed)
    {
      ghost var s := View(now);
      for i := 0 to |listed|
        invariant Valid() && View(now) == Reconcile(s, listed[..i])
      {
        assert listed[..i + 1][..i] == listed[..i];
        if listed[i].departing && listed[i].carries {
          var _ := ProcessNamespaceDeletion(listed[i].ns, listed[i].w, now);
        }
      }
      assert listed[..|listed|] == listed;
    }
  }

  /** The cache in the middle of SyncFromAWS, with the namespaces `todo` still to visit. */
  ghost function PartlySynced(s: State, w: map<string, Refresh>, todo: set<string>): (data: map<string, Cache.Entry>) {
    map ns | ns in s.cache.data && (ns in todo || RefreshedAt(s, ns, w).Some?) ::
      if ns in todo then s.cache.data[ns] else RefreshedAt(s, ns, w).value
  }

  lemma AllSynced(s: State, w: map<string, Refresh>)
    ensures PartlySynced(s, w, Cache.Listing(s.cache, s.now).Keys) == s.cache.data
    ensures s.(cache := s.cache.(data := PartlySynced(s, w, {}))) == SyncFromAws(s, w)
  {
  }

  lemma OneSynced(s: State, w: map<string, Refresh>, todo: set<string>, ns: string)
    requires ns in todo && todo <= s.cache.data.Keys
    ensures var before, e := PartlySynced(s, w, todo), RefreshedAt(s, ns, w);
            && ns in before && before[ns] == s.cache.data[ns]
            && PartlySynced(s, w, todo - {ns}) == if e.Some? then before[ns := e.value] else before - {ns}
  {
  }

  lemma Restored(aws: Account, id: string, fs: FileSystem)
    requires id !in aws
    ensures aws[id := fs] - {id} == aws
  {
  }
}
