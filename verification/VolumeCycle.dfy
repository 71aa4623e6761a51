/**
 * From the first volume of a namespace to the finalization of its claim: the life of a file system where every call
 * works.
 */
module VolumeCycle {
  import opened Strings
  import opened Types
  import opened Tags
  import opened Lifecycle
  import Cache
  import Tracker
  import VolumeIds

  /** A creation that meets no failure. */
  predicate Smooth(m: Making) {
    m.id.Some? && m.waitOk && m.tagOk && m.nameOk && m.mountsOk
  }

  /** A state with one more file system, cached for its namespace. */
  function WithFileSystem(s: State, ns: string, id: string, tags: TagMap): (s': State) {
    Store(s.(aws := s.aws[id := FileSystem(ns, tags)]), ns, FileSystemInfo(id, ns, Available, 0))
  }

  /** The first file system of a namespace, where every call works. */
  lemma FirstFileSystem(s: State, ns: string, user: TagMap, r: Reading, m: Making)
    requires ns != "" && Nothing(s, ns) && Reads(s, r) && r.order.Some? && Smooth(m)
    ensures CreateOrGet(s, ns, true, user, r, m)
            == (WithFileSystem(s, ns, m.id.value, Tagged(ns, s.cluster, user, true, true)),
                Some(FileSystemInfo(m.id.value, ns, Available, 0)))
  {
    NothingIsNotFound(s, ns, r);
    assert GetInfo(s, ns, r) == (s, Missing);
  }

  /** A tracked volume is on the file system its ID names. */
  lemma TracksVolume(s: State, ns: string, pvc: string, id: string, clusterId: string, t: Tracking)
    requires ns != "" && ':' !in ns && id != "" && ':' !in id && pvc != "" && t.getOk && t.writeOk
    requires clusterId != "" && !Contains(clusterId, "::")
    ensures var volumeId := VolumeIds.Print(VolumeIds.NsVolumeId(ns, id, clusterId));
            && VolumeIds.Parse(volumeId).Some?
            && Track(s, ns, pvc, volumeId, t) == s.(book := Tracker.Add(s.book, Tracker.Mapping(ns, pvc, volumeId, id)))
  {
    VolumeIds.ParsedNames(VolumeIds.NsVolumeId(ns, id, clusterId));
  }

  lemma DeleteCached(s: State, ns: string, volumeId: string, d: Deleting, info: FileSystemInfo)
    requires ns != "" && Cache.Lookup(s.cache, ns, s.now) == Some(info) && info.CanBeDeleted()
    requires info.fileSystemId in s.aws
    requires VolumeIds.Parse(volumeId).Some? && Tracker.Count(s.book, ns) == 0 && d.countOk && d.mountsOk && d.deleteOk
    ensures Delete(s, ns, volumeId, d) == (Forget(s.(aws := s.aws - {info.fileSystemId}), ns), true)
  {
    assert GetInfo(s, ns, d.reading) == (s, Present(info));
  }

  /** Deleting the file system that was just added, and forgetting it, restores the account. */
  lemma AddedAndRemoved(s: State, ns: string, id: string, tags: TagMap)
    requires ns != "" && id !in s.aws
    ensures var s1 := WithFileSystem(s, ns, id, tags);
            && Cache.Lookup(s1.cache, ns, s1.now) == Some(FileSystemInfo(id, ns, Available, 0))
            && Forget(s1.(aws := s1.aws - {id}), ns) == Forget(s, ns)
  {
    assert s.aws[id := FileSystem(ns, tags)] - {id} == s.aws;
    var e := Cache.Entry(FileSystemInfo(id, ns, Available, 0), s.now, s.cache.ttl);
    assert s.cache.data[ns := e] - {ns} == s.cache.data - {ns};
  }

  lemma OneClaim(book: Tracker.Book, claim: Tracker.Mapping)
    requires Tracker.WellKept(book) && Tracker.Count(book, claim.namespace) == 0
    ensures claim.pvcName !in Tracker.ClaimsOf(book, claim.namespace)
    ensures Tracker.Count(Tracker.Add(book, claim), claim.namespace) == 1
  {
    var after := Tracker.ClaimsOf(Tracker.Add(book, claim), claim.namespace);
    Tracker.AddIsInsert(book, claim, claim.namespace);
    assert after.Keys == {claim.pvcName};
    assert |after| == |after.Keys|;
  }

  /** A state with one more file system, and a tracked volume on it. */
  function WithVolume(s: State, ns: string, pvc: string, id: string, tags: TagMap, volumeId: string): (s': State) {
    WithFileSystem(s, ns, id, tags).(book := Tracker.Add(s.book, Tracker.Mapping(ns, pvc, volumeId, id)))
  }

  lemma FirstVolume(s: State, ns: string, clusterId: string, pvc: string, user: TagMap, r: Reading, m: Making,
                    t: Tracking)
    requires VolumeIds.IsDnsLabel(ns) && Nothing(s, ns) && pvc != "" && clusterId != "" && !Contains(clusterId, "::")
    requires Reads(s, r) && r.order.Some? && Gives(s, m) && Smooth(m) && t.getOk && t.writeOk
    ensures var volumeId := VolumeIds.Print(VolumeIds.NsVolumeId(ns, m.id.value, clusterId));
            && VolumeIds.Parse(volumeId).Some?
            && CreateVolume(s, ns, clusterId, pvc, true, user, r, m, t)
               == (WithVolume(s, ns, pvc, m.id.value, Tagged(ns, s.cluster, user, true, true), volumeId),
                   Some(volumeId))
  {
    FirstFileSystem(s, ns, user, r, m);
    var s1 := WithFileSystem(s, ns, m.id.value, Tagged(ns, s.cluster, user, true, true));
    TracksVolume(s1, ns, pvc, m.id.value, clusterId, t);
  }

  /** What finalizing the only claim makes of such a state: all of it goes, or only the claim, or nothing. */
  function Finalized(s: State, ns: string, pvc: string, id: string, tags: TagMap, volumeId: string,
                     claim: Claim): (s': State) {
    if ClaimVolume(claim) == "" then WithVolume(s, ns, pvc, id, tags, volumeId)
    else if VolumeIds.Parse(ClaimVolume(claim)).None? then WithFileSystem(s, ns, id, tags)
    else Forget(s, ns)
  }

  lemma OnlyVolumeFinalized(s: State, ns: string, pvc: string, id: string, tags: TagMap, volumeId: string,
                            claim: Claim, t: Tracking, d: Deleting)
    requires ns != "" && pvc != "" && id !in s.aws && Tracker.WellKept(s.book) && Tracker.Count(s.book, ns) == 0
    requires t.getOk && t.writeOk && d.countOk && d.mountsOk && d.deleteOk
    ensures FinalizeClaim(WithVolume(s, ns, pvc, id, tags, volumeId), ns, pvc, claim, t, d)
            == Finalized(s, ns, pvc, id, tags, volumeId, claim)
  {
    var s1, s2 := WithVolume(s, ns, pvc, id, tags, volumeId), WithFileSystem(s, ns, id, tags);
    var mapping := Tracker.Mapping(ns, pvc, volumeId, id);
    OneClaim(s.book, mapping);
    Tracker.AddRemove(s.book, mapping);
    assert Untrack(s1, ns, pvc, t) == (s2, true);
    AddedAndRemoved(s, ns, id, tags);
    if VolumeIds.Parse(ClaimVolume(claim)).Some? {
      DeleteCached(s2, ns, ClaimVolume(claim), d, FileSystemInfo(id, ns, Available, 0));
    }
  }

  /**
   * What can be read off a claim before it is finalized: its annotation is a volume ID, or empty and its volume names
   * one.
   */
  predicate LeadsToVolume(claim: Claim) {
    if claim.annotation != "" then VolumeIds.Parse(claim.annotation).Some?
    else && claim.volumeName != "" && claim.volume.Volume? && claim.volume.handle.Some?
         && VolumeIds.Parse(claim.volume.handle.value).Some?
  }

  lemma LeadsToVolumeExactly(claim: Claim)
    ensures LeadsToVolume(claim) <==> ClaimVolume(claim) != "" && VolumeIds.Parse(ClaimVolume(claim)).Some?
  {
    assert VolumeIds.Parse("").None?;
  }

  lemma RestoredExactly(s: State, ns: string, pvc: string, id: string, tags: TagMap, volumeId: string, claim: Claim)
    requires id !in s.aws
    ensures var s' := Finalized(s, ns, pvc, id, tags, volumeId, claim);
            && (s' == Forget(s, ns) <==> LeadsToVolume(claim))
            && (s'.aws == s.aws <==> LeadsToVolume(claim))
  {
    LeadsToVolumeExactly(claim);
    assert id in WithFileSystem(s, ns, id, tags).aws;
  }

  /**
   * The round trip the namespace mode is for, from every state in which nothing is left of the namespace and with
   * every call working: the first volume of a namespace and the finalization of its claim give back account, tracker
   * and finalizers as they were if and only if the claim leads to a volume ID.
   */
  lemma CreateThenFinalizeExactly(s: State, ns: string, clusterId: string, pvc: string, user: TagMap, r: Reading,
                                  m: Making, claim: Claim, t: Tracking, d: Deleting)
    requires Inv(s) && VolumeIds.IsDnsLabel(ns) && Nothing(s, ns) && Tracker.Count(s.book, ns) == 0 && pvc != ""
    requires clusterId != "" && !Contains(clusterId, "::")
    requires Reads(s, r) && r.order.Some? && Gives(s, m) && Smooth(m) && t.getOk && t.writeOk
    requires d.countOk && d.mountsOk && d.deleteOk
    ensures var (s1, volumeId) := CreateVolume(s, ns, clusterId, pvc, true, user, r, m, t);
            && volumeId.Some? && Owns(s1.aws, ns, m.id.value) && Tracker.Count(s1.book, ns) == 1
            && (FinalizeClaim(s1, ns, pvc, claim, t, d) == Forget(s, ns) <==> LeadsToVolume(claim))
            && (FinalizeClaim(s1, ns, pvc, claim, t, d).aws == s.aws <==> LeadsToVolume(claim))
  {
    var volumeId, id := VolumeIds.Print(VolumeIds.NsVolumeId(ns, m.id.value, clusterId)), m.id.value;
    var tags := Tagged(ns, s.cluster, user, true, true);
    FirstVolume(s, ns, clusterId, pvc, user, r, m, t);
    OneClaim(s.book, Tracker.Mapping(ns, pvc, volumeId, id));
    OnlyVolumeFinalized(s, ns, pvc, id, tags, volumeId, claim, t, d);
    RestoredExactly(s, ns, pvc, id, tags, volumeId, claim);
  }

  /** A claim bound to the volume it was given, without the annotation, leads to it. */
  lemma BoundClaimRestores(s: State, ns: string, clusterId: string, pvc: string, user: TagMap, r: Reading, m: Making,
                           volumeName: string, t: Tracking, d: Deleting)
    requires Inv(s) && VolumeIds.IsDnsLabel(ns) && Nothing(s, ns) && Tracker.Count(s.book, ns) == 0 && pvc != ""
    requires clusterId != "" && !Contains(clusterId, "::") && volumeName != ""
    requires Reads(s, r) && r.order.Some? && Gives(s, m) && Smooth(m) && t.getOk && t.writeOk
    requires d.countOk && d.mountsOk && d.deleteOk
    ensures var (s1, volumeId) := CreateVolume(s, ns, clusterId, pvc, true, user, r, m, t);
            volumeId.Some? && FinalizeClaim(s1, ns, pvc, Claim("", volumeName, Volume(volumeId)), t, d) == Forget(s, ns)
  {
    FirstVolume(s, ns, clusterId, pvc, user, r, m, t);
    var volumeId := CreateVolume(s, ns, clusterId, pvc, true, user, r, m, t).1;
    CreateThenFinalizeExactly(s, ns, clusterId, pvc, user, r, m, Claim("", volumeName, Volume(volumeId)), t, d);
  }
}
