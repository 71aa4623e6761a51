/**
 * The life of a namespace's file system: the manager, the claim tracker, the cache, the finalizers and the volume
 * requests that drive them, as atomic steps over one state (manager.go, controller.go, finalizer.go,
 * namespace_controller.go). Every API call may fail; what it returns is an argument of the step.
 */
module Lifecycle {
  import opened Strings
  import opened Types
  import opened Tags
  import Cache
  import Tracker
  import VolumeIds

  /** A file system in AWS; `createdFor` records the namespace it was created for, which AWS does not know. */
  datatype FileSystem = FileSystem(createdFor: string, tags: TagMap)
  type Account = map<string, FileSystem>

  /** `finalizers` are the namespaces that carry the driver's finalizer; `now` is the time of the last step. */
  datatype State = State(cluster: string, now: int, aws: Account, cache: Cache.State, book: Tracker.Book,
                         finalizers: set<string>)

  predicate Seen(aws: Account, cluster: string, ns: string, id: string) {
    id in aws && Findable(aws[id].tags, ns, cluster)
  }

  predicate Owns(aws: Account, ns: string, id: string) {
    id in aws && aws[id].createdFor == ns
  }

  /** A DescribeFileSystems answer: every file system of the account, in any order. */
  ghost predicate Enumerates(order: seq<string>, aws: Account) {
    forall id :: id in order <==> id in aws
  }

  // ---------------------------------------------------------------------------------------------------------
  // The manager's operations

  /** findExistingFileSystem: the first file system of the answer that carries the name and a managed tag. */
  function FindIn(aws: Account, cluster: string, ns: string, order: seq<string>): (r: Option<string>)
    ensures r.Some? ==> r.value in order && Seen(aws, cluster, ns, r.value)
    ensures r.None? ==> forall id :: id in order ==> !Seen(aws, cluster, ns, id)
  {
    if order == [] then None
    else if Seen(aws, cluster, ns, order[0]) then Some(order[0])
    else FindIn(aws, cluster, ns, order[1..])
  }

  /**
   * What looking a file system up in AWS meets: the listing (None when the call fails), the state it reports, the
   * count call.
   */
  datatype Reading = Reading(order: Option<seq<string>>, state: FsState, countOk: bool)
  datatype Found = Unknown | Missing | Present(info: FileSystemInfo)

  function InfoOf(s: State, id: string, ns: string, state: FsState, countOk: bool): (info: FileSystemInfo) {
    FileSystemInfo(id, ns, state, if countOk then Tracker.Count(s.book, ns) else 0)
  }

  function Find(s: State, ns: string, r: Reading): (f: Found) {
    if r.order.None? then Unknown
    else
      var id := FindIn(s.aws, s.cluster, ns, r.order.value);
      if id.None? then Missing else Present(InfoOf(s, id.value, ns, r.state, r.countOk))
  }

  function Store(s: State, ns: string, info: FileSystemInfo): (s': State) {
    s.(cache := Cache.Put(s.cache, ns, info, s.now))
  }

  function Forget(s: State, ns: string): (s': State) {
    s.(cache := Cache.Drop(s.cache, ns))
  }

  /** GetFileSystemInfo */
  function GetInfo(s: State, ns: string, r: Reading): (x: (State, Found)) {
    if ns == "" then (s, Unknown)
    else
      var hit := Cache.Lookup(s.cache, ns, s.now);
      if hit.Some? then (s, Present(hit.value))
      else
        var f := Find(s, ns, r);
        (if f.Present? then Store(s, ns, f.info) else s, f)
  }

  /** What a creation meets: the identifier AWS gives out (None when CreateFileSystem fails) and the calls after it. */
  datatype Making = Making(id: Option<string>, waitOk: bool, tagOk: bool, nameOk: bool, mountsOk: bool, cleanupOk: bool)

  /** createFileSystem: a failed wait or failed mount targets try to delete the file system again, once. */
  function Make(s: State, ns: string, user: TagMap, m: Making): (x: (State, Option<FileSystemInfo>)) {
    if m.id.None? then (s, None)
    else
      var tags := if m.waitOk then Tagged(ns, s.cluster, user, m.tagOk, m.nameOk) else map[];
      var made := s.(aws := s.aws[m.id.value := FileSystem(ns, tags)]);
      if m.waitOk && m.mountsOk then (made, Some(FileSystemInfo(m.id.value, ns, Available, 0)))
      else (if m.cleanupOk then s else made, None)
  }

  /** CreateOrGetFileSystemForNamespace; `optionsOk` says whether the options are given and valid. */
  function CreateOrGet(s: State, ns: string, optionsOk: bool, user: TagMap, r: Reading, m: Making)
    : (x: (State, Option<FileSystemInfo>))
  {
    if ns == "" || !optionsOk then (s, None)
    else
      var (s1, f) := GetInfo(s, ns, r);
      if f.Present? then (s1, Some(f.info))
      else if f.Unknown? then (s1, None)
      else
        var (s2, made) := Make(s1, ns, user, m);
        if made.None? then (s2, None) else (Store(s2, ns, made.value), made)
  }

  /** What a deletion meets. */
  datatype Deleting = Deleting(countOk: bool, reading: Reading, mountsOk: bool, deleteOk: bool)

  /** DeleteFileSystemForNamespace: refused while the namespace has tracked claims, or their number cannot be read. */
  function Delete(s: State, ns: string, volumeId: string, d: Deleting): (x: (State, bool)) {
    if ns != "" && VolumeIds.Parse(volumeId).Some? && d.countOk && Tracker.Count(s.book, ns) == 0
    then DeleteUnused(s, ns, d)
    else (s, false)
  }

  function DeleteUnused(s: State, ns: string, d: Deleting): (x: (State, bool)) {
    var (s1, f) := GetInfo(s, ns, d.reading);
    DeleteFound(s1, ns, f, d)
  }

  function DeleteFound(s: State, ns: string, f: Found, d: Deleting): (x: (State, bool)) {
    if f.Unknown? then (s, false)
    else if f.Missing? then (Forget(s, ns), true)
    else if !f.info.CanBeDeleted() || !d.mountsOk || !d.deleteOk || f.info.fileSystemId !in s.aws then (s, false)
    else (Forget(s.(aws := s.aws - {f.info.fileSystemId}), ns), true)
  }

  /** What refreshing one cached entry meets. */
  datatype Refresh = Refresh(describeOk: bool, state: FsState, countOk: bool)

  /** One turn of SyncFromAWS: what becomes of a live cache entry. */
  function Refreshed(s: State, e: Cache.Entry, w: Refresh): (e': Option<Cache.Entry>) {
    var id := e.info.fileSystemId;
    if !w.describeOk then Some(e)
    else if id !in s.aws then None
    else if NAMESPACE_KEY !in s.aws[id].tags || s.aws[id].tags[NAMESPACE_KEY] == "" then Some(e)
    else Some(Cache.Entry(InfoOf(s, id, s.aws[id].tags[NAMESPACE_KEY], w.state, w.countOk), s.now, s.cache.ttl))
  }

  function RefreshedAt(s: State, ns: string, w: map<string, Refresh>): (e: Option<Cache.Entry>)
    requires ns in s.cache.data
  {
    if ns == "" || Cache.Expired(s.cache.data[ns], s.now) || ns !in w then Some(s.cache.data[ns])
    else Refreshed(s, s.cache.data[ns], w[ns])
  }

  /** SyncFromAWS; a namespace without an answer is one whose describe call failed. */
  function SyncFromAws(s: State, w: map<string, Refresh>): (s': State) {
    var data := map ns | ns in s.cache.data && RefreshedAt(s, ns, w).Some? :: RefreshedAt(s, ns, w).value;
    s.(cache := s.cache.(data := data))
  }

  // ---------------------------------------------------------------------------------------------------------
  // Volume requests and finalization

  /** Whether the two API calls of a tracker update succeed. */
  datatype Tracking = Tracking(getOk: bool, writeOk: bool)

  /** AddPVC */
  function Track(s: State, ns: string, pvc: string, volumeId: string, t: Tracking): (s': State) {
    var v := VolumeIds.Parse(volumeId);
    if ns == "" || pvc == "" || v.None? || !t.getOk || !t.writeOk then s
    else s.(book := Tracker.Add(s.book, Tracker.Mapping(ns, pvc, volumeId, v.value.fileSystemId)))
  }

  /** RemovePVC: the new state, and whether the call succeeded. */
  function Untrack(s: State, ns: string, pvc: string, t: Tracking): (x: (State, bool)) {
    if ns == "" || pvc == "" || !t.getOk || (!t.writeOk && ns in s.book) then (s, false)
    else (s.(book := Tracker.Remove(s.book, ns, pvc)), true)
  }

  /** createEFSNSVolume: a claim that could not be tracked does not fail the request. */
  function CreateVolume(s: State, ns: string, clusterId: string, pvc: string, optionsOk: bool, user: TagMap,
                        r: Reading, m: Making, t: Tracking): (x: (State, Option<string>)) {
    if clusterId == "" || !VolumeIds.IsDnsLabel(ns) then (s, None)
    else
      var (s1, info) := CreateOrGet(s, ns, optionsOk, user, r, m);
      if info.None? then (s1, None)
      else
        var volumeId := VolumeIds.Print(VolumeIds.NsVolumeId(ns, info.value.fileSystemId, clusterId));
        (Track(s1, ns, pvc, volumeId, t), Some(volumeId))
  }

  /** deleteEFSNSVolume: it removes a claim of a made-up name, and reports success whatever the deletion did. */
  function DeleteVolume(s: State, volumeId: string, t: Tracking, d: Deleting): (x: (State, bool)) {
    var v := VolumeIds.Parse(volumeId);
    if v.None? then (s, true)
    else
      var (s1, ok) := Untrack(s, v.value.namespace, "pvc-" + v.value.fileSystemId, t);
      if !ok then (s1, false) else (Delete(s1, v.value.namespace, volumeId, d).0, true)
  }

  /** What reading a persistent volume returns: an error, or the handle of its CSI source if it has one. */
  datatype VolumeRead = ReadFailed | Volume(handle: Option<string>)

  /** A claim as its finalization sees it: its storage-provisioner annotation, its volume's name and that volume. */
  datatype Claim = Claim(annotation: string, volumeName: string, volume: VolumeRead)

  /** The volume ID the finalization goes by: the annotation if there is one, otherwise the handle of the volume. */
  function ClaimVolume(claim: Claim): (volumeId: string) {
    if claim.annotation != "" then claim.annotation
    else if claim.volumeName != "" && claim.volume.Volume? && claim.volume.handle.Some? then claim.volume.handle.value
    else ""
  }

  /** processPVCFinalization, for a claim that carries the finalizer. */
  function FinalizeClaim(s: State, ns: string, pvc: string, claim: Claim, t: Tracking, d: Deleting): (s': State) {
    if ClaimVolume(claim) == "" then s
    else
      var (s1, ok) := Untrack(s, ns, pvc, t);
      if ok && Tracker.Count(s1.book, ns) == 0 then Delete(s1, ns, ClaimVolume(claim), d).0 else s1
  }

  function VolumeOf(s: State, ns: string, info: FileSystemInfo): (volumeId: string) {
    VolumeIds.Print(VolumeIds.NsVolumeId(ns, info.fileSystemId, s.cluster))
  }

  /** cleanupNamespaceFilesystem */
  function Cleanup(s: State, ns: string, r: Reading, d: Deleting): (x: (State, bool)) {
    var (s1, f) := GetInfo(s, ns, r);
    match f
    case Unknown => (s1, false)
    case Missing => (s1, true)
    case Present(info) => Delete(s1, ns, VolumeOf(s1, ns, info), d)
  }

  /** The count the controllers act on: a failed count call leaves zero. */
  function CountRead(s: State, ns: string, countOk: bool): (n: nat) {
    if countOk then Tracker.Count(s.book, ns) else 0
  }

  /** What processing the deletion of a namespace meets. */
  datatype Departing = Departing(countOk: bool, addOk: bool, reading: Reading, deleting: Deleting, removeOk: bool)

  /** ProcessNamespaceDeletion */
  function ProcessDeletion(s: State, ns: string, w: Departing): (x: (State, bool)) {
    if ns == "" then (s, false)
    else if CountRead(s, ns, w.countOk) > 0 then
      (if w.addOk then s.(finalizers := s.finalizers + {ns}) else s, false)
    else
      var (s1, ok) := Cleanup(s, ns, w.reading, w.deleting);
      if ok && w.removeOk then (s1.(finalizers := s1.finalizers - {ns}), true) else (s1, false)
  }

  /** processNamespaceFinalization: a failed lookup or deletion does not keep the finalizer. */
  function FinalizeNamespace(s: State, ns: string, w: Departing): (x: (State, bool)) {
    if ns !in s.finalizers then (s, true)
    else if CountRead(s, ns, w.countOk) > 0 then (s, false)
    else
      var (s1, f) := GetInfo(s, ns, w.reading);
      var s2 := if f.Present? then Delete(s1, ns, VolumeOf(s1, ns, f.info), w.deleting).0 else s1;
      if w.removeOk && ns != "" then (s2.(finalizers := s2.finalizers - {ns}), true) else (s2, false)
  }

  // ---------------------------------------------------------------------------------------------------------
  // Runs

  datatype Step =
    | CreateVolumeStep(ns: string, clusterId: string, pvc: string, optionsOk: bool, user: TagMap, r: Reading, m: Making,
                       t: Tracking)
    | DeleteVolumeStep(volumeId: string, t: Tracking, d: Deleting)
    | FinalizeClaimStep(ns: string, pvc: string, claim: Claim, t: Tracking, d: Deleting)
    | ProcessDeletionStep(ns: string, w: Departing)
    | FinalizeNamespaceStep(ns: string, w: Departing)
    | GetInfoStep(ns: string, r: Reading)
    | SyncTrackerStep(cl: Tracker.Cluster)
    | SyncFromAwsStep(refreshes: map<string, Refresh>)
    | CleanupCacheStep
    | TickStep(now: int)
    | RestartStep

  function Next(s: State, e: Step): (s': State) {
    match e
    case CreateVolumeStep(ns, clusterId, pvc, optionsOk, user, r, m, t) =>
      CreateVolume(s, ns, clusterId, pvc, optionsOk, user, r, m, t).0
    case DeleteVolumeStep(volumeId, t, d) => DeleteVolume(s, volumeId, t, d).0
    case FinalizeClaimStep(ns, pvc, claim, t, d) => FinalizeClaim(s, ns, pvc, claim, t, d)
    case ProcessDeletionStep(ns, w) => ProcessDeletion(s, ns, w).0
    case FinalizeNamespaceStep(ns, w) => FinalizeNamespace(s, ns, w).0
    case GetInfoStep(ns, r) => GetInfo(s, ns, r).0
    case SyncTrackerStep(cl) => s.(book := Tracker.Sync(s.book, cl))
    case SyncFromAwsStep(w) => SyncFromAws(s, w)
    case CleanupCacheStep => s.(cache := Cache.Sweep(s.cache, s.now))
    case TickStep(now) => s.(now := now)
    case RestartStep => s.(cache := Cache.FRESH)
  }

  ghost predicate Reads(s: State, r: Reading) {
    r.order.Some? ==> Enumerates(r.order.value, s.aws)
  }

  /** AWS gives out identifiers that are not in use. */
  ghost predicate Gives(s: State, m: Making) {
    m.id.Some? ==> m.id.value != "" && ':' !in m.id.value && m.id.value !in s.aws
  }

  /**
   * What is assumed of the world: listings are complete, identifiers new, user tags do not name another namespace's
   * file system, time does not go back.
   */
  ghost predicate Possible(s: State, e: Step) {
    match e
    case CreateVolumeStep(ns, _, _, _, user, r, m, _) => Reads(s, r) && Gives(s, m) && NamesNoOther(ns, s.cluster, user)
    case DeleteVolumeStep(_, _, d) => Reads(s, d.reading)
    case FinalizeClaimStep(_, _, _, _, d) => Reads(s, d.reading)
    case ProcessDeletionStep(_, w) => Reads(s, w.reading) && Reads(s, w.deleting.reading)
    case FinalizeNamespaceStep(_, w) => Reads(s, w.reading) && Reads(s, w.deleting.reading)
    case GetInfoStep(_, r) => Reads(s, r)
    case TickStep(now) => s.now <= now
    case _ => true
  }

  function Run(s: State, steps: seq<Step>): (s': State) {
    if steps == [] then s else Next(Run(s, steps[..|steps| - 1]), steps[|steps| - 1])
  }

  ghost predicate RunPossible(s: State, steps: seq<Step>) {
    forall i :: 0 <= i < |steps| ==> Possible(Run(s, steps[..i]), steps[i])
  }

  // ---------------------------------------------------------------------------------------------------------
  // What every run keeps

  ghost predicate SoundFs(id: string, fs: FileSystem, cluster: string) {
    && id != "" && ':' !in id
    && (forall ns :: Findable(fs.tags, ns, cluster) ==> ns == fs.createdFor)
    && (fs.createdFor != "" && NAMESPACE_KEY in fs.tags ==> fs.tags[NAMESPACE_KEY] == fs.createdFor)
  }

  /** A file system that looks like a namespace's was created for that namespace. */
  ghost predicate Sound(aws: Account, cluster: string) {
    forall id :: id in aws ==> SoundFs(id, aws[id], cluster)
  }

  /** At most one file system can be found for a namespace. */
  ghost predicate Unique(aws: Account, cluster: string) {
    forall ns, a, b :: Seen(aws, cluster, ns, a) && Seen(aws, cluster, ns, b) ==> a == b
  }

  /** Every cache entry, live or not, names an existing file system that was created for its namespace. */
  ghost predicate CacheTrue(aws: Account, cache: Cache.State) {
    forall ns :: ns in cache.data ==>
      && ns != "" && Owns(aws, ns, cache.data[ns].info.fileSystemId) && cache.data[ns].info.namespace == ns
  }

  /** No file system but the cached one can be found for a namespace while its cache entry is live. */
  ghost predicate CacheCurrent(aws: Account, cluster: string, cache: Cache.State, now: int) {
    forall ns, id :: ns in cache.data && !Cache.Expired(cache.data[ns], now) && Seen(aws, cluster, ns, id)
                     ==> id == cache.data[ns].info.fileSystemId
  }

  /** Every tracked claim names an existing file system that was created for its namespace. */
  ghost predicate ClaimsServed(aws: Account, book: Tracker.Book) {
    forall ns, p :: ns in book && p in book[ns] ==> Owns(aws, ns, book[ns][p].fileSystemId)
  }

  ghost predicate Inv(s: State) {
    && Sound(s.aws, s.cluster) && Unique(s.aws, s.cluster)
    && CacheTrue(s.aws, s.cache) && CacheCurrent(s.aws, s.cluster, s.cache, s.now)
    && Tracker.WellKept(s.book) && ClaimsServed(s.aws, s.book)
  }

  // The effects that steps are made of.

  lemma StoreKeeps(s: State, ns: string, info: FileSystemInfo)
    requires Inv(s) && ns != "" && info.namespace == ns && Owns(s.aws, ns, info.fileSystemId)
    requires forall id :: Seen(s.aws, s.cluster, ns, id) ==> id == info.fileSystemId
    ensures Inv(Store(s, ns, info))
  {
  }

  lemma ForgetKeeps(s: State, ns: string)
    requires Inv(s)
    ensures Inv(Forget(s, ns))
  {
  }

  lemma AddFileSystemKeeps(s: State, id: string, fs: FileSystem)
    requires Inv(s) && id !in s.aws && SoundFs(id, fs, s.cluster)
    requires forall other :: !Seen(s.aws, s.cluster, fs.createdFor, other)
    requires Cache.Lookup(s.cache, fs.createdFor, s.now).None?
    ensures Inv(s.(aws := s.aws[id := fs]))
  {
    var aws := s.aws[id := fs];
    forall ns, a | Seen(aws, s.cluster, ns, a) ensures a == id || Seen(s.aws, s.cluster, ns, a) {}
    forall ns, a | Owns(s.aws, ns, a) ensures Owns(aws, ns, a) {}
  }

  /** Removing the file system of a namespace is safe once its claims are gone and its cache entry is too. */
  lemma RemoveFileSystemKeeps(s: State, ns: string, id: string)
    requires Inv(s) && Owns(s.aws, ns, id) && Tracker.Count(s.book, ns) == 0
    ensures Inv(Forget(s.(aws := s.aws - {id}), ns))
  {
    var aws := s.aws - {id};
    forall n, a | Seen(aws, s.cluster, n, a) ensures Seen(s.aws, s.cluster, n, a) {}
    forall n, a | n != ns && Owns(s.aws, n, a) ensures Owns(aws, n, a) {}
    forall n, p | n in s.book && p in s.book[n] ensures Owns(aws, n, s.book[n][p].fileSystemId) {
      assert n != ns;
    }
  }

  lemma LookedUp(s: State, ns: string, r: Reading)
    requires Inv(s) && Reads(s, r)
    ensures var f := Find(s, ns, r);
            && (f.Missing? ==> forall id :: !Seen(s.aws, s.cluster, ns, id))
            && (f.Present? ==> f.info.namespace == ns && Owns(s.aws, ns, f.info.fileSystemId)
                               && forall id :: Seen(s.aws, s.cluster, ns, id) ==> id == f.info.fileSystemId)
  {
    var f := Find(s, ns, r);
    if f.Missing? {
      forall id ensures !Seen(s.aws, s.cluster, ns, id) {}
    } else if f.Present? {
      assert Seen(s.aws, s.cluster, ns, f.info.fileSystemId);
    }
  }

  /**
   * GetFileSystemInfo reports the one file system of the namespace there is to find, and then knows it; or there is
   * none.
   */
  lemma GetInfoKeeps(s: State, ns: string, r: Reading)
    requires Inv(s) && Reads(s, r)
    ensures var (s', f) := GetInfo(s, ns, r);
            && Inv(s') && s' == s.(cache := s'.cache)
            && (f.Present? ==> && ns != "" && Owns(s.aws, ns, f.info.fileSystemId)
                               && Cache.Lookup(s'.cache, ns, s.now) == Some(f.info)
                               && forall id :: Seen(s.aws, s.cluster, ns, id) ==> id == f.info.fileSystemId)
            && (f.Missing? ==> && ns != "" && s' == s && Cache.Lookup(s.cache, ns, s.now).None?
                               && forall id :: !Seen(s.aws, s.cluster, ns, id))
  {
    if ns != "" {
      if Cache.Lookup(s.cache, ns, s.now).None? {
        LookedUp(s, ns, r);
        var f := Find(s, ns, r);
        if f.Present? { StoreKeeps(s, ns, f.info); }
      }
    }
  }

  lemma MakeKeeps(s: State, ns: string, user: TagMap, m: Making)
    requires Inv(s) && ns != "" && Gives(s, m) && NamesNoOther(ns, s.cluster, user)
    requires forall id :: !Seen(s.aws, s.cluster, ns, id)
    requires Cache.Lookup(s.cache, ns, s.now).None?
    ensures var (s', made) := Make(s, ns, user, m);
            && Inv(s') && s' == s.(aws := s'.aws)
            && (made.Some? ==> && made.value.namespace == ns && Owns(s'.aws, ns, made.value.fileSystemId)
                               && forall id :: Seen(s'.aws, s.cluster, ns, id) ==> id == made.value.fileSystemId)
  {
    if m.id.Some? {
      var tags := if m.waitOk then Tagged(ns, s.cluster, user, m.tagOk, m.nameOk) else map[];
      MadeSound(m.id.value, ns, s.cluster, user, m);
      AddFileSystemKeeps(s, m.id.value, FileSystem(ns, tags));
      var aws := s.aws[m.id.value := FileSystem(ns, tags)];
      forall id | Seen(aws, s.cluster, ns, id) ensures id == m.id.value {
        assert id != m.id.value ==> Seen(s.aws, s.cluster, ns, id);
      }
    }
  }

  lemma MadeSound(id: string, ns: string, cluster: string, user: TagMap, m: Making)
    requires id != "" && ':' !in id && NamesNoOther(ns, cluster, user)
    ensures var tags := if m.waitOk then Tagged(ns, cluster, user, m.tagOk, m.nameOk) else map[];
            SoundFs(id, FileSystem(ns, tags), cluster)
  {
    NamespaceTag(ns, cluster, user, m.tagOk, m.nameOk);
    forall other | Findable(Tagged(ns, cluster, user, m.tagOk, m.nameOk), other, cluster) ensures other == ns {
      FindableExactly(ns, cluster, user, m.tagOk, m.nameOk, other);
    }
  }

  /** CreateOrGet hands out a file system that exists and was created for the namespace. */
  lemma CreateOrGetKeeps(s: State, ns: string, optionsOk: bool, user: TagMap, r: Reading, m: Making)
    requires Inv(s) && Reads(s, r) && Gives(s, m) && NamesNoOther(ns, s.cluster, user)
    ensures var (s', info) := CreateOrGet(s, ns, optionsOk, user, r, m);
            && Inv(s') && s'.book == s.book
            && (info.Some? ==> Owns(s'.aws, ns, info.value.fileSystemId)
                               && Cache.Lookup(s'.cache, ns, s'.now) == info)
  {
    if ns != "" && optionsOk {
      GetInfoKeeps(s, ns, r);
      var (s1, f) := GetInfo(s, ns, r);
      if f.Missing? { MakeAndStoreKeeps(s1, ns, user, m); }
    }
  }

  lemma MakeAndStoreKeeps(s: State, ns: string, user: TagMap, m: Making)
    requires Inv(s) && ns != "" && Gives(s, m) && NamesNoOther(ns, s.cluster, user)
    requires forall id :: !Seen(s.aws, s.cluster, ns, id)
    requires Cache.Lookup(s.cache, ns, s.now).None?
    ensures var (s', made) := Make(s, ns, user, m);
            && Inv(s') && s'.book == s.book
            && (made.Some? ==> var s2 := Store(s', ns, made.value);
                               && Inv(s2) && s2.book == s.book && Owns(s2.aws, ns, made.value.fileSystemId)
                               && Cache.Lookup(s2.cache, ns, s2.now) == made)
  {
    MakeKeeps(s, ns, user, m);
    var (s', made) := Make(s, ns, user, m);
    if made.Some? { StoreKeeps(s', ns, made.value); }
  }

  lemma RemovedNothing(s: State, ns: string, only: string)
    requires forall id :: Seen(s.aws, s.cluster, ns, id) ==> id == only
    ensures Nothing(Forget(s.(aws := s.aws - {only}), ns), ns)
  {
    var aws := s.aws - {only};
    forall id ensures !Seen(aws, s.cluster, ns, id) {
      assert Seen(aws, s.cluster, ns, id) ==> Seen(s.aws, s.cluster, ns, id);
    }
  }

  lemma DeleteUnusedKeeps(s: State, ns: string, d: Deleting)
    requires Inv(s) && Reads(s, d.reading) && ns != "" && Tracker.Count(s.book, ns) == 0
    ensures var (s', ok) := DeleteUnused(s, ns, d);
            && Inv(s') && s' == s.(aws := s'.aws, cache := s'.cache)
            && if ok then Nothing(s', ns) else s'.aws == s.aws
  {
    GetInfoKeeps(s, ns, d.reading);
    var (s1, f) := GetInfo(s, ns, d.reading);
    DeleteFoundKeeps(s1, ns, f, d);
  }

  lemma DeleteFoundKeeps(s: State, ns: string, f: Found, d: Deleting)
    requires Inv(s) && Tracker.Count(s.book, ns) == 0
    requires f.Present? ==> Owns(s.aws, ns, f.info.fileSystemId)
    requires f.Present? ==> forall id :: Seen(s.aws, s.cluster, ns, id) ==> id == f.info.fileSystemId
    requires f.Missing? ==> Nothing(s, ns)
    ensures var (s', ok) := DeleteFound(s, ns, f, d);
            && Inv(s') && s' == s.(aws := s'.aws, cache := s'.cache)
            && if ok then Nothing(s', ns) else s'.aws == s.aws
  {
    if f.Missing? {
      ForgetKeeps(s, ns);
    } else if f.Present? {
      RemoveFileSystemKeeps(s, ns, f.info.fileSystemId);
      RemovedNothing(s, ns, f.info.fileSystemId);
    }
  }

  /** A deletion that succeeds leaves nothing to find; one that fails leaves the account as it was. */
  lemma DeleteKeeps(s: State, ns: string, volumeId: string, d: Deleting)
    requires Inv(s) && Reads(s, d.reading)
    ensures var (s', ok) := Delete(s, ns, volumeId, d);
            && Inv(s') && s' == s.(aws := s'.aws, cache := s'.cache)
            && (!ok ==> s'.aws == s.aws)
            && (ok ==> Nothing(s', ns) && Tracker.Count(s.book, ns) == 0)
  {
    if ns != "" && Tracker.Count(s.book, ns) == 0 { DeleteUnusedKeeps(s, ns, d); }
  }

  /** The manager can find no file system for the namespace, in the cache or in AWS. */
  ghost predicate Nothing(s: State, ns: string) {
    && Cache.Lookup(s.cache, ns, s.now).None?
    && forall id :: !Seen(s.aws, s.cluster, ns, id)
  }

  /** That is what a complete answer from AWS makes GetFileSystemInfo say. */
  lemma NothingIsNotFound(s: State, ns: string, r: Reading)
    requires ns != "" && r.order.Some? && Reads(s, r)
    ensures Nothing(s, ns) <==> GetInfo(s, ns, r).1 == Missing
  {
    if Nothing(s, ns) {
      var id := FindIn(s.aws, s.cluster, ns, r.order.value);
      assert id.Some? ==> Seen(s.aws, s.cluster, ns, id.value);
    }
    if GetInfo(s, ns, r).1 == Missing {
      forall id ensures !Seen(s.aws, s.cluster, ns, id) {}
    }
  }

  lemma TrackKeeps(s: State, ns: string, pvc: string, fs: string, clusterId: string, t: Tracking)
    requires Inv(s) && ns != "" && ':' !in ns && Owns(s.aws, ns, fs)
    ensures Inv(Track(s, ns, pvc, VolumeIds.Print(VolumeIds.NsVolumeId(ns, fs, clusterId)), t))
  {
    var v := VolumeIds.NsVolumeId(ns, fs, clusterId);
    VolumeIds.ParsedNames(v);
    var volumeId := VolumeIds.Print(v);
    if VolumeIds.Parse(volumeId).Some? {
      var mapping := Tracker.Mapping(ns, pvc, volumeId, fs);
      AddKeeps(s, mapping);
    }
  }

  lemma AddKeeps(s: State, mapping: Tracker.Mapping)
    requires Inv(s) && Owns(s.aws, mapping.namespace, mapping.fileSystemId)
    ensures Inv(s.(book := Tracker.Add(s.book, mapping)))
  {
    var book: Tracker.Book := Tracker.Add(s.book, mapping);
    Tracker.AddIsInsert(s.book, mapping, mapping.namespace);
    forall n: string, p: string | n in book && p in book[n] ensures Owns(s.aws, n, book[n][p].fileSystemId) {
      AddedServed(s, mapping, n, p);
    }
  }

  lemma AddedServed(s: State, mapping: Tracker.Mapping, n: string, p: string)
    requires ClaimsServed(s.aws, s.book) && Tracker.WellKept(s.book)
    requires Owns(s.aws, mapping.namespace, mapping.fileSystemId)
    requires p in Tracker.ClaimsOf(Tracker.Add(s.book, mapping), n)
    ensures Owns(s.aws, n, Tracker.ClaimsOf(Tracker.Add(s.book, mapping), n)[p].fileSystemId)
  {
    Tracker.AddIsInsert(s.book, mapping, n);
  }

  lemma UntrackKeeps(s: State, ns: string, pvc: string, t: Tracking)
    requires Inv(s)
    ensures Inv(Untrack(s, ns, pvc, t).0)
    ensures Untrack(s, ns, pvc, t).0 == s.(book := Untrack(s, ns, pvc, t).0.book)
  {
    var book: Tracker.Book := Tracker.Remove(s.book, ns, pvc);
    Tracker.RemoveIsDelete(s.book, ns, pvc, ns);
    forall n: string, p: string | n in book && p in book[n] ensures Owns(s.aws, n, book[n][p].fileSystemId) {
      Tracker.RemoveIsDelete(s.book, ns, pvc, n);
    }
  }

  lemma SyncTrackerKeeps(s: State, cl: Tracker.Cluster)
    requires Inv(s)
    ensures Inv(s.(book := Tracker.Sync(s.book, cl)))
  {
    var book: Tracker.Book := Tracker.Sync(s.book, cl);
    Tracker.SyncIsIntersection(s.book, cl, "");
    forall n: string, p: string | n in book && p in book[n] ensures Owns(s.aws, n, book[n][p].fileSystemId) {
      Tracker.SyncIsIntersection(s.book, cl, n);
    }
  }

  lemma SyncFromAwsKeeps(s: State, w: map<string, Refresh>)
    requires Inv(s)
    ensures Inv(SyncFromAws(s, w))
  {
    var s' := SyncFromAws(s, w);
    forall ns | ns in s'.cache.data
      ensures ns in s.cache.data && s'.cache.data[ns].info.fileSystemId == s.cache.data[ns].info.fileSystemId
      ensures s'.cache.data[ns].info.namespace == ns
      ensures Cache.Expired(s.cache.data[ns], s.now) ==> Cache.Expired(s'.cache.data[ns], s.now)
    {
      RefreshKeeps(s, ns, w);
    }
  }

  lemma RefreshKeeps(s: State, ns: string, w: map<string, Refresh>)
    requires Inv(s) && ns in s.cache.data && RefreshedAt(s, ns, w).Some?
    ensures var e := RefreshedAt(s, ns, w).value;
            && e.info.fileSystemId == s.cache.data[ns].info.fileSystemId && e.info.namespace == ns
            && (Cache.Expired(s.cache.data[ns], s.now) ==> Cache.Expired(e, s.now))
  {
    var id := s.cache.data[ns].info.fileSystemId;
    assert SoundFs(id, s.aws[id], s.cluster);
  }

  lemma CleanupKeeps(s: State, ns: string, r: Reading, d: Deleting)
    requires Inv(s) && Reads(s, r) && Reads(s, d.reading)
    ensures var (s', ok) := Cleanup(s, ns, r, d);
            && Inv(s') && s' == s.(aws := s'.aws, cache := s'.cache)
            && (!ok ==> s'.aws == s.aws)
            && (ok ==> Nothing(s', ns))
            && (Tracker.Count(s.book, ns) > 0 ==> s'.aws == s.aws)
  {
    GetInfoKeeps(s, ns, r);
    var (s1, f) := GetInfo(s, ns, r);
    if f.Present? {
      DeleteKeeps(s1, ns, VolumeOf(s1, ns, f.info), d);
    }
  }

  lemma CreateVolumeKeeps(s: State, ns: string, clusterId: string, pvc: string, optionsOk: bool, user: TagMap,
                          r: Reading, m: Making, t: Tracking)
    requires Inv(s) && Reads(s, r) && Gives(s, m) && NamesNoOther(ns, s.cluster, user)
    ensures Inv(CreateVolume(s, ns, clusterId, pvc, optionsOk, user, r, m, t).0)
  {
    if clusterId != "" && VolumeIds.IsDnsLabel(ns) {
      CreateOrGetKeeps(s, ns, optionsOk, user, r, m);
      var (s1, info) := CreateOrGet(s, ns, optionsOk, user, r, m);
      if info.Some? { TrackKeeps(s1, ns, pvc, info.value.fileSystemId, clusterId, t); }
    }
  }

  lemma DeleteVolumeKeeps(s: State, volumeId: string, t: Tracking, d: Deleting)
    requires Inv(s) && Reads(s, d.reading)
    ensures Inv(DeleteVolume(s, volumeId, t, d).0)
  {
    var v := VolumeIds.Parse(volumeId);
    if v.Some? {
      UntrackKeeps(s, v.value.namespace, "pvc-" + v.value.fileSystemId, t);
      DeleteKeeps(Untrack(s, v.value.namespace, "pvc-" + v.value.fileSystemId, t).0, v.value.namespace, volumeId, d);
    }
  }

  lemma FinalizeNamespaceKeeps(s: State, ns: string, w: Departing)
    requires Inv(s) && Reads(s, w.reading) && Reads(s, w.deleting.reading)
    ensures Inv(FinalizeNamespace(s, ns, w).0)
  {
    GetInfoKeeps(s, ns, w.reading);
    var (s1, f) := GetInfo(s, ns, w.reading);
    if f.Present? { DeleteKeeps(s1, ns, VolumeOf(s1, ns, f.info), w.deleting); }
  }

  lemma FinalizeClaimKeeps(s: State, ns: string, pvc: string, claim: Claim, t: Tracking, d: Deleting)
    requires Inv(s) && Reads(s, d.reading)
    ensures Inv(FinalizeClaim(s, ns, pvc, claim, t, d))
  {
    UntrackKeeps(s, ns, pvc, t);
    var s1 := Untrack(s, ns, pvc, t).0;
    FinalizeClaimOutcomes(s, ns, pvc, claim, t, d);
    DeleteKeeps(s1, ns, ClaimVolume(claim), d);
  }

  lemma FinalizeClaimOutcomes(s: State, ns: string, pvc: string, claim: Claim, t: Tracking, d: Deleting)
    ensures var s', s1 := FinalizeClaim(s, ns, pvc, claim, t, d), Untrack(s, ns, pvc, t).0;
            s1.aws == s.aws && (s' == s || s' == s1 || s' == Delete(s1, ns, ClaimVolume(claim), d).0)
  {
  }

  lemma NextKeeps(s: State, e: Step)
    requires Inv(s) && Possible(s, e)
    ensures Inv(Next(s, e))
  {
    match e
    case CreateVolumeStep(ns, clusterId, pvc, optionsOk, user, r, m, t) =>
      CreateVolumeKeeps(s, ns, clusterId, pvc, optionsOk, user, r, m, t);
    case DeleteVolumeStep(volumeId, t, d) => DeleteVolumeKeeps(s, volumeId, t, d);
    case FinalizeClaimStep(ns, pvc, claim, t, d) => FinalizeClaimKeeps(s, ns, pvc, claim, t, d);
    case ProcessDeletionStep(ns, w) => CleanupKeeps(s, ns, w.reading, w.deleting);
    case FinalizeNamespaceStep(ns, w) => FinalizeNamespaceKeeps(s, ns, w);
    case GetInfoStep(ns, r) => GetInfoKeeps(s, ns, r);
    case SyncTrackerStep(cl) => SyncTrackerKeeps(s, cl);
    case SyncFromAwsStep(w) => SyncFromAwsKeeps(s, w);
    case CleanupCacheStep =>
    case TickStep(now) =>
    case RestartStep =>
  }

  lemma {:induction false} RunKeeps(s: State, steps: seq<Step>)
    requires Inv(s) && RunPossible(s, steps)
    ensures Inv(Run(s, steps))
  {
    if steps != [] {
      var n := |steps| - 1;
      forall i | 0 <= i < n ensures Possible(Run(s, steps[..n][..i]), steps[..n][i]) {
        assert steps[..n][..i] == steps[..i];
      }
      RunKeeps(s, steps[..n]);
      assert Possible(Run(s, steps[..n]), steps[n]);
      NextKeeps(Run(s, steps[..n]), steps[n]);
    }
  }

  // ---------------------------------------------------------------------------------------------------------
  // The promises

  /**
   * A driver that has just started, for the first time or again: nothing is cached, nothing in the account poses as a
   * namespace's file system twice, and what is tracked is served. The finalizers may be on any namespaces.
   */
  ghost predicate Started(s: State) {
    && Sound(s.aws, s.cluster) && Unique(s.aws, s.cluster)
    && s.cache == Cache.FRESH && Tracker.WellKept(s.book) && ClaimsServed(s.aws, s.book)
  }

  /** Restarting after any run, and a first start on an account of which nothing is tracked, are such starts. */
  lemma StartedExactly(s: State)
    ensures Inv(s) ==> Started(Next(s, RestartStep))
    ensures Started(s) ==> Inv(s)
    ensures s.cache == Cache.FRESH && s.book == map[] ==>
              (Started(s) <==> Sound(s.aws, s.cluster) && Unique(s.aws, s.cluster))
  {
  }

  /**
   * In every run, whatever fails: the file system of a tracked claim exists and was created for the claim's namespace,
   * so was the file system of a live cache entry, and no namespace has two file systems that could be found for it.
   */
  lemma EveryRunIsSafe(s0: State, steps: seq<Step>, ns: string, pvc: string, a: string, b: string)
    requires Started(s0) && RunPossible(s0, steps)
    ensures var s := Run(s0, steps);
            && (pvc in Tracker.ClaimsOf(s.book, ns) ==> Owns(s.aws, ns, Tracker.ClaimsOf(s.book, ns)[pvc].fileSystemId))
            && (Cache.Lookup(s.cache, ns, s.now).Some? ==>
                  && Owns(s.aws, ns, Cache.Lookup(s.cache, ns, s.now).value.fileSystemId)
                  && (Seen(s.aws, s.cluster, ns, a) ==> a == Cache.Lookup(s.cache, ns, s.now).value.fileSystemId))
            && (Seen(s.aws, s.cluster, ns, a) && Seen(s.aws, s.cluster, ns, b) ==> a == b && Owns(s.aws, ns, a))
  {
    StartedExactly(s0);
    RunKeeps(s0, steps);
  }

  /**
   * ProcessNamespaceDeletion lets go of a namespace only when the manager can no longer find a file system for it, and
   * tracked claims keep the file system even if their number could not be read.
   */
  lemma DeletionReleasesOnlyWhenClean(s: State, ns: string, w: Departing)
    requires Inv(s) && Possible(s, ProcessDeletionStep(ns, w))
    ensures var (s', ok) := ProcessDeletion(s, ns, w);
            && (ok ==> Nothing(s', ns) && ns !in s'.finalizers)
            && (!ok ==> s.finalizers <= s'.finalizers <= s.finalizers + {ns})
            && (forall n :: n in s.finalizers && n !in s'.finalizers ==> n == ns && ok)
            && (Tracker.Count(s.book, ns) > 0 ==> s'.aws == s.aws)
            && (Tracker.Count(s.book, ns) > 0 && w.countOk ==>
                  !ok && s'.cache == s.cache && (w.addOk ==> ns == "" || ns in s'.finalizers))
  {
    if ns != "" && CountRead(s, ns, w.countOk) == 0 { CleanupLeaves(s, ns, w); }
  }

  lemma CleanupLeaves(s: State, ns: string, w: Departing)
    requires Inv(s) && Possible(s, ProcessDeletionStep(ns, w))
    ensures var (s', ok) := Cleanup(s, ns, w.reading, w.deleting);
            && (ok ==> Nothing(s', ns)) && s'.finalizers == s.finalizers
            && (Tracker.Count(s.book, ns) > 0 ==> s'.aws == s.aws)
  {
    CleanupKeeps(s, ns, w.reading, w.deleting);
  }

  /**
   * Whether the deletion that ends a namespace goes through: every call succeeds and the file system may be deleted.
   */
  predicate Clears(s: State, ns: string, w: Departing) {
    var f := GetInfo(s, ns, w.reading).1;
    && f.Present? && f.info.CanBeDeleted()
    && VolumeIds.Parse(VolumeOf(s, ns, f.info)).Some?
    && w.deleting.countOk && Tracker.Count(s.book, ns) == 0
    && w.deleting.mountsOk && w.deleting.deleteOk
  }

  /**
   * The other way out does not wait: processNamespaceFinalization takes the finalizer off with a file system left to
   * find exactly when there was one and its deletion did not go through.
   */
  lemma FinalizationLeavesFileSystemExactly(s: State, ns: string, w: Departing)
    requires Inv(s) && Possible(s, FinalizeNamespaceStep(ns, w))
    requires ns != "" && ns in s.finalizers && CountRead(s, ns, w.countOk) == 0 && w.removeOk
    ensures var (s', ok) := FinalizeNamespace(s, ns, w);
            ok && ns !in s'.finalizers && (Nothing(s', ns) <==> Nothing(s, ns) || Clears(s, ns, w))
  {
    GetInfoKeeps(s, ns, w.reading);
    var (s1, f) := GetInfo(s, ns, w.reading);
    if f.Present? {
      FoundIsSomething(s, ns, w.reading);
      FinalDelete(s1, ns, VolumeOf(s1, ns, f.info), w.deleting, f.info);
    }
  }

  lemma FoundIsSomething(s: State, ns: string, r: Reading)
    requires GetInfo(s, ns, r).1.Present?
    ensures !Nothing(s, ns)
  {
    if Cache.Lookup(s.cache, ns, s.now).None? {
      var id := FindIn(s.aws, s.cluster, ns, r.order.value);
      assert Seen(s.aws, s.cluster, ns, id.value);
    }
  }

  /** With the file system already looked up, a deletion goes through exactly when its calls do. */
  lemma FinalDelete(s: State, ns: string, volumeId: string, d: Deleting, info: FileSystemInfo)
    requires Inv(s) && Reads(s, d.reading) && ns != "" && Cache.Lookup(s.cache, ns, s.now) == Some(info)
    ensures var (s', ok) := Delete(s, ns, volumeId, d);
            && (ok <==> && info.CanBeDeleted() && VolumeIds.Parse(volumeId).Some? && d.countOk
                        && Tracker.Count(s.book, ns) == 0 && d.mountsOk && d.deleteOk)
            && (ok <==> Nothing(s', ns))
  {
    DeleteKeeps(s, ns, volumeId, d);
    assert Owns(s.aws, ns, info.fileSystemId);
  }

  /**
   * A volume is tracked when it is created exactly if the claim is named, both tracker calls succeed and its ID
   * parses.
   */
  lemma CreatedVolumeTrackedExactly(s: State, ns: string, clusterId: string, pvc: string, optionsOk: bool, user: TagMap,
                                    r: Reading, m: Making, t: Tracking)
    requires Inv(s) && Reads(s, r) && Gives(s, m) && NamesNoOther(ns, s.cluster, user)
    requires pvc !in Tracker.ClaimsOf(s.book, ns)
    requires CreateVolume(s, ns, clusterId, pvc, optionsOk, user, r, m, t).1.Some?
    ensures var (s', volumeId) := CreateVolume(s, ns, clusterId, pvc, optionsOk, user, r, m, t);
            && (pvc in Tracker.ClaimsOf(s'.book, ns)
                <==> pvc != "" && t.getOk && t.writeOk && !Contains(clusterId, "::"))
            && (pvc in Tracker.ClaimsOf(s'.book, ns) ==>
                  var claim := Tracker.ClaimsOf(s'.book, ns)[pvc];
                  && claim.volumeId == volumeId.value && Owns(s'.aws, ns, claim.fileSystemId)
                  && Cache.Lookup(s'.cache, ns, s'.now).Some?
                  && claim.fileSystemId == Cache.Lookup(s'.cache, ns, s'.now).value.fileSystemId)
  {
    CreateOrGetKeeps(s, ns, optionsOk, user, r, m);
    var (s1, info) := CreateOrGet(s, ns, optionsOk, user, r, m);
    var v := VolumeIds.NsVolumeId(ns, info.value.fileSystemId, clusterId);
    VolumeIds.ParsedNames(v);
    if VolumeIds.Parse(VolumeIds.Print(v)).Some? {
      Tracker.AddIsInsert(s1.book, Tracker.Mapping(ns, pvc, VolumeIds.Print(v), v.fileSystemId), ns);
    }
  }

  /**
   * What the tolerated tracking failure costs: in any state where a namespace has a deletable cached file system and no
   * tracked claim, a volume is handed out on that file system, and the next finalization of the namespace deletes it.
   */
  lemma UntrackedVolumeLosesItsFileSystem(s: State, ns: string, clusterId: string, pvc: string, user: TagMap,
                                          r: Reading, m: Making, t: Tracking, d: Deleting, info: FileSystemInfo)
    requires Inv(s) && Reads(s, r) && Reads(s, d.reading) && VolumeIds.IsDnsLabel(ns) && clusterId != ""
    requires !Contains(clusterId, "::")
    requires Cache.Lookup(s.cache, ns, s.now) == Some(info) && info.CanBeDeleted() && Tracker.Count(s.book, ns) == 0
    requires !t.writeOk && d.countOk && d.mountsOk && d.deleteOk
    ensures var volumeId := VolumeIds.Print(VolumeIds.NsVolumeId(ns, info.fileSystemId, clusterId));
            var (s1, created) := CreateVolume(s, ns, clusterId, pvc, true, user, r, m, t);
            && created == Some(volumeId)
            && info.fileSystemId in s1.aws && info.fileSystemId !in Delete(s1, ns, volumeId, d).0.aws
  {
    assert Owns(s.aws, ns, info.fileSystemId);
    VolumeIds.ParsedNames(VolumeIds.NsVolumeId(ns, info.fileSystemId, clusterId));
  }

  /** Deleting a volume frees nothing while the namespace has a claim under any name but the made-up one. */
  lemma DeleteVolumeKeepsOtherClaims(s: State, volumeId: string, t: Tracking, d: Deleting, pvc: string)
    requires Inv(s) && Reads(s, d.reading) && VolumeIds.Parse(volumeId).Some?
    requires var v := VolumeIds.Parse(volumeId).value;
             pvc in Tracker.ClaimsOf(s.book, v.namespace) && pvc != "pvc-" + v.fileSystemId
    ensures DeleteVolume(s, volumeId, t, d).0.aws == s.aws
    ensures pvc in Tracker.ClaimsOf(DeleteVolume(s, volumeId, t, d).0.book, VolumeIds.Parse(volumeId).value.namespace)
  {
    var v := VolumeIds.Parse(volumeId).value;
    var made := "pvc-" + v.fileSystemId;
    Tracker.RemoveIsDelete(s.book, v.namespace, made, v.namespace);
    UntrackKeeps(s, v.namespace, made, t);
    var s1 := Untrack(s, v.namespace, made, t).0;
    assert pvc in Tracker.ClaimsOf(s1.book, v.namespace);
    assert Tracker.Count(s1.book, v.namespace) > 0;
  }

  /** Whether a deletion that nothing refuses goes through: the lookup works, and so do the calls after it. */
  predicate Goes(s: State, ns: string, d: Deleting) {
    var f := GetInfo(s, ns, d.reading).1;
    f.Missing? || (f.Present? && f.info.CanBeDeleted() && d.mountsOk && d.deleteOk)
  }

  /** A namespace is without a file system after a deletion exactly if it was before, or the deletion went through. */
  lemma DeleteExactly(s: State, ns: string, volumeId: string, d: Deleting)
    requires Inv(s) && Reads(s, d.reading) && ns != ""
    ensures var (s', ok) := Delete(s, ns, volumeId, d);
            && (ok
                <==> VolumeIds.Parse(volumeId).Some? && d.countOk && Tracker.Count(s.book, ns) == 0 && Goes(s, ns, d))
            && (Nothing(s', ns) <==> ok || Nothing(s, ns))
  {
    DeleteKeeps(s, ns, volumeId, d);
    GetInfoKeeps(s, ns, d.reading);
    var (s1, f) := GetInfo(s, ns, d.reading);
    if f.Present? { FoundIsSomething(s, ns, d.reading); }
  }

  /**
   * Finalizing a claim does nothing if no volume ID can be read. Otherwise it untracks the claim, if the tracker's
   * calls work, and frees the file system exactly when that left no claim, what was read parses as a volume ID, and
   * the deletion goes through.
   */
  lemma FinalizeClaimExactly(s: State, ns: string, pvc: string, claim: Claim, t: Tracking, d: Deleting)
    requires Inv(s) && Reads(s, d.reading) && ns != "" && pvc != "" && t.getOk && t.writeOk
    ensures var s' := FinalizeClaim(s, ns, pvc, claim, t, d);
            var s1 := s.(book := Tracker.Remove(s.book, ns, pvc));
            if ClaimVolume(claim) == "" then s' == s
            else
              && s'.book == s1.book && pvc !in Tracker.ClaimsOf(s'.book, ns)
              && (Tracker.ClaimsOf(s.book, ns).Keys <= {pvc} || s'.aws == s.aws)
              && (Nothing(s', ns) <==>
                    || Nothing(s, ns)
                    || (&& Tracker.ClaimsOf(s.book, ns).Keys <= {pvc} && VolumeIds.Parse(ClaimVolume(claim)).Some?
                        && d.countOk && Goes(s1, ns, d)))
  {
    Tracker.RemoveIsDelete(s.book, ns, pvc, ns);
    UntrackKeeps(s, ns, pvc, t);
    var s1 := s.(book := Tracker.Remove(s.book, ns, pvc));
    assert Untrack(s, ns, pvc, t) == (s1, true);
    if Tracker.Count(s1.book, ns) == 0 {
      DeleteExactly(s1, ns, ClaimVolume(claim), d);
      DeleteKeeps(s1, ns, ClaimVolume(claim), d);
    }
  }

  /**
   * The annotation comes first, and Kubernetes writes the name of the provisioner into it. For any annotation that is
   * no volume ID the claim is untracked and nothing else happens: the file system of a last claim stays.
   */
  lemma AnnotatedClaimKeepsFileSystem(s: State, ns: string, pvc: string, claim: Claim, t: Tracking, d: Deleting)
    requires ns != "" && pvc != "" && t.getOk && t.writeOk
    requires claim.annotation != "" && VolumeIds.Parse(claim.annotation).None?
    ensures FinalizeClaim(s, ns, pvc, claim, t, d) == s.(book := Tracker.Remove(s.book, ns, pvc))
  {
  }

  /** A provisioner's name has no separator in it. */
  lemma ProvisionerNameKeepsFileSystem(s: State, ns: string, pvc: string, claim: Claim, t: Tracking, d: Deleting)
    requires ns != "" && pvc != "" && t.getOk && t.writeOk
    requires claim.annotation != "" && !Contains(claim.annotation, "::")
    ensures FinalizeClaim(s, ns, pvc, claim, t, d) == s.(book := Tracker.Remove(s.book, ns, pvc))
  {
    SplitWhole(claim.annotation, VolumeIds.SEP);
    AnnotatedClaimKeepsFileSystem(s, ns, pvc, claim, t, d);
  }

  /** A live cache entry that remembers claims refuses every deletion, however many claims there still are. */
  lemma StaleCountRefuses(s: State, ns: string, volumeId: string, d: Deleting, info: FileSystemInfo)
    requires Cache.Lookup(s.cache, ns, s.now) == Some(info) && info.pvcCount > 0
    ensures Delete(s, ns, volumeId, d) == (s, false)
  {
  }

  /**
   * So a lookup that goes to AWS while the last claim is tracked makes the finalization of that claim leave the file
   * system, for every outcome of its calls, as long as the entry it stored is live.
   */
  lemma LookupBeforeLastFinalization(s: State, ns: string, pvc: string, r: Reading, claim: Claim, t: Tracking,
                                     d: Deleting)
    requires Inv(s) && Reads(s, r) && ns != "" && Cache.Lookup(s.cache, ns, s.now).None? && r.countOk
    requires GetInfo(s, ns, r).1.Present? && pvc in Tracker.ClaimsOf(s.book, ns)
    ensures FinalizeClaim(GetInfo(s, ns, r).0, ns, pvc, claim, t, d).aws == s.aws
  {
    var (s1, f) := GetInfo(s, ns, r);
    GetInfoKeeps(s, ns, r);
    CountStored(s, ns, pvc, r);
    RememberedClaimsRefuse(s1, ns, pvc, claim, t, d, f.info);
  }

  lemma CountStored(s: State, ns: string, pvc: string, r: Reading)
    requires ns != "" && Cache.Lookup(s.cache, ns, s.now).None? && r.countOk
    requires GetInfo(s, ns, r).1.Present? && pvc in Tracker.ClaimsOf(s.book, ns)
    ensures GetInfo(s, ns, r).1.info.pvcCount == |Tracker.ClaimsOf(s.book, ns)| > 0
  {
  }

  lemma RememberedClaimsRefuse(s: State, ns: string, pvc: string, claim: Claim, t: Tracking, d: Deleting,
                               info: FileSystemInfo)
    requires Cache.Lookup(s.cache, ns, s.now) == Some(info) && info.pvcCount > 0
    ensures FinalizeClaim(s, ns, pvc, claim, t, d).aws == s.aws
  {
    var s1 := Untrack(s, ns, pvc, t).0;
    assert s1.cache == s.cache && s1.now == s.now && s1.aws == s.aws;
    StaleCountRefuses(s1, ns, ClaimVolume(claim), d, info);
  }

  // ---------------------------------------------------------------------------------------------------------
  // Reconciliation

  /** A namespace of a listing, with what processing its deletion meets. */
  datatype Listed = Listed(ns: string, departing: bool, carries: bool, w: Departing)

  /** reconcileNamespaces: the deletion of every listed namespace that is being deleted and carries the finalizer. */
  function Reconcile(s: State, items: seq<Listed>): (s': State) {
    if items == [] then s
    else
      var s1, item := Reconcile(s, items[..|items| - 1]), items[|items| - 1];
      if item.departing && item.carries then ProcessDeletion(s1, item.ns, item.w).0 else s1
  }

  ghost predicate ReconcilePossible(s: State, items: seq<Listed>) {
    forall i :: 0 <= i < |items| ==>
      Possible(Reconcile(s, items[..i]), ProcessDeletionStep(items[i].ns, items[i].w))
  }

  /** Nothing is added between two states, and only namespace `ns` loses anything, if it has no tracked claims. */
  predicate Apart(s: State, s': State, ns: string, other: string, id: string) {
    && s'.book == s.book && s'.now == s.now && s'.cluster == s.cluster
    && (id in s'.aws ==> id in s.aws && s'.aws[id] == s.aws[id])
    && (Seen(s'.aws, s.cluster, other, id) ==> Seen(s.aws, s.cluster, other, id))
    && (Owns(s.aws, other, id) && (other != ns || Tracker.Count(s.book, ns) > 0) ==> Owns(s'.aws, other, id))
    && (other != ns ==> Cache.Lookup(s'.cache, other, s.now) == Cache.Lookup(s.cache, other, s.now))
  }

  lemma GetInfoApart(s: State, ns: string, r: Reading, other: string, id: string)
    ensures Apart(s, GetInfo(s, ns, r).0, ns, other, id) && GetInfo(s, ns, r).0.aws == s.aws
  {
  }

  lemma DeleteApart(s: State, ns: string, volumeId: string, d: Deleting, other: string, id: string)
    requires Inv(s) && Reads(s, d.reading)
    ensures Apart(s, Delete(s, ns, volumeId, d).0, ns, other, id)
  {
    if ns != "" && Tracker.Count(s.book, ns) == 0 { DeleteUnusedApart(s, ns, d, other, id); }
  }

  lemma DeleteUnusedApart(s: State, ns: string, d: Deleting, other: string, id: string)
    requires Inv(s) && Reads(s, d.reading) && Tracker.Count(s.book, ns) == 0
    ensures Apart(s, DeleteUnused(s, ns, d).0, ns, other, id)
  {
    var (s1, f) := GetInfo(s, ns, d.reading);
    assert f.Present? ==> Owns(s1.aws, ns, f.info.fileSystemId) by { GetInfoKeeps(s, ns, d.reading); }
    GetInfoApart(s, ns, d.reading, other, id);
    DeleteFoundApart(s1, ns, f, d, other, id);
    ApartTrans(s, s1, DeleteFound(s1, ns, f, d).0, ns, other, id);
  }

  lemma DeleteFoundApart(s: State, ns: string, f: Found, d: Deleting, other: string, id: string)
    requires f.Present? ==> Owns(s.aws, ns, f.info.fileSystemId)
    requires Tracker.Count(s.book, ns) == 0
    ensures Apart(s, DeleteFound(s, ns, f, d).0, ns, other, id)
  {
    if f.Present? { RemoveApart(s, ns, f.info.fileSystemId, other, id); }
  }

  lemma ApartTrans(a: State, b: State, c: State, ns: string, other: string, id: string)
    requires Apart(a, b, ns, other, id) && Apart(b, c, ns, other, id)
    ensures Apart(a, c, ns, other, id)
  {
  }

  lemma RemoveApart(s: State, ns: string, gone: string, other: string, id: string)
    requires Owns(s.aws, ns, gone) && Tracker.Count(s.book, ns) == 0
    ensures Apart(s, Forget(s.(aws := s.aws - {gone}), ns), ns, other, id)
  {
  }

  /** Processing one namespace is no business of another's. */
  lemma DeletionElsewhere(s: State, ns: string, w: Departing, other: string, id: string)
    requires Inv(s) && Possible(s, ProcessDeletionStep(ns, w))
    ensures Apart(s, ProcessDeletion(s, ns, w).0, ns, other, id)
  {
    GetInfoKeeps(s, ns, w.reading);
    GetInfoApart(s, ns, w.reading, other, id);
    var (s1, f) := GetInfo(s, ns, w.reading);
    if f.Present? {
      var volumeId := VolumeOf(s1, ns, f.info);
      DeleteApart(s1, ns, volumeId, w.deleting, other, id);
      assert Cleanup(s, ns, w.reading, w.deleting) == Delete(s1, ns, volumeId, w.deleting);
    }
    assert Apart(s, Cleanup(s, ns, w.reading, w.deleting).0, ns, other, id);
  }

  /**
   * A whole reconciliation: a namespace that loses its finalizer on the way has nothing left to find at the end, and a
   * namespace with tracked claims keeps every file system that was created for it.
   */
  lemma {:induction false} ReconcileReleasesOnlyWhenClean(s: State, items: seq<Listed>, ns: string, id: string)
    requires Inv(s) && ReconcilePossible(s, items)
    ensures var s' := Reconcile(s, items);
            && Inv(s') && s'.book == s.book && s'.now == s.now && s'.cluster == s.cluster
            && (ns in s.finalizers && ns !in s'.finalizers ==> Nothing(s', ns))
            && (Tracker.Count(s.book, ns) > 0 && Owns(s.aws, ns, id) ==> Owns(s'.aws, ns, id))
  {
    if items != [] {
      var n := |items| - 1;
      forall i | 0 <= i < n
        ensures Possible(Reconcile(s, items[..n][..i]), ProcessDeletionStep(items[..n][i].ns, items[..n][i].w))
      {
        assert items[..n][..i] == items[..i];
      }
      ReconcileReleasesOnlyWhenClean(s, items[..n], ns, id);
      assert Possible(Reconcile(s, items[..n]), ProcessDeletionStep(items[n].ns, items[n].w));
      ReconcileStep(Reconcile(s, items[..n]), items[n], ns, id);
    }
  }

  lemma ReconcileStep(s: State, item: Listed, ns: string, id: string)
    requires Inv(s) && Possible(s, ProcessDeletionStep(item.ns, item.w))
    ensures var s' := ProcessDeletion(s, item.ns, item.w).0;
            && Inv(s') && s'.book == s.book && s'.now == s.now && s'.cluster == s.cluster
            && (ns !in s'.finalizers && (ns in s.finalizers || Nothing(s, ns)) ==> Nothing(s', ns))
            && (Tracker.Count(s.book, ns) > 0 && Owns(s.aws, ns, id) ==> Owns(s'.aws, ns, id))
  {
    NextKeeps(s, ProcessDeletionStep(item.ns, item.w));
    DeletionReleasesOnlyWhenClean(s, item.ns, item.w);
    DeletionElsewhere(s, item.ns, item.w, ns, id);
    var s' := ProcessDeletion(s, item.ns, item.w).0;
    if Nothing(s, ns) && ns !in s'.finalizers {
      forall a ensures !Seen(s'.aws, s'.cluster, ns, a) {
        DeletionElsewhere(s, item.ns, item.w, ns, a);
      }
      if ns == item.ns { NothingStays(s, ns, item.w); }
    }
  }

  /** Where there is nothing to find, processing the deletion finds nothing and stores nothing. */
  lemma NothingStays(s: State, ns: string, w: Departing)
    requires Inv(s) && Possible(s, ProcessDeletionStep(ns, w)) && Nothing(s, ns)
    ensures ProcessDeletion(s, ns, w).0.cache == s.cache && ProcessDeletion(s, ns, w).0.aws == s.aws
  {
    GetInfoKeeps(s, ns, w.reading);
    if GetInfo(s, ns, w.reading).1.Present? { FoundIsSomething(s, ns, w.reading); }
  }
}
