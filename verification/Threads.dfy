/**
 * Concurrent calls of the namespace file-system manager, one API call or cache access per step (manager.go). Creation
 * runs under the manager's mutex; lookups and deletions do not.
 */
module Threads {
  import opened Strings
  import opened Tags
  import opened Lifecycle

  /** Where a call stands. The states from Locked to Leaving hold the mutex. */
  datatype Pc =
    | Idle
    | Arrived(ns: string, user: TagMap)
    | Queued(ns: string, user: TagMap)
    | Locked(ns: string, user: TagMap)
    | Describing(ns: string, user: TagMap)
    | Creating(ns: string, user: TagMap)
    | Waiting(ns: string, user: TagMap, id: string)
    | Tagging(ns: string, user: TagMap, id: string)
    | Naming(ns: string, user: TagMap, id: string)
    | Mounting(ns: string, id: string)
    | Undoing(id: string)
    | Caching(ns: string, id: string)
    | Leaving
    | Counting(ns: string)
    | Checking(ns: string, toDelete: bool)
    | LookingUp(ns: string, toDelete: bool)
    | Storing(ns: string, id: string, toDelete: bool)
    | Removing(ns: string, id: string)
    | Forgetting(ns: string)

  predicate Critical(pc: Pc) {
    || pc.Locked? || pc.Describing? || pc.Creating? || pc.Waiting? || pc.Tagging? || pc.Naming?
    || pc.Mounting? || pc.Undoing? || pc.Caching? || pc.Leaving?
  }

  /** `cache` holds the live entries only. */
  datatype System = System(cluster: string, aws: Account, cache: map<string, string>, mutex: Option<nat>,
                           threads: map<nat, Pc>)

  function PcOf(s: System, t: nat): (pc: Pc) {
    if t in s.threads then s.threads[t] else Idle
  }

  function At(s: System, t: nat, pc: Pc): (s': System) {
    s.(threads := s.threads[t := pc])
  }

  /** What the next call of a thread meets: whether it succeeds, the listing, and the identifier AWS gives out. */
  datatype Luck = Luck(ok: bool, order: seq<string>, id: string)

  function Hit(s: System, ns: string): (id: Option<string>) {
    if ns in s.cache then Some(s.cache[ns]) else None
  }

  /** The tags of a file system change if it is still there. */
  function Retag(aws: Account, id: string, more: TagMap, ok: bool): (aws': Account) {
    if ok && id in aws then aws[id := aws[id].(tags := aws[id].tags + more)] else aws
  }

  /** The next step of a call of CreateOrGetFileSystemForNamespace. */
  function CreateStep(s: System, t: nat, pc: Pc, l: Luck): (s': System)
    requires pc.Arrived? || pc.Queued? || Critical(pc)
  {
    match pc
    case Arrived(ns, user) => At(s, t, if Hit(s, ns).Some? then Idle else Queued(ns, user))
    case Queued(ns, user) => if s.mutex.None? then At(s.(mutex := Some(t)), t, Locked(ns, user)) else s
    case Locked(ns, user) => At(s, t, if Hit(s, ns).Some? then Leaving else Describing(ns, user))
    case Describing(ns, user) =>
      var found := FindIn(s.aws, s.cluster, ns, l.order);
      At(s, t, if !l.ok then Leaving else if found.Some? then Caching(ns, found.value) else Creating(ns, user))
    case Creating(ns, user) =>
      if l.ok then At(s.(aws := s.aws[l.id := FileSystem(ns, map[])]), t, Waiting(ns, user, l.id))
      else At(s, t, Leaving)
    case Waiting(ns, user, id) => At(s, t, if l.ok then Tagging(ns, user, id) else Undoing(id))
    case Tagging(ns, user, id) =>
      At(s.(aws := Retag(s.aws, id, Built(ns, s.cluster, user), l.ok)), t, Naming(ns, user, id))
    case Naming(ns, user, id) =>
      At(s.(aws := Retag(s.aws, id, map[NAME_KEY := NameFor(ns, s.cluster)], l.ok)), t, Mounting(ns, id))
    case Mounting(ns, id) => At(s, t, if l.ok then Caching(ns, id) else Undoing(id))
    case Undoing(id) => At(if l.ok then s.(aws := s.aws - {id}) else s, t, Leaving)
    case Caching(ns, id) => At(s.(cache := s.cache[ns := id]), t, Leaving)
    case Leaving => At(s.(mutex := None), t, Idle)
  }

  /** The next step of a call of GetFileSystemInfo or DeleteFileSystemForNamespace. */
  function OtherStep(s: System, t: nat, pc: Pc, l: Luck): (s': System)
    requires !pc.Arrived? && !pc.Queued? && !Critical(pc)
  {
    match pc
    case Idle => s
    case Counting(ns) => At(s, t, if l.ok then Checking(ns, true) else Idle)
    case Checking(ns, toDelete) =>
      At(s, t, if Hit(s, ns).None? then LookingUp(ns, toDelete)
               else if toDelete then Removing(ns, s.cache[ns]) else Idle)
    case LookingUp(ns, toDelete) =>
      var found := FindIn(s.aws, s.cluster, ns, l.order);
      At(s, t, if !l.ok then Idle
               else if found.Some? then Storing(ns, found.value, toDelete)
               else if toDelete then Forgetting(ns) else Idle)
    case Storing(ns, id, toDelete) => At(s.(cache := s.cache[ns := id]), t, if toDelete then Removing(ns, id) else Idle)
    case Removing(ns, id) => if l.ok then At(s.(aws := s.aws - {id}), t, Forgetting(ns)) else At(s, t, Idle)
    case Forgetting(ns) => At(s.(cache := s.cache - {ns}), t, Idle)
  }

  /** Calls start, or advance by one step; the cache may change in any way in between, by expiry or synchronisation. */
  datatype Event =
    | Create(t: nat, ns: string, user: TagMap)
    | Lookup(t: nat, ns: string)
    | Delete(t: nat, ns: string)
    | Advance(t: nat, luck: Luck)
    | Recache(cache: map<string, string>)

  function Next(s: System, e: Event): (s': System) {
    match e
    case Create(t, ns, user) => At(s, t, Arrived(ns, user))
    case Lookup(t, ns) => At(s, t, Checking(ns, false))
    case Delete(t, ns) => At(s, t, Counting(ns))
    case Advance(t, luck) =>
      var pc := PcOf(s, t);
      if pc.Arrived? || pc.Queued? || Critical(pc) then CreateStep(s, t, pc, luck) else OtherStep(s, t, pc, luck)
    case Recache(cache) => s.(cache := cache)
  }

  /**
   * Calls start on idle threads and for a namespace; listings are complete, identifiers new, and user tags name no
   * other namespace's file system.
   */
  ghost predicate Possible(s: System, e: Event) {
    match e
    case Create(t, ns, user) => PcOf(s, t).Idle? && ns != "" && NamesNoOther(ns, s.cluster, user)
    case Lookup(t, ns) => PcOf(s, t).Idle? && ns != ""
    case Delete(t, ns) => PcOf(s, t).Idle? && ns != ""
    case Advance(t, luck) => Enumerates(luck.order, s.aws) && luck.id !in s.aws && luck.id != "" && ':' !in luck.id
    case Recache(cache) => true
  }

  function Run(s: System, events: seq<Event>): (s': System) {
    if events == [] then s else Next(Run(s, events[..|events| - 1]), events[|events| - 1])
  }

  ghost predicate RunPossible(s: System, events: seq<Event>) {
    forall i :: 0 <= i < |events| ==> Possible(Run(s, events[..i]), events[i])
  }

  // ---------------------------------------------------------------------------------------------------------
  // At most one findable file system

  ghost predicate NoneSeen(s: System, ns: string) {
    forall id :: !Seen(s.aws, s.cluster, ns, id)
  }

  ghost predicate OnlySeen(s: System, ns: string, id: string) {
    forall a :: Seen(s.aws, s.cluster, ns, a) ==> a == id
  }

  /** What a call that has found no file system may rely on until it has named its own. */
  ghost predicate Pledge(s: System, pc: Pc) {
    match pc
    case Creating(ns, user) => NoneSeen(s, ns)
    case Waiting(ns, user, id) => NoneSeen(s, ns) && (id in s.aws ==> s.aws[id] == FileSystem(ns, map[]))
    case Tagging(ns, user, id) => NoneSeen(s, ns) && (id in s.aws ==> s.aws[id] == FileSystem(ns, map[]))
    case Naming(ns, user, id) =>
      OnlySeen(s, ns, id)
      && (id in s.aws ==> exists tagOk :: s.aws[id] == FileSystem(ns, Tagged(ns, s.cluster, user, tagOk, false)))
    case _ => true
  }

  /** The user tags of a creation name no other namespace's file system. */
  ghost predicate WellNamed(cluster: string, pc: Pc) {
    match pc
    case Arrived(ns, user) => NamesNoOther(ns, cluster, user)
    case Queued(ns, user) => NamesNoOther(ns, cluster, user)
    case Locked(ns, user) => NamesNoOther(ns, cluster, user)
    case Describing(ns, user) => NamesNoOther(ns, cluster, user)
    case Creating(ns, user) => NamesNoOther(ns, cluster, user)
    case Waiting(ns, user, _) => NamesNoOther(ns, cluster, user)
    case Tagging(ns, user, _) => NamesNoOther(ns, cluster, user)
    case Naming(ns, user, _) => NamesNoOther(ns, cluster, user)
    case _ => true
  }

  ghost predicate ThreadOk(s: System, t: nat) {
    WellNamed(s.cluster, PcOf(s, t)) && (Critical(PcOf(s, t)) <==> s.mutex == Some(t)) && Pledge(s, PcOf(s, t))
  }

  ghost predicate Inv(s: System) {
    Sound(s.aws, s.cluster) && Unique(s.aws, s.cluster) && forall t :: ThreadOk(s, t)
  }

  /** A smaller account is no worse. */
  lemma ShrinkKeeps(s: System, id: string)
    requires Inv(s)
    ensures Inv(s.(aws := s.aws - {id}))
  {
    var s' := s.(aws := s.aws - {id});
    forall ns, a | Seen(s'.aws, s.cluster, ns, a) ensures Seen(s.aws, s.cluster, ns, a)
    {}
    forall t ensures ThreadOk(s', t) { assert ThreadOk(s, t); }
  }

  /** A thread moves on; nothing else changes. */
  lemma MoveKeeps(s: System, t: nat, pc: Pc)
    requires Inv(s) && WellNamed(s.cluster, pc) && Pledge(s, pc) && (Critical(pc) <==> s.mutex == Some(t))
    ensures Inv(At(s, t, pc))
  {
    var s' := At(s, t, pc);
    forall u: nat ensures ThreadOk(s', u) { assert ThreadOk(s, u); }
  }

  /** The cache plays no part. */
  lemma CacheIrrelevant(s: System, cache: map<string, string>)
    requires Inv(s)
    ensures Inv(s.(cache := cache))
  {
    var s' := s.(cache := cache);
    forall t ensures ThreadOk(s', t) { assert ThreadOk(s, t); }
  }

  lemma LockKeeps(s: System, t: nat, ns: string, user: TagMap)
    requires Inv(s) && s.mutex.None? && NamesNoOther(ns, s.cluster, user)
    ensures Inv(At(s.(mutex := Some(t)), t, Locked(ns, user)))
  {
    var s' := At(s.(mutex := Some(t)), t, Locked(ns, user));
    forall u: nat ensures ThreadOk(s', u) { assert ThreadOk(s, u); }
  }

  lemma UnlockKeeps(s: System, t: nat)
    requires Inv(s) && s.mutex == Some(t)
    ensures Inv(At(s.(mutex := None), t, Idle))
  {
    var s' := At(s.(mutex := None), t, Idle);
    forall u: nat ensures ThreadOk(s', u) { assert ThreadOk(s, u); }
  }

  /** Only the holder of the mutex has pledges to look after. */
  lemma OthersFree(s: System, t: nat, u: nat)
    requires Inv(s) && s.mutex == Some(t) && u != t
    ensures !Critical(PcOf(s, u)) && WellNamed(s.cluster, PcOf(s, u))
  {
    assert ThreadOk(s, u);
  }

  /** The holder replaces or adds one file system of its own namespace. */
  lemma HolderKeeps(s: System, t: nat, id: string, fs: FileSystem, pc: Pc)
    requires Inv(s) && s.mutex == Some(t) && Critical(pc) && WellNamed(s.cluster, pc)
    requires SoundFs(id, fs, s.cluster) && OnlySeen(s, fs.createdFor, id)
    requires Pledge(s.(aws := s.aws[id := fs]), pc)
    ensures Inv(At(s.(aws := s.aws[id := fs]), t, pc))
  {
    var s' := At(s.(aws := s.aws[id := fs]), t, pc);
    forall ns, a | Seen(s'.aws, s.cluster, ns, a)
      ensures (a == id && ns == fs.createdFor) || Seen(s.aws, s.cluster, ns, a)
    {}
    forall ns, a, b | Seen(s'.aws, s.cluster, ns, a) && Seen(s'.aws, s.cluster, ns, b) ensures a == b {}
    forall u: nat ensures ThreadOk(s', u) {
      if u != t { OthersFree(s, t, u); } else { PledgeAt(s.(aws := s.aws[id := fs]), t, pc); }
    }
  }

  lemma PledgeAt(s: System, t: nat, pc: Pc)
    requires Pledge(s, pc)
    ensures Pledge(At(s, t, pc), pc)
  {
  }

  lemma Invisible(s: System, id: string, fs: FileSystem, ns: string)
    requires NoneSeen(s, ns) && !Findable(fs.tags, ns, s.cluster)
    ensures NoneSeen(s.(aws := s.aws[id := fs]), ns)
  {
    var s' := s.(aws := s.aws[id := fs]);
    forall a ensures !Seen(s'.aws, s.cluster, ns, a) { assert !Seen(s.aws, s.cluster, ns, a); }
  }

  lemma TaggedSound(id: string, ns: string, cluster: string, user: TagMap, tagOk: bool, nameOk: bool)
    requires id != "" && ':' !in id && NamesNoOther(ns, cluster, user)
    ensures SoundFs(id, FileSystem(ns, Tagged(ns, cluster, user, tagOk, nameOk)), cluster)
    ensures !tagOk ==> !Findable(Tagged(ns, cluster, user, tagOk, nameOk), ns, cluster)
  {
    NamespaceTag(ns, cluster, user, tagOk, nameOk);
    FindableExactly(ns, cluster, user, tagOk, nameOk, ns);
    forall other | Findable(Tagged(ns, cluster, user, tagOk, nameOk), other, cluster) ensures other == ns {
      FindableExactly(ns, cluster, user, tagOk, nameOk, other);
    }
  }

  /** A file system of its own is all that can become visible. */
  lemma OwnVisible(s: System, id: string, fs: FileSystem, ns: string)
    requires OnlySeen(s, ns, id)
    ensures OnlySeen(s.(aws := s.aws[id := fs]), ns, id)
  {
    var s' := s.(aws := s.aws[id := fs]);
    forall a | Seen(s'.aws, s.cluster, ns, a) ensures a == id {
      assert a != id ==> Seen(s.aws, s.cluster, ns, a);
    }
  }

  lemma CreatingKeeps(s: System, t: nat, l: Luck)
    requires Inv(s) && PcOf(s, t).Creating? && Possible(s, Advance(t, l)) && l.ok
    ensures Inv(CreateStep(s, t, PcOf(s, t), l))
  {
    assert ThreadOk(s, t);
    var pc := PcOf(s, t);
    var fs := FileSystem(pc.ns, map[]);
    assert Tagged(pc.ns, s.cluster, pc.user, false, false) == map[];
    TaggedSound(l.id, pc.ns, s.cluster, pc.user, false, false);
    Invisible(s, l.id, fs, pc.ns);
    HolderKeeps(s, t, l.id, fs, Waiting(pc.ns, pc.user, l.id));
  }

  lemma TaggingKeeps(s: System, t: nat, l: Luck)
    requires Inv(s) && PcOf(s, t).Tagging?
    ensures Inv(CreateStep(s, t, PcOf(s, t), l))
  {
    assert ThreadOk(s, t);
    var pc := PcOf(s, t);
    var next := Naming(pc.ns, pc.user, pc.id);
    if l.ok && pc.id in s.aws {
      var tags := Tagged(pc.ns, s.cluster, pc.user, true, false);
      assert map[] + Built(pc.ns, s.cluster, pc.user) == tags;
      var fs := FileSystem(pc.ns, tags);
      assert SoundFs(pc.id, s.aws[pc.id], s.cluster);
      TaggedSound(pc.id, pc.ns, s.cluster, pc.user, true, false);
      OwnVisible(s, pc.id, fs, pc.ns);
      HolderKeeps(s, t, pc.id, fs, next);
    } else {
      assert Tagged(pc.ns, s.cluster, pc.user, false, false) == map[];
      MoveKeeps(s, t, next);
    }
  }

  lemma NamedTags(ns: string, cluster: string, user: TagMap, tagOk: bool)
    ensures Tagged(ns, cluster, user, tagOk, false) + map[NAME_KEY := NameFor(ns, cluster)]
            == Tagged(ns, cluster, user, tagOk, true)
  {
  }

  lemma NamingKeeps(s: System, t: nat, l: Luck)
    requires Inv(s) && PcOf(s, t).Naming?
    ensures Inv(CreateStep(s, t, PcOf(s, t), l))
  {
    assert ThreadOk(s, t);
    var pc := PcOf(s, t);
    if l.ok && pc.id in s.aws {
      var tagOk :| s.aws[pc.id] == FileSystem(pc.ns, Tagged(pc.ns, s.cluster, pc.user, tagOk, false));
      var tags := Tagged(pc.ns, s.cluster, pc.user, tagOk, true);
      NamedTags(pc.ns, s.cluster, pc.user, tagOk);
      assert SoundFs(pc.id, s.aws[pc.id], s.cluster);
      TaggedSound(pc.id, pc.ns, s.cluster, pc.user, tagOk, true);
      HolderKeeps(s, t, pc.id, FileSystem(pc.ns, tags), Mounting(pc.ns, pc.id));
    } else {
      MoveKeeps(s, t, Mounting(pc.ns, pc.id));
    }
  }

  lemma DescribingKeeps(s: System, t: nat, l: Luck)
    requires Inv(s) && PcOf(s, t).Describing? && Possible(s, Advance(t, l))
    ensures Inv(CreateStep(s, t, PcOf(s, t), l))
  {
    assert ThreadOk(s, t);
    var pc := PcOf(s, t);
    var found := FindIn(s.aws, s.cluster, pc.ns, l.order);
    if found.None? {
      forall id ensures !Seen(s.aws, s.cluster, pc.ns, id) {}
    }
    MoveKeeps(s, t, if !l.ok then Leaving else if found.Some? then Caching(pc.ns, found.value)
                    else Creating(pc.ns, pc.user));
  }

  lemma CreateStepKeeps(s: System, t: nat, l: Luck)
    requires Inv(s) && Possible(s, Advance(t, l))
    requires PcOf(s, t).Arrived? || PcOf(s, t).Queued? || Critical(PcOf(s, t))
    ensures Inv(CreateStep(s, t, PcOf(s, t), l))
  {
    assert ThreadOk(s, t);
    match PcOf(s, t)
    case Arrived(ns, user) => MoveKeeps(s, t, if Hit(s, ns).Some? then Idle else Queued(ns, user));
    case Queued(ns, user) => if s.mutex.None? { LockKeeps(s, t, ns, user); }
    case Locked(ns, user) => MoveKeeps(s, t, if Hit(s, ns).Some? then Leaving else Describing(ns, user));
    case Describing(ns, user) => DescribingKeeps(s, t, l);
    case Creating(ns, user) => if l.ok { CreatingKeeps(s, t, l); } else { MoveKeeps(s, t, Leaving); }
    case Waiting(ns, user, id) => MoveKeeps(s, t, if l.ok then Tagging(ns, user, id) else Undoing(id));
    case Tagging(ns, user, id) => TaggingKeeps(s, t, l);
    case Naming(ns, user, id) => NamingKeeps(s, t, l);
    case Mounting(ns, id) => MoveKeeps(s, t, if l.ok then Caching(ns, id) else Undoing(id));
    case Undoing(id) =>
      if l.ok { ShrinkKeeps(s, id); }
      MoveKeeps(if l.ok then s.(aws := s.aws - {id}) else s, t, Leaving);
    case Caching(ns, id) =>
      CacheIrrelevant(s, s.cache[ns := id]);
      MoveKeeps(s.(cache := s.cache[ns := id]), t, Leaving);
    case Leaving => UnlockKeeps(s, t);
  }

  lemma OtherStepKeeps(s: System, t: nat, l: Luck)
    requires Inv(s) && !PcOf(s, t).Arrived? && !PcOf(s, t).Queued? && !Critical(PcOf(s, t))
    ensures Inv(OtherStep(s, t, PcOf(s, t), l))
  {
    assert ThreadOk(s, t);
    match PcOf(s, t)
    case Idle =>
    case Counting(ns) => MoveKeeps(s, t, if l.ok then Checking(ns, true) else Idle);
    case Checking(ns, toDelete) => MoveKeeps(s, t, PcOf(OtherStep(s, t, PcOf(s, t), l), t));
    case LookingUp(ns, toDelete) =>
      MoveKeeps(s, t, PcOf(OtherStep(s, t, PcOf(s, t), l), t));
    case Storing(ns, id, toDelete) =>
      CacheIrrelevant(s, s.cache[ns := id]);
      MoveKeeps(s.(cache := s.cache[ns := id]), t, if toDelete then Removing(ns, id) else Idle);
    case Removing(ns, id) =>
      if l.ok {
        ShrinkKeeps(s, id);
        MoveKeeps(s.(aws := s.aws - {id}), t, Forgetting(ns));
      } else {
        MoveKeeps(s, t, Idle);
      }
    case Forgetting(ns) =>
      CacheIrrelevant(s, s.cache - {ns});
      MoveKeeps(s.(cache := s.cache - {ns}), t, Idle);
  }

  lemma NextKeeps(s: System, e: Event)
    requires Inv(s) && Possible(s, e)
    ensures Inv(Next(s, e))
  {
    match e
    case Create(t, ns, user) => assert ThreadOk(s, t); MoveKeeps(s, t, Arrived(ns, user));
    case Lookup(t, ns) => assert ThreadOk(s, t); MoveKeeps(s, t, Checking(ns, false));
    case Delete(t, ns) => assert ThreadOk(s, t); MoveKeeps(s, t, Counting(ns));
    case Advance(t, luck) =>
      var pc := PcOf(s, t);
      if pc.Arrived? || pc.Queued? || Critical(pc) { CreateStepKeeps(s, t, luck); } else { OtherStepKeeps(s, t, luck); }
    case Recache(cache) => CacheIrrelevant(s, cache);
  }

  lemma {:induction false} RunKeeps(s: System, events: seq<Event>)
    requires Inv(s) && RunPossible(s, events)
    ensures Inv(Run(s, events))
  {
    if events != [] {
      var n := |events| - 1;
      forall i | 0 <= i < n ensures Possible(Run(s, events[..n][..i]), events[..n][i]) {
        assert events[..n][..i] == events[..i];
      }
      RunKeeps(s, events[..n]);
      assert Possible(Run(s, events[..n]), events[n]);
      NextKeeps(Run(s, events[..n]), events[n]);
    }
  }

  ghost predicate Initial(s: System) {
    && Sound(s.aws, s.cluster) && Unique(s.aws, s.cluster)
    && s.mutex.None? && s.threads == map[]
  }

  /**
   * Whatever calls run at the same time, whatever fails and whatever the cache says: at no moment can two file systems
   * be found for one namespace, a file system is found only for the namespace it was created for, and creations exclude
   * each other.
   */
  lemma AtMostOneFindable(s0: System, events: seq<Event>, ns: string, a: string, b: string, t: nat, u: nat)
    requires Initial(s0) && RunPossible(s0, events)
    ensures var s := Run(s0, events);
            && (Seen(s.aws, s.cluster, ns, a) && Seen(s.aws, s.cluster, ns, b) ==> a == b)
            && (Seen(s.aws, s.cluster, ns, a) ==> Owns(s.aws, ns, a))
            && (Critical(PcOf(s, t)) && Critical(PcOf(s, u)) ==> t == u)
  {
    forall v: nat ensures ThreadOk(s0, v) {}
    RunKeeps(s0, events);
    var s := Run(s0, events);
    assert ThreadOk(s, t) && ThreadOk(s, u);
  }

  /**
   * Between the tag call and the name call a user's Name tag shows, also when both calls succeed: after the first, the
   * file system is found for exactly the namespace that tag names, and after the second for exactly its own.
   */
  lemma NameTagShowsBetween(s: System, t: nat, l: Luck, l': Luck, other: string)
    requires PcOf(s, t).Tagging? && l.ok && l'.ok && PcOf(s, t).id in s.aws
    requires s.aws[PcOf(s, t).id] == FileSystem(PcOf(s, t).ns, map[])
    ensures var pc := PcOf(s, t);
            var s1 := Next(s, Advance(t, l));
            var s2 := Next(s1, Advance(t, l'));
            && (Seen(s1.aws, s.cluster, other, pc.id)
                <==> NAME_KEY in pc.user && pc.user[NAME_KEY] == NameFor(other, s.cluster))
            && (Seen(s2.aws, s.cluster, other, pc.id) <==> other == pc.ns)
  {
    var pc := PcOf(s, t);
    TagCall(s, t, l);
    NameCall(Next(s, Advance(t, l)), t, l');
    FindableExactly(pc.ns, s.cluster, pc.user, true, false, other);
    FindableExactly(pc.ns, s.cluster, pc.user, true, true, other);
  }

  lemma TagCall(s: System, t: nat, l: Luck)
    requires PcOf(s, t).Tagging? && l.ok && PcOf(s, t).id in s.aws
    requires s.aws[PcOf(s, t).id] == FileSystem(PcOf(s, t).ns, map[])
    ensures var pc, s' := PcOf(s, t), Next(s, Advance(t, l));
            && PcOf(s', t) == Naming(pc.ns, pc.user, pc.id) && s'.cluster == s.cluster && pc.id in s'.aws
            && s'.aws[pc.id] == FileSystem(pc.ns, Tagged(pc.ns, s.cluster, pc.user, true, false))
  {
    var built := Built(PcOf(s, t).ns, s.cluster, PcOf(s, t).user);
    assert map[] + built == built;
  }

  lemma NameCall(s: System, t: nat, l: Luck)
    requires PcOf(s, t).Naming? && l.ok && PcOf(s, t).id in s.aws
    requires var pc := PcOf(s, t); s.aws[pc.id] == FileSystem(pc.ns, Tagged(pc.ns, s.cluster, pc.user, true, false))
    ensures var pc, s' := PcOf(s, t), Next(s, Advance(t, l));
            && pc.id in s'.aws && s'.aws[pc.id] == FileSystem(pc.ns, Tagged(pc.ns, s.cluster, pc.user, true, true))
  {
    NamedTags(PcOf(s, t).ns, s.cluster, PcOf(s, t).user, true);
  }
}
