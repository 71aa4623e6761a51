/**
 * Calls of the manager that do not overlap, step by step in Threads, are the atomic operations of Lifecycle: whatever
 * fails on the way, a finished call has done what the operation does, and a run of such calls is a run of operations.
 */
module ThreadCalls {
  import opened Strings
  import opened Tags
  import opened Threads
  import opened ThreadCache
  import L = Lifecycle
  import Cache
  import Tracker
  import Types
  import VolumeIds

  /** A Lifecycle state with the same account and the same live entries, nothing tracked and no finalizers. */
  function Lift(x: System): (s: L.State) {
    L.State(x.cluster, 0, x.aws, Cache.State(Entries(x.cache), 0), map[], {})
  }

  function Entries(cache: map<string, string>): (data: map<string, Cache.Entry>) {
    map ns | ns in cache :: Cache.Entry(Types.FileSystemInfo(cache[ns], ns, Types.Available, 0), 0, 0)
  }

  predicate Start(e: Event) {
    e.Create? || e.Lookup? || e.Delete?
  }

  /** The operation that a call stands for, with some outcome of its API calls, leads from one state to the other. */
  ghost predicate Does(s: L.State, s': L.State, call: Event) {
    match call
    case Lookup(_, ns) => exists r :: L.Reads(s, r) && s' == L.GetInfo(s, ns, r).0
    case Create(_, ns, user) =>
      exists r, m :: L.Reads(s, r) && L.Gives(s, m) && s' == L.CreateOrGet(s, ns, true, user, r, m).0
    case Delete(_, ns) => exists volumeId: string, d: L.Deleting ::
      L.Reads(s, d.reading) && s' == L.Delete(s, ns, volumeId, d).0
    case _ => false
  }

  // ---------------------------------------------------------------------------------------------------------
  // How far a call has got

  predicate Same(a: System, x: System) {
    x.aws == a.aws && x.cache == a.cache
  }

  predicate Missed(a: System, ns: string) {
    ns != "" && ns !in a.cache
  }

  /** A complete listing that has, or does not have, a file system of the namespace. */
  ghost predicate Listed(a: System, ns: string, found: Option<string>) {
    exists order :: L.Enumerates(order, a.aws) && L.FindIn(a.aws, a.cluster, ns, order) == found
  }

  predicate NewId(a: System, id: string) {
    id !in a.aws && id != "" && ':' !in id
  }

  /** The call has created `id`, with the calls since then as `m` says. */
  ghost predicate Made(a: System, x: System, ns: string, user: TagMap, m: L.Making) {
    && m.id.Some? && Missed(a, ns) && Listed(a, ns, None) && NewId(a, m.id.value) && x.cache == a.cache
    && x.aws == L.Make(Lift(a), ns, user, m).0.aws
  }

  function Making(id: string, waitOk: bool, tagOk: bool, nameOk: bool): (m: L.Making) {
    L.Making(Some(id), waitOk, tagOk, nameOk, false, false)
  }

  /** Where the only call under way stands, relative to the state `a` it started in. */
  ghost predicate Midway(a: System, x: System, pc: Pc, call: Event) {
    match pc
    case Idle => Does(Lift(a), Lift(x), call)
    case Arrived(ns, user) => call.Create? && ns == call.ns != "" && user == call.user && Same(a, x)
    case Queued(ns, user) => call.Create? && ns == call.ns != "" && user == call.user && Same(a, x)
    case Locked(ns, user) => call.Create? && ns == call.ns != "" && user == call.user && Same(a, x)
    case Describing(ns, user) =>
      call.Create? && ns == call.ns && user == call.user && Same(a, x) && Missed(a, ns)
    case Creating(ns, user) =>
      call.Create? && ns == call.ns && user == call.user && Same(a, x) && Missed(a, ns) && Listed(a, ns, None)
    case Waiting(ns, user, id) =>
      call.Create? && ns == call.ns && user == call.user && Made(a, x, ns, user, Making(id, false, false, false))
    case Tagging(ns, user, id) =>
      call.Create? && ns == call.ns && user == call.user && Made(a, x, ns, user, Making(id, true, false, false))
    case Naming(ns, user, id) =>
      && call.Create? && ns == call.ns && user == call.user
      && exists tagOk :: Made(a, x, ns, user, Making(id, true, tagOk, false))
    case Mounting(ns, id) =>
      && call.Create? && ns == call.ns
      && exists tagOk, nameOk :: Made(a, x, ns, call.user, Making(id, true, tagOk, nameOk))
    case Undoing(id) =>
      && call.Create?
      && exists waitOk, tagOk, nameOk :: Made(a, x, call.ns, call.user, Making(id, waitOk, tagOk, nameOk))
    case Caching(ns, id) =>
      && call.Create? && ns == call.ns
      && (|| (Same(a, x) && Missed(a, ns) && Listed(a, ns, Some(id)))
          || exists tagOk, nameOk :: Made(a, x, ns, call.user, Making(id, true, tagOk, nameOk)))
    case Leaving => Does(Lift(a), Lift(x), call)
    case Counting(ns) => call.Delete? && ns == call.ns != "" && Same(a, x)
    case Checking(ns, toDelete) => Reading(call, toDelete) && ns == call.ns != "" && Same(a, x)
    case LookingUp(ns, toDelete) => Reading(call, toDelete) && ns == call.ns && Same(a, x) && Missed(a, ns)
    case Storing(ns, id, toDelete) =>
      Reading(call, toDelete) && ns == call.ns && Same(a, x) && Missed(a, ns) && Listed(a, ns, Some(id))
    case Removing(ns, id) => call.Delete? && ns == call.ns && x.aws == a.aws && Known(a, x.cache, ns, id)
    case Forgetting(ns) =>
      && call.Delete? && ns == call.ns
      && (|| (Same(a, x) && Missed(a, ns) && Listed(a, ns, None))
          || exists id :: Known(a, x.cache, ns, id) && x.aws == a.aws - {id})
  }

  predicate Reading(call: Event, toDelete: bool) {
    if toDelete then call.Delete? else call.Lookup?
  }

  /** A deletion knows the file system: from the cache, or from a listing whose result it has stored. */
  ghost predicate Known(a: System, cache: map<string, string>, ns: string, id: string) {
    && ns != ""
    && (|| (ns in a.cache && a.cache[ns] == id && cache == a.cache)
        || (Missed(a, ns) && Listed(a, ns, Some(id)) && cache == a.cache[ns := id]))
  }

  // ---------------------------------------------------------------------------------------------------------
  // How a call ends

  /** A read that learns nothing, and one with a complete listing. */
  const BLIND := L.Reading(None, Types.Available, true)

  function Sight(order: seq<string>): (r: L.Reading) {
    L.Reading(Some(order), Types.Available, true)
  }

  lemma LiftLookup(a: System, ns: string)
    requires ns != ""
    ensures Cache.Lookup(Lift(a).cache, ns, 0)
            == if ns in a.cache then Some(Types.FileSystemInfo(a.cache[ns], ns, Types.Available, 0)) else None
  {
  }

  lemma LiftStore(a: System, x: System, ns: string, id: string)
    requires ns != "" && x.cluster == a.cluster && x.cache == a.cache[ns := id]
    ensures Lift(x) == L.Store(Lift(a).(aws := x.aws), ns, Types.FileSystemInfo(id, ns, Types.Available, 0))
  {
    assert Entries(x.cache)
           == Entries(a.cache)[ns := Cache.Entry(Types.FileSystemInfo(id, ns, Types.Available, 0), 0, 0)];
  }

  lemma LiftForget(a: System, x: System, ns: string)
    requires x.cluster == a.cluster && x.cache == a.cache - {ns}
    ensures Lift(x) == L.Forget(Lift(a).(aws := x.aws), ns)
  {
    assert Entries(x.cache) == Entries(a.cache) - {ns};
  }

  /** A call that changes nothing. */
  lemma EndsAsBefore(a: System, x: System, call: Event)
    requires Same(a, x) && x.cluster == a.cluster && Start(call) && call.ns != ""
    ensures Does(Lift(a), Lift(x), call)
  {
    var s, ns := Lift(a), call.ns;
    assert L.Reads(s, BLIND) && L.GetInfo(s, ns, BLIND).0 == s;
    if call.Create? {
      var m := L.Making(None, false, false, false, false, false);
      assert L.Gives(s, m) && L.CreateOrGet(s, ns, true, call.user, BLIND, m).0 == s;
    } else if call.Delete? {
      var d := L.Deleting(false, BLIND, false, false);
      assert L.Reads(s, d.reading) && L.Delete(s, ns, "", d).0 == s;
    }
  }

  /** What a listing tells a call that has missed the cache. */
  lemma Learns(a: System, ns: string, id: string, order: seq<string>)
    requires Missed(a, ns) && L.FindIn(a.aws, a.cluster, ns, order) == Some(id)
    ensures var info := Types.FileSystemInfo(id, ns, Types.Available, 0);
            L.GetInfo(Lift(a), ns, Sight(order)) == (L.Store(Lift(a), ns, info), L.Present(info))
  {
    LiftLookup(a, ns);
  }

  lemma LearnsNothing(a: System, ns: string, order: seq<string>)
    requires Missed(a, ns) && L.FindIn(a.aws, a.cluster, ns, order).None?
    ensures L.GetInfo(Lift(a), ns, Sight(order)) == (Lift(a), L.Missing)
  {
    LiftLookup(a, ns);
  }

  /** A lookup, or a creation that finds a file system, stores it. */
  lemma EndsStored(a: System, x: System, call: Event, id: string)
    requires (call.Lookup? || call.Create?) && Missed(a, call.ns) && Listed(a, call.ns, Some(id))
    requires x.cluster == a.cluster && x.aws == a.aws && x.cache == a.cache[call.ns := id]
    ensures Does(Lift(a), Lift(x), call)
  {
    var s, ns := Lift(a), call.ns;
    var order :| L.Enumerates(order, a.aws) && L.FindIn(a.aws, a.cluster, ns, order) == Some(id);
    Learns(a, ns, id, order);
    LiftStore(a, x, ns, id);
    assert L.Reads(s, Sight(order)) && Lift(x) == L.GetInfo(s, ns, Sight(order)).0;
    if call.Create? {
      var m := L.Making(None, false, false, false, false, false);
      assert L.Gives(s, m) && Lift(x) == L.CreateOrGet(s, ns, true, call.user, Sight(order), m).0;
    }
  }

  /** A creation stores what it has made. */
  lemma EndsMade(a: System, y: System, x: System, call: Event, id: string, tagOk: bool, nameOk: bool)
    requires call.Create? && Made(a, y, call.ns, call.user, Making(id, true, tagOk, nameOk))
    requires x.cluster == a.cluster && x.aws == y.aws && x.cache == a.cache[call.ns := id]
    ensures Does(Lift(a), Lift(x), call)
  {
    var s, ns, m := Lift(a), call.ns, L.Making(Some(id), true, tagOk, nameOk, true, false);
    var order :| L.Enumerates(order, a.aws) && L.FindIn(a.aws, a.cluster, ns, order) == None;
    LearnsNothing(a, ns, order);
    LiftStore(a, x, ns, id);
    assert L.Make(s, ns, call.user, m).0.aws == x.aws;
    assert L.Reads(s, Sight(order)) && L.Gives(s, m)
           && Lift(x) == L.CreateOrGet(s, ns, true, call.user, Sight(order), m).0;
  }

  /** A creation whose cleanup has failed as well. */
  lemma EndsHalfMade(a: System, x: System, call: Event, m: L.Making)
    requires call.Create? && Made(a, x, call.ns, call.user, m) && !m.mountsOk && !m.cleanupOk && x.cluster == a.cluster
    ensures Does(Lift(a), Lift(x), call)
  {
    var s, ns := Lift(a), call.ns;
    var order :| L.Enumerates(order, a.aws) && L.FindIn(a.aws, a.cluster, ns, order) == None;
    LearnsNothing(a, ns, order);
    assert L.Reads(s, Sight(order)) && L.Gives(s, m)
           && Lift(x) == L.CreateOrGet(s, ns, true, call.user, Sight(order), m).0;
  }

  /** A volume ID that parses; a deletion looks at no more of it. */
  function AnyVolume(): (volumeId: string) {
    VolumeIds.Print(VolumeIds.NsVolumeId("a", "a", "a"))
  }

  lemma AnyVolumeParses()
    ensures VolumeIds.Parse(AnyVolume()).Some?
  {
    VolumeIds.ColonFreeClosed("a");
    VolumeIds.RoundTrip(VolumeIds.NsVolumeId("a", "a", "a"));
  }

  /** What a deletion finds: the file system it knows, with the account and the cache as they are when it knows it. */
  lemma Finds(a: System, x: System, ns: string, id: string) returns (r: L.Reading)
    requires Known(a, x.cache, ns, id) && x.aws == a.aws && x.cluster == a.cluster
    ensures L.Reads(Lift(a), r)
    ensures L.GetInfo(Lift(a), ns, r) == (Lift(x), L.Present(Types.FileSystemInfo(id, ns, Types.Available, 0)))
  {
    LiftLookup(a, ns);
    if ns in a.cache {
      r := BLIND;
    } else {
      var order :| L.Enumerates(order, a.aws) && L.FindIn(a.aws, a.cluster, ns, order) == Some(id);
      Learns(a, ns, id, order);
      LiftStore(a, x, ns, id);
      r := Sight(order);
    }
  }

  lemma NoClaims(a: System, ns: string, d: L.Deleting)
    requires ns != "" && d.countOk
    ensures L.Delete(Lift(a), ns, AnyVolume(), d) == L.DeleteUnused(Lift(a), ns, d)
  {
    AnyVolumeParses();
  }

  /** A deletion that knows the file system and fails to delete it. */
  lemma EndsUndeleted(a: System, x: System, call: Event, id: string)
    requires call.Delete? && Known(a, x.cache, call.ns, id) && x.aws == a.aws && x.cluster == a.cluster
    ensures Does(Lift(a), Lift(x), call)
  {
    var r := Finds(a, x, call.ns, id);
    var d := L.Deleting(true, r, false, false);
    NoClaims(a, call.ns, d);
    assert L.Reads(Lift(a), d.reading) && Lift(x) == L.Delete(Lift(a), call.ns, AnyVolume(), d).0;
  }

  /** A deletion that deletes it. */
  lemma EndsDeleted(a: System, y: System, x: System, call: Event, id: string)
    requires call.Delete? && Known(a, y.cache, call.ns, id) && id in a.aws && y.cluster == x.cluster == a.cluster
    requires y.aws == a.aws && x.aws == a.aws - {id} && x.cache == y.cache - {call.ns}
    ensures Does(Lift(a), Lift(x), call)
  {
    var r := Finds(a, y, call.ns, id);
    var d := L.Deleting(true, r, true, true);
    NoClaims(a, call.ns, d);
    LiftForget(y, x, call.ns);
    assert L.Reads(Lift(a), d.reading) && Lift(x) == L.Delete(Lift(a), call.ns, AnyVolume(), d).0;
  }

  // ---------------------------------------------------------------------------------------------------------
  // Steps

  /** The cache entries of an idle state are file systems of their namespaces. */
  ghost predicate Right(a: System) {
    forall ns :: ns in a.cache ==> L.Owns(a.aws, ns, a.cache[ns])
  }

  /** Creating, and then tagging and naming, what is recorded in a Making. */
  lemma MadeFirst(a: System, x: System, ns: string, user: TagMap, id: string)
    requires Missed(a, ns) && Listed(a, ns, None) && NewId(a, id) && x.cluster == a.cluster && x.cache == a.cache
    requires x.aws == a.aws[id := L.FileSystem(ns, map[])]
    ensures Made(a, x, ns, user, Making(id, false, false, false))
    ensures Made(a, x, ns, user, Making(id, true, false, false))
  {
  }

  lemma MadeTagged(a: System, x: System, y: System, ns: string, user: TagMap, id: string, ok: bool)
    requires Made(a, x, ns, user, Making(id, true, false, false)) && y.cache == x.cache
    requires y.aws == Retag(x.aws, id, Built(ns, a.cluster, user), ok)
    ensures Made(a, y, ns, user, Making(id, true, ok, false))
  {
    var built := Built(ns, a.cluster, user);
    assert map[] + built == built;
    Retagged(a.aws, id, ns, map[], built);
  }

  lemma MadeNamed(a: System, x: System, y: System, ns: string, user: TagMap, id: string, tagOk: bool, ok: bool)
    requires Made(a, x, ns, user, Making(id, true, tagOk, false)) && y.cache == x.cache
    requires y.aws == Retag(x.aws, id, map[NAME_KEY := NameFor(ns, a.cluster)], ok)
    ensures Made(a, y, ns, user, Making(id, true, tagOk, ok))
  {
    NamedTags(ns, a.cluster, user, tagOk);
    Retagged(a.aws, id, ns, Tagged(ns, a.cluster, user, tagOk, false), map[NAME_KEY := NameFor(ns, a.cluster)]);
  }

  lemma MadeUndone(a: System, x: System, ns: string, user: TagMap, m: L.Making)
    requires Made(a, x, ns, user, m)
    ensures x.aws - {m.id.value} == a.aws
  {
  }

  /** A creation up to its first call that changes the account. */
  lemma StartsMidway(a: System, x: System, t: nat, l: Luck, call: Event)
    requires Midway(a, x, PcOf(x, t), call) && x.cluster == a.cluster && L.Enumerates(l.order, x.aws) && NewId(x, l.id)
    requires var pc := PcOf(x, t); pc.Arrived? || pc.Queued? || pc.Locked? || pc.Describing? || pc.Creating?
    ensures var x' := CreateStep(x, t, PcOf(x, t), l); Midway(a, x', PcOf(x', t), call)
  {
    var x' := CreateStep(x, t, PcOf(x, t), l);
    match PcOf(x, t)
    case Arrived(ns, user) => if PcOf(x', t).Idle? { EndsAsBefore(a, x', call); }
    case Locked(ns, user) => if PcOf(x', t).Leaving? { EndsAsBefore(a, x', call); }
    case Describing(ns, user) =>
      assert Listed(a, ns, L.FindIn(a.aws, a.cluster, ns, l.order));
      if PcOf(x', t).Leaving? { EndsAsBefore(a, x', call); }
    case Creating(ns, user) =>
      if l.ok { MadeFirst(a, x', ns, user, l.id); } else { EndsAsBefore(a, x', call); }
    case _ =>
  }

  /** From the creation to the mount targets. */
  lemma TagsMidway(a: System, x: System, t: nat, l: Luck, call: Event)
    requires Midway(a, x, PcOf(x, t), call) && x.cluster == a.cluster && (PcOf(x, t).Waiting? || PcOf(x, t).Tagging?)
    ensures var x' := CreateStep(x, t, PcOf(x, t), l); Midway(a, x', PcOf(x', t), call)
  {
    var x' := CreateStep(x, t, PcOf(x, t), l);
    match PcOf(x, t)
    case Waiting(ns, user, id) => MadeFirst(a, x', ns, user, id);
    case Tagging(ns, user, id) => MadeTagged(a, x, x', ns, user, id, l.ok);
  }

  lemma MountsMidway(a: System, x: System, t: nat, l: Luck, call: Event)
    requires Midway(a, x, PcOf(x, t), call) && x.cluster == a.cluster && (PcOf(x, t).Naming? || PcOf(x, t).Mounting?)
    ensures var x' := CreateStep(x, t, PcOf(x, t), l); Midway(a, x', PcOf(x', t), call)
  {
    var x' := CreateStep(x, t, PcOf(x, t), l);
    match PcOf(x, t)
    case Naming(ns, user, id) =>
      var tagOk :| Made(a, x, ns, user, Making(id, true, tagOk, false));
      MadeNamed(a, x, x', ns, user, id, tagOk, l.ok);
    case Mounting(ns, id) =>
      var tagOk, nameOk :| Made(a, x, ns, call.user, Making(id, true, tagOk, nameOk));
      assert Made(a, x', ns, call.user, Making(id, true, tagOk, nameOk));
  }

  /** The end of a creation. */
  lemma EndsMidway(a: System, x: System, t: nat, l: Luck, call: Event)
    requires Midway(a, x, PcOf(x, t), call) && x.cluster == a.cluster
    requires var pc := PcOf(x, t); pc.Undoing? || pc.Caching? || pc.Leaving?
    ensures var x' := CreateStep(x, t, PcOf(x, t), l); Midway(a, x', PcOf(x', t), call)
  {
    var x' := CreateStep(x, t, PcOf(x, t), l);
    match PcOf(x, t)
    case Undoing(id) =>
      var waitOk, tagOk, nameOk :| Made(a, x, call.ns, call.user, Making(id, waitOk, tagOk, nameOk));
      if l.ok {
        MadeUndone(a, x, call.ns, call.user, Making(id, waitOk, tagOk, nameOk));
        EndsAsBefore(a, x', call);
      } else {
        EndsHalfMade(a, x', call, Making(id, waitOk, tagOk, nameOk));
      }
    case Caching(ns, id) =>
      if Same(a, x) && Missed(a, ns) && Listed(a, ns, Some(id)) {
        EndsStored(a, x', call, id);
      } else {
        var tagOk, nameOk :| Made(a, x, ns, call.user, Making(id, true, tagOk, nameOk));
        EndsMade(a, x, x', call, id, tagOk, nameOk);
      }
    case Leaving => assert Lift(x') == Lift(x);
  }

  /** A lookup or a deletion up to what it finds. */
  lemma ReadsMidway(a: System, x: System, t: nat, l: Luck, call: Event)
    requires Midway(a, x, PcOf(x, t), call) && x.cluster == a.cluster && L.Enumerates(l.order, x.aws)
    requires var pc := PcOf(x, t); pc.Counting? || pc.Checking? || pc.LookingUp? || pc.Storing?
    ensures var x' := OtherStep(x, t, PcOf(x, t), l); Midway(a, x', PcOf(x', t), call)
  {
    var x' := OtherStep(x, t, PcOf(x, t), l);
    match PcOf(x, t)
    case Counting(ns) => if !l.ok { EndsAsBefore(a, x', call); }
    case Checking(ns, toDelete) => if PcOf(x', t).Idle? { EndsAsBefore(a, x', call); }
    case LookingUp(ns, toDelete) =>
      assert Listed(a, ns, L.FindIn(a.aws, a.cluster, ns, l.order));
      if PcOf(x', t).Idle? { EndsAsBefore(a, x', call); }
    case Storing(ns, id, toDelete) => if !toDelete { EndsStored(a, x', call, id); }
  }

  lemma DeletesMidway(a: System, x: System, t: nat, l: Luck, call: Event)
    requires Right(a) && Midway(a, x, PcOf(x, t), call) && x.cluster == a.cluster
    requires PcOf(x, t).Removing? || PcOf(x, t).Forgetting?
    ensures var x' := OtherStep(x, t, PcOf(x, t), l); Midway(a, x', PcOf(x', t), call)
  {
    var x' := OtherStep(x, t, PcOf(x, t), l);
    match PcOf(x, t)
    case Removing(ns, id) => if !l.ok { EndsUndeleted(a, x', call, id); }
    case Forgetting(ns) =>
      if Same(a, x) && Missed(a, ns) {
        assert a.cache - {ns} == a.cache;
        EndsAsBefore(a, x', call);
      } else {
        var id :| Known(a, x.cache, ns, id) && x.aws == a.aws - {id};
        assert id in a.aws;
        EndsDeleted(a, x.(aws := a.aws), x', call, id);
      }
  }

  lemma CreateMidway(a: System, x: System, t: nat, l: Luck, call: Event)
    requires Midway(a, x, PcOf(x, t), call) && x.cluster == a.cluster && L.Enumerates(l.order, x.aws) && NewId(x, l.id)
    requires PcOf(x, t).Arrived? || PcOf(x, t).Queued? || Critical(PcOf(x, t))
    ensures var x' := CreateStep(x, t, PcOf(x, t), l); Midway(a, x', PcOf(x', t), call)
  {
    var pc := PcOf(x, t);
    if pc.Waiting? || pc.Tagging? {
      TagsMidway(a, x, t, l, call);
    } else if pc.Naming? || pc.Mounting? {
      MountsMidway(a, x, t, l, call);
    } else if pc.Undoing? || pc.Caching? || pc.Leaving? {
      EndsMidway(a, x, t, l, call);
    } else {
      StartsMidway(a, x, t, l, call);
    }
  }

  lemma OtherMidway(a: System, x: System, t: nat, l: Luck, call: Event)
    requires Right(a) && Midway(a, x, PcOf(x, t), call) && x.cluster == a.cluster && L.Enumerates(l.order, x.aws)
    requires !PcOf(x, t).Arrived? && !PcOf(x, t).Queued? && !Critical(PcOf(x, t))
    ensures var x' := OtherStep(x, t, PcOf(x, t), l); Midway(a, x', PcOf(x', t), call)
  {
    if PcOf(x, t).Removing? || PcOf(x, t).Forgetting? {
      DeletesMidway(a, x, t, l, call);
    } else if !PcOf(x, t).Idle? {
      ReadsMidway(a, x, t, l, call);
    }
  }

  lemma MidwayStep(a: System, x: System, t: nat, l: Luck, call: Event)
    requires Right(a) && Midway(a, x, PcOf(x, t), call) && x.cluster == a.cluster && Possible(x, Advance(t, l))
    ensures var x' := Next(x, Advance(t, l)); Midway(a, x', PcOf(x', t), call)
  {
    var pc := PcOf(x, t);
    if pc.Arrived? || pc.Queued? || Critical(pc) {
      CreateMidway(a, x, t, l, call);
    } else {
      OtherMidway(a, x, t, l, call);
    }
  }

  lemma SameCluster(x: System, e: Event)
    ensures Next(x, e).cluster == x.cluster
  {
  }

  lemma FirstMidway(a: System, call: Event)
    requires Start(call) && Possible(a, call)
    ensures var x := Next(a, call); Midway(a, x, PcOf(x, call.t), call)
  {
  }

  // ---------------------------------------------------------------------------------------------------------
  // Calls

  /** A whole call, with nothing in between. */
  ghost predicate OnlyCall(call: Event, events: seq<Event>) {
    && Start(call) && |events| > 0 && events[0] == call
    && forall i :: 0 < i < |events| ==> events[i].Advance? && events[i].t == call.t
  }

  lemma {:induction false} CallMidway(a: System, call: Event, events: seq<Event>, n: nat)
    requires Right(a) && OnlyCall(call, events) && RunPossible(a, events) && 1 <= n <= |events|
    ensures var x := Run(a, events[..n]); Midway(a, x, PcOf(x, call.t), call) && x.cluster == a.cluster
  {
    RunStep(a, events, n - 1);
    var x := Run(a, events[..n - 1]);
    assert Possible(x, events[n - 1]);
    SameCluster(x, events[n - 1]);
    if n == 1 {
      assert events[..0] == [] && x == a;
      FirstMidway(a, call);
    } else {
      CallMidway(a, call, events, n - 1);
      MidwayStep(a, x, call.t, events[n - 1].luck, call);
    }
  }

  /** Whatever fails: a call that has run alone has done what its operation in Lifecycle does. */
  lemma CallIsOperation(a: System, call: Event, events: seq<Event>)
    requires Right(a) && OnlyCall(call, events) && RunPossible(a, events) && PcOf(Run(a, events), call.t).Idle?
    ensures Does(Lift(a), Lift(Run(a, events)), call)
  {
    CallMidway(a, call, events, |events|);
    assert events[..|events|] == events;
  }

  // ---------------------------------------------------------------------------------------------------------
  // Runs

  /** Consecutive states are related by operations. */
  ghost predicate Chain(states: seq<L.State>) {
    && |states| > 0
    && forall i :: 0 <= i < |states| - 1 ==> Linked(states[i], states[i + 1])
  }

  ghost predicate Linked(s: L.State, s': L.State) {
    exists call :: Start(call) && Allowed(call, s.cluster) && Does(s, s', call)
  }

  ghost predicate Allowed(call: Event, cluster: string) {
    call.Create? ==> NamesNoOther(call.ns, cluster, call.user)
  }

  /** A run of operations leads from one state to the other. */
  ghost predicate Leads(s: L.State, s': L.State) {
    exists states :: Chain(states) && states[0] == s && states[|states| - 1] == s'
  }

  lemma LeadsItself(s: L.State)
    ensures Leads(s, s)
  {
    assert Chain([s]) && [s][0] == s;
  }

  lemma LeadsOn(s: L.State, p: L.State, q: L.State)
    requires Leads(s, p) && Linked(p, q)
    ensures Leads(s, q)
  {
    var states :| Chain(states) && states[0] == s && states[|states| - 1] == p;
    var more := states + [q];
    forall i | 0 <= i < |more| - 1 ensures Linked(more[i], more[i + 1]) {
      if i < |states| - 1 { assert more[i] == states[i] && more[i + 1] == states[i + 1]; }
    }
    assert Chain(more) && more[0] == s && more[|more| - 1] == q;
  }

  /** Where a run of calls one at a time stands: between two calls, or within one that started in `a`. */
  ghost predicate Between(s: System, x: System) {
    AllIdle(x) && Leads(Lift(s), Lift(x))
  }

  ghost predicate Within(s: System, a: System, x: System, call: Event) {
    && Start(call) && Allowed(call, a.cluster) && Right(a) && x.cluster == a.cluster && Leads(Lift(s), Lift(a))
    && Midway(a, x, PcOf(x, call.t), call) && forall t :: t != call.t ==> PcOf(x, t).Idle?
  }

  ghost predicate Under(s: System, x: System) {
    Between(s, x) || exists a, call :: Within(s, a, x, call) && !PcOf(x, call.t).Idle?
  }

  lemma WithinUnder(s: System, a: System, x: System, call: Event)
    requires Within(s, a, x, call)
    ensures Under(s, x)
  {
    if PcOf(x, call.t).Idle? {
      assert AllIdle(x);
      assert Linked(Lift(a), Lift(x));
      LeadsOn(Lift(s), Lift(a), Lift(x));
    }
  }

  lemma StartUnder(s: System, x: System, e: Event)
    requires Between(s, x) && Right(x) && Start(e) && Possible(x, e)
    ensures Under(s, Next(x, e))
  {
    FirstMidway(x, e);
    SameCluster(x, e);
    var x' := Next(x, e);
    forall t | t != e.t ensures PcOf(x', t).Idle? { assert PcOf(x, t).Idle?; }
    WithinUnder(s, x, x', e);
  }

  lemma AdvanceUnder(s: System, a: System, x: System, call: Event, t: nat, l: Luck)
    requires Within(s, a, x, call) && Possible(x, Advance(t, l))
    ensures Under(s, Next(x, Advance(t, l)))
  {
    var x' := Next(x, Advance(t, l));
    if t == call.t {
      MidwayStep(a, x, t, l, call);
      SameCluster(x, Advance(t, l));
      forall u | u != t ensures PcOf(x', u).Idle? { OthersStay(x, t, l, u); }
      WithinUnder(s, a, x', call);
    } else {
      assert PcOf(x, t).Idle? && x' == x;
      WithinUnder(s, a, x, call);
    }
  }

  lemma OthersStay(x: System, t: nat, l: Luck, u: nat)
    requires u != t
    ensures PcOf(Next(x, Advance(t, l)), u) == PcOf(x, u)
  {
    var pc := PcOf(x, t);
    if pc.Arrived? || pc.Queued? || Critical(pc) { OthersStayCreate(x, t, l); } else { OthersStayOther(x, t, l); }
  }

  /** Between two calls the cache is right. */
  lemma IdleRight(x: System)
    requires CacheOk(x) && AllIdle(x)
    ensures Right(x)
  {
    forall ns | ns in x.cache ensures L.Owns(x.aws, ns, x.cache[ns]) {
      assert EntryOk(x, ns, x.cache[ns]);
      assert !BeingForgotten(x, ns);
    }
  }

  /** Calls only, one at a time. */
  ghost predicate CallRun(s: System, events: seq<Event>) {
    SerialRun(s, events) && forall i :: 0 <= i < |events| ==> !events[i].Recache?
  }

  lemma StepUnder(s: System, x: System, e: Event)
    requires Under(s, x) && CacheOk(x) && Possible(x, e) && OneAtATime(x, e) && !e.Recache?
    ensures Under(s, Next(x, e))
  {
    if e.Advance? {
      if Between(s, x) {
        assert PcOf(x, e.t).Idle?;
      } else {
        var a, call :| Within(s, a, x, call) && !PcOf(x, call.t).Idle?;
        AdvanceUnder(s, a, x, call, e.t, e.luck);
      }
    } else {
      IdleBetween(s, x);
      IdleRight(x);
      StartUnder(s, x, e);
    }
  }

  lemma IdleBetween(s: System, x: System)
    requires Under(s, x) && AllIdle(x)
    ensures Between(s, x)
  {
    assert !exists a, call :: Within(s, a, x, call) && !PcOf(x, call.t).Idle?;
  }

  lemma {:induction false} RunUnder(s: System, events: seq<Event>, n: nat)
    requires Initial(s) && CacheOk(s) && RunPossible(s, events) && CallRun(s, events) && n <= |events|
    ensures Under(s, Run(s, events[..n]))
  {
    if n == 0 {
      assert events[..0] == [];
      FirstUnder(s);
    } else {
      RunUnder(s, events, n - 1);
      NextUnder(s, events, n - 1, Run(s, events[..n - 1]), Run(s, events[..n]));
    }
  }

  lemma NextUnder(s: System, events: seq<Event>, i: nat, x: System, x': System)
    requires Initial(s) && CacheOk(s) && RunPossible(s, events) && CallRun(s, events) && i < |events|
    requires x == Run(s, events[..i]) && x' == Run(s, events[..i + 1]) && Under(s, x)
    ensures Under(s, x')
  {
    CallAt(s, events, i);
    StepUnder(s, x, events[i]);
  }

  lemma FirstUnder(s: System)
    requires AllIdle(s) || s.threads == map[]
    ensures Under(s, s)
  {
    LeadsItself(Lift(s));
    assert Between(s, s);
  }

  lemma CallAt(s: System, events: seq<Event>, i: nat)
    requires Initial(s) && CacheOk(s) && RunPossible(s, events) && CallRun(s, events) && i < |events|
    ensures var x, e := Run(s, events[..i]), events[i];
            && CacheOk(x) && Possible(x, e) && OneAtATime(x, e) && !e.Recache?
            && Run(s, events[..i + 1]) == Next(x, e)
  {
    SerialReached(s, events, i);
    EventAt(s, events, i);
  }

  /** Every run of calls that do not overlap is, between any two calls, a run of Lifecycle operations. */
  lemma CallsAreOperations(s: System, events: seq<Event>)
    requires Initial(s) && CacheOk(s) && RunPossible(s, events) && CallRun(s, events) && AllIdle(Run(s, events))
    ensures Leads(Lift(s), Lift(Run(s, events)))
  {
    RunUnder(s, events, |events|);
    assert events[..|events|] == events;
    IdleBetween(s, Run(s, events));
  }

  lemma DoesKeeps(s: L.State, s': L.State, call: Event)
    requires L.Inv(s) && Start(call) && Allowed(call, s.cluster) && Does(s, s', call)
    ensures L.Inv(s')
  {
    if call.Create? {
      var r, m :| L.Reads(s, r) && L.Gives(s, m) && s' == L.CreateOrGet(s, call.ns, true, call.user, r, m).0;
      CreateKeeps(s, s', call.ns, call.user, r, m);
    } else {
      ReadKeeps(s, s', call);
    }
  }

  lemma CreateKeeps(s: L.State, s': L.State, ns: string, user: TagMap, r: L.Reading, m: L.Making)
    requires L.Inv(s) && NamesNoOther(ns, s.cluster, user) && L.Reads(s, r) && L.Gives(s, m)
    requires s' == L.CreateOrGet(s, ns, true, user, r, m).0
    ensures L.Inv(s')
  {
    L.CreateOrGetKeeps(s, ns, true, user, r, m);
  }

  lemma ReadKeeps(s: L.State, s': L.State, call: Event)
    requires L.Inv(s) && (call.Lookup? || call.Delete?) && Does(s, s', call)
    ensures L.Inv(s')
  {
    if call.Lookup? {
      var r :| L.Reads(s, r) && s' == L.GetInfo(s, call.ns, r).0;
      L.GetInfoKeeps(s, call.ns, r);
    } else {
      var volumeId: string, d: L.Deleting :| L.Reads(s, d.reading) && s' == L.Delete(s, call.ns, volumeId, d).0;
      L.DeleteKeeps(s, call.ns, volumeId, d);
    }
  }

  lemma {:induction false} ChainKeeps(states: seq<L.State>, n: nat)
    requires Chain(states) && L.Inv(states[0]) && n < |states|
    ensures L.Inv(states[n])
  {
    if n > 0 {
      ChainKeeps(states, n - 1);
      assert Linked(states[n - 1], states[n]);
      var call :| Start(call) && Allowed(call, states[n - 1].cluster) && Does(states[n - 1], states[n], call);
      DoesKeeps(states[n - 1], states[n], call);
    }
  }

  /** So between two calls all of the invariant of Lifecycle holds. */
  lemma CallsKeepInvariant(s: System, events: seq<Event>)
    requires Initial(s) && L.Inv(Lift(s)) && RunPossible(s, events) && CallRun(s, events) && AllIdle(Run(s, events))
    ensures L.Inv(Lift(Run(s, events)))
  {
    LiftedOk(s);
    CallsAreOperations(s, events);
    var states :| Chain(states) && states[0] == Lift(s) && states[|states| - 1] == Lift(Run(s, events));
    ChainKeeps(states, |states| - 1);
  }

  lemma LiftedOk(s: System)
    requires L.Inv(Lift(s))
    ensures CacheOk(s)
  {
    forall ns | ns in s.cache ensures L.Owns(s.aws, ns, s.cache[ns]) { assert ns in Lift(s).cache.data; }
  }
}
