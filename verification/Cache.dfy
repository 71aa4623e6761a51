/** The in-memory TTL cache of file-system records (cache.go). */
module Cache {
  import opened Strings
  import opened Types

  datatype Entry = Entry(info: FileSystemInfo, createdAt: int, ttl: int)

  /** isExpired at time `now`. */
  predicate Expired(e: Entry, now: int) {
    e.ttl > 0 && now - e.createdAt > e.ttl
  }

  datatype State = State(data: map<string, Entry>, ttl: int)

  const FRESH := State(map[], DEFAULT_CACHE_TTL)

  function Lookup(s: State, ns: string, now: int): (r: Option<FileSystemInfo>) {
    if ns != "" && ns in s.data && !Expired(s.data[ns], now) then Some(s.data[ns].info) else None
  }

  function Listing(s: State, now: int): (r: map<string, FileSystemInfo>) {
    map ns | ns in s.data && !Expired(s.data[ns], now) :: s.data[ns].info
  }

  function Put(s: State, ns: string, info: FileSystemInfo, now: int): (s': State) {
    if ns == "" then s else s.(data := s.data[ns := Entry(info, now, s.ttl)])
  }

  function Drop(s: State, ns: string): (s': State) {
    s.(data := s.data - {ns})
  }

  function Sweep(s: State, now: int): (s': State) {
    s.(data := map ns | ns in s.data && !Expired(s.data[ns], now) :: s.data[ns])
  }

  datatype Event =
    | Set(ns: string, info: Option<FileSystemInfo>, at: int)
    | Delete(ns: string)
    | Clear
    | SetTTL(ttl: int)
    | Cleanup(at: int)

  function Apply(s: State, e: Event): (s': State) {
    match e
    case Set(ns, info, at) => if info.Some? then Put(s, ns, info.value, at) else s
    case Delete(ns) => if ns == "" then s else Drop(s, ns)
    case Clear => s.(data := map[])
    case SetTTL(ttl) => s.(ttl := ttl)
    case Cleanup(at) => Sweep(s, at)
  }

  function Run(h: seq<Event>): (s: State) {
    if h == [] then FRESH else Apply(Run(h[..|h| - 1]), h[|h| - 1])
  }

  /** What an event says the time is. */
  function TimeOf(e: Event): (t: Option<int>) {
    match e
    case Set(_, _, at) => Some(at)
    case Cleanup(at) => Some(at)
    case _ => None
  }

  /** A clock that never goes back: every timed event is no later than the next one and than `now`. */
  ghost predicate Clocked(h: seq<Event>, now: int) {
    && (forall i :: 0 <= i < |h| && TimeOf(h[i]).Some? ==> TimeOf(h[i]).value <= now)
    && forall i, j :: 0 <= i < j < |h| && TimeOf(h[i]).Some? && TimeOf(h[j]).Some?
                      ==> TimeOf(h[i]).value <= TimeOf(h[j]).value
  }

  /** The TTL in force after a history: the last one set. */
  function TtlAfter(h: seq<Event>): (ttl: int) {
    if h == [] then DEFAULT_CACHE_TTL
    else if h[|h| - 1].SetTTL? then h[|h| - 1].ttl
    else TtlAfter(h[..|h| - 1])
  }

  predicate Writes(e: Event, ns: string) {
    e.Set? && e.ns == ns && ns != "" && e.info.Some?
  }

  predicate Erases(e: Event, ns: string) {
    e.Clear? || (e.Delete? && e.ns == ns && ns != "")
  }

  /** Event `i` is the last one to write namespace `ns`, and nothing has erased it since. */
  predicate LastWriteAt(h: seq<Event>, ns: string, i: int) {
    && 0 <= i < |h| && Writes(h[i], ns)
    && forall j :: i < j < |h| ==> !Writes(h[j], ns) && !Erases(h[j], ns)
  }

  /** The entry event `i` stores, with the TTL in force at that point. */
  function Written(h: seq<Event>, i: int): (e: Entry)
    requires 0 <= i < |h| && h[i].Set? && h[i].info.Some?
  {
    Entry(h[i].info.value, h[i].at, TtlAfter(h[..i]))
  }

  /** The cache holds the last write of a namespace, unless a sweep saw it expired. */
  ghost predicate Tells(h: seq<Event>, s: State, ns: string, now: int) {
    && (ns in s.data ==> exists i :: LastWriteAt(h, ns, i) && s.data[ns] == Written(h, i))
    && forall i :: LastWriteAt(h, ns, i) && ns !in s.data ==> Expired(Written(h, i), now)
  }

  lemma {:induction false} RunTells(h: seq<Event>, ns: string, now: int)
    requires Clocked(h, now)
    ensures Run(h).ttl == TtlAfter(h)
    ensures Tells(h, Run(h), ns, now)
  {
    if h != [] {
      var n := |h| - 1;
      var before := if TimeOf(h[n]).Some? then TimeOf(h[n]).value else now;
      RunTells(h[..n], ns, before);
      if Writes(h[n], ns) { WriteTells(h, Run(h[..n]), ns, now); } else { KeepTells(h, Run(h[..n]), ns, before, now); }
    }
  }

  lemma WriteTells(h: seq<Event>, s: State, ns: string, now: int)
    requires h != [] && Writes(h[|h| - 1], ns) && s.ttl == TtlAfter(h[..|h| - 1])
    ensures Tells(h, Apply(s, h[|h| - 1]), ns, now)
  {
    var n := |h| - 1;
    assert LastWriteAt(h, ns, n) && Apply(s, h[n]).data[ns] == Written(h, n);
  }

  lemma KeepTells(h: seq<Event>, s: State, ns: string, before: int, now: int)
    requires h != [] && !Writes(h[|h| - 1], ns) && Tells(h[..|h| - 1], s, ns, before) && before <= now
    requires TimeOf(h[|h| - 1]).Some? ==> before == TimeOf(h[|h| - 1]).value
    ensures Tells(h, Apply(s, h[|h| - 1]), ns, now)
  {
    EarlierWrite(h, ns);
  }

  /** One more event leaves the last write of a namespace where it was, unless it touches that namespace. */
  lemma EarlierWrite(h: seq<Event>, ns: string)
    requires h != []
    ensures forall i :: 0 <= i < |h| - 1 ==>
              (LastWriteAt(h, ns, i)
               <==> LastWriteAt(h[..|h| - 1], ns, i) && !Writes(h[|h| - 1], ns) && !Erases(h[|h| - 1], ns))
    ensures forall i :: 0 <= i < |h| - 1 && h[i].Set? && h[i].info.Some? ==> Written(h, i) == Written(h[..|h| - 1], i)
  {
    forall i | 0 <= i < |h| - 1 ensures h[..|h| - 1][..i] == h[..i] {}
  }

  /**
   * Get returns exactly the last value set for a namespace since the last delete or clear, while it is within the
   * TTL that was in force when it was set. Sweeps do not show.
   */
  lemma GetIsLastLiveWrite(h: seq<Event>, ns: string, now: int, info: FileSystemInfo)
    requires Clocked(h, now)
    ensures Lookup(Run(h), ns, now) == Some(info)
            <==> exists i :: && LastWriteAt(h, ns, i) && h[i].info == Some(info)
                             && (TtlAfter(h[..i]) <= 0 || now - h[i].at <= TtlAfter(h[..i]))
  {
    RunTells(h, ns, now);
    forall i, j | LastWriteAt(h, ns, i) && LastWriteAt(h, ns, j) ensures i == j {}
  }

  /** The history with every sweep left out. */
  function WithoutCleanup(h: seq<Event>): (r: seq<Event>) {
    if h == [] then []
    else WithoutCleanup(h[..|h| - 1]) + if h[|h| - 1].Cleanup? then [] else [h[|h| - 1]]
  }

  /** A sweep keeps exactly the entries that are within their TTL, or have none. */
  lemma SweepExactly(s: State, now: int, ns: string)
    ensures var s' := Sweep(s, now);
            && s'.ttl == s.ttl
            && (ns in s'.data
                <==> ns in s.data && (s.data[ns].ttl <= 0 || now - s.data[ns].createdAt <= s.data[ns].ttl))
            && (ns in s'.data ==> s'.data[ns] == s.data[ns])
  {
  }

  /** Two caches that no later reader can tell apart. */
  ghost predicate SameFrom(s: State, t: State, now: int) {
    && s.ttl == t.ttl
    && forall ns :: ((ns in s.data && !Expired(s.data[ns], now)) ==> ns in t.data && t.data[ns] == s.data[ns])
                 && ((ns in t.data && !Expired(t.data[ns], now)) ==> ns in s.data && s.data[ns] == t.data[ns])
  }

  lemma SameReads(s: State, t: State, now: int)
    requires SameFrom(s, t, now)
    ensures forall ns :: Lookup(s, ns, now) == Lookup(t, ns, now)
    ensures Listing(s, now) == Listing(t, now)
  {
    assert Listing(s, now).Keys == Listing(t, now).Keys;
  }

  lemma SameStep(s: State, t: State, e: Event, before: int, now: int)
    requires SameFrom(s, t, before) && before <= now
    ensures !e.Cleanup? ==> SameFrom(Apply(s, e), Apply(t, e), now)
    ensures e.Cleanup? && e.at <= now ==> SameFrom(Apply(s, e), t, now)
  {
  }

  /** Sweeping at any moments changes no later Get and no later List. */
  lemma {:induction false} CleanupInvisible(h: seq<Event>, now: int)
    requires Clocked(h, now)
    ensures SameFrom(Run(h), Run(WithoutCleanup(h)), now)
    ensures forall ns :: Lookup(Run(h), ns, now) == Lookup(Run(WithoutCleanup(h)), ns, now)
    ensures Listing(Run(h), now) == Listing(Run(WithoutCleanup(h)), now)
  {
    if h != [] {
      var n := |h| - 1;
      var e, w := h[n], WithoutCleanup(h[..n]);
      var before := if TimeOf(e).Some? then TimeOf(e).value else now;
      CleanupInvisible(h[..n], before);
      SameStep(Run(h[..n]), Run(w), e, before, now);
      assert (w + [e])[..|w|] == w && w + [] == w;
    }
    SameReads(Run(h), Run(WithoutCleanup(h)), now);
  }

  /** List is Get at every namespace (no entry is ever stored under the empty name). */
  lemma {:induction false} ListIsGet(h: seq<Event>, now: int)
    ensures "" !in Run(h).data
    ensures forall ns :: (ns in Listing(Run(h), now)) == Lookup(Run(h), ns, now).Some?
    ensures forall ns :: ns in Listing(Run(h), now) ==> Lookup(Run(h), ns, now) == Some(Listing(Run(h), now)[ns])
  {
    if h != [] { ListIsGet(h[..|h| - 1], now); }
  }

  /** memoryCache. The clock is an argument of every operation that reads it. */
  class MemoryCache {
    var data: map<string, Entry>
    var ttl: int

    ghost function View(): State
      reads this
    {
      State(data, ttl)
    }

    constructor ()
      ensures View() == FRESH
    {
      data, ttl := map[], DEFAULT_CACHE_TTL;
    }

    method Get(namespace: string, now: int) returns (r: Option<FileSystemInfo>)
      ensures r == Lookup(View(), namespace, now)
    {
      if namespace == "" { return None; }
      if namespace !in data { return None; }
      var entry := data[namespace];
      if Expired(entry, now) { return None; }
      return Some(entry.info);
    }

    method Store(namespace: string, info: Option<FileSystemInfo>, now: int)
      modifies this
      ensures View() == Apply(old(View()), Set(namespace, info, now))
    {
      if namespace == "" || info.None? { return; }
      data := data[namespace := Entry(info.value, now, ttl)];
    }

    method Remove(namespace: string)
      modifies this
      ensures View() == Apply(old(View()), Delete(namespace))
    {
      if namespace == "" { return; }
      data := data - {namespace};
    }

    method List(now: int) returns (result: map<string, FileSystemInfo>)
      ensures result == Listing(View(), now)
    {
      result := map[];
      var todo := data.Keys;
      while todo != {}
        invariant todo <= data.Keys
        invariant result == map ns | ns in data.Keys - todo && !Expired(data[ns], now) :: data[ns].info
      {
        var namespace :| namespace in todo;
        if !Expired(data[namespace], now) {
          result := result[namespace := data[namespace].info];
        }
        todo := todo - {namespace};
      }
    }

    /** Refresh: `fetched` is what the refresh function returned, None when it failed. */
    method Refresh(namespace: string, fetched: Option<Option<FileSystemInfo>>, now: int) returns (ok: bool)
      modifies this
      ensures ok <==> namespace != "" && fetched.Some?
      ensures View() == if !ok then old(View())
                        else if fetched.value.Some? then Put(old(View()), namespace, fetched.value.value, now)
                        else Drop(old(View()), namespace)
    {
      if namespace == "" || fetched.None? { return false; }
      if fetched.value.Some? {
        Store(namespace, fetched.value, now);
      } else {
        Remove(namespace);
      }
      return true;
    }

    method ChangeTTL(duration: int)
      modifies this
      ensures View() == Apply(old(View()), SetTTL(duration))
    {
      ttl := duration;
    }

    method RemoveAll()
      modifies this
      ensures View() == Apply(old(View()), Clear)
    {
      data := map[];
    }

    method CleanupExpiredEntries(now: int)
      modifies this
      ensures View() == Apply(old(View()), Cleanup(now))
    {
      var todo := data.Keys;
      while todo != {}
        invariant todo <= data.Keys <= old(data).Keys && ttl == old(ttl)
        invariant data == map ns | ns in old(data) && (ns in todo || !Expired(old(data)[ns], now)) :: old(data)[ns]
      {
        var namespace :| namespace in todo;
        if Expired(data[namespace], now) {
          data := data - {namespace};
        }
        todo := todo - {namespace};
      }
    }
  }
}
