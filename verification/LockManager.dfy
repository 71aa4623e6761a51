/**
 * LockManagerMap (lock_manager.go): a mutex per ID, reference counted, with goroutines that outlive the callers that
 * timed out. One step is one atomic action of one thread: an operation on the map, on a reference count, on the
 * isLocked flag or on a mutex.
 */
module LockManager {
  import opened Strings
  import opened Collections

  const MAX_RETRIES: nat := 3

  /** Who has locked an entry's mutex. An orphan is a goroutine whose caller has already given up. */
  datatype Owner = Free | ByCaller(c: nat) | ByOrphan

  /** A LockManager; `id` is the ID it was created for. */
  datatype Entry = Entry(id: string, refCount: int, isLocked: bool, owner: Owner)

  /**
   * Where a caller stands. In lockMutex: it has loaded an entry, counted itself in and has to recheck, failed the
   * recheck, starts over, waits for the mutex, has got it, has marked it but not looked at its channel. Then it holds
   * the ID. In unlockMutex: it has found an entry, counted itself out, swapped the flag, and has to delete. `GaveUp`
   * has to delete after a timeout. `e` is the entry concerned.
   */
  datatype Phase =
    | Loaded(id: string, e: nat, timed: bool, tries: nat)
    | Counted(id: string, e: nat, timed: bool, tries: nat)
    | Backing(id: string, e: nat, timed: bool, tries: nat)
    | Retrying(id: string, e: nat, timed: bool, tries: nat)
    | Waiting(id: string, e: nat, timed: bool)
    | Got(id: string, e: nat, timed: bool)
    | Granted(id: string, e: nat)
    | Holding(id: string, e: nat)
    | Found(id: string, e: nat)
    | Discounted(id: string, e: nat, last: bool)
    | Swapped(id: string, e: nat, last: bool)
    | Leaving(id: string, e: nat)
    | GaveUp(id: string, e: nat)

  type Callers = map<nat, Phase>

  datatype State = State(table: map<string, nat>, entries: seq<Entry>, callers: Callers, orphans: multiset<nat>)

  const EMPTY := State(map[], [], map[], multiset{})

  datatype Action =
    | Load(c: nat, id: string, timed: bool)
    | Reload(c: nat)
    | Count(c: nat)
    | Recheck(c: nat)
    | BackOut(c: nat)
    | Lock(c: nat)
    | Mark(c: nat)
    | Return(c: nat)
    | TimeOut(c: nat)
    | OrphanLock(e: nat)
    | OrphanMark(e: nat)
    | Find(c: nat)
    | Discount(c: nat)
    | Swap(c: nat)
    | Release(c: nat)
    | Delete(c: nat)

  // ---------------------------------------------------------------------------------------------------------
  // Steps

  predicate In(s: State, c: nat) {
    c in s.callers && s.callers[c].e < |s.entries|
  }

  predicate Enabled(s: State, a: Action) {
    match a
    case Load(c, _, _) => c !in s.callers
    case Reload(c) => In(s, c) && s.callers[c].Retrying?
    case Count(c) => In(s, c) && s.callers[c].Loaded?
    case Recheck(c) => In(s, c) && s.callers[c].Counted?
    case BackOut(c) => In(s, c) && s.callers[c].Backing?
    case Lock(c) => In(s, c) && s.callers[c].Waiting? && s.entries[s.callers[c].e].owner.Free?
    case Mark(c) => In(s, c) && s.callers[c].Got?
    case Return(c) => In(s, c) && s.callers[c].Granted?
    case TimeOut(c) => In(s, c) && TimesOut(s.callers[c])
    case OrphanLock(e) => e in s.orphans && e < |s.entries| && s.entries[e].owner.Free?
    case OrphanMark(e) => e < |s.entries| && s.entries[e].owner.ByOrphan?
    case Find(c) => In(s, c) && s.callers[c].Holding?
    case Discount(c) => In(s, c) && s.callers[c].Found?
    case Swap(c) => In(s, c) && s.callers[c].Discounted?
    case Release(c) => In(s, c) && s.callers[c].Swapped?
    case Delete(c) => In(s, c) && (s.callers[c].Leaving? || s.callers[c].GaveUp?)
  }

  /** The timer can fire until the caller has looked at its channel. */
  predicate TimesOut(p: Phase) {
    p.Granted? || ((p.Waiting? || p.Got?) && p.timed)
  }

  /** A caller moves on, or returns. */
  function Moved(callers: Callers, c: nat, after: Option<Phase>): (callers': Callers) {
    if after.Some? then callers[c := after.value] else callers - {c}
  }

  /** A step of caller `c` that makes `y` of its entry. */
  function Put(s: State, c: nat, y: Entry, after: Option<Phase>): (s': State)
    requires In(s, c)
  {
    s.(entries := s.entries[s.callers[c].e := y], callers := Moved(s.callers, c, after))
  }

  /** LoadOrStore */
  function Loading(s: State, c: nat, id: string, timed: bool, tries: nat): (s': State) {
    if id in s.table then s.(callers := s.callers[c := Loaded(id, s.table[id], timed, tries)])
    else s.(table := s.table[id := |s.entries|], entries := s.entries + [Entry(id, 0, false, Free)],
            callers := s.callers[c := Loaded(id, |s.entries|, timed, tries)])
  }

  /** What unlockMutex has left to do after the mutex: delete, or return. */
  function Out(p: Phase): (after: Option<Phase>)
    requires p.Discounted? || p.Swapped?
  {
    if p.last then Some(Leaving(p.id, p.e)) else None
  }

  /** The entry of a caller, with `k` added to its count. */
  function Bumped(s: State, c: nat, k: int): (y: Entry)
    requires In(s, c)
  {
    s.entries[s.callers[c].e].(refCount := s.entries[s.callers[c].e].refCount + k)
  }

  /** A caller that is not the first skips the recheck. */
  function AfterCount(s: State, c: nat): (after: Phase)
    requires In(s, c) && s.callers[c].Loaded?
  {
    var p := s.callers[c];
    if s.entries[p.e].refCount + 1 <= 1 then Counted(p.id, p.e, p.timed, p.tries) else Waiting(p.id, p.e, p.timed)
  }

  function AfterRecheck(s: State, c: nat): (after: Phase)
    requires In(s, c) && s.callers[c].Counted?
  {
    var p := s.callers[c];
    if p.id in s.table then Waiting(p.id, p.e, p.timed) else Backing(p.id, p.e, p.timed, p.tries)
  }

  function AfterBackOut(s: State, c: nat): (after: Option<Phase>)
    requires In(s, c) && s.callers[c].Backing?
  {
    var p := s.callers[c];
    if p.tries + 1 < MAX_RETRIES then Some(Retrying(p.id, p.e, p.timed, p.tries + 1)) else None
  }

  function AfterDiscount(s: State, c: nat): (after: Phase)
    requires In(s, c)
  {
    Discounted(s.callers[c].id, s.callers[c].e, s.entries[s.callers[c].e].refCount - 1 == 0)
  }

  /** The entry of a caller whose timer fired: counted out, and left to its goroutine if that has locked it. */
  function GivenUp(s: State, c: nat): (y: Entry)
    requires In(s, c)
  {
    var x := s.entries[s.callers[c].e];
    x.(refCount := x.refCount - 1, owner := if s.callers[c].Waiting? then x.owner else ByOrphan)
  }

  function AfterTimeOut(s: State, c: nat): (after: Option<Phase>)
    requires In(s, c)
  {
    if s.entries[s.callers[c].e].refCount - 1 == 0 then Some(GaveUp(s.callers[c].id, s.callers[c].e)) else None
  }

  function OrphansAfter(s: State, c: nat): (orphans: multiset<nat>)
    requires In(s, c)
  {
    if s.callers[c].Waiting? then s.orphans + multiset{s.callers[c].e} else s.orphans
  }

  function Step(s: State, a: Action): (s': State)
    requires Enabled(s, a)
  {
    match a
    case Load(c, id, timed) => Loading(s, c, id, timed, 0)
    case Reload(c) => Loading(s, c, s.callers[c].id, s.callers[c].timed, s.callers[c].tries)
    case Count(c) => Put(s, c, Bumped(s, c, 1), Some(AfterCount(s, c)))
    case Recheck(c) => Put(s, c, Bumped(s, c, 0), Some(AfterRecheck(s, c)))
    case BackOut(c) => Put(s, c, Bumped(s, c, -1), AfterBackOut(s, c))
    case Lock(c) =>
      var p := s.callers[c];
      Put(s, c, s.entries[p.e].(owner := ByCaller(c)), Some(Got(p.id, p.e, p.timed)))
    case Mark(c) =>
      var p := s.callers[c];
      Put(s, c, s.entries[p.e].(isLocked := true), Some(if p.timed then Granted(p.id, p.e) else Holding(p.id, p.e)))
    case Return(c) =>
      var p := s.callers[c];
      Put(s, c, s.entries[p.e], Some(Holding(p.id, p.e)))
    case TimeOut(c) =>
      Put(s, c, GivenUp(s, c), AfterTimeOut(s, c)).(orphans := OrphansAfter(s, c))
    case OrphanLock(e) =>
      s.(entries := s.entries[e := s.entries[e].(owner := ByOrphan)], orphans := s.orphans - multiset{e})
    case OrphanMark(e) => s.(entries := s.entries[e := s.entries[e].(isLocked := true)])
    case Find(c) =>
      var p := s.callers[c];
      s.(callers := Moved(s.callers, c, if p.id in s.table then Some(Found(p.id, s.table[p.id])) else None))
    case Discount(c) => Put(s, c, Bumped(s, c, -1), Some(AfterDiscount(s, c)))
    case Swap(c) =>
      var p, x := s.callers[c], s.entries[s.callers[c].e];
      Put(s, c, x.(isLocked := false), if x.isLocked then Some(Swapped(p.id, p.e, p.last)) else Out(p))
    case Release(c) =>
      var p := s.callers[c];
      Put(s, c, s.entries[p.e].(owner := Free), Out(p))
    case Delete(c) => s.(table := s.table - {s.callers[c].id}, callers := s.callers - {c})
  }

  /** Only a timed lock times out, and it can until it is returned to its caller: while waiting, and when granted. */
  lemma TimesOutExactly(s: State, c: nat)
    requires In(s, c)
    ensures Enabled(s, TimeOut(c))
            <==> || s.callers[c] == Granted(s.callers[c].id, s.callers[c].e)
                 || s.callers[c] == Waiting(s.callers[c].id, s.callers[c].e, true)
                 || s.callers[c] == Got(s.callers[c].id, s.callers[c].e, true)
  {
  }

  /** A caller that lost its entry starts again twice, and gives up after the third time. */
  lemma BackOutExactly(s: State, c: nat)
    requires Enabled(s, BackOut(c))
    ensures var p, s' := s.callers[c], Step(s, BackOut(c));
            if p.tries < 2 then c in s'.callers && s'.callers[c] == Retrying(p.id, p.e, p.timed, p.tries + 1)
            else c !in s'.callers
  {
  }

  /** How often a caller has started again. */
  function Tries(p: Phase): (n: nat) {
    if p.Loaded? || p.Counted? || p.Backing? || p.Retrying? then p.tries else 0
  }

  /** So in no run does a caller start again more than twice. */
  lemma {:induction false} AtMostTwoMoreTries(trace: seq<State>, actions: seq<Action>, n: nat, c: nat)
    requires IsRun(trace, actions) && trace[0] == EMPTY && n <= |actions|
    ensures c in trace[n].callers ==> Tries(trace[n].callers[c]) <= 2
  {
    if n > 0 {
      AtMostTwoMoreTries(trace, actions, n - 1, c);
      TriesStep(trace[n - 1], actions[n - 1], c);
    }
  }

  lemma TriesStep(s: State, a: Action, c: nat)
    requires Enabled(s, a) && (c in s.callers ==> Tries(s.callers[c]) <= 2)
    ensures c in Step(s, a).callers ==> Tries(Step(s, a).callers[c]) <= 2
  {
  }

  // ---------------------------------------------------------------------------------------------------------
  // Invariant

  /** Counted in on its entry. */
  predicate Counts(p: Phase) {
    p.Counted? || p.Backing? || p.Waiting? || p.Got? || p.Granted? || p.Holding? || p.Found?
  }

  /** Has the mutex of the ID and may be in its critical section, or is about to be. */
  predicate Locks(p: Phase) { p.Got? || p.Granted? || p.Holding? }

  /** Admitted: past the recheck, and not yet in unlockMutex. */
  predicate Admitted(p: Phase) { p.Waiting? || Locks(p) }

  /** Has the mutex of its entry. */
  predicate Owns(p: Phase) { Locks(p) || p.Found? || p.Discounted? || p.Swapped? }

  /** Will delete its ID from the map. */
  predicate Pending(p: Phase) {
    p.GaveUp? || p.Leaving? || ((p.Discounted? || p.Swapped?) && p.last)
  }

  /** The map holds the caller's entry for its ID. */
  predicate Mapped(table: map<string, nat>, p: Phase) {
    p.id in table && table[p.id] == p.e
  }

  function Counters(callers: Callers, e: nat): (cs: set<nat>) {
    set c | c in callers && Counts(callers[c]) && callers[c].e == e
  }

  /** What holds between a caller in phase `p` and its entry `x`. */
  predicate Fits(table: map<string, nat>, x: Entry, c: nat, p: Phase) {
    && x.id == p.id
    && (Admitted(p) ==> Mapped(table, p))
    && (p.Backing? ==> !Mapped(table, p))
    && (x.owner == ByCaller(c) <==> Owns(p))
    && (p.Got? || p.Swapped? ==> !x.isLocked)
    && (p.Granted? || p.Holding? || p.Found? || p.Discounted? ==> x.isLocked)
  }

  predicate GoodCaller(s: State, c: nat) {
    In(s, c) && Fits(s.table, s.entries[s.callers[c].e], c, s.callers[c])
  }

  /** An entry counts its callers, and who has locked it is a caller that is on it, or an orphan. */
  predicate GoodEntry(s: State, e: nat)
    requires e < |s.entries|
  {
    var x := s.entries[e];
    && x.refCount == |Counters(s.callers, e)|
    && (x.owner.ByCaller? ==> x.owner.c in s.callers && s.callers[x.owner.c].e == e)
    && (x.owner.Free? ==> !x.isLocked)
  }

  /** A caller that will count itself in on the entry, or will delete the ID. */
  predicate Keeps(p: Phase, id: string, e: nat) {
    p.id == id && (Pending(p) || (p.Loaded? && p.e == e))
  }

  /** An entry in the map is its ID's, and somebody is on it or will see to it. */
  ghost predicate GoodId(s: State, id: string)
    requires id in s.table
  {
    && s.table[id] < |s.entries| && s.entries[s.table[id]].id == id
    && (s.entries[s.table[id]].refCount > 0 || exists c :: c in s.callers && Keeps(s.callers[c], id, s.table[id]))
  }

  ghost predicate Inv(s: State) {
    && (forall c :: c in s.callers ==> GoodCaller(s, c))
    && (forall e :: 0 <= e < |s.entries| ==> GoodEntry(s, e))
    && (forall id :: id in s.table ==> GoodId(s, id))
  }

  /**
   * The condition: whoever passes the recheck, or skips it because the count is more than one, is on the entry the map
   * holds for its ID; and whoever deletes an ID finds nobody admitted for it.
   */
  ghost predicate Sound(s: State, a: Action)
    requires Enabled(s, a)
  {
    match a
    case Count(c) => s.entries[s.callers[c].e].refCount + 1 <= 1 || Mapped(s.table, s.callers[c])
    case Recheck(c) => s.callers[c].id !in s.table || Mapped(s.table, s.callers[c])
    case Delete(c) => forall d :: d in s.callers && Admitted(s.callers[d]) ==> s.callers[d].id != s.callers[c].id
    case _ => true
  }

  // ---------------------------------------------------------------------------------------------------------
  // Steps keep it

  function One(p: Phase, e: nat): (n: nat) {
    if Counts(p) && p.e == e then 1 else 0
  }

  lemma CountersWith(callers: Callers, c: nat, p: Phase, e: nat)
    requires c !in callers
    ensures |Counters(callers[c := p], e)| == |Counters(callers, e)| + One(p, e)
  {
    if One(p, e) == 1 {
      assert Counters(callers[c := p], e) == Counters(callers, e) + {c};
    } else {
      assert Counters(callers[c := p], e) == Counters(callers, e);
    }
  }

  lemma CountersWithout(callers: Callers, c: nat, e: nat)
    requires c in callers
    ensures |Counters(callers, e)| == |Counters(callers - {c}, e)| + One(callers[c], e)
  {
    assert callers == (callers - {c})[c := callers[c]];
    CountersWith(callers - {c}, c, callers[c], e);
  }

  lemma CountersMoved(callers: Callers, c: nat, after: Option<Phase>, e: nat)
    requires c in callers
    ensures |Counters(Moved(callers, c, after), e)| - |Counters(callers, e)|
            == (if after.Some? then One(after.value, e) else 0) - One(callers[c], e)
  {
    CountersWithout(callers, c, e);
    if after.Some? {
      CountersWith(callers - {c}, c, after.value, e);
      assert (callers - {c})[c := after.value] == callers[c := after.value];
    }
  }

  /** What a step of caller `c` may make of its entry and of itself. */
  ghost predicate Fair(s: State, c: nat, y: Entry, after: Option<Phase>)
    requires In(s, c)
  {
    var p, x := s.callers[c], s.entries[s.callers[c].e];
    && y.id == x.id
    && y.refCount - x.refCount == (if after.Some? && Counts(after.value) then 1 else 0) - (if Counts(p) then 1 else 0)
    && (x.owner != y.owner || x.isLocked != y.isLocked ==> x.owner.Free? || x.owner == ByCaller(c))
    && (y.owner.ByCaller? && y.owner != x.owner ==> y.owner == ByCaller(c) && after.Some?)
    && (y.owner.Free? ==> !y.isLocked)
    && (after.Some? ==> after.value.e == p.e && after.value.id == p.id && Fits(s.table, y, c, after.value))
    && (after.None? ==> y.owner != ByCaller(c))
    && (Pending(p) ==> after.Some? && Pending(after.value))
    && (|| y.refCount > 0 || (x.refCount <= 0 && !p.Loaded?) || !Mapped(s.table, p)
        || (after.Some? && Pending(after.value)))
  }

  lemma PutKeeps(s: State, c: nat, y: Entry, after: Option<Phase>)
    requires Inv(s) && In(s, c) && Fair(s, c, y, after)
    ensures Inv(Put(s, c, y, after))
  {
    var s' := Put(s, c, y, after);
    forall d | d in s'.callers ensures GoodCaller(s', d) { PutCaller(s, c, y, after, d); }
    forall k: nat | k < |s'.entries| ensures GoodEntry(s', k) { PutEntry(s, c, y, after, k); }
    forall id | id in s'.table ensures GoodId(s', id) { PutId(s, c, y, after, id); }
  }

  lemma PutCaller(s: State, c: nat, y: Entry, after: Option<Phase>, d: nat)
    requires Inv(s) && In(s, c) && Fair(s, c, y, after) && d in Put(s, c, y, after).callers
    ensures GoodCaller(Put(s, c, y, after), d)
  {
    assert GoodCaller(s, c);
    if d != c { assert GoodCaller(s, d); }
  }

  lemma PutEntry(s: State, c: nat, y: Entry, after: Option<Phase>, k: nat)
    requires Inv(s) && In(s, c) && Fair(s, c, y, after) && k < |s.entries|
    ensures GoodEntry(Put(s, c, y, after), k)
  {
    assert GoodEntry(s, k) && GoodCaller(s, c);
    CountersMoved(s.callers, c, after, k);
  }

  lemma PutId(s: State, c: nat, y: Entry, after: Option<Phase>, id: string)
    requires Inv(s) && In(s, c) && Fair(s, c, y, after) && id in s.table
    ensures GoodId(Put(s, c, y, after), id)
  {
    var s', e := Put(s, c, y, after), s.table[id];
    assert GoodId(s, id) && GoodCaller(s, c);
    if s'.entries[e].refCount <= 0 {
      if s.entries[e].refCount > 0 {
        assert e == s.callers[c].e && Keeps(s'.callers[c], id, e);
      } else {
        assert GoodEntry(s, e);
        var d :| d in s.callers && Keeps(s.callers[d], id, e);
        if d == c { assert after.Some? && Keeps(s'.callers[c], id, e); } else { assert Keeps(s'.callers[d], id, e); }
      }
    }
  }

  /** The goroutines left behind are nobody's business but the mutex's. */
  lemma OrphansIrrelevant(s: State, orphans: multiset<nat>)
    requires Inv(s)
    ensures Inv(s.(orphans := orphans))
  {
    var s' := s.(orphans := orphans);
    forall c | c in s'.callers ensures GoodCaller(s', c) { assert GoodCaller(s, c); }
    forall e: nat | e < |s'.entries| ensures GoodEntry(s', e) { assert GoodEntry(s, e); }
    forall id | id in s'.table ensures GoodId(s', id) { assert GoodId(s, id); }
  }

  lemma OrphanEntryKeeps(s: State, e: nat, y: Entry)
    requires Inv(s) && e < |s.entries| && y.id == s.entries[e].id && y.refCount == s.entries[e].refCount
    requires !s.entries[e].owner.ByCaller? && y.owner.ByOrphan?
    ensures Inv(s.(entries := s.entries[e := y]))
  {
    var s' := s.(entries := s.entries[e := y]);
    forall c | c in s'.callers ensures GoodCaller(s', c) { assert GoodCaller(s, c); }
    forall k: nat | k < |s'.entries| ensures GoodEntry(s', k) { assert GoodEntry(s, k); }
    forall id | id in s'.table ensures GoodId(s', id) { assert GoodId(s, id); }
  }

  lemma LoadingKeeps(s: State, c: nat, id: string, timed: bool, tries: nat)
    requires Inv(s) && c !in s.callers
    ensures Inv(Loading(s, c, id, timed, tries))
  {
    var s' := Loading(s, c, id, timed, tries);
    assert id in s.table ==> GoodId(s, id);
    forall d | d in s'.callers ensures GoodCaller(s', d) { LoadingCaller(s, c, id, timed, tries, d); }
    forall k: nat | k < |s'.entries| ensures GoodEntry(s', k) { LoadingEntry(s, c, id, timed, tries, k); }
    forall n | n in s'.table ensures GoodId(s', n) { LoadingId(s, c, id, timed, tries, n); }
  }

  lemma LoadingCaller(s: State, c: nat, id: string, timed: bool, tries: nat, d: nat)
    requires Inv(s) && c !in s.callers && d in Loading(s, c, id, timed, tries).callers
    ensures GoodCaller(Loading(s, c, id, timed, tries), d)
  {
    if d != c {
      assert GoodCaller(s, d);
    } else if id in s.table {
      assert GoodId(s, id) && GoodEntry(s, s.table[id]);
    }
  }

  lemma NobodyYet(s: State, k: nat)
    requires Inv(s) && k >= |s.entries|
    ensures Counters(s.callers, k) == {}
  {
    forall d | d in s.callers ensures s.callers[d].e != k { assert GoodCaller(s, d); }
  }

  lemma LoadingEntry(s: State, c: nat, id: string, timed: bool, tries: nat, k: nat)
    requires Inv(s) && c !in s.callers && k < |Loading(s, c, id, timed, tries).entries|
    ensures GoodEntry(Loading(s, c, id, timed, tries), k)
  {
    var s' := Loading(s, c, id, timed, tries);
    CountersWith(s.callers, c, s'.callers[c], k);
    if k < |s.entries| { assert GoodEntry(s, k); } else { NobodyYet(s, k); }
  }

  lemma LoadingId(s: State, c: nat, id: string, timed: bool, tries: nat, n: string)
    requires Inv(s) && c !in s.callers && n in Loading(s, c, id, timed, tries).table
    ensures GoodId(Loading(s, c, id, timed, tries), n)
  {
    var s' := Loading(s, c, id, timed, tries);
    if n == id {
      assert id in s.table ==> GoodId(s, id);
      assert Keeps(s'.callers[c], n, s'.table[n]);
    } else {
      assert GoodId(s, n);
      if s.entries[s.table[n]].refCount <= 0 {
        var d :| d in s.callers && Keeps(s.callers[d], n, s.table[n]);
        assert Keeps(s'.callers[d], n, s'.table[n]);
      }
    }
  }

  lemma ReloadKeeps(s: State, c: nat)
    requires Inv(s) && Enabled(s, Reload(c))
    ensures Inv(Step(s, Reload(c)))
  {
    var p := s.callers[c];
    RetryingGone(s, c);
    LoadingKeeps(s.(callers := s.callers - {c}), c, p.id, p.timed, p.tries);
    LoadingAgain(s, c, p.id, p.timed, p.tries);
  }

  lemma RetryingGone(s: State, c: nat)
    requires Inv(s) && In(s, c) && s.callers[c].Retrying?
    ensures Inv(s.(callers := s.callers - {c}))
  {
    var p := s.callers[c];
    assert GoodCaller(s, c) && GoodEntry(s, p.e);
    PutKeeps(s, c, s.entries[p.e], None);
    assert s.entries[p.e := s.entries[p.e]] == s.entries;
  }

  lemma LoadingAgain(s: State, c: nat, id: string, timed: bool, tries: nat)
    ensures Loading(s.(callers := s.callers - {c}), c, id, timed, tries) == Loading(s, c, id, timed, tries)
  {
    var e := if id in s.table then s.table[id] else |s.entries|;
    assert (s.callers - {c})[c := Loaded(id, e, timed, tries)] == s.callers[c := Loaded(id, e, timed, tries)];
  }

  lemma CountKeeps(s: State, c: nat)
    requires Inv(s) && Enabled(s, Count(c)) && Sound(s, Count(c))
    ensures Inv(Step(s, Count(c)))
  {
    CountFair(s, c);
    PutKeeps(s, c, Bumped(s, c, 1), Some(AfterCount(s, c)));
  }

  lemma CountFair(s: State, c: nat)
    requires Inv(s) && Enabled(s, Count(c)) && Sound(s, Count(c))
    ensures Fair(s, c, Bumped(s, c, 1), Some(AfterCount(s, c)))
  {
    assert GoodCaller(s, c) && GoodEntry(s, s.callers[c].e);
  }

  /** Counting in and rechecking keep the invariant exactly when they are sound. */
  lemma CountExactly(s: State, c: nat)
    requires Inv(s) && Enabled(s, Count(c))
    ensures Inv(Step(s, Count(c))) <==> Sound(s, Count(c))
  {
    if Sound(s, Count(c)) {
      CountKeeps(s, c);
    } else {
      assert !GoodCaller(Step(s, Count(c)), c);
    }
  }

  lemma RecheckExactly(s: State, c: nat)
    requires Inv(s) && Enabled(s, Recheck(c))
    ensures Inv(Step(s, Recheck(c))) <==> Sound(s, Recheck(c))
  {
    if Sound(s, Recheck(c)) {
      RecheckFair(s, c);
      PutKeeps(s, c, Bumped(s, c, 0), Some(AfterRecheck(s, c)));
    } else {
      assert !GoodCaller(Step(s, Recheck(c)), c);
    }
  }

  lemma RecheckFair(s: State, c: nat)
    requires Inv(s) && Enabled(s, Recheck(c)) && Sound(s, Recheck(c))
    ensures Fair(s, c, Bumped(s, c, 0), Some(AfterRecheck(s, c)))
  {
    assert GoodCaller(s, c) && GoodEntry(s, s.callers[c].e);
    CountedPositive(s, c);
  }

  lemma CountedPositive(s: State, c: nat)
    requires Inv(s) && c in s.callers && Counts(s.callers[c])
    ensures In(s, c) && s.entries[s.callers[c].e].refCount > 0
  {
    assert GoodCaller(s, c) && GoodEntry(s, s.callers[c].e);
    assert c in Counters(s.callers, s.callers[c].e);
  }

  /** Deleting keeps the invariant exactly when nobody is admitted for the ID. */
  lemma DeleteExactly(s: State, c: nat)
    requires Inv(s) && Enabled(s, Delete(c))
    ensures Inv(Step(s, Delete(c))) <==> Sound(s, Delete(c))
  {
    var s', id := Step(s, Delete(c)), s.callers[c].id;
    assert GoodCaller(s, c);
    if Sound(s, Delete(c)) {
      forall d | d in s'.callers ensures GoodCaller(s', d) { assert GoodCaller(s, d); }
      forall k: nat | k < |s'.entries| ensures GoodEntry(s', k) {
        assert GoodEntry(s, k);
        CountersMoved(s.callers, c, None, k);
      }
      forall n | n in s'.table ensures GoodId(s', n) { DeleteId(s, c, n); }
    } else {
      var d :| d in s.callers && Admitted(s.callers[d]) && s.callers[d].id == id;
      assert !GoodCaller(s', d);
    }
  }

  lemma DeleteId(s: State, c: nat, n: string)
    requires Inv(s) && Enabled(s, Delete(c)) && n in s.table && n != s.callers[c].id
    ensures GoodId(Step(s, Delete(c)), n)
  {
    var s' := Step(s, Delete(c));
    assert GoodId(s, n);
    if s.entries[s.table[n]].refCount <= 0 {
      var d :| d in s.callers && Keeps(s.callers[d], n, s.table[n]);
      assert d in s'.callers && Keeps(s'.callers[d], n, s'.table[n]);
    }
  }

  lemma TimeOutKeeps(s: State, c: nat)
    requires Inv(s) && Enabled(s, TimeOut(c))
    ensures Inv(Step(s, TimeOut(c)))
  {
    TimeOutFair(s, c);
    PutKeeps(s, c, GivenUp(s, c), AfterTimeOut(s, c));
    OrphansIrrelevant(Put(s, c, GivenUp(s, c), AfterTimeOut(s, c)), OrphansAfter(s, c));
  }

  lemma TimeOutFair(s: State, c: nat)
    requires Inv(s) && Enabled(s, TimeOut(c))
    ensures Fair(s, c, GivenUp(s, c), AfterTimeOut(s, c))
  {
    assert GoodCaller(s, c) && GoodEntry(s, s.callers[c].e);
    CountedPositive(s, c);
  }

  lemma FindKeeps(s: State, c: nat)
    requires Inv(s) && Enabled(s, Find(c))
    ensures Inv(Step(s, Find(c)))
  {
    var p := s.callers[c];
    assert GoodCaller(s, c) && GoodEntry(s, p.e);
    CountedPositive(s, c);
    PutKeeps(s, c, s.entries[p.e], Some(Found(p.id, p.e)));
    assert s.entries[p.e := s.entries[p.e]] == s.entries;
  }

  lemma BackOutKeeps(s: State, c: nat)
    requires Inv(s) && Enabled(s, BackOut(c))
    ensures Inv(Step(s, BackOut(c)))
  {
    BackOutFair(s, c);
    PutKeeps(s, c, Bumped(s, c, -1), AfterBackOut(s, c));
  }

  lemma BackOutFair(s: State, c: nat)
    requires Inv(s) && Enabled(s, BackOut(c))
    ensures Fair(s, c, Bumped(s, c, -1), AfterBackOut(s, c))
  {
    assert GoodCaller(s, c) && GoodEntry(s, s.callers[c].e);
  }

  lemma LockKeeps(s: State, c: nat)
    requires Inv(s) && Enabled(s, Lock(c))
    ensures Inv(Step(s, Lock(c)))
  {
    var p := s.callers[c];
    assert GoodCaller(s, c) && GoodEntry(s, p.e);
    CountedPositive(s, c);
    PutKeeps(s, c, s.entries[p.e].(owner := ByCaller(c)), Some(Got(p.id, p.e, p.timed)));
  }

  lemma MarkKeeps(s: State, c: nat)
    requires Inv(s) && Enabled(s, Mark(c))
    ensures Inv(Step(s, Mark(c)))
  {
    var p := s.callers[c];
    assert GoodCaller(s, c) && GoodEntry(s, p.e);
    CountedPositive(s, c);
    PutKeeps(s, c, s.entries[p.e].(isLocked := true), Some(if p.timed then Granted(p.id, p.e) else Holding(p.id, p.e)));
  }

  lemma ReturnKeeps(s: State, c: nat)
    requires Inv(s) && Enabled(s, Return(c))
    ensures Inv(Step(s, Return(c)))
  {
    var p := s.callers[c];
    assert GoodCaller(s, c) && GoodEntry(s, p.e);
    CountedPositive(s, c);
    PutKeeps(s, c, s.entries[p.e], Some(Holding(p.id, p.e)));
  }

  lemma DiscountKeeps(s: State, c: nat)
    requires Inv(s) && Enabled(s, Discount(c))
    ensures Inv(Step(s, Discount(c)))
  {
    DiscountFair(s, c);
    PutKeeps(s, c, Bumped(s, c, -1), Some(AfterDiscount(s, c)));
  }

  lemma DiscountFair(s: State, c: nat)
    requires Inv(s) && Enabled(s, Discount(c))
    ensures Fair(s, c, Bumped(s, c, -1), Some(AfterDiscount(s, c)))
  {
    assert GoodCaller(s, c) && GoodEntry(s, s.callers[c].e);
    CountedPositive(s, c);
  }

  lemma SwapKeeps(s: State, c: nat)
    requires Inv(s) && Enabled(s, Swap(c))
    ensures Inv(Step(s, Swap(c)))
  {
    var p := s.callers[c];
    assert GoodCaller(s, c) && GoodEntry(s, p.e);
    PutKeeps(s, c, s.entries[p.e].(isLocked := false), Some(Swapped(p.id, p.e, p.last)));
  }

  lemma ReleaseKeeps(s: State, c: nat)
    requires Inv(s) && Enabled(s, Release(c))
    ensures Inv(Step(s, Release(c)))
  {
    var p := s.callers[c];
    assert GoodCaller(s, c) && GoodEntry(s, p.e);
    PutKeeps(s, c, s.entries[p.e].(owner := Free), Out(p));
  }

  /** One step keeps the invariant if and only if it is sound. */
  lemma StepKeepsExactly(s: State, a: Action)
    requires Inv(s) && Enabled(s, a)
    ensures Inv(Step(s, a)) <==> Sound(s, a)
  {
    match a
    case Load(c, id, timed) => LoadingKeeps(s, c, id, timed, 0);
    case Reload(c) => ReloadKeeps(s, c);
    case Count(c) => CountExactly(s, c);
    case Recheck(c) => RecheckExactly(s, c);
    case Delete(c) => DeleteExactly(s, c);
    case TimeOut(c) => TimeOutKeeps(s, c);
    case Find(c) => FindKeeps(s, c);
    case OrphanLock(e) =>
      OrphanEntryKeeps(s, e, s.entries[e].(owner := ByOrphan));
      OrphansIrrelevant(s.(entries := s.entries[e := s.entries[e].(owner := ByOrphan)]), s.orphans - multiset{e});
    case OrphanMark(e) => OrphanEntryKeeps(s, e, s.entries[e].(isLocked := true));
    case BackOut(c) => BackOutKeeps(s, c);
    case Lock(c) => LockKeeps(s, c);
    case Mark(c) => MarkKeeps(s, c);
    case Return(c) => ReturnKeeps(s, c);
    case Discount(c) => DiscountKeeps(s, c);
    case Swap(c) => SwapKeeps(s, c);
    case Release(c) => ReleaseKeeps(s, c);
  }

  // ---------------------------------------------------------------------------------------------------------
  // Runs

  /** Consecutive states of `trace` are related by enabled actions. */
  ghost predicate IsRun(trace: seq<State>, actions: seq<Action>) {
    && |trace| == |actions| + 1
    && forall i :: 0 <= i < |actions| ==> Enabled(trace[i], actions[i]) && trace[i + 1] == Step(trace[i], actions[i])
  }

  ghost predicate AllSound(trace: seq<State>, actions: seq<Action>)
    requires IsRun(trace, actions)
  {
    forall i :: 0 <= i < |actions| ==> Sound(trace[i], actions[i])
  }

  lemma {:induction false} SoundKeeps(trace: seq<State>, actions: seq<Action>, n: nat)
    requires IsRun(trace, actions) && Inv(trace[0]) && n <= |actions|
    requires forall i :: 0 <= i < n ==> Sound(trace[i], actions[i])
    ensures Inv(trace[n])
  {
    if n > 0 {
      SoundKeeps(trace, actions, n - 1);
      StepKeepsExactly(trace[n - 1], actions[n - 1]);
    }
  }

  /** The invariant holds all along a run if and only if every step of the run is sound. */
  lemma SoundExactly(trace: seq<State>, actions: seq<Action>)
    requires IsRun(trace, actions) && Inv(trace[0])
    ensures (forall i :: 0 <= i <= |actions| ==> Inv(trace[i])) <==> AllSound(trace, actions)
  {
    if AllSound(trace, actions) {
      forall i: nat | i <= |actions| ensures Inv(trace[i]) { SoundKeeps(trace, actions, i); }
    }
    if forall i :: 0 <= i <= |actions| ==> Inv(trace[i]) {
      forall i | 0 <= i < |actions| ensures Sound(trace[i], actions[i]) {
        assert Inv(trace[i]) && Inv(trace[i + 1]);
        StepKeepsExactly(trace[i], actions[i]);
      }
    }
  }

  // ---------------------------------------------------------------------------------------------------------
  // What a sound run guarantees

  ghost predicate SoundRun(trace: seq<State>, actions: seq<Action>) {
    IsRun(trace, actions) && trace[0] == EMPTY && AllSound(trace, actions)
  }

  lemma SoundEnd(trace: seq<State>, actions: seq<Action>)
    requires SoundRun(trace, actions)
    ensures Inv(trace[|actions|])
  {
    SoundKeeps(trace, actions, |actions|);
  }

  /** At most one caller has the mutex of an ID, whatever goroutines are left behind. */
  lemma MutualExclusion(trace: seq<State>, actions: seq<Action>, c: nat, d: nat)
    requires SoundRun(trace, actions)
    requires var callers := trace[|actions|].callers;
             c in callers && d in callers && Locks(callers[c]) && Locks(callers[d]) && callers[c].id == callers[d].id
    ensures c == d
  {
    SoundEnd(trace, actions);
    assert GoodCaller(trace[|actions|], c) && GoodCaller(trace[|actions|], d);
  }

  /** The callers that wait for an ID or hold it. */
  function Interested(callers: Callers, id: string): (cs: set<nat>) {
    set c | c in callers && Admitted(callers[c]) && callers[c].id == id
  }

  /** Nobody is in the middle of entering or leaving. */
  ghost predicate Quiet(s: State) {
    forall c :: c in s.callers ==> Admitted(s.callers[c])
  }

  /**
   * An ID with callers is in the map, and its count is never less than their number; while nobody is in the middle of
   * entering or leaving, an ID is in the map exactly if it has callers, and its count is their number.
   */
  lemma CountsAreCallers(trace: seq<State>, actions: seq<Action>, id: string)
    requires SoundRun(trace, actions)
    ensures var s := trace[|actions|];
            && (Interested(s.callers, id) != {} ==> id in s.table)
            && (id in s.table ==>
                  s.table[id] < |s.entries| && |Interested(s.callers, id)| <= s.entries[s.table[id]].refCount)
            && (Quiet(s) ==> (id in s.table <==> Interested(s.callers, id) != {}))
            && (Quiet(s) && id in s.table ==> s.entries[s.table[id]].refCount == |Interested(s.callers, id)|)
  {
    SoundEnd(trace, actions);
    InterestedCount(trace[|actions|], id);
  }

  lemma InterestedCount(s: State, id: string)
    requires Inv(s)
    ensures Interested(s.callers, id) != {} ==> id in s.table
    ensures id in s.table ==>
              s.table[id] < |s.entries| && |Interested(s.callers, id)| <= s.entries[s.table[id]].refCount
    ensures Quiet(s) && id in s.table ==> |Interested(s.callers, id)| == s.entries[s.table[id]].refCount > 0
  {
    var i := Interested(s.callers, id);
    forall c | c in i ensures Mapped(s.table, s.callers[c]) { assert GoodCaller(s, c); }
    if id in s.table {
      assert GoodId(s, id) && GoodEntry(s, s.table[id]);
      SubsetSize(i, Counters(s.callers, s.table[id]));
      if Quiet(s) { QuietCount(s, id); }
    }
  }

  lemma QuietCount(s: State, id: string)
    requires Inv(s) && Quiet(s) && id in s.table && s.table[id] < |s.entries|
    ensures Interested(s.callers, id) == Counters(s.callers, s.table[id]) && s.entries[s.table[id]].refCount > 0
  {
    assert GoodId(s, id);
    forall c | c in s.callers ensures OnItsEntry(s, c, id) { assert GoodCaller(s, c); }
  }

  predicate OnItsEntry(s: State, c: nat, id: string)
    requires c in s.callers && id in s.table
  {
    (Admitted(s.callers[c]) && s.callers[c].id == id) <==> (Counts(s.callers[c]) && s.callers[c].e == s.table[id])
  }

  /** Once every caller has returned from unlockMutex or timed out the map is empty. */
  lemma NothingLeft(trace: seq<State>, actions: seq<Action>)
    requires SoundRun(trace, actions) && trace[|actions|].callers == map[]
    ensures trace[|actions|].table == map[]
  {
    var s := trace[|actions|];
    SoundEnd(trace, actions);
    forall id ensures id !in s.table { Unkept(s, id); }
  }

  lemma Unkept(s: State, id: string)
    requires Inv(s) && s.callers == map[]
    ensures id !in s.table
  {
    assert id in s.table ==> GoodId(s, id) && GoodEntry(s, s.table[id]);
    forall e: nat ensures Counters(s.callers, e) == {} {}
  }

  // ---------------------------------------------------------------------------------------------------------
  // Runs that never take the pairs apart

  function By(a: Action): (c: Option<nat>) {
    if a.OrphanLock? || a.OrphanMark? then None else Some(a.c)
  }

  /** Whoever is between looking up and counting in, or between counting out and deleting, is the next to act. */
  ghost predicate Unbroken(trace: seq<State>, actions: seq<Action>)
    requires IsRun(trace, actions)
  {
    forall i, c :: 0 <= i < |actions| && c in trace[i].callers && !Admitted(trace[i].callers[c]) ==>
      By(actions[i]) == Some(c)
  }

  /** A caller in the middle of something finds things as it left them. */
  predicate TidyCaller(s: State, c: nat) {
    && GoodCaller(s, c) && Mapped(s.table, s.callers[c])
    && !s.callers[c].Backing? && !s.callers[c].Retrying?
    && (Pending(s.callers[c]) ==> s.entries[s.callers[c].e].refCount == 0)
  }

  ghost predicate Tidy(s: State) {
    && Inv(s)
    && (forall c :: c in s.callers ==> TidyCaller(s, c))
    && (forall c, d :: c in s.callers && d in s.callers && !Admitted(s.callers[c]) && !Admitted(s.callers[d]) ==>
          c == d)
  }

  /** The next action is open to all, or one caller's turn. */
  ghost predicate Turn(s: State, a: Action) {
    forall c :: c in s.callers && !Admitted(s.callers[c]) ==> By(a) == Some(c)
  }

  lemma TidySound(s: State, a: Action)
    requires Tidy(s) && Enabled(s, a) && Turn(s, a)
    ensures Sound(s, a)
  {
    if a.Count? || a.Recheck? || a.Delete? { assert TidyCaller(s, a.c); }
    if a.Delete? {
      forall d | d in s.callers && Admitted(s.callers[d]) ensures s.callers[d].id != s.callers[a.c].id {
        assert TidyCaller(s, d);
        CountedPositive(s, d);
      }
    }
  }

  /** What becomes of the caller whose step it is, when nobody else is in the middle of something. */
  lemma TidyOwn(s: State, a: Action)
    requires Tidy(s) && Enabled(s, a) && Turn(s, a) && By(a).Some? && a.c in Step(s, a).callers
    ensures TidyCaller(Step(s, a), a.c)
  {
    TidySound(s, a);
    StepKeepsExactly(s, a);
    assert GoodCaller(Step(s, a), a.c);
    if a.Load? {
      assert a.id in s.table ==> GoodId(s, a.id);
    } else {
      assert TidyCaller(s, a.c);
      if a.Count? || a.Recheck? || a.Lock? || a.Mark? || a.Return? { TidyIn(s, a); } else { TidyOut(s, a); }
    }
  }

  /** On the way in a caller stays on its entry. */
  lemma TidyIn(s: State, a: Action)
    requires Enabled(s, a) && (a.Count? || a.Recheck? || a.Lock? || a.Mark? || a.Return?) && TidyCaller(s, a.c)
    ensures var s' := Step(s, a);
            && a.c in s'.callers && Mapped(s'.table, s'.callers[a.c]) && !Pending(s'.callers[a.c])
            && !s'.callers[a.c].Backing? && !s'.callers[a.c].Retrying?
  {
  }

  /** On the way out too, and it deletes only what it counted down to zero. */
  lemma TidyOut(s: State, a: Action)
    requires a.TimeOut? || a.Find? || a.Discount? || a.Swap? || a.Release?
    requires Enabled(s, a) && TidyCaller(s, a.c) && a.c in Step(s, a).callers
    ensures var s' := Step(s, a);
            && Mapped(s'.table, s'.callers[a.c]) && !s'.callers[a.c].Backing? && !s'.callers[a.c].Retrying?
            && In(s', a.c) && (Pending(s'.callers[a.c]) ==> s'.entries[s'.callers[a.c].e].refCount == 0)
  {
  }

  /** A step moves no caller but its own. */
  lemma OthersUnmoved(s: State, a: Action, d: nat)
    requires Enabled(s, a) && By(a) != Some(d)
    ensures d in Step(s, a).callers <==> d in s.callers
    ensures d in s.callers ==> Step(s, a).callers[d] == s.callers[d]
  {
  }

  lemma TidyOther(s: State, a: Action, d: nat)
    requires Tidy(s) && Enabled(s, a) && Turn(s, a) && d in s.callers && By(a) != Some(d)
    ensures TidyCaller(Step(s, a), d)
  {
    TidySound(s, a);
    StepKeepsExactly(s, a);
    OthersUnmoved(s, a, d);
    assert GoodCaller(Step(s, a), d);
    assert Admitted(s.callers[d]);
  }

  lemma TidyKeeps(s: State, a: Action)
    requires Tidy(s) && Enabled(s, a) && Turn(s, a)
    ensures Sound(s, a) && Tidy(Step(s, a))
  {
    var s' := Step(s, a);
    TidySound(s, a);
    StepKeepsExactly(s, a);
    forall d | d in s'.callers ensures TidyCaller(s', d) && (By(a) != Some(d) ==> Admitted(s'.callers[d])) {
      if By(a) == Some(d) { TidyOwn(s, a); } else { OthersUnmoved(s, a, d); TidyOther(s, a, d); }
    }
  }

  lemma {:induction false} UnbrokenTidy(trace: seq<State>, actions: seq<Action>, n: nat)
    requires IsRun(trace, actions) && trace[0] == EMPTY && Unbroken(trace, actions) && n <= |actions|
    ensures Tidy(trace[n])
  {
    if n > 0 {
      UnbrokenTidy(trace, actions, n - 1);
      assert Turn(trace[n - 1], actions[n - 1]);
      TidyKeeps(trace[n - 1], actions[n - 1]);
    }
  }

  /** With the pairs never taken apart every run is sound, and so has all of the guarantees above. */
  lemma UnbrokenIsSound(trace: seq<State>, actions: seq<Action>)
    requires IsRun(trace, actions) && trace[0] == EMPTY && Unbroken(trace, actions)
    ensures SoundRun(trace, actions)
  {
    forall i | 0 <= i < |actions| ensures Sound(trace[i], actions[i]) {
      UnbrokenTidy(trace, actions, i);
      assert Turn(trace[i], actions[i]);
      TidySound(trace[i], actions[i]);
    }
  }

  // ---------------------------------------------------------------------------------------------------------
  // Goroutines left behind

  /** A waiter is kept out exactly by a caller that has the mutex of its entry, or by an orphan that has it. */
  lemma BlockedExactly(s: State, c: nat)
    requires Inv(s) && c in s.callers && s.callers[c].Waiting?
    ensures !Enabled(s, Lock(c))
            <==> || s.entries[s.callers[c].e].owner.ByOrphan?
                 || exists d :: d in s.callers && Owns(s.callers[d]) && s.callers[d].e == s.callers[c].e
  {
    var p := s.callers[c];
    assert GoodCaller(s, c) && GoodEntry(s, p.e);
    var o := s.entries[p.e].owner;
    if o.ByCaller? { assert GoodCaller(s, o.c); }
    forall d | d in s.callers && Owns(s.callers[d]) && s.callers[d].e == p.e ensures o == ByCaller(d) {
      assert GoodCaller(s, d);
    }
  }

  lemma OrphanStays(s: State, a: Action, e: nat)
    requires Inv(s) && Enabled(s, a) && e < |s.entries| && s.entries[e].owner.ByOrphan?
    ensures e < |Step(s, a).entries| && Step(s, a).entries[e].owner.ByOrphan?
  {
    if a.Lock? || a.TimeOut? || a.Release? {
      assert GoodCaller(s, a.c);
    } else if !a.OrphanLock? {
      OwnerStays(s, a, e);
    }
  }

  /** Only a step on the mutex changes who has it. */
  lemma OwnerStays(s: State, a: Action, e: nat)
    requires Enabled(s, a) && e < |s.entries| && !a.Lock? && !a.TimeOut? && !a.Release? && !a.OrphanLock?
    ensures e < |Step(s, a).entries| && Step(s, a).entries[e].owner == s.entries[e].owner
  {
  }

  /** An orphan never gives the mutex back: no later step of a sound run frees it. */
  lemma {:induction false} OrphanForever(trace: seq<State>, actions: seq<Action>, n: nat, e: nat)
    requires IsRun(trace, actions) && Inv(trace[0]) && AllSound(trace, actions) && n <= |actions|
    requires e < |trace[0].entries| && trace[0].entries[e].owner.ByOrphan?
    ensures e < |trace[n].entries| && trace[n].entries[e].owner.ByOrphan?
  {
    if n > 0 {
      OrphanForever(trace, actions, n - 1, e);
      SoundKeeps(trace, actions, n - 1);
      OrphanStays(trace[n - 1], actions[n - 1], e);
    }
  }

  /** The entries whose mutex a goroutine left behind has, and how many such goroutines there are in all. */
  function Kept(entries: seq<Entry>): (es: set<nat>) {
    set e: nat | e < |entries| && entries[e].owner.ByOrphan?
  }

  function LeftBehind(s: State): (n: nat) {
    |s.orphans| + |Kept(s.entries)|
  }

  function TimeOuts(actions: seq<Action>): (n: nat) {
    if actions == [] then 0
    else TimeOuts(actions[..|actions| - 1]) + if actions[|actions| - 1].TimeOut? then 1 else 0
  }

  lemma KeptUpdate(entries: seq<Entry>, e: nat, y: Entry)
    requires e < |entries|
    ensures |Kept(entries[e := y])|
            == |Kept(entries)| - (if entries[e].owner.ByOrphan? then 1 else 0) + (if y.owner.ByOrphan? then 1 else 0)
  {
    var rest := Kept(entries) - {e};
    assert Kept(entries) == if entries[e].owner.ByOrphan? then rest + {e} else rest;
    assert Kept(entries[e := y]) == if y.owner.ByOrphan? then rest + {e} else rest;
  }

  lemma KeptSame(entries: seq<Entry>, entries': seq<Entry>)
    requires |entries| <= |entries'|
    requires forall e :: 0 <= e < |entries| ==> entries'[e].owner == entries[e].owner
    requires forall e :: |entries| <= e < |entries'| ==> !entries'[e].owner.ByOrphan?
    ensures Kept(entries') == Kept(entries)
  {
  }

  lemma PlainLeavesNone(s: State, a: Action)
    requires Enabled(s, a) && !a.Lock? && !a.TimeOut? && !a.Release? && !a.OrphanLock?
    ensures LeftBehind(Step(s, a)) == LeftBehind(s)
  {
    forall e: nat | e < |s.entries|
      ensures e < |Step(s, a).entries| && Step(s, a).entries[e].owner == s.entries[e].owner
    {
      OwnerStays(s, a, e);
    }
    NewEntriesFree(s, a);
    KeptSame(s.entries, Step(s, a).entries);
  }

  lemma NewEntriesFree(s: State, a: Action)
    requires Enabled(s, a) && !a.Lock? && !a.TimeOut? && !a.Release? && !a.OrphanLock?
    ensures var s' := Step(s, a);
            && s'.orphans == s.orphans && |s.entries| <= |s'.entries|
            && forall e :: |s.entries| <= e < |s'.entries| ==> s'.entries[e].owner.Free?
  {
  }

  lemma MutexLeaves(s: State, a: Action)
    requires Inv(s) && Enabled(s, a) && (a.Lock? || a.TimeOut? || a.Release?)
    ensures LeftBehind(Step(s, a)) == LeftBehind(s) + if a.TimeOut? then 1 else 0
  {
    var p := s.callers[a.c];
    assert GoodCaller(s, a.c);
    KeptUpdate(s.entries, p.e, Step(s, a).entries[p.e]);
  }

  lemma OrphanLeaves(s: State, e: nat)
    requires Enabled(s, OrphanLock(e))
    ensures LeftBehind(Step(s, OrphanLock(e))) == LeftBehind(s)
  {
    KeptUpdate(s.entries, e, s.entries[e].(owner := ByOrphan));
  }

  /** In every sound run each timeout leaves one goroutine behind: it waits for the mutex, or has it for good. */
  lemma {:induction false} EachTimeOutLeavesOne(trace: seq<State>, actions: seq<Action>, n: nat)
    requires IsRun(trace, actions) && trace[0] == EMPTY && AllSound(trace, actions) && n <= |actions|
    ensures LeftBehind(trace[n]) == TimeOuts(actions[..n])
  {
    if n == 0 {
      assert Kept([]) == {};
    } else {
      EachTimeOutLeavesOne(trace, actions, n - 1);
      SoundKeeps(trace, actions, n - 1);
      assert actions[..n][..n - 1] == actions[..n - 1];
      LeavesStep(trace[n - 1], actions[n - 1]);
    }
  }

  lemma LeavesStep(s: State, a: Action)
    requires Inv(s) && Enabled(s, a)
    ensures LeftBehind(Step(s, a)) == LeftBehind(s) + if a.TimeOut? then 1 else 0
  {
    if a.Lock? || a.TimeOut? || a.Release? {
      MutexLeaves(s, a);
    } else if a.OrphanLock? {
      OrphanLeaves(s, a.e);
    } else {
      PlainLeavesNone(s, a);
    }
  }

  /** Such a goroutine then says that the mutex is locked. */
  lemma OrphanMarks(s: State, e: nat)
    requires Enabled(s, OrphanMark(e))
    ensures var s' := Step(s, OrphanMark(e));
            && s'.entries[e].isLocked && s'.entries[e].owner.ByOrphan?
            && s' == s.(entries := s.entries[e := s.entries[e].(isLocked := true)])
  {
  }

  // ---------------------------------------------------------------------------------------------------------
  // Where the promises end

  /** Some run leads from one state to the other. */
  ghost predicate Leads(s: State, t: State) {
    exists trace, actions :: IsRun(trace, actions) && trace[0] == s && trace[|actions|] == t
  }

  lemma LeadsNowhere(s: State)
    ensures Leads(s, s)
  {
    var trace, actions: seq<Action> := [s], [];
    assert IsRun(trace, actions) && trace[0] == s && trace[|actions|] == s;
  }

  lemma LeadsOn(s: State, t: State, a: Action)
    requires Leads(s, t) && Enabled(t, a)
    ensures Leads(s, Step(t, a))
  {
    var trace, actions :| IsRun(trace, actions) && trace[0] == s && trace[|actions|] == t;
    OneMoreStep(trace, actions, a);
    var more, acts := trace + [Step(t, a)], actions + [a];
    assert IsRun(more, acts) && more[0] == s && more[|acts|] == Step(t, a);
  }

  lemma LeadsTwice(r: State, s: State, a: Action, b: Action)
    requires Leads(r, s) && Enabled(s, a) && Enabled(Step(s, a), b)
    ensures Leads(r, Step(Step(s, a), b))
  {
    LeadsOn(r, s, a);
    LeadsOn(r, Step(s, a), b);
  }

  lemma OneMoreStep(trace: seq<State>, actions: seq<Action>, a: Action)
    requires IsRun(trace, actions) && Enabled(trace[|actions|], a)
    ensures IsRun(trace + [Step(trace[|actions|], a)], actions + [a])
  {
    var more, acts := trace + [Step(trace[|actions|], a)], actions + [a];
    forall i | 0 <= i < |acts| ensures Enabled(more[i], acts[i]) && more[i + 1] == Step(more[i], acts[i]) {
      if i < |actions| { assert more[i] == trace[i] && more[i + 1] == trace[i + 1] && acts[i] == actions[i]; }
    }
  }

  predicate Holds(s: State, c: nat, id: string) {
    c in s.callers && s.callers[c].Holding? && s.callers[c].id == id
  }

  /** A caller that has loaded a free entry, with its ID in the map, whether or not that is the entry in the map. */
  predicate AtFreeEntry(s: State, b: nat, id: string, e: nat) {
    && e < |s.entries| && s.entries[e] == Entry(id, 0, false, Free)
    && b in s.callers && s.callers[b] == Loaded(id, e, false, 0) && id in s.table
  }

  function Joined(s: State, b: nat, id: string, e: nat): (s': State)
    requires e < |s.entries|
  {
    s.(entries := s.entries[e := Entry(id, 1, true, ByCaller(b))], callers := s.callers[b := Holding(id, e)])
  }

  function CountedIn(s: State, b: nat, id: string, e: nat): (s': State)
    requires e < |s.entries|
  {
    s.(entries := s.entries[e := Entry(id, 1, false, Free)], callers := s.callers[b := Waiting(id, e, false)])
  }

  /** It passes the recheck and comes to hold the ID. */
  lemma Joins(r: State, s: State, b: nat, id: string, e: nat)
    requires Leads(r, s) && AtFreeEntry(s, b, id, e)
    ensures Leads(r, Joined(s, b, id, e))
  {
    CountAndRecheck(s, b, id, e);
    LeadsTwice(r, s, Count(b), Recheck(b));
    LockAndMark(s, b, id, e);
    LeadsTwice(r, CountedIn(s, b, id, e), Lock(b), Mark(b));
  }

  lemma CountAndRecheck(s: State, b: nat, id: string, e: nat)
    requires AtFreeEntry(s, b, id, e)
    ensures Enabled(s, Count(b)) && Enabled(Step(s, Count(b)), Recheck(b))
    ensures Step(Step(s, Count(b)), Recheck(b)) == CountedIn(s, b, id, e)
  {
    var s1 := Step(s, Count(b));
    assert s1.callers[b] == Counted(id, e, false, 0) && s1.entries[e] == Entry(id, 1, false, Free);
    Overwritten(s.callers, b, Counted(id, e, false, 0), Waiting(id, e, false));
  }

  lemma LockAndMark(s: State, b: nat, id: string, e: nat)
    requires e < |s.entries|
    ensures var s0 := CountedIn(s, b, id, e);
            && Enabled(s0, Lock(b)) && Enabled(Step(s0, Lock(b)), Mark(b))
            && Step(Step(s0, Lock(b)), Mark(b)) == Joined(s, b, id, e)
  {
    var s1 := Step(CountedIn(s, b, id, e), Lock(b));
    assert s1.callers[b] == Got(id, e, false) && s1.entries[e] == Entry(id, 1, false, ByCaller(b));
    Overwritten(s.callers, b, Waiting(id, e, false), Got(id, e, false));
    Overwritten(s.callers, b, Got(id, e, false), Holding(id, e));
  }

  /** A newcomer for an ID that is not in the map comes to hold it on an entry of its own. */
  function Newcomer(s: State, b: nat, id: string): (s': State) {
    State(s.table[id := |s.entries|], s.entries + [Entry(id, 1, true, ByCaller(b))],
          s.callers[b := Holding(id, |s.entries|)], s.orphans)
  }

  lemma NewcomerJoins(r: State, s: State, b: nat, id: string)
    requires Leads(r, s) && b !in s.callers && id !in s.table
    ensures Leads(r, Newcomer(s, b, id))
  {
    LeadsOn(r, s, Load(b, id, false));
    var s1, e := Step(s, Load(b, id, false)), |s.entries|;
    Joins(r, s1, b, id, e);
    Overwritten(s.callers, b, Loaded(id, e, false, 0), Holding(id, e));
  }

  /** The only caller of an ID lets go of it, up to the delete. */
  function LetGo(s: State, c: nat, id: string, e: nat): (s': State)
    requires e < |s.entries|
  {
    s.(entries := s.entries[e := Entry(id, 0, false, Free)], callers := s.callers[c := Leaving(id, e)])
  }

  /** `c` holds the ID and is the only one counted on its entry. */
  predicate SoleHolder(s: State, c: nat, id: string, e: nat) {
    && c in s.callers && s.callers[c] == Holding(id, e) && id in s.table && s.table[id] == e
    && e < |s.entries| && s.entries[e] == Entry(id, 1, true, ByCaller(c))
  }

  lemma LetsGo(r: State, s: State, c: nat, id: string, e: nat)
    requires Leads(r, s) && SoleHolder(s, c, id, e)
    ensures Leads(r, LetGo(s, c, id, e))
  {
    FindAndDiscount(s, c, id, e);
    LeadsTwice(r, s, Find(c), Discount(c));
    SwapAndRelease(CountedOut(s, c, id, e), c, id, e);
    LeadsTwice(r, CountedOut(s, c, id, e), Swap(c), Release(c));
    Overwritten(s.callers, c, Discounted(id, e, true), Leaving(id, e));
  }

  /** A holder of the ID has counted itself out. */
  function CountedOut(s: State, c: nat, id: string, e: nat): (s': State)
    requires e < |s.entries|
  {
    s.(entries := s.entries[e := s.entries[e].(refCount := s.entries[e].refCount - 1)],
       callers := s.callers[c := Discounted(id, e, s.entries[e].refCount == 1)])
  }

  lemma FindAndDiscount(s: State, c: nat, id: string, e: nat)
    requires c in s.callers && s.callers[c] == Holding(id, e) && id in s.table && s.table[id] == e && e < |s.entries|
    ensures Enabled(s, Find(c)) && Enabled(Step(s, Find(c)), Discount(c))
    ensures Step(Step(s, Find(c)), Discount(c)) == CountedOut(s, c, id, e)
  {
    assert Step(s, Find(c)).callers[c] == Found(id, e);
    Overwritten(s.callers, c, Found(id, e), Discounted(id, e, s.entries[e].refCount == 1));
  }

  /** It gives back the mutex, and has to delete the ID if it was the last. */
  lemma SwapAndRelease(s: State, c: nat, id: string, e: nat)
    requires e < |s.entries| && s.entries[e].isLocked && c in s.callers && s.callers[c].Discounted?
    requires s.callers[c].id == id && s.callers[c].e == e
    ensures Enabled(s, Swap(c)) && Enabled(Step(s, Swap(c)), Release(c))
    ensures Step(Step(s, Swap(c)), Release(c))
            == s.(entries := s.entries[e := s.entries[e].(isLocked := false, owner := Free)],
                  callers := Moved(s.callers, c, Out(s.callers[c])))
  {
    var last := s.callers[c].last;
    assert Step(s, Swap(c)).callers[c] == Swapped(id, e, last);
    Overwritten(s.callers, c, Swapped(id, e, last), Leaving(id, e));
  }

  /** Whoever has to delete the ID does so. */
  lemma Deletes(r: State, s: State, c: nat, id: string)
    requires Leads(r, s) && In(s, c) && s.callers[c].id == id && (s.callers[c].Leaving? || s.callers[c].GaveUp?)
    ensures Leads(r, s.(table := s.table - {id}, callers := s.callers - {c}))
  {
    LeadsOn(r, s, Delete(c));
  }

  /**
   * A caller that has loaded an entry before it is dropped from the map passes the recheck, which tests the ID and not
   * the entry, once a newcomer has put a new entry there. Both then hold the ID. The recheck is the step that is not
   * sound.
   */
  lemma LookupRace(s: State, c: nat, a: nat, b: nat, id: string, e: nat) returns (s': State)
    requires SoleHolder(s, c, id, e) && a !in s.callers && b !in s.callers && a != b
    ensures Leads(s, s') && Holds(s', a, id) && Holds(s', b, id)
  {
    LeadsNowhere(s);
    LeadsOn(s, s, Load(a, id, false));
    s' := Step(s, Load(a, id, false));
    LetsGo(s, s', c, id, e);
    s' := LetGo(s', c, id, e);
    Deletes(s, s', c, id);
    s' := s'.(table := s'.table - {id}, callers := s'.callers - {c});
    NewcomerJoins(s, s', b, id);
    s' := Newcomer(s', b, id);
    Joins(s, s', a, id, e);
    s' := Joined(s', a, id, e);
  }

  /** A caller joins an entry that is about to be dropped, the drop happens, and a newcomer holds the ID as well. */
  lemma DroppedWhileHeld(r: State, s: State, c: nat, a: nat, b: nat, id: string, e: nat) returns (s': State)
    requires Leads(r, s) && e < |s.entries| && s.entries[e] == Entry(id, 0, false, Free)
    requires id in s.table && s.table[id] == e
    requires c in s.callers && (s.callers[c] == Leaving(id, e) || s.callers[c] == GaveUp(id, e))
    requires a !in s.callers && b !in s.callers && a != b
    ensures Leads(r, s') && Holds(s', a, id) && Holds(s', b, id)
  {
    LeadsOn(r, s, Load(a, id, false));
    s' := Step(s, Load(a, id, false));
    Joins(r, s', a, id, e);
    s' := Joined(s', a, id, e);
    Deletes(r, s', c, id);
    s' := s'.(table := s'.table - {id}, callers := s'.callers - {c});
    NewcomerJoins(r, s', b, id);
    s' := Newcomer(s', b, id);
  }

  /** A caller that comes between the unlock and the delete of another; that delete is the step that is not sound. */
  lemma DeleteRace(s: State, c: nat, a: nat, b: nat, id: string, e: nat) returns (s': State)
    requires SoleHolder(s, c, id, e) && a !in s.callers && b !in s.callers && a != b
    ensures Leads(s, s') && Holds(s', a, id) && Holds(s', b, id)
  {
    LeadsNowhere(s);
    LetsGo(s, s, c, id, e);
    s' := DroppedWhileHeld(s, LetGo(s, c, id, e), c, a, b, id, e);
  }

  /**
   * A caller that comes between the count and the delete of a timeout; again the delete is the step that is not sound.
   */
  lemma TimeOutRace(s: State, c: nat, a: nat, b: nat, id: string, e: nat) returns (s': State)
    requires c in s.callers && s.callers[c] == Waiting(id, e, true) && id in s.table && s.table[id] == e
    requires e < |s.entries| && s.entries[e] == Entry(id, 1, false, Free)
    requires a !in s.callers && b !in s.callers && a != b
    ensures Leads(s, s') && Holds(s', a, id) && Holds(s', b, id)
  {
    LeadsNowhere(s);
    LeadsOn(s, s, TimeOut(c));
    s' := DroppedWhileHeld(s, Step(s, TimeOut(c)), c, a, b, id, e);
  }

  // Starvation.

  /** Another caller for an ID with callers gets to wait. */
  function Queued(s: State, a: nat, id: string, e: nat): (s': State)
    requires e < |s.entries|
  {
    s.(entries := s.entries[e := s.entries[e].(refCount := s.entries[e].refCount + 1)],
       callers := s.callers[a := Waiting(id, e, true)])
  }

  lemma Queues(r: State, s: State, a: nat, id: string, e: nat)
    requires Leads(r, s) && a !in s.callers && id in s.table && s.table[id] == e && e < |s.entries|
    requires s.entries[e].refCount > 0
    ensures Leads(r, Queued(s, a, id, e))
  {
    LoadAndCount(s, a, id, e);
    LeadsTwice(r, s, Load(a, id, true), Count(a));
  }

  lemma LoadAndCount(s: State, a: nat, id: string, e: nat)
    requires a !in s.callers && id in s.table && s.table[id] == e && e < |s.entries| && s.entries[e].refCount > 0
    ensures Enabled(s, Load(a, id, true)) && Enabled(Step(s, Load(a, id, true)), Count(a))
    ensures Step(Step(s, Load(a, id, true)), Count(a)) == Queued(s, a, id, e)
  {
    Overwritten(s.callers, a, Loaded(id, e, true, 0), Waiting(id, e, true));
  }

  /** `c` holds the ID, and others are counted on its entry. */
  predicate BusyHolder(s: State, c: nat, id: string, e: nat) {
    && c in s.callers && s.callers[c] == Holding(id, e) && id in s.table && s.table[id] == e && e < |s.entries|
    && s.entries[e].isLocked && s.entries[e].owner == ByCaller(c) && s.entries[e].refCount > 1
  }

  function HandedOver(s: State, c: nat, e: nat): (s': State)
    requires e < |s.entries|
  {
    s.(entries := s.entries[e := Entry(s.entries[e].id, s.entries[e].refCount - 1, false, Free)],
       callers := s.callers - {c})
  }

  lemma HandsOver(r: State, s: State, c: nat, id: string, e: nat)
    requires Leads(r, s) && BusyHolder(s, c, id, e)
    ensures Leads(r, HandedOver(s, c, e))
  {
    FindAndDiscount(s, c, id, e);
    LeadsTwice(r, s, Find(c), Discount(c));
    SwapAndRelease(CountedOut(s, c, id, e), c, id, e);
    LeadsTwice(r, CountedOut(s, c, id, e), Swap(c), Release(c));
    Overwritten(s.callers, c, Discounted(id, e, false), Leaving(id, e));
  }

  /**
   * Wherever an ID is held, two more callers can bring about this: one times out, the holder lets go, the goroutine
   * left behind takes the mutex, and the other caller waits for a mutex that (by OrphanForever) is never freed.
   */
  lemma OrphanStarvesWaiter(s: State, c: nat, a: nat, b: nat) returns (s': State)
    requires Inv(s) && c in s.callers && s.callers[c].Holding? && a !in s.callers && b !in s.callers && a != b
    ensures var p := s.callers[c];
            && Leads(s, s') && b in s'.callers && s'.callers[b] == Waiting(p.id, p.e, true)
            && p.e < |s'.entries| && s'.entries[p.e].owner.ByOrphan?
  {
    var id, e := s.callers[c].id, s.callers[c].e;
    assert GoodCaller(s, c) && GoodEntry(s, e);
    CountedPositive(s, c);
    var s1 := TimesOutBehind(s, c, a, b, id, e);
    HandsOver(s, s1, c, id, e);
    var s2 := HandedOver(s1, c, e);
    LeadsOn(s, s2, OrphanLock(e));
    s' := Step(s2, OrphanLock(e));
  }

  lemma TimesOutBehind(s: State, c: nat, a: nat, b: nat, id: string, e: nat) returns (s': State)
    requires c in s.callers && s.callers[c] == Holding(id, e) && id in s.table && s.table[id] == e && e < |s.entries|
    requires s.entries[e].isLocked && s.entries[e].owner == ByCaller(c) && s.entries[e].refCount > 0
    requires a !in s.callers && b !in s.callers && a != b
    ensures Leads(s, s') && BusyHolder(s', c, id, e)
    ensures b in s'.callers && s'.callers[b] == Waiting(id, e, true) && e in s'.orphans
  {
    LeadsNowhere(s);
    Queues(s, s, a, id, e);
    var s1 := Queued(s, a, id, e);
    Queues(s, s1, b, id, e);
    var s2 := Queued(s1, b, id, e);
    LeadsOn(s, s2, TimeOut(a));
    s' := Step(s2, TimeOut(a));
  }

  // ---------------------------------------------------------------------------------------------------------
  // The map itself

  /** LockManagerMap, one method per atomic action. `callers` and `orphans` record where its threads stand. */
  class LockManagerMap {
    var locks: map<string, nat>
    var entries: seq<Entry>
    var callers: Callers
    var orphans: multiset<nat>

    ghost function View(): State
      reads this
    {
      State(locks, entries, callers, orphans)
    }

    constructor ()
      ensures View() == EMPTY
    {
      locks, entries, callers, orphans := map[], [], map[], multiset{};
    }

    /** locks.LoadOrStore, on the first try or a later one. */
    method LoadOrStore(c: nat, id: string, timed: bool)
      requires c !in callers || (Enabled(View(), Reload(c)) && callers[c].id == id && callers[c].timed == timed)
      modifies this
      ensures View() == Step(old(View()), if c in old(callers) then Reload(c) else Action.Load(c, id, timed))
    {
      var tries := if c in callers then callers[c].tries else 0;
      if id !in locks {
        locks := locks[id := |entries|];
        entries := entries + [Entry(id, 0, false, Free)];
      }
      callers := callers[c := Loaded(id, locks[id], timed, tries)];
    }

    /** refCount.Add(1): with a count of more than one the recheck is skipped. */
    method CountIn(c: nat)
      requires Enabled(View(), Count(c))
      modifies this
      ensures View() == Step(old(View()), Count(c))
    {
      var p := callers[c];
      var currentRef := entries[p.e].refCount + 1;
      entries := entries[p.e := entries[p.e].(refCount := currentRef)];
      callers := callers[c := if currentRef <= 1 then Counted(p.id, p.e, p.timed, p.tries)
                              else Waiting(p.id, p.e, p.timed)];
    }

    /** The check that the ID is still in the map. */
    method RecheckId(c: nat)
      requires Enabled(View(), Recheck(c))
      modifies this
      ensures View() == Step(old(View()), Recheck(c))
    {
      var p := callers[c];
      callers := callers[c := if p.id in locks then Waiting(p.id, p.e, p.timed)
                              else Backing(p.id, p.e, p.timed, p.tries)];
    }

    /** The way back after a failed recheck: at most three tries, then lockMutex returns false. */
    method CountBack(c: nat) returns (retry: bool)
      requires Enabled(View(), BackOut(c))
      modifies this
      ensures View() == Step(old(View()), BackOut(c))
      ensures retry <==> old(callers[c].tries) + 1 < MAX_RETRIES
    {
      var p := callers[c];
      entries := entries[p.e := entries[p.e].(refCount := entries[p.e].refCount - 1)];
      retry := p.tries + 1 < MAX_RETRIES;
      if retry {
        callers := callers[c := Retrying(p.id, p.e, p.timed, p.tries + 1)];
      } else {
        callers := callers - {c};
      }
    }

    /** mutex.Lock, by the caller or its goroutine. */
    method LockEntry(c: nat)
      requires Enabled(View(), Action.Lock(c))
      modifies this
      ensures View() == Step(old(View()), Action.Lock(c))
    {
      var p := callers[c];
      entries := entries[p.e := entries[p.e].(owner := ByCaller(c))];
      callers := callers[c := Got(p.id, p.e, p.timed)];
    }

    /** isLocked.Store(true) */
    method MarkLocked(c: nat)
      requires Enabled(View(), Mark(c))
      modifies this
      ensures View() == Step(old(View()), Mark(c))
    {
      var p := callers[c];
      entries := entries[p.e := entries[p.e].(isLocked := true)];
      callers := callers[c := if p.timed then Granted(p.id, p.e) else Holding(p.id, p.e)];
    }

    /** The timer fires first: count out; `last` tells whether the ID has to be deleted. */
    method GiveUpWaiting(c: nat) returns (last: bool)
      requires Enabled(View(), Action.TimeOut(c))
      modifies this
      ensures View() == Step(old(View()), Action.TimeOut(c))
      ensures last <==> c in callers
    {
      var p := callers[c];
      var newCount := entries[p.e].refCount - 1;
      var owner := if p.Waiting? then entries[p.e].owner else ByOrphan;
      entries := entries[p.e := entries[p.e].(refCount := newCount, owner := owner)];
      if p.Waiting? { orphans := orphans + multiset{p.e}; }
      last := newCount == 0;
      if last {
        callers := callers[c := GaveUp(p.id, p.e)];
      } else {
        callers := callers - {c};
      }
    }

    /** locks.Load of unlockMutex: without an entry it returns. */
    method FindEntry(c: nat) returns (found: bool)
      requires Enabled(View(), Action.Find(c))
      modifies this
      ensures View() == Step(old(View()), Action.Find(c))
      ensures found <==> old(callers[c].id in locks)
    {
      var p := callers[c];
      found := p.id in locks;
      if found {
        callers := callers[c := Found(p.id, locks[p.id])];
      } else {
        callers := callers - {c};
      }
    }

    /** refCount.Add(-1) of unlockMutex */
    method CountOut(c: nat)
      requires Enabled(View(), Action.Discount(c))
      modifies this
      ensures View() == Step(old(View()), Action.Discount(c))
    {
      var p := callers[c];
      var newCount := entries[p.e].refCount - 1;
      entries := entries[p.e := entries[p.e].(refCount := newCount)];
      callers := callers[c := Discounted(p.id, p.e, newCount == 0)];
    }

    /** isLocked.Swap(false): only an entry that was marked is unlocked. */
    method SwapLocked(c: nat) returns (wasLocked: bool)
      requires Enabled(View(), Action.Swap(c))
      modifies this
      ensures View() == Step(old(View()), Action.Swap(c))
      ensures wasLocked == old(entries[callers[c].e].isLocked)
    {
      var p := callers[c];
      wasLocked := entries[p.e].isLocked;
      entries := entries[p.e := entries[p.e].(isLocked := false)];
      callers := Moved(callers, c, if wasLocked then Some(Swapped(p.id, p.e, p.last)) else Out(p));
    }

    /** mutex.Unlock */
    method UnlockEntry(c: nat)
      requires Enabled(View(), Action.Release(c))
      modifies this
      ensures View() == Step(old(View()), Action.Release(c))
    {
      var p := callers[c];
      entries := entries[p.e := entries[p.e].(owner := Free)];
      callers := Moved(callers, c, Out(p));
    }

    /** locks.Delete, after an unlock or a timeout that counted down to zero. */
    method DeleteId(c: nat)
      requires Enabled(View(), Action.Delete(c))
      modifies this
      ensures View() == Step(old(View()), Action.Delete(c))
    {
      locks := locks - {callers[c].id};
      callers := callers - {c};
    }

    /**
     * GetLockCount, while nobody is in the middle of entering or leaving: every count is the number of the ID's
     * callers.
     */
    method GetLockCount() returns (count: nat, refCounts: map<string, int>)
      requires Inv(View())
      ensures count == |locks| && refCounts.Keys == locks.Keys
      ensures forall id :: id in refCounts ==> |Interested(callers, id)| <= refCounts[id]
      ensures Quiet(View()) ==> forall id :: id in refCounts ==> refCounts[id] == |Interested(callers, id)|
    {
      ghost var s := View();
      forall id | id in locks
        ensures locks[id] < |entries| && |Interested(s.callers, id)| <= entries[locks[id]].refCount
        ensures Quiet(s) ==> |Interested(s.callers, id)| == entries[locks[id]].refCount
      {
        InterestedCount(s, id);
      }
      count, refCounts := CountEntries(locks, entries);
    }
  }

  /** The Range loop of GetLockCount. */
  method CountEntries(locks: map<string, nat>, entries: seq<Entry>) returns (count: nat, refCounts: map<string, int>)
    requires forall id :: id in locks ==> locks[id] < |entries|
    ensures count == |locks| && refCounts.Keys == locks.Keys
    ensures forall id :: id in locks ==> refCounts[id] == entries[locks[id]].refCount
  {
    count, refCounts := 0, map[];
    var todo := locks.Keys;
    while todo != {}
      invariant todo <= locks.Keys && count + |todo| == |locks.Keys|
      invariant forall id :: id in locks ==> (id in todo <==> id !in refCounts)
      invariant forall id :: id in refCounts ==> id in locks && refCounts[id] == entries[locks[id]].refCount
    {
      var key :| key in todo;
      count := count + 1;
      refCounts := refCounts[key := entries[locks[key]].refCount];
      todo := todo - {key};
    }
    assert |locks| == |locks.Keys|;
  }
}
