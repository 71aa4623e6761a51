/**
 * The cache under interleaved calls of the manager (manager.go): exactly which steps leave an entry whose file system
 * is gone, two ways in which that happens, and why it cannot happen to calls that do not overlap.
 */
module ThreadCache {
  import opened Strings
  import opened Collections
  import opened Tags
  import opened Threads
  import L = Lifecycle

  /** A deletion of the namespace is about to drop its entry. */
  ghost predicate BeingForgotten(s: System, ns: string) {
    exists t :: PcOf(s, t) == Forgetting(ns)
  }

  /** The file system is there and was created for the namespace, or the entry is about to go. */
  ghost predicate EntryOk(s: System, ns: string, id: string) {
    L.Owns(s.aws, ns, id) || BeingForgotten(s, ns)
  }

  ghost predicate CacheOk(s: System) {
    forall ns :: ns in s.cache ==> EntryOk(s, ns, s.cache[ns])
  }

  /** Deleting a file system leaves no entry on it behind, apart from namespace `but`. */
  ghost predicate Unreferenced(s: System, id: string, but: string) {
    forall ns :: ns in s.cache && s.cache[ns] == id && ns != but ==> BeingForgotten(s, ns)
  }

  /**
   * The condition: what a call stores is still there or about to be forgotten, what it deletes no other entry names,
   * and any other change of the cache brings in such entries only.
   */
  ghost predicate SoundStep(s: System, e: Event) {
    match e
    case Advance(t, l) => SoundAdvance(s, PcOf(s, t), l)
    case Recache(cache) => forall ns :: ns in cache ==> EntryOk(s, ns, cache[ns])
    case _ => true
  }

  ghost predicate SoundAdvance(s: System, pc: Pc, l: Luck) {
    match pc
    case Storing(ns, id, _) => EntryOk(s, ns, id)
    case Caching(ns, id) => EntryOk(s, ns, id)
    case Removing(ns, id) => l.ok ==> Unreferenced(s, id, ns)
    case Undoing(id) => l.ok ==> forall ns :: ns in s.cache && s.cache[ns] == id ==> BeingForgotten(s, ns)
    case _ => true
  }

  // ---------------------------------------------------------------------------------------------------------
  // Steps

  /** Which entries are about to be forgotten after a thread that was not forgetting has moved on. */
  lemma MoveForgets(s: System, s': System, t: nat, pc: Pc)
    requires s'.threads == s.threads[t := pc] && !PcOf(s, t).Forgetting?
    ensures forall ns :: BeingForgotten(s', ns) <==> BeingForgotten(s, ns) || pc == Forgetting(ns)
  {
    forall ns ensures BeingForgotten(s', ns) <==> BeingForgotten(s, ns) || pc == Forgetting(ns) {
      if BeingForgotten(s, ns) {
        var u :| PcOf(s, u) == Forgetting(ns);
        assert PcOf(s', u) == Forgetting(ns);
      }
      if pc == Forgetting(ns) { assert PcOf(s', t) == Forgetting(ns); }
      if BeingForgotten(s', ns) {
        var u :| PcOf(s', u) == Forgetting(ns);
        assert u != t ==> PcOf(s, u) == Forgetting(ns);
      }
    }
  }

  /** A step that changes neither the cache nor who owns what keeps the cache as it is. */
  lemma PlainKeeps(s: System, s': System, t: nat, pc: Pc)
    requires CacheOk(s) && s'.cache == s.cache && s'.threads == s.threads[t := pc] && !PcOf(s, t).Forgetting?
    requires forall ns, id :: L.Owns(s.aws, ns, id) ==> L.Owns(s'.aws, ns, id)
    ensures CacheOk(s')
  {
    MoveForgets(s, s', t, pc);
    forall ns | ns in s'.cache ensures EntryOk(s', ns, s'.cache[ns]) { assert EntryOk(s, ns, s.cache[ns]); }
  }

  lemma StoreExactly(s: System, s': System, t: nat, pc: Pc, ns: string, id: string)
    requires CacheOk(s) && s' == At(s.(cache := s.cache[ns := id]), t, pc) && !PcOf(s, t).Forgetting? && !pc.Forgetting?
    ensures CacheOk(s') <==> EntryOk(s, ns, id)
  {
    MoveForgets(s, s', t, pc);
    assert EntryOk(s', ns, s'.cache[ns]) <==> EntryOk(s, ns, id);
    forall n | n in s.cache && n != ns ensures EntryOk(s', n, s'.cache[n]) { assert EntryOk(s, n, s.cache[n]); }
  }

  lemma RemoveExactly(s: System, s': System, t: nat, ns: string, id: string)
    requires CacheOk(s) && s' == At(s.(aws := s.aws - {id}), t, Forgetting(ns)) && !PcOf(s, t).Forgetting?
    ensures CacheOk(s') <==> Unreferenced(s, id, ns)
  {
    MoveForgets(s, s', t, Forgetting(ns));
    forall n | n in s.cache
      ensures EntryOk(s', n, s.cache[n]) <==> n == ns || s.cache[n] != id || BeingForgotten(s, n)
    {
      assert EntryOk(s, n, s.cache[n]);
    }
  }

  lemma UndoExactly(s: System, s': System, t: nat, id: string)
    requires CacheOk(s) && s' == At(s.(aws := s.aws - {id}), t, Leaving) && !PcOf(s, t).Forgetting?
    ensures CacheOk(s') <==> forall ns :: ns in s.cache && s.cache[ns] == id ==> BeingForgotten(s, ns)
  {
    MoveForgets(s, s', t, Leaving);
    forall n | n in s.cache ensures EntryOk(s', n, s.cache[n]) <==> s.cache[n] != id || BeingForgotten(s, n) {
      assert EntryOk(s, n, s.cache[n]);
    }
  }

  lemma ForgetKeeps(s: System, s': System, t: nat, ns: string)
    requires CacheOk(s) && PcOf(s, t) == Forgetting(ns) && s' == At(s.(cache := s.cache - {ns}), t, Idle)
    ensures CacheOk(s')
  {
    forall n | n in s'.cache ensures EntryOk(s', n, s'.cache[n]) {
      assert EntryOk(s, n, s.cache[n]);
      StillForgotten(s, s', t, ns, n);
    }
  }

  lemma StillForgotten(s: System, s': System, t: nat, ns: string, n: string)
    requires PcOf(s, t) == Forgetting(ns) && s'.threads == s.threads[t := Idle] && n != ns
    ensures BeingForgotten(s, n) ==> BeingForgotten(s', n)
  {
    if BeingForgotten(s, n) {
      var u :| PcOf(s, u) == Forgetting(n);
      assert PcOf(s', u) == Forgetting(n);
    }
  }

  lemma CreateStepExactly(s: System, t: nat, l: Luck)
    requires CacheOk(s) && l.id !in s.aws
    requires PcOf(s, t).Arrived? || PcOf(s, t).Queued? || Critical(PcOf(s, t))
    ensures CacheOk(CreateStep(s, t, PcOf(s, t), l)) <==> SoundAdvance(s, PcOf(s, t), l)
  {
    var pc, s' := PcOf(s, t), CreateStep(s, t, PcOf(s, t), l);
    match pc
    case Caching(ns, id) => StoreExactly(s, s', t, Leaving, ns, id);
    case Undoing(id) => if l.ok { UndoExactly(s, s', t, id); } else { PlainKeeps(s, s', t, Leaving); }
    case Queued(_, _) => if s.mutex.None? { PlainKeeps(s, s', t, PcOf(s', t)); }
    case _ => PlainKeeps(s, s', t, PcOf(s', t));
  }

  lemma OtherStepExactly(s: System, t: nat, l: Luck)
    requires CacheOk(s) && !PcOf(s, t).Arrived? && !PcOf(s, t).Queued? && !Critical(PcOf(s, t))
    ensures CacheOk(OtherStep(s, t, PcOf(s, t), l)) <==> SoundAdvance(s, PcOf(s, t), l)
  {
    var pc, s' := PcOf(s, t), OtherStep(s, t, PcOf(s, t), l);
    match pc
    case Idle =>
    case Storing(ns, id, toDelete) => StoreExactly(s, s', t, PcOf(s', t), ns, id);
    case Removing(ns, id) => if l.ok { RemoveExactly(s, s', t, ns, id); } else { PlainKeeps(s, s', t, Idle); }
    case Forgetting(ns) => ForgetKeeps(s, s', t, ns);
    case _ => PlainKeeps(s, s', t, PcOf(s', t));
  }

  /** A step keeps every entry of the cache true, or about to be forgotten, exactly if it is sound. */
  lemma StepExactly(s: System, e: Event)
    requires CacheOk(s) && Possible(s, e)
    ensures CacheOk(Next(s, e)) <==> SoundStep(s, e)
  {
    match e
    case Advance(t, l) =>
      var pc := PcOf(s, t);
      if pc.Arrived? || pc.Queued? || Critical(pc) { CreateStepExactly(s, t, l); } else { OtherStepExactly(s, t, l); }
    case Recache(cache) => RecacheExactly(s, cache);
    case _ => PlainKeeps(s, Next(s, e), e.t, PcOf(Next(s, e), e.t));
  }

  lemma RecacheExactly(s: System, cache: map<string, string>)
    ensures CacheOk(s.(cache := cache)) <==> forall ns :: ns in cache ==> EntryOk(s, ns, cache[ns])
  {
    var s' := s.(cache := cache);
    forall ns ensures BeingForgotten(s', ns) <==> BeingForgotten(s, ns) {
      if BeingForgotten(s, ns) { var u :| PcOf(s, u) == Forgetting(ns); assert PcOf(s', u) == Forgetting(ns); }
      if BeingForgotten(s', ns) { var u :| PcOf(s', u) == Forgetting(ns); assert PcOf(s, u) == Forgetting(ns); }
    }
    forall ns | ns in cache ensures EntryOk(s', ns, cache[ns]) <==> EntryOk(s, ns, cache[ns]) {}
  }

  // ---------------------------------------------------------------------------------------------------------
  // Runs

  lemma RunStep(s: System, events: seq<Event>, i: nat)
    requires i < |events|
    ensures Run(s, events[..i + 1]) == Next(Run(s, events[..i]), events[i])
  {
    assert events[..i + 1][..i] == events[..i];
  }

  ghost predicate AlwaysOk(s: System, events: seq<Event>) {
    forall i :: 0 <= i <= |events| ==> CacheOk(Run(s, events[..i]))
  }

  ghost predicate SoundRun(s: System, events: seq<Event>) {
    forall i :: 0 <= i < |events| ==> SoundStep(Run(s, events[..i]), events[i])
  }

  /** For every interleaving: the cache is right at every moment if and only if every step is sound. */
  lemma SoundExactly(s: System, events: seq<Event>)
    requires CacheOk(s) && RunPossible(s, events)
    ensures AlwaysOk(s, events) <==> SoundRun(s, events)
  {
    if AlwaysOk(s, events) {
      forall i | 0 <= i < |events| ensures SoundStep(Run(s, events[..i]), events[i]) {
        RunStep(s, events, i);
        assert CacheOk(Run(s, events[..i])) && CacheOk(Run(s, events[..i + 1]));
        StepExactly(Run(s, events[..i]), events[i]);
      }
    }
    if SoundRun(s, events) {
      forall i | 0 <= i <= |events| ensures CacheOk(Run(s, events[..i])) { SoundKeeps(s, events, i); }
    }
  }

  lemma {:induction false} SoundKeeps(s: System, events: seq<Event>, n: nat)
    requires CacheOk(s) && RunPossible(s, events) && SoundRun(s, events) && n <= |events|
    ensures CacheOk(Run(s, events[..n]))
  {
    if n == 0 {
      assert events[..0] == [];
    } else {
      SoundKeeps(s, events, n - 1);
      RunStep(s, events, n - 1);
      assert Possible(Run(s, events[..n - 1]), events[n - 1]);
      StepExactly(Run(s, events[..n - 1]), events[n - 1]);
    }
  }

  /** So after a sound run an entry that no deletion is about to forget names a file system of its namespace. */
  lemma SoundRunCache(s: System, events: seq<Event>, ns: string)
    requires CacheOk(s) && RunPossible(s, events) && SoundRun(s, events)
    requires var s' := Run(s, events); ns in s'.cache && forall t :: PcOf(s', t) != Forgetting(ns)
    ensures var s' := Run(s, events); L.Owns(s'.aws, ns, s'.cache[ns])
  {
    SoundKeeps(s, events, |events|);
    assert events[..|events|] == events;
    assert EntryOk(Run(s, events), ns, Run(s, events).cache[ns]);
  }

  // ---------------------------------------------------------------------------------------------------------
  // Calls that do not overlap

  ghost predicate AllIdle(s: System) {
    forall t :: PcOf(s, t).Idle?
  }

  /**
   * A call starts when no other is under way. Entries may expire at any time; any other change of the cache comes
   * between calls and brings in file systems of the right namespace.
   */
  ghost predicate OneAtATime(s: System, e: Event) {
    match e
    case Advance(_, _) => true
    case Recache(cache) =>
      || (forall ns :: ns in cache ==> ns in s.cache && cache[ns] == s.cache[ns])
      || (AllIdle(s) && forall ns :: ns in cache ==> L.Owns(s.aws, ns, cache[ns]))
    case _ => AllIdle(s)
  }

  ghost predicate Uncached(s: System, id: string) {
    forall ns :: ns in s.cache ==> s.cache[ns] != id
  }

  /** What the only call under way may rely on. */
  ghost predicate Alone(s: System, pc: Pc) {
    match pc
    case Waiting(ns, _, id) => L.Owns(s.aws, ns, id) && Uncached(s, id)
    case Tagging(ns, _, id) => L.Owns(s.aws, ns, id) && Uncached(s, id)
    case Naming(ns, _, id) => L.Owns(s.aws, ns, id) && Uncached(s, id)
    case Mounting(ns, id) => L.Owns(s.aws, ns, id) && Uncached(s, id)
    case Undoing(id) => Uncached(s, id)
    case Caching(ns, id) => L.Owns(s.aws, ns, id)
    case Storing(ns, id, _) => L.Owns(s.aws, ns, id)
    case Removing(ns, id) => L.Owns(s.aws, ns, id)
    case _ => true
  }

  /** At most one call is under way, and it has what it relies on. */
  ghost predicate Serial(s: System) {
    && CacheOk(s)
    && (forall t, u :: !PcOf(s, t).Idle? && !PcOf(s, u).Idle? ==> t == u)
    && (forall t :: Alone(s, PcOf(s, t)))
  }

  /** With thread `t` not forgetting anything, nothing is being forgotten. */
  lemma NothingForgotten(s: System, t: nat)
    requires Serial(s) && !PcOf(s, t).Idle? && !PcOf(s, t).Forgetting?
    ensures forall ns :: !BeingForgotten(s, ns)
    ensures forall ns :: ns in s.cache ==> L.Owns(s.aws, ns, s.cache[ns])
  {
    forall u ensures !PcOf(s, u).Forgetting? { assert u != t ==> PcOf(s, u).Idle?; }
    forall ns | ns in s.cache ensures L.Owns(s.aws, ns, s.cache[ns]) { assert EntryOk(s, ns, s.cache[ns]); }
  }

  lemma SerialSound(s: System, e: Event)
    requires Serial(s) && OneAtATime(s, e)
    ensures SoundStep(s, e)
  {
    match e
    case Advance(t, l) =>
      assert Alone(s, PcOf(s, t));
      if PcOf(s, t).Removing? { NothingForgotten(s, t); }
    case Recache(cache) =>
      forall ns | ns in cache ensures EntryOk(s, ns, cache[ns]) {
        assert ns in s.cache ==> EntryOk(s, ns, s.cache[ns]);
      }
    case _ =>
  }

  /** Only one thread moves, so it is enough to look at that one. */
  lemma SerialMoves(s: System, s': System, t: nat)
    requires Serial(s) && CacheOk(s') && (forall u :: u != t ==> PcOf(s', u) == PcOf(s, u))
    requires AllIdle(s) || !PcOf(s, t).Idle?
    requires Alone(s', PcOf(s', t))
    ensures Serial(s')
  {
    forall u ensures Alone(s', PcOf(s', u)) { assert u != t ==> PcOf(s', u).Idle?; }
  }

  lemma CreateAlone(s: System, t: nat, l: Luck)
    requires Inv(s) && Serial(s) && l.id !in s.aws
    requires PcOf(s, t).Arrived? || PcOf(s, t).Queued? || Critical(PcOf(s, t))
    ensures var s' := CreateStep(s, t, PcOf(s, t), l); Alone(s', PcOf(s', t))
  {
    assert Alone(s, PcOf(s, t));
    NothingForgotten(s, t);
    var s' := CreateStep(s, t, PcOf(s, t), l);
    if PcOf(s, t).Describing? && PcOf(s', t).Caching? {
      assert L.SoundFs(PcOf(s', t).id, s.aws[PcOf(s', t).id], s.cluster);
    }
  }

  lemma OtherAlone(s: System, t: nat, l: Luck)
    requires Inv(s) && Serial(s) && !PcOf(s, t).Arrived? && !PcOf(s, t).Queued? && !Critical(PcOf(s, t))
    ensures var s' := OtherStep(s, t, PcOf(s, t), l); Alone(s', PcOf(s', t))
  {
    assert Alone(s, PcOf(s, t));
    if PcOf(s, t).Checking? { NothingForgotten(s, t); }
    var s' := OtherStep(s, t, PcOf(s, t), l);
    if PcOf(s, t).LookingUp? && PcOf(s', t).Storing? {
      assert L.SoundFs(PcOf(s', t).id, s.aws[PcOf(s', t).id], s.cluster);
    }
  }

  lemma RecacheSerial(s: System, cache: map<string, string>)
    requires Serial(s) && OneAtATime(s, Recache(cache)) && CacheOk(s.(cache := cache))
    ensures Serial(s.(cache := cache))
  {
    var s' := s.(cache := cache);
    forall t ensures PcOf(s', t) == PcOf(s, t) && Alone(s', PcOf(s', t)) {
      assert Alone(s, PcOf(s, t));
    }
  }

  lemma SerialKeeps(s: System, e: Event)
    requires Inv(s) && Serial(s) && Possible(s, e) && OneAtATime(s, e)
    ensures SoundStep(s, e) && Serial(Next(s, e))
  {
    SerialSound(s, e);
    StepExactly(s, e);
    match e
    case Advance(t, l) =>
      AdvanceAlone(s, t, l);
      if !PcOf(s, t).Idle? { SerialMoves(s, Next(s, e), t); }
    case Recache(cache) => RecacheSerial(s, cache);
    case _ => SerialMoves(s, Next(s, e), e.t);
  }

  lemma AdvanceAlone(s: System, t: nat, l: Luck)
    requires Inv(s) && Serial(s) && l.id !in s.aws
    ensures var s' := Next(s, Advance(t, l));
            Alone(s', PcOf(s', t)) && forall u :: u != t ==> PcOf(s', u) == PcOf(s, u)
  {
    var pc := PcOf(s, t);
    if pc.Arrived? || pc.Queued? || Critical(pc) {
      CreateAlone(s, t, l);
      OthersStayCreate(s, t, l);
    } else {
      OtherAlone(s, t, l);
      OthersStayOther(s, t, l);
    }
  }

  lemma OthersStayCreate(x: System, t: nat, l: Luck)
    requires PcOf(x, t).Arrived? || PcOf(x, t).Queued? || Critical(PcOf(x, t))
    ensures var x' := CreateStep(x, t, PcOf(x, t), l); x' == x || x'.threads == x.threads[t := PcOf(x', t)]
  {
  }

  lemma OthersStayOther(x: System, t: nat, l: Luck)
    requires !PcOf(x, t).Arrived? && !PcOf(x, t).Queued? && !Critical(PcOf(x, t))
    ensures var x' := OtherStep(x, t, PcOf(x, t), l); x' == x || x'.threads == x.threads[t := PcOf(x', t)]
  {
  }

  ghost predicate SerialRun(s: System, events: seq<Event>) {
    forall i :: 0 <= i < |events| ==> OneAtATime(Run(s, events[..i]), events[i])
  }

  lemma {:induction false} SerialReached(s: System, events: seq<Event>, n: nat)
    requires Initial(s) && CacheOk(s) && RunPossible(s, events) && SerialRun(s, events) && n <= |events|
    ensures Inv(Run(s, events[..n])) && Serial(Run(s, events[..n]))
  {
    if n == 0 {
      assert events[..0] == [];
      InitialSerial(s);
    } else {
      SerialReached(s, events, n - 1);
      EventAt(s, events, n - 1);
      SerialNext(Run(s, events[..n - 1]), events[n - 1]);
    }
  }

  lemma InitialSerial(s: System)
    requires Initial(s) && CacheOk(s)
    ensures Inv(s) && Serial(s)
  {
    forall t: nat ensures ThreadOk(s, t) {}
  }

  lemma SerialNext(x: System, e: Event)
    requires Inv(x) && Serial(x) && Possible(x, e) && OneAtATime(x, e)
    ensures Inv(Next(x, e)) && Serial(Next(x, e))
  {
    SerialKeeps(x, e);
    NextKeeps(x, e);
  }

  lemma EventAt(s: System, events: seq<Event>, i: nat)
    requires RunPossible(s, events) && SerialRun(s, events) && i < |events|
    ensures Possible(Run(s, events[..i]), events[i]) && OneAtATime(Run(s, events[..i]), events[i])
    ensures Run(s, events[..i + 1]) == Next(Run(s, events[..i]), events[i])
  {
    RunStep(s, events, i);
  }

  /** Every run with one call at a time is sound, whatever fails. */
  lemma SerialIsSound(s: System, events: seq<Event>)
    requires Initial(s) && CacheOk(s) && RunPossible(s, events) && SerialRun(s, events)
    ensures SoundRun(s, events)
  {
    forall i | 0 <= i < |events| ensures SoundStep(Run(s, events[..i]), events[i]) {
      SerialReached(s, events, i);
      SerialSound(Run(s, events[..i]), events[i]);
    }
  }

  // ---------------------------------------------------------------------------------------------------------
  // Where calls overlap

  ghost predicate Reaches(s: System, s': System) {
    exists events :: RunPossible(s, events) && Run(s, events) == s'
  }

  lemma ReachesItself(s: System)
    ensures Reaches(s, s)
  {
    assert RunPossible(s, []) && Run(s, []) == s;
  }

  lemma ReachesNext(s: System, s': System, e: Event)
    requires Reaches(s, s') && Possible(s', e)
    ensures Reaches(s, Next(s', e))
  {
    var events :| RunPossible(s, events) && Run(s, events) == s';
    var more := events + [e];
    assert more[..|events|] == events;
    forall i | 0 <= i < |more| ensures Possible(Run(s, more[..i]), more[i]) {
      assert i < |events| ==> more[..i] == events[..i];
    }
    assert RunPossible(s, more) && Run(s, more) == Next(s', e);
  }

  /** The listing and the identifier that AWS would answer with in a state. */
  ghost predicate Answers(l: Luck, aws: L.Account) {
    L.Enumerates(l.order, aws) && l.id !in aws && l.id != "" && ':' !in l.id
  }

  /** A thread takes a step from `x` to `y`. */
  ghost predicate Goes(x: System, t: nat, l: Luck, y: System) {
    Answers(l, x.aws) && Next(x, Advance(t, l)) == y
  }

  lemma Then(s: System, x: System, t: nat, l: Luck, y: System)
    requires Reaches(s, x) && Goes(x, t, l, y)
    ensures Reaches(s, y)
  {
    ReachesNext(s, x, Advance(t, l));
  }

  lemma AtTwice(x: System, t: nat, p: Pc, q: Pc)
    ensures At(At(x, t, p), t, q) == At(x, t, q)
  {
    Overwritten(x.threads, t, p, q);
  }

  /** A thread at `p` takes its next step. */
  lemma OtherGoes(x: System, t: nat, p: Pc, l: Luck)
    requires !p.Arrived? && !p.Queued? && !Critical(p) && Answers(l, x.aws)
    ensures Goes(At(x, t, p), t, l, OtherStep(At(x, t, p), t, p, l))
  {
  }

  lemma CreateGoes(x: System, t: nat, p: Pc, l: Luck)
    requires (p.Arrived? || p.Queued? || Critical(p)) && Answers(l, x.aws)
    ensures Goes(At(x, t, p), t, l, CreateStep(At(x, t, p), t, p, l))
  {
  }

  lemma CheckGoes(x: System, t: nat, ns: string, toDelete: bool, l: Luck)
    requires ns !in x.cache && Answers(l, x.aws)
    ensures Goes(At(x, t, Checking(ns, toDelete)), t, l, At(x, t, LookingUp(ns, toDelete)))
  {
    OtherGoes(x, t, Checking(ns, toDelete), l);
    AtTwice(x, t, Checking(ns, toDelete), LookingUp(ns, toDelete));
  }

  lemma LookUpGoes(x: System, t: nat, ns: string, id: string, toDelete: bool, l: Luck)
    requires l.ok && Answers(l, x.aws) && L.FindIn(x.aws, x.cluster, ns, l.order) == Some(id)
    ensures Goes(At(x, t, LookingUp(ns, toDelete)), t, l, At(x, t, Storing(ns, id, toDelete)))
  {
    OtherGoes(x, t, LookingUp(ns, toDelete), l);
    AtTwice(x, t, LookingUp(ns, toDelete), Storing(ns, id, toDelete));
  }

  /** A thread that has missed the cache finds the file system. */
  lemma Finds(s: System, x: System, t: nat, ns: string, id: string, toDelete: bool, l: Luck)
    requires Reaches(s, At(x, t, Checking(ns, toDelete))) && ns !in x.cache
    requires l.ok && Answers(l, x.aws) && L.FindIn(x.aws, x.cluster, ns, l.order) == Some(id)
    ensures Reaches(s, At(x, t, Storing(ns, id, toDelete)))
  {
    CheckGoes(x, t, ns, toDelete, l);
    LookUpGoes(x, t, ns, id, toDelete, l);
    Then(s, At(x, t, Checking(ns, toDelete)), t, l, At(x, t, LookingUp(ns, toDelete)));
    Then(s, At(x, t, LookingUp(ns, toDelete)), t, l, At(x, t, Storing(ns, id, toDelete)));
  }

  lemma StoreGoes(x: System, t: nat, ns: string, id: string, toDelete: bool, l: Luck)
    requires Answers(l, x.aws)
    ensures Goes(At(x, t, Storing(ns, id, toDelete)), t, l,
                 At(x.(cache := x.cache[ns := id]), t, if toDelete then Removing(ns, id) else Idle))
  {
    OtherGoes(x, t, Storing(ns, id, toDelete), l);
    AtTwice(x.(cache := x.cache[ns := id]), t, Storing(ns, id, toDelete), if toDelete then Removing(ns, id) else Idle);
  }

  lemma RemoveGoes(x: System, t: nat, ns: string, id: string, l: Luck)
    requires l.ok && Answers(l, x.aws)
    ensures Goes(At(x, t, Removing(ns, id)), t, l, At(x.(aws := x.aws - {id}), t, Forgetting(ns)))
  {
    OtherGoes(x, t, Removing(ns, id), l);
    AtTwice(x.(aws := x.aws - {id}), t, Removing(ns, id), Forgetting(ns));
  }

  lemma ForgetGoes(x: System, t: nat, ns: string, l: Luck)
    requires Answers(l, x.aws)
    ensures Goes(At(x, t, Forgetting(ns)), t, l, At(x.(cache := x.cache - {ns}), t, Idle))
  {
    OtherGoes(x, t, Forgetting(ns), l);
    AtTwice(x.(cache := x.cache - {ns}), t, Forgetting(ns), Idle);
  }

  lemma CountGoes(x: System, t: nat, ns: string, l: Luck)
    requires l.ok && Answers(l, x.aws)
    ensures Goes(At(x, t, Counting(ns)), t, l, At(x, t, Checking(ns, true)))
  {
    OtherGoes(x, t, Counting(ns), l);
    AtTwice(x, t, Counting(ns), Checking(ns, true));
  }

  /** A deletion that meets no failure, from its start to its end. */
  lemma Deletes(s: System, x: System, t: nat, ns: string, id: string, l: Luck, l': Luck)
    requires Reaches(s, x) && PcOf(x, t) == Idle && ns != "" && ns !in x.cache && l.ok
    requires Answers(l, x.aws) && Answers(l', x.aws - {id}) && L.FindIn(x.aws, x.cluster, ns, l.order) == Some(id)
    ensures Reaches(s, At(x.(aws := x.aws - {id}), t, Idle))
  {
    ReachesNext(s, x, Delete(t, ns));
    CountGoes(x, t, ns, l);
    Then(s, At(x, t, Counting(ns)), t, l, At(x, t, Checking(ns, true)));
    Finds(s, x, t, ns, id, true, l);
    Removes(s, x, t, ns, id, l, l');
  }

  lemma Removes(s: System, x: System, t: nat, ns: string, id: string, l: Luck, l': Luck)
    requires Reaches(s, At(x, t, Storing(ns, id, true))) && ns !in x.cache && l.ok
    requires Answers(l, x.aws) && Answers(l', x.aws - {id})
    ensures Reaches(s, At(x.(aws := x.aws - {id}), t, Idle))
  {
    var y := x.(cache := x.cache[ns := id]);
    StoreGoes(x, t, ns, id, true, l);
    Then(s, At(x, t, Storing(ns, id, true)), t, l, At(y, t, Removing(ns, id)));
    RemoveGoes(y, t, ns, id, l);
    var z := y.(aws := x.aws - {id});
    Then(s, At(y, t, Removing(ns, id)), t, l, At(z, t, Forgetting(ns)));
    ForgetGoes(z, t, ns, l');
    assert x.cache[ns := id] - {ns} == x.cache;
    Then(s, At(z, t, Forgetting(ns)), t, l', At(x.(aws := x.aws - {id}), t, Idle));
  }

  /** Nothing is under way, and the cache has an entry for a file system that is gone. */
  ghost predicate LeftStale(s: System, ns: string, id: string) {
    AllIdle(s) && ns in s.cache && s.cache[ns] == id && id !in s.aws
  }

  /** Threads 0 and 1 are done, and this is what they left. */
  lemma EndsStale(s: System, x: System, ns: string, id: string)
    requires AllIdle(s) && x.threads == s.threads && id !in x.aws && ns in x.cache && x.cache[ns] == id
    ensures LeftStale(At(At(x, 1, Idle), 0, Idle), ns, id) && !CacheOk(At(At(x, 1, Idle), 0, Idle))
  {
    var s' := At(At(x, 1, Idle), 0, Idle);
    forall t ensures PcOf(s', t).Idle? { assert PcOf(s, t).Idle?; }
    assert !EntryOk(s', ns, s'.cache[ns]);
  }

  /** Two threads are moved in either order. */
  lemma Interchanged(x: System, t: nat, p: Pc, u: nat, q: Pc)
    requires t != u
    ensures At(At(x, t, p), u, q) == At(At(x, u, q), t, p)
  {
    assert x.threads[t := p][u := q] == x.threads[u := q][t := p];
  }

  /**
   * From every idle state any file system that can be found can end up deleted and cached for good, with both calls
   * over: a lookup sees it, a deletion removes it and clears the cache, and then the lookup stores what it saw.
   */
  lemma InterleavedLookupCachesDeleted(s: System, ns: string, id: string, l: Luck, l': Luck) returns (s': System)
    requires AllIdle(s) && ns != "" && ns !in s.cache && l.ok
    requires Answers(l, s.aws) && Answers(l', s.aws - {id}) && L.FindIn(s.aws, s.cluster, ns, l.order) == Some(id)
    ensures Reaches(s, s') && LeftStale(s', ns, id) && !CacheOk(s')
  {
    assert PcOf(s, 0).Idle? && PcOf(s, 1).Idle?;
    LookupAroundDeletion(s, ns, id, l, l');
    var x := s.(aws := s.aws - {id}, cache := s.cache[ns := id]);
    s' := At(At(x, 1, Idle), 0, Idle);
    EndsStale(s, x, ns, id);
  }

  lemma LookupAroundDeletion(s: System, ns: string, id: string, l: Luck, l': Luck)
    requires PcOf(s, 0).Idle? && PcOf(s, 1).Idle? && ns != "" && ns !in s.cache && l.ok
    requires Answers(l, s.aws) && Answers(l', s.aws - {id}) && L.FindIn(s.aws, s.cluster, ns, l.order) == Some(id)
    ensures Reaches(s, At(At(s.(aws := s.aws - {id}, cache := s.cache[ns := id]), 1, Idle), 0, Idle))
  {
    ReachesItself(s);
    ReachesNext(s, s, Lookup(0, ns));
    Finds(s, s, 0, ns, id, false, l);
    Deletes(s, At(s, 0, Storing(ns, id, false)), 1, ns, id, l, l');
    var x := s.(aws := s.aws - {id});
    Interchanged(x, 0, Storing(ns, id, false), 1, Idle);
    StoreGoes(At(x, 1, Idle), 0, ns, id, false, l');
    Then(s, At(At(x, 1, Idle), 0, Storing(ns, id, false)), 0, l',
         At(At(x.(cache := s.cache[ns := id]), 1, Idle), 0, Idle));
  }

  lemma QueueGoes(x: System, t: nat, ns: string, user: TagMap, l: Luck)
    requires ns !in x.cache && Answers(l, x.aws)
    ensures Goes(At(x, t, Arrived(ns, user)), t, l, At(x, t, Queued(ns, user)))
  {
    CreateGoes(x, t, Arrived(ns, user), l);
    AtTwice(x, t, Arrived(ns, user), Queued(ns, user));
  }

  lemma LockGoes(x: System, t: nat, ns: string, user: TagMap, l: Luck)
    requires x.mutex.None? && Answers(l, x.aws)
    ensures Goes(At(x, t, Queued(ns, user)), t, l, At(x.(mutex := Some(t)), t, Locked(ns, user)))
  {
    CreateGoes(x, t, Queued(ns, user), l);
    AtTwice(x.(mutex := Some(t)), t, Queued(ns, user), Locked(ns, user));
  }

  lemma RecheckGoes(x: System, t: nat, ns: string, user: TagMap, l: Luck)
    requires ns !in x.cache && Answers(l, x.aws)
    ensures Goes(At(x, t, Locked(ns, user)), t, l, At(x, t, Describing(ns, user)))
  {
    CreateGoes(x, t, Locked(ns, user), l);
    AtTwice(x, t, Locked(ns, user), Describing(ns, user));
  }

  lemma DescribeGoes(x: System, t: nat, ns: string, user: TagMap, l: Luck)
    requires l.ok && Answers(l, x.aws) && L.FindIn(x.aws, x.cluster, ns, l.order).None?
    ensures Goes(At(x, t, Describing(ns, user)), t, l, At(x, t, Creating(ns, user)))
  {
    CreateGoes(x, t, Describing(ns, user), l);
    AtTwice(x, t, Describing(ns, user), Creating(ns, user));
  }

  /** A creation up to the call that creates. */
  lemma CreationStarts(s: System, x: System, t: nat, ns: string, user: TagMap, l: Luck)
    requires Reaches(s, x) && PcOf(x, t) == Idle && x.mutex.None? && ns != "" && ns !in x.cache
    requires NamesNoOther(ns, x.cluster, user) && l.ok && Answers(l, x.aws)
    requires L.FindIn(x.aws, x.cluster, ns, l.order).None?
    ensures Reaches(s, At(x.(mutex := Some(t)), t, Creating(ns, user)))
  {
    var y := x.(mutex := Some(t));
    ReachesNext(s, x, Create(t, ns, user));
    QueueGoes(x, t, ns, user, l);
    Then(s, At(x, t, Arrived(ns, user)), t, l, At(x, t, Queued(ns, user)));
    LockGoes(x, t, ns, user, l);
    Then(s, At(x, t, Queued(ns, user)), t, l, At(y, t, Locked(ns, user)));
    RecheckGoes(y, t, ns, user, l);
    Then(s, At(y, t, Locked(ns, user)), t, l, At(y, t, Describing(ns, user)));
    DescribeGoes(y, t, ns, user, l);
    Then(s, At(y, t, Describing(ns, user)), t, l, At(y, t, Creating(ns, user)));
  }

  /** A state with one more file system. */
  function Grown(x: System, id: string, ns: string, tags: TagMap): (x': System) {
    x.(aws := x.aws[id := L.FileSystem(ns, tags)])
  }

  lemma MakeGoes(x: System, t: nat, ns: string, user: TagMap, l: Luck)
    requires l.ok && Answers(l, x.aws)
    ensures Goes(At(x, t, Creating(ns, user)), t, l, At(Grown(x, l.id, ns, map[]), t, Waiting(ns, user, l.id)))
  {
    CreateGoes(x, t, Creating(ns, user), l);
    AtTwice(Grown(x, l.id, ns, map[]), t, Creating(ns, user), Waiting(ns, user, l.id));
  }

  lemma WaitGoes(x: System, t: nat, ns: string, user: TagMap, id: string, l: Luck)
    requires l.ok && Answers(l, x.aws)
    ensures Goes(At(x, t, Waiting(ns, user, id)), t, l, At(x, t, Tagging(ns, user, id)))
  {
    CreateGoes(x, t, Waiting(ns, user, id), l);
    AtTwice(x, t, Waiting(ns, user, id), Tagging(ns, user, id));
  }

  lemma TagGoes(x: System, t: nat, ns: string, user: TagMap, id: string, l: Luck)
    requires l.ok && Answers(l, Grown(x, id, ns, map[]).aws)
    ensures Goes(At(Grown(x, id, ns, map[]), t, Tagging(ns, user, id)), t, l,
                 At(Grown(x, id, ns, Tagged(ns, x.cluster, user, true, false)), t, Naming(ns, user, id)))
  {
    var built := Built(ns, x.cluster, user);
    CreateGoes(Grown(x, id, ns, map[]), t, Tagging(ns, user, id), l);
    Retagged(x.aws, id, ns, map[], built);
    assert map[] + built == built;
    AtTwice(Grown(x, id, ns, built), t, Tagging(ns, user, id), Naming(ns, user, id));
  }

  lemma NameGoes(x: System, t: nat, ns: string, user: TagMap, id: string, l: Luck)
    requires l.ok && Answers(l, Grown(x, id, ns, map[]).aws)
    ensures Goes(At(Grown(x, id, ns, Tagged(ns, x.cluster, user, true, false)), t, Naming(ns, user, id)), t, l,
                 At(Grown(x, id, ns, Tagged(ns, x.cluster, user, true, true)), t, Mounting(ns, id)))
  {
    var some, all := Tagged(ns, x.cluster, user, true, false), Tagged(ns, x.cluster, user, true, true);
    CreateGoes(Grown(x, id, ns, some), t, Naming(ns, user, id), l);
    NamedTags(ns, x.cluster, user, true);
    Retagged(x.aws, id, ns, some, map[NAME_KEY := NameFor(ns, x.cluster)]);
    AtTwice(Grown(x, id, ns, all), t, Naming(ns, user, id), Mounting(ns, id));
  }

  lemma Retagged(aws: L.Account, id: string, ns: string, tags: TagMap, more: TagMap)
    ensures Retag(aws[id := L.FileSystem(ns, tags)], id, more, true) == aws[id := L.FileSystem(ns, tags + more)]
  {
    Overwritten(aws, id, L.FileSystem(ns, tags), L.FileSystem(ns, tags + more));
  }

  /** A creation from the call that creates to the mount targets. */
  lemma CreationNames(s: System, x: System, t: nat, ns: string, user: TagMap, l: Luck, l': Luck)
    requires Reaches(s, At(x, t, Creating(ns, user))) && l.ok && l'.ok
    requires Answers(l, x.aws) && Answers(l', Grown(x, l.id, ns, map[]).aws)
    ensures Reaches(s, At(Grown(x, l.id, ns, Tagged(ns, x.cluster, user, true, true)), t, Mounting(ns, l.id)))
  {
    var id, a := l.id, Grown(x, l.id, ns, map[]);
    var b := Grown(x, id, ns, Tagged(ns, x.cluster, user, true, false));
    MakeGoes(x, t, ns, user, l);
    Then(s, At(x, t, Creating(ns, user)), t, l, At(a, t, Waiting(ns, user, id)));
    WaitGoes(a, t, ns, user, id, l');
    Then(s, At(a, t, Waiting(ns, user, id)), t, l', At(a, t, Tagging(ns, user, id)));
    TagGoes(x, t, ns, user, id, l');
    Then(s, At(a, t, Tagging(ns, user, id)), t, l', At(b, t, Naming(ns, user, id)));
    NameGoes(x, t, ns, user, id, l');
    Then(s, At(b, t, Naming(ns, user, id)), t, l',
         At(Grown(x, id, ns, Tagged(ns, x.cluster, user, true, true)), t, Mounting(ns, id)));
  }

  lemma FailGoes(x: System, t: nat, ns: string, id: string, l: Luck)
    requires !l.ok && Answers(l, x.aws)
    ensures Goes(At(x, t, Mounting(ns, id)), t, l, At(x, t, Undoing(id)))
  {
    CreateGoes(x, t, Mounting(ns, id), l);
    AtTwice(x, t, Mounting(ns, id), Undoing(id));
  }

  lemma UndoGoes(x: System, t: nat, ns: string, id: string, tags: TagMap, l: Luck)
    requires id !in x.aws && l.ok && Answers(l, Grown(x, id, ns, tags).aws)
    ensures Goes(At(Grown(x, id, ns, tags), t, Undoing(id)), t, l, At(x, t, Leaving))
  {
    CreateGoes(Grown(x, id, ns, tags), t, Undoing(id), l);
    assert Grown(x, id, ns, tags).aws - {id} == x.aws;
    AtTwice(x, t, Undoing(id), Leaving);
  }

  lemma LeaveGoes(x: System, t: nat, l: Luck)
    requires Answers(l, x.aws)
    ensures Goes(At(x, t, Leaving), t, l, At(x.(mutex := None), t, Idle))
  {
    CreateGoes(x, t, Leaving, l);
    AtTwice(x.(mutex := None), t, Leaving, Idle);
  }

  /** The mount targets fail, and the cleanup deletes the file system again. */
  lemma CreationUndone(s: System, x: System, t: nat, ns: string, id: string, tags: TagMap, l: Luck, l': Luck)
    requires id !in x.aws && Reaches(s, At(Grown(x, id, ns, tags), t, Mounting(ns, id)))
    requires Answers(l, x.aws) && Answers(l', Grown(x, id, ns, tags).aws) && l'.ok
    ensures Reaches(s, At(x.(mutex := None), t, Idle))
  {
    var a, failed := Grown(x, id, ns, tags), l'.(ok := false);
    FailGoes(a, t, ns, id, failed);
    Then(s, At(a, t, Mounting(ns, id)), t, failed, At(a, t, Undoing(id)));
    UndoGoes(x, t, ns, id, tags, l');
    Then(s, At(a, t, Undoing(id)), t, l', At(x, t, Leaving));
    LeaveGoes(x, t, l);
    Then(s, At(x, t, Leaving), t, l, At(x.(mutex := None), t, Idle));
  }

  /** The new file system is the only one to be found for its namespace. */
  lemma OnlyOne(aws: L.Account, cluster: string, ns: string, user: TagMap, id: string, order: seq<string>)
    requires forall a :: !L.Seen(aws, cluster, ns, a)
    requires L.Enumerates(order, aws[id := L.FileSystem(ns, Tagged(ns, cluster, user, true, true))])
    ensures L.FindIn(aws[id := L.FileSystem(ns, Tagged(ns, cluster, user, true, true))], cluster, ns, order) == Some(id)
  {
    var after := aws[id := L.FileSystem(ns, Tagged(ns, cluster, user, true, true))];
    FindableExactly(ns, cluster, user, true, true, ns);
    assert id in order && L.Seen(after, cluster, ns, id);
    forall a | L.Seen(after, cluster, ns, a) ensures a == id { assert a != id ==> L.Seen(aws, cluster, ns, a); }
  }

  /**
   * The other way, without any deletion: a lookup stores a file system that is still being created, its mount targets
   * fail, and the cleanup of the creation deletes it without looking at the cache.
   */
  lemma UndoneCreationStaysCached(s: System, ns: string, user: TagMap, l: Luck, l': Luck) returns (s': System)
    requires AllIdle(s) && s.mutex.None? && ns != "" && ns !in s.cache && NamesNoOther(ns, s.cluster, user)
    requires l.ok && l'.ok && Answers(l, s.aws) && Answers(l', Grown(s, l.id, ns, map[]).aws)
    requires forall a :: !L.Seen(s.aws, s.cluster, ns, a)
    ensures Reaches(s, s') && LeftStale(s', ns, l.id) && !CacheOk(s')
  {
    assert PcOf(s, 0).Idle? && PcOf(s, 1).Idle?;
    LookupDuringCreation(s, ns, user, l, l');
    var x := s.(cache := s.cache[ns := l.id]);
    s' := At(At(x, 1, Idle), 0, Idle);
    EndsStale(s, x, ns, l.id);
  }

  lemma LookupDuringCreation(s: System, ns: string, user: TagMap, l: Luck, l': Luck)
    requires PcOf(s, 0).Idle? && PcOf(s, 1).Idle?
    requires s.mutex.None? && ns != "" && ns !in s.cache && NamesNoOther(ns, s.cluster, user)
    requires l.ok && l'.ok && Answers(l, s.aws) && Answers(l', Grown(s, l.id, ns, map[]).aws)
    requires forall a :: !L.Seen(s.aws, s.cluster, ns, a)
    ensures Reaches(s, At(At(s.(cache := s.cache[ns := l.id]), 1, Idle), 0, Idle))
  {
    var id, tags, x := l.id, Tagged(ns, s.cluster, user, true, true), s.(mutex := Some(0));
    ReachesItself(s);
    CreationStarts(s, s, 0, ns, user, l);
    CreationNames(s, x, 0, ns, user, l, l');
    LookupMeanwhile(s, x, ns, user, id, l');
    var y := At(x.(cache := s.cache[ns := id]), 1, Idle);
    SameAnswers(s, l', id, ns, map[], tags);
    CreationUndone(s, y, 0, ns, id, tags, l, l');
  }

  lemma SameAnswers(x: System, l: Luck, id: string, ns: string, a: TagMap, b: TagMap)
    ensures Answers(l, Grown(x, id, ns, a).aws) <==> Answers(l, Grown(x, id, ns, b).aws)
  {
  }

  /** While thread 0 makes mount targets, thread 1 looks the new file system up. */
  lemma LookupMeanwhile(s: System, x: System, ns: string, user: TagMap, id: string, l: Luck)
    requires PcOf(x, 1) == Idle && ns != "" && ns !in x.cache && l.ok && Answers(l, Grown(x, id, ns, map[]).aws)
    requires forall a :: !L.Seen(x.aws, x.cluster, ns, a)
    requires Reaches(s, At(Grown(x, id, ns, Tagged(ns, x.cluster, user, true, true)), 0, Mounting(ns, id)))
    ensures Reaches(s, At(Grown(At(x.(cache := x.cache[ns := id]), 1, Idle), id, ns,
                                Tagged(ns, x.cluster, user, true, true)), 0, Mounting(ns, id)))
  {
    var g := Grown(x, id, ns, Tagged(ns, x.cluster, user, true, true));
    var y := At(g, 0, Mounting(ns, id));
    ReachesNext(s, y, Lookup(1, ns));
    OnlyOne(x.aws, x.cluster, ns, user, id, l.order);
    Finds(s, y, 1, ns, id, false, l);
    StoreGoes(y, 1, ns, id, false, l);
    Then(s, At(y, 1, Storing(ns, id, false)), 1, l, At(y.(cache := x.cache[ns := id]), 1, Idle));
    Interchanged(g.(cache := x.cache[ns := id]), 0, Mounting(ns, id), 1, Idle);
  }
}
