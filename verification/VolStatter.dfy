/** Accounting of background volume-usage jobs per file system (vol_statter.go). */
module VolStatter {
  import opened Strings
  import opened Numbers
  import opened Collections
  import VolumeIds

  type Usage = nat

  /** The package variables, and the volumes whose goroutine has not returned yet. */
  datatype State = State(usageCache: map<string, Usage>, tracked: set<string>,
                         limiter: map<string, int>, running: set<string>)

  const EMPTY := State(map[], {}, map[], {})

  /** The file system a volume belongs to; "" when the volume ID is not accepted. */
  function FsOf(volId: string): (fs: string) {
    var p := VolumeIds.ParseAp(volId);
    if p.Some? then p.value.fileSystemId else ""
  }

  /** The tracked jobs of one file system. */
  function Jobs(tracked: set<string>, fs: string): (jobs: set<string>) {
    set v | v in tracked && FsOf(v) == fs
  }

  /** The jobs that failed: still tracked, no goroutine left to release them. */
  function Leaked(s: State, fs: string): (jobs: set<string>) {
    Jobs(s.tracked - s.running, fs)
  }

  /** canStatFS */
  predicate CanStat(limiter: map<string, int>, fs: string, limit: int) {
    fs in limiter ==> limiter[fs] < limit
  }

  datatype Action =
    | Launch(volId: string)
    | Complete(volId: string, usage: Usage)
    | FailJob(volId: string)
    | Evict(volId: string)

  predicate Starts(s: State, volId: string, limit: int) {
    VolumeIds.ParseAp(volId).Some? && volId !in s.tracked && CanStat(s.limiter, FsOf(volId), limit)
  }

  /** A goroutine step can only be taken by a goroutine that exists. */
  predicate Enabled(s: State, a: Action) {
    (a.Complete? || a.FailJob?) ==> a.volId in s.running
  }

  function Step(s: State, a: Action, limit: int): (s': State)
    requires Enabled(s, a)
  {
    match a
    case Launch(v) =>
      var fs := FsOf(v);
      if Starts(s, v, limit) then
        s.(tracked := s.tracked + {v}, running := s.running + {v},
           limiter := s.limiter[fs := if fs in s.limiter then s.limiter[fs] + 1 else 1])
      else s
    case Complete(v, usage) =>
      var fs := FsOf(v);
      s.(usageCache := s.usageCache[v := usage], tracked := s.tracked - {v}, running := s.running - {v},
         limiter := if fs in s.limiter && s.limiter[fs] > 0 then s.limiter[fs := s.limiter[fs] - 1] else s.limiter)
    case FailJob(v) => s.(running := s.running - {v})
    case Evict(v) => s.(usageCache := s.usageCache - {v})
  }

  function Slots(s: State, fs: string): (n: int) {
    if fs in s.limiter then s.limiter[fs] else 0
  }

  /** Every counter is the number of tracked jobs of its file system, and within the limit. */
  ghost predicate Inv(s: State, limit: int) {
    && s.running <= s.tracked
    && (forall v :: v in s.tracked ==> VolumeIds.ParseAp(v).Some?)
    && (forall fs :: Slots(s, fs) == |Jobs(s.tracked, fs)|)
    && (forall fs :: Slots(s, fs) <= Max(1, limit))
  }

  lemma JobsAdd(tracked: set<string>, v: string, fs: string)
    requires v !in tracked
    ensures |Jobs(tracked + {v}, fs)| == |Jobs(tracked, fs)| + if FsOf(v) == fs then 1 else 0
  {
    if FsOf(v) == fs {
      assert Jobs(tracked + {v}, fs) == Jobs(tracked, fs) + {v};
    } else {
      assert Jobs(tracked + {v}, fs) == Jobs(tracked, fs);
    }
  }

  /** The positive-count guard on the decrement always holds for a goroutine that finishes. */
  lemma DecrementGuard(s: State, limit: int, v: string)
    requires Inv(s, limit) && v in s.running
    ensures FsOf(v) in s.limiter && s.limiter[FsOf(v)] > 0
  {
    assert v in Jobs(s.tracked, FsOf(v));
    assert Slots(s, FsOf(v)) == |Jobs(s.tracked, FsOf(v))|;
  }

  lemma StepKeepsInv(s: State, a: Action, limit: int)
    requires Inv(s, limit) && Enabled(s, a)
    ensures Inv(Step(s, a, limit), limit)
  {
    var s' := Step(s, a, limit);
    match a
    case Launch(v) =>
      if Starts(s, v, limit) {
        forall fs ensures Slots(s', fs) == |Jobs(s'.tracked, fs)| <= Max(1, limit) {
          JobsAdd(s.tracked, v, fs);
          assert Slots(s, fs) == |Jobs(s.tracked, fs)|;
        }
      }
    case Complete(v, usage) =>
      DecrementGuard(s, limit, v);
      forall fs ensures Slots(s', fs) == |Jobs(s'.tracked, fs)| <= Max(1, limit) {
        JobsAdd(s.tracked - {v}, v, fs);
        assert s.tracked - {v} + {v} == s.tracked;
        assert Slots(s, fs) == |Jobs(s.tracked, fs)| <= Max(1, limit);
      }
    case FailJob(v) =>
      assert forall fs :: Slots(s', fs) == Slots(s, fs);
    case Evict(v) =>
      assert forall fs :: Slots(s', fs) == Slots(s, fs);
  }

  /** A job that fails has no goroutine any more, stays tracked and gives back no slot. */
  lemma FailureLeaks(s: State, v: string, limit: int)
    requires Inv(s, limit) && v in s.running
    ensures var s' := Step(s, FailJob(v), limit);
            && v !in s'.running && Leaked(s', FsOf(v)) == Leaked(s, FsOf(v)) + {v}
            && s'.tracked == s.tracked && s'.limiter == s.limiter && s'.usageCache == s.usageCache
  {
  }

  /** `trace` is a run: consecutive states are related by enabled actions. */
  ghost predicate IsRun(trace: seq<State>, actions: seq<Action>, limit: int) {
    && |trace| == |actions| + 1
    && forall i :: 0 <= i < |actions| ==>
         Enabled(trace[i], actions[i]) && trace[i + 1] == Step(trace[i], actions[i], limit)
  }

  /** In every run the counters are exact and bounded. */
  lemma {:induction false} RunKeepsInv(trace: seq<State>, actions: seq<Action>, limit: int)
    requires IsRun(trace, actions, limit) && Inv(trace[0], limit)
    ensures forall i :: 0 <= i < |trace| ==> Inv(trace[i], limit)
  {
    var n := |actions|;
    if n > 0 {
      RunKeepsInv(trace[..n], actions[..n - 1], limit);
      assert Inv(trace[..n][n - 1], limit);
      StepKeepsInv(trace[n - 1], actions[n - 1], limit);
    }
  }

  lemma EmptyInv(limit: int)
    ensures Inv(EMPTY, limit)
  {
    forall fs ensures Slots(EMPTY, fs) == |Jobs(EMPTY.tracked, fs)| {
      assert Jobs({}, fs) == {};
    }
  }

  /** A launch starts a job exactly when the volume has none and its file system has a free slot (or no slot yet). */
  lemma LaunchDecision(s: State, v: string, limit: int)
    requires Inv(s, limit) && VolumeIds.ParseAp(v).Some?
    ensures v in Step(s, Launch(v), limit).running && v !in s.running
            <==> v !in s.tracked && (FsOf(v) !in s.limiter || |Jobs(s.tracked, FsOf(v))| < limit)
  {
    assert Slots(s, FsOf(v)) == |Jobs(s.tracked, FsOf(v))|;
  }

  /** A failed job is never released: its volume stays leaked whatever happens later. */
  lemma {:induction false} LeakedForever(trace: seq<State>, actions: seq<Action>, limit: int, fs: string)
    requires IsRun(trace, actions, limit) && Inv(trace[0], limit)
    ensures Leaked(trace[0], fs) <= Leaked(trace[|actions|], fs)
  {
    var n := |actions|;
    if n > 0 {
      LeakedForever(trace[..n], actions[..n - 1], limit, fs);
      RunKeepsInv(trace, actions, limit);
      assert trace[..n][0] == trace[0] && trace[..n][n - 1] == trace[n - 1];
      assert Leaked(trace[n - 1], fs) <= Leaked(trace[n], fs);
    }
  }

  predicate Touches(a: Action, v: string) {
    (a.Complete? || a.Evict?) && a.volId == v
  }

  /** What is known of a volume's usage. */
  function UsageOf(s: State, v: string): (u: Option<Usage>) {
    if v in s.usageCache then Some(s.usageCache[v]) else None
  }

  lemma {:induction false} UsageStays(trace: seq<State>, actions: seq<Action>, limit: int, v: string, from: nat,
                                      to: nat)
    requires IsRun(trace, actions, limit) && from <= to <= |actions|
    requires forall i :: from <= i < to ==> !Touches(actions[i], v)
    ensures UsageOf(trace[to], v) == UsageOf(trace[from], v)
  {
    if from < to {
      UsageStays(trace, actions, limit, v, from, to - 1);
      UsageStep(trace[to - 1], actions[to - 1], limit, v);
    }
  }

  /** It is what the volume's last completed job found, unless it has been evicted since. */
  lemma UsageIsLastCompleted(trace: seq<State>, actions: seq<Action>, limit: int, v: string, last: nat)
    requires IsRun(trace, actions, limit) && last < |actions| && Touches(actions[last], v)
    requires forall i :: last < i < |actions| ==> !Touches(actions[i], v)
    ensures UsageOf(trace[|actions|], v) == if actions[last].Complete? then Some(actions[last].usage) else None
  {
    UsageStep(trace[last], actions[last], limit, v);
    UsageStays(trace, actions, limit, v, last + 1, |actions|);
  }

  lemma UsageStep(s: State, a: Action, limit: int, v: string)
    requires Enabled(s, a)
    ensures UsageOf(Step(s, a, limit), v)
            == if !Touches(a, v) then UsageOf(s, v) else if a.Complete? then Some(a.usage) else None
  {
  }

  /** A counter stays in the map once it is there, also at zero. */
  lemma {:induction false} CounterStays(trace: seq<State>, actions: seq<Action>, limit: int, fs: string)
    requires IsRun(trace, actions, limit) && fs in trace[0].limiter
    ensures fs in trace[|actions|].limiter
  {
    var n := |actions|;
    if n > 0 {
      CounterStays(trace[..n], actions[..n - 1], limit, fs);
      assert trace[..n][0] == trace[0] && trace[..n][n - 1] == trace[n - 1];
    }
  }

  /** The condition: the volume's own job has failed, or the file system has a counter and too many failed jobs. */
  predicate Blocked(s: State, v: string, limit: int) {
    v in Leaked(s, FsOf(v)) || (FsOf(v) in s.limiter && |Leaked(s, FsOf(v))| >= limit)
  }

  /** A blocked volume gets no job, in any run. */
  lemma LeakedSlotsBlock(trace: seq<State>, actions: seq<Action>, limit: int, v: string)
    requires IsRun(trace, actions, limit) && Inv(trace[0], limit) && Blocked(trace[0], v, limit)
    ensures !Starts(trace[|actions|], v, limit)
  {
    var fs, last := FsOf(v), trace[|actions|];
    LeakedForever(trace, actions, limit, fs);
    if v !in Leaked(trace[0], fs) {
      CounterStays(trace, actions, limit, fs);
      RunKeepsInv(trace, actions, limit);
      assert Leaked(last, fs) <= Jobs(last.tracked, fs);
      SubsetSize(Leaked(trace[0], fs), Jobs(last.tracked, fs));
      assert Slots(last, fs) == |Jobs(last.tracked, fs)|;
    }
  }

  /** No run from `s` gets to a state in which a job for the volume starts. */
  ghost predicate NeverStarts(s: State, v: string, limit: int) {
    forall trace, actions :: IsRun(trace, actions, limit) && trace[0] == s ==> !Starts(trace[|actions|], v, limit)
  }

  /** A job of the file system completes: what has leaked and which counters there are stays the same. */
  lemma CompleteKeeps(s: State, v: string, limit: int)
    requires Inv(s, limit) && v in s.running
    ensures var s', fs := Step(s, Complete(v, 0), limit), FsOf(v);
            && Inv(s', limit) && Leaked(s', fs) == Leaked(s, fs) && s'.limiter.Keys == s.limiter.Keys
            && Jobs(s'.running, fs) == Jobs(s.running, fs) - {v}
  {
    StepKeepsInv(s, Complete(v, 0), limit);
    DecrementGuard(s, limit, v);
    assert s.tracked - {v} - (s.running - {v}) == s.tracked - s.running;
  }

  /** With none of its jobs running, a file system counts exactly the failed ones. */
  lemma NoneRunningStarts(s: State, v: string, limit: int)
    requires Inv(s, limit) && VolumeIds.ParseAp(v).Some? && !Blocked(s, v, limit) && Jobs(s.running, FsOf(v)) == {}
    ensures Starts(s, v, limit)
  {
    var fs := FsOf(v);
    assert Jobs(s.tracked, fs) == Leaked(s, fs) by {
      forall w | w in Jobs(s.tracked, fs) ensures w in Leaked(s, fs) {
        assert w in s.running ==> w in Jobs(s.running, fs);
      }
    }
    assert Slots(s, fs) == |Jobs(s.tracked, fs)|;
  }

  lemma StartingRun(s: State, a: Action, limit: int, trace: seq<State>, actions: seq<Action>)
    requires Enabled(s, a) && IsRun(trace, actions, limit) && trace[0] == Step(s, a, limit)
    ensures IsRun([s] + trace, [a] + actions, limit)
  {
    var t, n := [s] + trace, [a] + actions;
    forall i | 0 <= i < |n| ensures Enabled(t[i], n[i]) && t[i + 1] == Step(t[i], n[i], limit) {
      if i > 0 { assert t[i] == trace[i - 1] && t[i + 1] == trace[i] && n[i] == actions[i - 1]; }
    }
  }

  /** A volume that is not blocked: once the running jobs of its file system have completed, its job starts. */
  lemma {:induction false} Unblocks(s: State, v: string, limit: int) returns (trace: seq<State>, actions: seq<Action>)
    requires Inv(s, limit) && VolumeIds.ParseAp(v).Some? && !Blocked(s, v, limit)
    ensures IsRun(trace, actions, limit) && trace[0] == s && Starts(trace[|actions|], v, limit)
    decreases |Jobs(s.running, FsOf(v))|
  {
    var jobs := Jobs(s.running, FsOf(v));
    if jobs == {} {
      NoneRunningStarts(s, v, limit);
      trace, actions := [s], [];
    } else {
      var w :| w in jobs;
      CompleteKeeps(s, w, limit);
      var rest, more := Unblocks(Step(s, Complete(w, 0), limit), v, limit);
      StartingRun(s, Complete(w, 0), limit, rest, more);
      trace, actions := [s] + rest, [Complete(w, 0)] + more;
      assert trace[|actions|] == rest[|more|];
    }
  }

  /** A volume never gets a job again, in any run, if and only if it is blocked. */
  lemma NeverStartsExactly(s: State, v: string, limit: int)
    requires Inv(s, limit) && VolumeIds.ParseAp(v).Some?
    ensures NeverStarts(s, v, limit) <==> Blocked(s, v, limit)
  {
    if Blocked(s, v, limit) {
      forall trace, actions | IsRun(trace, actions, limit) && trace[0] == s
        ensures !Starts(trace[|actions|], v, limit)
      {
        LeakedSlotsBlock(trace, actions, limit, v);
      }
    } else {
      var trace, actions := Unblocks(s, v, limit);
    }
  }

  /**
   * With a limit of zero or less the first job of a file system, whether it fails or completes, is its last: its
   * counter is in the map from then on and never below the limit.
   */
  lemma ZeroLimitBlocksExactly(s: State, v: string, limit: int)
    requires Inv(s, limit) && VolumeIds.ParseAp(v).Some? && limit <= 0
    ensures NeverStarts(s, v, limit) <==> FsOf(v) in s.limiter
  {
    NeverStartsExactly(s, v, limit);
    if v in Leaked(s, FsOf(v)) {
      assert v in Jobs(s.tracked, FsOf(v));
      assert Slots(s, FsOf(v)) == |Jobs(s.tracked, FsOf(v))|;
    }
  }

  /** The statter itself: package-level maps changed under one lock. */
  class Statter {
    var volUsageCache: map<string, Usage>
    var volStatterJobTracker: set<string>
    var fsRateLimiter: map<string, int>
    ghost var goroutines: set<string>

    ghost function View(): State
      reads this
    {
      State(volUsageCache, volStatterJobTracker, fsRateLimiter, goroutines)
    }

    constructor ()
      ensures View() == EMPTY
    {
      volUsageCache, volStatterJobTracker, fsRateLimiter, goroutines := map[], {}, map[], {};
    }

    method CanStatFS(fsId: string, fsRateLimit: int) returns (ok: bool)
      modifies this`fsRateLimiter
      ensures ok == CanStat(old(fsRateLimiter), fsId, fsRateLimit)
      ensures !ok ==> fsRateLimiter == old(fsRateLimiter)
      ensures ok ==>
                var count := if fsId in old(fsRateLimiter) then old(fsRateLimiter)[fsId] else 0;
                fsRateLimiter == old(fsRateLimiter)[fsId := count + 1]
    {
      if fsId in fsRateLimiter {
        var count := fsRateLimiter[fsId];
        if count < fsRateLimit {
          fsRateLimiter := fsRateLimiter[fsId := count + 1];
        } else {
          return false;
        }
      } else {
        fsRateLimiter := fsRateLimiter[fsId := 1];
      }
      return true;
    }

    /** launchVolStatsRoutine */
    method LaunchRoutine(volId: string, fsRateLimit: int)
      modifies this
      ensures View() == Step(old(View()), Launch(volId), fsRateLimit)
    {
      var parsed := VolumeIds.ParseAp(volId);
      if parsed.None? { return; }
      if volId !in volStatterJobTracker {
        var ok := CanStatFS(parsed.value.fileSystemId, fsRateLimit);
        if ok {
          volStatterJobTracker := volStatterJobTracker + {volId};
          goroutines := goroutines + {volId};
        }
      }
    }

    /**
     * computeDiskUsage, after its sleep: `usage` is None when reading the disk usage or the file system info failed.
     */
    method FinishRoutine(fsId: string, volId: string, usage: Option<Usage>)
      requires volId in goroutines && fsId == FsOf(volId)
      modifies this
      ensures View() == Step(old(View()), if usage.Some? then Complete(volId, usage.value) else FailJob(volId), 0)
    {
      goroutines := goroutines - {volId};
      if usage.None? { return; }
      volUsageCache := volUsageCache[volId := usage.value];
      volStatterJobTracker := volStatterJobTracker - {volId};
      if fsId in fsRateLimiter && fsRateLimiter[fsId] > 0 {
        fsRateLimiter := fsRateLimiter[fsId := fsRateLimiter[fsId] - 1];
      }
    }

    /** removeFromCache */
    method RemoveFromCache(volId: string)
      modifies this
      ensures View() == Step(old(View()), Evict(volId), 0)
    {
      volUsageCache := volUsageCache - {volId};
    }
  }
}
