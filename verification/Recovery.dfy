/** Creation of a namespace file system with rollback (enhanced_manager.go, recovery.go). */
module Recovery {
  import opened Strings
  import opened Collections
  import Cache

  datatype MountTarget = MountTarget(fs: string, sg: string)

  /** The AWS resources a creation makes. */
  datatype Cloud = Cloud(fileSystems: set<string>, securityGroups: set<string>, mountTargets: map<string, MountTarget>)

  /** A delete call, as it goes to AWS. */
  datatype Call = DeleteMountTarget(id: string) | DeleteSecurityGroup(id: string) | DeleteFileSystem(id: string)

  /** AWS refuses to delete a file system or a security group that a mount target still uses. */
  predicate Permitted(cloud: Cloud, c: Call) {
    match c
    case DeleteMountTarget(id) => id in cloud.mountTargets
    case DeleteSecurityGroup(id) =>
      id in cloud.securityGroups && forall m :: m in cloud.mountTargets ==> cloud.mountTargets[m].sg != id
    case DeleteFileSystem(id) =>
      id in cloud.fileSystems && forall m :: m in cloud.mountTargets ==> cloud.mountTargets[m].fs != id
  }

  /** A call that AWS permits succeeds unless the API fails it; a call that fails changes nothing. */
  predicate Succeeds(cloud: Cloud, c: Call, faults: set<Call>) {
    Permitted(cloud, c) && c !in faults
  }

  function Effect(cloud: Cloud, c: Call, faults: set<Call>): (cloud': Cloud) {
    if !Succeeds(cloud, c, faults) then cloud
    else match c
      case DeleteMountTarget(id) => cloud.(mountTargets := cloud.mountTargets - {id})
      case DeleteSecurityGroup(id) => cloud.(securityGroups := cloud.securityGroups - {id})
      case DeleteFileSystem(id) => cloud.(fileSystems := cloud.fileSystems - {id})
  }

  function Effects(cloud: Cloud, calls: seq<Call>, faults: set<Call>): (cloud': Cloud) {
    if calls == [] then cloud else Effect(Effects(cloud, calls[..|calls| - 1], faults), calls[|calls| - 1], faults)
  }

  predicate AllSucceed(cloud: Cloud, calls: seq<Call>, faults: set<Call>) {
    calls == [] || (AllSucceed(cloud, calls[..|calls| - 1], faults)
                    && Succeeds(Effects(cloud, calls[..|calls| - 1], faults), calls[|calls| - 1], faults))
  }

  /** PartialFileSystemInfo; "" stands for a resource that was not created. */
  datatype Partial = Partial(fileSystemId: string, securityGroupId: string, mountTargetIds: seq<string>)

  function MountTargetCalls(ids: seq<string>): (calls: seq<Call>)
    ensures |calls| == |ids| && forall i :: 0 <= i < |ids| ==> calls[i] == DeleteMountTarget(ids[i])
  {
    seq(|ids|, i requires 0 <= i < |ids| => DeleteMountTarget(ids[i]))
  }

  /** Every delete a rollback attempts, in order: the mount targets, then the security group, then the file system. */
  function RollbackCalls(p: Partial): (calls: seq<Call>) {
    MountTargetCalls(p.mountTargetIds) + GroupCalls(p) + FileSystemCalls(p)
  }

  function GroupCalls(p: Partial): (calls: seq<Call>) {
    if p.securityGroupId == "" then [] else [DeleteSecurityGroup(p.securityGroupId)]
  }

  function FileSystemCalls(p: Partial): (calls: seq<Call>) {
    if p.fileSystemId == "" then [] else [DeleteFileSystem(p.fileSystemId)]
  }

  /** What the environment does during a rollback: calls that fail, and whether the wait for the mount targets fails. */
  datatype Weather = Weather(faults: set<Call>, waitOk: bool)

  predicate RollbackOk(cloud: Cloud, p: Partial, w: Weather) {
    AllSucceed(cloud, RollbackCalls(p), w.faults) && (p.mountTargetIds == [] || w.waitOk)
  }

  datatype Status = Running | Completed | Failed

  // ---------------------------------------------------------------------------------------------------------
  // Creation

  /** What the environment does during a creation: the identifiers of what gets created, None for a failed step. */
  datatype Script = Script(fileSystem: Option<string>, available: bool, securityGroup: Option<string>,
                           mountTargets: Option<seq<string>>, mountsAvailable: bool, weather: Weather)

  ghost predicate Distinct(ids: seq<string>) {
    forall i, j :: 0 <= i < j < |ids| ==> ids[i] != ids[j]
  }

  /** AWS hands out identifiers that are not in use. */
  ghost predicate FreshIds(cloud: Cloud, s: Script) {
    && (s.fileSystem.Some? ==> s.fileSystem.value != "" && s.fileSystem.value !in cloud.fileSystems)
    && (s.securityGroup.Some? ==> s.securityGroup.value != "" && s.securityGroup.value !in cloud.securityGroups)
    && (s.mountTargets.Some? ==>
          Distinct(s.mountTargets.value) && forall m :: m in s.mountTargets.value ==> m !in cloud.mountTargets)
    && (forall m :: m in cloud.mountTargets ==>
          cloud.mountTargets[m].fs in cloud.fileSystems && cloud.mountTargets[m].sg in cloud.securityGroups)
  }

  /** How far a creation gets: what it has recorded when it stops. */
  function Progress(s: Script): (p: Partial) {
    if s.fileSystem.None? then Partial("", "", [])
    else if !s.available || s.securityGroup.None? then Partial(s.fileSystem.value, "", [])
    else if s.mountTargets.None? then Partial(s.fileSystem.value, s.securityGroup.value, [])
    else Partial(s.fileSystem.value, s.securityGroup.value, s.mountTargets.value)
  }

  predicate Creates(s: Script) {
    s.fileSystem.Some? && s.available && s.securityGroup.Some? && s.mountTargets.Some? && s.mountsAvailable
  }

  /** The cloud with the recorded resources in it. */
  function Grown(cloud: Cloud, p: Partial): (cloud': Cloud) {
    Cloud(if p.fileSystemId == "" then cloud.fileSystems else cloud.fileSystems + {p.fileSystemId},
          if p.securityGroupId == "" then cloud.securityGroups else cloud.securityGroups + {p.securityGroupId},
          cloud.mountTargets + map m | m in p.mountTargetIds :: MountTarget(p.fileSystemId, p.securityGroupId))
  }

  /** The cloud after a creation: everything in place, or whatever the rollback left. */
  function CreatedCloud(cloud: Cloud, s: Script): (cloud': Cloud) {
    if Creates(s) || s.fileSystem.None? then Grown(cloud, Progress(s))
    else Effects(Grown(cloud, Progress(s)), RollbackCalls(Progress(s)), s.weather.faults)
  }

  // ---------------------------------------------------------------------------------------------------------
  // Rollback restores

  /** The mount targets among the first `n` whose delete does not fail, and those whose delete does. */
  function Gone(ids: seq<string>, n: nat, faults: set<Call>): (r: set<string>)
    requires n <= |ids|
  {
    set i | 0 <= i < n && DeleteMountTarget(ids[i]) !in faults :: ids[i]
  }

  function Stuck(ids: seq<string>, faults: set<Call>): (r: set<string>) {
    set i | 0 <= i < |ids| && DeleteMountTarget(ids[i]) in faults :: ids[i]
  }

  /** After the first `n` mount-target deletes, exactly those whose delete failed are left of them. */
  lemma {:induction false} MountTargetsGone(cloud: Cloud, ids: seq<string>, n: nat, faults: set<Call>)
    requires Distinct(ids) && n <= |ids| && forall m :: m in ids ==> m in cloud.mountTargets
    ensures Effects(cloud, MountTargetCalls(ids)[..n], faults)
            == cloud.(mountTargets := cloud.mountTargets - Gone(ids, n, faults))
  {
    var calls := MountTargetCalls(ids);
    if n == 0 {
      assert calls[..0] == [] && Gone(ids, 0, faults) == {};
    } else {
      MountTargetsGone(cloud, ids, n - 1, faults);
      assert calls[..n][..n - 1] == calls[..n - 1];
      assert Gone(ids, n, faults) == Gone(ids, n - 1, faults) + if calls[n - 1] in faults then {} else {ids[n - 1]};
      assert ids[n - 1] in ids && ids[n - 1] !in Gone(ids, n - 1, faults);
    }
  }

  lemma {:induction false} EffectsConcat(cloud: Cloud, a: seq<Call>, b: seq<Call>, faults: set<Call>)
    ensures Effects(cloud, a + b, faults) == Effects(Effects(cloud, a, faults), b, faults)
  {
    if b == [] {
      assert a + b == a;
    } else {
      EffectsConcat(cloud, a, b[..|b| - 1], faults);
      assert (a + b)[..|a + b| - 1] == a + b[..|b| - 1];
    }
  }

  /** The mount targets of a grown cloud: the old ones never use what is new. */
  lemma GrownTargets(cloud: Cloud, s: Script)
    requires FreshIds(cloud, s)
    ensures var p, g := Progress(s), Grown(cloud, Progress(s));
            && Distinct(p.mountTargetIds)
            && (forall m :: m in p.mountTargetIds ==> m in g.mountTargets && m !in cloud.mountTargets)
            && (forall m :: m in cloud.mountTargets ==> g.mountTargets[m] == cloud.mountTargets[m])
            && (p.fileSystemId != "" ==>
                  forall m :: m in cloud.mountTargets ==> cloud.mountTargets[m].fs != p.fileSystemId)
            && (p.securityGroupId != "" ==>
                  forall m :: m in cloud.mountTargets ==> cloud.mountTargets[m].sg != p.securityGroupId)
  {
  }

  /** What is left of the recorded resources: a mount target that is stuck keeps its security group and file system. */
  function Remains(cloud: Cloud, p: Partial, faults: set<Call>): (cloud': Cloud) {
    var stuck := Stuck(p.mountTargetIds, faults);
    Cloud(if p.fileSystemId != "" && (stuck != {} || DeleteFileSystem(p.fileSystemId) in faults)
          then cloud.fileSystems + {p.fileSystemId} else cloud.fileSystems,
          if p.securityGroupId != "" && (stuck != {} || DeleteSecurityGroup(p.securityGroupId) in faults)
          then cloud.securityGroups + {p.securityGroupId} else cloud.securityGroups,
          cloud.mountTargets + map m | m in stuck :: MountTarget(p.fileSystemId, p.securityGroupId))
  }

  /** The cloud once the mount-target deletes of a rollback are done. */
  function AfterMounts(cloud: Cloud, p: Partial, faults: set<Call>): (cloud': Cloud) {
    var target := MountTarget(p.fileSystemId, p.securityGroupId);
    Grown(cloud, p).(mountTargets := cloud.mountTargets + map m | m in Stuck(p.mountTargetIds, faults) :: target)
  }

  lemma MountsStep(cloud: Cloud, s: Script, faults: set<Call>)
    requires FreshIds(cloud, s)
    ensures var p := Progress(s);
            Effects(Grown(cloud, p), MountTargetCalls(p.mountTargetIds), faults) == AfterMounts(cloud, p, faults)
  {
    var p := Progress(s);
    var g, ids := Grown(cloud, p), p.mountTargetIds;
    GrownTargets(cloud, s);
    MountTargetsGone(g, ids, |ids|, faults);
    assert MountTargetCalls(ids)[..|ids|] == MountTargetCalls(ids);
    GoneOrStuck(ids, faults);
    LeftTargets(cloud.mountTargets, ids, Gone(ids, |ids|, faults), Stuck(ids, faults),
                MountTarget(p.fileSystemId, p.securityGroupId));
  }

  lemma LeftTargets(was: map<string, MountTarget>, ids: seq<string>, gone: set<string>, stuck: set<string>,
                    mt: MountTarget)
    requires forall m :: m in ids ==> m !in was
    requires forall m :: m in stuck <==> m in ids && m !in gone
    requires forall m :: m in gone ==> m in ids
    ensures (was + map m | m in ids :: mt) - gone == (was + map m | m in stuck :: mt)
  {
  }

  lemma GoneOrStuck(ids: seq<string>, faults: set<Call>)
    requires Distinct(ids)
    ensures forall m :: m in Stuck(ids, faults) <==> m in ids && m !in Gone(ids, |ids|, faults)
    ensures forall m :: m in Gone(ids, |ids|, faults) ==> m in ids
  {
  }

  /** Exactly what a rollback leaves, for every pattern of failing calls. */
  lemma RollbackLeaves(cloud: Cloud, s: Script, faults: set<Call>)
    requires FreshIds(cloud, s)
    ensures Effects(Grown(cloud, Progress(s)), RollbackCalls(Progress(s)), faults)
            == Remains(cloud, Progress(s), faults)
  {
    var p := Progress(s);
    var g, mts := Grown(cloud, p), MountTargetCalls(p.mountTargetIds);
    var sgs, fss := GroupCalls(p), FileSystemCalls(p);
    MountsStep(cloud, s, faults);
    EffectsConcat(g, mts, sgs, faults);
    EffectsConcat(g, mts + sgs, fss, faults);
    var c1 := AfterMounts(cloud, p, faults);
    SecurityGroupStep(cloud, s, faults);
    var c2 := Effects(c1, sgs, faults);
    FileSystemStep(cloud, s, faults, c2);
  }

  lemma SecurityGroupStep(cloud: Cloud, s: Script, faults: set<Call>)
    requires FreshIds(cloud, s)
    ensures var p := Progress(s);
            Effects(AfterMounts(cloud, p, faults), GroupCalls(p), faults)
            == AfterMounts(cloud, p, faults).(securityGroups := Remains(cloud, p, faults).securityGroups)
  {
    var p := Progress(s);
    var c1, stuck := AfterMounts(cloud, p, faults), Stuck(p.mountTargetIds, faults);
    GrownTargets(cloud, s);
    if p.securityGroupId != "" {
      var call := DeleteSecurityGroup(p.securityGroupId);
      assert [call][..0] == [];
      assert Permitted(c1, call) <==> stuck == {} by {
        if stuck != {} { var m :| m in stuck; assert m in c1.mountTargets && c1.mountTargets[m].sg == call.id; }
      }
    }
  }

  lemma FileSystemStep(cloud: Cloud, s: Script, faults: set<Call>, c2: Cloud)
    requires FreshIds(cloud, s)
    requires var groups := Remains(cloud, Progress(s), faults).securityGroups;
             c2 == AfterMounts(cloud, Progress(s), faults).(securityGroups := groups)
    ensures var p := Progress(s);
            Effects(c2, FileSystemCalls(p), faults) == Remains(cloud, p, faults)
  {
    var p := Progress(s);
    var stuck := Stuck(p.mountTargetIds, faults);
    GrownTargets(cloud, s);
    if p.fileSystemId != "" {
      var call := DeleteFileSystem(p.fileSystemId);
      assert [call][..0] == [];
      assert Permitted(c2, call) <==> stuck == {} by {
        if stuck != {} { var m :| m in stuck; assert m in c2.mountTargets && c2.mountTargets[m].fs == call.id; }
      }
    }
  }

  // ---------------------------------------------------------------------------------------------------------
  // The promises

  /** A creation that fails leaves the cloud exactly as it was if and only if no delete of its rollback fails. */
  lemma RestoredExactly(cloud: Cloud, s: Script)
    requires FreshIds(cloud, s) && !Creates(s)
    ensures CreatedCloud(cloud, s) == cloud <==> forall c :: c in RollbackCalls(Progress(s)) ==> c !in s.weather.faults
  {
    var p, faults := Progress(s), s.weather.faults;
    if s.fileSystem.None? {
      assert Grown(cloud, p) == cloud;
      assert RollbackCalls(p) == [];
    } else {
      RollbackLeaves(cloud, s, faults);
      RemainsNothing(cloud, s, faults);
      FaultFree(p, faults);
    }
  }

  /** No call of a rollback fails exactly if nothing gets stuck and neither of the other two deletes fails. */
  lemma FaultFree(p: Partial, faults: set<Call>)
    requires p.fileSystemId != ""
    ensures (forall c :: c in RollbackCalls(p) ==> c !in faults)
            <==> && Stuck(p.mountTargetIds, faults) == {} && DeleteFileSystem(p.fileSystemId) !in faults
                 && (p.securityGroupId != "" ==> DeleteSecurityGroup(p.securityGroupId) !in faults)
  {
    NoFaultNothingStuck(p, faults);
    CallsOf(p);
  }

  lemma RemainsNothing(cloud: Cloud, s: Script, faults: set<Call>)
    requires FreshIds(cloud, s) && s.fileSystem.Some?
    ensures var p := Progress(s);
            Remains(cloud, p, faults) == cloud
            <==> && Stuck(p.mountTargetIds, faults) == {} && DeleteFileSystem(p.fileSystemId) !in faults
                 && (p.securityGroupId != "" ==> DeleteSecurityGroup(p.securityGroupId) !in faults)
  {
    var p := Progress(s);
    var stuck := Stuck(p.mountTargetIds, faults);
    GrownTargets(cloud, s);
    assert p.fileSystemId !in cloud.fileSystems && p.fileSystemId != "";
    assert p.securityGroupId != "" ==> p.securityGroupId !in cloud.securityGroups;
    if stuck == {} {
      assert Remains(cloud, p, faults).mountTargets == cloud.mountTargets;
    }
  }

  /** The calls of a rollback are the deletes of the recorded resources, each at least once. */
  lemma CallsOf(p: Partial)
    ensures forall c :: c in RollbackCalls(p) <==>
              || (c.DeleteMountTarget? && c.id in p.mountTargetIds)
              || (c.DeleteSecurityGroup? && c.id == p.securityGroupId != "")
              || (c.DeleteFileSystem? && c.id == p.fileSystemId != "")
    ensures forall i, j :: 0 <= i < j < |RollbackCalls(p)| ==>
              !RollbackCalls(p)[j].DeleteMountTarget? || RollbackCalls(p)[i].DeleteMountTarget?
  {
    var calls, n := RollbackCalls(p), |p.mountTargetIds|;
    forall m | m in p.mountTargetIds ensures DeleteMountTarget(m) in calls {
      var i :| 0 <= i < n && p.mountTargetIds[i] == m;
      assert calls[i] == DeleteMountTarget(m);
    }
    if p.securityGroupId != "" { assert calls[n] == DeleteSecurityGroup(p.securityGroupId); }
    if p.fileSystemId != "" { assert calls[|calls| - 1] == DeleteFileSystem(p.fileSystemId); }
  }

  lemma NoFaultNothingStuck(p: Partial, faults: set<Call>)
    ensures Stuck(p.mountTargetIds, faults) == {}
            <==> forall m :: m in p.mountTargetIds ==> DeleteMountTarget(m) !in faults
  {
    forall m | m in p.mountTargetIds && DeleteMountTarget(m) in faults ensures m in Stuck(p.mountTargetIds, faults) {
      var i :| 0 <= i < |p.mountTargetIds| && p.mountTargetIds[i] == m;
    }
  }

  /** Whatever fails, nothing that was there before is touched, and nothing but recorded resources can be left over. */
  lemma OldResourcesUntouched(cloud: Cloud, s: Script)
    requires FreshIds(cloud, s) && !Creates(s)
    ensures var after, p := CreatedCloud(cloud, s), Progress(s);
            && cloud.fileSystems <= after.fileSystems <= cloud.fileSystems + {p.fileSystemId}
            && cloud.securityGroups <= after.securityGroups <= cloud.securityGroups + {p.securityGroupId}
            && (forall m :: m in cloud.mountTargets ==>
                  m in after.mountTargets && after.mountTargets[m] == cloud.mountTargets[m])
            && forall m :: m in after.mountTargets && m !in cloud.mountTargets ==> m in p.mountTargetIds
  {
    RollbackLeaves(cloud, s, s.weather.faults);
    GrownTargets(cloud, s);
  }

  /** Deleting in any other order would not do: with a mount target in place AWS refuses the file system. */
  lemma FileSystemFirstFails(cloud: Cloud, s: Script, faults: set<Call>)
    requires FreshIds(cloud, s) && s.fileSystem.Some? && Progress(s).mountTargetIds != []
    ensures !Succeeds(Grown(cloud, Progress(s)), DeleteFileSystem(Progress(s).fileSystemId), faults)
    ensures !Succeeds(Grown(cloud, Progress(s)), DeleteSecurityGroup(Progress(s).securityGroupId), faults)
  {
    var p := Progress(s);
    var m := p.mountTargetIds[0];
    assert m in p.mountTargetIds && m in Grown(cloud, p).mountTargets;
  }

  /** Where every recorded resource is in place, a rollback reports no failing delete exactly when no call is failed. */
  lemma AllSucceedExactly(cloud: Cloud, s: Script, faults: set<Call>)
    requires FreshIds(cloud, s)
    ensures AllSucceed(Grown(cloud, Progress(s)), RollbackCalls(Progress(s)), faults)
            <==> forall c :: c in RollbackCalls(Progress(s)) ==> c !in faults
  {
    var p := Progress(s);
    var g, calls := Grown(cloud, p), RollbackCalls(p);
    if forall c :: c in calls ==> c !in faults {
      FaultFreeSucceeds(cloud, s, faults);
    } else {
      var i :| 0 <= i < |calls| && calls[i] in faults;
      FaultShows(g, calls, faults, i);
    }
  }

  lemma FaultFreeSucceeds(cloud: Cloud, s: Script, faults: set<Call>)
    requires FreshIds(cloud, s) && forall c :: c in RollbackCalls(Progress(s)) ==> c !in faults
    ensures AllSucceed(Grown(cloud, Progress(s)), RollbackCalls(Progress(s)), faults)
  {
    var g, calls := Grown(cloud, Progress(s)), RollbackCalls(Progress(s));
    forall i | 0 <= i < |calls| ensures Succeeds(Effects(g, calls[..i], faults), calls[i], faults) {
      NextSucceeds(cloud, s, faults, i);
    }
    StepByStep(g, calls, faults, |calls|);
    assert calls[..|calls|] == calls;
  }

  /**
   * A creation succeeds exactly if every step does; then the account has all that was made, each mount target on the
   * file system and with the security group, besides all it had.
   */
  lemma CreatedExactly(cloud: Cloud, s: Script)
    requires FreshIds(cloud, s)
    ensures Creates(s)
            <==> s.fileSystem.Some? && s.available && s.securityGroup.Some? && s.mountTargets.Some? && s.mountsAvailable
    ensures Creates(s) ==>
              var p, after := Progress(s), CreatedCloud(cloud, s);
              && Some(p.fileSystemId) == s.fileSystem && Some(p.securityGroupId) == s.securityGroup
              && Some(p.mountTargetIds) == s.mountTargets
              && after.fileSystems == cloud.fileSystems + {p.fileSystemId}
              && after.securityGroups == cloud.securityGroups + {p.securityGroupId}
              && after.mountTargets.Keys == cloud.mountTargets.Keys + set m | m in p.mountTargetIds
              && (forall m :: m in p.mountTargetIds ==>
                    after.mountTargets[m] == MountTarget(p.fileSystemId, p.securityGroupId))
              && (forall m :: m in cloud.mountTargets ==> after.mountTargets[m] == cloud.mountTargets[m])
  {
    if Creates(s) { GrownTargets(cloud, s); }
  }

  /** A rollback reports success exactly if no delete is failed, and neither is the wait for mount targets, if any. */
  lemma ReportedExactly(cloud: Cloud, s: Script)
    requires FreshIds(cloud, s)
    ensures RollbackOk(Grown(cloud, Progress(s)), Progress(s), s.weather)
            <==> && (forall c :: c in RollbackCalls(Progress(s)) ==> c !in s.weather.faults)
                 && (|Progress(s).mountTargetIds| > 0 ==> s.weather.waitOk)
  {
    AllSucceedExactly(cloud, s, s.weather.faults);
  }

  lemma NextSucceeds(cloud: Cloud, s: Script, faults: set<Call>, i: nat)
    requires FreshIds(cloud, s) && i < |RollbackCalls(Progress(s))|
    requires forall c :: c in RollbackCalls(Progress(s)) ==> c !in faults
    ensures var calls := RollbackCalls(Progress(s));
            Succeeds(Effects(Grown(cloud, Progress(s)), calls[..i], faults), calls[i], faults)
  {
    var p := Progress(s);
    assert forall m :: m in p.mountTargetIds ==> DeleteMountTarget(m) !in faults by { CallsOf(p); }
    if i < |p.mountTargetIds| { TargetPermitted(cloud, s, faults, i); } else { RestPermitted(cloud, s, faults, i); }
    assert RollbackCalls(p)[i] in RollbackCalls(p);
  }

  lemma {:induction false} FaultShows(cloud: Cloud, calls: seq<Call>, faults: set<Call>, i: nat)
    requires i < |calls| && calls[i] in faults
    ensures !AllSucceed(cloud, calls, faults)
  {
    if i < |calls| - 1 { FaultShows(cloud, calls[..|calls| - 1], faults, i); }
  }

  /** Deletes that succeed one after the other all succeed. */
  lemma {:induction false} StepByStep(cloud: Cloud, calls: seq<Call>, faults: set<Call>, n: nat)
    requires n <= |calls|
    requires forall i :: 0 <= i < n ==> Succeeds(Effects(cloud, calls[..i], faults), calls[i], faults)
    ensures AllSucceed(cloud, calls[..n], faults)
  {
    if n > 0 {
      StepByStep(cloud, calls, faults, n - 1);
      assert calls[..n] == calls[..n - 1] + [calls[n - 1]];
      OneMore(cloud, calls[..n - 1], calls[n - 1], faults);
    }
  }

  lemma TargetPermitted(cloud: Cloud, s: Script, faults: set<Call>, i: nat)
    requires FreshIds(cloud, s) && i < |Progress(s).mountTargetIds|
    ensures var calls := RollbackCalls(Progress(s));
            Permitted(Effects(Grown(cloud, Progress(s)), calls[..i], faults), calls[i])
  {
    var p := Progress(s);
    var g, ids, calls := Grown(cloud, p), p.mountTargetIds, RollbackCalls(p);
    GrownTargets(cloud, s);
    assert calls[..i] == MountTargetCalls(ids)[..i];
    MountTargetsGone(g, ids, i, faults);
    assert ids[i] in ids && ids[i] !in Gone(ids, i, faults);
  }

  lemma RestPermitted(cloud: Cloud, s: Script, faults: set<Call>, i: nat)
    requires FreshIds(cloud, s) && |Progress(s).mountTargetIds| <= i < |RollbackCalls(Progress(s))|
    requires forall m :: m in Progress(s).mountTargetIds ==> DeleteMountTarget(m) !in faults
    ensures var calls := RollbackCalls(Progress(s));
            Permitted(Effects(Grown(cloud, Progress(s)), calls[..i], faults), calls[i])
  {
    var p := Progress(s);
    var g, calls, mts := Grown(cloud, p), RollbackCalls(p), MountTargetCalls(p.mountTargetIds);
    MountsStep(cloud, s, faults);
    NothingUses(cloud, s, faults);
    if calls[i].DeleteSecurityGroup? {
      assert calls[..i] == mts;
    } else {
      assert calls[..i] == mts + GroupCalls(p);
      EffectsConcat(g, mts, GroupCalls(p), faults);
      SecurityGroupStep(cloud, s, faults);
    }
  }

  /** Once the mount targets of a creation are gone, nothing uses its file system or its security group. */
  lemma NothingUses(cloud: Cloud, s: Script, faults: set<Call>)
    requires FreshIds(cloud, s)
    requires forall m :: m in Progress(s).mountTargetIds ==> DeleteMountTarget(m) !in faults
    ensures var p := Progress(s);
            var left := AfterMounts(cloud, p, faults).mountTargets;
            && left == cloud.mountTargets
            && (p.fileSystemId != "" ==> forall m :: m in left ==> left[m].fs != p.fileSystemId)
            && (p.securityGroupId != "" ==> forall m :: m in left ==> left[m].sg != p.securityGroupId)
  {
    GrownTargets(cloud, s);
    NoFaultNothingStuck(Progress(s), faults);
  }

  /** A mount target the rollback was not told of keeps the file system in place, whatever else happens. */
  lemma {:induction false} UnrecordedTargetKeepsFileSystem(cloud: Cloud, calls: seq<Call>, faults: set<Call>,
                                                           stray: string)
    requires stray in cloud.mountTargets && cloud.mountTargets[stray].fs in cloud.fileSystems
    requires DeleteMountTarget(stray) !in calls
    ensures var after := Effects(cloud, calls, faults);
            && stray in after.mountTargets && after.mountTargets[stray] == cloud.mountTargets[stray]
            && cloud.mountTargets[stray].fs in after.fileSystems
  {
    if calls != [] {
      var n := |calls| - 1;
      assert calls[n] in calls;
      UnrecordedTargetKeepsFileSystem(cloud, calls[..n], faults, stray);
    }
  }

  // ---------------------------------------------------------------------------------------------------------
  // The recovery manager

  /** recoveryManager, with the AWS account it works on and the creation that calls it. */
  class RecoveryManager {
    var aws: Cloud
    var operations: map<string, Status>
    const cache: Cache.MemoryCache
    /** Every delete sent to AWS so far. */
    ghost var sent: seq<Call>

    constructor (account: Cloud, c: Cache.MemoryCache)
      ensures aws == account && operations == map[] && cache == c && sent == []
    {
      aws, operations, cache := account, map[], c;
      sent := [];
    }

    /**
     * Since the account was `was` and `before` had been sent, the deletes `done` were attempted: `ok` if none failed.
     */
    ghost predicate Attempted(was: Cloud, before: seq<Call>, done: seq<Call>, faults: set<Call>, ok: bool)
      reads this
    {
      aws == Effects(was, done, faults) && sent == before + done && (ok <==> AllSucceed(was, done, faults))
    }

    /** A delete, with its retries. */
    method Delete(c: Call, faults: set<Call>, ghost was: Cloud, ghost before: seq<Call>, ghost done: seq<Call>,
                  ghost soFar: bool)
      returns (ok: bool)
      requires Attempted(was, before, done, faults, soFar)
      modifies this`aws, this`sent
      ensures Attempted(was, before, done + [c], faults, soFar && ok)
    {
      OneMore(was, done, c, faults);
      ok := Succeeds(aws, c, faults);
      aws := Effect(aws, c, faults);
      sent := sent + [c];
      assert before + done + [c] == before + (done + [c]);
    }

    method TrackOperation(id: string)
      modifies this`operations
      ensures operations == old(operations)[id := Running]
    {
      operations := operations[id := Running];
    }

    method CompleteOperation(id: string)
      modifies this`operations
      ensures operations == if id in old(operations) && old(operations)[id].Running?
                            then old(operations)[id := Completed] else old(operations)
    {
      if id in operations && operations[id].Running? {
        operations := operations[id := Completed];
      }
    }

    method FinishOperation(id: string, ok: bool)
      modifies this`operations
      ensures operations == old(operations)[id := if ok then Completed else Failed]
    {
      operations := operations[id := if ok then Completed else Failed];
      CompleteOperation(id);
    }

    method DeleteMountTargets(ids: seq<string>, faults: set<Call>) returns (ok: bool)
      modifies this`aws, this`sent
      ensures Attempted(old(aws), old(sent), MountTargetCalls(ids), faults, ok)
    {
      ok := true;
      ghost var calls, was, before := MountTargetCalls(ids), aws, sent;
      assert calls[..0] == [];
      for i := 0 to |ids|
        invariant Attempted(was, before, calls[..i], faults, ok)
      {
        var deleted := Delete(DeleteMountTarget(ids[i]), faults, was, before, calls[..i], ok);
        assert calls[..i + 1] == calls[..i] + [calls[i]];
        if !deleted { ok := false; }
      }
      assert calls[..|ids|] == calls;
    }

    method DeleteSecurityGroup(p: Partial, faults: set<Call>, ghost was: Cloud, ghost before: seq<Call>,
                               ghost done: seq<Call>, ghost soFar: bool)
      returns (ok: bool)
      requires Attempted(was, before, done, faults, soFar)
      modifies this`aws, this`sent
      ensures Attempted(was, before, done + GroupCalls(p), faults, soFar && ok)
    {
      ok := true;
      assert done + [] == done;
      if p.securityGroupId != "" {
        ok := Delete(Call.DeleteSecurityGroup(p.securityGroupId), faults, was, before, done, soFar);
      }
    }

    method DeleteFileSystem(p: Partial, faults: set<Call>, ghost was: Cloud, ghost before: seq<Call>,
                            ghost done: seq<Call>, ghost soFar: bool)
      returns (ok: bool)
      requires Attempted(was, before, done, faults, soFar)
      modifies this`aws, this`sent
      ensures Attempted(was, before, done + FileSystemCalls(p), faults, soFar && ok)
    {
      ok := true;
      assert done + [] == done;
      if p.fileSystemId != "" {
        ok := Delete(Call.DeleteFileSystem(p.fileSystemId), faults, was, before, done, soFar);
      }
    }

    /** The mount targets, if there are any, and the wait until they are gone. */
    method DeleteAndAwait(ids: seq<string>, w: Weather) returns (ok: bool, waited: bool)
      modifies this`aws, this`sent
      ensures Attempted(old(aws), old(sent), MountTargetCalls(ids), w.faults, ok)
      ensures waited <==> ids == [] || w.waitOk
    {
      ok, waited := true, true;
      if |ids| > 0 {
        ok := DeleteMountTargets(ids, w.faults);
        waited := w.waitOk;
      }
    }

    /** The three kinds of deletes of a rollback, each attempted whatever the ones before it did. */
    method DeleteRecorded(p: Partial, w: Weather) returns (ok: bool)
      modifies this`aws, this`sent
      ensures sent == old(sent) + RollbackCalls(p)
      ensures aws == Effects(old(aws), RollbackCalls(p), w.faults)
      ensures ok <==> RollbackOk(old(aws), p, w)
    {
      ghost var was, before, mts := aws, sent, MountTargetCalls(p.mountTargetIds);
      var targets, waited := DeleteAndAwait(p.mountTargetIds, w);
      var group := DeleteSecurityGroup(p, w.faults, was, before, mts, targets);
      var fileSystem := DeleteFileSystem(p, w.faults, was, before, mts + GroupCalls(p), targets && group);
      ok := targets && waited && group && fileSystem;
    }

    /**
     * RollbackFileSystemCreation. Every recorded resource gets its delete, whatever failed before; the account ends up
     * as those deletes leave it, and success is reported exactly when none of them failed and the wait did not either.
     */
    method RollbackFileSystemCreation(namespace: string, fsInfo: Option<Partial>, operationId: string, w: Weather)
      returns (ok: bool)
      modifies this, cache
      ensures fsInfo.None? ==> !ok && unchanged(this) && unchanged(cache)
      ensures fsInfo.Some? ==>
                && sent == old(sent) + RollbackCalls(fsInfo.value)
                && aws == Effects(old(aws), RollbackCalls(fsInfo.value), w.faults)
                && (ok <==> RollbackOk(old(aws), fsInfo.value, w))
                && operations == old(operations)[operationId := if ok then Completed else Failed]
                && cache.View() == Cache.Apply(old(cache.View()), Cache.Delete(namespace))
    {
      if fsInfo.None? { return false; }
      ghost var before, view := operations, cache.View();
      TrackOperation(operationId);
      ok := DeleteRecorded(fsInfo.value, w);
      assert cache.View() == view;
      cache.Remove(namespace);
      FinishOperation(operationId, ok);
      Overwritten(before, operationId, Running, if ok then Completed else Failed);
    }

    /** A creation that stops with `p` recorded: the record is rolled back. */
    method Abandon(namespace: string, p: Partial, s: Script, operationId: string, ghost was: Cloud)
      requires s.fileSystem.Some? && !Creates(s) && p == Progress(s) && aws == Grown(was, p)
      modifies this, cache
      ensures aws == CreatedCloud(was, s) && sent == old(sent) + RollbackCalls(p)
    {
      var _ := RollbackFileSystemCreation(namespace, Some(p), operationId, s.weather);
    }

    /** createFileSystemWithRecovery: the record is filled in step by step, and the step that fails rolls it back. */
    method CreateFileSystemWithRecovery(namespace: string, s: Script, operationId: string)
      returns (created: Option<Partial>)
      requires FreshIds(aws, s)
      modifies this, cache
      ensures created == if Creates(s) then Some(Progress(s)) else None
      ensures aws == CreatedCloud(old(aws), s)
      ensures sent == old(sent) + if Creates(s) then [] else RollbackCalls(Progress(s))
    {
      ghost var was := aws;
      if s.fileSystem.None? {
        NothingGrown(was);
        return None;
      }
      var p := Partial(s.fileSystem.value, "", []);
      aws := aws.(fileSystems := aws.fileSystems + {p.fileSystemId});
      FileSystemGrown(was, p.fileSystemId);
      if !s.available {
        Abandon(namespace, p, s, operationId, was);
        return None;
      }
      if s.securityGroup.None? {
        Abandon(namespace, p, s, operationId, was);
        return None;
      }
      GroupGrown(was, p, s.securityGroup.value);
      p := p.(securityGroupId := s.securityGroup.value);
      aws := aws.(securityGroups := aws.securityGroups + {p.securityGroupId});
      created := CreateMountTargets(namespace, p, s, operationId, was);
    }

    /** The rest of it, once the file system and the security group are there. */
    method CreateMountTargets(namespace: string, group: Partial, s: Script, operationId: string, ghost was: Cloud)
      returns (created: Option<Partial>)
      requires s.fileSystem.Some? && s.available && s.securityGroup.Some?
      requires group == Partial(s.fileSystem.value, s.securityGroup.value, []) && aws == Grown(was, group)
      modifies this, cache
      ensures created == if Creates(s) then Some(Progress(s)) else None
      ensures aws == CreatedCloud(was, s)
      ensures sent == old(sent) + if Creates(s) then [] else RollbackCalls(Progress(s))
    {
      if s.mountTargets.None? {
        Abandon(namespace, group, s, operationId, was);
        return None;
      }
      TargetsGrown(was, group, s.mountTargets.value);
      var p := group.(mountTargetIds := s.mountTargets.value);
      aws := aws.(mountTargets :=
        aws.mountTargets + map m | m in p.mountTargetIds :: MountTarget(p.fileSystemId, p.securityGroupId));
      if !s.mountsAvailable {
        Abandon(namespace, p, s, operationId, was);
        return None;
      }
      return Some(p);
    }
  }

  lemma NothingGrown(cloud: Cloud)
    ensures Grown(cloud, Partial("", "", [])) == cloud && RollbackCalls(Partial("", "", [])) == []
  {
    assert Grown(cloud, Partial("", "", [])).mountTargets == cloud.mountTargets;
  }

  lemma FileSystemGrown(cloud: Cloud, id: string)
    requires id != ""
    ensures cloud.(fileSystems := cloud.fileSystems + {id}) == Grown(cloud, Partial(id, "", []))
  {
    assert Grown(cloud, Partial(id, "", [])).mountTargets == cloud.mountTargets;
  }

  lemma GroupGrown(cloud: Cloud, p: Partial, id: string)
    requires id != "" && p.securityGroupId == "" && p.mountTargetIds == []
    ensures var g := Grown(cloud, p);
            g.(securityGroups := g.securityGroups + {id}) == Grown(cloud, p.(securityGroupId := id))
  {
    assert Grown(cloud, p).mountTargets == cloud.mountTargets == Grown(cloud, p.(securityGroupId := id)).mountTargets;
  }

  lemma TargetsGrown(cloud: Cloud, p: Partial, ids: seq<string>)
    requires p.mountTargetIds == []
    ensures var g := Grown(cloud, p);
            g.(mountTargets := g.mountTargets + map m | m in ids :: MountTarget(p.fileSystemId, p.securityGroupId))
            == Grown(cloud, p.(mountTargetIds := ids))
  {
    assert Grown(cloud, p).mountTargets == cloud.mountTargets;
  }

  /** One more call in a sequence of deletes. */
  lemma OneMore(cloud: Cloud, done: seq<Call>, c: Call, faults: set<Call>)
    ensures Effects(cloud, done + [c], faults) == Effect(Effects(cloud, done, faults), c, faults)
    ensures AllSucceed(cloud, done + [c], faults)
            <==> AllSucceed(cloud, done, faults) && Succeeds(Effects(cloud, done, faults), c, faults)
  {
    assert (done + [c])[..|done|] == done;
  }
}
