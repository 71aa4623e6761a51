/**
 * Deletion of an access-point volume with its root directory, through a temporary mount (DeleteVolume in
 * controller.go).
 */
module DeleteVolume {

  /**
   * What a deletion touches: how often the file system is mounted at the temporary path, whether that directory exists,
   * whether the access point's root directory and the access point itself do.
   */
  datatype State = State(mounts: nat, dir: bool, rootDir: bool, accessPoint: bool)

  datatype Answer = Ok | NotFound | Failed
  datatype Result = Success | Error

  /** What the calls of one deletion meet. Whether a path is a mount point is answered truthfully or not at all. */
  datatype Weather = Weather(
    removeRoot: bool,          // deleteAccessPointRootDir
    describe: Answer, mkdirOk: bool, checkOk: bool, mountOk: bool, statOk: bool, removeAllOk: bool, unmountOk: bool,
    rmdirOk: bool, lastCheckOk: bool, lastUnmountOk: bool, lastRmdirOk: bool,
    delete: Answer)

  /** The deferred cleanup. */
  function CleanedUp(s: State, w: Weather): (s': State) {
    if !w.lastCheckOk then s
    else if s.mounts > 0 && !w.lastUnmountOk then s
    else
      var s1 := s.(mounts := if s.mounts > 0 then s.mounts - 1 else 0);
      s1.(dir := s1.dir && !w.lastRmdirOk)
  }

  /** Removal of the root directory: None when it stops early, with the state it stops in. */
  function RootRemoved(s: State, w: Weather): (x: (State, bool)) {
    if !w.mkdirOk then (s, false)
    else
      var s1 := s.(dir := true);
      if !w.checkOk || (s1.mounts == 0 && !w.mountOk) then (s1, false)
      else
        var s2 := s1.(mounts := if s1.mounts == 0 then 1 else s1.mounts);
        // The error of RemoveAll goes to a variable of an inner scope: the next test never sees it.
        var s3 := s2.(rootDir := s2.rootDir && !(w.statOk && w.removeAllOk));
        if !w.unmountOk then (s3, false)
        else
          var s4 := s3.(mounts := s3.mounts - 1);
          if !w.rmdirOk then (s4, false) else (s4.(dir := false), true)
  }

  function AccessPointDeleted(s: State, w: Weather): (x: (State, Result)) {
    match w.delete
    case Failed => (s, Error)
    case NotFound => (s, Success)
    case Ok => (s.(accessPoint := false), Success)
  }

  /** One deletion. */
  function After(s: State, w: Weather): (x: (State, Result)) {
    if !w.removeRoot then AccessPointDeleted(s, w)
    else if w.describe.Failed? then (CleanedUp(s, w), Error)
    else if w.describe.NotFound? then (CleanedUp(s, w), Success)
    else
      var (s1, done) := RootRemoved(s, w);
      if done then AccessPointDeleted(s1, w) else (CleanedUp(s1, w), Error)
  }

  /** The host the driver runs on. The calls that could do harm say when they may be made. */
  class Host {
    var mounts: nat
    var dir: bool
    var rootDir: bool
    var accessPoint: bool

    ghost function View(): State
      reads this
    {
      State(mounts, dir, rootDir, accessPoint)
    }

    constructor (s: State)
      ensures View() == s
    {
      mounts, dir, rootDir, accessPoint := s.mounts, s.dir, s.rootDir, s.accessPoint;
    }

    method MakeDir(ok: bool)
      modifies this`dir
      ensures dir == (old(dir) || ok)
    {
      if ok { dir := true; }
    }

    /** A second mount over the first is never asked for. */
    method Mount(ok: bool)
      requires mounts == 0
      modifies this`mounts
      ensures mounts == if ok then 1 else 0
    {
      if ok { mounts := 1; }
    }

    method Unmount(ok: bool)
      requires mounts > 0
      modifies this`mounts
      ensures mounts == if ok then old(mounts) - 1 else old(mounts)
    {
      if ok { mounts := mounts - 1; }
    }

    /** The temporary directory is never removed with the file system mounted in it. */
    method RemoveDir(ok: bool)
      requires mounts == 0
      modifies this`dir
      ensures dir == (old(dir) && !ok)
    {
      if ok { dir := false; }
    }

    /** The access point's root directory is only ever removed through the mount. */
    method RemoveAll(ok: bool)
      requires mounts > 0
      modifies this`rootDir
      ensures rootDir == (old(rootDir) && !ok)
    {
      if ok { rootDir := false; }
    }

    /** The deferred function. */
    method Cleanup(w: Weather)
      requires mounts <= 1
      modifies this
      ensures View() == CleanedUp(old(View()), w)
    {
      if !w.lastCheckOk { return; }
      if mounts > 0 {
        Unmount(w.lastUnmountOk);
        if !w.lastUnmountOk { return; }
      }
      RemoveDir(w.lastRmdirOk);
    }

    method RemoveRootDirectory(w: Weather) returns (done: bool)
      requires mounts <= 1
      modifies this
      ensures mounts <= 1 && (View(), done) == RootRemoved(old(View()), w)
    {
      MakeDir(w.mkdirOk);
      if !w.mkdirOk { return false; }
      if !w.checkOk { return false; }
      if mounts == 0 {
        Mount(w.mountOk);
        if !w.mountOk { return false; }
      }
      if w.statOk { RemoveAll(w.removeAllOk); }
      Unmount(w.unmountOk);
      if !w.unmountOk { return false; }
      RemoveDir(w.rmdirOk);
      return w.rmdirOk;
    }

    /** DeleteVolume, under the lock of the access point. */
    method Delete(w: Weather) returns (r: Result)
      requires mounts <= 1
      modifies this
      ensures (View(), r) == After(old(View()), w)
    {
      if w.removeRoot {
        if !w.describe.Ok? {
          Cleanup(w);
          return if w.describe.NotFound? then Success else Error;
        }
        var done := RemoveRootDirectory(w);
        if !done {
          Cleanup(w);
          return Error;
        }
      }
      match w.delete
      case Failed => return Error;
      case NotFound => return Success;
      case Ok => accessPoint := false; return Success;
    }
  }

  // ---------------------------------------------------------------------------------------------------------
  // Every run of deletions

  function Run(s: State, weathers: seq<Weather>): (s': State) {
    if weathers == [] then s else After(Run(s, weathers[..|weathers| - 1]), weathers[|weathers| - 1]).0
  }

  /** However the deletions of an access point fail and are retried, its file system is mounted at most once. */
  lemma {:induction false} AtMostOneMount(s: State, weathers: seq<Weather>)
    requires s.mounts <= 1
    ensures Run(s, weathers).mounts <= 1
    ensures (s.mounts == 1 ==> s.dir) ==> (Run(s, weathers).mounts == 1 ==> Run(s, weathers).dir)
  {
    if weathers != [] {
      var n := |weathers| - 1;
      AtMostOneMount(s, weathers[..n]);
      OneStep(Run(s, weathers[..n]), weathers[n]);
    }
  }

  lemma OneStep(s: State, w: Weather)
    requires s.mounts <= 1
    ensures After(s, w).0.mounts <= 1
    ensures (s.mounts == 1 ==> s.dir) ==> (After(s, w).0.mounts == 1 ==> After(s, w).0.dir)
  {
    var (s1, done) := RootRemoved(s, w);
    assert s1.mounts <= 1 && (done ==> s1.mounts == 0);
  }

  /** The calls around the removal of the root directory all work; the mount is needed only if there is none. */
  predicate Passes(s: State, w: Weather) {
    w.describe.Ok? && w.mkdirOk && w.checkOk && (s.mounts > 0 || w.mountOk) && w.unmountOk && w.rmdirOk
  }

  /**
   * What one deletion answers, and what becomes of the access point and the data. Without the removal of the root
   * directory only the access point is touched. With it, an access point that is not there is a success, and otherwise
   * the access point is deleted only if everything around the removal worked.
   */
  lemma DeletionExactly(s: State, w: Weather)
    ensures var (s', r) := After(s, w);
            && (r.Success? <==> || (w.removeRoot && w.describe.NotFound?)
                                || ((!w.removeRoot || Passes(s, w)) && (w.delete.Ok? || w.delete.NotFound?)))
            && (s'.accessPoint <==> s.accessPoint && !((!w.removeRoot || Passes(s, w)) && w.delete.Ok?))
            && (s'.rootDir <==> && s.rootDir
                                && !(&& w.removeRoot && w.describe.Ok? && w.mkdirOk && w.checkOk
                                     && (s.mounts > 0 || w.mountOk) && w.statOk && w.removeAllOk))
            && (!w.removeRoot ==> s'.mounts == s.mounts && s'.dir == s.dir)
  {
  }

  /** Whether the file system is mounted when a deletion comes to its deferred cleanup. */
  predicate MountedAtCleanup(s: State, w: Weather) {
    if !w.describe.Ok? || !w.mkdirOk || !w.checkOk then s.mounts > 0
    else !w.unmountOk && (s.mounts > 0 || w.mountOk)
  }

  /** A mount is left behind exactly when the cleanup finds one and cannot tell, or cannot unmount it. */
  lemma LeftMountedExactly(s: State, w: Weather)
    requires s.mounts <= 1 && w.removeRoot
    ensures After(s, w).0.mounts > 0 <==> MountedAtCleanup(s, w) && (!w.lastCheckOk || !w.lastUnmountOk)
  {
    var (s1, done) := RootRemoved(s, w);
    assert w.describe.Ok? && !done ==> (s1.mounts > 0 <==> MountedAtCleanup(s, w));
  }

  /** The temporary directory is left exactly when it was there or made, and nothing got to remove it. */
  lemma LeftDirectoryExactly(s: State, w: Weather)
    requires s.mounts <= 1 && w.removeRoot
    ensures After(s, w).0.dir
            <==> && !Passes(s, w) && (s.dir || (w.describe.Ok? && w.mkdirOk))
                 && !(w.lastCheckOk && w.lastRmdirOk && (!MountedAtCleanup(s, w) || w.lastUnmountOk))
  {
  }

  /**
   * If the last check, unmount and removal succeed, neither the mount nor the directory is left, whatever failed
   * before.
   */
  lemma NothingLeftBehind(s: State, w: Weather)
    requires s.mounts <= 1 && w.removeRoot && w.lastCheckOk && w.lastUnmountOk && w.lastRmdirOk
    ensures After(s, w).0.mounts == 0 && !After(s, w).0.dir
  {
    LeftMountedExactly(s, w);
    var (s1, done) := RootRemoved(s, w);
    assert done ==> !s1.dir && s1.mounts == 0;
  }

  /**
   * A deletion that reports success keeps the data exactly when the removal of the root directory did not happen: its
   * error is not looked at.
   */
  lemma DataLeftExactly(s: State, w: Weather)
    requires w.removeRoot && w.describe.Ok? && After(s, w).1.Success?
    ensures After(s, w).0.rootDir <==> s.rootDir && !(w.statOk && w.removeAllOk)
  {
    var (s1, done) := RootRemoved(s, w);
    assert done;
  }

  /** DescribeAccessPoint says whether the access point is there, or fails. */
  predicate Truthful(s: State, w: Weather) {
    (w.describe.Ok? ==> s.accessPoint) && (w.describe.NotFound? ==> !s.accessPoint)
  }

  ghost predicate RunTruthful(s: State, weathers: seq<Weather>) {
    forall i :: 0 <= i < |weathers| ==> Truthful(Run(s, weathers[..i]), weathers[i])
  }

  /** Then no retry ever removes it: with the access point gone, nothing leads to its directory. */
  lemma {:induction false} DataLeftForever(s: State, weathers: seq<Weather>)
    requires !s.accessPoint && RunTruthful(s, weathers)
    ensures !Run(s, weathers).accessPoint && Run(s, weathers).rootDir == s.rootDir
  {
    if weathers != [] {
      var n := |weathers| - 1;
      forall i | 0 <= i < n ensures Truthful(Run(s, weathers[..n][..i]), weathers[..n][i]) {
        assert weathers[..n][..i] == weathers[..i];
      }
      DataLeftForever(s, weathers[..n]);
      assert Truthful(Run(s, weathers[..n]), weathers[n]);
    }
  }

  /**
   * Such a success, from any state with an access point and its directory: the removal fails and every other call
   * works.
   */
  lemma FailedRemovalReportsSuccess(s: State, w: Weather)
    requires s.mounts <= 1 && s.accessPoint && s.rootDir
    requires w.removeRoot && w.describe.Ok? && w.mkdirOk && w.checkOk && w.mountOk && w.unmountOk && w.rmdirOk
    requires w.delete.Ok?
    requires !w.removeAllOk
    ensures After(s, w).1 == Success && !After(s, w).0.accessPoint && After(s, w).0.rootDir
  {
    var s1 := State(0, false, true, s.accessPoint);
    assert RootRemoved(s, w) == (s1, true);
  }
}
