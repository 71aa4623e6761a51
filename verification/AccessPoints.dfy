/**
 * Provisioning of access-point volumes, and its idempotence by client token (CreateVolume in controller.go, cloud.go).
 */
module AccessPoints {
  import opened Strings
  import GidAllocator
  import Paths
  import VolumeIds

  /** An access point; the driver's own have a POSIX user, others need not. */
  datatype AccessPoint = AccessPoint(fs: string, token: string, rootDir: string, user: Option<GidAllocator.PosixUser>)
  type Cloud = map<string, AccessPoint>

  /**
   * A request whose parameters parsed: explicit IDs, the GID range in force, and the directory name below the base
   * path.
   */
  datatype Request = Request(fs: string, token: string, reuse: bool, uid: Option<int>, gid: Option<int>,
                             gidMin: int, gidMax: int, basePath: string, dirName: string)

  /**
   * What one call meets: its API calls and the lock, the allocated GID, the listing's order and the identifier given
   * out.
   */
  datatype Weather = Weather(findOk: bool, listOk: bool, given: Option<int>, createOk: bool, findAgainOk: bool,
                             lockOk: bool, order: seq<string>, newId: string)

  predicate Matches(c: Cloud, id: string, fs: string, token: string) {
    id in c && c[id].fs == fs && c[id].token == token
  }

  /** FindAccessPointByClientToken */
  function FindByToken(c: Cloud, order: seq<string>, fs: string, token: string): (r: Option<string>)
    ensures r.Some? ==> r.value in order && Matches(c, r.value, fs, token)
    ensures r.None? ==> forall id :: id in order ==> !Matches(c, id, fs, token)
  {
    if order == [] then None
    else if Matches(c, order[0], fs, token) then Some(order[0])
    else FindByToken(c, order[1..], fs, token)
  }

  function Slashes(s: string): (n: nat) {
    if s == "" then 0 else (if s[0] == '/' then 1 else 0) + Slashes(s[1..])
  }

  /** validateEfsPathRequirements */
  predicate PathOk(p: string) {
    |p| <= 100 && Slashes(p) <= 5
  }

  /** validateExistingAccessPoint */
  predicate Accepts(ap: AccessPoint, basePath: string, gidMin: int, gidMax: int) {
    && TrimPrefix(basePath, "/") <= TrimPrefix(ap.rootDir, "/")
    && ap.user.Some? && gidMin <= ap.user.value.gid <= gidMax && gidMin <= ap.user.value.uid <= gidMax
  }

  predicate NeedsGid(req: Request) {
    req.uid.None? || req.gid.None?
  }

  /** The access point a request asks for. */
  function Wanted(req: Request, given: Option<int>): (ap: AccessPoint)
    requires NeedsGid(req) ==> given.Some?
  {
    AccessPoint(req.fs, req.token, Paths.JoinRooted(req.basePath, req.dirName),
                Some(GidAllocator.PosixUser(if req.gid.Some? then req.gid.value else given.value,
                                            if req.uid.Some? then req.uid.value else given.value)))
  }

  function VolumeId(req: Request, id: string): (v: string) {
    VolumeIds.PrintAp(req.fs, id)
  }

  function Locked(c: Cloud, req: Request, id: string, w: Weather): (x: (Cloud, Option<string>)) {
    (c, if w.lockOk then Some(VolumeId(req, id)) else None)
  }

  /** The part of CreateVolume that makes an access point, or falls back to the one that has the token. */
  function Provision(c: Cloud, req: Request, w: Weather): (x: (Cloud, Option<string>)) {
    if !w.listOk || (NeedsGid(req) && w.given.None?) then (c, None)
    else
      var ap := Wanted(req, w.given);
      var taken := FindByToken(c, w.order, req.fs, req.token);
      if !PathOk(ap.rootDir) || !w.createOk then (c, None)
      else if taken.None? then Locked(c[w.newId := ap], req, w.newId, w)
      else if !w.findAgainOk || !Accepts(c[taken.value], req.basePath, req.gidMin, req.gidMax) then (c, None)
      else Locked(c, req, taken.value, w)
  }

  /** CreateVolume for access points. */
  function Create(c: Cloud, req: Request, w: Weather): (x: (Cloud, Option<string>)) {
    var taken := FindByToken(c, w.order, req.fs, req.token);
    if !req.reuse then Provision(c, req, w)
    else if !w.findOk then (c, None)
    else if taken.Some? then Locked(c, req, taken.value, w)
    else Provision(c, req, w)
  }

  /** Listings are complete and identifiers new. */
  ghost predicate Possible(c: Cloud, w: Weather) {
    (forall id :: id in w.order <==> id in c) && w.newId !in c
  }

  /** At most one access point of a file system has a given token. */
  ghost predicate OneByToken(c: Cloud) {
    forall a, b :: a in c && b in c && c[a].fs == c[b].fs && c[a].token == c[b].token ==> a == b
  }

  // ---------------------------------------------------------------------------------------------------------
  // Idempotence

  /**
   * A successful call returns the volume of the one access point with its token, and the call only ever adds that one.
   */
  lemma CreateKeeps(c: Cloud, req: Request, w: Weather)
    requires OneByToken(c) && Possible(c, w)
    ensures var (c', v) := Create(c, req, w);
            && OneByToken(c')
            && (forall id :: id in c ==> id in c' && c'[id] == c[id])
            && (v.Some? ==> exists id :: Matches(c', id, req.fs, req.token) && v.value == VolumeId(req, id))
  {
    var taken := FindByToken(c, w.order, req.fs, req.token);
    var (c', v) := Create(c, req, w);
    if taken.Some? {
      assert v.Some? ==> Matches(c', taken.value, req.fs, req.token) && v.value == VolumeId(req, taken.value);
    } else {
      forall a | a in c ensures !Matches(c, a, req.fs, req.token) {}
      assert v.Some? ==> Matches(c', w.newId, req.fs, req.token) && v.value == VolumeId(req, w.newId);
    }
  }

  /** A call adds an access point: nothing has the token, and every call up to the one that creates works. */
  ghost predicate Adds(c: Cloud, req: Request, w: Weather) {
    var dir := Paths.JoinRooted(req.basePath, req.dirName);
    && (forall id :: !Matches(c, id, req.fs, req.token)) && (req.reuse ==> w.findOk)
    && w.listOk && (req.uid.None? || req.gid.None? ==> w.given.Some?)
    && |dir| <= 100 && multiset(dir)['/'] <= 5 && w.createOk
  }

  lemma {:induction false} SlashesCount(s: string)
    ensures Slashes(s) == multiset(s)['/']
  {
    if s != "" {
      SlashesCount(s[1..]);
      assert s == [s[0]] + s[1..];
      assert multiset(s) == multiset{s[0]} + multiset(s[1..]);
    }
  }

  /**
   * A call adds an access point exactly then, and that one: of the file system and with the token of the request, on
   * the directory below the base path, with the group and the user that were asked for, or else the allocated ID.
   */
  lemma AddsExactly(c: Cloud, req: Request, w: Weather)
    requires Possible(c, w)
    ensures var c' := Create(c, req, w).0;
            if Adds(c, req, w) then
              && w.newId in c' && c' - {w.newId} == c
              && var ap := c'[w.newId];
              && ap.fs == req.fs && ap.token == req.token && ap.rootDir == Paths.JoinRooted(req.basePath, req.dirName)
              && ap.user.Some?
              && ap.user.value.gid == (if req.gid.Some? then req.gid.value else w.given.value)
              && ap.user.value.uid == (if req.uid.Some? then req.uid.value else w.given.value)
            else c' == c
  {
    SlashesCount(Paths.JoinRooted(req.basePath, req.dirName));
    var taken := FindByToken(c, w.order, req.fs, req.token);
    assert taken.None? <==> forall id :: !Matches(c, id, req.fs, req.token);
  }

  /**
   * What a call answers: with the access point it adds or the one that has the token, if it may be handed out and its
   * lock is taken; without reuse that one has to pass the check, and every call on the way has to work.
   */
  lemma AnswersExactly(c: Cloud, req: Request, w: Weather, id: string)
    requires OneByToken(c) && Possible(c, w)
    ensures var v := Create(c, req, w).1;
            && (v == Some(req.fs + "::" + id) <==>
                  && w.lockOk
                  && (|| (Adds(c, req, w) && id == w.newId)
                      || (&& Matches(c, id, req.fs, req.token)
                          && if req.reuse then w.findOk
                             else var dir := Paths.JoinRooted(req.basePath, req.dirName);
                                  && w.listOk && (req.uid.None? || req.gid.None? ==> w.given.Some?)
                                  && |dir| <= 100 && multiset(dir)['/'] <= 5 && w.createOk && w.findAgainOk
                                  && Accepts(c[id], req.basePath, req.gidMin, req.gidMax))))
            && (v.Some? ==> exists i :: v == Some(req.fs + "::" + i))
  {
    SlashesCount(Paths.JoinRooted(req.basePath, req.dirName));
    var taken := FindByToken(c, w.order, req.fs, req.token);
    assert taken.None? <==> forall i :: !Matches(c, i, req.fs, req.token);
    AnswerNames(req, if taken.Some? then taken.value else w.newId, id);
  }

  lemma AnswerNames(req: Request, a: string, b: string)
    ensures VolumeId(req, a) == req.fs + "::" + a
    ensures req.fs + "::" + a == req.fs + "::" + b <==> a == b
  {
    var n := |req.fs| + 2;
    assert (req.fs + "::" + a)[n..] == a && (req.fs + "::" + b)[n..] == b;
  }

  datatype Event = Call(req: Request, w: Weather) | Remove(id: string)

  function Next(c: Cloud, e: Event): (c': Cloud) {
    match e
    case Call(req, w) => Create(c, req, w).0
    case Remove(id) => c - {id}
  }

  function Run(c: Cloud, events: seq<Event>): (c': Cloud) {
    if events == [] then c else Next(Run(c, events[..|events| - 1]), events[|events| - 1])
  }

  ghost predicate RunPossible(c: Cloud, events: seq<Event>) {
    forall i :: 0 <= i < |events| && events[i].Call? ==> Possible(Run(c, events[..i]), events[i].w)
  }

  lemma {:induction false} RunKeeps(c: Cloud, events: seq<Event>, id: string)
    requires OneByToken(c) && RunPossible(c, events)
    ensures OneByToken(Run(c, events))
    ensures id in c && Remove(id) !in events ==> id in Run(c, events) && Run(c, events)[id] == c[id]
  {
    if events != [] {
      var n := |events| - 1;
      assert RunPossible(c, events[..n]) by {
        forall i | 0 <= i < n && events[..n][i].Call? ensures Possible(Run(c, events[..n][..i]), events[..n][i].w) {
          assert events[..n][..i] == events[..i];
        }
      }
      RunKeeps(c, events[..n], id);
      assert events[n] in events;
      if events[n].Call? {
        assert Possible(Run(c, events[..n]), events[n].w);
        CreateKeeps(Run(c, events[..n]), events[n].req, events[n].w);
      }
    }
  }

  /**
   * Idempotence, as the CreateVolume section of the CSI specification asks: whatever other calls run in between, two
   * successful calls for one file system and token return the same volume, unless its access point was deleted.
   */
  lemma SameTokenSameVolume(c: Cloud, first: Request, w: Weather, between: seq<Event>, second: Request, w': Weather)
    requires OneByToken(c) && Possible(c, w) && first.fs == second.fs && first.token == second.token
    requires RunPossible(Create(c, first, w).0, between) && Possible(Run(Create(c, first, w).0, between), w')
    requires var v := Create(c, first, w).1;
             v.Some? && forall id :: v == Some(VolumeId(first, id)) ==> Remove(id) !in between
    requires Create(Run(Create(c, first, w).0, between), second, w').1.Some?
    ensures Create(Run(Create(c, first, w).0, between), second, w').1 == Create(c, first, w).1
  {
    CreateKeeps(c, first, w);
    var (c1, v1) := Create(c, first, w);
    var id :| Matches(c1, id, first.fs, first.token) && v1.value == VolumeId(first, id);
    RunKeeps(c1, between, id);
    var c2 := Run(c1, between);
    CreateKeeps(c2, second, w');
    var (c3, v2) := Create(c2, second, w');
    var id' :| Matches(c3, id', second.fs, second.token) && v2.value == VolumeId(second, id');
    assert id in c3 && id == id';
  }

  // ---------------------------------------------------------------------------------------------------------
  // Retries

  /**
   * Repeating a request whose calls all work succeeds exactly when the check accepts the access point that has its
   * token.
   */
  lemma RetryExactly(c: Cloud, req: Request, w: Weather, id: string)
    requires OneByToken(c) && Possible(c, w) && Matches(c, id, req.fs, req.token) && !req.reuse
    requires w.listOk && w.createOk && w.findAgainOk && w.lockOk && (NeedsGid(req) ==> w.given.Some?)
    requires PathOk(Paths.JoinRooted(req.basePath, req.dirName))
    ensures Create(c, req, w).1
            == if Accepts(c[id], req.basePath, req.gidMin, req.gidMax) then Some(VolumeId(req, id)) else None
  {
    var taken := FindByToken(c, w.order, req.fs, req.token);
    assert taken == Some(id);
  }

  /** And if the check refuses it, no retry of that request ever succeeds. */
  lemma RefusedForever(c: Cloud, req: Request, w: Weather, id: string)
    requires OneByToken(c) && Possible(c, w) && Matches(c, id, req.fs, req.token) && !req.reuse
    requires !Accepts(c[id], req.basePath, req.gidMin, req.gidMax)
    ensures Create(c, req, w) == (c, None)
  {
    var taken := FindByToken(c, w.order, req.fs, req.token);
    assert taken == Some(id);
  }

  /**
   * What a request made is accepted when the request comes again exactly when its base path stays a prefix of the
   * directory and its IDs lie in the GID range, for every base path: always if both IDs are allocated and the base
   * path is clean, never for explicit IDs outside the range or a base path such as "//data".
   */
  lemma OwnAccessPointAcceptedExactly(req: Request, given: Option<int>)
    requires Paths.PlainComponent(req.dirName)
    requires NeedsGid(req) ==> given.Some? && req.gidMin <= given.value <= req.gidMax
    ensures Accepts(Wanted(req, given), req.basePath, req.gidMin, req.gidMax)
            <==> && Paths.StaysPrefix(req.basePath, req.dirName)
                 && (req.uid.Some? ==> req.gidMin <= req.uid.value <= req.gidMax)
                 && (req.gid.Some? ==> req.gidMin <= req.gid.value <= req.gidMax)
  {
    Paths.StaysPrefixExactly(req.basePath, req.dirName);
  }

  /**
   * So a request with allocated IDs that has made its access point is repeated by every later call that works if its
   * base path stays a prefix, and refused by all of them if not.
   */
  lemma AllocatedRequestRepeatsExactly(c: Cloud, req: Request, w: Weather, w': Weather)
    requires OneByToken(c) && Possible(c, w) && !req.reuse && req.uid.None? && req.gid.None?
    requires Paths.PlainComponent(req.dirName)
    requires w.given.Some? && req.gidMin <= w.given.value <= req.gidMax && Create(c, req, w).1.Some?
    requires FindByToken(c, w.order, req.fs, req.token).None?
    requires Possible(Create(c, req, w).0, w')
    requires w'.listOk && w'.createOk && w'.findAgainOk && w'.lockOk && w'.given.Some?
    ensures Create(Create(c, req, w).0, req, w')
            == (Create(c, req, w).0, if Paths.StaysPrefix(req.basePath, req.dirName) then Create(c, req, w).1 else None)
  {
    CreateKeeps(c, req, w);
    var c1 := Create(c, req, w).0;
    OwnAccessPointAcceptedExactly(req, w.given);
    RetryExactly(c1, req, w', w.newId);
    CreateKeeps(c1, req, w');
    assert FindByToken(c1, w'.order, req.fs, req.token).Some?;
  }

  // ---------------------------------------------------------------------------------------------------------
  // The code

  /** The driver with the access points of its account. */
  class Provisioner {
    var accessPoints: Cloud

    constructor (c: Cloud)
      ensures accessPoints == c
    {
      accessPoints := c;
    }

    /** The loop of FindAccessPointByClientToken. */
    method FindAccessPointByClientToken(order: seq<string>, fs: string, token: string) returns (r: Option<string>)
      ensures r == FindByToken(accessPoints, order, fs, token)
    {
      for i := 0 to |order|
        invariant FindByToken(accessPoints, order, fs, token) == FindByToken(accessPoints, order[i..], fs, token)
      {
        if order[i] in accessPoints && accessPoints[order[i]].fs == fs && accessPoints[order[i]].token == token {
          return Some(order[i]);
        }
        assert order[i..][1..] == order[i + 1..];
      }
      return None;
    }

    /** ListAccessPoints, for the access points of one file system. */
    method ListAccessPoints(order: seq<string>, fs: string) returns (listed: seq<Option<GidAllocator.Listed>>)
      ensures |listed| <= |order|
      ensures forall g :: GidAllocator.InUse(listed, g) <==> Uses(accessPoints, order, fs, g)
    {
      listed := [];
      for i := 0 to |order|
        invariant |listed| <= i
        invariant forall g :: GidAllocator.InUse(listed, g) <==> Uses(accessPoints, order[..i], fs, g)
      {
        assert order[..i + 1] == order[..i] + [order[i]];
        UsesSnoc(accessPoints, order[..i], fs, order[i]);
        if order[i] in accessPoints && accessPoints[order[i]].fs == fs {
          // The listing puts the GID into both fields of the user.
          var user := accessPoints[order[i]].user;
          var posixUser :=
            if user.Some? then Some(GidAllocator.PosixUser(user.value.gid, user.value.gid)) else None;
          var entry := Some(GidAllocator.Listed(posixUser));
          InUseSnoc(listed, entry);
          listed := listed + [entry];
        }
      }
      assert order[..|order|] == order;
    }

    /** The part of CreateVolume that makes an access point; `given` is the GID it allocated, if it needed one. */
    method ProvisionAccessPoint(req: Request, w: Weather) returns (volumeId: Option<string>, given: Option<int>)
      requires 0 < req.gidMin < req.gidMax <= GidAllocator.MAX_INT64 && |w.order| < GidAllocator.MAX_INT64
      modifies this
      ensures (accessPoints, volumeId) == Provision(old(accessPoints), req, w.(given := given))
      ensures given.Some? && given.value >= 0 ==>
                req.gidMin <= given.value <= req.gidMax && !Uses(old(accessPoints), w.order, req.fs, given.value)
    {
      given := None;
      if !w.listOk { return None, None; }
      if NeedsGid(req) {
        var listed := ListAccessPoints(w.order, req.fs);
        given := GidAllocator.GetNextGid(listed, req.gidMin, req.gidMax);
        if given.None? { return None, None; }
      }
      var ap := Wanted(req, given);
      if !PathOk(ap.rootDir) { return None, given; }
      if !w.createOk { return None, given; }
      var taken := FindAccessPointByClientToken(w.order, req.fs, req.token);
      var id := w.newId;
      if taken.Some? {
        if !w.findAgainOk { return None, given; }
        if !Accepts(accessPoints[taken.value], req.basePath, req.gidMin, req.gidMax) { return None, given; }
        id := taken.value;
      } else {
        accessPoints := accessPoints[w.newId := ap];
      }
      if !w.lockOk { return None, given; }
      return Some(VolumeId(req, id)), given;
    }

    /** CreateVolume in the access-point mode. */
    method CreateVolume(req: Request, w: Weather) returns (volumeId: Option<string>, given: Option<int>)
      requires 0 < req.gidMin < req.gidMax <= GidAllocator.MAX_INT64 && |w.order| < GidAllocator.MAX_INT64
      modifies this
      ensures (accessPoints, volumeId) == Create(old(accessPoints), req, w.(given := given))
    {
      if req.reuse {
        if !w.findOk { return None, None; }
        var taken := FindAccessPointByClientToken(w.order, req.fs, req.token);
        if taken.Some? {
          if !w.lockOk { return None, None; }
          return Some(VolumeId(req, taken.value)), None;
        }
      }
      volumeId, given := ProvisionAccessPoint(req, w);
    }
  }

  predicate Has(c: Cloud, id: string, fs: string, g: int) {
    id in c && c[id].fs == fs && c[id].user.Some? && c[id].user.value.gid == g
  }

  /** Some access point of the file system uses this GID. */
  ghost predicate Uses(c: Cloud, order: seq<string>, fs: string, g: int) {
    exists id :: id in order && Has(c, id, fs, g)
  }

  lemma UsesSnoc(c: Cloud, order: seq<string>, fs: string, id: string)
    ensures forall g :: Uses(c, order + [id], fs, g) <==> Uses(c, order, fs, g) || Has(c, id, fs, g)
  {
    var more := order + [id];
    forall x ensures x in more <==> x in order || x == id {}
  }

  lemma InUseSnoc(listed: seq<Option<GidAllocator.Listed>>, entry: Option<GidAllocator.Listed>)
    requires entry.Some?
    ensures forall g :: GidAllocator.InUse(listed + [entry], g)
              <==> || GidAllocator.InUse(listed, g)
                   || (entry.value.posixUser.Some? && g == entry.value.posixUser.value.gid)
  {
    var more := listed + [entry];
    assert more[|listed|] == entry;
    forall g ensures GidAllocator.InUse(more, g)
               <==> || GidAllocator.InUse(listed, g)
                    || (entry.value.posixUser.Some? && g == entry.value.posixUser.value.gid)
    {
      assert forall i :: 0 <= i < |listed| ==> more[i] == listed[i];
    }
  }

  /** The GID range of a request, from its two optional parameters. */
  function GidRange(gidMin: Option<int>, gidMax: Option<int>): (r: Option<(int, int)>)
    ensures r.Some? ==> 0 < r.value.0 < r.value.1
    ensures r.Some?
            <==> (gidMin.None? && gidMax.None?) || (gidMin.Some? && gidMax.Some? && 0 < gidMin.value < gidMax.value)
    ensures r.Some? && gidMin.Some? ==> r.value == (gidMin.value, gidMax.value)
    ensures r.Some? && gidMin.None? ==> r.value == (50000, 51000)
  {
    if gidMin.Some? && gidMin.value <= 0 then None
    else if gidMax.Some? then
      if gidMin.None? || gidMax.value <= gidMin.value then None else Some((gidMin.value, gidMax.value))
    else if gidMin.Some? then None
    else Some((GidAllocator.DEFAULT_GID_MIN, GidAllocator.DEFAULT_GID_MAX))
  }
}
