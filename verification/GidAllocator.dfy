/** The GID allocator (gid_allocator.go), with its int64 arithmetic written out. */
module GidAllocator {
  import opened Strings

  const MIN_INT64: int := -0x8000_0000_0000_0000
  const MAX_INT64: int := 0x7FFF_FFFF_FFFF_FFFF
  const ACCESS_POINT_PER_FS_LIMIT: int := 1000
  const DEFAULT_GID_MIN: int := 50000
  const DEFAULT_GID_MAX: int := DEFAULT_GID_MIN + ACCESS_POINT_PER_FS_LIMIT

  predicate IsInt64(x: int) { MIN_INT64 <= x <= MAX_INT64 }

  /** The int64 a sum or difference of two int64 values wraps to. */
  function Wrap(x: int): (r: int)
    requires MIN_INT64 + MIN_INT64 <= x <= MAX_INT64 - MIN_INT64
    ensures IsInt64(r) && (r - x == 0 || r - x == 0x1_0000_0000_0000_0000 || x - r == 0x1_0000_0000_0000_0000)
  {
    if x > MAX_INT64 then x - 0x1_0000_0000_0000_0000
    else if x < MIN_INT64 then x + 0x1_0000_0000_0000_0000
    else x
  }

  datatype PosixUser = PosixUser(gid: int, uid: int)
  datatype Listed = Listed(posixUser: Option<PosixUser>)

  /** Some listed access point uses this GID. */
  ghost predicate InUse(accessPoints: seq<Option<Listed>>, gid: int) {
    exists i :: 0 <= i < |accessPoints| && accessPoints[i].Some?
      && accessPoints[i].value.posixUser.Some? && accessPoints[i].value.posixUser.value.gid == gid
  }

  /** getUsedGids */
  method GetUsedGids(accessPoints: seq<Option<Listed>>) returns (gids: seq<int>)
    ensures forall g :: g in gids <==> InUse(accessPoints, g)
    ensures |gids| <= |accessPoints|
  {
    gids := [];
    for i := 0 to |accessPoints|
      invariant |gids| <= i
      invariant forall g :: g in gids <==> InUse(accessPoints[..i], g)
    {
      assert accessPoints[..i + 1] == accessPoints[..i] + [accessPoints[i]];
      ghost var before := gids;
      if accessPoints[i].Some? && accessPoints[i].value.posixUser.Some? {
        gids := gids + [accessPoints[i].value.posixUser.value.gid];
      }
      forall g ensures g in gids <==> InUse(accessPoints[..i + 1], g) {
        if InUse(accessPoints[..i], g) {
          var k :| 0 <= k < i && accessPoints[..i][k].Some? && accessPoints[..i][k].value.posixUser.Some?
                   && accessPoints[..i][k].value.posixUser.value.gid == g;
          assert accessPoints[..i + 1][k] == accessPoints[..i][k];
        }
        assert accessPoints[..i + 1][i] == accessPoints[i];
      }
    }
    assert accessPoints[..|accessPoints|] == accessPoints;
  }

  ghost predicate AllUsed(used: seq<int>, lo: int, hi: int) {
    forall g :: lo <= g <= hi ==> g in used
  }

  ghost predicate LeastUnused(used: seq<int>, lo: int, hi: int, g: int) {
    lo <= g <= hi && g !in used && AllUsed(used, lo, g - 1)
  }

  /** The upper bound the search really uses. */
  function SearchMax(gidMin: int, gidMax: int): (hi: int)
    requires IsInt64(gidMin) && IsInt64(gidMax)
    ensures IsInt64(hi)
    ensures 0 <= gidMin <= gidMax ==>
              && gidMin <= hi <= gidMax && hi - gidMin <= ACCESS_POINT_PER_FS_LIMIT
              && (hi == gidMax || hi == gidMin + ACCESS_POINT_PER_FS_LIMIT)
  {
    if Wrap(gidMax - gidMin) > ACCESS_POINT_PER_FS_LIMIT then Wrap(gidMin + ACCESS_POINT_PER_FS_LIMIT) else gidMax
  }

  /** A sequence that holds every value of an interval is at least as long as the interval. */
  lemma {:induction false} Pigeonhole(used: seq<int>, lo: int, hi: int)
    requires lo <= hi + 1 && AllUsed(used, lo, hi)
    ensures hi + 1 - lo <= |used|
    decreases hi + 1 - lo
  {
    if lo <= hi {
      assert hi in used;
      var i :| 0 <= i < |used| && used[i] == hi;
      var rest := used[..i] + used[i + 1..];
      forall g | lo <= g <= hi - 1 ensures g in rest {
        assert g in used;
        var j :| 0 <= j < |used| && used[j] == g;
        assert rest[if j < i then j else j - 1] == g;
      }
      Pigeonhole(rest, lo, hi - 1);
    }
  }

  /** getNextUnusedGid. `None` is its error; -1 doubles as "not found", as in the source. */
  method GetNextUnusedGid(used: seq<int>, gidMin: int, gidMax: int) returns (r: Option<int>)
    requires IsInt64(gidMin) && IsInt64(gidMax) && |used| <= MAX_INT64
    ensures gidMin > SearchMax(gidMin, gidMax) ==> r.None?
    ensures forall g :: LeastUnused(used, gidMin, SearchMax(gidMin, gidMax), g)
                        ==> r == if g == -1 then None else Some(g)
    ensures AllUsed(used, gidMin, SearchMax(gidMin, gidMax)) && SearchMax(gidMin, gidMax) < MAX_INT64 ==> r.None?
    ensures gidMin <= SearchMax(gidMin, gidMax) == MAX_INT64 && AllUsed(used, gidMin, MAX_INT64)
            ==> exists g :: LeastUnused(used, MIN_INT64, MAX_INT64, g) && r == if g == -1 then None else Some(g)
  {
    var requestedRange := Wrap(gidMax - gidMin);
    var hi := gidMax;
    if requestedRange > ACCESS_POINT_PER_FS_LIMIT {
      hi := Wrap(gidMin + ACCESS_POINT_PER_FS_LIMIT);
    }
    var nextGid := -1;
    var gid := gidMin;
    ghost var wrapped := false;
    ghost var lo := gidMin;
    while gid <= hi
      invariant IsInt64(gid) && lo <= gid && hi == SearchMax(gidMin, gidMax)
      invariant AllUsed(used, lo, gid - 1)
      invariant nextGid == -1
      invariant lo == if wrapped then MIN_INT64 else gidMin
      invariant wrapped ==> hi == MAX_INT64 && gidMin <= hi && AllUsed(used, gidMin, MAX_INT64)
      invariant !wrapped && gid > hi ==> hi < MAX_INT64 || gidMin > hi
      decreases if wrapped then 0 else 1, MAX_INT64 - gid
    {
      if gid !in used {
        nextGid := gid;
        assert LeastUnused(used, lo, hi, gid);
        break;
      }
      Pigeonhole(used, lo, gid);
      if gid == MAX_INT64 {
        wrapped, lo := true, MIN_INT64;
      }
      gid := Wrap(gid + 1);
    }
    if nextGid == -1 { return None; }
    return Some(nextGid);
  }

  ghost predicate RangeFull(accessPoints: seq<Option<Listed>>, gidMin: int, gidMax: int) {
    forall x :: gidMin <= x <= gidMax ==> InUse(accessPoints, x)
  }

  /**
   * getNextGid, in the ranges CreateVolume lets through. The allocator does what it promises, the least free GID
   * of the clamped range or an error exactly when there is none, unless the clamped range ends at the int64
   * maximum and is full: then the loop counter wraps and a negative GID comes back.
   */
  method GetNextGid(accessPoints: seq<Option<Listed>>, gidMin: int, gidMax: int) returns (r: Option<int>)
    requires 0 < gidMin < gidMax <= MAX_INT64 && |accessPoints| < MAX_INT64
    ensures r.Some? && r.value >= 0 ==>
              && gidMin <= r.value <= SearchMax(gidMin, gidMax)
              && !InUse(accessPoints, r.value) && RangeFull(accessPoints, gidMin, r.value - 1)
    ensures r.Some? && r.value < 0 <==>
              SearchMax(gidMin, gidMax) == MAX_INT64 && RangeFull(accessPoints, gidMin, MAX_INT64)
    ensures r.None? <==>
              SearchMax(gidMin, gidMax) < MAX_INT64 && RangeFull(accessPoints, gidMin, SearchMax(gidMin, gidMax))
    ensures |accessPoints| <= ACCESS_POINT_PER_FS_LIMIT && gidMax - gidMin >= ACCESS_POINT_PER_FS_LIMIT
            ==> r.Some? && gidMin <= r.value <= gidMin + ACCESS_POINT_PER_FS_LIMIT
  {
    var used := GetUsedGids(accessPoints);
    ghost var hi := SearchMax(gidMin, gidMax);
    r := GetNextUnusedGid(used, gidMin, gidMax);
    if AllUsed(used, gidMin, hi) {
      Pigeonhole(used, gidMin, hi);
      if hi == MAX_INT64 {
        ghost var g :| LeastUnused(used, MIN_INT64, MAX_INT64, g) && r == if g == -1 then None else Some(g);
        Pigeonhole(used, MIN_INT64, g - 1);
      }
    } else {
      ghost var g := LeastUnusedExists(used, gidMin, hi);
    }
  }

  lemma {:induction false} LeastUnusedExists(used: seq<int>, lo: int, hi: int) returns (g: int)
    requires !AllUsed(used, lo, hi)
    ensures LeastUnused(used, lo, hi, g)
    decreases hi - lo
  {
    if lo !in used {
      g := lo;
    } else {
      g := LeastUnusedExists(used, lo + 1, hi);
    }
  }

  /**
   * The wrap-around happens: both GIDs of a range that ends at the maximum are taken, and a negative GID is returned.
   */
  method WrapAroundExample() returns (r: Option<int>)
    ensures r == Some(MIN_INT64)
  {
    var used := [MAX_INT64 - 1, MAX_INT64];
    assert AllUsed(used, MAX_INT64 - 1, MAX_INT64);
    assert LeastUnused(used, MIN_INT64, MAX_INT64, MIN_INT64);
    r := GetNextUnusedGid(used, MAX_INT64 - 1, MAX_INT64);
  }

  /** The default range is wide enough for the thousand access points a file system may hold. */
  method DefaultRangeNeverFails(accessPoints: seq<Option<Listed>>) returns (r: Option<int>)
    requires |accessPoints| <= ACCESS_POINT_PER_FS_LIMIT
    ensures r.Some? && DEFAULT_GID_MIN <= r.value <= DEFAULT_GID_MAX && !InUse(accessPoints, r.value)
  {
    r := GetNextGid(accessPoints, DEFAULT_GID_MIN, DEFAULT_GID_MAX);
  }
}
