/** Assembly of the mount options of a published volume (NodePublishVolume and hasOption in node.go). */
module MountOptions {
  import opened Strings
  import Paths
  import VolumeIds

  const TLS: string := "tls"
  const CROSS_ACCOUNT: string := "crossaccount"
  const MOUNT_TARGET_IP: string := "mounttargetip"
  const ACCESS_POINT: string := "accesspoint="
  const AWS_CREDS_URI: string := "awscredsuri"

  type Context = map<string, string>

  /** strconv.ParseBool */
  function ParseBool(v: string): (r: Option<bool>) {
    if v in {"1", "t", "T", "TRUE", "true", "True"} then Some(true)
    else if v in {"0", "f", "F", "FALSE", "false", "False"} then Some(false)
    else None
  }

  datatype Property = Path | Identity | Encrypt | Ip | Cross | Unsupported

  /** What a key of the volume context means; case does not matter. */
  function PropertyOf(key: string): (p: Property) {
    var k := ToLower(key);
    if k == "path" then Path
    else if k == "storage.kubernetes.io/csiprovisioneridentity" then Identity
    else if k == "encryptintransit" then Encrypt
    else if k == MOUNT_TARGET_IP then Ip
    else if k == CROSS_ACCOUNT then Cross
    else Unsupported
  }

  /** An entry of the volume context: what it sets, its value, and its value as a boolean. */
  datatype Entry = Entry(property: Property, text: string, flag: Option<bool>)
  {
    predicate Ok() {
      match property
      case Path => "/" <= text
      case Identity => true
      case Encrypt => flag.Some?
      case Ip => true
      case Cross => flag.Some?
      case Unsupported => false
    }
  }

  function EntryOf(key: string, v: string): (e: Entry) {
    Entry(PropertyOf(key), v, ParseBool(v))
  }

  function Entries(ctx: Context, keys: seq<string>): (r: seq<Entry>)
    requires forall k :: k in keys ==> k in ctx
    ensures |r| == |keys| && forall i :: 0 <= i < |keys| ==> r[i] == EntryOf(keys[i], ctx[keys[i]])
  {
    seq(|keys|, i requires 0 <= i < |keys| => EntryOf(keys[i], ctx[keys[i]]))
  }

  /** What the volume context sets. */
  datatype Settings = Settings(subpath: string, encrypt: bool, cross: bool, options: seq<string>)

  /** The address option reads the context under the exact spelling. */
  function IpOption(ctx: Context): (o: string) {
    MOUNT_TARGET_IP + "=" + if MOUNT_TARGET_IP in ctx then ctx[MOUNT_TARGET_IP] else ""
  }

  function Apply(s: Settings, e: Entry, ip: string): (s': Settings)
    requires e.Ok()
  {
    match e.property
    case Path => s.(subpath := Paths.JoinTwo(s.subpath, e.text))
    case Encrypt => s.(encrypt := e.flag.value)
    case Ip => s.(options := s.options + [ip])
    case Cross => s.(cross := e.flag.value)
    case _ => s
  }

  /** The loop over the volume context. */
  function ScanEntries(entries: seq<Entry>, ip: string): (r: Option<Settings>) {
    if entries == [] then Some(Settings("/", true, false, []))
    else
      var rest, e := ScanEntries(entries[..|entries| - 1], ip), entries[|entries| - 1];
      if rest.None? || !e.Ok() then None else Some(Apply(rest.value, e, ip))
  }

  /** The same, in the order of `keys`. */
  function Scan(ctx: Context, keys: seq<string>): (r: Option<Settings>)
    requires forall k :: k in keys ==> k in ctx
  {
    ScanEntries(Entries(ctx, keys), IpOption(ctx))
  }

  /** The options of the context and of the access point. */
  function FirstOptions(options: seq<string>, accessPointId: string): (o1: seq<string>) {
    options + if accessPointId != "" then [ACCESS_POINT + accessPointId, TLS] else []
  }

  /** The options before the mount flags. */
  function Base(s: Settings, accessPointId: string, readonly: bool): (options: seq<string>) {
    var o1 := FirstOptions(s.options, accessPointId);
    var o2 := o1 + if s.encrypt && TLS !in o1 then [TLS] else [];
    o2 + (if s.cross then [CROSS_ACCOUNT] else []) + if readonly then ["ro"] else []
  }

  /** A mount flag, in lower case, that does not contradict the volume. */
  predicate FlagOk(flag: string, nsVolume: bool, accessPointId: string, encrypt: bool) {
    && (ACCESS_POINT <= flag ==> !nsVolume && (accessPointId == "" || flag[|ACCESS_POINT|..] == accessPointId))
    && (flag == TLS ==> encrypt)
  }

  ghost predicate FlagsOk(flags: seq<string>, nsVolume: bool, accessPointId: string, encrypt: bool) {
    forall i :: 0 <= i < |flags| ==> FlagOk(ToLower(flags[i]), nsVolume, accessPointId, encrypt)
  }

  function AddFlags(options: seq<string>, flags: seq<string>): (r: seq<string>) {
    if flags == [] then options
    else
      var rest, flag := AddFlags(options, flags[..|flags| - 1]), ToLower(flags[|flags| - 1]);
      if AWS_CREDS_URI <= flag || flag in rest then rest else rest + [flag]
  }

  /** Which volume is mounted: a path or an access point of a file system, or a whole file system of a namespace. */
  datatype Volume = Volume(nsVolume: bool, fileSystemId: string, path: string, accessPointId: string)

  function VolumeOf(volumeId: string): (r: Option<Volume>) {
    if VolumeIds.IsNsVolume(volumeId) then
      var v := VolumeIds.Parse(volumeId);
      if v.Some? then Some(Volume(true, v.value.fileSystemId, "", "")) else None
    else
      var v := VolumeIds.ParseAp(volumeId);
      if v.Some? then Some(Volume(false, v.value.fileSystemId, v.value.subpath, v.value.accessPointId)) else None
  }

  /** What to mount, and with which options. */
  datatype Mount = Mount(source: string, options: seq<string>)

  /** A path in the volume ID comes before one in the context, and an efs-ns volume is always mounted at its root. */
  function SourceOf(s: Settings, v: Volume): (source: string) {
    v.fileSystemId + ":" + if v.nsVolume then "/" else if v.path != "" then v.path else s.subpath
  }

  ghost function Assembled(ctx: Context, keys: seq<string>, volumeId: string, readonly: bool,
                           flags: seq<string>): (r: Option<Mount>)
    requires forall k :: k in keys ==> k in ctx
  {
    var s, v := Scan(ctx, keys), VolumeOf(volumeId);
    if s.None? || v.None? || !FlagsOk(flags, v.value.nsVolume, v.value.accessPointId, s.value.encrypt) then None
    else Some(Mount(SourceOf(s.value, v.value), AddFlags(Base(s.value, v.value.accessPointId, readonly), flags)))
  }

  // ---------------------------------------------------------------------------------------------------------
  // The code

  method HasOption(options: seq<string>, opt: string) returns (found: bool)
    ensures found <==> opt in options
  {
    for i := 0 to |options|
      invariant opt !in options[..i]
    {
      if options[i] == opt { return true; }
    }
    return false;
  }

  /** The switch over the entries of the volume context, in the order they come. */
  method ReadEntries(entries: seq<Entry>, ip: string) returns (r: Option<Settings>)
    ensures r == ScanEntries(entries, ip)
  {
    var subpath, encrypt, cross, options := "/", true, false, [];
    for i := 0 to |entries|
      invariant ScanEntries(entries[..i], ip) == Some(Settings(subpath, encrypt, cross, options))
    {
      var e := entries[i];
      assert entries[..i + 1][..i] == entries[..i];
      if !e.Ok() {
        NoneStays(entries, i + 1, ip);
        return None;
      }
      match e.property
      case Path => subpath := Paths.JoinTwo(subpath, e.text);
      case Encrypt => encrypt := e.flag.value;
      case Ip => options := options + [ip];
      case Cross => cross := e.flag.value;
      case _ =>
    }
    assert entries[..|entries|] == entries;
    return Some(Settings(subpath, encrypt, cross, options));
  }

  lemma {:induction false} NoneStays(entries: seq<Entry>, n: nat, ip: string)
    requires n <= |entries| && ScanEntries(entries[..n], ip).None?
    ensures ScanEntries(entries, ip).None?
  {
    if n < |entries| {
      assert entries[..|entries| - 1][..n] == entries[..n];
      NoneStays(entries[..|entries| - 1], n, ip);
    } else {
      assert entries[..n] == entries;
    }
  }

  method AppendFlags(base: seq<string>, flags: seq<string>, nsVolume: bool, accessPointId: string, encrypt: bool)
    returns (r: Option<seq<string>>)
    ensures r == if FlagsOk(flags, nsVolume, accessPointId, encrypt) then Some(AddFlags(base, flags)) else None
  {
    var options := base;
    for i := 0 to |flags|
      invariant FlagsOk(flags[..i], nsVolume, accessPointId, encrypt)
      invariant options == AddFlags(base, flags[..i])
    {
      var f := ToLower(flags[i]);
      assert flags[..i + 1][..i] == flags[..i];
      if ACCESS_POINT <= f {
        if nsVolume { return None; }
        if accessPointId != "" && f[|ACCESS_POINT|..] != accessPointId { return None; }
      }
      if f == TLS && !encrypt { return None; }
      if AWS_CREDS_URI <= f { continue; }
      var present := HasOption(options, f);
      if !present { options := options + [f]; }
    }
    assert flags[..|flags|] == flags;
    return Some(options);
  }

  method OwnOptionsOf(s: Settings, accessPointId: string, readonly: bool) returns (options: seq<string>)
    ensures options == Base(s, accessPointId, readonly)
  {
    options := s.options;
    if accessPointId != "" { options := options + [ACCESS_POINT + accessPointId, TLS]; }
    if s.encrypt {
      var present := HasOption(options, TLS);
      if !present { options := options + [TLS]; }
    }
    if s.cross { options := options + [CROSS_ACCOUNT]; }
    if readonly { options := options + ["ro"]; }
  }

  /** The option assembly of NodePublishVolume; `keys` is the order in which the volume context is visited. */
  method AssembleOptions(ctx: Context, keys: seq<string>, volumeId: string, readonly: bool, flags: seq<string>)
    returns (r: Option<Mount>)
    requires forall k :: k in keys ==> k in ctx
    ensures r == Assembled(ctx, keys, volumeId, readonly, flags)
  {
    var s := ReadEntries(Entries(ctx, keys), IpOption(ctx));
    if s.None? { return None; }
    var v := VolumeOf(volumeId);
    if v.None? { return None; }
    var subpath := s.value.subpath;
    if v.value.nsVolume {
      subpath := "/";
    } else if v.value.path != "" {
      subpath := v.value.path;
    }
    var own := OwnOptionsOf(s.value, v.value.accessPointId, readonly);
    var options := AppendFlags(own, flags, v.value.nsVolume, v.value.accessPointId, s.value.encrypt);
    if options.None? { return None; }
    return Some(Mount(v.value.fileSystemId + ":" + subpath, options.value));
  }

  // ---------------------------------------------------------------------------------------------------------
  // The promises

  ghost predicate Distinct(options: seq<string>) {
    forall i, j :: 0 <= i < j < |options| ==> options[i] != options[j]
  }

  /** How many entries set the address. */
  function IpEntries(entries: seq<Entry>): (n: nat) {
    if entries == [] then 0
    else IpEntries(entries[..|entries| - 1]) + if entries[|entries| - 1].property == Ip then 1 else 0
  }

  /** The context contributes the address option once for every entry that sets it, and nothing else. */
  lemma {:induction false} ScannedOptions(entries: seq<Entry>, ip: string)
    requires ScanEntries(entries, ip).Some?
    ensures |ScanEntries(entries, ip).value.options| == IpEntries(entries)
    ensures forall o :: o in ScanEntries(entries, ip).value.options ==> o == ip
  {
    if entries != [] { ScannedOptions(entries[..|entries| - 1], ip); }
  }

  /** A mount flag that says `o`, in whatever case. */
  ghost predicate HasFlag(flags: seq<string>, o: string) {
    exists i :: 0 <= i < |flags| && ToLower(flags[i]) == o
  }

  /** An option that appears in what the flags added to `options`. */
  lemma {:induction false} FlagsMembers(options: seq<string>, flags: seq<string>, o: string)
    ensures o in AddFlags(options, flags)
            <==> o in options || (!(AWS_CREDS_URI <= o) && HasFlag(flags, o))
  {
    if flags != [] {
      var n := |flags| - 1;
      FlagsMembers(options, flags[..n], o);
      assert forall i :: 0 <= i < n ==> flags[..n][i] == flags[i];
    }
  }

  /** The flags never add a duplicate. */
  lemma {:induction false} FlagsDistinct(options: seq<string>, flags: seq<string>)
    ensures Distinct(AddFlags(options, flags)) <==> Distinct(options)
  {
    if flags != [] {
      var n := |flags| - 1;
      var rest, flag := AddFlags(options, flags[..n]), ToLower(flags[n]);
      FlagsDistinct(options, flags[..n]);
      if !(AWS_CREDS_URI <= flag) && flag !in rest {
        var more := rest + [flag];
        assert forall i :: 0 <= i < |rest| ==> more[i] == rest[i];
      }
    }
  }

  /** The first characters tell the driver's own options apart. */
  lemma OwnOptions(ctx: Context, accessPointId: string)
    ensures IpOption(ctx)[0] == 'm' && TLS[0] == 't' && CROSS_ACCOUNT[0] == 'c' && "ro"[0] == 'r'
    ensures (ACCESS_POINT + accessPointId)[0] == 'a' && ACCESS_POINT[0] == 'a' && |ACCESS_POINT| == 12
    ensures |IpOption(ctx)| > 0
  {
  }

  lemma OneMoreDistinct(options: seq<string>, o: string)
    requires o !in options
    ensures Distinct(options + [o]) <==> Distinct(options)
  {
    var more := options + [o];
    assert forall i :: 0 <= i < |options| ==> more[i] == options[i];
  }

  lemma SameDistinct(options: seq<string>, o: string)
    requires forall x :: x in options ==> x == o
    ensures Distinct(options) <==> |options| <= 1
  {
    if |options| >= 2 { assert options[0] in options && options[1] in options; }
  }

  lemma BaseDistinct(ctx: Context, s: Settings, accessPointId: string, readonly: bool)
    requires forall o :: o in s.options ==> o == IpOption(ctx)
    ensures Distinct(Base(s, accessPointId, readonly)) <==> |s.options| <= 1
  {
    FirstDistinct(ctx, s.options, accessPointId);
    RestDistinct(FirstOptions(s.options, accessPointId), s.encrypt, s.cross, readonly);
  }

  lemma FirstDistinct(ctx: Context, options: seq<string>, accessPointId: string)
    requires forall o :: o in options ==> o == IpOption(ctx)
    ensures var o1 := FirstOptions(options, accessPointId);
            && (Distinct(o1) <==> |options| <= 1)
            && forall o :: o in o1 ==> |o| > 0 && o[0] in {'m', 'a', 't'}
  {
    OwnOptions(ctx, accessPointId);
    SameDistinct(options, IpOption(ctx));
    if accessPointId != "" {
      OneMoreDistinct(options, ACCESS_POINT + accessPointId);
      OneMoreDistinct(options + [ACCESS_POINT + accessPointId], TLS);
      assert FirstOptions(options, accessPointId) == options + [ACCESS_POINT + accessPointId] + [TLS];
    } else {
      assert FirstOptions(options, accessPointId) == options;
    }
  }

  lemma RestDistinct(o1: seq<string>, encrypt: bool, cross: bool, readonly: bool)
    requires forall o :: o in o1 ==> |o| > 0 && o[0] in {'m', 'a', 't'}
    ensures var o2 := o1 + if encrypt && TLS !in o1 then [TLS] else [];
            Distinct(o2 + (if cross then [CROSS_ACCOUNT] else []) + if readonly then ["ro"] else []) <==> Distinct(o1)
  {
    assert TLS[0] == 't' && CROSS_ACCOUNT[0] == 'c' && "ro"[0] == 'r';
    var o2 := o1 + if encrypt && TLS !in o1 then [TLS] else [];
    if encrypt && TLS !in o1 { OneMoreDistinct(o1, TLS); } else { assert o2 == o1; }
    var o3 := o2 + if cross then [CROSS_ACCOUNT] else [];
    if cross { OneMoreDistinct(o2, CROSS_ACCOUNT); } else { assert o3 == o2; }
    if readonly { OneMoreDistinct(o3, "ro"); } else { assert o3 + [] == o3; }
  }

  /** The assembled options repeat one exactly when two keys of the context spell the address property. */
  lemma NoDuplicatesExactly(ctx: Context, keys: seq<string>, volumeId: string, readonly: bool, flags: seq<string>)
    requires (forall k :: k in keys ==> k in ctx) && Assembled(ctx, keys, volumeId, readonly, flags).Some?
    ensures Distinct(Assembled(ctx, keys, volumeId, readonly, flags).value.options)
            <==> IpEntries(Entries(ctx, keys)) <= 1
  {
    var s, v := Scan(ctx, keys).value, VolumeOf(volumeId).value;
    ScannedOptions(Entries(ctx, keys), IpOption(ctx));
    BaseDistinct(ctx, s, v.accessPointId, readonly);
    FlagsDistinct(Base(s, v.accessPointId, readonly), flags);
  }

  lemma BaseMembers(ctx: Context, s: Settings, accessPointId: string, readonly: bool, o: string)
    requires forall x :: x in s.options ==> x == IpOption(ctx)
    ensures o == TLS ==> (o in Base(s, accessPointId, readonly) <==> s.encrypt || accessPointId != "")
    ensures ACCESS_POINT <= o ==>
              (o in Base(s, accessPointId, readonly) <==> accessPointId != "" && o == ACCESS_POINT + accessPointId)
  {
    OwnOptions(ctx, accessPointId);
  }

  /** TLS is on exactly when encryption in transit is, or the volume ID names an access point. */
  lemma TlsExactly(ctx: Context, keys: seq<string>, volumeId: string, readonly: bool, flags: seq<string>)
    requires (forall k :: k in keys ==> k in ctx) && Assembled(ctx, keys, volumeId, readonly, flags).Some?
    ensures TLS in Assembled(ctx, keys, volumeId, readonly, flags).value.options
            <==> Scan(ctx, keys).value.encrypt || VolumeOf(volumeId).value.accessPointId != ""
  {
    var s, v := Scan(ctx, keys).value, VolumeOf(volumeId).value;
    ScannedOptions(Entries(ctx, keys), IpOption(ctx));
    var base := Base(s, v.accessPointId, readonly);
    BaseMembers(ctx, s, v.accessPointId, readonly, TLS);
    FlagsMembers(base, flags, TLS);
  }

  /**
   * A volume ID that names an access point gives that access point and no other; an efs-ns volume gives none; and any
   * other access point option is a mount flag of a volume that names none.
   */
  lemma AccessPointExactly(ctx: Context, keys: seq<string>, volumeId: string, readonly: bool, flags: seq<string>,
                           o: string)
    requires (forall k :: k in keys ==> k in ctx) && Assembled(ctx, keys, volumeId, readonly, flags).Some?
    requires ACCESS_POINT <= o
    ensures var v, r := VolumeOf(volumeId).value, Assembled(ctx, keys, volumeId, readonly, flags).value.options;
            && (v.accessPointId != "" ==> (o in r <==> o == ACCESS_POINT + v.accessPointId))
            && (v.nsVolume ==> o !in r)
            && (v.accessPointId == "" ==> (o in r <==> HasFlag(flags, o)))
  {
    var s, v := Scan(ctx, keys).value, VolumeOf(volumeId).value;
    ScannedOptions(Entries(ctx, keys), IpOption(ctx));
    AccessPointOption(ctx, s, v, readonly, flags, o);
  }

  lemma AccessPointOption(ctx: Context, s: Settings, v: Volume, readonly: bool, flags: seq<string>, o: string)
    requires (forall x :: x in s.options ==> x == IpOption(ctx)) && (v.nsVolume ==> v.accessPointId == "")
    requires FlagsOk(flags, v.nsVolume, v.accessPointId, s.encrypt) && ACCESS_POINT <= o
    ensures var r := AddFlags(Base(s, v.accessPointId, readonly), flags);
            && (v.accessPointId != "" ==> (o in r <==> o == ACCESS_POINT + v.accessPointId))
            && (v.nsVolume ==> o !in r)
            && (v.accessPointId == "" ==> (o in r <==> HasFlag(flags, o)))
  {
    var base := Base(s, v.accessPointId, readonly);
    BaseMembers(ctx, s, v.accessPointId, readonly, o);
    FlagsMembers(base, flags, o);
    NotCredentials(o);
    AccessPointFlags(flags, v, s.encrypt, o);
  }

  lemma NotCredentials(o: string)
    requires ACCESS_POINT <= o
    ensures !(AWS_CREDS_URI <= o)
  {
    assert AWS_CREDS_URI[1] == 'w' && o[1] == ACCESS_POINT[1] == 'c';
  }

  lemma AccessPointFlags(flags: seq<string>, v: Volume, encrypt: bool, o: string)
    requires FlagsOk(flags, v.nsVolume, v.accessPointId, encrypt) && ACCESS_POINT <= o
    ensures HasFlag(flags, o) && (v.accessPointId != "" || v.nsVolume)
            ==> !v.nsVolume && o == ACCESS_POINT + v.accessPointId
  {
    if HasFlag(flags, o) && (v.accessPointId != "" || v.nsVolume) {
      AccessPointFlag(o, v, encrypt);
    }
  }

  lemma AccessPointFlag(o: string, v: Volume, encrypt: bool)
    requires FlagOk(o, v.nsVolume, v.accessPointId, encrypt) && ACCESS_POINT <= o
    requires v.accessPointId != "" || v.nsVolume
    ensures !v.nsVolume && o == ACCESS_POINT + v.accessPointId
  {
    assert o == o[..|ACCESS_POINT|] + o[|ACCESS_POINT|..];
  }

  // ---------------------------------------------------------------------------------------------------------
  // The order of the volume context

  ghost predicate CaseDistinct(keys: seq<string>) {
    forall i, j :: 0 <= i < j < |keys| ==> ToLower(keys[i]) != ToLower(keys[j])
  }

  /** No two entries set the same thing. */
  ghost predicate Once(entries: seq<Entry>) {
    forall i, j :: 0 <= i < j < |entries| && entries[i].property != Unsupported ==>
      entries[i].property != entries[j].property
  }

  lemma CaseDistinctOnce(ctx: Context, keys: seq<string>)
    requires (forall k :: k in keys ==> k in ctx) && CaseDistinct(keys)
    ensures Once(Entries(ctx, keys))
  {
    var entries := Entries(ctx, keys);
    forall i, j | 0 <= i < j < |entries| && entries[i].property != Unsupported
      ensures entries[i].property != entries[j].property
    {
      OtherProperty(keys[i], keys[j]);
    }
  }

  lemma OtherProperty(a: string, b: string)
    requires PropertyOf(a) != Unsupported && ToLower(a) != ToLower(b)
    ensures PropertyOf(a) != PropertyOf(b)
  {
  }

  /** What a context says, read as a set of entries. */
  ghost predicate SettingsOf(entries: seq<Entry>, ip: string, s: Settings) {
    && (forall e :: e in entries && e.property == Path ==> s.subpath == Paths.JoinTwo("/", e.text))
    && ((forall e :: e in entries ==> e.property != Path) ==> s.subpath == "/")
    && (s.encrypt <==> forall e :: e in entries && e.property == Encrypt ==> e.flag == Some(true))
    && (s.cross <==> exists e :: e in entries && e.property == Cross && e.flag == Some(true))
    && s.options == if exists e :: e in entries && e.property == Ip then [ip] else []
  }

  /** A context is refused exactly for a bad entry, wherever it comes. */
  lemma {:induction false} RefusedExactly(entries: seq<Entry>, ip: string)
    ensures ScanEntries(entries, ip).None? <==> exists e :: e in entries && !e.Ok()
  {
    if entries != [] {
      var n := |entries| - 1;
      RefusedExactly(entries[..n], ip);
      assert entries == entries[..n] + [entries[n]];
    }
  }

  /** Where nothing is set twice, the loop computes what the context says. */
  lemma {:induction false} ScanMeans(entries: seq<Entry>, ip: string)
    requires Once(entries) && ScanEntries(entries, ip).Some?
    ensures SettingsOf(entries, ip, ScanEntries(entries, ip).value)
  {
    if entries != [] {
      var n := |entries| - 1;
      var rest := entries[..n];
      ScanMeans(rest, ip);
      RefusedExactly(rest, ip);
      LastDiffers(entries);
      FrontAndLast(entries);
      LastEntry(rest, entries[n], entries, ip, ScanEntries(rest, ip).value);
    }
  }

  lemma LastDiffers(entries: seq<Entry>)
    requires entries != [] && Once(entries) && forall x :: x in entries[..|entries| - 1] ==> x.Ok()
    ensures forall x :: x in entries[..|entries| - 1] ==> x.property != entries[|entries| - 1].property
  {
    var n := |entries| - 1;
    forall x | x in entries[..n] ensures x.property != entries[n].property {
      var i :| 0 <= i < n && entries[i] == x;
      assert x.Ok();
    }
  }

  lemma FrontAndLast(entries: seq<Entry>)
    requires entries != []
    ensures forall x :: x in entries <==> x in entries[..|entries| - 1] || x == entries[|entries| - 1]
  {
    assert entries == entries[..|entries| - 1] + [entries[|entries| - 1]];
  }

  lemma LastEntry(rest: seq<Entry>, e: Entry, entries: seq<Entry>, ip: string, s: Settings)
    requires e.Ok() && SettingsOf(rest, ip, s) && forall x :: x in rest ==> x.property != e.property
    requires forall x :: x in entries <==> x in rest || x == e
    ensures SettingsOf(entries, ip, Apply(s, e, ip))
  {
  }

  /** With keys that differ in more than case, two orders of the same context assemble the same options. */
  lemma OrderIrrelevant(ctx: Context, keys: seq<string>, other: seq<string>, volumeId: string, readonly: bool,
                        flags: seq<string>)
    requires CaseDistinct(keys) && CaseDistinct(other)
    requires forall k :: k in keys <==> k in ctx
    requires forall k :: k in other <==> k in ctx
    ensures Assembled(ctx, keys, volumeId, readonly, flags) == Assembled(ctx, other, volumeId, readonly, flags)
  {
    SameSettings(ctx, keys, other);
  }

  lemma SameSettings(ctx: Context, keys: seq<string>, other: seq<string>)
    requires CaseDistinct(keys) && CaseDistinct(other)
    requires forall k :: k in keys <==> k in ctx
    requires forall k :: k in other <==> k in ctx
    ensures Scan(ctx, keys) == Scan(ctx, other)
  {
    var a, b, ip := Entries(ctx, keys), Entries(ctx, other), IpOption(ctx);
    SameEntries(ctx, keys, other);
    SameEntries(ctx, other, keys);
    RefusedExactly(a, ip);
    RefusedExactly(b, ip);
    if ScanEntries(a, ip).Some? {
      CaseDistinctOnce(ctx, keys);
      CaseDistinctOnce(ctx, other);
      ScanMeans(a, ip);
      ScanMeans(b, ip);
      SettingsUnique(a, b, ip, ScanEntries(a, ip).value, ScanEntries(b, ip).value);
    }
  }

  lemma SettingsUnique(a: seq<Entry>, b: seq<Entry>, ip: string, s: Settings, t: Settings)
    requires SettingsOf(a, ip, s) && SettingsOf(b, ip, t) && forall e :: e in a <==> e in b
    ensures s == t
  {
  }

  lemma SameEntries(ctx: Context, keys: seq<string>, other: seq<string>)
    requires (forall k :: k in keys ==> k in ctx) && (forall k :: k in other <==> k in ctx)
    ensures forall e :: e in Entries(ctx, keys) ==> e in Entries(ctx, other)
  {
    var a, b := Entries(ctx, keys), Entries(ctx, other);
    forall e | e in a ensures e in b {
      var i :| 0 <= i < |a| && a[i] == e;
      assert keys[i] in keys;
      var j :| 0 <= j < |other| && other[j] == keys[i];
      assert b[j] == e;
    }
  }

  lemma {:induction false} OnceOneIp(entries: seq<Entry>)
    requires Once(entries)
    ensures IpEntries(entries) <= 1
    ensures IpEntries(entries) == 0 <==> forall e :: e in entries ==> e.property != Ip
  {
    if entries != [] {
      var n := |entries| - 1;
      assert entries == entries[..n] + [entries[n]];
      assert forall i :: 0 <= i < n ==> entries[..n][i] == entries[i];
      OnceOneIp(entries[..n]);
    }
  }

  /** So keys that differ in more than case never give a duplicate. */
  lemma CaseDistinctNoDuplicates(ctx: Context, keys: seq<string>, volumeId: string, readonly: bool, flags: seq<string>)
    requires (forall k :: k in keys ==> k in ctx) && CaseDistinct(keys)
    requires Assembled(ctx, keys, volumeId, readonly, flags).Some?
    ensures Distinct(Assembled(ctx, keys, volumeId, readonly, flags).value.options)
  {
    CaseDistinctOnce(ctx, keys);
    OnceOneIp(Entries(ctx, keys));
    NoDuplicatesExactly(ctx, keys, volumeId, readonly, flags);
  }

  /**
   * The source that is mounted: the root for an efs-ns volume, whatever the context says; otherwise the path of the
   * volume ID, or the path of the context if that has none, or the root.
   */
  lemma SourceExactly(ctx: Context, keys: seq<string>, volumeId: string, readonly: bool, flags: seq<string>)
    requires (forall k :: k in keys ==> k in ctx) && CaseDistinct(keys)
    requires Assembled(ctx, keys, volumeId, readonly, flags).Some?
    ensures var v, m := VolumeOf(volumeId).value, Assembled(ctx, keys, volumeId, readonly, flags).value;
            && (v.nsVolume ==> m.source == v.fileSystemId + ":" + "/")
            && (!v.nsVolume && v.path != "" ==> m.source == v.fileSystemId + ":" + v.path)
            && (!v.nsVolume && v.path == "" ==>
                  && (forall k :: k in keys && PropertyOf(k) == Path ==>
                        m.source == v.fileSystemId + ":" + Paths.JoinTwo("/", ctx[k]))
                  && ((forall k :: k in keys ==> PropertyOf(k) != Path) ==> m.source == v.fileSystemId + ":" + "/"))
  {
    CaseDistinctOnce(ctx, keys);
    ScanMeans(Entries(ctx, keys), IpOption(ctx));
    SubpathSaid(ctx, keys, Scan(ctx, keys).value);
  }

  lemma SubpathSaid(ctx: Context, keys: seq<string>, s: Settings)
    requires (forall k :: k in keys ==> k in ctx) && SettingsOf(Entries(ctx, keys), IpOption(ctx), s)
    ensures forall k :: k in keys && PropertyOf(k) == Path ==> s.subpath == Paths.JoinTwo("/", ctx[k])
    ensures (forall k :: k in keys ==> PropertyOf(k) != Path) ==> s.subpath == "/"
  {
    var entries := Entries(ctx, keys);
    forall k | k in keys ensures EntryOf(k, ctx[k]) in entries {
      var i :| 0 <= i < |keys| && keys[i] == k;
      assert entries[i] == EntryOf(k, ctx[k]);
    }
    forall e | e in entries ensures exists k :: k in keys && e == EntryOf(k, ctx[k]) {
      var i :| 0 <= i < |entries| && entries[i] == e;
      assert keys[i] in keys;
    }
  }
}
