/**
 * The options and the source of a mount, in terms of the text of the volume context, the volume ID and the mount flags
 * (NodePublishVolume in node.go).
 */
module MountText {
  import opened Strings
  import opened MountOptions
  import Paths
  import VolumeIds

  const TRUE_TEXTS: set<string> := {"1", "t", "T", "TRUE", "true", "True"}
  const FALSE_TEXTS: set<string> := {"0", "f", "F", "FALSE", "false", "False"}

  /** Some key spells `name`, in whatever case. */
  ghost predicate Spelled(keys: seq<string>, name: string) {
    exists i :: 0 <= i < |keys| && ToLower(keys[i]) == name
  }

  /** The last key that spells `name` has one of the given values. */
  ghost predicate LastSays(ctx: Context, keys: seq<string>, name: string, values: set<string>)
    requires forall k :: k in keys ==> k in ctx
  {
    exists i :: && 0 <= i < |keys| && ToLower(keys[i]) == name && ctx[keys[i]] in values
                && forall j :: i < j < |keys| ==> ToLower(keys[j]) != name
  }

  lemma LastSaysSnoc(ctx: Context, keys: seq<string>, name: string, values: set<string>)
    requires keys != [] && forall k :: k in keys ==> k in ctx
    ensures var n := |keys| - 1;
            LastSays(ctx, keys, name, values)
            <==> if ToLower(keys[n]) == name then ctx[keys[n]] in values else LastSays(ctx, keys[..n], name, values)
  {
    var n := |keys| - 1;
    var rest := keys[..n];
    assert forall i :: 0 <= i < n ==> rest[i] == keys[i];
    if ToLower(keys[n]) != name {
      if LastSays(ctx, rest, name, values) {
        var i :| && 0 <= i < |rest| && ToLower(rest[i]) == name && ctx[rest[i]] in values
                 && forall j :: i < j < |rest| ==> ToLower(rest[j]) != name;
        assert ToLower(keys[i]) == name && ctx[keys[i]] in values;
      }
      if LastSays(ctx, keys, name, values) {
        var i :| && 0 <= i < |keys| && ToLower(keys[i]) == name && ctx[keys[i]] in values
                 && forall j :: i < j < |keys| ==> ToLower(keys[j]) != name;
        assert ToLower(rest[i]) == name && ctx[rest[i]] in values;
      }
    }
  }

  lemma SpelledSnoc(keys: seq<string>, name: string)
    requires keys != []
    ensures Spelled(keys, name) <==> Spelled(keys[..|keys| - 1], name) || ToLower(keys[|keys| - 1]) == name
  {
    var rest := keys[..|keys| - 1];
    assert forall i :: 0 <= i < |rest| ==> rest[i] == keys[i];
  }

  /** What a key means and a value says, by their text. */
  lemma KeyText(key: string)
    ensures PropertyOf(key) == Path <==> ToLower(key) == "path"
    ensures PropertyOf(key) == Encrypt <==> ToLower(key) == "encryptintransit"
    ensures PropertyOf(key) == Ip <==> ToLower(key) == "mounttargetip"
    ensures PropertyOf(key) == Cross <==> ToLower(key) == "crossaccount"
  {
  }

  lemma ValueText(v: string)
    ensures ParseBool(v) == Some(true) <==> v in TRUE_TEXTS
    ensures ParseBool(v) == Some(false) <==> v in FALSE_TEXTS
  {
  }

  /** What one entry sets, by the text of its key and its value. */
  lemma EntryText(key: string, v: string, s: Settings, ip: string)
    requires EntryOf(key, v).Ok()
    ensures var s' := Apply(s, EntryOf(key, v), ip);
            && s'.encrypt == (if ToLower(key) == "encryptintransit" then v !in FALSE_TEXTS else s.encrypt)
            && s'.cross == (if ToLower(key) == "crossaccount" then v in TRUE_TEXTS else s.cross)
            && s'.options == (if ToLower(key) == "mounttargetip" then s.options + [ip] else s.options)
            && s'.subpath == (if ToLower(key) == "path" then Paths.JoinTwo(s.subpath, v) else s.subpath)
  {
    KeyText(key);
    ValueText(v);
    EntrySets(EntryOf(key, v), s, ip);
  }

  lemma EntrySets(e: Entry, s: Settings, ip: string)
    requires e.Ok()
    ensures var s' := Apply(s, e, ip);
            && s'.encrypt == (if e.property == Encrypt then e.flag != Some(false) else s.encrypt)
            && s'.cross == (if e.property == Cross then e.flag == Some(true) else s.cross)
            && s'.options == (if e.property == Ip then s.options + [ip] else s.options)
            && s'.subpath == (if e.property == Path then Paths.JoinTwo(s.subpath, e.text) else s.subpath)
  {
  }

  /** What the context sets, by its text. */
  lemma {:induction false} ScanText(ctx: Context, keys: seq<string>)
    requires (forall k :: k in keys ==> k in ctx) && Scan(ctx, keys).Some?
    ensures Scan(ctx, keys).value.encrypt <==> !LastSays(ctx, keys, "encryptintransit", FALSE_TEXTS)
    ensures Scan(ctx, keys).value.cross <==> LastSays(ctx, keys, "crossaccount", TRUE_TEXTS)
    ensures Scan(ctx, keys).value.options != [] <==> Spelled(keys, "mounttargetip")
  {
    if keys != [] {
      var n := |keys| - 1;
      assert keys[n] in keys;
      assert Entries(ctx, keys)[..n] == Entries(ctx, keys[..n]);
      ScanText(ctx, keys[..n]);
      LastSaysSnoc(ctx, keys, "encryptintransit", FALSE_TEXTS);
      LastSaysSnoc(ctx, keys, "crossaccount", TRUE_TEXTS);
      SpelledSnoc(keys, "mounttargetip");
      EntryText(keys[n], ctx[keys[n]], Scan(ctx, keys[..n]).value, IpOption(ctx));
    }
  }

  /** An entry the driver does not take: a path that is not absolute, a switch that is no boolean, any other key. */
  predicate Bad(key: string, v: string) {
    var name := ToLower(key);
    if name == "path" then !("/" <= v)
    else if name == "encryptintransit" || name == "crossaccount" then v !in TRUE_TEXTS && v !in FALSE_TEXTS
    else name != "mounttargetip" && name != "storage.kubernetes.io/csiprovisioneridentity"
  }

  lemma BadExactly(key: string, v: string)
    ensures Bad(key, v) <==> !EntryOf(key, v).Ok()
  {
  }

  /** A context is refused exactly if it has such an entry. */
  lemma RefusedText(ctx: Context, keys: seq<string>)
    requires forall k :: k in keys ==> k in ctx
    ensures Scan(ctx, keys).None? <==> exists k :: k in keys && Bad(k, ctx[k])
  {
    var entries := Entries(ctx, keys);
    RefusedExactly(entries, IpOption(ctx));
    forall k | k in keys ensures EntryOf(k, ctx[k]) in entries {
      var i :| 0 <= i < |keys| && keys[i] == k;
      assert entries[i] == EntryOf(k, ctx[k]);
      BadExactly(k, ctx[k]);
    }
    forall k | k in keys ensures Bad(k, ctx[k]) <==> !EntryOf(k, ctx[k]).Ok() { BadExactly(k, ctx[k]); }
    forall e | e in entries ensures exists k :: k in keys && e == EntryOf(k, ctx[k]) {
      var i :| 0 <= i < |entries| && entries[i] == e;
      assert keys[i] in keys;
    }
  }

  /** A mount flag that contradicts the volume: another access point, or TLS where encryption is switched off. */
  predicate Contradicts(flag: string, v: Volume, encrypt: bool) {
    || ("accesspoint=" <= flag && (v.nsVolume || (v.accessPointId != "" && flag != "accesspoint=" + v.accessPointId)))
    || (flag == "tls" && !encrypt)
  }

  lemma ContradictsExactly(flag: string, v: Volume, encrypt: bool)
    ensures Contradicts(flag, v, encrypt) <==> !FlagOk(flag, v.nsVolume, v.accessPointId, encrypt)
  {
    if "accesspoint=" <= flag { assert flag == "accesspoint=" + flag[|ACCESS_POINT|..]; }
  }

  /**
   * A request is refused exactly for an entry of the context the driver does not take, a volume ID that does not
   * parse, or a mount flag that contradicts the volume.
   */
  lemma RefusedMount(ctx: Context, keys: seq<string>, volumeId: string, readonly: bool, flags: seq<string>)
    requires forall k :: k in keys ==> k in ctx
    ensures Assembled(ctx, keys, volumeId, readonly, flags).None?
            <==> || (exists k :: k in keys && Bad(k, ctx[k]))
                 || VolumeOf(volumeId).None?
                 || exists i :: && 0 <= i < |flags|
                                && Contradicts(ToLower(flags[i]), VolumeOf(volumeId).value,
                                               !LastSays(ctx, keys, "encryptintransit", FALSE_TEXTS))
  {
    RefusedText(ctx, keys);
    if Scan(ctx, keys).Some? && VolumeOf(volumeId).Some? {
      ScanText(ctx, keys);
      forall i | 0 <= i < |flags| {
        ContradictsExactly(ToLower(flags[i]), VolumeOf(volumeId).value, Scan(ctx, keys).value.encrypt);
      }
    }
  }

  lemma OwnMembers(s: Settings, accessPointId: string, readonly: bool, o: string)
    ensures o in Base(s, accessPointId, readonly)
            <==> || o in s.options
                 || (accessPointId != "" && o == "accesspoint=" + accessPointId)
                 || (o == "tls" && (s.encrypt || accessPointId != ""))
                 || (o == "crossaccount" && s.cross)
                 || (o == "ro" && readonly)
  {
    var o1 := FirstOptions(s.options, accessPointId);
    assert o in o1 <==> o in s.options || (accessPointId != "" && (o == ACCESS_POINT + accessPointId || o == TLS));
  }

  /**
   * Every option of a mount and where it comes from: read-only from the request, the switches and the address from the
   * context, the access point from the volume ID, and every other from a mount flag that is not about credentials.
   */
  lemma OptionsExactly(ctx: Context, keys: seq<string>, volumeId: string, readonly: bool, flags: seq<string>, o: string)
    requires (forall k :: k in keys ==> k in ctx) && Assembled(ctx, keys, volumeId, readonly, flags).Some?
    ensures var accessPointId := VolumeOf(volumeId).value.accessPointId;
            var address := if "mounttargetip" in ctx then ctx["mounttargetip"] else "";
            o in Assembled(ctx, keys, volumeId, readonly, flags).value.options
            <==> || (o == "ro" && readonly)
                 || (o == "crossaccount" && LastSays(ctx, keys, "crossaccount", TRUE_TEXTS))
                 || (o == "mounttargetip=" + address && Spelled(keys, "mounttargetip"))
                 || (o == "tls" && (!LastSays(ctx, keys, "encryptintransit", FALSE_TEXTS) || accessPointId != ""))
                 || (accessPointId != "" && o == "accesspoint=" + accessPointId)
                 || (!("awscredsuri" <= o) && HasFlag(flags, o))
  {
    var s, v := Scan(ctx, keys).value, VolumeOf(volumeId).value;
    ScanText(ctx, keys);
    AddressOption(ctx, keys, o);
    OwnMembers(s, v.accessPointId, readonly, o);
    FlagsMembers(Base(s, v.accessPointId, readonly), flags, o);
  }

  lemma AddressOption(ctx: Context, keys: seq<string>, o: string)
    requires (forall k :: k in keys ==> k in ctx) && Scan(ctx, keys).Some?
    ensures var address := if "mounttargetip" in ctx then ctx["mounttargetip"] else "";
            o in Scan(ctx, keys).value.options
            <==> o == "mounttargetip=" + address && Scan(ctx, keys).value.options != []
  {
    var options := Scan(ctx, keys).value.options;
    ScannedOptions(Entries(ctx, keys), IpOption(ctx));
    assert MOUNT_TARGET_IP + "=" == "mounttargetip=";
    if options != [] { assert options[0] in options; }
  }

  /** The flags come after the driver's own options, in their order. */
  lemma {:induction false} FlagsAfter(options: seq<string>, flags: seq<string>)
    ensures options <= AddFlags(options, flags)
  {
    if flags != [] { FlagsAfter(options, flags[..|flags| - 1]); }
  }

  lemma {:induction false} FlagsConcat(options: seq<string>, a: seq<string>, b: seq<string>)
    ensures AddFlags(options, a + b) == AddFlags(AddFlags(options, a), b)
  {
    if b == [] {
      assert a + b == a;
    } else {
      FlagsConcat(options, a, b[..|b| - 1]);
      assert (a + b)[..|a + b| - 1] == a + b[..|b| - 1];
    }
  }

  /** The order of the driver's own options: address, access point, TLS, cross-account, read-only, then the flags. */
  lemma OptionsOrder(ctx: Context, keys: seq<string>, volumeId: string, readonly: bool, flags: seq<string>)
    requires (forall k :: k in keys ==> k in ctx) && Assembled(ctx, keys, volumeId, readonly, flags).Some?
    ensures var s, accessPointId := Scan(ctx, keys).value, VolumeOf(volumeId).value.accessPointId;
            s.options
            + (if accessPointId != "" then ["accesspoint=" + accessPointId, "tls"]
               else if s.encrypt then ["tls"] else [])
            + (if s.cross then ["crossaccount"] else [])
            + (if readonly then ["ro"] else [])
            <= Assembled(ctx, keys, volumeId, readonly, flags).value.options
  {
    var s, v := Scan(ctx, keys).value, VolumeOf(volumeId).value;
    ScannedOptions(Entries(ctx, keys), IpOption(ctx));
    FlagsAfter(Base(s, v.accessPointId, readonly), flags);
    OwnOptions(ctx, v.accessPointId);
    if v.accessPointId != "" {
      assert FirstOptions(s.options, v.accessPointId)[|s.options| + 1] == TLS;
    } else {
      assert FirstOptions(s.options, v.accessPointId) == s.options;
    }
  }

  // ---------------------------------------------------------------------------------------------------------
  // The volume ID

  lemma NsVolume(v: VolumeIds.NsVolumeId)
    requires VolumeIds.Printable(v)
    ensures VolumeOf(VolumeIds.Print(v)) == Some(Volume(true, v.fileSystemId, "", ""))
  {
    VolumeIds.RoundTrip(v);
    VolumeIds.ModesDisjoint(VolumeIds.Print(v));
  }

  /** The parts of a volume ID of the access-point mode. */
  predicate Parts(fs: string, path: string, ap: string) {
    "fs-" <= fs && ':' !in fs && ':' !in path && ':' !in ap && (ap == "" || "fsap-" <= ap)
  }

  lemma ApVolume(fs: string, path: string, ap: string)
    requires Parts(fs, path, ap)
    ensures VolumeOf(fs + ":" + (path + ":" + ap))
            == Some(Volume(false, fs, if path == "" then "" else Paths.Clean(path), ap))
    ensures VolumeOf(fs) == Some(Volume(false, fs, "", ""))
    ensures VolumeOf(fs + ":" + path) == Some(Volume(false, fs, if path == "" then "" else Paths.Clean(path), ""))
  {
    var id := fs + ":" + (path + ":" + ap);
    SplitOnConcat(path, ':', ap);
    SplitOnConcat(fs, ':', path + ":" + ap);
    SplitOnConcat(fs, ':', path);
    SplitOnSingle(fs, ':');
    SplitOnSingle(path, ':');
    SplitOnSingle(ap, ':');
    assert SplitOn(id, ':') == [fs, path, ap];
    assert SplitOn(fs + ":" + path, ':') == [fs, path];
    StartsFs(id);
    StartsFs(fs);
    StartsFs(fs + ":" + path);
  }

  lemma StartsFs(id: string)
    requires "fs-" <= id
    ensures !VolumeIds.IsNsVolume(id)
  {
    assert id[0] == 'f' && (VolumeIds.PREFIX + VolumeIds.SEP)[0] == 'e';
  }

  /** Where the context names the path: once, or not at all. */
  ghost predicate ContextPath(ctx: Context, keys: seq<string>, path: string)
    requires forall k :: k in keys ==> k in ctx
  {
    if Spelled(keys, "path") then exists k :: k in keys && ToLower(k) == "path" && path == Paths.JoinTwo("/", ctx[k])
    else path == "/"
  }

  /** An efs-ns volume is mounted at the root of its file system, whatever the context says. */
  lemma NsSource(ctx: Context, keys: seq<string>, v: VolumeIds.NsVolumeId, readonly: bool, flags: seq<string>)
    requires VolumeIds.Printable(v)
    requires (forall k :: k in keys ==> k in ctx) && Assembled(ctx, keys, VolumeIds.Print(v), readonly, flags).Some?
    ensures Assembled(ctx, keys, VolumeIds.Print(v), readonly, flags).value.source == v.fileSystemId + ":" + "/"
  {
    NsVolume(v);
  }

  /** Any other at the path of its ID, cleaned, or else at the path of the context, or else at the root. */
  lemma ApSource(ctx: Context, keys: seq<string>, fs: string, path: string, ap: string, readonly: bool,
                 flags: seq<string>)
    requires Parts(fs, path, ap) && (forall k :: k in keys ==> k in ctx) && CaseDistinct(keys)
    requires Assembled(ctx, keys, fs + ":" + (path + ":" + ap), readonly, flags).Some?
    ensures var m := Assembled(ctx, keys, fs + ":" + (path + ":" + ap), readonly, flags).value;
            exists p :: m.source == fs + ":" + p
                        && if path != "" then p == Paths.Clean(path) else ContextPath(ctx, keys, p)
  {
    ApVolume(fs, path, ap);
    var m := Assembled(ctx, keys, fs + ":" + (path + ":" + ap), readonly, flags).value;
    var p := if path != "" then Paths.Clean(path) else Scan(ctx, keys).value.subpath;
    assert m.source == fs + ":" + p;
    if path == "" { SubpathText(ctx, keys); }
  }

  lemma SubpathText(ctx: Context, keys: seq<string>)
    requires (forall k :: k in keys ==> k in ctx) && CaseDistinct(keys) && Scan(ctx, keys).Some?
    ensures ContextPath(ctx, keys, Scan(ctx, keys).value.subpath)
  {
    CaseDistinctOnce(ctx, keys);
    ScanMeans(Entries(ctx, keys), IpOption(ctx));
    SubpathSaid(ctx, keys, Scan(ctx, keys).value);
    forall k | k in keys ensures PropertyOf(k) == Path <==> ToLower(k) == "path" { KeyText(k); }
    SpelledByOne(keys, "path");
  }

  lemma SpelledByOne(keys: seq<string>, name: string)
    ensures Spelled(keys, name) <==> exists k :: k in keys && ToLower(k) == name
  {
    if Spelled(keys, name) {
      var i :| 0 <= i < |keys| && ToLower(keys[i]) == name;
      assert keys[i] in keys;
    }
  }
}
