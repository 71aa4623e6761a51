/** Volume identifiers: `efs-ns::{namespace}::{fs}::{cluster}` (types.go) and `{fs}:{path}:{ap}` (node.go). */
module VolumeIds {
  import opened Strings
  import Paths

  const PREFIX: string := "efs-ns"
  const SEP: string := "::"

  datatype NsVolumeId = NsVolumeId(namespace: string, fileSystemId: string, clusterId: string)

  /** EFSNSVolumeID.String */
  function Print(v: NsVolumeId): (s: string) {
    PREFIX + SEP + (v.namespace + SEP + (v.fileSystemId + SEP + v.clusterId))
  }

  /** ParseEFSNSVolumeID */
  function Parse(s: string): (r: Option<NsVolumeId>) {
    var parts := Split(s, SEP);
    if s == "" || |parts| != 4 || parts[0] != PREFIX then None
    else if parts[1] == "" || parts[2] == "" || parts[3] == "" then None
    else Some(NsVolumeId(parts[1], parts[2], parts[3]))
  }

  /** A component that a following separator leaves whole: no "::" inside, and no ':' at its end. */
  ghost predicate Closed(a: string) {
    !Contains(a + ":", SEP)
  }

  /** The triples whose printed form parses back. */
  ghost predicate Printable(v: NsVolumeId) {
    && v.namespace != "" && Closed(v.namespace)
    && v.fileSystemId != "" && Closed(v.fileSystemId)
    && v.clusterId != "" && !Contains(v.clusterId, SEP)
  }

  lemma ClosedHead(a: string, rest: string)
    ensures Split(a + SEP + rest, SEP)[0] == a <==> Closed(a)
    ensures Closed(a) ==> Split(a + SEP + rest, SEP) == [a] + Split(rest, SEP)
  {
    var s := a + SEP + rest;
    forall j | 0 <= j < |a| ensures OccursAt(s, SEP, j) <==> OccursAt(a + ":", SEP, j) {
      assert s[j..j + 2] == (a + ":")[j..j + 2];
    }
    forall j | OccursAt(a + ":", SEP, j) ensures j < |a| {}
    SplitHead(a, SEP, rest);
  }

  lemma SeparatorColons(x: string)
    ensures forall j :: OccursAt(x, SEP, j) ==> x[j] == ':' && x[j + 1] == ':'
  {
    forall j | OccursAt(x, SEP, j) ensures x[j] == ':' && x[j + 1] == ':' {
      assert x[j] == x[j..j + 2][0] && x[j + 1] == x[j..j + 2][1];
    }
  }

  lemma ColonFreeClosed(a: string)
    requires ':' !in a
    ensures Closed(a) && !Contains(a, SEP)
  {
    SeparatorColons(a + ":");
    SeparatorColons(a);
  }

  /** What Split makes of a printed identifier, from the left. */
  lemma SplitPrinted(v: NsVolumeId)
    ensures Split(Print(v), SEP) == [PREFIX] + Split(v.namespace + SEP + (v.fileSystemId + SEP + v.clusterId), SEP)
  {
    assert ':' !in "efs-ns";
    ColonFreeClosed(PREFIX);
    ClosedHead(PREFIX, v.namespace + SEP + (v.fileSystemId + SEP + v.clusterId));
  }

  lemma SplitPrintable(v: NsVolumeId)
    requires Closed(v.namespace) && Closed(v.fileSystemId)
    ensures Split(Print(v), SEP) == [PREFIX, v.namespace, v.fileSystemId] + Split(v.clusterId, SEP)
  {
    SplitPrinted(v);
    ClosedHead(v.namespace, v.fileSystemId + SEP + v.clusterId);
    ClosedHead(v.fileSystemId, v.clusterId);
    ThreeInFront(PREFIX, v.namespace, v.fileSystemId, Split(v.clusterId, SEP));
  }

  lemma ThreeInFront(a: string, b: string, c: string, rest: seq<string>)
    ensures [a] + ([b] + ([c] + rest)) == [a, b, c] + rest
  {
  }

  /** Parsing a printed identifier gives back the triple for exactly the printable triples. */
  lemma RoundTrip(v: NsVolumeId)
    ensures Parse(Print(v)) == Some(v) <==> Printable(v)
  {
    if Printable(v) { ParsesPrinted(v); }
    if Parse(Print(v)) == Some(v) { ParsedPrintable(v); }
  }

  lemma ParsesPrinted(v: NsVolumeId)
    requires Printable(v)
    ensures Parse(Print(v)) == Some(v)
  {
    SplitInFour(v);
    ParsesParts(Print(v), v);
  }

  lemma SplitInFour(v: NsVolumeId)
    requires Printable(v)
    ensures Split(Print(v), SEP) == [PREFIX, v.namespace, v.fileSystemId, v.clusterId]
  {
    SplitPrintable(v);
    SplitWhole(v.clusterId, SEP);
  }

  lemma ParsesParts(s: string, v: NsVolumeId)
    requires Split(s, SEP) == [PREFIX, v.namespace, v.fileSystemId, v.clusterId]
    requires v.namespace != "" && v.fileSystemId != "" && v.clusterId != ""
    ensures Parse(s) == Some(v)
  {
  }

  lemma ParsedPrintable(v: NsVolumeId)
    requires Parse(Print(v)) == Some(v)
    ensures Printable(v)
  {
    SplitPrinted(v);
    SplitWhole(v.clusterId, SEP);
    var tail := v.fileSystemId + SEP + v.clusterId;
    var parts := Split(v.namespace + SEP + tail, SEP);
    assert Split(Print(v), SEP)[1..] == parts;
    ClosedHead(v.namespace, tail);
    assert parts[1..] == Split(tail, SEP);
    ClosedHead(v.fileSystemId, v.clusterId);
    assert Split(tail, SEP)[1..] == Split(v.clusterId, SEP);
  }

  lemma JoinFour(a: string, b: string, c: string, d: string)
    ensures Join([a, b, c, d], SEP) == a + SEP + (b + SEP + (c + SEP + d))
  {
    assert [a, b, c, d][1..] == [b, c, d] && [b, c, d][1..] == [c, d] && [c, d][1..] == [d];
    assert Join([c, d], SEP) == c + SEP + d;
    assert Join([b, c, d], SEP) == b + SEP + (c + SEP + d);
  }

  /** Printing a parsed identifier gives back the accepted string, so Parse is injective. */
  lemma PrintParsed(s: string)
    requires Parse(s).Some?
    ensures Print(Parse(s).value) == s
    ensures Printable(Parse(s).value)
  {
    var parts := Split(s, SEP);
    JoinSplit(s, SEP);
    assert parts == [parts[0], parts[1], parts[2], parts[3]];
    JoinFour(parts[0], parts[1], parts[2], parts[3]);
    RoundTrip(Parse(s).value);
  }

  /** Whatever the cluster ID, an accepted identifier of colon-free names keeps the names. */
  lemma ParsedNames(v: NsVolumeId)
    requires v.namespace != "" && ':' !in v.namespace && v.fileSystemId != "" && ':' !in v.fileSystemId
    ensures Parse(Print(v)).Some? <==> v.clusterId != "" && !Contains(v.clusterId, SEP)
    ensures Parse(Print(v)).Some? ==> Parse(Print(v)).value == v
  {
    ColonFreeClosed(v.namespace);
    ColonFreeClosed(v.fileSystemId);
    SplitPrintable(v);
    SplitWhole(v.clusterId, SEP);
  }

  /** A namespace name as section 2.1 of RFC 1123 allows it for one label. */
  predicate IsAlnum(c: char) { 'a' <= c <= 'z' || '0' <= c <= '9' }

  predicate IsDnsLabel(s: string) {
    && 1 <= |s| <= 63
    && IsAlnum(s[0]) && IsAlnum(s[|s| - 1])
    && forall i :: 0 <= i < |s| ==> IsAlnum(s[i]) || s[i] == '-'
  }

  /** Which namespaces are accepted, by the characters in them. */
  lemma DnsLabelText(s: string)
    ensures IsDnsLabel(s)
            <==> && 1 <= |s| <= 63 && s[0] != '-' && s[|s| - 1] != '-'
                 && forall c :: c in s ==> c in "abcdefghijklmnopqrstuvwxyz0123456789-"
  {
    forall c: char ensures IsAlnum(c) || c == '-' <==> c in "abcdefghijklmnopqrstuvwxyz0123456789-" { Alphabet(c); }
    forall i | 0 <= i < |s| ensures s[i] in s {}
  }

  lemma Alphabet(c: char)
    ensures IsAlnum(c) || c == '-' <==> c in "abcdefghijklmnopqrstuvwxyz0123456789-"
  {
    if IsAlnum(c) || c == '-' { InAlphabet(c); }
  }

  lemma InAlphabet(c: char)
    requires IsAlnum(c) || c == '-'
    ensures c in "abcdefghijklmnopqrstuvwxyz0123456789-"
  {
    var i := if c == '-' then 36 else if c >= 'a' then c as int - 'a' as int else 26 + c as int - '0' as int;
    assert "abcdefghijklmnopqrstuvwxyz0123456789-"[i] == c;
  }

  /** validateNamespaceName */
  method ValidateNamespaceName(namespace: string) returns (ok: bool)
    ensures ok <==> IsDnsLabel(namespace)
  {
    if namespace == "" { return false; }
    if |namespace| > 63 { return false; }
    assert IsDnsLabel(namespace) ==> ToLower(namespace) == namespace;
    if !(ToLower(namespace) <= namespace) { return false; }
    for i := 0 to |namespace|
      invariant forall j :: 0 <= j < i ==>
        IsAlnum(namespace[j]) || (0 < j < |namespace| - 1 && namespace[j] == '-')
    {
      var r := namespace[i];
      if i == 0 || i == |namespace| - 1 {
        if !IsAlnum(r) { return false; }
      } else if !(IsAlnum(r) || r == '-') {
        return false;
      }
    }
    return true;
  }

  /** Every namespace the driver accepts, with a colon-free file system ID, survives printing and parsing. */
  lemma ValidNamespaceRoundTrip(v: NsVolumeId)
    requires IsDnsLabel(v.namespace)
    requires v.fileSystemId != "" && ':' !in v.fileSystemId
    requires v.clusterId != "" && !Contains(v.clusterId, SEP)
    ensures Parse(Print(v)) == Some(v)
  {
    ParsedNames(v);
  }

  datatype ApVolumeId = ApVolumeId(fileSystemId: string, subpath: string, accessPointId: string)

  /** parseVolumeId */
  function ParseAp(s: string): (r: Option<ApVolumeId>) {
    var tokens := SplitOn(s, ':');
    if !("fs-" <= s) || |tokens| > 3 then None
    else
      var subpath := if |tokens| >= 2 && tokens[1] != "" then Paths.Clean(tokens[1]) else "";
      if |tokens| == 3 && tokens[2] != "" then
        if "fsap-" <= tokens[2] then Some(ApVolumeId(tokens[0], subpath, tokens[2])) else None
      else Some(ApVolumeId(tokens[0], subpath, ""))
  }

  /** The identifier CreateVolume returns for an access point. */
  function PrintAp(fileSystemId: string, accessPointId: string): (s: string) {
    fileSystemId + ":" + ("" + ":" + accessPointId)
  }

  /** The volume ID of an access point parses back to its two parts for exactly the well-formed pairs. */
  lemma ApRoundTrip(fs: string, ap: string)
    ensures ParseAp(PrintAp(fs, ap)) == Some(ApVolumeId(fs, "", ap))
            <==> "fs-" <= fs && ':' !in fs && (ap == "" || ("fsap-" <= ap && ':' !in ap))
  {
    var s := PrintAp(fs, ap);
    SplitOnConcat("", ':', ap);
    SplitOnConcat(fs, ':', "" + ":" + ap);
    SplitOnSingle(fs, ':');
    SplitOnSingle(ap, ':');
    assert SplitOn(s, ':') == SplitOn(fs, ':') + ([""] + SplitOn(ap, ':'));
    SplitOnFields(s, ':');
    if ':' !in fs {
      assert SplitOn(s, ':')[0] == fs;
      assert ("fs-" <= fs) == ("fs-" <= s) by { assert ':' !in "fs-"; PrefixBefore("fs-", fs, s); }
    }
  }

  /** A colon-free text that begins `fs + ":" + …` already begins `fs`. */
  lemma PrefixBefore(p: string, fs: string, s: string)
    requires ':' !in p && fs + ":" <= s
    ensures p <= fs <==> p <= s
  {
    assert s[|fs|] == (fs + ":")[|fs|];
  }

  /** isEFSNSVolumeId */
  predicate IsNsVolume(s: string) { PREFIX + SEP <= s }

  /** No identifier is read in both modes: an efs-ns identifier is never accepted as an access-point one. */
  lemma ModesDisjoint(s: string)
    ensures Parse(s).Some? ==> IsNsVolume(s)
    ensures IsNsVolume(s) ==> ParseAp(s).None?
  {
    if Parse(s).Some? { PrintParsed(s); }
    if IsNsVolume(s) { assert s[0] == 'e'; }
  }
}
