/** Go's lexical `path.Clean` and `path.Join`, which the driver applies to volume IDs and base paths. */
module Paths {
  import opened Strings

  /** One component against the stack of components kept so far. */
  function Push(stack: seq<string>, c: string, rooted: bool): (r: seq<string>) {
    if c == "" || c == "." then stack
    else if c != ".." then stack + [c]
    else if |stack| > 0 && stack[|stack| - 1] != ".." then stack[..|stack| - 1]
    else if rooted then stack
    else stack + [c]
  }

  function Normalize(comps: seq<string>, rooted: bool): (r: seq<string>) {
    if comps == [] then []
    else Push(Normalize(comps[..|comps| - 1], rooted), comps[|comps| - 1], rooted)
  }

  /** path.Clean */
  function Clean(p: string): (r: string) {
    var rooted := "/" <= p;
    var body := JoinOn(Normalize(SplitOn(p, '/'), rooted), '/');
    if rooted then "/" + body else if body == "" then "." else body
  }

  function JoinTail(base: string, name: string): (tail: string) {
    if base == "" then name else if name == "" then base else base + "/" + name
  }

  /** path.Join("/", base, name): empty elements are skipped, the rest is put together and cleaned. */
  function JoinRooted(base: string, name: string): (r: string) {
    if base == "" && name == "" then Clean("/")
    else Clean("/" + ("/" + JoinTail(base, name)))
  }

  /** filepath.Join of two elements that are not empty. */
  function JoinTwo(a: string, b: string): (r: string) {
    Clean(a + "/" + b)
  }

  /** A path component that Clean keeps as it is. */
  predicate PlainComponent(c: string) {
    c != "" && c != "." && c != ".." && '/' !in c
  }

  /** The components of a base path, after its leading slash. */
  function Components(base: string): (comps: seq<string>)
    ensures |comps| >= 1
  {
    SplitOn(TrimPrefix(base, "/"), '/')
  }

  // ---------------------------------------------------------------------------------------------------------
  // What Clean makes of a joined path

  lemma {:induction false} NormalizeEmptyFront(comps: seq<string>, rooted: bool)
    ensures Normalize([""] + comps, rooted) == Normalize(comps, rooted)
  {
    var all := [""] + comps;
    if comps == [] {
      assert all[..0] == [] && Normalize([], rooted) == [];
    } else {
      NormalizeEmptyFront(comps[..|comps| - 1], rooted);
      assert all[..|all| - 1] == [""] + comps[..|comps| - 1];
    }
  }

  lemma LeadingSlash(p: string)
    ensures SplitOn("/" + p, '/') == [""] + SplitOn(p, '/')
  {
    assert ("/" + p)[1..] == p;
  }

  lemma NormalizeSlash(p: string)
    ensures Normalize(SplitOn("/" + p, '/'), true) == Normalize(SplitOn(p, '/'), true)
  {
    LeadingSlash(p);
    NormalizeEmptyFront(SplitOn(p, '/'), true);
  }

  /** For every base path: its components, normalised, and then the name. */
  lemma JoinRootedIs(base: string, name: string)
    requires PlainComponent(name)
    ensures JoinRooted(base, name) == "/" + JoinOn(Normalize(Components(base), true) + [name], '/')
  {
    var body, tail := TrimPrefix(base, "/"), JoinTail(base, name);
    NormalizeSlash("/" + tail);
    NormalizeSlash(tail);
    SplitOnSingle(name, '/');
    if base == "" {
      assert Normalize(SplitOn("", '/'), true) == [] by { assert [""][..0] == []; }
      assert [name][..0] == [] && Normalize([name], true) == [name];
    } else {
      var comps := SplitOn(base, '/');
      SplitOnConcat(base, '/', name);
      assert (comps + [name])[..|comps|] == comps;
      if "/" <= base {
        assert base == "/" + body;
        NormalizeSlash(body);
      }
    }
  }

  /** For every base path and every name, plain or not: the components of both, normalised. */
  lemma JoinRootedAll(base: string, name: string)
    ensures JoinRooted(base, name) == "/" + JoinOn(Normalize(SplitOn(base, '/') + SplitOn(name, '/'), true), '/')
  {
    var tail := JoinTail(base, name);
    assert SplitOn("", '/') == [""];
    NormalizeSlash("/" + tail);
    NormalizeSlash(tail);
    if base == "" {
      NormalizeEmptyFront(SplitOn(name, '/'), true);
      if name == "" { NormalizeSlash(""); }
    } else if name == "" {
      var comps := SplitOn(base, '/');
      assert (comps + [""])[..|comps|] == comps;
    } else {
      SplitOnConcat(base, '/', name);
    }
  }

  /** Joining two elements, the first of them absolute. */
  lemma JoinTwoAll(a: string, b: string)
    requires "/" <= a
    ensures JoinTwo(a, b) == "/" + JoinOn(Normalize(SplitOn(a, '/') + SplitOn(b, '/'), true), '/')
  {
    SplitOnConcat(a, '/', b);
    assert "/" <= a + "/" + b;
  }

  /** Cleaning makes a path neither absolute nor relative. */
  lemma CleanKeepsRoot(p: string)
    ensures "/" <= Clean(p) <==> "/" <= p
  {
    var comps := Normalize(SplitOn(p, '/'), "/" <= p);
    SplitOnFields(p, '/');
    NormalizedNonEmpty(SplitOn(p, '/'), "/" <= p);
    if comps != [] {
      assert comps[0] in comps;
      assert comps[0] <= JoinOn(comps, '/');
      assert JoinOn(comps, '/')[0] == comps[0][0] && comps[0][0] in comps[0];
    } else {
      assert JoinOn(comps, '/') == "" && "."[0] != '/';
    }
  }

  lemma {:induction false} NormalizedNonEmpty(comps: seq<string>, rooted: bool)
    requires forall c :: c in comps ==> '/' !in c
    ensures forall c :: c in Normalize(comps, rooted) ==> c != "" && '/' !in c
  {
    if comps != [] {
      NormalizedNonEmpty(comps[..|comps| - 1], rooted);
      assert comps[|comps| - 1] in comps;
    }
  }

  /** A rooted path has only plain components once it is normalised. */
  lemma {:induction false} NormalizedPlain(comps: seq<string>)
    requires forall c :: c in comps ==> '/' !in c
    ensures forall c :: c in Normalize(comps, true) ==> PlainComponent(c)
  {
    if comps != [] {
      NormalizedPlain(comps[..|comps| - 1]);
      assert comps[|comps| - 1] in comps;
    }
  }

  lemma {:induction false} NormalizePlain(comps: seq<string>)
    requires forall c :: c in comps ==> PlainComponent(c)
    ensures Normalize(comps, true) == comps
  {
    if comps != [] {
      NormalizePlain(comps[..|comps| - 1]);
      assert comps[|comps| - 1] in comps;
      assert comps == comps[..|comps| - 1] + [comps[|comps| - 1]];
    }
  }

  // ---------------------------------------------------------------------------------------------------------
  // Prefixes of a path

  /** One list of components is a prefix of another, its last component perhaps only in part. */
  predicate ComponentPrefix(c: seq<string>, l: seq<string>)
    requires |c| >= 1
  {
    Leads(c[..|c| - 1], c[|c| - 1], l)
  }

  predicate Leads(front: seq<string>, z: string, l: seq<string>) {
    |front| < |l| && front == l[..|front|] && z <= l[|front|]
  }

  /** A text is a prefix of a path exactly if its components are. */
  lemma {:induction false} PrefixByComponents(body: string, l: seq<string>)
    requires |l| >= 1 && forall c :: c in l ==> '/' !in c
    ensures body <= JoinOn(l, '/') <==> ComponentPrefix(SplitOn(body, '/'), l)
    decreases |l|
  {
    assert l[0] in l;
    if '/' !in body {
      SplitOnSingle(body, '/');
      WholePrefix(body, l);
    } else {
      var i := FirstSlash(body);
      var head, rest := body[..i], body[i + 1..];
      SplitAtSlash(body, i);
      if |l| == 1 {
        NoSlashInside(body, i, l[0]);
      } else {
        PrefixByComponents(rest, l[1..]);
        HeadAndRest(head, rest, l[0], JoinOn(l[1..], '/'));
        ConsPrefix(head, SplitOn(rest, '/'), l);
      }
    }
  }

  lemma {:induction false} FirstSlash(body: string) returns (i: nat)
    requires '/' in body
    ensures i < |body| && body[i] == '/' && '/' !in body[..i]
  {
    if body[0] == '/' {
      i := 0;
    } else {
      assert body == [body[0]] + body[1..];
      i := FirstSlash(body[1..]);
      assert body[..i + 1] == [body[0]] + body[1..][..i];
      i := i + 1;
    }
  }

  lemma SplitAtSlash(body: string, i: nat)
    requires i < |body| && body[i] == '/' && '/' !in body[..i]
    ensures body == body[..i] + "/" + body[i + 1..]
    ensures SplitOn(body, '/') == [body[..i]] + SplitOn(body[i + 1..], '/')
  {
    assert body == body[..i] + "/" + body[i + 1..];
    SplitOnConcat(body[..i], '/', body[i + 1..]);
    SplitOnSingle(body[..i], '/');
  }

  lemma NoSlashInside(body: string, i: nat, x: string)
    requires i < |body| && body[i] == '/' && '/' !in x
    ensures !(body <= x)
  {
    assert i < |x| ==> x[i] in x;
  }

  lemma WholePrefix(body: string, l: seq<string>)
    requires |l| >= 1 && '/' !in body
    ensures body <= JoinOn(l, '/') <==> body <= l[0]
  {
    var joined := JoinOn(l, '/');
    assert l[0] <= joined;
    assert |joined| > |l[0]| ==> joined[|l[0]|] == '/';
    assert forall k :: 0 <= k < |body| ==> body[k] in body;
  }

  lemma HeadAndRest(head: string, rest: string, first: string, others: string)
    requires '/' !in head && '/' !in first
    ensures head + "/" + rest <= first + "/" + others <==> head == first && rest <= others
  {
    var a, b := head + "/" + rest, first + "/" + others;
    assert a[|head|] == '/' && b[|first|] == '/';
    if a <= b {
      assert b[|head|] == '/';
      assert |first| < |a| ==> a[|first|] == '/';
      assert a[..|head|] == head && b[..|first|] == first;
      assert a[|head| + 1..] == rest && b[|first| + 1..] == others;
    }
  }

  lemma ConsPrefix(head: string, c: seq<string>, l: seq<string>)
    requires |c| >= 1 && |l| >= 2
    ensures ComponentPrefix([head] + c, l) <==> head == l[0] && ComponentPrefix(c, l[1..])
  {
    var n := |c| - 1;
    assert ([head] + c)[..n + 1] == [head] + c[..n];
    assert n + 1 < |l| ==> l[..n + 1] == [l[0]] + l[1..][..n];
  }

  /** The last component of a base path is plain or empty, or a dot or two that the name happens to begin with. */
  predicate LastFits(z: string, only: bool, name: string) {
    z == "" || PlainComponent(z) || (z == "." && "." <= name) || (z == ".." && only && ".." <= name)
  }

  /**
   * The base paths that stay a prefix of what is joined to them: all components but the last are plain, and the last
   * fits.
   */
  predicate StaysPrefix(base: string, name: string) {
    var c := Components(base);
    AllPlain(c[..|c| - 1]) && LastFits(c[|c| - 1], |c| == 1, name)
  }

  /** For every base path and plain name: the base path is a prefix of the joined path exactly if it stays one. */
  lemma StaysPrefixExactly(base: string, name: string)
    requires PlainComponent(name)
    ensures TrimPrefix(base, "/") <= TrimPrefix(JoinRooted(base, name), "/") <==> StaysPrefix(base, name)
  {
    var c := Components(base);
    var l := Normalize(c, true) + [name];
    JoinRootedIs(base, name);
    assert ("/" + JoinOn(l, '/'))[1..] == JoinOn(l, '/');
    SplitOnFields(TrimPrefix(base, "/"), '/');
    NormalizedPlain(c);
    forall x | x in l ensures PlainComponent(x) {}
    PrefixByComponents(TrimPrefix(base, "/"), l);
    PrefixOfNormalized(c, name);
  }

  predicate AllPlain(c: seq<string>) {
    forall x :: x in c ==> PlainComponent(x)
  }

  lemma PrefixOfNormalized(c: seq<string>, name: string)
    requires |c| >= 1 && (forall x :: x in c ==> '/' !in x) && PlainComponent(name)
    ensures ComponentPrefix(c, Normalize(c, true) + [name])
            <==> AllPlain(c[..|c| - 1]) && LastFits(c[|c| - 1], |c| == 1, name)
  {
    if AllPlain(c[..|c| - 1]) {
      assert c[|c| - 1] in c;
      NormalizePlain(c[..|c| - 1]);
      LastComponent(c[..|c| - 1], c[|c| - 1], name);
    } else {
      UnplainFront(c, name);
    }
  }

  lemma UnplainFront(c: seq<string>, name: string)
    requires |c| >= 1 && (forall x :: x in c ==> '/' !in x) && PlainComponent(name) && !AllPlain(c[..|c| - 1])
    ensures !ComponentPrefix(c, Normalize(c, true) + [name])
  {
    var i :| 0 <= i < |c| - 1 && !PlainComponent(c[..|c| - 1][i]);
    NormalizedPlain(c);
    FrontDiffers(c, Normalize(c, true) + [name], i);
  }

  lemma FrontDiffers(c: seq<string>, l: seq<string>, i: nat)
    requires i < |c| - 1 && !PlainComponent(c[i]) && forall x :: x in l ==> PlainComponent(x)
    ensures !ComponentPrefix(c, l)
  {
    var n := |c| - 1;
    assert i < |l| ==> l[i] in l;
    assert c[..n][i] == c[i];
    assert n < |l| ==> l[..n][i] == l[i];
  }

  lemma LastComponent(front: seq<string>, z: string, name: string)
    requires '/' !in z && AllPlain(front)
    ensures Leads(front, z, Push(front, z, true) + [name]) <==> LastFits(z, |front| == 0, name)
  {
    var n, l := |front|, Push(front, z, true) + [name];
    if z == ".." && n > 0 {
      assert front[n - 1] in front;
    } else if PlainComponent(z) {
      assert l == front + [z, name] && l[..n] == front;
    } else {
      assert l == front + [name] && l[..n] == front;
    }
  }
}
