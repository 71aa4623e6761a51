/** The pieces of Go's `strings` package that the driver relies on, as total functions. */
module Strings {

  datatype Option<+T> = None | Some(value: T)

  /** `sub` occurs in `s` at position `i`. */
  predicate OccursAt(s: string, sub: string, i: int) {
    0 <= i && i + |sub| <= |s| && s[i..i + |sub|] == sub
  }

  /** strings.Contains */
  ghost predicate Contains(s: string, sub: string) {
    exists i :: OccursAt(s, sub, i)
  }

  /** The least position at or after `from` where `sub` occurs, or |s| + 1 when there is none. */
  function IndexFrom(s: string, sub: string, from: nat): (i: nat)
    requires from <= |s| + 1
    ensures from <= i <= |s| + 1
    ensures i <= |s| ==> OccursAt(s, sub, i)
    ensures forall j :: from <= j < i ==> !OccursAt(s, sub, j)
    decreases |s| + 1 - from
  {
    if from == |s| + 1 || OccursAt(s, sub, from) then from else IndexFrom(s, sub, from + 1)
  }

  /** strings.Split: cut at every leftmost, non-overlapping occurrence of a non-empty separator. */
  function Split(s: string, sep: string): (parts: seq<string>)
    requires sep != ""
    ensures |parts| >= 1
    decreases |s|
  {
    var i := IndexFrom(s, sep, 0);
    if i > |s| then [s] else [s[..i]] + Split(s[i + |sep|..], sep)
  }

  function Join(parts: seq<string>, sep: string): (s: string) {
    if |parts| == 0 then ""
    else if |parts| == 1 then parts[0]
    else parts[0] + sep + Join(parts[1..], sep)
  }

  function JoinOn(parts: seq<string>, c: char): (s: string) {
    if |parts| == 0 then ""
    else if |parts| == 1 then parts[0]
    else parts[0] + [c] + JoinOn(parts[1..], c)
  }

  lemma {:induction false} JoinOnSplitOn(s: string, c: char)
    ensures JoinOn(SplitOn(s, c), c) == s
  {
    if s != "" {
      var rest := SplitOn(s[1..], c);
      JoinOnSplitOn(s[1..], c);
      assert s == [s[0]] + s[1..];
      if s[0] == c {
        assert ([""] + rest)[1..] == rest;
      } else {
        assert ([[s[0]] + rest[0]] + rest[1..])[1..] == rest[1..];
      }
    }
  }

  /** Joining what Split returned gives the string back. */
  lemma {:induction false} JoinSplit(s: string, sep: string)
    requires sep != ""
    ensures Join(Split(s, sep), sep) == s
    decreases |s|
  {
    var i := IndexFrom(s, sep, 0);
    if i <= |s| {
      var rest := s[i + |sep|..];
      JoinSplit(rest, sep);
      JoinCons(s[..i], Split(rest, sep), sep);
      CutAround(s, sep, i);
    }
  }

  lemma JoinCons(head: string, tail: seq<string>, sep: string)
    requires |tail| >= 1
    ensures Join([head] + tail, sep) == head + sep + Join(tail, sep)
  {
    assert ([head] + tail)[1..] == tail;
  }

  lemma CutAround(s: string, sep: string, i: int)
    requires OccursAt(s, sep, i)
    ensures s == s[..i] + sep + s[i + |sep|..]
  {
  }

  /** The field before the first separator is exactly `a` iff no separator starts inside `a`. */
  lemma SplitHead(a: string, sep: string, rest: string)
    requires sep != ""
    ensures Split(a + sep + rest, sep)[0] == a
            <==> forall j :: 0 <= j < |a| ==> !OccursAt(a + sep + rest, sep, j)
    ensures Split(a + sep + rest, sep)[0] == a ==> Split(a + sep + rest, sep) == [a] + Split(rest, sep)
  {
    var s := a + sep + rest;
    assert OccursAt(s, sep, |a|);
    var i := IndexFrom(s, sep, 0);
    assert i <= |a|;
    if i == |a| {
      assert s[..i] == a && s[i + |sep|..] == rest;
    } else {
      assert |s[..i]| != |a|;
    }
  }

  /** A string without the separator is a single field. */
  lemma SplitWhole(s: string, sep: string)
    requires sep != ""
    ensures |Split(s, sep)| == 1 <==> !Contains(s, sep)
    ensures !Contains(s, sep) ==> Split(s, sep) == [s]
  {
  }

  /** One more character in front of an already split text. */
  function PutBefore(x: char, c: char, parts: seq<string>): (r: seq<string>)
    requires |parts| >= 1
    ensures |r| >= 1
  {
    if x == c then [""] + parts else [[x] + parts[0]] + parts[1..]
  }

  /** strings.Split with a one-character separator. */
  function SplitOn(s: string, c: char): (parts: seq<string>)
    ensures |parts| >= 1
  {
    if s == "" then [""] else PutBefore(s[0], c, SplitOn(s[1..], c))
  }

  lemma PutBeforeConcat(x: char, c: char, r: seq<string>, t: seq<string>)
    requires |r| >= 1
    ensures PutBefore(x, c, r + t) == PutBefore(x, c, r) + t
  {
    assert (r + t)[0] == r[0] && (r + t)[1..] == r[1..] + t;
  }

  /** A separator between two texts is a field boundary. */
  lemma {:induction false} SplitOnConcat(a: string, c: char, b: string)
    ensures SplitOn(a + [c] + b, c) == SplitOn(a, c) + SplitOn(b, c)
  {
    var s := a + [c] + b;
    if a == "" {
      assert s[0] == c && s[1..] == b;
    } else {
      assert s[0] == a[0] && s[1..] == a[1..] + [c] + b;
      SplitOnConcat(a[1..], c, b);
      PutBeforeConcat(a[0], c, SplitOn(a[1..], c), SplitOn(b, c));
      assert SplitOn(s, c) == PutBefore(a[0], c, SplitOn(a[1..], c) + SplitOn(b, c));
    }
  }

  /** Exactly the separator-free texts are a single field. */
  lemma {:induction false} SplitOnSingle(s: string, c: char)
    ensures |SplitOn(s, c)| == 1 <==> c !in s
    ensures c !in s ==> SplitOn(s, c) == [s]
  {
    if s != "" {
      SplitOnSingle(s[1..], c);
      assert s == [s[0]] + s[1..];
    }
  }

  lemma {:induction false} SplitOnFields(s: string, c: char)
    ensures forall f :: f in SplitOn(s, c) ==> c !in f
  {
    if s != "" { SplitOnFields(s[1..], c); }
  }

  predicate IsUpper(c: char) { 'A' <= c <= 'Z' }

  function LowerChar(c: char): (r: char)
    ensures !IsUpper(r)
  {
    if IsUpper(c) then (c as int + 32) as char else c
  }

  /** strings.ToLower on ASCII text. */
  function ToLower(s: string): (r: string)
    ensures |r| == |s| && forall i :: 0 <= i < |s| ==> r[i] == LowerChar(s[i])
  {
    seq(|s|, i requires 0 <= i < |s| => LowerChar(s[i]))
  }

  /** The letters that are folded, and how far. */
  lemma LowerLetters(c: char)
    ensures LowerChar(c) as int
            == if c in "ABCDEFGHIJKLMNOPQRSTUVWXYZ" then c as int + ('a' as int - 'A' as int) else c as int
  {
    if IsUpper(c) { assert "ABCDEFGHIJKLMNOPQRSTUVWXYZ"[c as int - 'A' as int] == c; }
  }

  /** strings.TrimPrefix */
  function TrimPrefix(s: string, p: string): (r: string) {
    if p <= s then s[|p|..] else s
  }
}
