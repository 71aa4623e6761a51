/** Finalizer lists of claims and namespaces, and the bounded retry that rewrites them (finalizer.go). */
module Finalizers {
  import opened Strings

  const MAX_RETRY_ATTEMPTS: nat := 5

  /** EFSNSFinalizerName */
  const CLAIM_FINALIZER: string := "efs-csi.aws.com/efs-ns-cleanup"

  function With<T(==)>(list: seq<T>, name: T): (r: seq<T>) {
    if name in list then list else list + [name]
  }

  function Without<T(==)>(list: seq<T>, name: T): (r: seq<T>) {
    if list == [] then []
    else Without(list[..|list| - 1], name) + if list[|list| - 1] == name then [] else [list[|list| - 1]]
  }

  /** The rebuilding loop of RemoveFinalizer and RemoveNamespaceFinalizer. */
  method Filter(list: seq<string>, name: string) returns (updated: seq<string>, found: bool)
    ensures updated == Without(list, name)
    ensures found <==> name in list
  {
    updated, found := [], false;
    for i := 0 to |list|
      invariant updated == Without(list[..i], name)
      invariant found <==> name in list[..i]
    {
      assert list[..i + 1][..i] == list[..i];
      if list[i] != name {
        updated := updated + [list[i]];
      } else {
        found := true;
      }
    }
    assert list[..|list|] == list;
  }

  /** How often a name stands in a list. */
  function Times<T(==)>(list: seq<T>, name: T): (n: nat) {
    if list == [] then 0 else Times(list[..|list| - 1], name) + if list[|list| - 1] == name then 1 else 0
  }

  lemma TimesSnoc<T>(list: seq<T>, x: T, name: T)
    ensures Times(list + [x], name) == Times(list, name) + if x == name then 1 else 0
  {
    assert (list + [x])[..|list|] == list;
  }

  /**
   * Removing takes out the one name, wherever and however often it stands, and keeps every other as often as it was.
   */
  lemma {:induction false} WithoutIsOthers<T>(list: seq<T>, name: T, other: T)
    ensures Times(Without(list, name), other) == if other == name then 0 else Times(list, other)
  {
    if list != [] {
      var kept := Without(list[..|list| - 1], name);
      WithoutIsOthers(list[..|list| - 1], name, other);
      assert kept + [] == kept;
      TimesSnoc(kept, list[|list| - 1], other);
    }
  }

  lemma {:induction false} TimesPositive<T>(list: seq<T>, name: T)
    ensures Times(list, name) > 0 <==> name in list
  {
    if list != [] {
      TimesPositive(list[..|list| - 1], name);
      assert list == list[..|list| - 1] + [list[|list| - 1]];
    }
  }

  lemma {:induction false} WithoutAbsent<T>(list: seq<T>, name: T)
    requires name !in list
    ensures Without(list, name) == list
  {
    if list != [] {
      var n := |list| - 1;
      assert list[n] in list;
      WithoutAbsent(list[..n], name);
      assert list == list[..n] + [list[n]];
    }
  }

  /** The others keep their order. */
  lemma {:induction false} WithoutConcat<T>(a: seq<T>, b: seq<T>, name: T)
    ensures Without(a + b, name) == Without(a, name) + Without(b, name)
  {
    if b == [] {
      assert a + b == a;
    } else {
      WithoutConcat(a, b[..|b| - 1], name);
      assert (a + b)[..|a + b| - 1] == a + b[..|b| - 1];
    }
  }

  /** Adding and then removing a finalizer gives back the list, if and only if it was not there. */
  lemma AddThenRemove<T>(list: seq<T>, name: T)
    ensures Without(With(list, name), name) == list <==> name !in list
    ensures With(list, name) == if name in list then list else list + [name]
  {
    WithoutIsOthers(With(list, name), name, name);
    TimesPositive(Without(With(list, name), name), name);
    if name !in list {
      WithoutAbsent(list, name);
      WithoutConcat(list, [name], name);
      assert Without([name], name) == [] by { assert [name][..0] == []; }
    }
  }

  /**
   * One attempt: whether the context is done before it, what the read returns (None for a failed call, Some(None) for
   * an object that is gone), whether the write succeeds, and whether the context ends while waiting for the next
   * attempt.
   */
  datatype Attempt = Attempt(cancelled: bool, read: Option<Option<seq<string>>>, updateOk: bool, cancelledWaiting: bool)

  /** The read works, and there is nothing to do, or the write works too. */
  predicate Works(a: Attempt, name: string, adding: bool) {
    a.read.Some? && (a.read.value.None? || ((name in a.read.value.value) == adding) || a.updateOk)
  }

  /** Attempt `k` is made: the ones before failed and the context lived. */
  ghost predicate Made(script: nat -> Attempt, k: nat, name: string, adding: bool) {
    && (forall j: nat :: j < k ==> !Works(script(j), name, adding) && !script(j).cancelledWaiting)
    && (forall j: nat :: j <= k ==> !script(j).cancelled)
  }

  /** One of the attempts is made and works. */
  ghost predicate Updates(script: nat -> Attempt, name: string, adding: bool) {
    exists k: nat :: k < 5 && Made(script, k, name, adding) && Works(script(k), name, adding)
  }

  /** The edit of a list that was read, if one is due. */
  method Edit(list: seq<string>, name: string, adding: bool) returns (updated: seq<string>, due: bool)
    ensures due <==> (name in list) != adding
    ensures due ==> updated == (if adding then list + [name] else Without(list, name)) && ((name in updated) == adding)
  {
    var found;
    updated, found := Filter(list, name);
    due := found != adding;
    if adding {
      updated := list + [name];
    } else {
      WithoutIsOthers(list, name, name);
      TimesPositive(updated, name);
    }
  }

  /** What an attempt that works writes, if anything: the edit of the very list it has read. */
  ghost predicate Wrote(a: Attempt, name: string, adding: bool, written: Option<seq<string>>)
    requires a.read.Some?
  {
    var list := a.read.value;
    if list.None? || ((name in list.value) == adding) then written.None?
    else written == Some(if adding then list.value + [name] else Without(list.value, name))
  }

  /** One attempt, up to the wait for the next. */
  method TryOnce(a: Attempt, name: string, adding: bool) returns (works: bool, written: Option<seq<string>>)
    ensures works <==> Works(a, name, adding)
    ensures if works then Wrote(a, name, adding, written) else written.None?
    ensures written.Some? ==> ((name in written.value) == adding)
  {
    if a.read.None? { return false, None; }
    if a.read.value.None? { return true, None; }
    var updated, due := Edit(a.read.value.value, name, adding);
    if !due { return true, None; }
    if a.updateOk { return true, Some(updated); }
    return false, None;
  }

  /**
   * AddFinalizer, RemoveFinalizer and their namespace forms, through retryOperation: success means that one of at most
   * five attempts found nothing to do or wrote the edit of the very list it had read.
   */
  method UpdateFinalizers(name: string, adding: bool, script: nat -> Attempt)
    returns (ok: bool, written: Option<seq<string>>)
    ensures ok <==> Updates(script, name, adding)
    ensures !ok ==> written.None?
    ensures written.Some? ==> ((name in written.value) == adding)
    ensures forall k: nat ::
              k < 5 && Made(script, k, name, adding) && Works(script(k), name, adding) ==>
              Wrote(script(k), name, adding, written)
  {
    var attempt := 0;
    while attempt < MAX_RETRY_ATTEMPTS
      invariant 0 <= attempt <= MAX_RETRY_ATTEMPTS
      invariant forall j: nat :: j < attempt ==> !Works(script(j), name, adding) && !script(j).cancelled
      invariant forall j: nat :: j < attempt && j < MAX_RETRY_ATTEMPTS - 1 ==> !script(j).cancelledWaiting
    {
      var a := script(attempt);
      if a.cancelled { return false, None; }
      ok, written := TryOnce(a, name, adding);
      if ok {
        assert Made(script, attempt, name, adding);
        return;
      }
      if attempt < MAX_RETRY_ATTEMPTS - 1 && a.cancelledWaiting { return false, None; }
      attempt := attempt + 1;
    }
    return false, None;
  }
}
