/**
  The configured publisher installations and the step's lookup of one of them
  by name.

  The registry is the descriptor's array of installations, read in array order.
  The step names its installation by a nullable string (`runnable`); the lookup
  is a first-match linear search on the installation names.
 */
module Installations {
  import opened Options

  /** One configured publisher executable: a name and the path of its home. */
  datatype Installation = Installation(name: string, home: string)

  /** `i` is the position of the first installation of `registry` named `key`. */
  ghost predicate IsFirstMatch(registry: seq<Installation>, key: string, i: int) {
    && 0 <= i < |registry|
    && registry[i].name == key
    && forall j :: 0 <= j < i ==> registry[j].name != key
  }

  /** No installation of `registry` is named `key`. */
  ghost predicate NoMatch(registry: seq<Installation>, key: string) {
    forall j :: 0 <= j < |registry| ==> registry[j].name != key
  }

  /** Position of the first installation named `key`, if any. */
  function FirstIndex(registry: seq<Installation>, key: string): (r: Option<nat>)
    ensures r.Some? ==> IsFirstMatch(registry, key, r.value)
    ensures r.None? <==> NoMatch(registry, key)
    decreases |registry|
  {
    if |registry| == 0 then None
    else if registry[0].name == key then Some(0)
    else
      match FirstIndex(registry[1..], key)
      case None => None
      case Some(i) => Some(i + 1)
  }

  /**
    The step's lookup: nothing for a null name, otherwise the first installation
    in registry order whose name equals it.
   */
  function Lookup(runnable: Option<string>, registry: seq<Installation>): (r: Option<Installation>)
    ensures runnable.None? ==> r.None?
    ensures runnable.Some? && NoMatch(registry, runnable.value) ==> r.None?
    ensures r.Some? ==>
      runnable.Some? && exists i :: IsFirstMatch(registry, runnable.value, i) && r.value == registry[i]
    ensures runnable.Some? && !NoMatch(registry, runnable.value) ==> r.Some?
  {
    match runnable
    case None => None
    case Some(key) =>
      match FirstIndex(registry, key)
      case None => None
      case Some(i) => Some(registry[i])
  }

  /** The lookup as the source writes it: a loop over the registry that returns on the first hit. */
  method GetInstallation(runnable: Option<string>, registry: seq<Installation>) returns (r: Option<Installation>)
    ensures runnable.None? ==> r.None?
    ensures r.Some? ==>
      runnable.Some? && exists i :: IsFirstMatch(registry, runnable.value, i) && r.value == registry[i]
    ensures r.None? && runnable.Some? ==> NoMatch(registry, runnable.value)
    ensures r == Lookup(runnable, registry)
  {
    if runnable.None? {
      return None;
    }
    var key := runnable.value;
    var k := 0;
    while k < |registry|
      invariant 0 <= k <= |registry|
      invariant forall j :: 0 <= j < k ==> registry[j].name != key
    {
      if registry[k].name == key {
        assert IsFirstMatch(registry, key, k);
        FirstMatchUnique(registry, key, k, FirstIndex(registry, key).value);
        return Some(registry[k]);
      }
      k := k + 1;
    }
    return None;
  }

  /** There is at most one first match. */
  lemma FirstMatchUnique(registry: seq<Installation>, key: string, i: int, j: int)
    requires IsFirstMatch(registry, key, i) && IsFirstMatch(registry, key, j)
    ensures i == j
  {
  }

  /** An installation whose name is unique in the registry is exactly what its name finds. */
  lemma UniqueNameFindsItsInstallation(registry: seq<Installation>, i: nat)
    requires i < |registry|
    requires forall j :: 0 <= j < |registry| && j != i ==> registry[j].name != registry[i].name
    ensures Lookup(Some(registry[i].name), registry) == Some(registry[i])
  {
  }

  /** A later installation that repeats an earlier name is never returned. */
  lemma LaterDuplicateShadowed(registry: seq<Installation>, i: nat, j: nat)
    requires i < j < |registry|
    requires registry[i].name == registry[j].name
    ensures FirstIndex(registry, registry[j].name).Some?
    ensures FirstIndex(registry, registry[j].name).value <= i < j
  {
  }

  /** Entries appended after a match do not change what the lookup finds. */
  lemma {:induction false} AppendAfterMatch(registry: seq<Installation>, more: seq<Installation>, key: string)
    requires FirstIndex(registry, key).Some?
    ensures FirstIndex(registry + more, key) == FirstIndex(registry, key)
    decreases |registry|
  {
    assert registry[0] == (registry + more)[0];
    if registry[0].name != key {
      assert (registry + more)[1..] == registry[1..] + more;
      AppendAfterMatch(registry[1..], more, key);
    }
  }

  /** Entries appended to a registry with no match are searched next. */
  lemma {:induction false} AppendAfterMiss(registry: seq<Installation>, more: seq<Installation>, key: string)
    requires FirstIndex(registry, key).None?
    ensures FirstIndex(more, key).None? ==> FirstIndex(registry + more, key).None?
    ensures FirstIndex(more, key).Some? ==>
      FirstIndex(registry + more, key) == Some(|registry| + FirstIndex(more, key).value)
    decreases |registry|
  {
    if |registry| == 0 {
      assert registry + more == more;
    } else {
      var rest := registry[1..];
      var all := registry + more;
      assert registry[0].name != key;
      assert all[0] == registry[0];
      assert all[1..] == rest + more;
      assert FirstIndex(rest, key).None?;
      AppendAfterMiss(rest, more, key);
      assert |all| > 0 && all[0].name != key;
      assert FirstIndex(all, key) ==
        (match FirstIndex(rest + more, key) case None => None case Some(i) => Some(i + 1));
    }
  }
}
