/** Option and Result, and the few facts about sequences that several components share. */
module Common {

  type VersionId = nat

  datatype Option<+T> = None | Some(value: T)

  datatype Result<+T, +E> = Ok(value: T) | Err(error: E)

  function Min(a: int, b: int): int { if a < b then a else b }

  function Max(a: int, b: int): int { if a > b then a else b }

  function Flatten<T>(parts: seq<seq<T>>): seq<T> {
    if parts == [] then [] else parts[0] + Flatten(parts[1..])
  }

  lemma Associative<T>(a: seq<T>, b: seq<T>, c: seq<T>)
    ensures a + (b + c) == (a + b) + c
  {
  }

  lemma {:induction false} FlattenAppend<T>(a: seq<seq<T>>, b: seq<seq<T>>)
    ensures Flatten(a + b) == Flatten(a) + Flatten(b)
  {
    if a == [] {
      assert a + b == b;
    } else {
      FlattenAppend(a[1..], b);
      assert (a + b)[1..] == a[1..] + b;
      Associative(a[0], Flatten(a[1..]), Flatten(b));
    }
  }

  lemma FlattenNext<T>(parts: seq<seq<T>>, i: nat)
    requires i < |parts|
    ensures Flatten(parts[..i + 1]) == Flatten(parts[..i]) + parts[i]
  {
    assert parts[..i + 1] == parts[..i] + [parts[i]];
    FlattenAppend(parts[..i], [parts[i]]);
    assert Flatten([parts[i]]) == parts[i] + Flatten([]);
  }

  lemma {:induction false} InFlatten<T>(x: T, parts: seq<seq<T>>) returns (i: nat)
    requires x in Flatten(parts)
    ensures i < |parts| && x in parts[i]
  {
    if x in parts[0] {
      i := 0;
    } else {
      var k := InFlatten(x, parts[1..]);
      i := k + 1;
    }
  }

  lemma {:induction false} FlattenLast<T>(parts: seq<seq<T>>, last: seq<T>)
    ensures Flatten(parts + [last]) == Flatten(parts) + last
  {
    FlattenAppend(parts, [last]);
    assert Flatten([last]) == last + Flatten([]);
  }

  /** `some` are the elements of `all` at the positions `kept`, in order. */
  ghost predicate Picks<T>(all: seq<T>, some: seq<T>, kept: seq<nat>) {
    && |kept| == |some|
    && (forall k :: 0 <= k < |kept| ==> kept[k] < |all| && some[k] == all[kept[k]])
    && (forall j, k :: 0 <= j < k < |kept| ==> kept[j] < kept[k])
  }

  function Later(rest: seq<nat>): (r: seq<nat>)
    ensures |r| == |rest| && forall k :: 0 <= k < |r| ==> r[k] == rest[k] + 1
  {
    seq(|rest|, k requires 0 <= k < |rest| => rest[k] + 1)
  }

  lemma InLater(rest: seq<nat>, i: nat)
    ensures i in Later(rest) <==> i > 0 && i - 1 in rest
  {
    if i in Later(rest) {
      var k :| 0 <= k < |rest| && Later(rest)[k] == i;
      assert rest[k] == i - 1;
    }
    if i > 0 && i - 1 in rest {
      var k :| 0 <= k < |rest| && rest[k] == i - 1;
      assert Later(rest)[k] == i;
    }
  }

  lemma PicksLater<T>(first: T, all: seq<T>, some: seq<T>, rest: seq<nat>)
    requires Picks(all, some, rest)
    ensures Picks([first] + all, some, Later(rest))
    ensures Picks([first] + all, [first] + some, [0] + Later(rest))
  {
  }

  lemma PicksMore<T>(all: seq<T>, some: seq<T>, kept: seq<nat>)
    requires all != [] && Picks(all[..|all| - 1], some, kept)
    ensures Picks(all, some, kept)
    ensures Picks(all, some + [all[|all| - 1]], kept + [|all| - 1])
  {
    forall k | 0 <= k < |some| ensures some[k] == all[kept[k]] {
      assert some[k] == all[..|all| - 1][kept[k]];
    }
  }

  /** Distinct elements, as a predicate the proofs can instantiate by index. */
  ghost predicate Distinct<T>(s: seq<T>) {
    forall i, j :: 0 <= i < j < |s| ==> s[i] != s[j]
  }
}
