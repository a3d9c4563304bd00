/** Versions that go up one at a time, modulo 2^64. */
module Counting {
  import opened Common

  lemma {:induction false} WrapAgain(a: nat, b: nat)
    ensures Wrap(Wrap(a) + b) == Wrap(a + b)
  {
    if a >= U64_SIZE {
      WrapAgain(a - U64_SIZE, b);
    }
  }

  /** Counting up from `a`, the same version comes round again after exactly as many steps as there are
      versions. */
  lemma {:induction false} WrapRepeats(a: nat, b: nat)
    requires a < b
    ensures b < a + U64_SIZE ==> Wrap(a) != Wrap(b)
    ensures b == a + U64_SIZE ==> Wrap(a) == Wrap(b)
  {
    if a >= U64_SIZE {
      WrapRepeats(a - U64_SIZE, b - U64_SIZE);
    } else if U64_SIZE <= b < a + U64_SIZE {
      assert Wrap(b) == b - U64_SIZE < a;
    }
  }

  /** `versions` goes from `start` to `end` one version at a time, leaving out `start`. */
  predicate CountsUp(start: U64, versions: seq<U64>, end: U64)
    decreases |versions|
  {
    if versions == [] then end == start
    else versions[0] == Succ(start) && CountsUp(versions[0], versions[1..], end)
  }

  /** `versions` are the numbers after `start`, up to `end`, reduced to 64 bits. */
  predicate IsCount(start: U64, versions: seq<U64>, end: U64) {
    && end == Wrap(start + |versions|)
    && forall i | 0 <= i < |versions| :: versions[i] == Wrap(start + i + 1)
  }

  lemma {:induction false} CountsUpMeans(start: U64, versions: seq<U64>, end: U64)
    requires CountsUp(start, versions, end)
    ensures IsCount(start, versions, end)
    decreases |versions|
  {
    if versions != [] {
      CountsUpMeans(versions[0], versions[1..], end);
      WrapAgain(start + 1, |versions| - 1);
      forall i | 0 < i < |versions|
        ensures versions[i] == Wrap(start + i + 1)
      {
        assert versions[i] == versions[1..][i - 1];
        WrapAgain(start + 1, i);
      }
    }
  }

  predicate Distinct(versions: seq<U64>) {
    forall i, j | 0 <= i < j < |versions| :: versions[i] != versions[j]
  }

  lemma CountIsDistinct(start: U64, versions: seq<U64>, end: U64)
    requires IsCount(start, versions, end)
    ensures Distinct(versions) <==> |versions| <= U64_SIZE
  {
    if |versions| <= U64_SIZE {
      forall i, j | 0 <= i < j < |versions|
        ensures versions[i] != versions[j]
      {
        WrapRepeats(start + i + 1, start + j + 1);
      }
    } else {
      WrapRepeats(start + 1, start + U64_SIZE + 1);
      assert versions[0] == versions[U64_SIZE];
    }
  }

  /** Counting up to zero passes every version above the first. */
  lemma CountPasses(start: U64, versions: seq<U64>, end: U64, v: U64)
    requires IsCount(start, versions, end) && 0 in versions && start < v
    ensures v - start - 1 < |versions| - 1 && versions[v - start - 1] == v
  {
    var z :| 0 <= z < |versions| && versions[z] == 0;
    assert Wrap(start + z + 1) == 0;
    assert v - start - 1 < z;
    assert versions[v - start - 1] == Wrap(v) == v;
  }

  /** A number occurs at most once among distinct ones. */
  lemma {:induction false} DistinctOccurOnce(versions: seq<U64>, v: U64)
    requires Distinct(versions)
    ensures multiset(versions)[v] <= 1
  {
    if versions != [] {
      var rest := versions[1..];
      assert versions == [versions[0]] + rest;
      assert forall i, j | 0 <= i < j < |rest| :: rest[i] == versions[i + 1] && rest[j] == versions[j + 1];
      DistinctOccurOnce(rest, v);
      if v == versions[0] {
        assert v !in rest;
      }
    }
  }
}
