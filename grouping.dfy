/**
 * `itertools.groupby`: runs of consecutive elements with equal keys, each
 * reported with its key.
 */
module Grouping {

  /** The groups' members, concatenated in order. */
  function Flatten<K, T>(groups: seq<(K, seq<T>)>): seq<T> {
    if |groups| == 0 then [] else groups[0].1 + Flatten(groups[1..])
  }

  /** The groups' keys, in order. */
  function Keys<K, T>(groups: seq<(K, seq<T>)>): (ks: seq<K>)
    ensures |ks| == |groups| && forall i :: 0 <= i < |groups| ==> ks[i] == groups[i].0
  {
    seq(|groups|, i requires 0 <= i < |groups| => groups[i].0)
  }

  /**
   * The maximal runs of `s` whose elements share a key: together they are
   * `s`, none is empty, every member carries its run's key and neighbouring
   * runs have different keys.
   */
  function GroupBy<T, K(==)>(s: seq<T>, key: T -> K): (r: seq<(K, seq<T>)>)
    ensures Flatten(r) == s
    ensures forall i :: 0 <= i < |r| ==> |r[i].1| > 0
    ensures forall i, j :: 0 <= i < |r| && 0 <= j < |r[i].1| ==> key(r[i].1[j]) == r[i].0
    ensures forall i :: 0 < i < |r| ==> r[i - 1].0 != r[i].0
    ensures |s| > 0 ==> |r| > 0
    decreases |s|
  {
    if |s| == 0 then []
    else
      var rest := GroupBy(s[1..], key);
      if |rest| > 0 && rest[0].0 == key(s[0]) then
        var r := [(key(s[0]), [s[0]] + rest[0].1)] + rest[1..];
        assert r[1..] == rest[1..];
        assert Flatten(rest) == rest[0].1 + Flatten(rest[1..]);
        assert s == [s[0]] + s[1..];
        r
      else
        var r := [(key(s[0]), [s[0]])] + rest;
        assert r[1..] == rest;
        assert s == [s[0]] + s[1..];
        r
  }

  /** Where a group member sits in the flattened sequence: after every earlier group. */
  lemma {:induction false} FlattenIndex<K, T>(groups: seq<(K, seq<T>)>, i: nat, j: nat) returns (p: nat)
    requires i < |groups| && j < |groups[i].1|
    ensures p < |Flatten(groups)| && Flatten(groups)[p] == groups[i].1[j]
    ensures i > 0 ==> p >= |groups[0].1|
  {
    if i == 0 {
      p := j;
    } else {
      var q := FlattenIndex(groups[1..], i - 1, j);
      p := |groups[0].1| + q;
    }
  }

  /** Every member of every group is an element of the flattened sequence. */
  lemma MembersInFlatten<K, T>(groups: seq<(K, seq<T>)>)
    ensures forall i, j :: 0 <= i < |groups| && 0 <= j < |groups[i].1| ==> groups[i].1[j] in Flatten(groups)
  {
    forall i, j | 0 <= i < |groups| && 0 <= j < |groups[i].1|
      ensures groups[i].1[j] in Flatten(groups)
    {
      var p := FlattenIndex(groups, i, j);
    }
  }

  /** Elements sharing a key are never separated by an element with another key. */
  predicate Contiguous<T, K(==)>(s: seq<T>, key: T -> K) {
    forall i, j, l :: 0 <= i < j < l < |s| && key(s[i]) == key(s[l]) ==> key(s[j]) == key(s[i])
  }

  lemma ContiguousSplit<T, K>(a: seq<T>, b: seq<T>, key: T -> K)
    requires Contiguous(a + b, key)
    ensures Contiguous(a, key) && Contiguous(b, key)
  {
    assert forall i :: 0 <= i < |a| ==> (a + b)[i] == a[i];
    assert forall i :: 0 <= i < |b| ==> (a + b)[|a| + i] == b[i];
  }

  /** Contiguity of the whole carries over to each group. */
  lemma {:induction false} ContiguousInGroups<K, T, K2>(groups: seq<(K, seq<T>)>, key: T -> K2)
    requires Contiguous(Flatten(groups), key)
    ensures forall i :: 0 <= i < |groups| ==> Contiguous(groups[i].1, key)
  {
    if |groups| > 0 {
      ContiguousSplit(groups[0].1, Flatten(groups[1..]), key);
      ContiguousInGroups(groups[1..], key);
      assert forall i :: 0 < i < |groups| ==> groups[i] == groups[1..][i - 1];
    }
  }

  /** No key heads two groups. */
  predicate DistinctKeys<K(==), T>(groups: seq<(K, seq<T>)>) {
    forall i, j :: 0 <= i < j < |groups| ==> groups[i].0 != groups[j].0
  }

  lemma DistinctKeysCons<K, T>(g: (K, seq<T>), rest: seq<(K, seq<T>)>)
    requires DistinctKeys(rest) && forall j :: 0 <= j < |rest| ==> rest[j].0 != g.0
    ensures DistinctKeys([g] + rest)
  {
    assert forall j :: 0 < j < |[g] + rest| ==> ([g] + rest)[j] == rest[j - 1];
  }

  /** When equal keys are contiguous, every key heads exactly one group. */
  lemma {:induction false} GroupKeysDistinct<T, K>(s: seq<T>, key: T -> K)
    requires Contiguous(s, key)
    ensures DistinctKeys(GroupBy(s, key))
    decreases |s|
  {
    if |s| > 0 {
      var rest := GroupBy(s[1..], key);
      ContiguousSplit([s[0]], s[1..], key);
      assert [s[0]] + s[1..] == s;
      GroupKeysDistinct(s[1..], key);
      if |rest| > 0 && rest[0].0 == key(s[0]) {
        assert rest == [rest[0]] + rest[1..];
        DistinctKeysCons((key(s[0]), [s[0]] + rest[0].1), rest[1..]);
      } else {
        forall j | 0 <= j < |rest|
          ensures rest[j].0 != key(s[0])
        {
          var p := FlattenIndex(rest, j, 0);
          assert Flatten(rest)[0] == rest[0].1[0];
          assert key(s[1]) == rest[0].0 && key(s[1 + p]) == rest[j].0;
        }
        DistinctKeysCons((key(s[0]), [s[0]]), rest);
      }
    }
  }

  /** Elements that all share one key form a single group. */
  lemma {:induction false} GroupByUniform<T, K>(s: seq<T>, key: T -> K)
    requires |s| > 0 && forall i :: 0 <= i < |s| ==> key(s[i]) == key(s[0])
    ensures GroupBy(s, key) == [(key(s[0]), s)]
    decreases |s|
  {
    if |s| == 1 {
      assert s[1..] == [] && s == [s[0]];
    } else {
      assert forall i :: 0 <= i < |s| - 1 ==> s[1..][i] == s[i + 1];
      GroupByUniform(s[1..], key);
      assert [s[0]] + s[1..] == s;
    }
  }
}
