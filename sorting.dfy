/**
 * `sorted(events, key=event_sort_key)`: a stable sort on the tuple
 * (part, paper, name, start), compared as Python compares tuples.
 */
module Sorting {
  import opened Text
  import opened Events

  /** `event_sort_key`'s tuple. */
  datatype SortKey = SortKey(part: string, paper: string, name: string, start: Timestamp)

  function KeyOf(e: EngineeringEvent): SortKey {
    SortKey(e.part, e.paper, e.name, e.start)
  }

  /** Comparison of two times in the timetable's zone: by day, then by time of day. */
  predicate TimeLt(a: Timestamp, b: Timestamp) {
    a.date < b.date || (a.date == b.date && a.time < b.time)
  }

  /** Tuple `<`: the first component that differs decides. */
  predicate KeyLt(a: SortKey, b: SortKey) {
    || StrLt(a.part, b.part)
    || (a.part == b.part && StrLt(a.paper, b.paper))
    || (a.part == b.part && a.paper == b.paper && StrLt(a.name, b.name))
    || (a.part == b.part && a.paper == b.paper && a.name == b.name && TimeLt(a.start, b.start))
  }

  lemma KeyLtIrreflexive(a: SortKey)
    ensures !KeyLt(a, a)
  {
  }

  lemma KeyLtTransitive(a: SortKey, b: SortKey, c: SortKey)
    ensures KeyLt(a, b) && KeyLt(b, c) ==> KeyLt(a, c)
  {
    if StrLt(a.part, b.part) && StrLt(b.part, c.part) { StrLtTransitive(a.part, b.part, c.part); }
    if StrLt(a.paper, b.paper) && StrLt(b.paper, c.paper) { StrLtTransitive(a.paper, b.paper, c.paper); }
    if StrLt(a.name, b.name) && StrLt(b.name, c.name) { StrLtTransitive(a.name, b.name, c.name); }
  }

  /** Any two keys are ordered one way or the other, or are equal. */
  lemma KeyTrichotomy(a: SortKey, b: SortKey)
    ensures KeyLt(a, b) || KeyLt(b, a) || a == b
  {
    StrLtTrichotomy(a.part, b.part);
    StrLtTrichotomy(a.paper, b.paper);
    StrLtTrichotomy(a.name, b.name);
  }

  /** `b` not below `a` puts `a`'s part, then paper, then name at or below `b`'s. */
  lemma NotKeyLtFields(a: SortKey, b: SortKey)
    requires !KeyLt(b, a)
    ensures StrLe(a.part, b.part)
    ensures a.part == b.part ==> StrLe(a.paper, b.paper)
    ensures a.part == b.part && a.paper == b.paper ==> StrLe(a.name, b.name)
  {
    NotStrLt(a.part, b.part);
    if a.part == b.part { NotStrLt(a.paper, b.paper); }
    if a.part == b.part && a.paper == b.paper { NotStrLt(a.name, b.name); }
  }

  /** No event precedes an earlier one in key order. */
  predicate Sorted(s: seq<EngineeringEvent>) {
    forall i, j :: 0 <= i < j < |s| ==> !KeyLt(KeyOf(s[j]), KeyOf(s[i]))
  }

  lemma SortedTail(s: seq<EngineeringEvent>)
    requires Sorted(s) && |s| > 0
    ensures Sorted(s[1..])
  {
    assert forall i :: 0 <= i < |s| - 1 ==> s[1..][i] == s[i + 1];
  }

  /** `x` goes before the first element whose key is strictly greater, so after its equals. */
  function Insert(s: seq<EngineeringEvent>, x: EngineeringEvent): (r: seq<EngineeringEvent>)
    ensures multiset(r) == multiset(s) + multiset{x}
  {
    if |s| == 0 then [x]
    else if KeyLt(KeyOf(x), KeyOf(s[0])) then [x] + s
    else
      assert s == [s[0]] + s[1..];
      [s[0]] + Insert(s[1..], x)
  }

  /** The stable sort: each event in input order joins the sorted prefix after its equals. */
  function SortEvents(s: seq<EngineeringEvent>): (r: seq<EngineeringEvent>)
    ensures multiset(r) == multiset(s)
  {
    if |s| == 0 then []
    else
      assert s == s[..|s| - 1] + [s[|s| - 1]];
      Insert(SortEvents(s[..|s| - 1]), s[|s| - 1])
  }

  lemma {:induction false} InsertSorted(s: seq<EngineeringEvent>, x: EngineeringEvent)
    requires Sorted(s)
    ensures Sorted(Insert(s, x))
  {
    if |s| == 0 {
    } else if KeyLt(KeyOf(x), KeyOf(s[0])) {
      var r := [x] + s;
      forall j | 0 < j < |r|
        ensures !KeyLt(KeyOf(r[j]), KeyOf(x))
      {
        KeyLtTransitive(KeyOf(r[j]), KeyOf(x), KeyOf(s[0]));
      }
    } else {
      var t := Insert(s[1..], x);
      InsertSorted(s[1..], x);
      var r := [s[0]] + t;
      forall j | 0 < j < |r|
        ensures !KeyLt(KeyOf(r[j]), KeyOf(s[0]))
      {
        assert r[j] in multiset(t);
        assert r[j] in multiset(s[1..]) + multiset{x};
        if r[j] in s[1..] {
          var p :| 0 <= p < |s[1..]| && s[1..][p] == r[j];
          assert s[1 + p] == r[j];
        }
      }
    }
  }

  lemma {:induction false} SortEventsSorted(s: seq<EngineeringEvent>)
    ensures Sorted(SortEvents(s))
  {
    if |s| > 0 {
      SortEventsSorted(s[..|s| - 1]);
      InsertSorted(SortEvents(s[..|s| - 1]), s[|s| - 1]);
    }
  }

  /** The events with key `k`, in order. */
  function WithKey(s: seq<EngineeringEvent>, k: SortKey): seq<EngineeringEvent> {
    if |s| == 0 then []
    else (if KeyOf(s[0]) == k then [s[0]] else []) + WithKey(s[1..], k)
  }

  lemma {:induction false} WithKeySnoc(s: seq<EngineeringEvent>, x: EngineeringEvent, k: SortKey)
    ensures WithKey(s + [x], k) == WithKey(s, k) + (if KeyOf(x) == k then [x] else [])
  {
    if |s| > 0 {
      assert (s + [x])[1..] == s[1..] + [x];
      WithKeySnoc(s[1..], x, k);
    }
  }

  lemma {:induction false} WithKeyNone(s: seq<EngineeringEvent>, k: SortKey)
    requires forall i :: 0 <= i < |s| ==> KeyOf(s[i]) != k
    ensures WithKey(s, k) == []
  {
    if |s| > 0 { WithKeyNone(s[1..], k); }
  }

  lemma {:induction false} WithKeyInsertOther(s: seq<EngineeringEvent>, x: EngineeringEvent, k: SortKey)
    requires KeyOf(x) != k
    ensures WithKey(Insert(s, x), k) == WithKey(s, k)
  {
    if |s| == 0 {
    } else if KeyLt(KeyOf(x), KeyOf(s[0])) {
      assert ([x] + s)[1..] == s;
    } else {
      assert ([s[0]] + Insert(s[1..], x))[1..] == Insert(s[1..], x);
      WithKeyInsertOther(s[1..], x, k);
    }
  }

  lemma {:induction false} WithKeyInsertSame(s: seq<EngineeringEvent>, x: EngineeringEvent)
    requires Sorted(s)
    ensures WithKey(Insert(s, x), KeyOf(x)) == WithKey(s, KeyOf(x)) + [x]
  {
    var k := KeyOf(x);
    if |s| == 0 {
    } else if KeyLt(k, KeyOf(s[0])) {
      assert forall i :: 0 <= i < |s| ==> KeyOf(s[i]) != k;
      WithKeyNone(s, k);
      assert ([x] + s)[1..] == s;
      assert WithKey([x] + s, k) == [x] + WithKey(s, k);
    } else {
      var t := Insert(s[1..], x);
      var head := if KeyOf(s[0]) == k then [s[0]] else [];
      assert Insert(s, x) == [s[0]] + t;
      assert ([s[0]] + t)[1..] == t;
      assert WithKey([s[0]] + t, k) == head + WithKey(t, k);
      SortedTail(s);
      WithKeyInsertSame(s[1..], x);
      assert WithKey(s, k) == head + WithKey(s[1..], k);
    }
  }

  /**
   * Stability: for every key, the events carrying it keep their input
   * order.
   */
  lemma {:induction false} SortEventsStable(s: seq<EngineeringEvent>, k: SortKey)
    ensures WithKey(SortEvents(s), k) == WithKey(s, k)
  {
    if |s| > 0 {
      var init, x := s[..|s| - 1], s[|s| - 1];
      assert s == init + [x];
      SortEventsStable(init, k);
      SortEventsSorted(init);
      if KeyOf(x) == k {
        WithKeyInsertSame(SortEvents(init), x);
      } else {
        WithKeyInsertOther(SortEvents(init), x, k);
      }
      WithKeySnoc(init, x, k);
    }
  }

  /** Every event `WithKey` picks out is an event of the input carrying that key. */
  lemma {:induction false} WithKeyMember(s: seq<EngineeringEvent>, k: SortKey, x: EngineeringEvent)
    requires x in WithKey(s, k)
    ensures KeyOf(x) == k && x in s
  {
    if |s| > 0 {
      if x != s[0] || KeyOf(s[0]) != k {
        WithKeyMember(s[1..], k, x);
      }
    }
  }

  /** Two sorted sequences that agree on the order within each key start alike. */
  lemma SortedHeadsEqual(s: seq<EngineeringEvent>, t: seq<EngineeringEvent>)
    requires Sorted(s) && Sorted(t) && |s| > 0 && |t| > 0
    requires WithKey(s, KeyOf(s[0])) == WithKey(t, KeyOf(s[0]))
    requires WithKey(s, KeyOf(t[0])) == WithKey(t, KeyOf(t[0]))
    ensures s[0] == t[0]
  {
    var k0, k1 := KeyOf(s[0]), KeyOf(t[0]);
    assert WithKey(s, k0)[0] == s[0];
    assert WithKey(t, k1)[0] == t[0];
    WithKeyMember(t, k0, s[0]);
    WithKeyMember(s, k1, t[0]);
    var j :| 0 <= j < |t| && t[j] == s[0];
    var i :| 0 <= i < |s| && s[i] == t[0];
    assert !KeyLt(k0, k1) by { if j > 0 { assert !KeyLt(KeyOf(t[j]), KeyOf(t[0])); } }
    assert !KeyLt(k1, k0) by { if i > 0 { assert !KeyLt(KeyOf(s[i]), KeyOf(s[0])); } }
    KeyTrichotomy(k0, k1);
  }

  /** Dropping one shared first event keeps the agreement on a key. */
  lemma WithKeyDropHead(s: seq<EngineeringEvent>, t: seq<EngineeringEvent>, k: SortKey)
    requires |s| > 0 && |t| > 0 && s[0] == t[0] && WithKey(s, k) == WithKey(t, k)
    ensures WithKey(s[1..], k) == WithKey(t[1..], k)
  {
    var h := if KeyOf(s[0]) == k then [s[0]] else [];
    assert WithKey(s, k) == h + WithKey(s[1..], k);
    assert WithKey(t, k) == h + WithKey(t[1..], k);
    assert WithKey(s, k)[|h|..] == WithKey(s[1..], k);
    assert WithKey(t, k)[|h|..] == WithKey(t[1..], k);
  }

  /**
   * A sorted sequence is fixed by the order its events take within each key:
   * two sorted sequences that agree on that order are equal.
   */
  lemma {:induction false} SortedUnique(s: seq<EngineeringEvent>, t: seq<EngineeringEvent>)
    requires Sorted(s) && Sorted(t)
    requires forall k :: WithKey(s, k) == WithKey(t, k)
    ensures s == t
  {
    if |s| > 0 && |t| > 0 {
      SortedHeadsEqual(s, t);
      forall k
        ensures WithKey(s[1..], k) == WithKey(t[1..], k)
      {
        WithKeyDropHead(s, t, k);
      }
      SortedTail(s);
      SortedTail(t);
      SortedUnique(s[1..], t[1..]);
      assert s == [s[0]] + s[1..] && t == [t[0]] + t[1..];
    } else if |s| > 0 {
      WithKeyOfHead(s);
    } else if |t| > 0 {
      WithKeyOfHead(t);
    }
  }

  lemma WithKeyOfHead(s: seq<EngineeringEvent>)
    requires |s| > 0
    ensures WithKey(s, KeyOf(s[0])) != []
  {
    assert WithKey(s, KeyOf(s[0]))[0] == s[0];
  }

  /**
   * The sort depends only on the order of the input's events within each
   * key: inputs that agree on it sort to the same sequence.
   */
  lemma SortDeterminedByTies(a: seq<EngineeringEvent>, b: seq<EngineeringEvent>)
    requires forall k :: WithKey(a, k) == WithKey(b, k)
    ensures SortEvents(a) == SortEvents(b)
  {
    SortEventsSorted(a);
    SortEventsSorted(b);
    forall k
      ensures WithKey(SortEvents(a), k) == WithKey(SortEvents(b), k)
    {
      SortEventsStable(a, k);
      SortEventsStable(b, k);
    }
    SortedUnique(SortEvents(a), SortEvents(b));
  }

  /** How many times `x` occurs among the events with key `k`. */
  lemma {:induction false} WithKeyCount(s: seq<EngineeringEvent>, k: SortKey, x: EngineeringEvent)
    ensures multiset(WithKey(s, k))[x] == if KeyOf(x) == k then multiset(s)[x] else 0
  {
    if |s| > 0 {
      WithKeyCount(s[1..], k, x);
      assert s == [s[0]] + s[1..];
    }
  }

  /** No two events of `s` share a sort key. */
  predicate KeysDistinct(s: seq<EngineeringEvent>) {
    forall i, j :: 0 <= i < j < |s| ==> KeyOf(s[i]) != KeyOf(s[j])
  }

  lemma {:induction false} WithKeyDistinct(s: seq<EngineeringEvent>, k: SortKey)
    requires KeysDistinct(s)
    ensures |WithKey(s, k)| <= 1
  {
    if |s| > 0 {
      if KeyOf(s[0]) == k {
        WithKeyNone(s[1..], k);
      } else {
        WithKeyDistinct(s[1..], k);
      }
    }
  }

  /**
   * When no two events share a sort key, every reordering of the input sorts
   * to the same sequence.
   */
  lemma SortIgnoresOrder(a: seq<EngineeringEvent>, b: seq<EngineeringEvent>)
    requires multiset(a) == multiset(b) && KeysDistinct(a)
    ensures SortEvents(a) == SortEvents(b)
  {
    forall k
      ensures WithKey(a, k) == WithKey(b, k)
    {
      PermutationWithKey(a, b, k);
    }
    SortDeterminedByTies(a, b);
  }

  /** A permutation has the same events under each key, counted with multiplicity. */
  lemma PermutationWithKeyCount(a: seq<EngineeringEvent>, b: seq<EngineeringEvent>, k: SortKey)
    requires multiset(a) == multiset(b)
    ensures multiset(WithKey(a, k)) == multiset(WithKey(b, k))
  {
    forall x
      ensures multiset(WithKey(a, k))[x] == multiset(WithKey(b, k))[x]
    {
      WithKeyCount(a, k, x);
      WithKeyCount(b, k, x);
    }
  }

  /** Sequences of at most one element are equal when their multisets are. */
  lemma ShortSameMultiset(u: seq<EngineeringEvent>, w: seq<EngineeringEvent>)
    requires |u| <= 1 && multiset(u) == multiset(w)
    ensures u == w
  {
    assert |w| == |multiset(w)| == |multiset(u)| == |u|;
    if |u| == 1 {
      assert u[0] in multiset(w);
    }
  }

  /** With at most one event per key, a permutation picks out the same event for each key. */
  lemma PermutationWithKey(a: seq<EngineeringEvent>, b: seq<EngineeringEvent>, k: SortKey)
    requires multiset(a) == multiset(b) && KeysDistinct(a)
    ensures WithKey(a, k) == WithKey(b, k)
  {
    PermutationWithKeyCount(a, b, k);
    WithKeyDistinct(a, k);
    ShortSameMultiset(WithKey(a, k), WithKey(b, k));
  }

  /** An already sorted input comes back unchanged. */
  lemma {:induction false} SortSortedIsIdentity(s: seq<EngineeringEvent>)
    requires Sorted(s)
    ensures SortEvents(s) == s
  {
    if |s| > 0 {
      var init, x := s[..|s| - 1], s[|s| - 1];
      assert Sorted(init);
      SortSortedIsIdentity(init);
      InsertAtEnd(init, x);
    }
  }

  /** An element no smaller than every element of a sorted sequence is appended. */
  lemma {:induction false} InsertAtEnd(s: seq<EngineeringEvent>, x: EngineeringEvent)
    requires forall i :: 0 <= i < |s| ==> !KeyLt(KeyOf(x), KeyOf(s[i]))
    ensures Insert(s, x) == s + [x]
  {
    if |s| > 0 {
      InsertAtEnd(s[1..], x);
      assert s == [s[0]] + s[1..];
    }
  }

  /**
   * In sorted order, events sharing a part are contiguous; within a part, so
   * are those sharing a paper; within a paper, so are those sharing a name.
   */
  lemma SortedContiguous(s: seq<EngineeringEvent>, i: nat, j: nat, l: nat)
    requires Sorted(s) && i < j < l < |s|
    ensures s[i].part == s[l].part ==> s[j].part == s[i].part
    ensures s[i].part == s[l].part && s[i].paper == s[l].paper ==> s[j].paper == s[i].paper
    ensures s[i].part == s[l].part && s[i].paper == s[l].paper && s[i].name == s[l].name ==> s[j].name == s[i].name
  {
    NotKeyLtFields(KeyOf(s[i]), KeyOf(s[j]));
    NotKeyLtFields(KeyOf(s[j]), KeyOf(s[l]));
    if s[i].part == s[l].part {
      StrLeAntisymmetric(s[i].part, s[j].part);
      if s[i].paper == s[l].paper {
        StrLeAntisymmetric(s[i].paper, s[j].paper);
        if s[i].name == s[l].name {
          StrLeAntisymmetric(s[i].name, s[j].name);
        }
      }
    }
  }
}
