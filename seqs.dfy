/** Sequence vocabulary for the exporters' grouping loops: first-occurrence
    de-duplication, projection through a key, and the records of one key.
    Every list is built left to right, one element appended at a time, the way
    the Python loops append. */
module Seqs {

  predicate NoDuplicates<T(==)>(s: seq<T>)
  {
    forall i, j :: 0 <= i < j < |s| ==> s[i] != s[j]
  }

  /** `for x in s: if x not in out: out.append(x)`. */
  function Dedup<T(==)>(s: seq<T>): seq<T>
  {
    if |s| == 0 then []
    else
      var d := Dedup(s[..|s| - 1]);
      if s[|s| - 1] in d then d else d + [s[|s| - 1]]
  }

  lemma DedupSnoc<T>(s: seq<T>, x: T)
    ensures Dedup(s + [x]) == if x in Dedup(s) then Dedup(s) else Dedup(s) + [x]
  {
    assert (s + [x])[..|s|] == s;
  }

  /** The position where `x` first occurs in `s`. */
  function FirstIndex<T(==)>(s: seq<T>, x: T): (k: nat)
    requires x in s
    ensures k < |s| && s[k] == x && x !in s[..k]
  {
    if s[0] == x then 0 else 1 + FirstIndex(s[1..], x)
  }

  lemma {:induction false} FirstIndexPrefix<T>(s: seq<T>, t: seq<T>, x: T)
    requires x in s
    ensures x in s + t && FirstIndex(s + t, x) == FirstIndex(s, x)
  {
    if s[0] != x {
      assert (s + t)[1..] == s[1..] + t;
      FirstIndexPrefix(s[1..], t, x);
    }
  }

  /** Appending blocks one after another appends their concatenation. */
  lemma AppendAssoc<T>(a: seq<T>, b: seq<T>, c: seq<T>)
    ensures (a + b) + c == a + (b + c)
  {
  }

  lemma AppendAssoc3<T>(e: seq<T>, a: seq<T>, b: seq<T>, c: seq<T>)
    ensures e + a + b + c == e + (a + b + c)
  {
  }

  lemma AppendAssoc4<T>(e: seq<T>, a: seq<T>, b: seq<T>, c: seq<T>, d: seq<T>)
    ensures e + a + b + c + d == e + (a + b + c + d)
  {
  }

  lemma AppendAssoc5<T>(e: seq<T>, a: seq<T>, b: seq<T>, c: seq<T>, d: seq<T>, f: seq<T>)
    ensures e + a + b + c + d + f == e + (a + b + c + d + f)
  {
  }

  /** De-duplication keeps each value of `s` exactly once and adds nothing. */
  lemma {:induction false} DedupSpec<T>(s: seq<T>)
    ensures NoDuplicates(Dedup(s))
    ensures forall x :: x in Dedup(s) <==> x in s
  {
    if |s| > 0 {
      var p, x := s[..|s| - 1], s[|s| - 1];
      assert s == p + [x];
      DedupSpec(p);
    }
  }

  /** De-duplication lists the values in the order of their first occurrence. */
  lemma {:induction false} DedupOrder<T>(s: seq<T>)
    ensures forall x :: x in Dedup(s) ==> x in s
    ensures forall i, j :: 0 <= i < j < |Dedup(s)| ==>
      FirstIndex(s, Dedup(s)[i]) < FirstIndex(s, Dedup(s)[j])
  {
    DedupSpec(s);
    if |s| > 0 {
      var p, x := s[..|s| - 1], s[|s| - 1];
      assert s == p + [x];
      DedupOrder(p);
      var d := Dedup(p);
      forall y | y in p ensures y in s && FirstIndex(s, y) == FirstIndex(p, y) {
        FirstIndexPrefix(p, [x], y);
      }
      if x !in d {
        DedupSpec(p);
        assert x !in p;
        assert FirstIndex(s, x) == |p| by {
          assert s[..|p|] == p;
        }
      }
    }
  }

  /** `[key(x) for x in s]`. */
  function Keys<T, K>(s: seq<T>, key: T -> K): (r: seq<K>)
    ensures |r| == |s|
    ensures forall i :: 0 <= i < |s| ==> r[i] == key(s[i])
  {
    if |s| == 0 then [] else Keys(s[..|s| - 1], key) + [key(s[|s| - 1])]
  }

  /** `[x for x in s if key(x) == k]`. */
  function FilterKey<T, K(==)>(s: seq<T>, key: T -> K, k: K): (r: seq<T>)
    ensures |r| <= |s|
  {
    if |s| == 0 then []
    else FilterKey(s[..|s| - 1], key, k) + (if key(s[|s| - 1]) == k then [s[|s| - 1]] else [])
  }

  /** The filter keeps exactly the elements with key `k`. */
  lemma {:induction false} FilterKeyMembers<T, K>(s: seq<T>, key: T -> K, k: K)
    ensures forall x :: x in FilterKey(s, key, k) ==> x in s && key(x) == k
    ensures forall i :: 0 <= i < |s| && key(s[i]) == k ==> s[i] in FilterKey(s, key, k)
  {
    if |s| > 0 {
      FilterKeyMembers(s[..|s| - 1], key, k);
      forall i | 0 <= i < |s| - 1
        ensures s[i] == s[..|s| - 1][i]
      {
      }
    }
  }

  lemma {:induction false} FilterKeyAbsent<T, K>(s: seq<T>, key: T -> K, k: K)
    requires k !in Keys(s, key)
    ensures FilterKey(s, key, k) == []
  {
    if |s| > 0 {
      assert Keys(s[..|s| - 1], key) <= Keys(s, key);
      FilterKeyAbsent(s[..|s| - 1], key, k);
    }
  }

  lemma KeysPrefix<T, K>(s: seq<T>, key: T -> K, i: nat)
    requires i < |s|
    ensures Keys(s[..i + 1], key) == Keys(s[..i], key) + [key(s[i])]
  {
    assert s[..i + 1][..i] == s[..i];
  }

  lemma FilterKeyPrefix<T, K>(s: seq<T>, key: T -> K, k: K, i: nat)
    requires i < |s|
    ensures FilterKey(s[..i + 1], key, k) == FilterKey(s[..i], key, k) + (if key(s[i]) == k then [s[i]] else [])
  {
    assert s[..i + 1][..i] == s[..i];
  }

  /** The summed sizes of the groups of the keys `ks`. */
  function GroupSizes<T, K(==)>(s: seq<T>, key: T -> K, ks: seq<K>): nat
  {
    if |ks| == 0 then 0
    else GroupSizes(s, key, ks[..|ks| - 1]) + |FilterKey(s, key, ks[|ks| - 1])|
  }

  lemma {:induction false} GroupSizesSnoc<T, K>(s: seq<T>, x: T, key: T -> K, ks: seq<K>)
    requires NoDuplicates(ks)
    ensures GroupSizes(s + [x], key, ks) == GroupSizes(s, key, ks) + (if key(x) in ks then 1 else 0)
  {
    assert (s + [x])[..|s|] == s;
    if |ks| > 0 {
      var q := ks[..|ks| - 1];
      assert NoDuplicates(q);
      GroupSizesSnoc(s, x, key, q);
      assert key(x) in ks <==> key(x) in q || key(x) == ks[|ks| - 1];
      assert key(x) in q ==> key(x) != ks[|ks| - 1];
    }
  }

  /** Grouping by a key partitions the sequence: the groups of the distinct
      keys, each taken once, have sizes summing to the length of `s`. */
  lemma {:induction false} GroupsPartition<T, K>(s: seq<T>, key: T -> K)
    ensures GroupSizes(s, key, Dedup(Keys(s, key))) == |s|
  {
    if |s| > 0 {
      var p, x := s[..|s| - 1], s[|s| - 1];
      assert s == p + [x];
      assert Keys(s, key)[..|s| - 1] == Keys(p, key);
      GroupsPartition(p, key);
      var d := Dedup(Keys(p, key));
      DedupSpec(Keys(p, key));
      GroupSizesSnoc(p, x, key, d);
      if key(x) !in d {
        assert Dedup(Keys(s, key)) == d + [key(x)];
        FilterKeyAbsent(p, key, key(x));
        assert FilterKey(s, key, key(x)) == [x];
        assert (d + [key(x)])[..|d|] == d;
        assert !(key(x) in d);
        assert GroupSizes(s, key, d + [key(x)]) == GroupSizes(s, key, d) + 1;
      }
    }
  }

  /** The elements of a sequence of chunks, chunk by chunk. */
  function Flatten<T>(chunks: seq<seq<T>>): seq<T>
  {
    if |chunks| == 0 then [] else Flatten(chunks[..|chunks| - 1]) + chunks[|chunks| - 1]
  }

  lemma FlattenPrefix<T>(chunks: seq<seq<T>>, i: nat)
    requires i < |chunks|
    ensures Flatten(chunks[..i + 1]) == Flatten(chunks[..i]) + chunks[i]
  {
    assert chunks[..i + 1][..i] == chunks[..i];
  }
}
