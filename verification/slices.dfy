/** Go slices that are edited while they are being ranged over.

    Both removal passes of the game (level.go and gameobject.go) use the idiom

        for i, x := range list {
            if x == target { list = append(list[:i], list[i+1:]...) }
        }

    `range` evaluates `list` once and reads element i of the shared backing
    array on every iteration, while the `append` shifts the tail of that same
    array one place to the left.  This module models the backing array
    exactly, so it states both what the idiom removes and which elements the
    loop body gets to see. */
module Slices {

  /** No element occurs twice. */
  ghost predicate Distinct<T>(s: seq<T>)
  {
    forall i, j :: 0 <= i < j < |s| ==> s[i] != s[j]
  }

  /** The elements of `s` that do not occur in `ts`, in their order in `s`. */
  function FilterOut<T(==)>(s: seq<T>, ts: seq<T>): (r: seq<T>)
    ensures |r| <= |s|
  {
    if s == [] then []
    else (if s[0] in ts then [] else [s[0]]) + FilterOut(s[1..], ts)
  }

  /** Index of the first occurrence of `t` in `s`. */
  function IndexOf<T(==)>(s: seq<T>, t: T): (p: nat)
    requires t in s
    ensures p < |s| && s[p] == t && t !in s[..p]
  {
    if s[0] == t then 0 else 1 + IndexOf(s[1..], t)
  }

  /** The backing array after `append(s[:p], s[p+1:]...)`: the tail moves one
      place left and the last slot keeps its old element. */
  function Spliced<T>(s: seq<T>, p: nat): (b: seq<T>)
    requires p < |s|
    ensures |b| == |s|
  {
    s[..p] + s[p + 1..] + [s[|s| - 1]]
  }

  /** The elements that `for i, x := range s` hands to its body when the body
      splices out `t`: everything up to `t`, then the shifted backing array.
      After a removal the loop never sees the element that followed `t`, and
      sees the old last element twice. */
  function Scanned<T(==)>(s: seq<T>, t: T): seq<T>
  {
    if t in s then
      var p := IndexOf(s, t);
      s[..p + 1] + Spliced(s, p)[p + 1..]
    else s
  }

  /** Splicing out, one after the other, each element of `ts`: the list that
      is left and the concatenation of what every pass scanned. */
  function RemovalPass<T(==)>(s: seq<T>, ts: seq<T>): (seq<T>, seq<T>)
    decreases ts
  {
    if ts == [] then (s, [])
    else
      var next := RemovalPass(FilterOut(s, [ts[0]]), ts[1..]);
      (next.0, Scanned(s, ts[0]) + next.1)
  }

  /** One `range` pass that splices out `t`, with the Go backing array made
      explicit; `len` is the length of the slice variable.  For a list
      without repetitions no `append` ever needs an index past `len` (so the
      Go code cannot panic) and the pass removes exactly `t`. */
  method RangeSplice<T(==)>(s: seq<T>, t: T) returns (rest: seq<T>, scanned: seq<T>)
    requires Distinct(s)
    ensures rest == FilterOut(s, [t])
    ensures scanned == Scanned(s, t)
  {
    var backing := s;
    var len := |s|;
    scanned := [];
    ghost var found := false;
    ghost var p := 0;
    ScannedShape(s, t);
    var i := 0;
    while i < |s|
      invariant PassState(s, t, i, backing, len, found, p)
      invariant scanned == Scanned(s, t)[..i]
    {
      PassStep(s, t, i, backing, len, found, p);
      var x := backing[i];
      scanned := scanned + [x];
      if x == t {
        backing := backing[..i] + backing[i + 1..len] + backing[len - 1..];
        len := len - 1;
        found, p := true, i;
      }
      i := i + 1;
    }
    assert Scanned(s, t)[..|s|] == Scanned(s, t);
    rest := backing[..len];
    if found {
      FilterOutAt(s, p);
    } else {
      FilterOutAbsent(s, t);
    }
  }

  /** The state of the `range` loop before iteration `i`: before the
      splice the backing array is the list itself; after it, the backing
      array is spliced at `t`'s index `p` and the slice is one shorter. */
  ghost predicate PassState<T>(s: seq<T>, t: T, i: int, backing: seq<T>, len: int, found: bool, p: nat)
  {
    0 <= i <= |s| && |backing| == |s| &&
    (!found ==> t !in s[..i] && backing == s && len == |s|) &&
    (found ==> t in s && p == IndexOf(s, t) && p < i && len == |s| - 1 && backing == Spliced(s, p))
  }

  /** One iteration of the `range` loop: the element read from the backing
      array is the next one of the scan, and the state moves on, through
      the splice when that element is `t`. */
  lemma PassStep<T>(s: seq<T>, t: T, i: int, backing: seq<T>, len: int, found: bool, p: nat)
    requires Distinct(s) && i < |s| && PassState(s, t, i, backing, len, found, p)
    ensures 0 <= i < |backing| && |Scanned(s, t)| == |s|
    ensures Scanned(s, t)[..i + 1] == Scanned(s, t)[..i] + [backing[i]]
    ensures backing[i] != t ==> PassState(s, t, i + 1, backing, len, found, p)
    ensures backing[i] == t ==>
      1 <= len <= |s| && i + 1 <= len &&
      PassState(s, t, i + 1, backing[..i] + backing[i + 1..len] + backing[len - 1..], len - 1, true, i)
  {
    ScanNext(s, t, i, backing, found, p);
    if backing[i] == t {
      SplicedAsAppend(s, i);
      IndexOfUnique(s, i);
    } else if !found {
      assert s[..i + 1] == s[..i] + [s[i]];
    }
  }

  /** The element read in iteration `i` is the next one of the scan; after
      the splice it is never the removed one. */
  lemma ScanNext<T>(s: seq<T>, t: T, i: nat, backing: seq<T>, found: bool, p: nat)
    requires Distinct(s) && i < |s|
    requires !found ==> t !in s[..i] && backing == s
    requires found ==> t in s && p == IndexOf(s, t) && p < i && backing == Spliced(s, p)
    ensures |Scanned(s, t)| == |s| && i < |backing|
    ensures Scanned(s, t)[..i + 1] == Scanned(s, t)[..i] + [backing[i]]
    ensures found ==> backing[i] != t
  {
    ScannedShape(s, t);
    var sc := Scanned(s, t);
    if found {
      SplicedAfter(s, p, i);
      assert sc[i] == backing[i];
    } else if t in s {
      var q := IndexOf(s, t);
      assert q >= i;
      assert sc[i] == (s[..q + 1])[i];
    }
    assert sc[..i + 1] == sc[..i] + [sc[i]];
  }

  /** The outer loop of a removal pass: one `range` splice per element of
      `ts`, in order. */
  method RangeSpliceAll<T(==)>(s: seq<T>, ts: seq<T>) returns (rest: seq<T>, scanned: seq<T>)
    requires Distinct(s)
    ensures rest == RemovalPass(s, ts).0 && scanned == RemovalPass(s, ts).1
  {
    rest, scanned := s, [];
    var k := 0;
    assert ts[k..] == ts;
    assert scanned + RemovalPass(s, ts).1 == RemovalPass(s, ts).1;
    while k < |ts|
      invariant 0 <= k <= |ts| && Distinct(rest)
      invariant RemovalPass(s, ts) == (RemovalPass(rest, ts[k..]).0, scanned + RemovalPass(rest, ts[k..]).1)
    {
      var r, sc := RangeSplice(rest, ts[k]);
      FilterOutDistinct(rest, [ts[k]]);
      assert ts[k..][0] == ts[k] && ts[k..][1..] == ts[k + 1..];
      ghost var next := RemovalPass(r, ts[k + 1..]);
      assert RemovalPass(rest, ts[k..]) == (next.0, sc + next.1);
      assert scanned + (sc + next.1) == (scanned + sc) + next.1;
      rest, scanned := r, scanned + sc;
      k := k + 1;
    }
    assert ts[k..] == [];
  }

  /** `s` without the first occurrence of `t`; `s` itself when `t` is
      absent. */
  function DeleteFirst<T(==)>(s: seq<T>, t: T): (r: seq<T>)
    ensures t in s ==> |r| == |s| - 1
    ensures t !in s ==> r == s
  {
    if t in s then
      var p := IndexOf(s, t);
      s[..p] + s[p + 1..]
    else s
  }

  /** Deleting the first occurrence of each element of `ts` in turn. */
  function DeleteEach<T(==)>(s: seq<T>, ts: seq<T>): seq<T>
    decreases ts
  {
    if ts == [] then s else DeleteEach(DeleteFirst(s, ts[0]), ts[1..])
  }

  /** Deleting the first occurrence removes exactly one copy of `t`. */
  lemma DeleteFirstCount<T>(s: seq<T>, t: T)
    ensures multiset(DeleteFirst(s, t)) == multiset(s) - multiset{t}
  {
    if t in s {
      var p := IndexOf(s, t);
      assert s == s[..p] + [t] + s[p + 1..];
    } else {
      assert multiset(s)[t] == 0;
    }
  }

  /** In a list without repetitions, deleting the first occurrence is the
      filter. */
  lemma DeleteFirstDistinct<T>(s: seq<T>, t: T)
    requires Distinct(s)
    ensures DeleteFirst(s, t) == FilterOut(s, [t])
  {
    if t in s {
      FilterOutAt(s, IndexOf(s, t));
    } else {
      FilterOutAbsent(s, t);
    }
  }

  /** In a list without repetitions, deleting each element of `ts` in turn
      is the filter by `ts`. */
  lemma {:induction false} DeleteEachDistinct<T>(s: seq<T>, ts: seq<T>)
    requires Distinct(s)
    ensures DeleteEach(s, ts) == FilterOut(s, ts)
    decreases ts
  {
    if ts == [] {
      FilterOutAbsentAll(s);
    } else {
      DeleteFirstDistinct(s, ts[0]);
      FilterOutDistinct(s, [ts[0]]);
      DeleteEachDistinct(FilterOut(s, [ts[0]]), ts[1..]);
      FilterOutTwice(s, ts[0], ts[1..]);
      assert [ts[0]] + ts[1..] == ts;
    }
  }

  /** Concatenation regroups freely. */
  lemma AppendAssoc<T>(a: seq<T>, b: seq<T>, c: seq<T>)
    ensures a + (b + c) == a + b + c
  {
  }

  /** Go's `append(b[:i], b[i+1:]...)` on a full backing array `s`. */
  lemma SplicedAsAppend<T>(s: seq<T>, i: nat)
    requires i < |s|
    ensures s[..i] + s[i + 1..|s|] + s[|s| - 1..] == Spliced(s, i)
  {
    assert s[i + 1..|s|] == s[i + 1..];
    assert s[|s| - 1..] == [s[|s| - 1]];
  }

  lemma IndexOfUnique<T>(s: seq<T>, i: nat)
    requires i < |s| && s[i] !in s[..i]
    ensures IndexOf(s, s[i]) == i
  {
  }

  /** Past the splice point the backing array holds no copy of the removed
      element. */
  lemma SplicedAfter<T>(s: seq<T>, p: nat, k: nat)
    requires Distinct(s) && p < k < |s|
    ensures Spliced(s, p)[k] != s[p]
  {
    if k < |s| - 1 {
      assert Spliced(s, p)[k] == s[k + 1];
    }
  }

  lemma {:induction false} FilterOutAbsent<T>(s: seq<T>, t: T)
    requires t !in s
    ensures FilterOut(s, [t]) == s
  {
    if s != [] {
      FilterOutAbsent(s[1..], t);
    }
  }

  /** In a list without repetitions, filtering out the element at `p` is the
      splice `s[..p] + s[p+1..]`. */
  lemma {:induction false} FilterOutAt<T>(s: seq<T>, p: nat)
    requires Distinct(s) && p < |s|
    ensures FilterOut(s, [s[p]]) == s[..p] + s[p + 1..]
  {
    if p == 0 {
      assert s[0] !in s[1..];
      FilterOutAbsent(s[1..], s[0]);
    } else {
      assert s[1..][p - 1] == s[p];
      FilterOutAt(s[1..], p - 1);
      assert s[1..][..p - 1] + s[1..][p..] == s[1..p] + s[p + 1..];
      assert s[..p] == [s[0]] + s[1..p];
    }
  }

  /** Membership in a filtered list. */
  lemma {:induction false} FilterOutMember<T>(s: seq<T>, ts: seq<T>, x: T)
    ensures x in FilterOut(s, ts) <==> x in s && x !in ts
  {
    if s != [] {
      FilterOutMember(s[1..], ts, x);
      assert s == [s[0]] + s[1..];
    }
  }

  /** Filtering distributes over concatenation: the survivors keep their
      relative order. */
  lemma {:induction false} FilterOutConcat<T>(a: seq<T>, b: seq<T>, ts: seq<T>)
    ensures FilterOut(a + b, ts) == FilterOut(a, ts) + FilterOut(b, ts)
  {
    if a == [] {
      assert a + b == b;
    } else {
      var ab := a + b;
      assert ab[0] == a[0] && ab[1..] == a[1..] + b;
      FilterOutConcat(a[1..], b, ts);
      assert FilterOut(ab, ts) == (if a[0] in ts then [] else [a[0]]) + FilterOut(a[1..] + b, ts);
      assert FilterOut(a, ts) == (if a[0] in ts then [] else [a[0]]) + FilterOut(a[1..], ts);
    }
  }

  /** After a removal pass over a list without repetitions, the survivors
      have no repetitions either, and an element survives exactly when it
      was in the list and not queued. */
  lemma Survivors<T>(s: seq<T>, queued: seq<T>)
    requires Distinct(s)
    ensures Distinct(FilterOut(s, queued))
    ensures forall x :: x in FilterOut(s, queued) <==> x in s && x !in queued
  {
    FilterOutDistinct(s, queued);
    forall x
      ensures x in FilterOut(s, queued) <==> x in s && x !in queued
    {
      FilterOutMember(s, queued, x);
    }
  }

  /** Filtering keeps a list free of repetitions. */
  lemma {:induction false} FilterOutDistinct<T>(s: seq<T>, ts: seq<T>)
    requires Distinct(s)
    ensures Distinct(FilterOut(s, ts))
  {
    if s != [] {
      FilterOutDistinct(s[1..], ts);
      FilterOutMember(s[1..], ts, s[0]);
      var tail := FilterOut(s[1..], ts);
      assert s[0] !in tail by {
        assert s[0] !in s[1..];
      }
    }
  }

  /** Filtering by `[t]` and then by `ts` filters by `[t] + ts`. */
  lemma {:induction false} FilterOutTwice<T>(s: seq<T>, t: T, ts: seq<T>)
    ensures FilterOut(FilterOut(s, [t]), ts) == FilterOut(s, [t] + ts)
  {
    if s != [] {
      FilterOutTwice(s[1..], t, ts);
      if s[0] == t {
        assert FilterOut(s, [t]) == FilterOut(s[1..], [t]);
        assert FilterOut(s, [t] + ts) == FilterOut(s[1..], [t] + ts);
      } else {
        calc {
          FilterOut(FilterOut(s, [t]), ts);
          FilterOut([s[0]] + FilterOut(s[1..], [t]), ts);
          { assert ([s[0]] + FilterOut(s[1..], [t]))[1..] == FilterOut(s[1..], [t]); }
          (if s[0] in ts then [] else [s[0]]) + FilterOut(FilterOut(s[1..], [t]), ts);
        }
      }
    }
  }

  /** The removal pass removes exactly the listed elements and keeps the
      order of the others. */
  lemma {:induction false} RemovalPassFilters<T>(s: seq<T>, ts: seq<T>)
    ensures RemovalPass(s, ts).0 == FilterOut(s, ts)
    decreases ts
  {
    if ts == [] {
      FilterOutAbsentAll(s);
    } else {
      RemovalPassFilters(FilterOut(s, [ts[0]]), ts[1..]);
      FilterOutTwice(s, ts[0], ts[1..]);
      assert [ts[0]] + ts[1..] == ts;
    }
  }

  lemma {:induction false} FilterOutAbsentAll<T>(s: seq<T>)
    ensures FilterOut(s, []) == s
  {
    if s != [] {
      FilterOutAbsentAll(s[1..]);
    }
  }

  /** A pass scans as many elements as the list had when it started, all of
      them from the list, and among them the removed element when present. */
  lemma ScannedShape<T>(s: seq<T>, t: T)
    ensures |Scanned(s, t)| == |s|
    ensures forall x :: x in Scanned(s, t) ==> x in s
    ensures t in s ==> t in Scanned(s, t)
  {
    if t in s {
      var p := IndexOf(s, t);
      assert Scanned(s, t)[p] == t;
    }
  }

  /** In a list without repetitions, removing `s[p]` hides its successor
      `s[p+1]` from the scan whenever that successor is not the last
      element, and the last element is scanned twice. */
  lemma ScanSkipsSuccessor<T>(s: seq<T>, p: nat)
    requires Distinct(s) && p + 2 < |s|
    ensures s[p + 1] !in Scanned(s, s[p])
    ensures Scanned(s, s[p])[|s| - 2] == Scanned(s, s[p])[|s| - 1] == s[|s| - 1]
  {
    IndexOfUnique(s, p);
    var sc := Scanned(s, s[p]);
    assert sc == s[..p + 1] + s[p + 2..] + [s[|s| - 1]];
  }

  /** A rearrangement of a list without repetitions has none either. */
  lemma DistinctPermutation<T>(s: seq<T>, r: seq<T>)
    requires Distinct(s) && multiset(s) == multiset(r)
    ensures Distinct(r)
  {
    forall i, j | 0 <= i < j < |r|
      ensures r[i] != r[j]
    {
      assert r[i] in multiset(r);
      DistinctCount(s, r[i]);
      EqualPairCount(r, i, j);
    }
  }

  lemma EqualPairCount<T>(r: seq<T>, i: nat, j: nat)
    requires i < j < |r|
    ensures r[i] == r[j] ==> multiset(r)[r[i]] >= 2
  {
    assert r == r[..j] + r[j..];
    assert r[i] in r[..j];
    assert r[j] in r[j..];
  }

  lemma {:induction false} DistinctCount<T>(s: seq<T>, x: T)
    requires Distinct(s) && x in s
    ensures multiset(s)[x] == 1
  {
    assert s == [s[0]] + s[1..];
    if s[0] == x {
      assert x !in s[1..];
    } else {
      DistinctCount(s[1..], x);
    }
  }
}
