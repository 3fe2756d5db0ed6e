/** The array and string operations the store and the views are built from —
    `filter`, a `map` that replaces entries by id, `find` and `includes` —
    defined once over sequences and characterised by the lemmas below. */
module Lists {
  import opened Wrappers

  /** `s.filter(keep)`: the elements of `s` that satisfy `keep`, in their
      order. */
  function Filter<T>(s: seq<T>, keep: T -> bool): (r: seq<T>)
    ensures |r| <= |s|
  {
    if s == [] then []
    else if keep(s[0]) then [s[0]] + Filter(s[1..], keep)
    else Filter(s[1..], keep)
  }

  /** The filter keeps exactly the elements that satisfy `keep`. */
  lemma {:induction false} FilterMembers<T(!new)>(s: seq<T>, keep: T -> bool)
    ensures forall x :: x in Filter(s, keep) <==> x in s && keep(x)
  {
    if s != [] {
      FilterMembers(s[1..], keep);
      assert s == [s[0]] + s[1..];
    }
  }

  /** A kept element occurs in the result as often as in `s`; a rejected one
      not at all. */
  lemma {:induction false} FilterCounts<T(!new)>(s: seq<T>, keep: T -> bool)
    ensures forall x :: multiset(Filter(s, keep))[x] == if keep(x) then multiset(s)[x] else 0
  {
    if s != [] {
      FilterCounts(s[1..], keep);
      assert s == [s[0]] + s[1..];
    }
  }

  /** `r` can be obtained from `s` by deleting elements: it keeps their order. */
  predicate IsSubsequence<T(==)>(r: seq<T>, s: seq<T>)
  {
    r == [] ||
    (s != [] && if r[0] == s[0] then IsSubsequence(r[1..], s[1..]) else IsSubsequence(r, s[1..]))
  }

  /** Filtering keeps the relative order of the survivors. */
  lemma {:induction false} FilterIsSubsequence<T(!new)>(s: seq<T>, keep: T -> bool)
    ensures IsSubsequence(Filter(s, keep), s)
  {
    if s != [] {
      FilterIsSubsequence(s[1..], keep);
      var rest := Filter(s[1..], keep);
      if keep(s[0]) {
        assert ([s[0]] + rest)[1..] == rest;
      } else if rest != [] {
        FilterMembers(s[1..], keep);
        assert rest[0] in rest;
      }
    }
  }

  /** A filter that rejects nothing returns its input. */
  lemma {:induction false} FilterKeepingAll<T>(s: seq<T>, keep: T -> bool)
    requires forall i :: 0 <= i < |s| ==> keep(s[i])
    ensures Filter(s, keep) == s
  {
    if s != [] {
      FilterKeepingAll(s[1..], keep);
      assert s == [s[0]] + s[1..];
    }
  }

  /** A filter that keeps as many elements as it was given rejected none. */
  lemma {:induction false} FilterFullLength<T>(s: seq<T>, keep: T -> bool)
    requires |Filter(s, keep)| == |s|
    ensures forall i :: 0 <= i < |s| ==> keep(s[i])
  {
    if s != [] {
      FilterFullLength(s[1..], keep);
      forall i | 0 <= i < |s| ensures keep(s[i]) {
        if i > 0 {
          assert s[i] == s[1..][i - 1];
        }
      }
    }
  }

  /** How many elements a filter keeps depends only on the multiset filtered,
      so `s.filter(keep).length` is the same for any reordering of `s`. */
  lemma FilterLengthUnderPermutation<T(!new)>(a: seq<T>, b: seq<T>, keep: T -> bool)
    requires multiset(a) == multiset(b)
    ensures |Filter(a, keep)| == |Filter(b, keep)|
  {
    var fa, fb := Filter(a, keep), Filter(b, keep);
    FilterCounts(a, keep);
    FilterCounts(b, keep);
    forall x ensures multiset(fa)[x] == multiset(fb)[x] {
      assert multiset(a)[x] == multiset(b)[x];
    }
    assert multiset(fa) == multiset(fb);
    assert |fa| == |multiset(fa)| && |fb| == |multiset(fb)|;
  }

  /** `s.map(e => key(e) === key(x) ? x : e)`: every element with the key of
      `x` becomes `x`, every other element stays where it is. */
  function ReplaceByKey<T>(s: seq<T>, key: T -> string, x: T): (r: seq<T>)
    ensures |r| == |s|
    ensures forall i :: 0 <= i < |s| ==> r[i] == if key(s[i]) == key(x) then x else s[i]
  {
    if s == [] then []
    else [if key(s[0]) == key(x) then x else s[0]] + ReplaceByKey(s[1..], key, x)
  }

  /** Replacing by a key that no element has changes nothing. */
  lemma ReplaceAbsentKey<T>(s: seq<T>, key: T -> string, x: T)
    requires forall i :: 0 <= i < |s| ==> key(s[i]) != key(x)
    ensures ReplaceByKey(s, key, x) == s
  {
  }

  /** Replacing twice with the same element is replacing once. */
  lemma ReplaceIdempotent<T>(s: seq<T>, key: T -> string, x: T)
    ensures ReplaceByKey(ReplaceByKey(s, key, x), key, x) == ReplaceByKey(s, key, x)
  {
  }

  /** `s.find(pick)`: the first element satisfying `pick`, or none when no
      element does. */
  function Find<T(==)>(s: seq<T>, pick: T -> bool): (r: Option<T>)
    ensures r.None? <==> forall i :: 0 <= i < |s| ==> !pick(s[i])
    ensures r.Some? ==> r.value in s && pick(r.value)
  {
    if s == [] then None
    else if pick(s[0]) then Some(s[0])
    else Find(s[1..], pick)
  }

  /** The element `find` returns is the one at the first index that `pick`
      accepts. */
  lemma {:induction false} FindIsFirst<T>(s: seq<T>, pick: T -> bool, i: nat)
    requires i < |s| && pick(s[i])
    requires forall j :: 0 <= j < i ==> !pick(s[j])
    ensures Find(s, pick) == Some(s[i])
  {
    if i > 0 {
      FindIsFirst(s[1..], pick, i - 1);
    }
  }

  predicate IsPrefix<T(==)>(p: seq<T>, s: seq<T>)
  {
    |p| <= |s| && s[..|p|] == p
  }

  /** `hay.includes(needle)`, searched from the front. */
  predicate Contains<T(==)>(hay: seq<T>, needle: seq<T>): (r: bool)
    ensures needle == [] ==> r
    ensures r ==> |needle| <= |hay|
  {
    IsPrefix(needle, hay) || (hay != [] && Contains(hay[1..], needle))
  }

  /** `needle` occurs in `hay` starting at index `i`. */
  ghost predicate OccursAt<T>(hay: seq<T>, needle: seq<T>, i: int)
  {
    0 <= i <= |hay| - |needle| && hay[i..i + |needle|] == needle
  }

  /** `includes` holds exactly when the needle occurs at some index of the
      haystack. */
  lemma {:induction false} ContainsIffOccurs<T>(hay: seq<T>, needle: seq<T>)
    ensures Contains(hay, needle) <==> exists i :: OccursAt(hay, needle, i)
  {
    if IsPrefix(needle, hay) {
      assert OccursAt(hay, needle, 0);
    } else if hay != [] {
      ContainsIffOccurs(hay[1..], needle);
      if Contains(hay[1..], needle) {
        var i :| OccursAt(hay[1..], needle, i);
        assert hay[i + 1..i + 1 + |needle|] == hay[1..][i..i + |needle|];
        assert OccursAt(hay, needle, i + 1);
      }
      if exists i :: OccursAt(hay, needle, i) {
        var i :| OccursAt(hay, needle, i);
        assert i != 0;
        assert hay[1..][i - 1..i - 1 + |needle|] == hay[i..i + |needle|];
        assert OccursAt(hay[1..], needle, i - 1);
      }
    } else {
      assert |needle| > 0;
    }
  }

  /** No two elements share a key (the intended invariant on record ids). */
  predicate UniqueKeys<T>(s: seq<T>, key: T -> string)
  {
    forall i, j :: 0 <= i < j < |s| ==> key(s[i]) != key(s[j])
  }

  /** Prepending keeps the keys unique exactly when the new key is fresh. */
  lemma PrependUniqueKeys<T>(x: T, s: seq<T>, key: T -> string)
    ensures UniqueKeys([x] + s, key) <==>
            UniqueKeys(s, key) && forall i :: 0 <= i < |s| ==> key(s[i]) != key(x)
  {
    var r := [x] + s;
    if UniqueKeys(r, key) {
      forall i, j | 0 <= i < j < |s| ensures key(s[i]) != key(s[j]) {
        assert s[i] == r[i + 1] && s[j] == r[j + 1];
      }
      forall i | 0 <= i < |s| ensures key(s[i]) != key(x) {
        assert r[0] == x && s[i] == r[i + 1];
      }
    }
  }

  /** Replacing by key leaves every key where it was. */
  lemma ReplacePreservesUniqueKeys<T>(s: seq<T>, key: T -> string, x: T)
    requires UniqueKeys(s, key)
    ensures UniqueKeys(ReplaceByKey(s, key, x), key)
  {
    var r := ReplaceByKey(s, key, x);
    assert forall i :: 0 <= i < |s| ==> key(r[i]) == key(s[i]);
  }

  /** Filtering cannot introduce a repeated key. */
  lemma {:induction false} FilterPreservesUniqueKeys<T(!new)>(s: seq<T>, keep: T -> bool, key: T -> string)
    requires UniqueKeys(s, key)
    ensures UniqueKeys(Filter(s, keep), key)
  {
    if s != [] {
      PrependUniqueKeys(s[0], s[1..], key);
      assert s == [s[0]] + s[1..];
      FilterPreservesUniqueKeys(s[1..], keep, key);
      var rest := Filter(s[1..], keep);
      FilterMembers(s[1..], keep);
      if keep(s[0]) {
        forall i | 0 <= i < |rest| ensures key(rest[i]) != key(s[0]) {
          assert rest[i] in rest;
        }
        PrependUniqueKeys(s[0], rest, key);
      }
    }
  }
}
