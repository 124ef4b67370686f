/**
 * The scene keeps its bullets, parts, enemies and constraints in plain arrays and
 * removes an entry with `list.splice(list.indexOf(x), 1)`. When x is not in the list,
 * indexOf gives -1 and splice(-1, 1) removes the LAST entry instead; the model keeps
 * that behaviour.
 */
module Registry {
  /** Array.prototype.indexOf: the first index holding x, or -1. */
  function IndexOf<T(==)>(s: seq<T>, x: T): (i: int)
    ensures -1 <= i < |s|
    ensures i == -1 <==> x !in s
    ensures 0 <= i ==> s[i] == x && x !in s[..i]
  {
    if |s| == 0 then -1
    else if s[0] == x then 0
    else
      var j := IndexOf(s[1..], x);
      assert s[1..][..if j < 0 then 0 else j] == s[1..if j < 0 then 1 else j + 1];
      if j < 0 then -1 else j + 1
  }

  /** r is s with the entry at index k taken out and the others kept in order. */
  ghost predicate RemovesAt<T>(s: seq<T>, r: seq<T>, k: int)
  {
    && 0 <= k < |s| && |r| == |s| - 1
    && (forall j | 0 <= j < k :: r[j] == s[j])
    && (forall j | k <= j < |r| :: r[j] == s[j + 1])
  }

  /** Array.prototype.splice(start, 1): a negative start counts from the end, clamped at 0. */
  function SpliceOne<T>(s: seq<T>, start: int): (r: seq<T>)
    ensures 0 <= start < |s| ==> RemovesAt(s, r, start)
    ensures -|s| <= start < 0 ==> RemovesAt(s, r, |s| + start)
    ensures start < -|s| && |s| > 0 ==> RemovesAt(s, r, 0)
    ensures start >= |s| || |s| == 0 ==> r == s
  {
    var k := if start < 0 then (if |s| + start < 0 then 0 else |s| + start) else start;
    if k < |s| then s[..k] + s[k + 1..] else s
  }

  /** `s.splice(s.indexOf(x), 1)`. */
  function RemoveViaIndexOf<T(==)>(s: seq<T>, x: T): seq<T>
  {
    SpliceOne(s, IndexOf(s, x))
  }

  /** Removing a listed entry takes out exactly its first occurrence and keeps the order of the rest. */
  lemma RemovePresent<T>(s: seq<T>, x: T)
    requires x in s
    ensures var r := RemoveViaIndexOf(s, x);
      && |r| == |s| - 1
      && multiset(r) == multiset(s) - multiset{x}
      && r == s[..IndexOf(s, x)] + s[IndexOf(s, x) + 1..]
  {
    var i := IndexOf(s, x);
    assert s == s[..i] + [x] + s[i + 1..];
    calc {
      multiset(s);
      multiset(s[..i] + [x] + s[i + 1..]);
      multiset(s[..i]) + multiset{x} + multiset(s[i + 1..]);
    }
  }

  /** An entry that appears once is gone after it is removed, and every other entry stays. */
  lemma RemoveUnique<T>(s: seq<T>, x: T, y: T)
    requires multiset(s)[x] == 1
    ensures x !in RemoveViaIndexOf(s, x)
    ensures y != x ==> (y in RemoveViaIndexOf(s, x) <==> y in s)
  {
    RemovePresent(s, x);
    var r := RemoveViaIndexOf(s, x);
    assert multiset(r)[x] == 0;
    if y != x {
      assert multiset(r)[y] == multiset(s)[y];
    }
  }

  /** Removing an entry that is not listed drops the last entry of a nonempty list. */
  lemma RemoveAbsentDropsLast<T>(s: seq<T>, x: T)
    requires x !in s && |s| > 0
    ensures RemoveViaIndexOf(s, x) == s[..|s| - 1]
  {
  }

  /** Removing from an empty list changes nothing. */
  lemma RemoveFromEmpty<T>(x: T)
    ensures RemoveViaIndexOf([], x) == []
  {
  }

  /** The removal never adds entries. */
  lemma RemoveOnlyShrinks<T>(s: seq<T>, x: T)
    ensures multiset(RemoveViaIndexOf(s, x)) <= multiset(s)
    ensures |s| > 0 ==> |RemoveViaIndexOf(s, x)| == |s| - 1
  {
    var r := RemoveViaIndexOf(s, x);
    if x in s {
      RemovePresent(s, x);
    } else if |s| > 0 {
      assert s == r + [s[|s| - 1]];
      assert multiset(s) == multiset(r) + multiset{s[|s| - 1]};
    }
  }

  /** No entry appears twice. */
  predicate Distinct<T(==)>(s: seq<T>)
  {
    forall i, j | 0 <= i < j < |s| :: s[i] != s[j]
  }

  /** Removing a listed entry from a list without repeats keeps it without repeats, and removes just that entry. */
  lemma RemoveFromDistinct<T>(s: seq<T>, x: T)
    requires Distinct(s) && x in s
    ensures var r := RemoveViaIndexOf(s, x);
      Distinct(r) && forall y :: y in r <==> y in s && y != x
  {
    var i := IndexOf(s, x);
    var r := RemoveViaIndexOf(s, x);
    assert r == s[..i] + s[i + 1..];
    forall a, b | 0 <= a < b < |r| ensures r[a] != r[b] {
      var a' := if a < i then a else a + 1;
      var b' := if b < i then b else b + 1;
      assert r[a] == s[a'] && r[b] == s[b'];
    }
    forall y ensures y in r <==> y in s && y != x {
      if y in r {
        var k :| 0 <= k < |r| && r[k] == y;
        var k' := if k < i then k else k + 1;
        assert s[k'] == y && k' != i;
      }
      if y in s && y != x {
        var k :| 0 <= k < |s| && s[k] == y;
        assert k != i;
        if k < i {
          assert r[k] == y;
        } else {
          assert r[k - 1] == y;
        }
      }
    }
  }

  /**
   * Whether or not x is listed, the removal keeps a list without repeats free of
   * repeats, never adds an entry, and leaves x unlisted.
   */
  lemma RemoveKeepsDistinct<T>(s: seq<T>, x: T)
    requires Distinct(s)
    ensures var r := RemoveViaIndexOf(s, x);
      Distinct(r) && x !in r && (forall y <- r :: y in s)
  {
    if x in s {
      RemoveFromDistinct(s, x);
    } else if |s| > 0 {
      RemoveAbsentDropsLast(s, x);
      var r := s[..|s| - 1];
      forall a, b | 0 <= a < b < |r| ensures r[a] != r[b] {
        assert r[a] == s[a] && r[b] == s[b];
      }
    }
  }

  /** Appending a new entry to a list without repeats keeps it without repeats. */
  lemma AppendFreshDistinct<T>(s: seq<T>, x: T)
    requires Distinct(s) && x !in s
    ensures Distinct(s + [x])
  {
  }

  /** In a list without repeats, the entry at i occurs nowhere else. */
  lemma DistinctSplitExcludes<T>(s: seq<T>, i: int)
    requires Distinct(s) && 0 <= i < |s|
    ensures s[i] !in s[..i] + s[i + 1..]
  {
    var r := s[..i] + s[i + 1..];
    forall j | 0 <= j < |r| ensures r[j] != s[i] {
      if j < i { assert r[j] == s[j]; } else { assert r[j] == s[j + 1]; }
    }
  }
}
