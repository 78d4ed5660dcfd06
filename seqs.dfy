/**
 * Sequence helpers: JavaScript's `filter` and `map` on arrays, order-preserving
 * subsequences, and the membership toggle the catalog filters use for their
 * selections.
 */
module Seqs {

  /** `s.filter(p)`. */
  function Filter<T>(s: seq<T>, p: T -> bool): (r: seq<T>)
    ensures |r| <= |s|
    ensures forall k :: 0 <= k < |r| ==> p(r[k]) && r[k] in s
  {
    if s == [] then [] else (if p(s[0]) then [s[0]] else []) + Filter(s[1..], p)
  }

  /** `s.map(f)`. */
  function Map<T, U>(s: seq<T>, f: T -> U): (r: seq<U>)
    ensures |r| == |s| && forall k :: 0 <= k < |s| ==> r[k] == f(s[k])
  {
    if s == [] then [] else [f(s[0])] + Map(s[1..], f)
  }

  /** The index of the first element satisfying p, or |s| when there is none. */
  function FindIndex<T>(s: seq<T>, p: T -> bool): (i: nat)
    ensures i <= |s|
    ensures i < |s| ==> p(s[i])
    ensures forall j :: 0 <= j < i ==> !p(s[j])
  {
    if s == [] then 0 else if p(s[0]) then 0 else 1 + FindIndex(s[1..], p)
  }

  /** `[...s].reverse()`. */
  function Reverse<T>(s: seq<T>): (r: seq<T>)
    ensures |r| == |s| && forall k :: 0 <= k < |s| ==> r[k] == s[|s| - 1 - k]
  {
    if s == [] then [] else Reverse(s[1..]) + [s[0]]
  }

  /** a is obtained from b by deleting elements, without reordering the rest. */
  predicate IsSubsequence<T(==)>(a: seq<T>, b: seq<T>)
    decreases |b|
  {
    if a == [] then true
    else if b == [] then false
    else if a[0] == b[0] then IsSubsequence(a[1..], b[1..])
    else IsSubsequence(a, b[1..])
  }

  predicate NoDuplicates<T(==)>(s: seq<T>)
  {
    forall i, j :: 0 <= i < j < |s| ==> s[i] != s[j]
  }

  lemma {:induction false} FilterMembership<T>(s: seq<T>, p: T -> bool, x: T)
    ensures x in Filter(s, p) <==> x in s && p(x)
  {
    if s != [] {
      FilterMembership(s[1..], p, x);
      assert x in s <==> x == s[0] || x in s[1..];
    }
  }

  /** FilterMembership for every element at once. */
  lemma FilterMembershipAll<T>(s: seq<T>, p: T -> bool)
    ensures forall x :: x in Filter(s, p) <==> x in s && p(x)
  {
    forall x ensures x in Filter(s, p) <==> x in s && p(x) {
      FilterMembership(s, p, x);
    }
  }

  lemma {:induction false} FilterIsSubsequence<T>(s: seq<T>, p: T -> bool)
    ensures IsSubsequence(Filter(s, p), s)
  {
    if s != [] {
      FilterIsSubsequence(s[1..], p);
      var r := Filter(s, p);
      if p(s[0]) {
        assert r[0] == s[0] && r[1..] == Filter(s[1..], p);
      } else {
        assert r == Filter(s[1..], p);
        if r != [] { SubsequenceSkip(r, s); }
      }
    }
  }

  /** Dropping the head of the longer sequence keeps a subsequence a subsequence. */
  lemma SubsequenceSkip<T>(a: seq<T>, b: seq<T>)
    requires b != [] && IsSubsequence(a, b[1..])
    ensures IsSubsequence(a, b)
    decreases |b|
  {
    if a != [] && a[0] == b[0] {
      if |b| > 1 && b[1..] != [] && a[0] == b[1..][0] {
        SubsequenceSkip(a[1..], b[1..]);
      } else if |b| > 1 {
        SubsequenceSkipTail(a, b[1..]);
      }
    }
  }

  lemma SubsequenceSkipTail<T>(a: seq<T>, b: seq<T>)
    requires a != [] && b != [] && a[0] != b[0] && IsSubsequence(a, b)
    ensures IsSubsequence(a[1..], b[1..])
    decreases |b|
  {
    var c := b[1..];
    assert IsSubsequence(a, c);
    if c == [] {
    } else if a[0] == c[0] {
      SubsequenceSkip(a[1..], c);
    } else {
      SubsequenceSkipTail(a, c);
      SubsequenceSkip(a[1..], c);
    }
  }

  lemma {:induction false} FilterKeepsAll<T>(s: seq<T>, p: T -> bool)
    requires forall k :: 0 <= k < |s| ==> p(s[k])
    ensures Filter(s, p) == s
  {
    if s != [] {
      FilterKeepsAll(s[1..], p);
    }
  }

  lemma {:induction false} FilterDropsAll<T>(s: seq<T>, p: T -> bool)
    requires forall k :: 0 <= k < |s| ==> !p(s[k])
    ensures Filter(s, p) == []
  {
    if s != [] {
      FilterDropsAll(s[1..], p);
    }
  }

  /** Filtering with two predicates that agree on s gives the same list. */
  lemma {:induction false} FilterAgree<T>(s: seq<T>, p: T -> bool, q: T -> bool)
    requires forall k :: 0 <= k < |s| ==> p(s[k]) == q(s[k])
    ensures Filter(s, p) == Filter(s, q)
  {
    if s != [] {
      FilterAgree(s[1..], p, q);
    }
  }

  lemma {:induction false} FilterConcat<T>(s: seq<T>, t: seq<T>, p: T -> bool)
    ensures Filter(s + t, p) == Filter(s, p) + Filter(t, p)
  {
    if s == [] {
      assert s + t == t;
    } else {
      assert (s + t)[1..] == s[1..] + t;
      FilterConcat(s[1..], t, p);
    }
  }

  lemma {:induction false} FilterNoDuplicates<T>(s: seq<T>, p: T -> bool)
    requires NoDuplicates(s)
    ensures NoDuplicates(Filter(s, p))
  {
    if s != [] {
      FilterNoDuplicates(s[1..], p);
      if p(s[0]) {
        FilterMembership(s[1..], p, s[0]);
        var r := Filter(s, p);
        assert r == [s[0]] + Filter(s[1..], p);
        forall i, j | 0 <= i < j < |r| ensures r[i] != r[j] {
          if i == 0 { assert r[j] in Filter(s[1..], p); }
        }
      }
    }
  }

  // ---------------------------------------------------------------------------
  // Toggling membership: `prev.includes(x) ? prev.filter((v) => v !== x) : [...prev, x]`
  // ---------------------------------------------------------------------------

  function Toggle<T(==)>(s: seq<T>, x: T): seq<T>
  {
    if x in s then Filter(s, y => y != x) else s + [x]
  }

  /** Toggling flips the membership of x and keeps every other member and its order:
      when x was present it is dropped from the list, otherwise it goes at the end. */
  lemma ToggleMembership<T>(s: seq<T>, x: T, y: T)
    ensures x in Toggle(s, x) <==> x !in s
    ensures y != x ==> (y in Toggle(s, x) <==> y in s)
  {
    FilterMembership(s, z => z != x, x);
    FilterMembership(s, z => z != x, y);
  }

  lemma ToggleOrder<T>(s: seq<T>, x: T)
    ensures x in s ==> IsSubsequence(Toggle(s, x), s) && |Toggle(s, x)| < |s|
    ensures x !in s ==> Toggle(s, x) == s + [x]
  {
    if x in s {
      FilterIsSubsequence(s, y => y != x);
      FilterShorter(s, x);
    }
  }

  lemma {:induction false} FilterShorter<T>(s: seq<T>, x: T)
    requires x in s
    ensures |Filter(s, y => y != x)| < |s|
  {
    if s[0] != x {
      FilterShorter(s[1..], x);
    }
  }

  /** Selections built by toggling from [] never hold a value twice. */
  lemma ToggleNoDuplicates<T>(s: seq<T>, x: T)
    requires NoDuplicates(s)
    ensures NoDuplicates(Toggle(s, x))
  {
    if x in s {
      FilterNoDuplicates(s, y => y != x);
    }
  }

  /** Toggling twice: adding then removing restores s exactly; removing then adding
      yields the same members, with x moved to the end. */
  lemma ToggleTwice<T>(s: seq<T>, x: T)
    requires NoDuplicates(s)
    ensures x !in s ==> Toggle(Toggle(s, x), x) == s
    ensures x in s ==> Toggle(Toggle(s, x), x) == Filter(s, y => y != x) + [x]
    ensures forall y :: y in Toggle(Toggle(s, x), x) <==> y in s
  {
    if x !in s {
      FilterConcat(s, [x], y => y != x);
      FilterKeepsAll(s, y => y != x);
      assert Filter([x], y => y != x) == [];
    } else {
      FilterMembership(s, y => y != x, x);
    }
    forall y ensures y in Toggle(Toggle(s, x), x) <==> y in s {
      ToggleMembership(s, x, y);
      ToggleMembership(Toggle(s, x), x, y);
    }
  }

  /** When x is the last member, toggling it twice restores the list exactly. */
  lemma ToggleTwiceLast<T>(s: seq<T>, x: T)
    requires NoDuplicates(s) && s != [] && s[|s| - 1] == x
    ensures Toggle(Toggle(s, x), x) == s
  {
    var front := s[..|s| - 1];
    assert s == front + [x];
    assert x !in front;
    FilterConcat(front, [x], y => y != x);
    FilterKeepsAll(front, y => y != x);
    assert Filter([x], y => y != x) == [];
    ToggleTwice(s, x);
  }
}
