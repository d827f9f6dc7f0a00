/**
 * The JavaScript array operations the note stores are built from:
 * `Array.prototype.filter`, `Array.prototype.map` and the two uses of
 * `Array.prototype.splice` (remove one element, insert one element),
 * stated on sequences, with the facts about them that the stores rely on.
 */
module Lists {

  /** `s.filter(keep)`: the elements of `s` for which `keep` holds, in their order. */
  function Filter<T>(s: seq<T>, keep: T -> bool): (r: seq<T>)
    ensures |r| <= |s|
    ensures forall x :: x in r ==> x in s && keep(x)
    ensures forall x :: x in s && keep(x) ==> x in r
  {
    if s == [] then []
    else (if keep(s[0]) then [s[0]] else []) + Filter(s[1..], keep)
  }

  /** `s.map(f)`: `f` applied to every element, length and positions kept. */
  function Map<T>(s: seq<T>, f: T -> T): (r: seq<T>)
    ensures |r| == |s|
    ensures forall i :: 0 <= i < |s| ==> r[i] == f(s[i])
  {
    if s == [] then [] else [f(s[0])] + Map(s[1..], f)
  }

  /** Filtering distributes over concatenation: relative order is kept. */
  lemma {:induction false} FilterConcat<T>(a: seq<T>, b: seq<T>, keep: T -> bool)
    ensures Filter(a + b, keep) == Filter(a, keep) + Filter(b, keep)
  {
    if a == [] {
      assert a + b == b;
    } else {
      assert (a + b)[0] == a[0];
      assert (a + b)[1..] == a[1..] + b;
      FilterConcat(a[1..], b, keep);
    }
  }

  /** Each value occurs in the filtered list exactly as often as in `s` if it is kept, else never. */
  lemma {:induction false} FilterMultiplicity<T>(s: seq<T>, keep: T -> bool, x: T)
    ensures multiset(Filter(s, keep))[x] == if keep(x) then multiset(s)[x] else 0
  {
    if s != [] {
      FilterMultiplicity(s[1..], keep, x);
      assert s == [s[0]] + s[1..];
      assert multiset(s) == multiset{s[0]} + multiset(s[1..]);
    }
  }

  /** Filtering leaves a list unchanged exactly when every element is kept. */
  lemma {:induction false} FilterIdentity<T>(s: seq<T>, keep: T -> bool)
    ensures Filter(s, keep) == s <==> forall i :: 0 <= i < |s| ==> keep(s[i])
  {
    if s != [] {
      FilterIdentity(s[1..], keep);
      if !keep(s[0]) {
        // The filtered list is then strictly shorter than s.
        assert |Filter(s, keep)| == |Filter(s[1..], keep)| < |s|;
      } else if forall i :: 0 <= i < |s| ==> keep(s[i]) {
        assert forall i :: 0 <= i < |s[1..]| ==> keep(s[1..][i]) by {
          forall i | 0 <= i < |s[1..]| ensures keep(s[1..][i]) {
            assert s[1..][i] == s[i + 1];
          }
        }
      } else {
        assert s[0] in Filter(s, keep);
        var k :| 0 <= k < |s| && !keep(s[k]);
        assert s[k] !in Filter(s, keep);
      }
    }
  }

  /** Filtering twice with the same test is filtering once. */
  lemma FilterIdempotent<T>(s: seq<T>, keep: T -> bool)
    ensures Filter(Filter(s, keep), keep) == Filter(s, keep)
  {
    var r := Filter(s, keep);
    assert forall i :: 0 <= i < |r| ==> keep(r[i]) by {
      forall i | 0 <= i < |r| ensures keep(r[i]) {
        assert r[i] in r;
      }
    }
    FilterIdentity(r, keep);
  }

  /** Lists that are permutations of each other filter to permutations of each other. */
  lemma FilterPermutation<T>(a: seq<T>, b: seq<T>, keep: T -> bool)
    requires multiset(a) == multiset(b)
    ensures multiset(Filter(a, keep)) == multiset(Filter(b, keep))
    ensures |Filter(a, keep)| == |Filter(b, keep)|
  {
    var fa, fb := multiset(Filter(a, keep)), multiset(Filter(b, keep));
    forall x ensures fa[x] == fb[x] {
      FilterMultiplicity(a, keep, x);
      FilterMultiplicity(b, keep, x);
    }
    MultisetExtensionality(fa, fb);
    calc {
      |Filter(a, keep)|;
      |fa|;
      |fb|;
      |Filter(b, keep)|;
    }
  }

  lemma MultisetExtensionality<T>(p: multiset<T>, q: multiset<T>)
    requires forall x :: p[x] == q[x]
    ensures p == q
  {
  }

  /** A map whose function never changes the filter's verdict keeps the number of kept elements. */
  lemma {:induction false} FilterMapCount<T>(s: seq<T>, f: T -> T, keep: T -> bool)
    requires forall i :: 0 <= i < |s| ==> keep(f(s[i])) == keep(s[i])
    ensures |Filter(Map(s, f), keep)| == |Filter(s, keep)|
  {
    if s != [] {
      var m := Map(s, f);
      assert m[1..] == Map(s[1..], f);
      assert forall i :: 0 <= i < |s[1..]| ==> keep(f(s[1..][i])) == keep(s[1..][i]) by {
        forall i | 0 <= i < |s[1..]| ensures keep(f(s[1..][i])) == keep(s[1..][i]) {
          assert s[1..][i] == s[i + 1];
        }
      }
      FilterMapCount(s[1..], f, keep);
    }
  }

  /**
   * How `splice` resolves an index against a list of length `len`: a negative
   * index counts from the end, and the result is clamped to `0..len`.
   */
  function RelativeIndex(k: int, len: nat): (r: nat)
    ensures r <= len
    ensures 0 <= len + k && k < len ==> r < len && (r - k) % len == 0
    ensures len <= k ==> r == len
    ensures len + k < 0 ==> r == 0
  {
    if k < 0 then (if len + k < 0 then 0 else len + k)
    else if k > len then len
    else k
  }

  /** `s.splice(i, 1)` on a list: `s` without its element at `i`. */
  function RemoveAt<T>(s: seq<T>, i: nat): (r: seq<T>)
    requires i < |s|
    ensures |r| == |s| - 1
    ensures forall k :: 0 <= k < i ==> r[k] == s[k]
    ensures forall k :: i <= k < |r| ==> r[k] == s[k + 1]
    ensures multiset(r) + multiset{s[i]} == multiset(s)
  {
    assert s == s[..i] + [s[i]] + s[i + 1..];
    s[..i] + s[i + 1..]
  }

  /** `s.splice(j, 0, x)` on a list: `s` with `x` inserted so that it lands at `j`. */
  function InsertAt<T>(s: seq<T>, j: nat, x: T): (r: seq<T>)
    requires j <= |s|
    ensures |r| == |s| + 1 && r[j] == x
    ensures forall k :: 0 <= k < j ==> r[k] == s[k]
    ensures forall k :: j < k < |r| ==> r[k] == s[k - 1]
    ensures multiset(r) == multiset(s) + multiset{x}
  {
    assert s == s[..j] + s[j..];
    s[..j] + [x] + s[j..]
  }

  /** Removing what was just inserted gives back the list. */
  lemma RemoveInsert<T>(s: seq<T>, j: nat, x: T)
    requires j <= |s|
    ensures RemoveAt(InsertAt(s, j, x), j) == s
  {
    var r := RemoveAt(InsertAt(s, j, x), j);
    assert forall k :: 0 <= k < |s| ==> r[k] == s[k];
  }

  /** Putting back the element that was removed, where it was, gives back the list. */
  lemma InsertRemove<T>(s: seq<T>, i: nat)
    requires i < |s|
    ensures InsertAt(RemoveAt(s, i), i, s[i]) == s
  {
    var r := InsertAt(RemoveAt(s, i), i, s[i]);
    assert forall k :: 0 <= k < |s| ==> r[k] == s[k];
  }
}
