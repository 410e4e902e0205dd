/**
 * Sequence helpers for the recency order of the cache: the order is a
 * duplicate-free sequence of keys, and moving a key to the most-recent end
 * removes it from where it was.
 */
module Sequences {

  /** The elements of `s`, as a set. */
  function Elements<T>(s: seq<T>): set<T>
  {
    set x | x in s
  }

  /** No element occurs twice in `s`. */
  ghost predicate Distinct<T>(s: seq<T>)
  {
    s == [] || (s[0] !in s[1..] && Distinct(s[1..]))
  }

  /** `s` without `x`, the other elements in their original order. */
  function Remove<T(==)>(s: seq<T>, x: T): seq<T>
  {
    if s == [] then []
    else if s[0] == x then Remove(s[1..], x)
    else [s[0]] + Remove(s[1..], x)
  }

  /** Removing `x` leaves every other element and only those. */
  lemma {:induction false} RemoveElements<T>(s: seq<T>, x: T)
    ensures Elements(Remove(s, x)) == Elements(s) - {x}
    ensures |Remove(s, x)| <= |s|
  {
    if s != [] {
      RemoveElements(s[1..], x);
      assert Elements(s) == {s[0]} + Elements(s[1..]);
      if s[0] != x {
        var rest := Remove(s[1..], x);
        assert Elements([s[0]] + rest) == {s[0]} + Elements(rest);
      }
    }
  }

  /** Removing an element that does not occur changes nothing. */
  lemma {:induction false} RemoveAbsent<T>(s: seq<T>, x: T)
    requires x !in s
    ensures Remove(s, x) == s
  {
    if s != [] {
      RemoveAbsent(s[1..], x);
    }
  }

  /** Removing `x` from `s + [x]` is removing it from `s`. */
  lemma {:induction false} RemoveAppended<T>(s: seq<T>, x: T)
    ensures Remove(s + [x], x) == Remove(s, x)
  {
    if s == [] {
      assert [x][1..] == [];
    } else {
      assert (s + [x])[1..] == s[1..] + [x];
      RemoveAppended(s[1..], x);
    }
  }

  /** Removing from a duplicate-free sequence keeps it duplicate-free and drops exactly one element when `x` occurs. */
  lemma {:induction false} RemoveDistinct<T>(s: seq<T>, x: T)
    requires Distinct(s)
    ensures Distinct(Remove(s, x))
    ensures |Remove(s, x)| == if x in s then |s| - 1 else |s|
  {
    if s != [] {
      RemoveDistinct(s[1..], x);
      if s[0] == x {
        assert x !in s[1..];
        RemoveAbsent(s[1..], x);
      } else {
        var r := Remove(s[1..], x);
        RemoveElements(s[1..], x);
        assert s[0] !in Elements(r);
        assert ([s[0]] + r)[1..] == r;
      }
    }
  }

  /** A duplicate-free sequence has as many elements as its set of elements. */
  lemma {:induction false} DistinctCardinality<T>(s: seq<T>)
    requires Distinct(s)
    ensures |Elements(s)| == |s|
  {
    if s != [] {
      DistinctCardinality(s[1..]);
      assert Elements(s) == Elements(s[1..]) + {s[0]};
      assert s[0] !in Elements(s[1..]);
    }
  }

  /** Appending a new element keeps a sequence duplicate-free. */
  lemma {:induction false} DistinctAppend<T>(s: seq<T>, x: T)
    requires Distinct(s) && x !in s
    ensures Distinct(s + [x])
  {
    if s != [] {
      DistinctAppend(s[1..], x);
      assert (s + [x])[1..] == s[1..] + [x];
    }
  }

  /** Dropping the first element of `s + [x]` is dropping it from `s`, when `s` has one. */
  lemma DropFirstAppend<T>(s: seq<T>, x: T)
    requires s != []
    ensures (s + [x])[1..] == s[1..] + [x]
    ensures (s + [x])[0] == s[0]
  {
  }

  /** The last `n` elements of `s`, or all of `s` when it is shorter; nothing when `n` is not positive. */
  function Suffix<T>(s: seq<T>, n: int): seq<T>
  {
    if n <= 0 then [] else if |s| <= n then s else s[|s| - n..]
  }

  /**
   * The distinct elements of the history `ks`, ordered by their last
   * occurrence: least recently used first, most recently used last.
   */
  function Recency<T(==)>(ks: seq<T>): seq<T>
  {
    if ks == [] then []
    else Remove(Recency(ks[..|ks| - 1]), ks[|ks| - 1]) + [ks[|ks| - 1]]
  }

  /** Removing from a concatenation removes from both parts. */
  lemma {:induction false} RemoveConcat<T>(s: seq<T>, t: seq<T>, x: T)
    ensures Remove(s + t, x) == Remove(s, x) + Remove(t, x)
  {
    if s == [] {
      assert s + t == t;
    } else {
      var u := s + t;
      assert u[0] == s[0] && u[1..] == s[1..] + t;
      RemoveConcat(s[1..], t, x);
      assert Remove(u[1..], x) == Remove(s[1..], x) + Remove(t, x);
      if s[0] != x {
        assert Remove(u, x) == [s[0]] + Remove(u[1..], x);
        assert Remove(s, x) == [s[0]] + Remove(s[1..], x);
      }
    }
  }

  /** Every suffix of a duplicate-free sequence is duplicate-free. */
  lemma {:induction false} DistinctSuffix<T>(s: seq<T>, i: nat)
    requires Distinct(s) && i <= |s|
    ensures Distinct(s[i..])
  {
    if i > 0 {
      DistinctSuffix(s[1..], i - 1);
      assert s[1..][i - 1..] == s[i..];
    }
  }

  /** The recency order lists every element of the history exactly once. */
  lemma {:induction false} RecencyDistinct<T>(ks: seq<T>)
    ensures Distinct(Recency(ks))
    ensures Elements(Recency(ks)) == Elements(ks)
  {
    if ks != [] {
      var init, x := ks[..|ks| - 1], ks[|ks| - 1];
      RecencyDistinct(init);
      var rest := Remove(Recency(init), x);
      RemoveDistinct(Recency(init), x);
      RemoveElements(Recency(init), x);
      DistinctAppend(rest, x);
      assert ks == init + [x];
      assert Elements(rest + [x]) == Elements(rest) + {x};
      assert Elements(ks) == Elements(init) + {x};
    }
  }

  /** Appending to a sequence shifts its suffixes by one. */
  lemma SuffixAppend<T>(s: seq<T>, x: T, n: int)
    requires n >= 1
    ensures Suffix(s + [x], n) == Suffix(s, n - 1) + [x]
  {
    if |s| + 1 > n && n - 1 > 0 {
      assert (s + [x])[|s| + 1 - n..] == s[|s| - (n - 1)..] + [x];
    }
  }

  /** A suffix exactly as long as the tail is the tail. */
  lemma SuffixOfTail<T>(p: seq<T>, t: seq<T>)
    ensures Suffix(p + t, |t|) == t
  {
    if |t| > 0 && |p + t| > |t| {
      assert (p + t)[|p|..] == t;
    }
  }

  /**
   * Moving `k` to the end of a duplicate-free history `r` and keeping the
   * last `n` elements: when `k` is among the last `n`, it moves to the end of
   * them; otherwise it is appended, and the first of them falls off when
   * there were already `n`.
   */
  lemma SuffixMoveToEnd<T>(r: seq<T>, n: int, k: T)
    requires Distinct(r) && n >= 1
    ensures var c := Suffix(r, n);
            Suffix(Remove(r, k) + [k], n)
              == if k in c then Remove(c, k) + [k]
                 else if |c| < n then c + [k]
                 else c[1..] + [k]
  {
    var c := Suffix(r, n);
    SuffixAppend(Remove(r, k), k, n);
    if |r| <= n {
      assert c == r;
      RemoveDistinct(r, k);
      if k !in r {
        RemoveAbsent(r, k);
      }
      if k !in c && |c| == n {
        assert Suffix(r, n - 1) == r[1..];
      }
    } else {
      var p := r[..|r| - n];
      assert r == p + c;
      RemoveConcat(p, c, k);
      if k in c {
        DistinctSuffix(r, |r| - n);
        RemoveDistinct(c, k);
        assert k !in p by {
          assert Elements(r) == Elements(p) + Elements(c) by {
            assert forall y :: y in r <==> y in p || y in c;
          }
          assert k !in r[..|r| - n] by {
            DistinctSplit(r, |r| - n);
          }
        }
        RemoveAbsent(p, k);
        SuffixOfTail(p, Remove(c, k));
      } else {
        RemoveAbsent(c, k);
        assert Remove(p, k) + c == (Remove(p, k) + [c[0]]) + c[1..];
        SuffixOfTail(Remove(p, k) + [c[0]], c[1..]);
      }
    }
  }

  /** In a duplicate-free sequence no element occurs both before and after a split point. */
  lemma {:induction false} DistinctSplit<T>(s: seq<T>, i: nat)
    requires Distinct(s) && i <= |s|
    ensures forall y :: y in s[..i] ==> y !in s[i..]
  {
    if i > 0 {
      DistinctSplit(s[1..], i - 1);
      assert s[1..][..i - 1] == s[..i][1..];
      assert s[1..][i - 1..] == s[i..];
      assert s[0] !in s[i..] by {
        assert forall y :: y in s[i..] ==> y in s[1..];
      }
      assert forall y :: y in s[..i] ==> y == s[0] || y in s[..i][1..];
    }
  }

  /** Removing two elements gives the same result in either order. */
  lemma {:induction false} RemoveCommutes<T>(s: seq<T>, x: T, y: T)
    ensures Remove(Remove(s, x), y) == Remove(Remove(s, y), x)
  {
    if s != [] {
      RemoveCommutes(s[1..], x, y);
      if s[0] != x && s[0] != y {
        assert ([s[0]] + Remove(s[1..], x))[1..] == Remove(s[1..], x);
        assert ([s[0]] + Remove(s[1..], y))[1..] == Remove(s[1..], y);
      } else if s[0] == x && s[0] != y {
        assert ([s[0]] + Remove(s[1..], y))[1..] == Remove(s[1..], y);
      } else if s[0] != x && s[0] == y {
        assert ([s[0]] + Remove(s[1..], x))[1..] == Remove(s[1..], x);
      }
    }
  }

  /** Forgetting `x` in the history forgets it in the recency order, and changes nothing else. */
  lemma {:induction false} RecencyRemove<T>(ks: seq<T>, x: T)
    ensures Recency(Remove(ks, x)) == Remove(Recency(ks), x)
  {
    if ks != [] {
      var init, y := ks[..|ks| - 1], ks[|ks| - 1];
      assert ks == init + [y];
      RecencyRemove(init, x);
      RemoveConcat(init, [y], x);
      var r := Recency(init);
      if y == x {
        assert Remove(ks, x) == Remove(init, x);
        RemoveConcat(Remove(r, x), [x], x);
        RemoveElements(r, x);
        RemoveAbsent(Remove(r, x), x);
      } else {
        var h := Remove(init, x) + [y];
        assert Remove(ks, x) == h;
        assert h[..|h| - 1] == Remove(init, x) && h[|h| - 1] == y;
        RemoveConcat(Remove(r, y), [y], x);
        RemoveCommutes(r, x, y);
      }
    }
  }

  /**
   * The recency order read from the end of the history: the key used last
   * comes last, and before it come the other keys in the recency order of
   * the earlier history with that key forgotten.
   */
  lemma RecencyLastUse<T>(ks: seq<T>)
    requires ks != []
    ensures Recency(ks) == Recency(Remove(ks[..|ks| - 1], ks[|ks| - 1])) + [ks[|ks| - 1]]
  {
    RecencyRemove(ks[..|ks| - 1], ks[|ks| - 1]);
  }

  /** Moving the first element of `s` to the end, then dropping the new first element and appending `z`. */
  lemma RotatedTwice<T>(s: seq<T>, x: T, z: T)
    requires |s| >= 2
    ensures (s[1..] + [x])[0] == s[1]
    ensures (s[1..] + [x])[1..] + [z] == s[2..] + [x, z]
    ensures x in Elements(s[2..] + [x, z])
  {
    assert (s[1..] + [x])[1..] == s[2..] + [x];
    assert (s[2..] + [x, z])[|s| - 2] == x;
  }
}
