/**
 * Keeping the first element of each key, the way a JavaScript `Set` of keys is used to
 * skip repeats: `if (!seen.has(key(x))) { seen.add(key(x)); out.push(x); }`.  Both
 * functions are written from the back, so that a loop over a growing prefix keeps
 * `out == FirstByKey(prefix, key)` and `seen == KeySet(prefix, key)`.
 */
module FirstOccurrence {
  /** The keys of the elements of `s`: the contents of the `Set` after adding them all. */
  function KeySet<T, K>(s: seq<T>, key: T -> K): set<K>
  {
    if |s| == 0 then {} else KeySet(s[..|s| - 1], key) + {key(s[|s| - 1])}
  }

  /** The elements whose key no earlier element has, in order. */
  function FirstByKey<T, K(==)>(s: seq<T>, key: T -> K): seq<T>
  {
    if |s| == 0 then []
    else
      var p := s[..|s| - 1];
      if key(s[|s| - 1]) in KeySet(p, key) then FirstByKey(p, key)
      else FirstByKey(p, key) + [s[|s| - 1]]
  }

  /** `[...new Set(s)]`: the distinct elements in order of first occurrence. */
  function Distinct<T(==)>(s: seq<T>): seq<T>
  {
    FirstByKey(s, (x: T) => x)
  }

  /** Appending one element to a prefix, as a loop step. */
  lemma PrefixStep<T>(s: seq<T>, i: nat)
    requires i < |s|
    ensures s[..i + 1][..i] == s[..i] && s[..i + 1][i] == s[i]
  {
  }

  /** One more element: its key joins the set, and it is kept when the key is new. */
  lemma AppendStep<T, K>(s: seq<T>, x: T, key: T -> K)
    ensures KeySet(s + [x], key) == KeySet(s, key) + {key(x)}
    ensures FirstByKey(s + [x], key)
         == if key(x) in KeySet(s, key) then FirstByKey(s, key) else FirstByKey(s, key) + [x]
  {
    assert (s + [x])[..|s|] == s;
  }

  /** The keys of a concatenation. */
  lemma {:induction false} KeySetConcat<T, K>(a: seq<T>, b: seq<T>, key: T -> K)
    ensures KeySet(a + b, key) == KeySet(a, key) + KeySet(b, key)
    decreases |b|
  {
    if |b| == 0 {
      assert a + b == a;
    } else {
      var b' := b[..|b| - 1];
      assert (a + b)[..|a + b| - 1] == a + b';
      assert (a + b)[|a + b| - 1] == b[|b| - 1];
      KeySetConcat(a, b', key);
    }
  }

  /** Every element's key is in the set. */
  lemma {:induction false} KeySetHas<T, K>(s: seq<T>, key: T -> K, i: nat)
    requires i < |s|
    ensures key(s[i]) in KeySet(s, key)
  {
    if i < |s| - 1 {
      KeySetHas(s[..|s| - 1], key, i);
    }
  }

  /** Every key in the set belongs to some element. */
  lemma {:induction false} KeySetWitness<T, K>(s: seq<T>, key: T -> K, k: K) returns (i: nat)
    requires k in KeySet(s, key)
    ensures i < |s| && key(s[i]) == k
  {
    var p := s[..|s| - 1];
    if k in KeySet(p, key) {
      i := KeySetWitness(p, key, k);
    } else {
      i := |s| - 1;
    }
  }

  /** A key is in the set exactly when some element has it. */
  lemma KeySetMembers<T, K>(s: seq<T>, key: T -> K)
    ensures forall k :: k in KeySet(s, key) <==> exists i :: 0 <= i < |s| && key(s[i]) == k
  {
    forall k | k in KeySet(s, key)
      ensures exists i :: 0 <= i < |s| && key(s[i]) == k
    {
      var i := KeySetWitness(s, key, k);
    }
    forall i | 0 <= i < |s|
      ensures key(s[i]) in KeySet(s, key)
    {
      KeySetHas(s, key, i);
    }
  }

  /**
   * The kept elements come from `s` in order, have pairwise different keys, and cover
   * every key of `s`; so there are exactly as many of them as distinct keys.
   */
  lemma {:induction false} FirstByKeyProperties<T, K>(s: seq<T>, key: T -> K)
    ensures var r := FirstByKey(s, key);
      |r| == |KeySet(s, key)| && |r| <= |s|
      && KeySet(r, key) == KeySet(s, key)
      && (forall x :: x in r ==> x in s)
      && (forall p, q :: 0 <= p < q < |r| ==> key(r[p]) != key(r[q]))
  {
    if |s| > 0 {
      var p := s[..|s| - 1];
      var x := s[|s| - 1];
      FirstByKeyProperties(p, key);
      var rp := FirstByKey(p, key);
      if key(x) in KeySet(p, key) {
        assert KeySet(s, key) == KeySet(p, key);
      } else {
        var r := rp + [x];
        assert r[..|r| - 1] == rp;
        assert KeySet(r, key) == KeySet(rp, key) + {key(x)};
        assert |KeySet(s, key)| == |KeySet(p, key)| + 1;
        KeySetMembers(rp, key);
        forall a, b | 0 <= a < b < |r|
          ensures key(r[a]) != key(r[b])
        {
          if b == |r| - 1 {
            KeySetHas(rp, key, a);
          } else {
            assert r[a] == rp[a] && r[b] == rp[b];
          }
        }
        forall y | y in r
          ensures y in s
        {
          if y != x {
            assert y in rp;
            assert y in p;
          }
        }
      }
    }
  }

  /** `Distinct` lists each value of `s` once. */
  lemma DistinctProperties<T>(s: seq<T>)
    ensures var r := Distinct(s);
      (forall x :: x in r <==> x in s)
      && (forall p, q :: 0 <= p < q < |r| ==> r[p] != r[q])
  {
    var id := (x: T) => x;
    var r := FirstByKey(s, id);
    FirstByKeyProperties(s, id);
    KeySetMembers(s, id);
    KeySetMembers(r, id);
    forall x | x in s
      ensures x in r
    {
      var i :| 0 <= i < |s| && s[i] == x;
      assert id(s[i]) in KeySet(s, id);
      var j :| 0 <= j < |r| && id(r[j]) == x;
    }
  }

  /** No value occurs twice in `s`. */
  predicate NoRepeats<T(==)>(s: seq<T>)
  {
    forall p, q :: 0 <= p < q < |s| ==> s[p] != s[q]
  }

  /** A sequence without repeats holds each value at most once. */
  lemma {:induction false} NoRepeatsCount<T>(s: seq<T>, x: T)
    requires NoRepeats(s)
    ensures multiset(s)[x] <= 1
  {
    if |s| > 0 {
      var p := s[..|s| - 1];
      assert s == p + [s[|s| - 1]];
      assert NoRepeats(p) by {
        forall a, b | 0 <= a < b < |p|
          ensures p[a] != p[b]
        {
          assert p[a] == s[a] && p[b] == s[b];
        }
      }
      NoRepeatsCount(p, x);
      if x == s[|s| - 1] {
        assert x !in p by {
          forall a | 0 <= a < |p|
            ensures p[a] != x
          {
            assert p[a] == s[a];
          }
        }
      }
    }
  }

  /** A value at two positions of `s` occurs at least twice. */
  lemma RepeatCount<T>(s: seq<T>, a: nat, b: nat)
    requires a < b < |s| && s[a] == s[b]
    ensures multiset(s)[s[a]] >= 2
  {
    assert s == s[..b] + [s[b]] + s[b + 1..];
    assert s[..b][a] == s[a];
    assert s[a] in multiset(s[..b]);
  }

  /** A rearrangement of a sequence without repeats has none either. */
  lemma SameMultisetNoRepeats<T>(s: seq<T>, t: seq<T>)
    requires multiset(s) == multiset(t) && NoRepeats(t)
    ensures NoRepeats(s)
  {
    forall a, b | 0 <= a < b < |s|
      ensures s[a] != s[b]
    {
      if s[a] == s[b] {
        RepeatCount(s, a, b);
        NoRepeatsCount(t, s[a]);
      }
    }
  }
}
