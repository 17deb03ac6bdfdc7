/**
 * `dedup4`: drop every point whose rounded-coordinate key was already seen, keeping the
 * first point with each key, in input order.  The key (`toFixed` of each coordinate,
 * joined by commas) is a parameter.
 */
module Dedup {
  import opened Vectors

  /** The points of `verts` whose key is neither in `seen` nor on an earlier point. */
  function DedupFrom(verts: seq<Vec4>, key: Vec4 -> string, seen: set<string>): seq<Vec4>
  {
    if verts == [] then []
    else if key(verts[0]) in seen then DedupFrom(verts[1..], key, seen)
    else [verts[0]] + DedupFrom(verts[1..], key, seen + {key(verts[0])})
  }

  function Dedup4(verts: seq<Vec4>, key: Vec4 -> string): seq<Vec4>
  {
    DedupFrom(verts, key, {})
  }

  function Keys(s: seq<Vec4>, key: Vec4 -> string): set<string>
  {
    set v | v in s :: key(v)
  }

  /** The `for (const v of verts)` loop with its `seen` set. */
  method Dedup4Loop(verts: seq<Vec4>, key: Vec4 -> string) returns (unique: seq<Vec4>)
    ensures unique == Dedup4(verts, key)
  {
    unique := [];
    var seen: set<string> := {};
    var i := 0;
    while i < |verts|
      invariant i <= |verts|
      invariant unique + DedupFrom(verts[i..], key, seen) == Dedup4(verts, key)
    {
      assert verts[i..][1..] == verts[i + 1..];
      var k := key(verts[i]);
      if !(k in seen) {
        seen := seen + {k};
        unique := unique + [verts[i]];
      }
      i := i + 1;
    }
  }

  lemma {:induction false} DedupFromProperties(verts: seq<Vec4>, key: Vec4 -> string, seen: set<string>)
    ensures |DedupFrom(verts, key, seen)| <= |verts|
    ensures forall u :: u in DedupFrom(verts, key, seen) ==> u in verts && key(u) !in seen
    ensures forall p, q :: 0 <= p < q < |DedupFrom(verts, key, seen)| ==>
      key(DedupFrom(verts, key, seen)[p]) != key(DedupFrom(verts, key, seen)[q])
    ensures forall v :: v in verts ==> key(v) in seen || key(v) in Keys(DedupFrom(verts, key, seen), key)
    decreases |verts|
  {
    if verts != [] {
      var k := key(verts[0]);
      var rest := verts[1..];
      if k in seen {
        DedupFromProperties(rest, key, seen);
        assert forall v :: v in verts ==> v == verts[0] || v in rest;
      } else {
        DedupFromProperties(rest, key, seen + {k});
        var tail := DedupFrom(rest, key, seen + {k});
        var r := [verts[0]] + tail;
        assert DedupFrom(verts, key, seen) == r;
        forall p, q | 0 <= p < q < |r|
          ensures key(r[p]) != key(r[q])
        {
          if p == 0 {
            assert r[q] == tail[q - 1] && r[q] in tail;
          } else {
            assert r[p] == tail[p - 1] && r[q] == tail[q - 1];
          }
        }
        forall v | v in verts
          ensures key(v) in seen || key(v) in Keys(r, key)
        {
          if v == verts[0] {
            assert verts[0] in r;
          } else {
            assert v in rest;
            if key(v) in Keys(tail, key) {
              var u :| u in tail && key(u) == key(v);
              assert u in r;
            }
          }
        }
      }
    }
  }

  /**
   * The points kept are input points, no two of them share a key, and every input point's
   * key is the key of a kept point: deduplication loses no key.
   */
  lemma Dedup4Properties(verts: seq<Vec4>, key: Vec4 -> string)
    ensures |Dedup4(verts, key)| <= |verts|
    ensures forall u :: u in Dedup4(verts, key) ==> u in verts
    ensures forall p, q :: 0 <= p < q < |Dedup4(verts, key)| ==>
      key(Dedup4(verts, key)[p]) != key(Dedup4(verts, key)[q])
    ensures Keys(Dedup4(verts, key), key) == Keys(verts, key)
  {
    DedupFromProperties(verts, key, {});
  }

  /** The first point carrying a key is the one kept for that key. */
  lemma {:induction false} FirstOccurrenceKept(verts: seq<Vec4>, key: Vec4 -> string, seen: set<string>, i: nat)
    requires i < |verts|
    requires key(verts[i]) !in seen
    requires forall j :: 0 <= j < i ==> key(verts[j]) != key(verts[i])
    ensures verts[i] in DedupFrom(verts, key, seen)
    decreases i
  {
    if i == 0 {
    } else {
      var rest := verts[1..];
      assert rest[i - 1] == verts[i];
      forall j | 0 <= j < i - 1
        ensures key(rest[j]) != key(rest[i - 1])
      {
        assert rest[j] == verts[j + 1];
      }
      if key(verts[0]) in seen {
        FirstOccurrenceKept(rest, key, seen, i - 1);
      } else {
        FirstOccurrenceKept(rest, key, seen + {key(verts[0])}, i - 1);
      }
    }
  }

  /** With no key repeated, nothing is dropped. */
  lemma {:induction false} DistinctKeysKeepAll(verts: seq<Vec4>, key: Vec4 -> string, seen: set<string>)
    requires forall p, q :: 0 <= p < q < |verts| ==> key(verts[p]) != key(verts[q])
    requires forall v :: v in verts ==> key(v) !in seen
    ensures DedupFrom(verts, key, seen) == verts
    decreases |verts|
  {
    if verts != [] {
      var rest := verts[1..];
      forall p, q | 0 <= p < q < |rest|
        ensures key(rest[p]) != key(rest[q])
      {
        assert rest[p] == verts[p + 1] && rest[q] == verts[q + 1];
      }
      forall v | v in rest
        ensures key(v) !in seen + {key(verts[0])}
      {
        var q :| 0 <= q < |rest| && rest[q] == v;
        assert v == verts[q + 1];
      }
      DistinctKeysKeepAll(rest, key, seen + {key(verts[0])});
      assert verts == [verts[0]] + rest;
    }
  }
}
