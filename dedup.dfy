/** The de-duplication filter of server.js:144-146,
    `.filter((row, index, array) => array.findIndex(r => key(r) === key(row)) === index)`,
    for any identity function `key`, and an independent one-pass reference
    for it that remembers the identities already seen. */
module Dedup {
  import opened Seqs

  /** `s.map(key)`. */
  function Project<T, K>(s: seq<T>, key: T -> K): seq<K> {
    seq(|s|, i requires 0 <= i < |s| => key(s[i]))
  }

  lemma ProjectAppend<T, K>(a: seq<T>, b: seq<T>, key: T -> K)
    ensures Project(a + b, key) == Project(a, key) + Project(b, key)
  {
  }

  /** The test of the filter: the first element carrying the identity of
      element `i` is element `i` itself. */
  predicate IsFirst<T, K(==)>(s: seq<T>, key: T -> K, i: nat)
    requires i < |s|
  {
    FindIndex(Project(s, key), key(s[i])) == i
  }

  /** The filter over the indices from `i` on. */
  function KeepFirstFrom<T, K(==)>(s: seq<T>, key: T -> K, i: nat): seq<T>
    requires i <= |s|
    decreases |s| - i
  {
    if i == |s| then []
    else (if IsFirst(s, key, i) then [s[i]] else []) + KeepFirstFrom(s, key, i + 1)
  }

  function KeepFirst<T, K(==)>(s: seq<T>, key: T -> K): seq<T> {
    KeepFirstFrom(s, key, 0)
  }

  // ---------------------------------------------------------------------------
  // The reference: one left-to-right pass

  function Scan<T, K(==)>(s: seq<T>, key: T -> K, seen: set<K>): seq<T> {
    if s == [] then []
    else if key(s[0]) in seen then Scan(s[1..], key, seen)
    else [s[0]] + Scan(s[1..], key, seen + {key(s[0])})
  }

  ghost function SeenBefore<T, K>(s: seq<T>, key: T -> K, i: nat): set<K>
    requires i <= |s|
  {
    set j | 0 <= j < i :: key(s[j])
  }

  /** The scan keeps each identity once, never one it has already seen, and
      keeps the order. */
  lemma {:induction false} ScanSound<T, K>(s: seq<T>, key: T -> K, seen: set<K>)
    ensures IsSubseq(Scan(s, key, seen), s)
    ensures Distinct(Project(Scan(s, key, seen), key))
    ensures forall i :: 0 <= i < |Scan(s, key, seen)| ==> key(Scan(s, key, seen)[i]) !in seen
  {
    if s != [] {
      var k := key(s[0]);
      if k in seen {
        ScanSound(s[1..], key, seen);
      } else {
        var rest := Scan(s[1..], key, seen + {k});
        ScanSound(s[1..], key, seen + {k});
        var r := [s[0]] + rest;
        assert r[1..] == rest;
        var keys := Project(r, key);
        forall i, j | 0 <= i < j < |r| ensures keys[i] != keys[j] {
          assert keys[j] == key(rest[j - 1]);
          if i > 0 {
            assert keys[i] == Project(rest, key)[i - 1] && keys[j] == Project(rest, key)[j - 1];
          }
        }
        assert forall i :: 1 <= i < |r| ==> r[i] == rest[i - 1];
      }
    }
  }

  /** Element `i` passes the filter exactly when its identity is not among
      those of the elements before it. */
  lemma IsFirstIffUnseen<T, K>(s: seq<T>, key: T -> K, i: nat)
    requires i < |s|
    ensures IsFirst(s, key, i) <==> key(s[i]) !in SeenBefore(s, key, i)
  {
    var k := key(s[i]);
    var keys := Project(s, key);
    assert keys[i] == k;
    var f := FindIndex(keys, k);
    assert 0 <= f <= i;
    if k in SeenBefore(s, key, i) {
      var j :| 0 <= j < i && key(s[j]) == k;
      assert keys[j] == k;
    }
    if f < i {
      assert key(s[f]) == keys[f];
    }
  }

  lemma SeenBeforeStep<T, K>(s: seq<T>, key: T -> K, i: nat)
    requires i < |s|
    ensures SeenBefore(s, key, i + 1) == SeenBefore(s, key, i) + {key(s[i])}
  {
  }

  lemma {:induction false} KeepFirstFromIsScan<T, K>(s: seq<T>, key: T -> K, i: nat)
    requires i <= |s|
    ensures KeepFirstFrom(s, key, i) == Scan(s[i..], key, SeenBefore(s, key, i))
    decreases |s| - i
  {
    if i < |s| {
      var k := key(s[i]);
      var seen := SeenBefore(s, key, i);
      IsFirstIffUnseen(s, key, i);
      SeenBeforeStep(s, key, i);
      KeepFirstFromIsScan(s, key, i + 1);
      var rest := s[i..];
      assert rest[0] == s[i] && rest[1..] == s[i + 1..];
      if k in seen {
        assert seen + {k} == seen;
      }
    }
  }

  /** The filter keeps exactly what the one-pass scan keeps. */
  lemma KeepFirstIsScan<T, K>(s: seq<T>, key: T -> K)
    ensures KeepFirst(s, key) == Scan(s, key, {})
  {
    KeepFirstFromIsScan(s, key, 0);
    assert s[0..] == s;
    assert SeenBefore(s, key, 0) == {};
  }

  /** `x` is the first element of `s` with its identity. */
  predicate FirstWithKey<T(==), K(==)>(s: seq<T>, key: T -> K, x: T) {
    var f := FindIndex(Project(s, key), key(x));
    0 <= f && s[f] == x
  }

  lemma {:induction false} KeepFirstFromMembers<T, K>(s: seq<T>, key: T -> K, i: nat, x: T)
    requires i <= |s|
    ensures x in KeepFirstFrom(s, key, i) <==> exists j :: i <= j < |s| && s[j] == x && IsFirst(s, key, j)
    decreases |s| - i
  {
    if i < |s| {
      KeepFirstFromMembers(s, key, i + 1, x);
      var head := if IsFirst(s, key, i) then [s[i]] else [];
      var tail := KeepFirstFrom(s, key, i + 1);
      assert KeepFirstFrom(s, key, i) == head + tail;
      assert x in head + tail <==> x in head || x in tail;
      if exists j :: i <= j < |s| && s[j] == x && IsFirst(s, key, j) {
        var j :| i <= j < |s| && s[j] == x && IsFirst(s, key, j);
        if j == i {
          assert x in head;
        }
      }
    }
  }

  /** An element survives the filter exactly when it is the first element
      with its identity. */
  lemma KeepFirstMembers<T, K>(s: seq<T>, key: T -> K, x: T)
    ensures x in KeepFirst(s, key) <==> x in s && FirstWithKey(s, key, x)
  {
    KeepFirstFromMembers(s, key, 0, x);
    var keys := Project(s, key);
    if x in s {
      var m :| 0 <= m < |s| && s[m] == x;
      assert keys[m] == key(x);
      var f := FindIndex(keys, key(x));
      if FirstWithKey(s, key, x) {
        assert keys[f] == key(s[f]);
        assert IsFirst(s, key, f);
      }
    }
    if x in KeepFirst(s, key) {
      var j :| 0 <= j < |s| && s[j] == x && IsFirst(s, key, j);
    }
  }

  /** Deleting elements cannot make two identities collide. */
  lemma {:induction false} SubseqKeepsDistinct<T, K>(a: seq<T>, b: seq<T>, key: T -> K)
    requires IsSubseq(a, b) && Distinct(Project(b, key))
    ensures Distinct(Project(a, key))
    decreases |b|
  {
    if a != [] {
      var kb := Project(b, key);
      var kb' := Project(b[1..], key);
      assert Distinct(kb') by {
        forall i, j | 0 <= i < j < |b| - 1 ensures kb'[i] != kb'[j] {
          assert kb'[i] == kb[i + 1] && kb'[j] == kb[j + 1];
        }
      }
      if a[0] == b[0] && IsSubseq(a[1..], b[1..]) {
        SubseqKeepsDistinct(a[1..], b[1..], key);
        SubseqMembers(a[1..], b[1..]);
        var ka := Project(a, key);
        var ka' := Project(a[1..], key);
        forall i, j | 0 <= i < j < |a| ensures ka[i] != ka[j] {
          assert a[j] == a[1..][j - 1];
          assert a[j] in b[1..];
          var m :| 0 <= m < |b| - 1 && b[1..][m] == a[j];
          assert kb[m + 1] == ka[j];
          if i > 0 {
            assert ka[i] == ka'[i - 1] && ka[j] == ka'[j - 1];
          } else {
            assert ka[0] == kb[0];
          }
        }
      } else {
        SubseqKeepsDistinct(a, b[1..], key);
      }
    }
  }
}
