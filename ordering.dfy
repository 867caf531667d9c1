/** Sequence helpers: filtering (a queryset's `.filter(...)` over a table
    snapshot) and ordering (`order_by(...)`, `sorted(key=...)`,
    `.order_by(...).first()`), with sort keys compared lexicographically as
    Python compares tuples. */
module Seqs {

  /** The elements of `s` that satisfy `p`, in their original order. */
  function Filter<T>(s: seq<T>, p: T -> bool): (r: seq<T>)
    ensures |r| <= |s|
    ensures forall k :: 0 <= k < |r| ==> r[k] in s && p(r[k])
    ensures forall k :: 0 <= k < |s| && p(s[k]) ==> s[k] in r
  {
    if s == [] then []
    else
      var rest := Filter(s[1..], p);
      assert forall k :: 1 <= k < |s| ==> s[k] == s[1..][k - 1];
      if p(s[0]) then [s[0]] + rest else rest
  }

  /** An element is kept exactly when it occurs in `s` and satisfies `p`. */
  lemma FilterMembership<T>(s: seq<T>, p: T -> bool, x: T)
    ensures x in Filter(s, p) <==> x in s && p(x)
  {
    var r := Filter(s, p);
    if x in r {
      var k :| 0 <= k < |r| && r[k] == x;
    }
    if x in s && p(x) {
      var k :| 0 <= k < |s| && s[k] == x;
    }
  }

  /** Python's `len([x for x in s if p(x)])`, which is what `.count()` returns
      for a filtered queryset. */
  function Count<T>(s: seq<T>, p: T -> bool): (n: nat)
    ensures n == |Filter(s, p)|
  {
    if s == [] then 0 else (if p(s[0]) then 1 else 0) + Count(s[1..], p)
  }
}

module Ordering {
  import opened Wrappers

  /** One component of a sort key: an integer (an id, a display order, a date
      field) or a string (a name value). */
  datatype KeyPart = IntPart(i: int) | StrPart(s: string)

  /** A sort key is a tuple of components, compared left to right. */
  type Key = seq<KeyPart>

  /** Python's `<` on strings: code point by code point, a proper prefix first. */
  predicate StrLt(a: string, b: string)
  {
    if |a| == 0 then |b| > 0
    else if |b| == 0 then false
    else a[0] < b[0] || (a[0] == b[0] && StrLt(a[1..], b[1..]))
  }

  lemma {:induction false} StrLtIrreflexive(a: string)
    ensures !StrLt(a, a)
  {
    if |a| > 0 {
      StrLtIrreflexive(a[1..]);
    }
  }

  lemma {:induction false} StrLtTransitive(a: string, b: string, c: string)
    requires StrLt(a, b) && StrLt(b, c)
    ensures StrLt(a, c)
  {
    if |a| > 0 && |b| > 0 && |c| > 0 && a[0] == b[0] == c[0] {
      StrLtTransitive(a[1..], b[1..], c[1..]);
    }
  }

  lemma {:induction false} StrLtTotal(a: string, b: string)
    requires a != b
    ensures StrLt(a, b) || StrLt(b, a)
  {
    if |a| > 0 && |b| > 0 && a[0] == b[0] {
      assert a == [a[0]] + a[1..] && b == [b[0]] + b[1..];
      StrLtTotal(a[1..], b[1..]);
    }
  }

  /** Integers before strings (never needed: keys compared here have the same
      shape), integers numerically, strings as Python compares them. */
  predicate PartLt(x: KeyPart, y: KeyPart) {
    match (x, y)
    case (IntPart(i), IntPart(j)) => i < j
    case (StrPart(s), StrPart(t)) => StrLt(s, t)
    case (IntPart(_), StrPart(_)) => true
    case (StrPart(_), IntPart(_)) => false
  }

  lemma PartLtIrreflexive(x: KeyPart)
    ensures !PartLt(x, x)
  {
    if x.StrPart? {
      StrLtIrreflexive(x.s);
    }
  }

  lemma PartLtTransitive(x: KeyPart, y: KeyPart, z: KeyPart)
    requires PartLt(x, y) && PartLt(y, z)
    ensures PartLt(x, z)
  {
    if x.StrPart? && y.StrPart? && z.StrPart? {
      StrLtTransitive(x.s, y.s, z.s);
    }
  }

  lemma PartLtTotal(x: KeyPart, y: KeyPart)
    requires x != y
    ensures PartLt(x, y) || PartLt(y, x)
  {
    if x.StrPart? && y.StrPart? {
      StrLtTotal(x.s, y.s);
    }
  }

  /** Python's `<` on tuples, component by component. */
  predicate KeyLt(a: Key, b: Key) {
    if |a| == 0 then |b| > 0
    else if |b| == 0 then false
    else PartLt(a[0], b[0]) || (a[0] == b[0] && KeyLt(a[1..], b[1..]))
  }

  predicate KeyLe(a: Key, b: Key) {
    a == b || KeyLt(a, b)
  }

  lemma {:induction false} KeyLtIrreflexive(a: Key)
    ensures !KeyLt(a, a)
  {
    if |a| > 0 {
      PartLtIrreflexive(a[0]);
      KeyLtIrreflexive(a[1..]);
    }
  }

  lemma {:induction false} KeyLtTransitive(a: Key, b: Key, c: Key)
    requires KeyLt(a, b) && KeyLt(b, c)
    ensures KeyLt(a, c)
  {
    if |a| > 0 && |b| > 0 && |c| > 0 {
      if PartLt(a[0], b[0]) && PartLt(b[0], c[0]) {
        PartLtTransitive(a[0], b[0], c[0]);
      } else if a[0] == b[0] == c[0] {
        KeyLtTransitive(a[1..], b[1..], c[1..]);
      }
    }
  }

  lemma {:induction false} KeyLtTotal(a: Key, b: Key)
    requires a != b
    ensures KeyLt(a, b) || KeyLt(b, a)
  {
    if |a| > 0 && |b| > 0 {
      if a[0] == b[0] {
        assert a == [a[0]] + a[1..] && b == [b[0]] + b[1..];
        KeyLtTotal(a[1..], b[1..]);
      } else {
        PartLtTotal(a[0], b[0]);
      }
    }
  }

  /** `KeyLe` is a total order: total, transitive and antisymmetric. */
  lemma KeyLeTotal(a: Key, b: Key)
    ensures KeyLe(a, b) || KeyLe(b, a)
  {
    if a != b {
      KeyLtTotal(a, b);
    }
  }

  lemma KeyLeTransitive(a: Key, b: Key, c: Key)
    requires KeyLe(a, b) && KeyLe(b, c)
    ensures KeyLe(a, c)
  {
    if a != b && b != c {
      KeyLtTransitive(a, b, c);
    }
  }

  lemma KeyLeAntisymmetric(a: Key, b: Key)
    requires KeyLe(a, b) && KeyLe(b, a)
    ensures a == b
  {
    if a != b {
      KeyLtTransitive(a, b, a);
      KeyLtIrreflexive(a);
    }
  }

  /** Ascending by key. */
  ghost predicate SortedBy<T>(s: seq<T>, key: T -> Key) {
    forall i, j :: 0 <= i < j < |s| ==> KeyLe(key(s[i]), key(s[j]))
  }

  /** Places `x` before the first element whose key is not smaller. */
  function Insert<T>(x: T, s: seq<T>, key: T -> Key): (r: seq<T>)
    ensures multiset(r) == multiset(s) + multiset{x}
    ensures SortedBy(s, key) ==> SortedBy(r, key)
  {
    if s == [] then [x]
    else if KeyLe(key(x), key(s[0])) then
      InsertFront(x, s, key);
      [x] + s
    else
      var rest := Insert(x, s[1..], key);
      assert s == [s[0]] + s[1..];
      InsertBehind(x, s, rest, key);
      [s[0]] + rest
  }

  lemma InsertFront<T>(x: T, s: seq<T>, key: T -> Key)
    requires s != [] && KeyLe(key(x), key(s[0]))
    ensures SortedBy(s, key) ==> SortedBy([x] + s, key)
  {
    if SortedBy(s, key) {
      forall k | 0 <= k < |s| ensures KeyLe(key(x), key(s[k])) {
        if k > 0 { KeyLeTransitive(key(x), key(s[0]), key(s[k])); }
      }
      var r := [x] + s;
      assert forall k :: 1 <= k < |r| ==> r[k] == s[k - 1];
    }
  }

  lemma InsertBehind<T>(x: T, s: seq<T>, rest: seq<T>, key: T -> Key)
    requires s != [] && !KeyLe(key(x), key(s[0]))
    requires multiset(rest) == multiset(s[1..]) + multiset{x}
    requires SortedBy(s[1..], key) ==> SortedBy(rest, key)
    ensures SortedBy(s, key) ==> SortedBy([s[0]] + rest, key)
  {
    if SortedBy(s, key) {
      assert SortedBy(s[1..], key) by {
        assert forall k :: 0 <= k < |s| - 1 ==> s[1..][k] == s[k + 1];
      }
      KeyLeTotal(key(x), key(s[0]));
      forall k | 0 <= k < |rest| ensures KeyLe(key(s[0]), key(rest[k])) {
        assert rest[k] in multiset(rest);
        assert rest[k] == x || rest[k] in s[1..];
      }
      var r := [s[0]] + rest;
      assert forall k :: 1 <= k < |r| ==> r[k] == rest[k - 1];
    }
  }

  /** `sorted(s, key=key)` (insertion sort; stable, like Python's). */
  function SortBy<T>(s: seq<T>, key: T -> Key): (r: seq<T>)
    ensures multiset(r) == multiset(s)
    ensures SortedBy(r, key)
  {
    if s == [] then []
    else
      assert s == [s[0]] + s[1..];
      Insert(s[0], SortBy(s[1..], key), key)
  }

  /** `.order_by(<key descending>).first()`: an element with the largest key,
      `None` for an empty sequence. Among equal keys the earliest is taken. */
  function MaxBy<T>(s: seq<T>, key: T -> Key): (r: Option<T>)
    ensures r.None? <==> s == []
    ensures r.Some? ==> r.value in s
    ensures r.Some? ==> forall k :: 0 <= k < |s| ==> KeyLe(key(s[k]), key(r.value))
  {
    if s == [] then None
    else
      var rest := MaxBy(s[1..], key);
      if rest.None? || KeyLe(key(rest.value), key(s[0])) then
        assert forall k :: 1 <= k < |s| ==> KeyLe(key(s[k]), key(s[0])) by {
          forall k | 1 <= k < |s| ensures KeyLe(key(s[k]), key(s[0])) {
            assert s[k] == s[1..][k - 1];
            KeyLeTransitive(key(s[k]), key(rest.value), key(s[0]));
          }
        }
        Some(s[0])
      else
        KeyLeTotal(key(rest.value), key(s[0]));
        assert forall k :: 1 <= k < |s| ==> s[k] == s[1..][k - 1];
        rest
  }
}
