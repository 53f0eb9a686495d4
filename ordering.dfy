/** `sorted(completion_list, key=str.lower)` (main.py:55 and main.py:110):
    a stable sort of the candidates by their lowercase form, where strings
    compare lexicographically by character code. */
module Ordering {
  import opened Matching

  /** Lexicographic order on strings, as Python compares `str` values. */
  predicate LexLe(a: string, b: string)
    decreases |a|
  {
    if a == [] then true
    else if b == [] then false
    else if a[0] < b[0] then true
    else if a[0] > b[0] then false
    else LexLe(a[1..], b[1..])
  }

  lemma {:induction false} LexLeReflexive(a: string)
    ensures LexLe(a, a)
  {
    if a != [] { LexLeReflexive(a[1..]); }
  }

  lemma {:induction false} LexLeTotal(a: string, b: string)
    ensures LexLe(a, b) || LexLe(b, a)
  {
    if a != [] && b != [] && a[0] == b[0] { LexLeTotal(a[1..], b[1..]); }
  }

  lemma {:induction false} LexLeTransitive(a: string, b: string, c: string)
    requires LexLe(a, b) && LexLe(b, c)
    ensures LexLe(a, c)
  {
    if a != [] && b != [] && c != [] && a[0] == b[0] && b[0] == c[0] {
      LexLeTransitive(a[1..], b[1..], c[1..]);
    }
  }

  lemma {:induction false} LexLeAntisymmetric(a: string, b: string)
    requires LexLe(a, b) && LexLe(b, a)
    ensures a == b
  {
    if a != [] && b != [] {
      LexLeAntisymmetric(a[1..], b[1..]);
      assert a == [a[0]] + a[1..] && b == [b[0]] + b[1..];
    }
  }

  /** The sort key, `str.lower`. */
  function Key(s: string): (r: string) { Lower(s) }

  /** Nondecreasing by sort key. */
  predicate SortedByKey(r: seq<string>) {
    forall i, j :: 0 <= i < j < |r| ==> LexLe(Key(r[i]), Key(r[j]))
  }

  /** The elements of `s` whose sort key is `k`, in their order in `s`. */
  function WithKey(s: seq<string>, k: string): (r: seq<string>) {
    if s == [] then []
    else (if Key(s[0]) == k then [s[0]] else []) + WithKey(s[1..], k)
  }

  /** Insert `x` into a sorted list in front of the first element whose
      key is not smaller than its own. */
  function Insert(x: string, r: seq<string>): (res: seq<string>)
    ensures multiset(res) == multiset(r) + multiset{x}
    ensures SortedByKey(r) ==> SortedByKey(res)
  {
    if r == [] then [x]
    else if LexLe(Key(x), Key(r[0])) then
      var res := [x] + r;
      InsertInFront(x, r);
      res
    else
      var rest := Insert(x, r[1..]);
      var res := [r[0]] + rest;
      InsertBehind(x, r, rest);
      assert r == [r[0]] + r[1..];
      res
  }

  lemma InsertInFront(x: string, r: seq<string>)
    requires r != [] && LexLe(Key(x), Key(r[0]))
    ensures SortedByKey(r) ==> SortedByKey([x] + r)
  {
    if SortedByKey(r) {
      var res := [x] + r;
      forall i, j | 0 <= i < j < |res| ensures LexLe(Key(res[i]), Key(res[j])) {
        if i == 0 && j > 1 { LexLeTransitive(Key(x), Key(r[0]), Key(r[j - 1])); }
      }
    }
  }

  lemma InsertBehind(x: string, r: seq<string>, rest: seq<string>)
    requires r != [] && !LexLe(Key(x), Key(r[0]))
    requires multiset(rest) == multiset(r[1..]) + multiset{x}
    requires SortedByKey(r[1..]) ==> SortedByKey(rest)
    ensures SortedByKey(r) ==> SortedByKey([r[0]] + rest)
  {
    if SortedByKey(r) {
      assert SortedByKey(r[1..]) by {
        forall i, j | 0 <= i < j < |r[1..]| ensures LexLe(Key(r[1..][i]), Key(r[1..][j])) {
          assert r[1..][i] == r[i + 1] && r[1..][j] == r[j + 1];
        }
      }
      LexLeTotal(Key(x), Key(r[0]));
      var res := [r[0]] + rest;
      forall i, j | 0 <= i < j < |res| ensures LexLe(Key(res[i]), Key(res[j])) {
        if i == 0 {
          var e := rest[j - 1];
          assert e in multiset(rest);
          if e != x {
            assert e in multiset(r[1..]);
            var m :| 0 <= m < |r[1..]| && r[1..][m] == e;
            assert r[m + 1] == e;
          }
        }
      }
    }
  }

  /** The stable sort by lowercase key. Insertion from the front keeps
      elements with equal keys in input order. */
  function SortByLower(s: seq<string>): (r: seq<string>)
    ensures multiset(r) == multiset(s)
    ensures SortedByKey(r)
  {
    if s == [] then []
    else
      assert s == [s[0]] + s[1..];
      Insert(s[0], SortByLower(s[1..]))
  }

  /** Inserting never moves `x` past an element with the same key. */
  lemma {:induction false} InsertStable(x: string, r: seq<string>, k: string)
    ensures WithKey(Insert(x, r), k) == (if Key(x) == k then [x] else []) + WithKey(r, k)
  {
    var mine := if Key(x) == k then [x] else [];
    if r == [] {
      assert Insert(x, r) == [x];
    } else if LexLe(Key(x), Key(r[0])) {
      assert Insert(x, r) == [x] + r;
      assert ([x] + r)[1..] == r;
    } else {
      var head := if Key(r[0]) == k then [r[0]] else [];
      var rest := Insert(x, r[1..]);
      InsertStable(x, r[1..], k);
      assert Insert(x, r) == [r[0]] + rest;
      assert ([r[0]] + rest)[1..] == rest;
      assert WithKey(r, k) == head + WithKey(r[1..], k);
      // x sorts after r[0], so at most one of them carries the key k.
      LexLeReflexive(Key(x));
      assert mine == [] || head == [];
      assert WithKey(Insert(x, r), k) == head + (mine + WithKey(r[1..], k));
    }
  }

  /** Stability: for every key, the elements carrying that key appear in
      the sorted list in the same order as in the input. */
  lemma {:induction false} SortStable(s: seq<string>, k: string)
    ensures WithKey(SortByLower(s), k) == WithKey(s, k)
  {
    if s != [] {
      SortStable(s[1..], k);
      InsertStable(s[0], SortByLower(s[1..]), k);
    }
  }
}
