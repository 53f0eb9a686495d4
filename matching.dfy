/** Case-insensitive prefix matching of completion candidates against the
    text of the widget, and the hit list built from it (main.py:68-71 and
    main.py:124-127). Lowercasing is ASCII-only, so it preserves length. */
module Matching {

  predicate IsAsciiUpper(c: char) { 'A' <= c <= 'Z' }

  /** Lowercase one character: ASCII capitals map to their small letter,
      everything else is left alone. */
  function ToLower(c: char): (r: char)
    ensures !IsAsciiUpper(r)
    ensures IsAsciiUpper(c) ==> r as int == c as int + 32
    ensures !IsAsciiUpper(c) ==> r == c
  {
    if IsAsciiUpper(c) then (c as int + 32) as char else c
  }

  /** `str.lower()` restricted to ASCII: lowercase each character. */
  function Lower(s: string): (r: string)
    ensures |r| == |s|
    ensures forall i {:trigger r[i]} :: 0 <= i < |s| ==> r[i] == ToLower(s[i])
  {
    if s == [] then [] else [ToLower(s[0])] + Lower(s[1..])
  }

  /** `element.lower().startswith(query.lower())` */
  predicate Matches(query: string, element: string) {
    Lower(query) <= Lower(element)
  }

  /** The hit list: the candidates that match `query`, in candidate order.
      Defined from the back, as the loop at main.py:69-71 appends. */
  function Hits(candidates: seq<string>, query: string): (r: seq<string>)
  {
    if candidates == [] then []
    else
      var last := candidates[|candidates| - 1];
      Hits(candidates[..|candidates| - 1], query) + (if Matches(query, last) then [last] else [])
  }

  /** `a` can be obtained from `b` by deleting elements (order kept). */
  predicate IsSubsequence<T(==)>(a: seq<T>, b: seq<T>)
    decreases |b|
  {
    if a == [] then true
    else if b == [] then false
    else
      (a[|a| - 1] == b[|b| - 1] && IsSubsequence(a[..|a| - 1], b[..|b| - 1]))
      || IsSubsequence(a, b[..|b| - 1])
  }

  /** Lowercasing commutes with taking a prefix. */
  lemma LowerPrefix(s: string, k: nat)
    requires k <= |s|
    ensures Lower(s[..k]) == Lower(s)[..k]
  {
  }

  /** The hit list keeps candidate order: it is a subsequence of the candidates. */
  lemma {:induction false} HitsSubsequence(candidates: seq<string>, query: string)
    ensures IsSubsequence(Hits(candidates, query), candidates)
  {
    if candidates != [] {
      var init := candidates[..|candidates| - 1];
      var last := candidates[|candidates| - 1];
      HitsSubsequence(init, query);
      var h := Hits(candidates, query);
      if Matches(query, last) {
        assert h[..|h| - 1] == Hits(init, query);
      } else if h != [] {
        assert h == Hits(init, query);
      }
    }
  }

  /** Hits are exactly the matching candidates, with their multiplicity:
      every hit matches and is a candidate, and every matching candidate
      is a hit, as many times as it occurs among the candidates. */
  lemma {:induction false} HitsCount(candidates: seq<string>, query: string, e: string)
    ensures multiset(Hits(candidates, query))[e]
         == if Matches(query, e) then multiset(candidates)[e] else 0
  {
    if candidates != [] {
      var init := candidates[..|candidates| - 1];
      var last := candidates[|candidates| - 1];
      HitsCount(init, query, e);
      assert candidates == init + [last];
    }
  }

  /** Membership form of HitsCount, in both directions. */
  lemma HitsMembership(candidates: seq<string>, query: string, e: string)
    ensures e in Hits(candidates, query) <==> e in candidates && Matches(query, e)
  {
    HitsCount(candidates, query, e);
  }

  /** An empty query matches everything: the hit list is the whole list. */
  lemma {:induction false} HitsOfEmptyQuery(candidates: seq<string>)
    ensures Hits(candidates, "") == candidates
  {
    if candidates != [] {
      HitsOfEmptyQuery(candidates[..|candidates| - 1]);
      assert candidates == candidates[..|candidates| - 1] + [candidates[|candidates| - 1]];
    }
  }

  /** The hit list depends on the query only through its lowercase form. */
  lemma {:induction false} HitsCaseInsensitive(candidates: seq<string>, q1: string, q2: string)
    requires Lower(q1) == Lower(q2)
    ensures Hits(candidates, q1) == Hits(candidates, q2)
  {
    if candidates != [] {
      HitsCaseInsensitive(candidates[..|candidates| - 1], q1, q2);
    }
  }

  /** A hit is at least as long as the query it matched. */
  lemma MatchLength(query: string, element: string)
    requires Matches(query, element)
    ensures |query| <= |element|
  {
    assert |Lower(query)| <= |Lower(element)|;
  }

  /** Cutting a hit back to the length of its query and matching again
      yields the same hit list: this is why cycling with Up/Down keeps the
      hit list stable after a completion was shown. */
  lemma RequeryKeepsHits(candidates: seq<string>, query: string, hit: string)
    requires Matches(query, hit)
    ensures |query| <= |hit|
    ensures Hits(candidates, hit[..|query|]) == Hits(candidates, query)
  {
    MatchLength(query, hit);
    LowerPrefix(hit, |query|);
    HitsCaseInsensitive(candidates, hit[..|query|], query);
  }
}
