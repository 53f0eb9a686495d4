/** The autocompletion engine of `AutocompleteEntry` (main.py:45-103) and
    `AutocompleteCombobox` (main.py:106-155), as one class with a variant
    flag. The host widget's text buffer, insertion cursor and selection are
    fields; the Tk operations the source calls on them (`delete(i, END)`,
    `delete(0, END)` + `insert(0, s)`, `select_range(i, END)`) are small
    methods. Each operation is specified by a pure step function on a
    `State` snapshot, and the properties of the engine are proved about
    those functions. */
module Autocomplete {
  import opened Matching
  import opened Ordering

  /** Which of the two widget classes: they differ only in key handling
      and in the combobox's drop-down `values`. */
  datatype Variant = Entry | Combobox

  datatype Option<T> = None | Some(value: T)

  /** A selected range of characters `[from, to)` of the text buffer. */
  datatype Range = Range(from: nat, to: nat)

  /** The part of the widget that autocompletion and key handling change:
      the text buffer and its selection, `position`, `_hits`, `_hit_index`. */
  datatype State = State(
    text: string,
    position: int,
    selection: Option<Range>,
    hits: seq<string>,
    hitIndex: int)

  /** Key names of the accented letters that the Entry variant also
      treats as printable (main.py:30). */
  const Umlauts: seq<string> :=
    ["odiaeresis", "adiaeresis", "udiaeresis", "Odiaeresis", "Adiaeresis", "Udiaeresis", "ssharp"]

  /** Tk reads an integer index outside `[0, n]` as the nearest end. */
  function Clamp(i: int, n: nat): (r: nat)
    ensures r <= n
    ensures 0 <= i <= n ==> r == i
    ensures i < 0 ==> r == 0
    ensures n < i ==> r == n
  {
    if i < 0 then 0 else if i > n then n else i
  }

  /** Python's `a % n` for a positive `n` (the result takes the sign of
      `n`), written as repeated shifting by `n`. */
  function Wrap(a: int, n: int): (r: int)
    requires n > 0
    ensures 0 <= r < n
    ensures 0 <= a < n ==> r == a
    decreases if a < 0 then n - a else a
  {
    if a < 0 then Wrap(a + n, n) else if a >= n then Wrap(a - n, n) else a
  }

  lemma MulAtLeast(n: int, d: int)
    requires n > 0 && d >= 1
    ensures n * d >= n
  {
  }

  /** Quotient and remainder are unique. */
  lemma ModUnique(x: int, n: int, q: int, r: int)
    requires n > 0 && 0 <= r < n && x == n * q + r
    ensures x % n == r
  {
    var q' := x / n;
    var d := q - q';
    assert n * q == n * q' + n * d;
    if d > 0 {
      MulAtLeast(n, d);
    } else if d < 0 {
      MulAtLeast(n, -d);
    }
  }

  /** Adding `n` does not change the remainder. */
  lemma ModShift(a: int, b: int, n: int)
    requires n > 0 && b == a + n
    ensures b % n == a % n
  {
    var q := a / n;
    assert n * (q + 1) == n * q + n;
    ModUnique(b, n, q + 1, a % n);
  }

  /** Wrap agrees with Dafny's `%`, which for a positive divisor is the
      same as Python's. */
  lemma {:induction false} WrapIsMod(a: int, n: int)
    requires n > 0
    ensures Wrap(a, n) == a % n
    decreases if a < 0 then n - a else a
  {
    if a < 0 {
      WrapIsMod(a + n, n);
      ModShift(a, a + n, n);
    } else if a >= n {
      WrapIsMod(a - n, n);
      ModShift(a - n, a, n);
    }
  }

  /** A selection lies inside a text of length `n` and is not empty. */
  predicate SelectionWithin(sel: Option<Range>, n: nat) {
    sel.Some? ==> sel.value.from < sel.value.to <= n
  }

  /** Tk `delete(first, END)`: the text is cut back to `first`; a
      selection that started before the cut keeps its part before the cut,
      any other selection disappears. */
  function DeleteToEnd(s: State, first: int): (r: State)
    ensures r.text == s.text[..Clamp(first, |s.text|)]
    ensures r == s.(text := r.text, selection := r.selection)
    ensures SelectionWithin(s.selection, |s.text|) ==> SelectionWithin(r.selection, |r.text|)
    ensures r.selection.Some? ==> (s.selection.Some?
      && r.selection.value.from == s.selection.value.from
      && r.selection.value.to <= s.selection.value.to)
    ensures s.selection.Some? && s.selection.value.from >= Clamp(first, |s.text|) ==> r.selection == None
    ensures s.selection.Some? && s.selection.value.from < Clamp(first, |s.text|) ==>
      var k := Clamp(first, |s.text|);
      r.selection == Some(Range(s.selection.value.from, if s.selection.value.to < k then s.selection.value.to else k))
  {
    var k := Clamp(first, |s.text|);
    var sel := match s.selection
      case None => None
      case Some(rg) => if rg.from < k then Some(Range(rg.from, if rg.to < k then rg.to else k)) else None;
    s.(text := s.text[..k], selection := sel)
  }

  /** Tk `select_range(from, END)` on a text of length `n`: selects the
      tail from `from`, or clears the selection when that tail is empty. */
  function SelectToEnd(from: int, n: nat): (r: Option<Range>)
    ensures SelectionWithin(r, n)
    ensures r.Some? <==> Clamp(from, n) < n
    ensures r.Some? ==> r.value.from == Clamp(from, n) && r.value.to == n
  {
    var a := Clamp(from, n);
    if a < n then Some(Range(a, n)) else None
  }

  /** `_hit_index` is a valid cursor into `_hits`, and 0 when there are none. */
  predicate IndexInRange(s: State) {
    0 <= s.hitIndex && (s.hits == [] ==> s.hitIndex == 0) && (s.hits != [] ==> s.hitIndex < |s.hits|)
  }

  /** First stage of `autocomplete(delta)` (main.py:63-66): when cycling,
      cut the suggested suffix back to `position`; otherwise make the
      whole text the new baseline. */
  function SetBaseline(s: State, delta: int): (r: State) {
    if delta != 0 then DeleteToEnd(s, s.position) else s.(position := |s.text|)
  }

  /** The text matched by `autocomplete(delta)`. */
  function Query(s: State, delta: int): (q: string)
    ensures q <= s.text
    ensures delta == 0 ==> q == s.text
    ensures delta != 0 ==> q == s.text[..Clamp(s.position, |s.text|)]
  {
    SetBaseline(s, delta).text
  }

  /** Second stage (main.py:72-78): keep a new hit list and reset the
      cursor, then move the cursor by `delta` with wrap-around. The test
      `_hits == self._hits` at main.py:77 holds whenever it is reached,
      because the lines before made the two equal; so a fresh hit list
      is also shifted by `delta`. */
  function Remember(s: State, found: seq<string>, delta: int): (r: State)
    ensures r.hits == found
    ensures r.hits != [] ==> 0 <= r.hitIndex < |r.hits|
    ensures r.hits == [] ==> r.hitIndex == (if s.hits == [] then s.hitIndex else 0)
    ensures r == s.(hits := r.hits, hitIndex := r.hitIndex)
  {
    var hits := if found != s.hits then found else s.hits;
    var index := if found != s.hits then 0 else s.hitIndex;
    var index' := if found == hits && hits != [] then Wrap(index + delta, |hits|) else index;
    s.(hits := hits, hitIndex := index')
  }

  /** Last stage (main.py:80-83): show the hit under the cursor and select
      the suggested suffix from `position` on. */
  function ShowHit(s: State): (r: State)
    requires s.hits != [] ==> 0 <= s.hitIndex < |s.hits|
  {
    if s.hits != [] then
      var shown := s.hits[s.hitIndex];
      s.(text := shown, selection := SelectToEnd(s.position, |shown|))
    else s
  }

  /** `autocomplete(delta)` (main.py:61-83, main.py:117-139). */
  function AutocompleteStep(s: State, candidates: seq<string>, delta: int): (r: State) {
    var t := SetBaseline(s, delta);
    ShowHit(Remember(t, Hits(candidates, t.text), delta))
  }

  /** What `autocomplete(delta)` promises: `position` is the new baseline
      (delta 0) or kept (cycling); the stored hits are the candidates
      matching the query, in order; when there are hits, the cursor is in
      range, the text is the hit under the cursor, which is a candidate
      matching the query, and the suggested suffix from `position` on is
      selected; the cursor moves by `delta` on an unchanged hit list and
      is reset to 0 and then moved by `delta` on a new one; when there are
      no hits the text stays the query and no selection is made. */
  lemma AutocompleteStepSpec(s: State, candidates: seq<string>, delta: int)
    ensures var r := AutocompleteStep(s, candidates, delta);
      && r.position == (if delta == 0 then |s.text| else s.position)
      && r.hits == Hits(candidates, Query(s, delta))
      && IsSubsequence(r.hits, candidates)
      && (r.hits != [] ==>
        && 0 <= r.hitIndex < |r.hits|
        && r.text == r.hits[r.hitIndex]
        && r.text in candidates
        && Matches(Query(s, delta), r.text)
        && r.selection == SelectToEnd(r.position, |r.text|))
      && (r.hits != [] && r.hits == s.hits ==> r.hitIndex == Wrap(s.hitIndex + delta, |r.hits|))
      && (r.hits != [] && r.hits != s.hits ==> r.hitIndex == Wrap(delta, |r.hits|))
      && (r.hits == [] ==>
        && r.text == Query(s, delta)
        && r.hitIndex == (if s.hits == [] then s.hitIndex else 0)
        && r.selection == (if delta != 0 then DeleteToEnd(s, s.position).selection else s.selection))
      && (IndexInRange(s) ==> IndexInRange(r))
      && (s.position <= |s.text| ==> r.position <= |r.text|)
  {
    var r := AutocompleteStep(s, candidates, delta);
    var q := Query(s, delta);
    HitsSubsequence(candidates, q);
    if r.hits != [] {
      HitsMembership(candidates, q, r.text);
      MatchLength(q, r.text);
    }
  }

  /** `handle_keyrelease(event)` of the Entry (main.py:85-103) and of the
      Combobox (main.py:141-155), for the released key's name `keysym` and
      the insertion cursor `caret`. */
  function KeyStep(s: State, candidates: seq<string>, variant: Variant, keysym: string, caret: int): (r: State)
    requires 0 <= caret <= |s.text|
    ensures keysym == "BackSpace" ==>
      r.text == s.text[..caret] && r.position == caret && r.hits == s.hits && r.hitIndex == s.hitIndex
    ensures keysym == "Left" && s.position < |s.text| ==>
      r.text == s.text[..Clamp(s.position, |s.text|)] && r.position == s.position
      && r.hits == s.hits && r.hitIndex == s.hitIndex
    ensures keysym == "Left" && s.position >= |s.text| ==>
      r.text == s.text[..Clamp(s.position - 1, |s.text|)] && r.position == s.position - 1
      && r.hits == s.hits && r.hitIndex == s.hitIndex
    ensures keysym == "Right" ==> r == s.(position := |s.text|)
    ensures variant == Entry && keysym == "Down" ==> r == AutocompleteStep(s, candidates, 1)
    ensures variant == Entry && keysym == "Up" ==> r == AutocompleteStep(s, candidates, -1)
    ensures |keysym| == 1 || (variant == Entry && keysym in Umlauts) ==> r == AutocompleteStep(s, candidates, 0)
    ensures variant == Combobox && (keysym == "Down" || keysym == "Up" || keysym in Umlauts) ==> r == s
    ensures keysym !in ["BackSpace", "Left", "Right", "Down", "Up"] + Umlauts && |keysym| != 1 ==> r == s
    ensures IndexInRange(s) ==> IndexInRange(r)
  {
    if keysym == "BackSpace" then
      var t := DeleteToEnd(s, caret);
      t.(position := |t.text|)
    else if keysym == "Left" then
      if s.position < |s.text| then DeleteToEnd(s, s.position)
      else DeleteToEnd(s.(position := s.position - 1), s.position - 1)
    else if keysym == "Right" then
      s.(position := |s.text|)
    else if variant == Entry && keysym == "Down" then
      AutocompleteStep(s, candidates, 1)
    else if variant == Entry && keysym == "Up" then
      AutocompleteStep(s, candidates, -1)
    else if |keysym| == 1 || (variant == Entry && keysym in Umlauts) then
      AutocompleteStep(s, candidates, 0)
    else
      s
  }

  /** A suggestion is on display: the text is the current hit, its suffix
      from `position` on is selected, `position` (clamped to the text, as
      Tk reads it) marks the end of the text it was matched against, and
      matching that text again gives the same hit list. `position` may be
      negative: Left at the start of the text leaves it at -1. */
  predicate Completed(s: State, candidates: seq<string>) {
    && s.position <= |s.text|
    && s.hits != []
    && 0 <= s.hitIndex < |s.hits|
    && s.text == s.hits[s.hitIndex]
    && s.selection == SelectToEnd(s.position, |s.text|)
    && s.hits == Hits(candidates, s.text[..Clamp(s.position, |s.text|)])
  }

  /** The suggestion `i` of the stored hit list on display. */
  function Rotated(s: State, i: nat): (r: State)
    requires i < |s.hits|
    ensures r.hits == s.hits && r.position == s.position && r.hitIndex == i
  {
    s.(text := s.hits[i], hitIndex := i, selection := SelectToEnd(s.position, |s.hits[i]|))
  }

  /** Which hit is shown depends only on the hit list and `position`. */
  lemma RotatedSameList(t: State, s: State, i: nat)
    requires t.hits == s.hits && t.position == s.position && i < |s.hits|
    ensures Rotated(t, i) == Rotated(s, i)
  {
  }

  /** Every autocompletion that finds hits leaves a suggestion on display
      (from a state where `position` is not past the end of the text when
      cycling). */
  lemma AutocompleteCompletes(s: State, candidates: seq<string>, delta: int)
    requires delta == 0 || s.position <= |s.text|
    requires AutocompleteStep(s, candidates, delta).hits != []
    ensures Completed(AutocompleteStep(s, candidates, delta), candidates)
  {
    var r := AutocompleteStep(s, candidates, delta);
    var q := Query(s, delta);
    AutocompleteStepSpec(s, candidates, delta);
    RequeryKeepsHits(candidates, q, r.text);
    assert Clamp(r.position, |r.text|) == |q|;
  }

  /** With a suggestion on display, Up or Down keeps the hit list and
      `position`, and shows the hit `delta` places further, with
      wrap-around. */
  lemma CycleStep(s: State, candidates: seq<string>, delta: int)
    requires Completed(s, candidates) && delta != 0
    ensures AutocompleteStep(s, candidates, delta) == Rotated(s, Wrap(s.hitIndex + delta, |s.hits|))
    ensures Completed(AutocompleteStep(s, candidates, delta), candidates)
  {
    AutocompleteStepSpec(s, candidates, delta);
    AutocompleteCompletes(s, candidates, delta);
  }

  /** `autocomplete(delta)` as a state transition. */
  function StepBy(candidates: seq<string>, delta: int): (r: State -> State) {
    t => AutocompleteStep(t, candidates, delta)
  }

  /** `k` applications of `step`, the last one outermost. */
  function Iterate(step: State -> State, s: State, k: nat): (r: State)
    decreases k
  {
    if k == 0 then s else step(Iterate(step, s, k - 1))
  }

  /** `k` successive `autocomplete(delta)` calls. */
  function Presses(s: State, candidates: seq<string>, delta: int, k: nat): (r: State) {
    Iterate(StepBy(candidates, delta), s, k)
  }

  /** The cursor position after one step forward on `n` hits. */
  function Succ(i: int, n: int): (r: int) {
    if i + 1 < n then i + 1 else 0
  }

  /** One more step forward moves the wrapped cursor on by one. */
  lemma {:induction false} WrapNext(a: int, b: int, n: int)
    requires 0 <= a && b == a + 1 && n > 0
    ensures Wrap(b, n) == Succ(Wrap(a, n), n)
    decreases a
  {
    if a >= n {
      assert Wrap(a, n) == Wrap(a - n, n);
      assert Wrap(b, n) == Wrap(b - n, n);
      WrapNext(a - n, b - n, n);
    } else if b == n {
      assert Wrap(b, n) == Wrap(0, n);
    }
  }

  /** Any hit of a suggestion on display can be shown in its place, and
      is then a suggestion on display itself. */
  lemma RotatedCompleted(s: State, candidates: seq<string>, j: nat)
    requires Completed(s, candidates) && j < |s.hits|
    ensures Completed(Rotated(s, j), candidates)
  {
    var q := s.text[..Clamp(s.position, |s.text|)];
    var hit := s.hits[j];
    HitsMembership(candidates, q, hit);
    RequeryKeepsHits(candidates, q, hit);
    assert Clamp(s.position, |hit|) == |q|;
  }

  /** Down from a suggestion on display shows the next hit. */
  lemma DownStep(s: State, candidates: seq<string>)
    requires Completed(s, candidates)
    ensures AutocompleteStep(s, candidates, 1) == Rotated(s, Succ(s.hitIndex, |s.hits|))
  {
    CycleStep(s, candidates, 1);
    WrapNext(s.hitIndex, s.hitIndex + 1, |s.hits|);
  }

  /** Down from any hit of a suggestion on display shows the hit after it. */
  lemma DownStepAt(s: State, candidates: seq<string>, m: nat)
    requires Completed(s, candidates) && m < |s.hits|
    ensures AutocompleteStep(Rotated(s, m), candidates, 1) == Rotated(s, Succ(m, |s.hits|))
  {
    RotatedCompleted(s, candidates, m);
    DownStep(Rotated(s, m), candidates);
    RotatedSameList(Rotated(s, m), s, Succ(m, |s.hits|));
  }

  /** Iterating a step that moves any shown hit on to the next one, with
      wrap-around, shows the hit `k` places further. */
  lemma {:induction false} IterateAlongHits(step: State -> State, s: State, k: nat)
    requires 0 <= s.hitIndex < |s.hits| && Rotated(s, s.hitIndex) == s
    requires forall m {:trigger step(Rotated(s, m))} :: 0 <= m < |s.hits| ==>
      step(Rotated(s, m)) == Rotated(s, Succ(m, |s.hits|))
    ensures Iterate(step, s, k) == Rotated(s, Wrap(s.hitIndex + k, |s.hits|))
    decreases k
  {
    var n := |s.hits|;
    if k > 0 {
      IterateAlongHits(step, s, k - 1);
      WrapNext(s.hitIndex + (k - 1), s.hitIndex + k, n);
    }
  }

  /** `k` presses of Down from a suggestion on display keep the hit list
      and `position`, and show the hit `k` places further, with
      wrap-around. */
  lemma DownPresses(s: State, candidates: seq<string>, k: nat)
    requires Completed(s, candidates)
    ensures Presses(s, candidates, 1, k) == Rotated(s, Wrap(s.hitIndex + k, |s.hits|))
  {
    var down := StepBy(candidates, 1);
    forall m | 0 <= m < |s.hits|
      ensures down(Rotated(s, m)) == Rotated(s, Succ(m, |s.hits|))
    {
      DownStepAt(s, candidates, m);
    }
    assert Rotated(s, s.hitIndex) == s;
    IterateAlongHits(down, s, k);
  }

  /** Pressing Down once per hit comes back to the state it started from. */
  lemma FullCycle(s: State, candidates: seq<string>)
    requires Completed(s, candidates)
    ensures Presses(s, candidates, 1, |s.hits|) == s
  {
    DownPresses(s, candidates, |s.hits|);
    assert Wrap(s.hitIndex + |s.hits|, |s.hits|) == s.hitIndex;
  }

  /** Up from the first hit wraps around to the last one. */
  lemma UpFromFirst(s: State, candidates: seq<string>)
    requires Completed(s, candidates) && s.hitIndex == 0
    ensures AutocompleteStep(s, candidates, -1).hitIndex == |s.hits| - 1
    ensures AutocompleteStep(s, candidates, -1).text == s.hits[|s.hits| - 1]
  {
    CycleStep(s, candidates, -1);
    assert Wrap(-1, |s.hits|) == |s.hits| - 1;
  }

  /** The cycling quirk: when Down reaches a hit list that differs from the
      stored one, the cursor is reset and then still advanced, so the
      second hit is shown rather than the first. */
  lemma FreshListSkipsFirst(s: State, candidates: seq<string>)
    requires var found := Hits(candidates, Query(s, 1)); |found| >= 2 && found != s.hits
    ensures AutocompleteStep(s, candidates, 1).hitIndex == 1
    ensures AutocompleteStep(s, candidates, 1).text == Hits(candidates, Query(s, 1))[1]
  {
    AutocompleteStepSpec(s, candidates, 1);
  }

  /** The widget: `AutocompleteEntry` or `AutocompleteCombobox`. */
  class AutocompleteWidget {
    const variant: Variant
    /** `_completion_list` */
    var completion: seq<string>
    /** The combobox's drop-down list, `self['values']`. */
    var values: seq<string>
    /** The text buffer of the widget. */
    var text: string
    var position: int
    var selection: Option<Range>
    /** `_hits` */
    var hits: seq<string>
    /** `_hit_index` */
    var hitIndex: int

    /** The stored hits are drawn from the completion list, in its order,
        and the cursor is in range; the combobox lists the completion list.
        (That the completion list is sorted follows from SetCompletionList,
        the only method that assigns it.) */
    ghost predicate Valid()
      reads this
    {
      && (variant == Combobox ==> values == completion)
      && IsSubsequence(hits, completion)
      && IndexInRange(Snapshot())
    }

    function Snapshot(): (r: State)
      reads this
    {
      State(text, position, selection, hits, hitIndex)
    }

    /** Creates an empty widget and sets its completion list, which is
        also what binds the key handler: the handler never runs before
        `set_completion_list`. */
    constructor (variant: Variant, completionList: seq<string>)
      ensures Valid()
      ensures this.variant == variant
      ensures completion == SortByLower(completionList)
      ensures values == (if variant == Combobox then completion else [])
      ensures Snapshot() == State("", 0, None, [], 0)
    {
      this.variant := variant;
      text := "";
      selection := None;
      values := [];
      new;
      SetCompletionList(completionList);
    }

    /** `set_completion_list` (main.py:54-58, main.py:108-115). */
    method SetCompletionList(completionList: seq<string>)
      modifies this
      ensures Valid()
      ensures completion == SortByLower(completionList)
      ensures hits == [] && hitIndex == 0 && position == 0
      ensures values == if variant == Combobox then completion else old(values)
      ensures text == old(text) && selection == old(selection)
    {
      completion := SortByLower(completionList);
      hits := [];
      hitIndex := 0;
      position := 0;
      if variant == Combobox {
        values := completion;
      }
      assert IsSubsequence(hits, completion) && IndexInRange(Snapshot());
    }

    /** Tk `delete(first, END)`. */
    method Delete(first: int)
      modifies this
      ensures Snapshot() == DeleteToEnd(old(Snapshot()), first)
      ensures completion == old(completion) && values == old(values)
    {
      var k := Clamp(first, |text|);
      match selection {
        case None =>
        case Some(rg) =>
          selection := if rg.from < k then Some(Range(rg.from, if rg.to < k then rg.to else k)) else None;
      }
      text := text[..k];
    }

    /** Tk `delete(0, END)` followed by `insert(0, s)`. */
    method ReplaceText(s: string)
      modifies this
      ensures text == s && selection == None
      ensures position == old(position) && hits == old(hits) && hitIndex == old(hitIndex)
      ensures completion == old(completion) && values == old(values)
    {
      Delete(0);
      text := s;
    }

    /** Tk `select_range(from, END)`. */
    method SelectRange(from: int)
      modifies this
      ensures selection == SelectToEnd(from, |text|)
      ensures text == old(text) && position == old(position)
      ensures hits == old(hits) && hitIndex == old(hitIndex)
      ensures completion == old(completion) && values == old(values)
    {
      var a := Clamp(from, |text|);
      selection := if a < |text| then Some(Range(a, |text|)) else None;
    }

    /** The loop of `autocomplete` that collects the hits for `query`
        (main.py:67-71, main.py:123-127). */
    method CollectHits(query: string) returns (found: seq<string>)
      ensures found == Hits(completion, query)
    {
      found := [];
      var i := 0;
      while i < |completion|
        invariant 0 <= i <= |completion|
        invariant found == Hits(completion[..i], query)
      {
        if Matches(query, completion[i]) {
          found := found + [completion[i]];
        }
        assert completion[..i + 1][..i] == completion[..i];
        i := i + 1;
      }
      assert completion[..i] == completion;
    }

    /** The part of `autocomplete` that keeps a new hit list and moves the
        cursor (main.py:72-78, main.py:128-134). */
    method RememberHits(found: seq<string>, delta: int)
      modifies this
      ensures Snapshot() == Remember(old(Snapshot()), found, delta)
      ensures completion == old(completion) && values == old(values)
    {
      if found != hits {
        hitIndex := 0;
        hits := found;
      }
      if found == hits && hits != [] {
        hitIndex := Wrap(hitIndex + delta, |hits|);
      }
    }

    /** The part of `autocomplete` that shows the current hit and selects
        the suggested suffix (main.py:79-83, main.py:135-139). */
    method ShowCurrentHit()
      requires hits != [] ==> 0 <= hitIndex < |hits|
      modifies this
      ensures Snapshot() == ShowHit(old(Snapshot()))
      ensures completion == old(completion) && values == old(values)
    {
      if hits != [] {
        ReplaceText(hits[hitIndex]);
        SelectRange(position);
      }
    }

    /** `autocomplete(delta)` (main.py:61-83, main.py:117-139). */
    method Autocomplete(delta: int)
      requires Valid()
      modifies this
      ensures Valid()
      ensures Snapshot() == AutocompleteStep(old(Snapshot()), completion, delta)
      ensures completion == old(completion) && values == old(values)
    {
      if delta != 0 {
        Delete(position);
      } else {
        position := |text|;
      }
      var found := CollectHits(text);
      HitsSubsequence(completion, text);
      RememberHits(found, delta);
      ShowCurrentHit();
    }

    /** `handle_keyrelease` (main.py:85-103, main.py:141-155). `caret` is
        the widget's insertion cursor, `index(INSERT)`. */
    method HandleKeyRelease(keysym: string, caret: int)
      requires Valid()
      requires 0 <= caret <= |text|
      modifies this
      ensures Valid()
      ensures Snapshot() == KeyStep(old(Snapshot()), completion, variant, keysym, caret)
      ensures completion == old(completion) && values == old(values)
    {
      // The source tests the key name with independent `if`s; the names
      // tested are distinct and none has length 1, so at most one applies.
      if keysym == "BackSpace" {
        Delete(caret);
        position := |text|;
      } else if keysym == "Left" {
        if position < |text| {
          Delete(position);
        } else {
          position := position - 1;
          Delete(position);
        }
      } else if keysym == "Right" {
        position := |text|;
      } else if variant == Entry && keysym == "Down" {
        Autocomplete(1);
      } else if variant == Entry && keysym == "Up" {
        Autocomplete(-1);
      } else if |keysym| == 1 || (variant == Entry && keysym in Umlauts) {
        Autocomplete(0);
      }
    }
  }
}
