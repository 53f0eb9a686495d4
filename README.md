# Autocompleting Tk entry and combobox, in Dafny

`main.py` defines two Tk widgets that complete what the user types from a
list of candidates: `AutocompleteEntry` (a `tkinter.Entry`) and
`AutocompleteCombobox` (a `ttk.Combobox`). Both work the same way.

- `set_completion_list` stores the candidates, sorted case-insensitively,
  and resets the widget's state.
- `autocomplete(delta)` collects the hits. These are the candidates whose
  lowercase form starts with the lowercase text. It replaces the text with
  the current hit and selects the suggested suffix, which starts at
  `position`. With `delta = ±1` it cycles through the hits with
  wrap-around.
- `handle_keyrelease` maps each released key to one of the following:
  - cutting the suggestion (BackSpace, Left);
  - accepting it (Right);
  - cycling (Down, Up; in the Entry only);
  - a new match (a one-character key, or in the Entry an umlaut key name).

The project has four modules:

- `Matching` (`matching.dfy`) holds ASCII lowercasing, the prefix test and
  the hit list `Hits`, defined by recursion from the back to mirror the
  appending loop. It proves:
  - the hit list is a subsequence of the candidates;
  - it holds exactly the matching candidates, counted with multiplicity;
  - an empty query matches everything;
  - matching does not depend on case;
  - re-matching a hit cut back to the query's length gives the same hits.
- `Ordering` (`ordering.dfy`) holds `sorted(..., key=str.lower)` as an
  insertion sort over Python's lexicographic string order. It is proved to
  be a permutation, sorted, and stable.
- `Autocomplete` (`autocomplete.dfy`) holds the class `AutocompleteWidget`.
  - Its fields are the completion list, the combobox's `values`, the text
    buffer, `position`, the selection, `_hits` and `_hit_index`, plus a
    variant flag.
  - Its methods are the three operations and the Tk buffer operations they
    call.
  - Each method is proved against a pure step function on a `State`
    snapshot: `AutocompleteStep` for `autocomplete`, `KeyStep` for
    `handle_keyrelease`.
  - The properties of the engine are lemmas about those functions: where
    the cursor goes, what is shown and selected, and how cycling wraps
    around.
- `Scenarios` (`scenarios.dfy`) holds concrete runs on three customer names.

## Model

| member | source | states |
|---|---|---|
| Matching.Lower | main.py:70 | `str.lower` on ASCII: same length, and every character is lowercased by `ToLower` |
| Matching.HitsSubsequence | main.py:68-71 | the hits keep the order of the completion list: they form a subsequence of it |
| Matching.HitsCount | main.py:68-71 | each string occurs among the hits as often as among the candidates if it matches the query, and not at all otherwise |
| Matching.HitsMembership | main.py:69-70 | a string is a hit if and only if it is a candidate whose lowercase form starts with the lowercase query |
| Matching.HitsOfEmptyQuery | main.py:69-71 | with an empty text the hit list is the whole completion list |
| Matching.HitsCaseInsensitive | main.py:70 | two queries with the same lowercase form give the same hits |
| Matching.MatchLength | main.py:70 | a hit is at least as long as the query it matched |
| Matching.LowerPrefix | main.py:70 | lowercasing commutes with taking a prefix |
| Matching.RequeryKeepsHits | main.py:64-71 | cutting a hit back to the length of its query and matching again gives the same hit list |
| Ordering.LexLeTotal | main.py:55 | the string order used by `sorted` is total |
| Ordering.LexLeTransitive | main.py:55 | the string order is transitive |
| Ordering.LexLeAntisymmetric | main.py:55 | the string order is antisymmetric |
| Ordering.SortByLower | main.py:55 | the stored list is a permutation of the input, nondecreasing by lowercase key |
| Ordering.SortStable | main.py:55 | for every key, the elements with that key keep their input order (Python's sort is stable) |
| Autocomplete.Wrap | main.py:78 | Python's `a % n` for `n > 0` lies in `[0, n)` and is `a` itself when `a` already does |
| Autocomplete.WrapIsMod | main.py:78 | Python's `%` agrees with Dafny's `%` for a positive divisor |
| Autocomplete.DeleteToEnd | main.py:64 | Tk `delete(i, END)`: the text is cut at the clamped index. A selection that starts before the cut keeps its start, and its end is cut at the index. Any other selection is dropped. Nothing else changes |
| Autocomplete.SelectToEnd | main.py:83 | Tk `select_range(i, END)`: the tail from the clamped index is selected, or nothing if that tail is empty |
| Autocomplete.Query | main.py:63-66 | the text that is matched is a prefix of the text: all of it when `delta` is 0, and when cycling the text cut at `position` clamped to the text (so the empty text after Left at 0) |
| Autocomplete.Remember | main.py:72-78 | the stored hits become the new hits; the cursor is in range when there are hits, and 0 after a non-empty list was dropped; nothing else changes |
| Autocomplete.AutocompleteStepSpec | main.py:61-83 | `position` becomes the text length (delta 0) or is kept. `_hits` are the matches of the query. With hits: the cursor is in range, the text is the hit under it (a matching candidate) and the suffix from `position` is selected; the cursor moves by `delta` mod the count on an unchanged list, and is reset and then moved by `delta` on a new one. Without hits: the text is the query, and the selection is only what the cut left. The cursor stays in range, and `position` stays within the text |
| Autocomplete.KeyStep | main.py:85-103 | BackSpace cuts the text at the caret and moves `position` to the end. Left cuts at `position`, or at `position - 1` after decrementing it. Right moves `position` to the end. Down/Up cycle by +1/-1 in the Entry only. A one-character key, or an umlaut name in the Entry, starts a new match. Any other key, and Up/Down/umlauts in the Combobox, change nothing |
| Autocomplete.AutocompleteCompletes | main.py:80-83 | after an autocompletion that finds hits, a suggestion is on display: the text is the current hit, its suffix from `position` is selected, and re-matching the typed part (cut at `position` clamped to the text, so also with `position` -1 after Left at 0) gives the same hits. When cycling, this needs `position` not past the end of the text |
| Autocomplete.CycleStep | main.py:73-78 | with a suggestion on display, Up or Down keeps the hit list and `position` and shows the hit `(_hit_index + delta) % len(_hits)` |
| Autocomplete.RotatedCompleted | main.py:77-83 | showing any other hit of the same list in place of the current one is again a suggestion on display |
| Autocomplete.DownStep | main.py:98-99 | Down shows the next hit, and after the last one the first |
| Autocomplete.DownPresses | main.py:98-99 | `k` presses of Down show the hit `k` places further on, modulo the number of hits |
| Autocomplete.FullCycle | main.py:77-78 | pressing Down once per hit returns to exactly the starting state |
| Autocomplete.UpFromFirst | main.py:100-101 | Up from the first hit shows the last one |
| Autocomplete.FreshListSkipsFirst | main.py:73-78 | when Down meets a hit list different from the stored one, the second hit is shown, not the first |
| Autocomplete.AutocompleteWidget.constructor | main.py:54-59 | a new widget holds the sorted completion list and an empty text with no hits; the combobox also lists the completion list |
| Autocomplete.AutocompleteWidget.SetCompletionList | main.py:108-115 | stores the sorted list, resets `_hits`, `_hit_index` and `position`, and sets the combobox's `values` to the stored list; the text is untouched |
| Autocomplete.AutocompleteWidget.Delete | main.py:64 | the widget's state becomes `DeleteToEnd` of the old one |
| Autocomplete.AutocompleteWidget.ReplaceText | main.py:81-82 | `delete(0, END)` then `insert(0, s)`: the text is `s`, with no selection |
| Autocomplete.AutocompleteWidget.SelectRange | main.py:83 | the selection becomes `SelectToEnd` of the index; nothing else changes |
| Autocomplete.AutocompleteWidget.CollectHits | main.py:68-71 | the loop collects exactly `Hits` of the completion list |
| Autocomplete.AutocompleteWidget.RememberHits | main.py:72-78 | the state becomes `Remember` of the old one |
| Autocomplete.AutocompleteWidget.ShowCurrentHit | main.py:79-83 | the state becomes `ShowHit` of the old one |
| Autocomplete.AutocompleteWidget.Autocomplete | main.py:117-139 | the state becomes `AutocompleteStep` of the old one, and the hits stay a subsequence of the completion list |
| Autocomplete.AutocompleteWidget.HandleKeyRelease | main.py:141-155 | the state becomes `KeyStep` of the old one for the widget's variant |
| Scenarios.CustomersSorted | main.py:55 | the three customers `Eastman`, `edmund`, `Zeiss` are in lowercase-key order, the order `set_completion_list` stores |
| Scenarios.HitsE | main.py:68-71 | among `Eastman`, `edmund` and `Zeiss`, the text `E` matches `Eastman` and `edmund`, whatever their case |
| Scenarios.TypeE | main.py:102-103 | typing `E` in an empty Entry shows `Eastman` with `astman` selected |
| Scenarios.DownTwice | main.py:98-99 | Down then shows `edmund`, and a second Down comes back to `Eastman` |
| Scenarios.DownWhenEmpty | main.py:73-78 | Down in an empty Entry shows `edmund`, the second of all customers |
| Scenarios.DownAfterLeftAtStart | main.py:90-99 | after Left at the start of an empty Entry (`position` -1), Down shows `edmund` with all of it selected |
| Scenarios.LeftAtStartCompleted | main.py:77-83 | that state is a suggestion on display, so the cycling lemmas apply from it |

`Autocomplete.Umlauts` is the key-name list of main.py:30. The Combobox
methods (main.py:108-155) repeat the Entry's code except where the table
cites them. They share one model, switched by the variant flag.

## Left out

- `FullScreenApp`, `test()` and `main()` (window geometry, layout, the
  customer directory listing, opening files, simulated key strokes): GUI
  and file-system I/O.
- The win32 and COM imports: foreign calls.
- `self.bind('<KeyRelease>', ...)`: event registration is not modelled.
  The constructor calls `SetCompletionList` once, so the handler is never
  reached before a completion list is set. Calling `set_completion_list`
  again only re-binds the same handler.
- What a key does to the buffer on its own: Tk's default bindings, such as
  inserting the typed character or deleting before the caret. This runs
  before the release handler, and the model starts from the buffer as it
  is when the handler runs. For the same reason, Right only moves
  `position`. Whether the selection also disappears is decided by Tk's own
  binding for the key, not by this code.
- The insertion cursor `index(INSERT)` is a parameter (`caret`) of
  `HandleKeyRelease`, with `0 <= caret <= len(text)`.
- Tk's text indices are modelled as integers clamped to `[0, len(text)]`.
  The selection is a range without Tk's anchor, and `delete(i, END)` cuts
  the range or drops it.
- Left at `position` 0, with nothing suggested, decrements `position` to
  -1. The model keeps that value, as the code does. The delete clamps the
  index to 0, as Tk does.
- Matching.Lower: lowercases ASCII capitals only. Python's full Unicode
  `str.lower` can change a string's length and is not modelled.
- The combobox's drop-down list: only the `values` it is given is
  modelled, not how the user picks from it.
- Autocomplete.AutocompleteCompletes: says nothing about Up or Down from
  a state whose `position` is past the end of the text. Tk's own editing
  can leave such a state. Re-matching the shown hit up to the clamped
  `position` can then give a different list, so such a state is not a
  suggestion on display in the model's sense.
- Pressing Up or Down when no suggestion is on display gives the hits of
  the text before `position`. `AutocompleteStepSpec` covers this case.
  Cycling lemmas are stated only from a suggestion on display.
