/** Concrete runs of the engine on customer names like the application's
    default `Edmund`. */
module Scenarios {
  import opened Matching
  import opened Ordering
  import opened Autocomplete

  /** A completion list as `set_completion_list` stores it: sorted by
      lowercase form, so `edmund` comes before `Zeiss`. */
  const Customers: seq<string> := ["Eastman", "edmund", "Zeiss"]

  /** The first characters of the customers' sort keys. */
  lemma CustomerKeys()
    ensures |Key("Eastman")| == 7 && Key("Eastman")[0] == 'e' && Key("Eastman")[1] == 'a'
    ensures |Key("edmund")| == 6 && Key("edmund")[0] == 'e' && Key("edmund")[1] == 'd'
    ensures |Key("Zeiss")| == 5 && Key("Zeiss")[0] == 'z'
  {
  }

  lemma CustomerKeysOrdered()
    ensures LexLe(Key("Eastman"), Key("edmund")) && LexLe(Key("edmund"), Key("Zeiss"))
  {
    var a, b := Key("Eastman"), Key("edmund");
    CustomerKeys();
    assert LexLe(a, b) == LexLe(a[1..], b[1..]);
  }

  /** Three strings in nondecreasing key order are sorted by key. */
  lemma SortedThree(x: string, y: string, z: string)
    requires LexLe(Key(x), Key(y)) && LexLe(Key(y), Key(z))
    ensures SortedByKey([x, y, z])
  {
    LexLeTransitive(Key(x), Key(y), Key(z));
  }

  /** `Customers` is in the order `set_completion_list` keeps: by
      lowercase form, so `edmund` before `Zeiss` although `Z` < `e`. */
  lemma CustomersSorted()
    ensures SortedByKey(Customers)
  {
    CustomerKeysOrdered();
    SortedThree("Eastman", "edmund", "Zeiss");
  }

  lemma MatchesE()
    ensures Matches("E", "Eastman") && Matches("E", "edmund") && !Matches("E", "Zeiss")
  {
    assert Lower("E") == "e";
    assert Lower("Eastman")[0] == 'e' && Lower("edmund")[0] == 'e' && Lower("Zeiss")[0] == 'z';
  }

  lemma HitsE()
    ensures Hits(Customers, "E") == ["Eastman", "edmund"]
  {
    MatchesE();
    var one: seq<string> := ["Eastman"];
    var two: seq<string> := ["Eastman", "edmund"];
    assert one[..0] == [];
    assert Hits(one, "E") == ["Eastman"];
    assert two[..1] == one;
    assert Hits(two, "E") == ["Eastman", "edmund"];
    assert Customers[..2] == two;
  }

  /** Typing `E` into an empty Entry suggests `Eastman`, with the
      suggested suffix `astman` selected. */
  lemma TypeE()
    ensures KeyStep(State("E", 0, None, [], 0), Customers, Entry, "E", 1)
         == State("Eastman", 1, Some(Range(1, 7)), ["Eastman", "edmund"], 0)
  {
    HitsE();
  }

  /** The state after typing `E`. */
  const Typed: State := State("Eastman", 1, Some(Range(1, 7)), ["Eastman", "edmund"], 0)

  lemma TypedCompleted()
    ensures Completed(Typed, Customers)
  {
    HitsE();
    assert Typed.text[..Clamp(Typed.position, |Typed.text|)] == "E";
  }

  /** Down then shows `edmund` with `dmund` selected, and a second Down
      comes back to `Eastman`. */
  lemma DownTwice()
    ensures KeyStep(Typed, Customers, Entry, "Down", 1)
         == State("edmund", 1, Some(Range(1, 6)), ["Eastman", "edmund"], 1)
    ensures Presses(Typed, Customers, 1, 2) == Typed
  {
    TypedCompleted();
    CycleStep(Typed, Customers, 1);
    FullCycle(Typed, Customers);
  }

  /** Down in an empty Entry lists every customer but shows the second
      one, `edmund`, not the first: the fresh hit list is shifted too. */
  lemma DownWhenEmpty()
    ensures KeyStep(State("", 0, None, [], 0), Customers, Entry, "Down", 0)
         == State("edmund", 0, Some(Range(0, 6)), Customers, 1)
  {
    HitsOfEmptyQuery(Customers);
  }

  /** Left at the start of the text leaves `position` at -1; Down then
      matches the empty text and shows `edmund`, selected as a whole. */
  lemma DownAfterLeftAtStart()
    ensures KeyStep(State("", -1, None, [], 0), Customers, Entry, "Down", 0)
         == State("edmund", -1, Some(Range(0, 6)), Customers, 1)
  {
    HitsOfEmptyQuery(Customers);
  }

  /** That state is a suggestion on display, so cycling goes on from it. */
  lemma LeftAtStartCompleted()
    ensures Completed(State("edmund", -1, Some(Range(0, 6)), Customers, 1), Customers)
  {
    HitsOfEmptyQuery(Customers);
    assert "edmund"[..0] == "";
  }
}
