/** String joining as Python's `str.join` does it. */
module Text {

  /** `sep.join(items)`: the items in order with `sep` between neighbours. */
  function Join(items: seq<string>, sep: string): string
    decreases |items|
  {
    if |items| == 0 then ""
    else if |items| == 1 then items[0]
    else items[0] + sep + Join(items[1..], sep)
  }

  /** Joining is what building the result item by item at the end gives. */
  lemma {:induction false} JoinAppend(items: seq<string>, x: string, sep: string)
    requires items != []
    ensures Join(items + [x], sep) == Join(items, sep) + sep + x
    decreases |items|
  {
    if |items| == 1 {
      assert (items + [x])[1..] == [x];
    } else {
      assert (items + [x])[1..] == items[1..] + [x];
      JoinAppend(items[1..], x, sep);
    }
  }

  /** A joined list starts with its first item and ends with its last one: no separator dangles. */
  lemma {:induction false} JoinEnds(items: seq<string>, sep: string)
    requires items != []
    ensures items[0] <= Join(items, sep)
    ensures var s := Join(items, sep); var last := items[|items| - 1];
      |last| <= |s| && s[|s| - |last|..] == last
    decreases |items|
  {
    var n := |items|;
    if n > 1 {
      var init := items[..n - 1];
      assert init + [items[n - 1]] == items;
      JoinAppend(init, items[n - 1], sep);
      assert init[0] == items[0];
      JoinEnds(init, sep);
      var s := Join(items, sep);
      assert s == Join(init, sep) + sep + items[n - 1];
    }
  }

  /** `"'" + l + "'"`, one SQL string literal. */
  function Quote(l: string): string {
    "'" + l + "'"
  }

  function Quoted(levels: seq<string>): (r: seq<string>)
    ensures |r| == |levels|
    ensures forall i :: 0 <= i < |levels| ==> r[i] == Quote(levels[i])
    decreases |levels|
  {
    if levels == [] then [] else [Quote(levels[0])] + Quoted(levels[1..])
  }

  /** `"'" + "', '".join(levels) + "'"`, the level list of an `in (...)` clause. */
  function QuotedList(levels: seq<string>): string {
    "'" + Join(levels, "', '") + "'"
  }

  /**
   * The level list built by the source is the comma-separated list of the levels
   * each quoted on its own, in configured order.
   */
  lemma {:induction false} QuotedListIsListOfLiterals(levels: seq<string>)
    requires levels != []
    ensures QuotedList(levels) == Join(Quoted(levels), ", ")
    decreases |levels|
  {
    if |levels| > 1 {
      QuotedListIsListOfLiterals(levels[1..]);
      var q := Quoted(levels);
      assert q[1..] == Quoted(levels[1..]);
      calc {
        QuotedList(levels);
        "'" + (levels[0] + "', '" + Join(levels[1..], "', '")) + "'";
        { assert "'" + (levels[0] + "', '" + Join(levels[1..], "', '")) + "'"
            == ("'" + levels[0] + "'") + ", " + ("'" + Join(levels[1..], "', '") + "'"); }
        Quote(levels[0]) + ", " + QuotedList(levels[1..]);
        Quote(levels[0]) + ", " + Join(Quoted(levels[1..]), ", ");
        Join(q, ", ");
      }
    }
  }

  /** With no levels the source still emits one empty literal. */
  lemma QuotedListEmpty()
    ensures QuotedList([]) == "''"
  {
  }
}
