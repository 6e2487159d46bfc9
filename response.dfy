/** `format_response`: the human-readable summary of a batch. */
module Response {
  import opened Strings
  import opened Results

  /** The summary line of one entry:
      `<url> in <permalink> appears <label> with score <percentage>`.
      `pct` renders a score as a percentage with two decimals (Python's
      `:.2%`), which the model leaves abstract. */
  function Line(e: Entry, link: string, pct: real -> string): string {
    e.url + " in " + link + " appears " + e.prediction.category + " with score " + pct(e.prediction.score)
  }

  /** One line per entry, in the dictionary's order. */
  function Lines(results: seq<Entry>, link: string, pct: real -> string): (lines: seq<string>)
    ensures |lines| == |results|
    ensures forall i :: 0 <= i < |results| ==> lines[i] == Line(results[i], link, pct)
  {
    seq(|results|, i requires 0 <= i < |results| => Line(results[i], link, pct))
  }

  /** `format_response`: nothing for no entries, the bare line for one entry,
      and for two or more every line behind a `- ` bullet, one per line. */
  function FormatResponse(results: seq<Entry>, link: string, pct: real -> string): (text: string)
    ensures |results| == 0 ==> text == ""
    ensures |results| == 1 ==> text == Line(results[0], link, pct)
    ensures |results| > 1 ==> text == Join("\n", Prefixed("- ", Lines(results, link, pct)))
  {
    var parts := Lines(results, link, pct);
    if |parts| > 1 then
      assert "\n" + "- " == "\n- ";
      JoinPrefixed("- ", "\n", parts);
      "- " + Join("\n- ", parts)
    else
      Join("\n", parts)
  }

  /** When no line contains a newline, the summary splits back into exactly
      one line per entry, in order, each bulleted when there are several; the
      empty summary of no entries is a single empty piece. */
  lemma FormatResponseSplitsIntoLines(results: seq<Entry>, link: string, pct: real -> string)
    requires forall i :: 0 <= i < |results| ==> '\n' !in Line(results[i], link, pct)
    ensures Split(FormatResponse(results, link, pct), '\n') ==
              if |results| == 0 then [""]
              else if |results| == 1 then [Line(results[0], link, pct)]
              else Prefixed("- ", Lines(results, link, pct))
  {
    assert ['\n'] == "\n";
    if |results| == 0 {
      SplitWithoutSeparator("", '\n');
    } else if |results| == 1 {
      SplitWithoutSeparator(Line(results[0], link, pct), '\n');
    } else {
      var bulleted := Prefixed("- ", Lines(results, link, pct));
      assert forall i :: 0 <= i < |bulleted| ==> '\n' !in bulleted[i];
      SplitJoin(bulleted, '\n');
    }
  }
}
