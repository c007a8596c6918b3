/** Worked examples of list creation and of a sequential practice session. */
module Examples {
  import opened Wrappers
  import opened Sequences
  import opened Text
  import opened ListStore
  import opened Practice

  lemma JoinExample()
    ensures JoinLines(["chat", "", "chien ", ""]) == "chat\n\nchien \n"
  {
    var lines := ["chat", "", "chien ", ""];
    assert lines[1..][1..][1..] == [""];
    assert lines[1..][1..] == ["chien ", ""];
    assert lines[1..] == ["", "chien ", ""];
  }

  lemma LeadingExample()
    ensures Leading("chien ") == 0
  {
  }

  lemma TrailingExample()
    ensures Trailing("chien ") == 1
  {
    assert Trailing("chien") == 0;
  }

  lemma MapFour<A, B>(xs: seq<A>, f: A -> B)
    requires |xs| == 4
    ensures Map(xs, f) == [f(xs[0]), f(xs[1]), f(xs[2]), f(xs[3])]
  {
  }

  lemma TrimExample()
    ensures Trim("chien ") == "chien"
  {
    LeadingExample();
    TrailingExample();
  }

  lemma TrimmedFour()
    ensures [Trim("chat"), Trim(""), Trim("chien "), Trim("")] == ["chat", "", "chien", ""]
  {
    TrimOfTrimmed("chat");
    TrimOfTrimmed("");
    TrimExample();
  }

  lemma TrimLinesExample()
    ensures Map(["chat", "", "chien ", ""], Trim) == ["chat", "", "chien", ""]
  {
    MapFour(["chat", "", "chien ", ""], Trim);
    TrimmedFour();
  }

  lemma FilterExample()
    ensures Filter(["chat", "", "chien", ""], NonEmpty) == ["chat", "chien"]
  {
    var ws := ["chat", "", "chien", ""];
    assert ws[1..] == ["", "chien", ""];
    assert ws[1..][1..] == ["chien", ""];
    assert ws[1..][1..][1..] == [""];
    assert Filter([""], NonEmpty) == [];
  }

  /** A blank line is dropped and surrounding whitespace is trimmed. */
  lemma ParseExample()
    ensures ParseWords("chat\n\nchien \n") == ["chat", "chien"]
  {
    JoinExample();
    ParseWordsOfLines(["chat", "", "chien ", ""]);
    TrimLinesExample();
    FilterExample();
  }

  /** Creating "Animaux" from that text gives a list of two words. */
  lemma CreateExample(id: string, colorRoll: real, createdAt: int)
    requires 0.0 <= colorRoll < 1.0
    ensures var r := NewList("Animaux", "chat\n\nchien \n", id, colorRoll, createdAt);
      r.Success? && r.value.name == "Animaux" && r.value.words == ["chat", "chien"]
  {
    NotBlank("Animaux");
    NotBlank("chat\n\nchien \n");
    ParseExample();
  }

  lemma NotBlank(s: string)
    requires s != [] && !IsWhitespace(s[0])
    ensures Trim(s) != []
  {
  }

  /** Three words, sequential, three seconds per word: every three seconds
      the next word is shown, and after nine seconds the first one again. */
  lemma SessionExample(rolls: seq<real>)
    requires ValidRolls(rolls) && |rolls| == 9
    ensures var lists := [WordList("1", "Animaux", ["chat", "chien", "oiseau"], "bg-blue-500", 0)];
      var s := Start(lists, None, "1", false, 3, 0.0);
      s == Some(Session("1", 0, true, false, 3, 3, 0, 3)) &&
      RunTimer(lists, s, rolls[..3]) == Some(Session("1", 1, true, false, 3, 3, 1, 3)) &&
      RunTimer(lists, s, rolls[..6]) == Some(Session("1", 2, true, false, 3, 3, 2, 3)) &&
      RunTimer(lists, s, rolls) == Some(Session("1", 0, true, false, 3, 3, 3, 3)) &&
      CurrentWord(lists, RunTimer(lists, s, rolls[..6])) == "oiseau"
  {
    var l := WordList("1", "Animaux", ["chat", "chien", "oiseau"], "bg-blue-500", 0);
    var lists := [l];
    assert Find(lists, "1") == Some(l);
    var s := Session("1", 0, true, false, 3, 3, 0, 3);
    SequentialCycles(lists, s, l, rolls[..3], 1);
    SequentialCycles(lists, s, l, rolls[..6], 2);
    SequentialCycles(lists, s, l, rolls, 3);
  }
}
