/**
 * The session test scenarios, run against the test explorer with `tokens_to_show = 3`.
 */
module Scenarios {
  import opened Wrappers
  import opened Text
  import opened Sampling
  import FakeExplorer
  import opened Session

  lemma Digits()
    ensures IntString(0) == "0" && IntString(1) == "1" && IntString(2) == "2"
    ensures IntString(3) == "3" && IntString(4) == "4" && IntString(5) == "5"
    ensures IntString(20) == "20"
  {
    assert DigitChar(0) == '0' && DigitChar(1) == '1' && DigitChar(2) == '2';
    assert DigitChar(3) == '3' && DigitChar(4) == '4' && DigitChar(5) == '5';
    assert NatString(20) == NatString(2) + [DigitChar(0)];
  }

  lemma JoinPair(a: int, b: int)
    ensures JoinTokens([a, b]) == IntString(a) + " " + IntString(b)
  {
    var ss := IntStrings([a, b]);
    assert ss == [IntString(a), IntString(b)];
    assert ss[1..] == [IntString(b)];
    assert JoinSpaced(ss[1..]) == IntString(b);
    assert JoinSpaced(ss) == ss[0] + " " + JoinSpaced(ss[1..]);
  }

  lemma JoinTriple(a: int, b: int, c: int)
    ensures JoinTokens([a, b, c]) == IntString(a) + " " + IntString(b) + " " + IntString(c)
  {
    var ss := IntStrings([a, b, c]);
    assert ss == [IntString(a), IntString(b), IntString(c)];
    assert ss[1..] == [IntString(b), IntString(c)];
    assert ss[1..][1..] == [IntString(c)];
    assert JoinSpaced(ss[1..][1..]) == IntString(c);
    assert JoinSpaced(ss[1..]) == IntString(b) + " " + IntString(c);
    assert JoinSpaced(ss) == ss[0] + " " + JoinSpaced(ss[1..]);
  }

  lemma Text12()
    ensures JoinTokens([1, 2]) == "1 2" && Parse("1 2") == Some([1, 2])
  {
    Digits();
    JoinPair(1, 2);
    ParseJoinTokens([1, 2]);
  }

  lemma Text34()
    ensures Parse("3 4") == Some([3, 4])
  {
    Digits();
    JoinPair(3, 4);
    ParseJoinTokens([3, 4]);
  }

  lemma Text5()
    ensures Parse("5") == Some([5])
  {
    Digits();
    assert IntStrings([5]) == ["5"];
    ParseJoinTokens([5]);
  }

  lemma Text1()
    ensures JoinTokens([1]) == "1"
  {
    Digits();
    assert IntStrings([1]) == ["1"];
  }

  lemma Text1220()
    ensures JoinTokens([1, 2, 20]) == "1 2 20"
  {
    Digits();
    JoinTriple(1, 2, 20);
  }

  /** With the default arguments the session holds one empty buffer, no tokens, and shows all three candidates. */
  lemma DefaultSession()
    ensures New(FakeExplorer.Fresh()).Some?
    ensures var s := New(FakeExplorer.Fresh()).value;
      s.prompts == [""] && s.tokensToShow == 30 && s.explorer.tokens == [] && s.displayed == FakeExplorer.FixedTop
  {
    assert Split("") == [];
    assert Parse("") == Some([]);
  }

  /** A second buffer, at most two: a copy of "1 2", which the cursor moves to. */
  lemma AddStage(s: Session)
    requires Valid(s) && s.prompts == ["1 2"] && s.promptIndex == 0
    ensures var a := AddPrompt(s, Some(2));
      a.accepted && a.next.prompts == ["1 2", "1 2"] && a.next.promptIndex == 1
  {
    var a := AddPrompt(s, Some(2));
    assert a.next.prompts[..1] == ["1 2"] && a.next.prompts[1] == "1 2";
  }

  /** The copy's text becomes "3 4"; the first buffer is untouched. */
  lemma EditStage(a: Session)
    requires Valid(a) && a.prompts == ["1 2", "1 2"] && a.promptIndex == 1
    ensures SetPromptText(a, "3 4").Some?
    ensures var b := SetPromptText(a, "3 4").value;
      b.prompts == ["1 2", "3 4"] && b.promptIndex == 1
  {
    Text34();
    var b := SetPromptText(a, "3 4").value;
    assert b.prompts[0] == "1 2" && b.prompts[1] == "3 4";
  }

  /** Removing the active second buffer leaves "1 2", active. */
  lemma RemoveStage(b: Session)
    requires Valid(b) && b.prompts == ["1 2", "3 4"] && b.promptIndex == 1
    ensures var c := RemovePrompt(b);
      c.accepted && c.next.prompts == ["1 2"] && c.next.promptIndex == 0 && GetPrompt(c.next) == "1 2"
  {
    var c := RemovePrompt(b);
    assert c.next.prompts == b.prompts[..1] + b.prompts[2..];
  }

  /**
   * Seeded with "1 2": adding a buffer (at most two) gives ["1 2", "1 2"] with the cursor on
   * the copy; setting its text to "3 4" stores that; removing it leaves ["1 2"], active.
   */
  lemma AddRemoveScenario()
    ensures New(FakeExplorer.Fresh(), "1 2", 3).Some?
    ensures var s := New(FakeExplorer.Fresh(), "1 2", 3).value;
      && s.prompts == ["1 2"] && s.promptIndex == 0
      && var a := AddPrompt(s, Some(2));
      && a.accepted && a.next.prompts == ["1 2", "1 2"] && a.next.promptIndex == 1
      && SetPromptText(a.next, "3 4").Some?
      && var b := SetPromptText(a.next, "3 4").value;
      && b.prompts[1] == "3 4"
      && var c := RemovePrompt(b);
      && c.accepted && c.next.prompts == ["1 2"] && c.next.promptIndex == 0
      && GetPrompt(c.next) == "1 2"
  {
    Text12();
    var s := New(FakeExplorer.Fresh(), "1 2", 3).value;
    AddStage(s);
    var a := AddPrompt(s, Some(2));
    EditStage(a.next);
    RemoveStage(SetPromptText(a.next, "3 4").value);
  }

  /** With candidates 10, 20, 30 shown and the first selected, one row down selects the second. */
  lemma SelectStage(s: Session)
    requires Valid(s) && s.displayed == FakeExplorer.FixedTop && s.selectedRow == 0
    ensures var a := SelectNextToken(s);
      a.accepted && a.next.selectedRow == 1 && a.next.displayed == FakeExplorer.FixedTop
      && a.next.explorer == s.explorer
  {
  }

  /** Appending the second candidate, id 20, to the prompt "1 2" gives "1 2 20". */
  lemma AppendStage(a: Session)
    requires Valid(a) && a.displayed == FakeExplorer.FixedTop && a.selectedRow == 1
    requires a.explorer.tokens == [1, 2]
    ensures var b := AppendSelectedToken(a);
      b.accepted && b.next.selectedRow == 0 && GetPrompt(b.next) == "1 2 20"
  {
    Text1220();
    var b := AppendSelectedToken(a);
    assert a.displayed[1].tokenId == 20;
    assert b.next.explorer.tokens == [1, 2, 20];
    assert b.next.explorer.text == JoinTokens([1, 2, 20]);
  }

  /**
   * Seeded with "1 2": moving the selection down reaches row 1; appending the selected
   * candidate (id 20) resets the row and makes the prompt "1 2 20".
   */
  lemma SelectAppendScenario()
    ensures New(FakeExplorer.Fresh(), "1 2", 3).Some?
    ensures var s := New(FakeExplorer.Fresh(), "1 2", 3).value;
      && var a := SelectNextToken(s);
      && a.accepted && a.next.selectedRow == 1
      && var b := AppendSelectedToken(a.next);
      && b.accepted && b.next.selectedRow == 0
      && GetPrompt(b.next) == "1 2 20"
  {
    Text12();
    var s := New(FakeExplorer.Fresh(), "1 2", 3).value;
    assert s.displayed == FakeExplorer.FixedTop;
    SelectStage(s);
    AppendStage(SelectNextToken(s).next);
  }

  /**
   * Seeded with "5": whatever the random source returns, a weighted append succeeds, adds
   * one token, and that token is one of the candidates 10, 20, 30.
   */
  lemma WeightedScenario(u: Draw)
    ensures New(FakeExplorer.Fresh(), "5", 3).Some?
    ensures var s := New(FakeExplorer.Fresh(), "5", 3).value;
      && AppendWeightedToken(s, u).Some?
      && var a := AppendWeightedToken(s, u).value;
      && a.accepted
      && |GetPromptTokens(a.next)| == |GetPromptTokens(s)| + 1
      && GetPromptTokens(a.next)[|GetPromptTokens(a.next)| - 1] in {10, 20, 30}
  {
    Text5();
    var s := New(FakeExplorer.Fresh(), "5", 3).value;
    assert s.explorer.tokens == [5];
    assert s.displayed == FakeExplorer.FixedTop;
    assert s.displayed[0].probability > 0.0;
    assert AnyPositive(s.displayed);
    assert NonNegative(Weights(s.displayed));
    var r := AppendWeightedToken(s, u);
    assert r.Some? && r.value.accepted;
    var t := r.value.next.explorer.tokens;
    var i :| 0 <= i < 3 && t == [5] + [s.displayed[i].tokenId];
    assert t[1] == s.displayed[i].tokenId;
  }

  /** Seeded with "1 2": popping down to one token succeeds and leaves "1"; a second pop is refused. */
  lemma PopScenario()
    ensures New(FakeExplorer.Fresh(), "1 2", 3).Some?
    ensures var s := New(FakeExplorer.Fresh(), "1 2", 3).value;
      && var a := PopToken(s, 1);
      && a.accepted && GetPrompt(a.next) == "1"
      && var b := PopToken(a.next, 1);
      && !b.accepted && GetPrompt(b.next) == "1"
  {
    Text12();
    Text1();
    var s := New(FakeExplorer.Fresh(), "1 2", 3).value;
    assert s.explorer.tokens == [1, 2];
    var a := PopToken(s, 1);
    assert a.accepted;
    assert a.next.explorer.tokens == [1];
    assert a.next.explorer.text == JoinTokens([1]);
    var b := PopToken(a.next, 1);
    assert !b.accepted;
  }
}
