/**
 * The token-exploration session: a non-empty list of prompt buffers, a cursor on the
 * active one, the candidate list shown for the active prompt with a selection cursor into
 * it, and the explorer holding the active prompt's tokens. Every command is a pure function
 * from a session to the next; one that can be refused reports whether it ran.
 */
module Session {
  import opened Wrappers
  import opened Text
  import opened Sampling
  import opened FakeExplorer

  datatype Session = Session(
    prompts: seq<string>,
    promptIndex: int,
    selectedRow: int,
    displayed: seq<Candidate>,
    tokensToShow: int,
    explorer: Explorer)

  /** The outcome of a command that may be refused: whether it ran, and the session after it */
  datatype Step = Step(accepted: bool, next: Session)

  /**
   * The buffers agree with the explorer: at least one buffer, the cursor on one of them,
   * every buffer a prompt the explorer accepts, and the explorer holding the active buffer
   * and its tokens.
   */
  predicate Synced(s: Session) {
    && |s.prompts| >= 1
    && 0 <= s.promptIndex < |s.prompts|
    && (forall i :: 0 <= i < |s.prompts| ==> Parse(s.prompts[i]).Some?)
    && s.explorer.text == s.prompts[s.promptIndex]
    && Parse(s.explorer.text) == Some(s.explorer.tokens)
  }

  /**
   * The session invariant: the buffers agree with the explorer, the candidates are the ones
   * fetched for the active prompt, and the selected row lies inside the candidate list (0
   * when it is empty).
   */
  predicate Valid(s: Session) {
    && Synced(s)
    && s.displayed == TopN(s.explorer, s.tokensToShow)
    && 0 <= s.selectedRow
    && (s.selectedRow == 0 || s.selectedRow < |s.displayed|)
  }

  /**
   * Only the active buffer may differ: same buffer count, same cursor, the others untouched,
   * and the same candidate count and candidate table
   */
  predicate OnlyActiveChanged(s: Session, t: Session) {
    && |t.prompts| == |s.prompts|
    && t.promptIndex == s.promptIndex
    && t.tokensToShow == s.tokensToShow
    && t.explorer.top == s.explorer.top
    && forall j :: 0 <= j < |s.prompts| && j != s.promptIndex ==> t.prompts[j] == s.prompts[j]
  }

  /**
   * Python's `i % n` for a positive `n`, which the cursor updates use: the remainder lies in
   * `[0, n)` even for a negative `i`, as it does with Dafny's `%`.
   */
  function Wrap(i: int, n: int): (r: int)
    requires n > 0
    ensures 0 <= r < n
    ensures 0 <= i < n ==> r == i
    ensures i == -1 ==> r == n - 1
    ensures i == n ==> r == 0
  {
    i % n
  }

  /** `_refresh_tokens()`: fetch the candidates for the explorer's prompt and reset the selection */
  function Refresh(s: Session): (r: Session)
    ensures r.prompts == s.prompts && r.promptIndex == s.promptIndex
    ensures r.explorer == s.explorer && r.tokensToShow == s.tokensToShow
    ensures r.displayed == TopN(s.explorer, s.tokensToShow) && r.selectedRow == 0
    ensures Synced(s) ==> Valid(r)
  {
    s.(displayed := TopN(s.explorer, s.tokensToShow), selectedRow := 0)
  }

  /**
   * `TokenSession(explorer, prompt, tokens_to_show)`: one buffer holding `prompt`, both
   * cursors at 0, the explorer set to `prompt`; `None` where the explorer rejects the prompt.
   */
  function New(e: Explorer, prompt: string := "", tokensToShow: int := 30): (r: Option<Session>)
    ensures r.Some? <==> Parse(prompt).Some?
    ensures r.Some? ==> Valid(r.value)
    ensures r.Some? ==> r.value.prompts == [prompt] && r.value.promptIndex == 0 && r.value.selectedRow == 0
    ensures r.Some? ==> r.value.explorer.text == prompt && r.value.explorer.tokens == Parse(prompt).value
    ensures r.Some? ==> r.value.explorer.top == e.top && r.value.tokensToShow == tokensToShow
  {
    match SetPrompt(e, prompt)
    case None => None
    case Some(e') => Some(Refresh(Session([prompt], 0, 0, [], tokensToShow, e')))
  }

  /** Make buffer `index` of `prompts` the active one: the explorer is set to it and the candidates refreshed. */
  function SwitchTo(s: Session, prompts: seq<string>, index: int): (r: Session)
    requires 0 <= index < |prompts|
    requires forall i :: 0 <= i < |prompts| ==> Parse(prompts[i]).Some?
    ensures Valid(r)
    ensures r.prompts == prompts && r.promptIndex == index && r.selectedRow == 0
    ensures r.explorer.top == s.explorer.top && r.tokensToShow == s.tokensToShow
  {
    assert Parse(prompts[index]).Some?;
    var e := SetPrompt(s.explorer, prompts[index]).value;
    Refresh(s.(prompts := prompts, promptIndex := index, explorer := e))
  }

  /** Store the explorer's echo after it changed the active prompt, then refresh. */
  function Commit(s: Session, e: Explorer): (r: Session)
    requires Valid(s)
    requires Parse(e.text) == Some(e.tokens) && e.top == s.explorer.top
    ensures Valid(r) && OnlyActiveChanged(s, r)
    ensures r.prompts[r.promptIndex] == e.text && r.explorer == e && r.selectedRow == 0
    ensures r.tokensToShow == s.tokensToShow
  {
    Refresh(s.(prompts := s.prompts[s.promptIndex := e.text], explorer := e))
  }

  /**
   * `set_prompt_text(text)`: the active buffer becomes the explorer's echo of `text` and its
   * tokens those of `text`; `None` where the explorer rejects the text. The result's
   * `displayed` is the candidate list the source returns.
   */
  function SetPromptText(s: Session, text: string): (r: Option<Session>)
    requires Valid(s)
    ensures r.Some? <==> Parse(text).Some?
    ensures r.Some? ==> Valid(r.value) && OnlyActiveChanged(s, r.value)
    ensures r.Some? ==> r.value.prompts[s.promptIndex] == text && r.value.explorer.tokens == Parse(text).value
    ensures r.Some? ==> r.value.selectedRow == 0 && r.value.explorer.top == s.explorer.top
  {
    match SetPrompt(s.explorer, text)
    case None => None
    case Some(e) => Some(Commit(s, e))
  }

  /**
   * `add_prompt(max_prompts)`: refused, with no change, when a limit is given and already
   * reached; otherwise a copy of the active prompt is appended as the last buffer and the
   * cursor moves one forward, wrapping at the new buffer count. The cursor therefore lands
   * on the new buffer only when it was on the last one.
   */
  function AddPrompt(s: Session, maxPrompts: Option<int> := None): (r: Step)
    requires Valid(s)
    ensures Valid(r.next)
    ensures !r.accepted <==> maxPrompts.Some? && |s.prompts| >= maxPrompts.value
    ensures !r.accepted ==> r.next == s
    ensures r.accepted ==> |r.next.prompts| == |s.prompts| + 1
    ensures r.accepted ==> r.next.prompts[..|s.prompts|] == s.prompts
    ensures r.accepted ==> r.next.prompts[|s.prompts|] == s.explorer.text
    ensures r.accepted ==> r.next.promptIndex == Wrap(s.promptIndex + 1, |r.next.prompts|)
    ensures r.accepted ==> (r.next.promptIndex == |s.prompts| <==> s.promptIndex == |s.prompts| - 1)
    ensures r.accepted ==> r.next.selectedRow == 0 && r.next.explorer.top == s.explorer.top
    ensures r.accepted ==> r.next.tokensToShow == s.tokensToShow
  {
    if maxPrompts.Some? && |s.prompts| >= maxPrompts.value then Step(false, s)
    else
      var prompts := s.prompts + [s.explorer.text];
      assert prompts[..|s.prompts|] == s.prompts;
      Step(true, SwitchTo(s, prompts, Wrap(s.promptIndex + 1, |prompts|)))
  }

  /**
   * `remove_prompt()`: refused, with no change, when only one buffer is left; otherwise the
   * active buffer is deleted and the cursor moves one back, wrapping.
   */
  function RemovePrompt(s: Session): (r: Step)
    requires Valid(s)
    ensures Valid(r.next)
    ensures !r.accepted <==> |s.prompts| <= 1
    ensures !r.accepted ==> r.next == s
    ensures r.accepted ==> |r.next.prompts| == |s.prompts| - 1
    ensures r.accepted ==> r.next.prompts == s.prompts[..s.promptIndex] + s.prompts[s.promptIndex + 1..]
    ensures r.accepted ==> r.next.promptIndex == Wrap(s.promptIndex - 1, |s.prompts| - 1)
    ensures r.accepted ==> r.next.selectedRow == 0 && r.next.explorer.top == s.explorer.top
    ensures r.accepted ==> r.next.tokensToShow == s.tokensToShow
  {
    if |s.prompts| <= 1 then Step(false, s)
    else
      var prompts := s.prompts[..s.promptIndex] + s.prompts[s.promptIndex + 1..];
      assert forall i :: 0 <= i < |prompts| ==> prompts[i] == s.prompts[if i < s.promptIndex then i else i + 1];
      Step(true, SwitchTo(s, prompts, Wrap(s.promptIndex - 1, |prompts|)))
  }

  /** `increment_prompt()`: the next buffer, wrapping, becomes active; the buffers are untouched */
  function IncrementPrompt(s: Session): (r: Session)
    requires Valid(s)
    ensures Valid(r) && r.prompts == s.prompts
    ensures r.promptIndex == Wrap(s.promptIndex + 1, |s.prompts|)
    ensures r.selectedRow == 0 && r.explorer.top == s.explorer.top && r.tokensToShow == s.tokensToShow
  {
    SwitchTo(s, s.prompts, Wrap(s.promptIndex + 1, |s.prompts|))
  }

  /** `decrement_prompt()`: the previous buffer, wrapping, becomes active; the buffers are untouched */
  function DecrementPrompt(s: Session): (r: Session)
    requires Valid(s)
    ensures Valid(r) && r.prompts == s.prompts
    ensures r.promptIndex == Wrap(s.promptIndex - 1, |s.prompts|)
    ensures r.selectedRow == 0 && r.explorer.top == s.explorer.top && r.tokensToShow == s.tokensToShow
  {
    SwitchTo(s, s.prompts, Wrap(s.promptIndex - 1, |s.prompts|))
  }

  /**
   * `select_next_token()`: one row down, unless already on the last candidate (or the list
   * is empty); the candidates and the prompts are not touched.
   */
  function SelectNextToken(s: Session): (r: Step)
    ensures r.accepted <==> s.selectedRow < |s.displayed| - 1
    ensures r.accepted ==> r.next == s.(selectedRow := s.selectedRow + 1)
    ensures !r.accepted ==> r.next == s
    ensures Valid(s) ==> Valid(r.next)
  {
    if s.selectedRow < |s.displayed| - 1 then Step(true, s.(selectedRow := s.selectedRow + 1))
    else Step(false, s)
  }

  /** `select_prev_token()`: one row up, unless already on the first; nothing else changes. */
  function SelectPrevToken(s: Session): (r: Step)
    ensures r.accepted <==> s.selectedRow > 0
    ensures r.accepted ==> r.next == s.(selectedRow := s.selectedRow - 1)
    ensures !r.accepted ==> r.next == s
    ensures Valid(s) ==> Valid(r.next)
  {
    if s.selectedRow > 0 then Step(true, s.(selectedRow := s.selectedRow - 1))
    else Step(false, s)
  }

  /**
   * `append_selected_token()`: refused when no candidate is shown; otherwise the selected
   * candidate's id is appended to the active prompt, whose buffer takes the explorer's new
   * text, and the selection goes back to the top.
   */
  function AppendSelectedToken(s: Session): (r: Step)
    requires Valid(s)
    ensures Valid(r.next)
    ensures !r.accepted <==> s.displayed == []
    ensures !r.accepted ==> r.next == s
    ensures r.accepted ==> r.next.explorer.tokens == s.explorer.tokens + [s.displayed[s.selectedRow].tokenId]
    ensures r.accepted ==> OnlyActiveChanged(s, r.next) && r.next.selectedRow == 0
    ensures r.accepted ==> r.next.prompts[s.promptIndex] == r.next.explorer.text
    ensures r.accepted ==> r.next.prompts[s.promptIndex] == JoinTokens(r.next.explorer.tokens)
  {
    if s.displayed == [] then Step(false, s)
    else
      var e := AppendToken(s.explorer, s.displayed[s.selectedRow].tokenId);
      Step(true, Commit(s, e))
  }

  /** The candidates' probabilities, in display order: the weights handed to `random.choices` */
  function Weights(cs: seq<Candidate>): (ws: seq<real>)
    ensures |ws| == |cs|
  {
    seq(|cs|, i requires 0 <= i < |cs| => cs[i].probability)
  }

  predicate AnyPositive(cs: seq<Candidate>) {
    exists i :: 0 <= i < |cs| && cs[i].probability > 0.0
  }

  /**
   * `append_weighted_token()` when the session's random source returns `u`: refused when no
   * candidate is shown or none has a positive probability; otherwise the candidate whose
   * share of the total weight holds the draw is appended as by `append_selected_token`.
   * `None` where `random.choices` raises because the weights add up to zero or less, which
   * needs a negative probability.
   */
  function AppendWeightedToken(s: Session, u: Draw): (r: Option<Step>)
    requires Valid(s)
    ensures r.Some? ==> Valid(r.value.next)
    ensures r.None? <==> s.displayed != [] && AnyPositive(s.displayed) && Sum(Weights(s.displayed)) <= 0.0
    ensures r.None? ==> !NonNegative(Weights(s.displayed))
    ensures r.Some? && !r.value.accepted <==> s.displayed == [] || !AnyPositive(s.displayed)
    ensures r.Some? && !r.value.accepted ==> r.value.next == s
    ensures r.Some? && r.value.accepted ==> OnlyActiveChanged(s, r.value.next) && r.value.next.selectedRow == 0
    ensures r.Some? && r.value.accepted ==>
      r.value.next.prompts[s.promptIndex] == JoinTokens(r.value.next.explorer.tokens)
    ensures r.Some? && r.value.accepted ==>
      exists i :: 0 <= i < |s.displayed| && r.value.next.explorer.tokens == s.explorer.tokens + [s.displayed[i].tokenId]
    ensures r.Some? && r.value.accepted && NonNegative(Weights(s.displayed)) ==>
      exists i :: && 0 <= i < |s.displayed|
                  && Owns(Weights(s.displayed), i, Scale(u, Sum(Weights(s.displayed))))
                  && r.value.next.explorer.tokens == s.explorer.tokens + [s.displayed[i].tokenId]
  {
    if s.displayed == [] then Some(Step(false, s))
    else if !AnyPositive(s.displayed) then Some(Step(false, s))
    else
      var ws := Weights(s.displayed);
      match Choose(ws, u)
      case None =>
        NegativeWeightNeeded(s.displayed);
        None
      case Some(i) =>
        var e := AppendToken(s.explorer, s.displayed[i].tokenId);
        Some(Step(true, Commit(s, e)))
  }

  /** With no negative probability, one positive probability makes the total weight positive. */
  lemma NegativeWeightNeeded(cs: seq<Candidate>)
    requires |cs| > 0 && AnyPositive(cs)
    requires Sum(Weights(cs)) <= 0.0
    ensures !NonNegative(Weights(cs))
  {
    if NonNegative(Weights(cs)) {
      var k :| 0 <= k < |cs| && cs[k].probability > 0.0;
      PositiveWeightPositiveSum(Weights(cs), k);
    }
  }

  /**
   * `pop_token(min_tokens)`: refused, with no change, when the prompt has at most
   * `min_tokens` tokens; otherwise the last token is dropped. With a negative `min_tokens`
   * an empty prompt is accepted and nothing is dropped, as the explorer's pop then returns
   * `None`.
   */
  function PopToken(s: Session, minTokens: int := 1): (r: Step)
    requires Valid(s)
    ensures Valid(r.next)
    ensures !r.accepted <==> |s.explorer.tokens| <= minTokens
    ensures !r.accepted ==> r.next == s
    ensures r.accepted ==> OnlyActiveChanged(s, r.next) && r.next.selectedRow == 0
    ensures r.accepted && s.explorer.tokens != [] ==>
      r.next.explorer.tokens == s.explorer.tokens[..|s.explorer.tokens| - 1]
    ensures r.accepted && s.explorer.tokens != [] ==>
      r.next.prompts[s.promptIndex] == JoinTokens(r.next.explorer.tokens)
    ensures r.accepted && s.explorer.tokens == [] ==> r.next.explorer == s.explorer && r.next.prompts == s.prompts
  {
    if |s.explorer.tokens| <= minTokens then Step(false, s)
    else
      var (_, e) := FakeExplorer.PopToken(s.explorer);
      Step(true, Commit(s, e))
  }

  /** `get_prompt()`: the explorer's text, which is the active buffer */
  function GetPrompt(s: Session): (r: string)
    ensures Valid(s) ==> r == s.prompts[s.promptIndex]
  {
    s.explorer.text
  }

  /** `get_prompt_tokens()`: the tokens of the active buffer */
  function GetPromptTokens(s: Session): (r: seq<int>)
    ensures Valid(s) ==> Parse(s.prompts[s.promptIndex]) == Some(r)
  {
    s.explorer.tokens
  }

  /** `get_prompt_tokens_strings()`: one string per token of the active buffer, reading back as it */
  function GetPromptTokensStrings(s: Session): (r: seq<string>)
    ensures |r| == |GetPromptTokens(s)|
    ensures forall i :: 0 <= i < |r| ==> ParseInt(r[i]) == Some(GetPromptTokens(s)[i])
  {
    TokenStrings(s.explorer)
  }

  /** `get_prompt_token_probabilities()`: one probability per token of the active buffer */
  function GetPromptTokenProbabilities(s: Session): (r: seq<real>)
    ensures |r| == |GetPromptTokens(s)|
    ensures forall i :: 0 <= i < |r| ==> 0.0 <= r[i] <= 1.0
  {
    TokenProbabilities(s.explorer)
  }
}
