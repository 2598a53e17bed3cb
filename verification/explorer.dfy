/**
 * The explorer a session drives, in the shape of the test suite's stand-in for the language
 * model: it holds the prompt text as last set or re-synced, the integer tokens that text
 * denotes, and a fixed ranked table of next-token candidates.
 */
module FakeExplorer {
  import opened Wrappers
  import opened Text

  /** One next-token candidate, `{token_id, token, probability}`; a real stands in for the float */
  datatype Candidate = Candidate(tokenId: int, token: string, probability: real)

  datatype Explorer = Explorer(text: string, tokens: seq<int>, top: seq<Candidate>)

  /** The three candidates the test explorer always offers, best first */
  const FixedTop: seq<Candidate> := [
    Candidate(10, "A", 0.7),
    Candidate(20, "B", 0.2),
    Candidate(30, "C", 0.1)
  ]

  /** A fresh test explorer: empty prompt, no tokens, the three fixed candidates */
  function Fresh(): (e: Explorer)
    ensures e.text == "" && e.tokens == [] && Parse(e.text) == Some(e.tokens)
    ensures e.top == FixedTop
  {
    Explorer("", [], FixedTop)
  }

  function Min(a: int, b: int): int {
    if a <= b then a else b
  }

  function Max(a: int, b: int): int {
    if a <= b then b else a
  }

  /**
   * `set_prompt(text)`: the text is kept verbatim and the tokens are the integers of its
   * whitespace-separated fields; `None` where `int()` raises on a field.
   */
  function SetPrompt(e: Explorer, text: string): (r: Option<Explorer>)
    ensures r.Some? <==> Parse(text).Some?
    ensures r.Some? ==> r.value.text == text && r.value.top == e.top
    ensures r.Some? ==> Parse(r.value.text) == Some(r.value.tokens)
    ensures text == "" ==> r.Some? && r.value.tokens == []
  {
    if text == "" then Some(e.(text := "", tokens := []))
    else
      match Parse(text)
      case None => None
      case Some(ts) => Some(e.(text := text, tokens := ts))
  }

  /** The tokens `set_prompt` stores are the integers of the text's whitespace-separated fields, in order. */
  lemma SetPromptFields(e: Explorer, text: string)
    requires SetPrompt(e, text).Some?
    ensures |SetPrompt(e, text).value.tokens| == |Split(text)|
    ensures forall i :: 0 <= i < |Split(text)| ==>
      ParseInt(Split(text)[i]) == Some(SetPrompt(e, text).value.tokens[i])
  {
    var fields := Split(text);
    assert Parse(text) == ParseFields(fields);
  }

  /** `append_token(t)`: extend the tokens by `t` and re-sync the text to their space-join */
  function AppendToken(e: Explorer, t: int): (r: Explorer)
    ensures r.tokens == e.tokens + [t] && r.top == e.top
    ensures r.text == JoinTokens(r.tokens)
    ensures Parse(r.text) == Some(r.tokens)
  {
    var ts := e.tokens + [t];
    ParseJoinTokens(ts);
    e.(tokens := ts, text := JoinTokens(ts))
  }

  /**
   * `pop_token()`: `None` and no change on an empty token list; otherwise the last token,
   * with the list shortened by one and the text re-synced.
   */
  function PopToken(e: Explorer): (r: (Option<int>, Explorer))
    ensures e.tokens == [] ==> r == (None, e)
    ensures e.tokens != [] ==> r.0 == Some(e.tokens[|e.tokens| - 1])
    ensures e.tokens != [] ==> r.1.tokens == e.tokens[..|e.tokens| - 1]
    ensures e.tokens != [] ==> r.1.text == JoinTokens(r.1.tokens) && Parse(r.1.text) == Some(r.1.tokens)
    ensures r.1.top == e.top
  {
    if e.tokens == [] then (None, e)
    else
      var ts := e.tokens[..|e.tokens| - 1];
      ParseJoinTokens(ts);
      (Some(e.tokens[|e.tokens| - 1]), e.(tokens := ts, text := JoinTokens(ts)))
  }

  /** `get_top_n_tokens(n)`: Python's slice `top[:n]`, which for negative `n` drops `-n` from the end */
  function TopN(e: Explorer, n: int): (r: seq<Candidate>)
    ensures r <= e.top
    ensures n >= 0 ==> |r| == Min(n, |e.top|)
    ensures n < 0 ==> |r| == Max(0, |e.top| + n)
  {
    if n >= 0 then e.top[..Min(n, |e.top|)] else e.top[..Max(0, |e.top| + n)]
  }

  /** `get_prompt_tokens_strings()`: one decimal string per token, each reading back as that token */
  function TokenStrings(e: Explorer): (r: seq<string>)
    ensures |r| == |e.tokens|
    ensures forall i :: 0 <= i < |r| ==> ParseInt(r[i]) == Some(e.tokens[i])
  {
    forall i | 0 <= i < |e.tokens| ensures ParseInt(IntStrings(e.tokens)[i]) == Some(e.tokens[i]) {
      ParseIntString(e.tokens[i]);
    }
    IntStrings(e.tokens)
  }

  /** `get_prompt_token_probabilities()`: the test explorer assigns 0.5 to every position */
  function TokenProbabilities(e: Explorer): (r: seq<real>)
    ensures |r| == |e.tokens|
    ensures forall i :: 0 <= i < |r| ==> r[i] == 0.5
  {
    seq(|e.tokens|, i => 0.5)
  }

  /** Popping right after appending `t` gives `t` back and restores the tokens, and the text too when it was already their space-join. */
  lemma PopAfterAppend(e: Explorer, t: int)
    ensures PopToken(AppendToken(e, t)).0 == Some(t)
    ensures PopToken(AppendToken(e, t)).1.tokens == e.tokens
    ensures e.text == JoinTokens(e.tokens) ==> PopToken(AppendToken(e, t)).1 == e
  {
    assert (e.tokens + [t])[..|e.tokens|] == e.tokens;
  }

  /** Setting the space-join of a token list gives exactly those tokens. */
  lemma SetPromptJoin(e: Explorer, ts: seq<int>)
    ensures SetPrompt(e, JoinTokens(ts)) == Some(e.(text := JoinTokens(ts), tokens := ts))
  {
    ParseJoinTokens(ts);
  }

  /** The test explorer's candidate query returns the first `min(n, 3)` fixed candidates, in order. */
  lemma FreshTopN(n: int)
    requires n >= 0
    ensures TopN(Fresh(), n) == FixedTop[..Min(n, 3)]
  {
  }
}
