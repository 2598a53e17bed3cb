# TokenSession, modelled in Dafny

This project models `TokenSession`, the UI-independent core of the token explorer. A session
holds a non-empty list of prompt buffers and a cursor on the active one. It also holds the
top-N candidate list fetched for the active prompt, a selection cursor into that list, and an
explorer that owns the active prompt's tokens. Every command follows the same pattern:

1. check a guard, and report `false` with nothing changed when it fails;
2. change the explorer;
3. copy the explorer's echo of the prompt back into the active buffer;
4. refetch the candidates;
5. put the selection back on the first row.

The explorer is the test suite's `FakeExplorer`:

- its prompt text splits into integer tokens;
- appending or popping a token re-syncs the text to the space-join of the tokens;
- its candidate table is the fixed list (10, "A", 0.7), (20, "B", 0.2), (30, "C", 0.1).

The four session scenarios of the test file are proved as lemmas.

Files:

- `wrappers.dfy` (`Wrappers`): `Option`.
- `text.dfy` (`Text`): the parts of Python's string handling the test explorer relies on.
  - `str.split()` with Python's whitespace set.
  - `int()` on ASCII digits, with an optional sign and single underscores between digits.
  - `str()` of an integer, and `" ".join`.
  - The round trip `Parse(JoinTokens(ts)) == Some(ts)`.
- `sampling.dfy` (`Sampling`): `random.choices` with one draw, as CPython 3.9+ computes it.
  - It accumulates the weights and raises `ValueError` when the total is not positive.
  - Otherwise it picks `bisect_right(cum, random() * total, 0, n - 1)`.
  - The draw `random()` is a parameter `u` in `[0, 1)`. With non-negative weights, `Choose`
    proves that the chosen index is the one whose share of the total holds `u * total`, and
    that this share has positive weight.
- `explorer.dfy` (`FakeExplorer`): the test explorer as an immutable record.
- `session.dfy` (`Session`): the session record, its invariant `Valid`, and one function per
  command. A command that can be refused returns `Step(accepted, next)`.
  - `Synced` says: there is at least one buffer; the cursor is in range; every buffer is a
    prompt the explorer accepts; the explorer holds the active buffer and its tokens.
  - `Valid` adds: the displayed candidates are the ones fetched for the active prompt; the
    selected row lies inside the list, or is 0 when the list is empty.
  - `New` establishes `Valid`, and every command preserves it.
- `session_lemmas.dfy` (`SessionLemmas`): properties that relate several commands.
  - inverses (next/previous buffer, row down/up, append/pop);
  - the add/remove round trip, exactly when it holds, and a concrete case where it fails;
  - the invariant along any sequence of commands.
- `scenarios.dfy` (`Scenarios`): the four scenario tests, proved as lemmas.

Behaviour followed as written:

- `add_prompt` appends the copy at the end of the list but moves the cursor to
  `(old + 1) % len`. So the cursor lands on the new buffer only when it was on the last one.
  - `SessionLemmas.AddThenRemoveFromLast` proves that from the last buffer, `remove_prompt`
    undoes `add_prompt`.
  - From any other buffer, `SessionLemmas.AddThenRemoveOffLast` shows that the buffer after the
    active one is deleted and the copy stays at the end; the cursor comes back.
  - `SessionLemmas.AddThenRemoveOffLastRestores` proves that the buffers still come back
    exactly when the active buffer and every later one hold the same text.
  - `SessionLemmas.AddThenRemoveLosesBuffer` gives a concrete failure: buffers "1", "2" with
    the cursor on the first become "1", "1".
- `pop_token(min_tokens)` with a negative `min_tokens` on an empty prompt reports `true`. The
  explorer's `pop_token` returns `None` and changes nothing, so the session only rewrites the
  active buffer with its own text and refreshes.

Outside effects:

- An exception the explorer raises becomes `None`: `int()` on a field that is not an integer
  raises `ValueError`. The same holds for an exception from `random.choices`.
- The random source is the parameter `u`.

## Model

| member | source | states |
|---|---|---|
| `Session.New` | src/session.py:7-18 | Construction succeeds exactly when the explorer accepts the prompt. The result is valid, holds the single buffer `[prompt]` with both cursors at 0, and the explorer is set to `prompt` and its tokens. |
| `Session.Refresh` | src/session.py:20-23 | The candidates become the first `tokens_to_show` of the explorer's table and the selection goes to row 0. Buffers, cursor, explorer and configuration are kept. A session whose buffers agree with its explorer becomes valid. |
| `Session.SetPromptText` | src/session.py:25-28 | Succeeds exactly when the text parses. The active buffer becomes the text and the explorer's tokens become the text's tokens. Only the active buffer changes; the candidate count and table are kept; the selection is reset; the invariant is kept. |
| `Session.AddPrompt` | src/session.py:30-37 | Refused, with the session unchanged, exactly when a limit is given and already reached. Otherwise one buffer is added, the old buffers are kept as a prefix, and the new last buffer is the explorer's prompt. The cursor becomes `(old + 1) mod new length`, which is the new buffer exactly when the old cursor was on the last one. The candidate count and table are kept, and the invariant is kept. |
| `Session.RemovePrompt` | src/session.py:39-46 | Refused, with the session unchanged, exactly when one buffer is left. Otherwise the active buffer is deleted and the others keep their order. The cursor becomes `(old - 1) mod new length`. The candidate count and table are kept, and the invariant is kept. |
| `Session.IncrementPrompt` | src/session.py:48-51 | The buffers are unchanged, the cursor becomes `(old + 1) mod length`, the selection is reset, and the invariant is kept. |
| `Session.DecrementPrompt` | src/session.py:53-56 | The buffers are unchanged, the cursor becomes `(old - 1) mod length`, the selection is reset, and the invariant is kept. |
| `Session.Wrap` | src/session.py:34 | Python's `%` with a positive divisor is in `[0, n)`. It is the identity on `[0, n)`, maps -1 to `n - 1`, and maps `n` to 0. |
| `Session.SelectNextToken` | src/session.py:58-62 | Accepted exactly when the row is not yet on the last candidate. Accepted means the row moves down by one and nothing else changes; refused means nothing changes. A valid session stays valid. |
| `Session.SelectPrevToken` | src/session.py:64-68 | Accepted exactly when the row is above 0. Accepted means the row moves up by one and nothing else changes; refused means nothing changes. A valid session stays valid. |
| `Session.AppendSelectedToken` | src/session.py:70-77 | Refused, with nothing changed, exactly when no candidate is shown. Otherwise the selected candidate's id is appended to the explorer's tokens, and the active buffer becomes the space-join of the new tokens. Only that buffer changes, the candidate count and table are kept, and the selection is reset. |
| `Session.AppendWeightedToken` | src/session.py:79-89 | Refused, with nothing changed, exactly when no candidate is shown or none has positive probability. Otherwise it raises (`None`) exactly when the probabilities add up to zero or less, which needs a negative probability. On success exactly one token is appended, and it is a displayed candidate's id. With non-negative probabilities it is the candidate whose share of the total holds the draw, and that candidate has positive probability. The active buffer becomes the space-join of the new tokens. Only that buffer changes, and the candidate count and table are kept. |
| `Session.NegativeWeightNeeded` | src/session.py:83-85 | A positive probability, with no negative ones, makes the total weight positive. So `random.choices` can raise here only when some probability is negative. |
| `Session.PopToken` | src/session.py:91-97 | Refused, with nothing changed, exactly when the prompt has at most `min_tokens` tokens. Otherwise the last token is dropped and the active buffer becomes the space-join of the remaining tokens. Only that buffer changes, and the candidate count and table are kept. On an empty prompt (negative floor) the explorer and buffers are unchanged. |
| `Session.GetPrompt` | src/session.py:99-100 | For a valid session this is the active buffer. |
| `Session.GetPromptTokens` | src/session.py:102-103 | For a valid session these are the tokens the active buffer parses to. |
| `Session.GetPromptTokensStrings` | src/session.py:105-106 | One string per prompt token, and each string reads back as its token. |
| `Session.GetPromptTokenProbabilities` | src/session.py:108-109 | One probability per prompt token, each in `[0, 1]`. |
| `FakeExplorer.Fresh` | tests/test_session.py:7-14 | A new test explorer has an empty prompt and no tokens, which agree, and offers the three fixed candidates. |
| `FakeExplorer.SetPrompt` | tests/test_session.py:16-22 | Succeeds exactly when every field of the text is an integer. The text is stored verbatim, the candidate table is kept, and the stored tokens are what the text parses to. An empty text gives no tokens. |
| `FakeExplorer.SetPromptFields` | tests/test_session.py:19 | The stored tokens are, one by one and in order, the integers of the text's whitespace-separated fields. |
| `FakeExplorer.AppendToken` | tests/test_session.py:36-39 | The tokens are extended by `t` at the end and the table is kept. The text is re-synced to the space-join of `str` of each token, and it parses back to the tokens. |
| `FakeExplorer.PopToken` | tests/test_session.py:41-46 | An empty token list gives `None` and no change. Otherwise the result is the last token and the list is shortened by one. The text is re-synced to the space-join of the remaining tokens, and it parses back to them. |
| `FakeExplorer.TopN` | tests/test_session.py:48-49 | The result is a prefix of the candidate table. Its length follows Python's slice `[:n]`: `min(n, 3)` for `n >= 0`, and it drops `-n` from the end for negative `n`. |
| `FakeExplorer.FreshTopN` | tests/test_session.py:10-14 | For `n >= 0`, the fresh explorer returns the first `min(n, 3)` fixed candidates, in order. |
| `FakeExplorer.TokenStrings` | tests/test_session.py:30-31 | One decimal string per token, and each one parses back to its token. |
| `FakeExplorer.TokenProbabilities` | tests/test_session.py:33-34 | One probability per token, and each is 0.5. |
| `FakeExplorer.PopAfterAppend` | tests/test_session.py:36-46 | Popping right after appending `t` returns `t` and restores the tokens. It restores the whole explorer when its text was already the join of its tokens. |
| `FakeExplorer.SetPromptJoin` | tests/test_session.py:16-22 | Setting the space-join of a token list gives exactly those tokens. |
| `Text.Split` | tests/test_session.py:19 | `str.split()` yields only non-empty words that contain no Python whitespace. |
| `Text.JoinSpaced` | tests/test_session.py:52 | `" ".join` of no words is empty and of one word is that word. Otherwise its length is the words' lengths added up plus one space per gap. |
| `Text.IntString` | tests/test_session.py:31 | `str(t)` is non-empty and has no whitespace, and it starts with a minus sign exactly when `t` is negative. |
| `Text.ParseInt` | tests/test_session.py:19 | `int()` succeeds only on a non-empty field without whitespace, and a negative result needs a leading minus. Every non-empty run of ASCII digits parses to a non-negative integer. |
| `Text.ParseJoinTokens` | tests/test_session.py:51-52 | Splitting and parsing the space-join of `str(t)` for each token gives the tokens back. |
| `Text.ParseIntString` | tests/test_session.py:31 | `int(str(t)) == t` for every integer. |
| `Text.SplitJoinSpaced` | tests/test_session.py:19 | Splitting the space-join of non-empty, space-free words gives the words back. |
| `Text.ParseFields` | tests/test_session.py:19 | The list comprehension succeeds exactly when every field parses. The result has one integer per field, each the value of its field. |
| `Sampling.Choose` | src/session.py:85 | Raises (`None`) exactly when the total weight is not positive, and otherwise returns an index in range. With non-negative weights it is the index whose share of the total holds `u * total`, and that index has positive weight. |
| `Sampling.BisectRight` | src/session.py:85 | `bisect_right(a, x, lo, hi)` returns a point between `lo` and `hi`. |
| `Sampling.BisectRightSplits` | src/session.py:85 | `bisect_right` on a sorted list between `lo` and `hi` returns the point where the elements stop being at most `x`. |
| `SessionLemmas.AddThenRemoveFromLast` | src/session.py:30-46 | From the last buffer, `add_prompt` followed by `remove_prompt` restores the buffers and the cursor; only the selection is reset. |
| `SessionLemmas.AddThenRemoveOffLast` | src/session.py:33-34 | From any other buffer, the pair deletes the buffer after the active one and keeps the copy at the end, with the cursor back where it was. |
| `SessionLemmas.AddThenRemoveOffLastRestores` | src/session.py:30-46 | From any other buffer, the pair gives back the same buffers exactly when the active buffer and every later one hold the same text. |
| `SessionLemmas.AddThenRemoveLosesBuffer` | src/session.py:33-43 | With buffers "1", "2" and the cursor on the first, adding with no limit and then removing gives "1", "1", not the original buffers. |
| `SessionLemmas.IncrementThenDecrement` | src/session.py:48-56 | Next buffer then previous buffer returns the same session, with the selection reset. |
| `SessionLemmas.DecrementThenIncrement` | src/session.py:48-56 | Previous buffer then next buffer returns the same session, with the selection reset. |
| `SessionLemmas.SelectNextThenPrev` | src/session.py:58-68 | An accepted row-down followed by row-up is accepted and gives back the same session. |
| `SessionLemmas.AppendSelectedThenPop` | src/session.py:70-97 | When the active buffer is the join of its tokens, appending the selected candidate and popping it restores the session, with the selection reset. |
| `SessionLemmas.PopTokenRemovesOne` | src/session.py:91-97 | With a non-negative floor, `pop_token` is accepted exactly when there are more tokens than the floor, and then removes exactly one. |
| `SessionLemmas.ValidSessionDetermined` | src/session.py:20-23 | A valid session is determined by its buffers, cursors, configuration and candidate table. |
| `SessionLemmas.Apply` | src/session.py:25-97 | From a valid session, any single command keeps the session invariant, and only a text edit or a weighted append can raise. |
| `SessionLemmas.Run` | src/session.py:25-97 | Any sequence of commands keeps the session invariant. |
| `SessionLemmas.BuffersNeverEmpty` | src/session.py:39-43 | After any sequence of commands from a new session there is at least one buffer, and the cursor is on one of them. |
| `Scenarios.DefaultSession` | src/session.py:7-18 | With the default arguments, a new session holds one empty buffer with no tokens, `tokens_to_show` is 30, and all three test candidates are shown. |
| `Scenarios.AddRemoveScenario` | tests/test_session.py:55-72 | Seeded with "1 2": add (at most two) gives `["1 2", "1 2"]` at index 1; setting "3 4" stores it at index 1; remove gives `["1 2"]` at index 0 and the prompt "1 2". |
| `Scenarios.SelectAppendScenario` | tests/test_session.py:75-84 | Seeded with "1 2": row down gives row 1; appending the selected candidate gives row 0 and the prompt "1 2 20". |
| `Scenarios.WeightedScenario` | tests/test_session.py:87-97 | Seeded with "5", for every draw: the weighted append succeeds, adds exactly one token, and the new token is 10, 20 or 30. |
| `Scenarios.PopScenario` | tests/test_session.py:100-106 | Seeded with "1 2": `pop_token(1)` is accepted and leaves "1"; a second `pop_token(1)` is refused and leaves "1". |

## Left out

- src/gui.py: page construction, rendering and event wiring for the web UI; the asyncio
  "continue" loop, which is concurrency; and end-token lookup, which depends on tokenizer
  internals. Its `append_token` handler goes around the session commands and is not modelled.
- src/utils.py: floating-point colour mapping for display only.
- The real `Explorer` (language-model inference and the tokenizer) is not part of this model.
  The session is modelled against the test explorer only.
- Floating point: probabilities and the draw are real numbers. Rounding in `random.choices`'
  accumulation and in `random() * total` is not modelled. The distribution of the random
  source is not modelled either; the draw is a parameter.
- Text.ParseIntString: CPython's default limit on integer-string conversion is not modelled.
  `int()` and `str()` raise ValueError beyond 4300 digits. So `int(str(t)) == t` holds in
  Python only for `t` with at most 4300 digits.
- FakeExplorer.SetPrompt: accepts an integer field of any length, while CPython's default
  `int()` rejects fields of more than 4300 digits, so Python raises where the model succeeds.
- `int()`: Python also accepts non-ASCII Unicode decimal digits and surrounding whitespace
  inside a field. Fields come from `str.split()` and carry no whitespace. The model accepts
  only ASCII digits, so a prompt with other Unicode digits is treated as rejected.
- FakeExplorer.SetPrompt: when `int()` raises partway through, the test explorer has already
  stored the new text but keeps its old tokens. The model reports the failure as `None` and
  leaves the explorer unchanged.
- The session's `rng` argument and its default `random.Random()` are not modelled; the draw
  is passed to `AppendWeightedToken` instead. The other defaults are modelled as Dafny default
  parameters: `prompt = ""` and `tokens_to_show = 30` on `New`, `max_prompts = None` on
  `AddPrompt`, and `min_tokens = 1` on `PopToken`.
- Aliasing is not modelled. `get_prompt_tokens()` returns the explorer's own list, which a
  later `append_token` or `pop_token` changes in place, so a caller's earlier result changes
  too. The model returns values, so an earlier result never changes.
- Return values: `set_prompt_text` and `_refresh_tokens` return the candidate list. In the
  model that list is the `displayed` field of the resulting session.
- Session.GetPromptTokenProbabilities: states only the count and the range `[0, 1]`, not the
  test explorer's constant 0.5. `FakeExplorer.TokenProbabilities` states the constant.
- Commands other than the two row selections require `Valid`. Python lets them run on any
  state. Every session reached from the constructor without an exception is valid.
- Session states after a caught exception are not modelled. When `int()` raises inside
  `set_prompt_text`, the explorer keeps the rejected text but the active buffer keeps the old
  one, because the copy-back at src/session.py:27 is skipped. From there `get_prompt()`
  returns the rejected text, and a later `add_prompt` copies it into a new buffer
  (src/session.py:33). If the cursor was on the last buffer, `add_prompt` then raises at
  src/session.py:35 after appending and moving the cursor. The model treats a raise as the
  end of the run: `SessionLemmas.Run` stops at the first `None`.
