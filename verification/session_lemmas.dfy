/**
 * Properties that relate several session commands: inverses, round trips, and the session
 * invariant holding along any sequence of commands.
 */
module SessionLemmas {
  import opened Wrappers
  import opened Text
  import opened Sampling
  import FakeExplorer
  import opened Session

  /** A valid session is fixed by its buffers, its two cursors, its configuration and the candidate table. */
  lemma ValidSessionDetermined(s: Session, t: Session)
    requires Valid(s) && Valid(t)
    requires s.prompts == t.prompts && s.promptIndex == t.promptIndex && s.selectedRow == t.selectedRow
    requires s.tokensToShow == t.tokensToShow && s.explorer.top == t.explorer.top
    ensures s == t
  {
  }

  /**
   * From the last buffer, adding a buffer and removing it again restores the buffers and the
   * cursor; only the selection is reset.
   */
  lemma AddThenRemoveFromLast(s: Session, maxPrompts: Option<int>)
    requires Valid(s) && s.promptIndex == |s.prompts| - 1
    requires AddPrompt(s, maxPrompts).accepted
    ensures RemovePrompt(AddPrompt(s, maxPrompts).next).accepted
    ensures RemovePrompt(AddPrompt(s, maxPrompts).next).next == s.(selectedRow := 0)
  {
    var n := |s.prompts|;
    var a := AddPrompt(s, maxPrompts).next;
    assert |a.prompts| == n + 1 && a.promptIndex == n;
    var r := RemovePrompt(a);
    assert r.accepted;
    var b := r.next;
    assert b.prompts == a.prompts[..n] + a.prompts[n + 1..];
    assert a.prompts[n + 1..] == [];
    assert b.prompts == s.prompts;
    assert b.promptIndex == Wrap(n - 1, n);
    ValidSessionDetermined(b, s.(selectedRow := 0));
  }

  /**
   * From any other buffer, adding then removing deletes the buffer after the active one
   * instead, and leaves the new copy at the end; the cursor comes back to where it was.
   */
  lemma AddThenRemoveOffLast(s: Session, maxPrompts: Option<int>)
    requires Valid(s) && s.promptIndex < |s.prompts| - 1
    requires AddPrompt(s, maxPrompts).accepted
    ensures RemovePrompt(AddPrompt(s, maxPrompts).next).accepted
    ensures RemovePrompt(AddPrompt(s, maxPrompts).next).next.prompts
      == s.prompts[..s.promptIndex + 1] + s.prompts[s.promptIndex + 2..] + [s.prompts[s.promptIndex]]
    ensures RemovePrompt(AddPrompt(s, maxPrompts).next).next.promptIndex == s.promptIndex
  {
    var i := s.promptIndex;
    var a := AddPrompt(s, maxPrompts).next;
    assert a.prompts[..|s.prompts|] == s.prompts;
    assert a.prompts == s.prompts + [s.prompts[i]];
    RemoveAfterCopy(a, s.prompts, s.prompts[i], i);
  }

  /**
   * From any other buffer, adding then removing gives back the same buffers exactly when the
   * active buffer and every later one hold the same text.
   */
  lemma AddThenRemoveOffLastRestores(s: Session, maxPrompts: Option<int>)
    requires Valid(s) && s.promptIndex < |s.prompts| - 1
    requires AddPrompt(s, maxPrompts).accepted
    ensures RemovePrompt(AddPrompt(s, maxPrompts).next).next.prompts == s.prompts
      <==> ConstantFrom(s.prompts, s.promptIndex)
  {
    var i := s.promptIndex;
    AddThenRemoveOffLast(s, maxPrompts);
    var rotated := s.prompts[..i + 1] + s.prompts[i + 2..] + [s.prompts[i]];
    assert RemovePrompt(AddPrompt(s, maxPrompts).next).next.prompts == rotated;
    RotatedTailFixed(s.prompts, i);
    assert rotated == s.prompts <==> ConstantFrom(s.prompts, i);
  }

  /** Moving element `i` to the end, in place of the one after it, fixes the list iff `ps[i..]` is constant. */
  lemma RotatedTailFixed<T>(ps: seq<T>, i: int)
    requires 0 <= i < |ps| - 1
    ensures ps[..i + 1] + ps[i + 2..] + [ps[i]] == ps <==> ConstantFrom(ps, i)
  {
    var r := ps[..i + 1] + ps[i + 2..] + [ps[i]];
    assert |r| == |ps|;
    assert forall k :: 0 <= k <= i ==> r[k] == ps[k];
    assert forall k :: i < k < |ps| - 1 ==> r[k] == ps[k + 1];
    assert r[|ps| - 1] == ps[i];
    if r == ps {
      forall j | i <= j < |ps| ensures ps[j] == ps[i] {
        RotationFixedAt(ps, i, j);
      }
    }
    if ConstantFrom(ps, i) {
      assert forall k :: 0 <= k < |ps| ==> r[k] == ps[k];
    }
  }

  /** Every element from `i` on equals `ps[i]` */
  predicate ConstantFrom<T(==)>(ps: seq<T>, i: int)
    requires 0 <= i < |ps|
  {
    forall j :: i <= j < |ps| ==> ps[j] == ps[i]
  }

  lemma {:induction false} RotationFixedAt<T>(ps: seq<T>, i: int, j: int)
    requires 0 <= i <= j < |ps| && i < |ps| - 1
    requires ps[..i + 1] + ps[i + 2..] + [ps[i]] == ps
    ensures ps[j] == ps[i]
    decreases |ps| - j
  {
    var r := ps[..i + 1] + ps[i + 2..] + [ps[i]];
    if j == i {
    } else if j == |ps| - 1 {
      assert r[j] == ps[i];
    } else {
      assert r[j] == ps[j + 1];
      RotationFixedAt(ps, i, j + 1);
    }
  }

  /** With buffers "1" and "2" and the cursor on the first, add then remove leaves "1" twice. */
  lemma AddThenRemoveLosesBuffer(s: Session)
    requires Valid(s) && s.prompts == ["1", "2"] && s.promptIndex == 0
    ensures RemovePrompt(AddPrompt(s).next).next.prompts == ["1", "1"]
    ensures RemovePrompt(AddPrompt(s).next).next.prompts != s.prompts
  {
    AddThenRemoveOffLast(s, None);
    assert s.prompts[..1] + s.prompts[2..] + [s.prompts[0]] == ["1", "1"];
  }

  /** Removing at `i + 1` from a buffer list that ends with an appended copy `x` */
  lemma RemoveAfterCopy(a: Session, ps: seq<string>, x: string, i: int)
    requires Valid(a) && a.prompts == ps + [x]
    requires 0 <= i < |ps| - 1 && a.promptIndex == i + 1
    ensures RemovePrompt(a).accepted
    ensures RemovePrompt(a).next.prompts == ps[..i + 1] + ps[i + 2..] + [x]
    ensures RemovePrompt(a).next.promptIndex == i
  {
    var r := RemovePrompt(a);
    assert r.next.prompts == a.prompts[..i + 1] + a.prompts[i + 2..];
    assert a.prompts[..i + 1] == ps[..i + 1];
    DropOfAppend(ps, x, i + 2);
  }

  lemma DropOfAppend<T>(xs: seq<T>, x: T, k: int)
    requires 0 <= k <= |xs|
    ensures (xs + [x])[k..] == xs[k..] + [x]
  {
  }

  /** Moving to the next buffer and back returns to the same session, selection reset. */
  lemma IncrementThenDecrement(s: Session)
    requires Valid(s)
    ensures DecrementPrompt(IncrementPrompt(s)) == s.(selectedRow := 0)
  {
    var n := |s.prompts|;
    var t := DecrementPrompt(IncrementPrompt(s));
    assert t.promptIndex == Wrap(Wrap(s.promptIndex + 1, n) - 1, n);
    ValidSessionDetermined(t, s.(selectedRow := 0));
  }

  /** Moving to the previous buffer and back returns to the same session, selection reset. */
  lemma DecrementThenIncrement(s: Session)
    requires Valid(s)
    ensures IncrementPrompt(DecrementPrompt(s)) == s.(selectedRow := 0)
  {
    var n := |s.prompts|;
    var t := IncrementPrompt(DecrementPrompt(s));
    assert t.promptIndex == Wrap(Wrap(s.promptIndex - 1, n) + 1, n);
    ValidSessionDetermined(t, s.(selectedRow := 0));
  }

  /** Moving the selection down and then up again is the identity. */
  lemma SelectNextThenPrev(s: Session)
    requires Valid(s) && SelectNextToken(s).accepted
    ensures SelectPrevToken(SelectNextToken(s).next) == Step(true, s)
  {
    var t := SelectNextToken(s).next;
    assert t.(selectedRow := t.selectedRow - 1) == s;
  }

  /**
   * Appending the selected candidate and popping it again restores the session (selection
   * reset) when the active buffer is already the space-join of its tokens, so that
   * re-syncing the text changes nothing.
   */
  lemma AppendSelectedThenPop(s: Session, minTokens: int)
    requires Valid(s) && s.displayed != []
    requires s.prompts[s.promptIndex] == JoinTokens(s.explorer.tokens)
    requires minTokens <= |s.explorer.tokens|
    ensures PopToken(AppendSelectedToken(s).next, minTokens).accepted
    ensures PopToken(AppendSelectedToken(s).next, minTokens).next == s.(selectedRow := 0)
  {
    var t := s.displayed[s.selectedRow].tokenId;
    var a := AppendSelectedToken(s).next;
    assert a.explorer == FakeExplorer.AppendToken(s.explorer, t);
    FakeExplorer.PopAfterAppend(s.explorer, t);
    var popped := FakeExplorer.PopToken(a.explorer).1;
    assert popped == s.explorer;
    var b := PopToken(a, minTokens).next;
    assert b == Commit(a, popped);
    assert b.prompts == a.prompts[s.promptIndex := s.explorer.text];
    assert b.prompts == s.prompts;
    ValidSessionDetermined(b, s.(selectedRow := 0));
  }

  /** With a non-negative floor, an accepted `pop_token` removes exactly one token. */
  lemma PopTokenRemovesOne(s: Session, minTokens: int)
    requires Valid(s) && minTokens >= 0
    ensures PopToken(s, minTokens).accepted <==> |s.explorer.tokens| > minTokens
    ensures PopToken(s, minTokens).accepted ==>
      |PopToken(s, minTokens).next.explorer.tokens| == |s.explorer.tokens| - 1
  {
  }

  /** Every command a driver can issue; `TakeWeighted` carries the number the random source returns. */
  datatype Command =
    | EditText(text: string)
    | AddBuffer(maxPrompts: Option<int>)
    | RemoveBuffer
    | NextBuffer
    | PrevBuffer
    | RowDown
    | RowUp
    | TakeSelected
    | TakeWeighted(u: Draw)
    | Backspace(minTokens: int)

  /** The session after one command; `None` where the explorer or the random source raises */
  function Apply(s: Session, c: Command): (r: Option<Session>)
    requires Valid(s)
    ensures r.Some? ==> Valid(r.value)
    ensures r.None? ==> c.EditText? || c.TakeWeighted?
  {
    match c
    case EditText(text) => SetPromptText(s, text)
    case AddBuffer(m) => Some(AddPrompt(s, m).next)
    case RemoveBuffer => Some(RemovePrompt(s).next)
    case NextBuffer => Some(IncrementPrompt(s))
    case PrevBuffer => Some(DecrementPrompt(s))
    case RowDown => Some(SelectNextToken(s).next)
    case RowUp => Some(SelectPrevToken(s).next)
    case TakeSelected => Some(AppendSelectedToken(s).next)
    case TakeWeighted(u) =>
      (match AppendWeightedToken(s, u)
       case None => None
       case Some(step) => Some(step.next))
    case Backspace(k) => Some(PopToken(s, k).next)
  }

  /** The session after a sequence of commands, stopping at the first that raises */
  function Run(s: Session, cs: seq<Command>): (r: Option<Session>)
    requires Valid(s)
    ensures r.Some? ==> Valid(r.value)
    decreases |cs|
  {
    if |cs| == 0 then Some(s)
    else
      match Apply(s, cs[0])
      case None => None
      case Some(t) => Run(t, cs[1..])
  }

  /**
   * After any sequence of commands from a fresh session there is at least one buffer and the
   * cursor is on one of them.
   */
  lemma BuffersNeverEmpty(e: FakeExplorer.Explorer, prompt: string, tokensToShow: int, cs: seq<Command>)
    requires New(e, prompt, tokensToShow).Some?
    requires Run(New(e, prompt, tokensToShow).value, cs).Some?
    ensures var t := Run(New(e, prompt, tokensToShow).value, cs).value;
      |t.prompts| >= 1 && 0 <= t.promptIndex < |t.prompts|
  {
  }
}
