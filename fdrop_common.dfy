/**
 * `human_readable_error` of the fdrop-common crate: the report a command
 * hands back to the user interface when it fails.  The chain of
 * `source()` errors is given as the sequence of their messages.
 */
module FdropCommon {

  /** Written after the top error's message, before any cause. */
  const CausedBy := "\n\nCaused by:\n"

  /**
   * The prefix of every cause line.  The loop formats `{i}.\t` with
   * `let i = 1` and never increments `i`, so every cause is numbered 1.
   */
  const CauseLabel := "1.\t"

  /** The cause lines for a chain of causes, in chain order, with no separator between them. */
  function CauseLines(causes: seq<string>): string
    decreases |causes|
  {
    if causes == [] then ""
    else CauseLines(causes[..|causes| - 1]) + CauseLabel + causes[|causes| - 1]
  }

  /** The whole report for an error with message `top` and the given chain of causes. */
  function Report(top: string, causes: seq<string>): (r: string)
    ensures top + CausedBy <= r
    ensures |r| == |top| + |CausedBy| + |CauseLines(causes)|
  {
    top + CausedBy + CauseLines(causes)
  }

  /** The loop of `human_readable_error`, walking the chain of causes and appending to `s`. */
  method HumanReadableError(top: string, causes: seq<string>) returns (s: string)
    ensures s == Report(top, causes)
  {
    s := "";
    s := s + top;
    s := s + CausedBy;
    var k := 0;
    while k < |causes|
      invariant 0 <= k <= |causes|
      invariant s == top + CausedBy + CauseLines(causes[..k])
    {
      assert causes[..k + 1][..k] == causes[..k];
      s := s + CauseLabel + causes[k];
      k := k + 1;
    }
    assert causes[..k] == causes;
  }

  /** The cause lines of a prefix of the chain are a prefix of the cause lines of the chain. */
  lemma {:induction false} CauseLinesPrefix(causes: seq<string>, k: nat)
    requires k <= |causes|
    ensures CauseLines(causes[..k]) <= CauseLines(causes)
    decreases |causes|
  {
    if k < |causes| {
      var init := causes[..|causes| - 1];
      assert init[..k] == causes[..k];
      CauseLinesPrefix(init, k);
    } else {
      assert causes[..k] == causes;
    }
  }

  /**
   * Each cause is appended exactly once and in chain order: cause `k` sits,
   * labelled, right after the lines of the causes before it.
   */
  lemma CauseInPlace(causes: seq<string>, k: nat)
    requires k < |causes|
    ensures var at := |CauseLines(causes[..k])|;
      at + |CauseLabel| + |causes[k]| <= |CauseLines(causes)| &&
      CauseLines(causes)[at..at + |CauseLabel| + |causes[k]|] == CauseLabel + causes[k]
  {
    var upto := causes[..k + 1];
    assert upto[..|upto| - 1] == causes[..k];
    assert CauseLines(upto) == CauseLines(causes[..k]) + CauseLabel + causes[k];
    CauseLinesPrefix(causes, k + 1);
  }

  /** With no cause at all the report ends exactly with "Caused by:\n". */
  lemma EmptyChainReport(top: string)
    ensures Report(top, []) == top + "\n\nCaused by:\n"
  {
  }

  /** An error with one cause gets one cause line after the header. */
  lemma SingleCauseReport(top: string, cause: string)
    ensures Report(top, [cause]) == top + CausedBy + CauseLabel + cause
  {
    assert [cause][..0] == [];
    assert CauseLines([cause]) == CauseLines([]) + CauseLabel + cause;
  }

  /** Two causes run together on one line, both numbered 1. */
  lemma TwoCausesReport(top: string, first: string, second: string)
    ensures Report(top, [first, second]) == top + "\n\nCaused by:\n" + "1.\t" + first + "1.\t" + second
  {
    assert [first, second][..1] == [first];
    assert [first][..0] == [];
    assert CauseLines([first]) == CauseLabel + first;
    assert CauseLines([first, second]) == CauseLabel + first + CauseLabel + second;
  }
}
