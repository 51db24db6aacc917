/**
 * Redirection extraction of `wish.cpp` (`parseRedir`): the first `>` token
 * decides. Second-to-last and not first, it takes the last token as the
 * target and both are removed; anywhere else the command is emptied and an
 * error is reported; with no `>` the command is left alone.
 */
module Redirection {
  import opened Wrappers
  import opened Sequences
  import opened Commands

  /** The command after extraction, and whether the error message was written. */
  datatype RedirResult = RedirResult(command: Command, reported: bool)

  predicate IsRedirToken(t: string) {
    t == RedirToken
  }

  /** `i` is the position of the first operator token. */
  predicate FirstRedirAt(tokens: seq<string>, i: int) {
    && 0 <= i < |tokens|
    && tokens[i] == RedirToken
    && forall j :: 0 <= j < i ==> tokens[j] != RedirToken
  }

  function ParseRedir(c: Command): (r: RedirResult)
    ensures (forall i :: 0 <= i < |c.tokens| ==> c.tokens[i] != RedirToken) ==> r == RedirResult(c, false)
    ensures forall i :: FirstRedirAt(c.tokens, i) && i != 0 && i == |c.tokens| - 2 ==>
              r == RedirResult(Command(c.tokens[..i], c.tokens[i + 1], true), false)
    ensures forall i :: FirstRedirAt(c.tokens, i) && (i == 0 || i != |c.tokens| - 2) ==>
              r == RedirResult(c.(tokens := []), true)
  {
    var n := |c.tokens|;
    match FirstIndex(c.tokens, IsRedirToken, 0)
    case None => RedirResult(c, false)
    case Some(i) =>
      if i == 0 || i != n - 2 then
        RedirResult(c.(tokens := []), true)
      else
        RedirResult(Command(c.tokens[..n - 2], c.tokens[i + 1], true), false)
  }

  /** After extraction no operator token is left in the argument list. */
  lemma RedirRemovesOperator(c: Command)
    ensures forall t :: t in ParseRedir(c).command.tokens ==> t != RedirToken
  {
    var k := FirstIndex(c.tokens, IsRedirToken, 0);
    if k.Some? {
      assert FirstRedirAt(c.tokens, k.value);
    }
  }

  /** Extraction is idempotent: a second pass changes nothing and reports nothing. */
  lemma RedirIdempotent(c: Command)
    ensures ParseRedir(ParseRedir(c).command) == RedirResult(ParseRedir(c).command, false)
  {
    RedirRemovesOperator(c);
    var d := ParseRedir(c).command;
    assert forall i :: 0 <= i < |d.tokens| ==> d.tokens[i] in d.tokens;
  }

  /**
   * On a command fresh from the tokenizer, a recorded redirection always has
   * a non-empty target and leaves a non-empty argument list, and a command
   * without one keeps an empty target.
   */
  lemma RedirTargetNonEmpty(c: Command)
    requires FreshlyParsed(c)
    ensures var d := ParseRedir(c).command;
      && (d.hasRedirection ==> d.redirFile != "" && d.tokens != [])
      && (!d.hasRedirection ==> d.redirFile == "")
  {
    var k := FirstIndex(c.tokens, IsRedirToken, 0);
    if k.Some? {
      assert FirstRedirAt(c.tokens, k.value);
      if k.value != 0 && k.value == |c.tokens| - 2 {
        assert c.tokens[k.value + 1] in c.tokens;
      }
    }
  }

  /** A malformed placement is reported exactly when the extraction empties the command. */
  lemma RedirReportedIffCleared(c: Command)
    requires c.tokens != []
    ensures ParseRedir(c).reported <==> ParseRedir(c).command.tokens == []
  {
    var k := FirstIndex(c.tokens, IsRedirToken, 0);
    if k.Some? {
      assert FirstRedirAt(c.tokens, k.value);
    }
  }

  /**
   * Only the first operator is inspected, so `ls > >` is accepted and sends
   * the output to a file named `>`.
   */
  lemma SecondOperatorBecomesTarget()
    ensures ParseRedir(NewCommand(["ls", ">", ">"])) == RedirResult(Command(["ls"], ">", true), false)
  {
    assert FirstRedirAt(["ls", ">", ">"], 1);
  }
}
