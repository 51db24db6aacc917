/**
 * The command record of the shell and the vocabulary used to describe tokens.
 */
module Commands {

  /**
   * One parsed invocation unit: the argument tokens (the first one names the
   * program or built-in), the redirection target, and whether one was requested.
   */
  datatype Command = Command(tokens: seq<string>, redirFile: string, hasRedirection: bool)

  /** The redirection operator, both as a character and as the token it becomes. */
  const RedirChar: char := '>'
  const RedirToken: string := ">"
  /** The parallel separator. */
  const ParallelChar: char := '&'
  /** The only whitespace the tokenizer knows. */
  const Space: char := ' '

  /** A command as the tokenizer creates it: no redirection recorded yet. */
  function NewCommand(tokens: seq<string>): Command {
    Command(tokens, "", false)
  }

  /** Characters that end a token. */
  predicate IsSpecial(c: char) {
    c == Space || c == ParallelChar || c == RedirChar
  }

  /** Characters that never reach any token. */
  predicate IsDropped(c: char) {
    c == Space || c == ParallelChar
  }

  /** A string free of every token-ending character. */
  predicate Plain(t: string) {
    forall i :: 0 <= i < |t| ==> !IsSpecial(t[i])
  }

  /** The two shapes a token can have: the operator alone, or a non-empty plain word. */
  predicate WellFormedToken(t: string) {
    t == RedirToken || (t != "" && Plain(t))
  }

  /** A command exactly as the tokenizer hands it on. */
  predicate FreshlyParsed(c: Command) {
    && c.tokens != []
    && (forall t :: t in c.tokens ==> WellFormedToken(t))
    && c.redirFile == ""
    && !c.hasRedirection
  }

  /** All tokens written one after the other. */
  function Concat(ts: seq<string>): string
  {
    if ts == [] then "" else Concat(ts[..|ts| - 1]) + ts[|ts| - 1]
  }

  /** All tokens of all commands written one after the other. */
  function Flatten(cs: seq<Command>): string
  {
    if cs == [] then "" else Flatten(cs[..|cs| - 1]) + Concat(cs[|cs| - 1].tokens)
  }

  /** The line with every space and every parallel separator removed. */
  function Strip(s: string): string
  {
    if s == [] then "" else (if IsDropped(s[0]) then "" else [s[0]]) + Strip(s[1..])
  }

  /** The number of occurrences of `c` in `s`. */
  function Occurrences(s: string, c: char): nat
  {
    if s == [] then 0 else (if s[0] == c then 1 else 0) + Occurrences(s[1..], c)
  }

  lemma ConcatSnoc(ts: seq<string>, t: string)
    ensures Concat(ts + [t]) == Concat(ts) + t
  {
    assert (ts + [t])[..|ts|] == ts;
  }

  lemma FlattenSnoc(cs: seq<Command>, c: Command)
    ensures Flatten(cs + [c]) == Flatten(cs) + Concat(c.tokens)
  {
    assert (cs + [c])[..|cs|] == cs;
  }

  /** A non-empty list of freshly parsed commands always carries some text. */
  lemma FlattenNonEmpty(cs: seq<Command>)
    requires cs != []
    requires forall c :: c in cs ==> FreshlyParsed(c)
    ensures Flatten(cs) != ""
  {
    var last := cs[|cs| - 1];
    assert FreshlyParsed(last);
    var lastToken := last.tokens[|last.tokens| - 1];
    assert WellFormedToken(lastToken);
    assert |Concat(last.tokens)| >= |lastToken| > 0;
  }
}
