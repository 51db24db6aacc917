/**
 * The parallel splitter of `wish.cpp` (`parseParallel` with `addToken`): one
 * left-to-right pass over the characters of a line that builds tokens,
 * groups them into commands, and starts a new command at each `&`.
 */
module Tokenizer {
  import opened Commands

  /**
   * The state of the pass: the commands already closed, the tokens of the
   * command being built, and the characters of the token being built.
   */
  datatype Scanner = Scanner(done: seq<Command>, current: seq<string>, pending: string)

  const Start: Scanner := Scanner([], [], "")

  /** Appends a token unless it is empty. */
  function AddToken(tokens: seq<string>, t: string): seq<string> {
    if t == "" then tokens else tokens + [t]
  }

  /** Ends the pending token and closes the current command if it has any tokens. */
  function Close(st: Scanner): Scanner {
    var toks := AddToken(st.current, st.pending);
    if toks == [] then Scanner(st.done, [], "")
    else Scanner(st.done + [NewCommand(toks)], [], "")
  }

  /** The body of the scanning loop for one character. */
  function Step(st: Scanner, c: char): Scanner {
    if c == Space then
      Scanner(st.done, AddToken(st.current, st.pending), "")
    else if c == RedirChar then
      Scanner(st.done, AddToken(AddToken(st.current, st.pending), RedirToken), "")
    else if c == ParallelChar then
      Close(st)
    else
      Scanner(st.done, st.current, st.pending + [c])
  }

  /** The scanning loop over `s`, starting from `st`. */
  function Run(st: Scanner, s: string): Scanner
    decreases |s|
  {
    if s == [] then st else Run(Step(st, s[0]), s[1..])
  }

  /**
   * Splits a line into its commands. No command is empty, every token is the
   * operator alone or a non-empty word free of ` `, `&` and `>`, the tokens
   * spell out the line without its spaces and separators, there is at most one
   * command more than there are separators, and no command has a redirection yet.
   */
  function ParseParallel(line: string): (cmds: seq<Command>)
    ensures forall c :: c in cmds ==> FreshlyParsed(c)
    ensures Flatten(cmds) == Strip(line)
    ensures |cmds| <= Occurrences(line, ParallelChar) + 1
  {
    RunKeepsWellFormed(Start, line);
    RunContent(Start, line);
    RunCount(Start, line);
    CloseContent(Run(Start, line));
    Close(Run(Start, line)).done
  }

  // ---------------------------------------------------------------------------
  // Shape of the tokens

  /** The scanner invariant: closed commands, current tokens and pending text are well formed. */
  predicate WellFormed(st: Scanner) {
    && (forall c :: c in st.done ==> FreshlyParsed(c))
    && (forall t :: t in st.current ==> WellFormedToken(t))
    && Plain(st.pending)
  }

  lemma AddTokenWellFormed(ts: seq<string>, t: string)
    requires forall u :: u in ts ==> WellFormedToken(u)
    requires t == RedirToken || Plain(t)
    ensures forall u :: u in AddToken(ts, t) ==> WellFormedToken(u)
  {
  }

  lemma CloseWellFormed(st: Scanner)
    requires WellFormed(st)
    ensures WellFormed(Close(st))
  {
    AddTokenWellFormed(st.current, st.pending);
  }

  lemma StepWellFormed(st: Scanner, c: char)
    requires WellFormed(st)
    ensures WellFormed(Step(st, c))
  {
    AddTokenWellFormed(st.current, st.pending);
    if c == RedirChar {
      AddTokenWellFormed(AddToken(st.current, st.pending), RedirToken);
    } else if c == ParallelChar {
      CloseWellFormed(st);
    } else if c != Space {
      var p := st.pending + [c];
      assert forall i :: 0 <= i < |p| ==> p[i] == c || p[i] == st.pending[i];
    }
  }

  /** Every state the loop reaches from a well-formed state is well formed. */
  lemma {:induction false} RunKeepsWellFormed(st: Scanner, s: string)
    requires WellFormed(st)
    ensures WellFormed(Close(Run(st, s)))
    ensures WellFormed(Run(st, s))
    decreases |s|
  {
    if s == [] {
      CloseWellFormed(st);
    } else {
      StepWellFormed(st, s[0]);
      RunKeepsWellFormed(Step(st, s[0]), s[1..]);
    }
  }

  // ---------------------------------------------------------------------------
  // Content of the tokens

  /** Everything the scanner holds, written out in order. */
  function Content(st: Scanner): string {
    Flatten(st.done) + Concat(st.current) + st.pending
  }

  lemma AddTokenContent(ts: seq<string>, t: string)
    ensures Concat(AddToken(ts, t)) == Concat(ts) + t
  {
    if t != "" {
      ConcatSnoc(ts, t);
    }
  }

  lemma CloseContent(st: Scanner)
    ensures Flatten(Close(st).done) == Content(st)
    ensures Close(st).current == [] && Close(st).pending == ""
  {
    var toks := AddToken(st.current, st.pending);
    AddTokenContent(st.current, st.pending);
    if toks != [] {
      FlattenSnoc(st.done, NewCommand(toks));
    }
  }

  lemma StepContent(st: Scanner, c: char)
    ensures Content(Step(st, c)) == Content(st) + Strip([c])
  {
    assert Strip([c]) == (if IsDropped(c) then "" else [c]) by {
      assert [c][1..] == [];
    }
    var f, cs, p := Flatten(st.done), Concat(st.current), st.pending;
    if c == Space {
      AddTokenContent(st.current, p);
    } else if c == RedirChar {
      AddTokenContent(st.current, p);
      AddTokenContent(AddToken(st.current, p), RedirToken);
      assert Content(Step(st, c)) == f + ((cs + p) + RedirToken);
    } else if c == ParallelChar {
      CloseContent(st);
    } else {
      assert Content(Step(st, c)) == f + cs + (p + [c]);
    }
  }

  /** The loop moves every character that is not a space or a separator into the tokens, in order. */
  lemma {:induction false} RunContent(st: Scanner, s: string)
    ensures Content(Run(st, s)) == Content(st) + Strip(s)
    decreases |s|
  {
    if s != [] {
      StepContent(st, s[0]);
      RunContent(Step(st, s[0]), s[1..]);
      assert Strip(s) == Strip([s[0]]) + Strip(s[1..]);
    }
  }

  // ---------------------------------------------------------------------------
  // Number of commands

  /** Only a separator closes a command during the loop. */
  lemma {:induction false} RunCount(st: Scanner, s: string)
    ensures |Run(st, s).done| <= |st.done| + Occurrences(s, ParallelChar)
    ensures |Close(Run(st, s)).done| <= |st.done| + Occurrences(s, ParallelChar) + 1
    decreases |s|
  {
    if s != [] {
      RunCount(Step(st, s[0]), s[1..]);
    }
  }

  // ---------------------------------------------------------------------------
  // Algebra of the pass

  /** Scanning a concatenation is scanning one part after the other. */
  lemma {:induction false} RunAppend(st: Scanner, a: string, b: string)
    ensures Run(st, a + b) == Run(Run(st, a), b)
    decreases |a|
  {
    if a == [] {
      assert a + b == b;
    } else {
      assert (a + b)[0] == a[0];
      assert (a + b)[1..] == a[1..] + b;
      RunAppend(Step(st, a[0]), a[1..], b);
    }
  }

  /** `st` with the commands `d` placed before its closed commands. */
  function Behind(d: seq<Command>, st: Scanner): Scanner {
    Scanner(d + st.done, st.current, st.pending)
  }

  lemma CloseBehind(d: seq<Command>, st: Scanner)
    ensures Close(Behind(d, st)) == Behind(d, Close(st))
  {
    var toks := AddToken(st.current, st.pending);
    assert d + st.done + [NewCommand(toks)] == d + (st.done + [NewCommand(toks)]);
  }

  /** Commands already closed play no part in the rest of the pass. */
  lemma {:induction false} RunBehind(d: seq<Command>, st: Scanner, s: string)
    ensures Run(Behind(d, st), s) == Behind(d, Run(st, s))
    decreases |s|
  {
    if s != [] {
      if s[0] == ParallelChar {
        CloseBehind(d, st);
      }
      assert Step(Behind(d, st), s[0]) == Behind(d, Step(st, s[0]));
      RunBehind(d, Step(st, s[0]), s[1..]);
    }
  }

  /**
   * A separator splits a line into two independent halves: the commands of
   * `a & b` are those of `a` followed by those of `b`.
   */
  lemma ParallelSplit(a: string, b: string)
    ensures ParseParallel(a + [ParallelChar] + b) == ParseParallel(a) + ParseParallel(b)
  {
    var x := Run(Start, a);
    RunAppend(Start, a + [ParallelChar], b);
    RunAppend(Start, a, [ParallelChar]);
    assert Run(x, [ParallelChar]) == Step(x, ParallelChar);
    assert Close(x) == Behind(ParseParallel(a), Start);
    RunBehind(ParseParallel(a), Start, b);
    CloseBehind(ParseParallel(a), Run(Start, b));
  }

  /** A line parses to no command exactly when it holds nothing but spaces and separators. */
  lemma ParseEmptyIff(line: string)
    ensures ParseParallel(line) == [] <==> Strip(line) == ""
  {
    var cmds := ParseParallel(line);
    if cmds != [] {
      FlattenNonEmpty(cmds);
    }
  }

  /** A line of spaces only (including the empty line) has no commands. */
  lemma {:induction false} BlankLineHasNoCommands(line: string)
    requires forall i :: 0 <= i < |line| ==> line[i] == Space
    ensures ParseParallel(line) == []
  {
    BlankStrips(line);
    ParseEmptyIff(line);
  }

  lemma {:induction false} BlankStrips(line: string)
    requires forall i :: 0 <= i < |line| ==> line[i] == Space
    ensures Strip(line) == ""
    decreases |line|
  {
    if line != [] {
      BlankStrips(line[1..]);
    }
  }

  lemma Run3(st: Scanner, c0: char, c1: char, c2: char)
    ensures Run(st, [c0, c1, c2]) == Step(Step(Step(st, c0), c1), c2)
  {
    var s1, s2 := Step(st, c0), Step(Step(st, c0), c1);
    assert [c0, c1, c2][1..] == [c1, c2];
    assert [c1, c2][1..] == [c2];
    assert [c2][1..] == [];
    assert Run(s2, [c2]) == Run(Step(s2, c2), []);
    assert Run(s1, [c1, c2]) == Run(s2, [c2]);
  }

  /**
   * The operator forces token boundaries on both sides, so `a>b` parses
   * exactly like `a > b`.
   */
  lemma RedirNeedsNoSpaces(a: string, b: string)
    ensures ParseParallel(a + [RedirChar] + b) == ParseParallel(a + [Space, RedirChar, Space] + b)
  {
    var x := Run(Start, a);
    RunAppend(Start, a + [RedirChar], b);
    RunAppend(Start, a, [RedirChar]);
    RunAppend(Start, a + [Space, RedirChar, Space], b);
    RunAppend(Start, a, [Space, RedirChar, Space]);
    assert Run(x, [RedirChar]) == Step(x, RedirChar);
    Run3(x, Space, RedirChar, Space);
  }

  /** A run of spaces acts like a single space. */
  lemma SpacesCollapse(a: string, b: string)
    ensures ParseParallel(a + [Space, Space] + b) == ParseParallel(a + [Space] + b)
  {
    var x := Run(Start, a);
    RunAppend(Start, a + [Space, Space], b);
    RunAppend(Start, a, [Space, Space]);
    RunAppend(Start, a + [Space], b);
    RunAppend(Start, a, [Space]);
    assert [Space, Space][1..] == [Space];
    assert Run(x, [Space, Space]) == Step(Step(x, Space), Space);
  }

  /** Leading and trailing spaces do not change the commands. */
  lemma OuterSpacesIgnored(line: string)
    ensures ParseParallel([Space] + line) == ParseParallel(line)
    ensures ParseParallel(line + [Space]) == ParseParallel(line)
  {
    assert ([Space] + line)[1..] == line;
    RunAppend(Start, line, [Space]);
    assert Run(Run(Start, line), [Space]) == Step(Run(Start, line), Space);
  }

  // ---------------------------------------------------------------------------
  // Where tokens split

  /** Ordinary characters only extend the pending token. */
  lemma {:induction false} RunPlain(st: Scanner, w: string)
    requires Plain(w)
    ensures Run(st, w) == Scanner(st.done, st.current, st.pending + w)
    decreases |w|
  {
    if w == [] {
      assert st.pending + w == st.pending;
    } else {
      assert !IsSpecial(w[0]);
      assert Plain(w[1..]) by {
        assert forall i :: 0 <= i < |w[1..]| ==> w[1..][i] == w[i + 1];
      }
      RunPlain(Step(st, w[0]), w[1..]);
      assert st.pending + [w[0]] + w[1..] == st.pending + w;
    }
  }

  /** The words `ws` written one after the other, separated by single spaces. */
  function Unwords(ws: seq<string>): string
    requires ws != []
  {
    if |ws| == 1 then ws[0] else Unwords(ws[..|ws| - 1]) + [Space] + ws[|ws| - 1]
  }

  /** Reading one token from a state with nothing pending adds exactly that token. */
  lemma RunWord(st: Scanner, w: string)
    requires st.pending == "" && WellFormedToken(w)
    ensures Run(st, w).done == st.done
    ensures AddToken(Run(st, w).current, Run(st, w).pending) == st.current + [w]
  {
    if w == RedirToken {
      assert Run(st, w) == Step(st, RedirChar);
    } else {
      RunPlain(st, w);
      assert "" + w == w;
    }
  }

  lemma {:induction false} RunUnwords(ws: seq<string>)
    requires ws != []
    requires forall w :: w in ws ==> WellFormedToken(w)
    ensures Run(Start, Unwords(ws)).done == []
    ensures AddToken(Run(Start, Unwords(ws)).current, Run(Start, Unwords(ws)).pending) == ws
    decreases |ws|
  {
    var last := ws[|ws| - 1];
    assert last in ws;
    if |ws| == 1 {
      RunWord(Start, last);
      assert [] + [last] == ws;
    } else {
      var init := ws[..|ws| - 1];
      assert forall w :: w in init ==> w in ws;
      RunUnwords(init);
      var x := Run(Start, Unwords(init));
      RunAppend(Start, Unwords(init) + [Space], last);
      RunAppend(Start, Unwords(init), [Space]);
      assert Run(x, [Space]) == Step(x, Space);
      assert Step(x, Space) == Scanner([], init, "");
      RunWord(Scanner([], init, ""), last);
      assert init + [last] == ws;
    }
  }

  /**
   * A space ends a token, a `>` is a token of its own and a run of ordinary
   * characters stays one token: a line of tokens separated by single spaces
   * is one command whose tokens are exactly those.
   */
  lemma WordsFormOneCommand(ws: seq<string>)
    requires ws != []
    requires forall w :: w in ws ==> WellFormedToken(w)
    ensures ParseParallel(Unwords(ws)) == [NewCommand(ws)]
  {
    RunUnwords(ws);
    var st := Run(Start, Unwords(ws));
    assert AddToken(st.current, st.pending) == ws;
    assert Close(st) == Scanner([NewCommand(ws)], [], "");
  }

  /** A space after the target of `>` still ends it: `ls > a b` is four tokens. */
  lemma SpaceEndsTargetToken()
    ensures ParseParallel("ls > a b") == [NewCommand(["ls", ">", "a", "b"])]
  {
    var ws := ["ls", ">", "a", "b"];
    assert Unwords(ws) == "ls > a b" by {
      assert ws[..3] == ["ls", ">", "a"];
      assert ["ls", ">", "a"][..2] == ["ls", ">"];
      assert ["ls", ">"][..1] == ["ls"];
      assert Unwords(["ls", ">"]) == "ls >";
      assert Unwords(["ls", ">", "a"]) == "ls > a";
    }
    assert forall w :: w in ws ==> WellFormedToken(w) by {
      assert Plain("ls") && Plain("a") && Plain("b");
    }
    WordsFormOneCommand(ws);
  }

  /** `c d>e` is one command of four tokens, the operator among them. */
  lemma RedirLineParse(c: string, d: string, e: string)
    requires c != "" && Plain(c) && d != "" && Plain(d) && e != "" && Plain(e)
    ensures ParseParallel(c + [Space] + d + [RedirChar] + e) == [NewCommand([c, d, RedirToken, e])]
  {
    var ws := [c, d, RedirToken, e];
    assert Unwords(ws) == c + [Space] + d + [Space, RedirChar, Space] + e by {
      assert ws[..3] == [c, d, RedirToken];
      assert [c, d, RedirToken][..2] == [c, d];
      assert [c, d][..1] == [c];
      assert Unwords([c, d]) == c + [Space] + d;
      assert Unwords([c, d, RedirToken]) == c + [Space] + d + [Space] + RedirToken;
    }
    WordsFormOneCommand(ws);
    RedirNeedsNoSpaces(c + [Space] + d, e);
  }

  /** `a b&c d>e` is two commands, split at the `&`, the second holding the operator. */
  lemma ParallelLineParse(a: string, b: string, c: string, d: string, e: string)
    requires a != "" && Plain(a) && b != "" && Plain(b)
    requires c != "" && Plain(c) && d != "" && Plain(d) && e != "" && Plain(e)
    ensures ParseParallel(a + [Space] + b + [ParallelChar] + c + [Space] + d + [RedirChar] + e) ==
      [NewCommand([a, b]), NewCommand([c, d, RedirToken, e])]
  {
    SpaceSeparatesWords(a, b);
    RedirLineParse(c, d, e);
    ParallelSplit(a + [Space] + b, c + [Space] + d + [RedirChar] + e);
    assert a + [Space] + b + [ParallelChar] + c + [Space] + d + [RedirChar] + e
      == (a + [Space] + b) + [ParallelChar] + (c + [Space] + d + [RedirChar] + e);
  }

  /** `ls -l` is the two tokens `ls` and `-l`, not one. */
  lemma SpaceSeparatesWords(a: string, b: string)
    requires a != "" && Plain(a) && b != "" && Plain(b)
    ensures ParseParallel(a + [Space] + b) == [NewCommand([a, b])]
  {
    assert Unwords([a, b]) == a + [Space] + b by {
      assert [a, b][..1] == [a];
    }
    WordsFormOneCommand([a, b]);
  }
}
