/**
 * The per-line dispatcher of `wish.cpp` (`process_command` with `set_paths`),
 * as a pure transition over the session state. It turns one line into the
 * ordered spawn requests the shell issues. Each request carries the search
 * path and working directory that the spawned process inherits. The outcome
 * of `chdir` is the oracle `chdir`. Forking, waiting and error output are left
 * to the operating system; the model only counts how many times the error
 * message is written.
 */
module Dispatcher {
  import opened Wrappers
  import opened Sequences
  import opened Commands
  import opened Tokenizer
  import opened Redirection

  const ExitLine: string := "exit"
  const PathBuiltin: string := "path"
  const CdBuiltin: string := "cd"

  /** What persists from one line to the next: the search path and the working directory. */
  datatype Shell = Shell(paths: seq<string>, cwd: string)

  /**
   * One fork: the position of its command in the batch, the command, and the
   * search path and working directory the new process inherits.
   */
  datatype SpawnRequest = SpawnRequest(index: nat, command: Command, paths: seq<string>, cwd: string)

  /**
   * The effect of a batch: the new session state, the spawn requests in
   * order, the number of error messages written, and whether a misused `cd`
   * cut the batch short.
   */
  datatype BatchResult = BatchResult(shell: Shell, spawns: seq<SpawnRequest>, errors: nat, aborted: bool)

  /** A line either ends the session with status 0 or leaves it running. */
  datatype LineOutcome = Exit | Continue(result: BatchResult)

  /** The oracle for `chdir`: given the working directory and the argument, the new directory or a failure. */
  type Chdir = (string, string) -> Option<string>

  predicate IsPathCommand(c: Command) {
    c.tokens != [] && c.tokens[0] == PathBuiltin
  }

  predicate IsCdCommand(c: Command) {
    c.tokens != [] && c.tokens[0] == CdBuiltin
  }

  /** `cd` with a token count other than two. */
  predicate CdMisuse(c: Command) {
    IsCdCommand(c) && |c.tokens| != 2
  }

  /** A command that is neither empty nor a built-in. */
  predicate IsExternal(c: Command) {
    c.tokens != [] && !IsPathCommand(c) && !IsCdCommand(c)
  }

  /** The search path that `path` sets: every token after the first, in order. */
  function SetPaths(tokens: seq<string>): seq<string> {
    if |tokens| <= 1 then [] else tokens[1..]
  }

  /** The search path after `c` runs with search path `p`. */
  function PathsAfter(c: Command, p: seq<string>): seq<string> {
    if IsPathCommand(c) then SetPaths(c.tokens) else p
  }

  /** The working directory after `c` runs in `cwd`: only a well-formed `cd` that succeeds moves it. */
  function CwdAfter(c: Command, cwd: string, chdir: Chdir): string {
    if IsCdCommand(c) && |c.tokens| == 2 then chdir(cwd, c.tokens[1]).GetOr(cwd) else cwd
  }

  /** `c` is a well-formed `cd` whose `chdir` from `cwd` fails. */
  predicate ChdirFails(c: Command, cwd: string, chdir: Chdir) {
    IsCdCommand(c) && |c.tokens| == 2 && chdir(cwd, c.tokens[1]).None?
  }

  /** The effect of one command that does not cut the batch short. */
  datatype StepResult = StepResult(shell: Shell, spawned: seq<SpawnRequest>, errors: nat)

  /**
   * The body of the dispatch loop for `c`, the command at position `i`; none
   * when `c` is a misused `cd`, which ends the batch. Built-ins act at once on
   * their raw tokens; any other non-empty command goes through redirection
   * extraction and is spawned with the current search path and directory.
   */
  function RunCommand(c: Command, i: nat, sh: Shell, chdir: Chdir): (r: Option<StepResult>)
    ensures r.None? <==> CdMisuse(c)
    ensures r.Some? ==> r.value.shell == Shell(PathsAfter(c, sh.paths), CwdAfter(c, sh.cwd, chdir))
    ensures r.Some? ==>
      r.value.errors == (if ChdirFails(c, sh.cwd, chdir) || (IsExternal(c) && ParseRedir(c).reported) then 1 else 0)
    ensures r.Some? ==>
      r.value.spawned == (if IsExternal(c) then [SpawnRequest(i, ParseRedir(c).command, sh.paths, sh.cwd)] else [])
  {
    if c.tokens == [] then Some(StepResult(sh, [], 0))
    else if c.tokens[0] == PathBuiltin then Some(StepResult(sh.(paths := SetPaths(c.tokens)), [], 0))
    else if c.tokens[0] == CdBuiltin then
      if |c.tokens| != 2 then None
      else
        match chdir(sh.cwd, c.tokens[1])
        case Some(dir) => Some(StepResult(sh.(cwd := dir), [], 0))
        case None => Some(StepResult(sh, [], 1))
    else
      var p := ParseRedir(c);
      Some(StepResult(sh, [SpawnRequest(i, p.command, sh.paths, sh.cwd)], if p.reported then 1 else 0))
  }

  /** Handles `batch[i..]` in order, stopping at a misused `cd`. */
  function Dispatch(batch: seq<Command>, i: nat, sh: Shell, chdir: Chdir): (r: BatchResult)
    requires i <= |batch|
    ensures |r.spawns| <= |batch| - i
    ensures r.aborted ==> r.errors > 0
    decreases |batch| - i
  {
    if i == |batch| then BatchResult(sh, [], 0, false)
    else
      match RunCommand(batch[i], i, sh, chdir)
      case None => BatchResult(sh, [], 1, true)
      case Some(step) =>
        var r := Dispatch(batch, i + 1, step.shell, chdir);
        BatchResult(r.shell, step.spawned + r.spawns, step.errors + r.errors, r.aborted)
  }

  /** Handles one input line. */
  function ProcessLine(line: string, sh: Shell, chdir: Chdir): LineOutcome {
    if line == "" then Continue(BatchResult(sh, [], 0, false))
    else if line == ExitLine then Exit
    else Continue(Dispatch(ParseParallel(line), 0, sh, chdir))
  }

  // ---------------------------------------------------------------------------
  // Reference definitions

  /** The search path after the commands of `batch[i..k]`, starting from `p`. */
  function PathsAt(batch: seq<Command>, i: nat, p: seq<string>, k: nat): seq<string>
    requires i <= k <= |batch|
    decreases k - i
  {
    if i == k then p else PathsAt(batch, i + 1, PathsAfter(batch[i], p), k)
  }

  /** The working directory after the commands of `batch[i..k]`, starting from `cwd`. */
  function CwdAt(batch: seq<Command>, i: nat, cwd: string, chdir: Chdir, k: nat): string
    requires i <= k <= |batch|
    decreases k - i
  {
    if i == k then cwd else CwdAt(batch, i + 1, CwdAfter(batch[i], cwd, chdir), chdir, k)
  }

  /** No misused `cd` occurs in `batch[i..k]`, so the dispatcher gets as far as `batch[k]`. */
  predicate Reached(batch: seq<Command>, i: nat, k: int) {
    && i <= k < |batch|
    && forall j :: i <= j < k ==> !CdMisuse(batch[j])
  }

  /** The position at which the dispatcher stops: the first misused `cd`, or the end. */
  function StopAt(batch: seq<Command>, i: nat): nat
    requires i <= |batch|
  {
    FirstIndex(batch, CdMisuse, i).GetOr(|batch|)
  }

  /** The spawn request `s` is the one the external command `batch[s.index]` should produce. */
  predicate Spawned(batch: seq<Command>, i: nat, sh: Shell, chdir: Chdir, s: SpawnRequest) {
    && Reached(batch, i, s.index)
    && IsExternal(batch[s.index])
    && s.command == ParseRedir(batch[s.index]).command
    && s.paths == PathsAt(batch, i, sh.paths, s.index)
    && s.cwd == CwdAt(batch, i, sh.cwd, chdir, s.index)
  }

  /** Every request of `spawns` is one that `batch[i..]`, started in `sh`, should produce. */
  predicate AllSpawned(batch: seq<Command>, i: nat, sh: Shell, chdir: Chdir, spawns: seq<SpawnRequest>) {
    forall n :: 0 <= n < |spawns| ==> Spawned(batch, i, sh, chdir, spawns[n])
  }

  /** The requests appear in the order of their commands. */
  predicate InBatchOrder(spawns: seq<SpawnRequest>) {
    forall m, n :: 0 <= m < n < |spawns| ==> spawns[m].index < spawns[n].index
  }

  /** Some request of `spawns` belongs to `batch[k]`. */
  predicate HasSpawnFor(spawns: seq<SpawnRequest>, k: int) {
    exists n :: 0 <= n < |spawns| && spawns[n].index == k
  }

  /** Every external command of `batch[i..]` that the dispatcher reaches has its request. */
  ghost predicate CoversReached(batch: seq<Command>, i: nat, spawns: seq<SpawnRequest>) {
    forall k :: Reached(batch, i, k) && IsExternal(batch[k]) ==> HasSpawnFor(spawns, k)
  }

  // ---------------------------------------------------------------------------
  // The search path and the working directory in force

  lemma {:induction false} PathsAtSplit(batch: seq<Command>, i: nat, p: seq<string>, m: nat, k: nat)
    requires i <= m <= k <= |batch|
    ensures PathsAt(batch, i, p, k) == PathsAt(batch, m, PathsAt(batch, i, p, m), k)
    decreases m - i
  {
    if i < m {
      PathsAtSplit(batch, i + 1, PathsAfter(batch[i], p), m, k);
    }
  }

  /** Without a `path` command in `batch[i..k]` the search path is untouched. */
  lemma {:induction false} PathsAtNoPathCommand(batch: seq<Command>, i: nat, p: seq<string>, k: nat)
    requires i <= k <= |batch|
    requires forall m :: i <= m < k ==> !IsPathCommand(batch[m])
    ensures PathsAt(batch, i, p, k) == p
    decreases k - i
  {
    if i < k {
      PathsAtNoPathCommand(batch, i + 1, p, k);
    }
  }

  /** The search path in force is the one set by the last `path` command before that point. */
  lemma PathsAtLastPathCommand(batch: seq<Command>, i: nat, p: seq<string>, j: nat, k: nat)
    requires i <= j < k <= |batch|
    requires IsPathCommand(batch[j])
    requires forall m :: j < m < k ==> !IsPathCommand(batch[m])
    ensures PathsAt(batch, i, p, k) == SetPaths(batch[j].tokens)
  {
    PathsAtSplit(batch, i, p, j, k);
    PathsAtNoPathCommand(batch, j + 1, SetPaths(batch[j].tokens), k);
  }

  lemma {:induction false} CwdAtSplit(batch: seq<Command>, i: nat, cwd: string, chdir: Chdir, m: nat, k: nat)
    requires i <= m <= k <= |batch|
    ensures CwdAt(batch, i, cwd, chdir, k) == CwdAt(batch, m, CwdAt(batch, i, cwd, chdir, m), chdir, k)
    decreases m - i
  {
    if i < m {
      CwdAtSplit(batch, i + 1, CwdAfter(batch[i], cwd, chdir), chdir, m, k);
    }
  }

  /** Without a `cd` in `batch[i..k]` the working directory is untouched. */
  lemma {:induction false} CwdAtNoCd(batch: seq<Command>, i: nat, cwd: string, chdir: Chdir, k: nat)
    requires i <= k <= |batch|
    requires forall m :: i <= m < k ==> !IsCdCommand(batch[m])
    ensures CwdAt(batch, i, cwd, chdir, k) == cwd
    decreases k - i
  {
    if i < k {
      CwdAtNoCd(batch, i + 1, cwd, chdir, k);
    }
  }

  /**
   * A `cd dir` whose `chdir` succeeds moves every later command, up to the
   * next `cd`, into the directory it reached.
   */
  lemma CwdAtAfterCd(batch: seq<Command>, i: nat, cwd: string, chdir: Chdir, j: nat, k: nat, dir: string)
    requires i <= j < k <= |batch|
    requires IsCdCommand(batch[j]) && |batch[j].tokens| == 2
    requires chdir(CwdAt(batch, i, cwd, chdir, j), batch[j].tokens[1]) == Some(dir)
    requires forall m :: j < m < k ==> !IsCdCommand(batch[m])
    ensures CwdAt(batch, i, cwd, chdir, k) == dir
  {
    CwdAtSplit(batch, i, cwd, chdir, j, k);
    CwdAtNoCd(batch, j + 1, dir, chdir, k);
  }

  // ---------------------------------------------------------------------------
  // Spawn requests

  /**
   * Every spawn request comes from an external command the dispatcher reached,
   * carries that command after redirection extraction, and the search path
   * and working directory left by the commands before it.
   */
  lemma {:induction false} DispatchSpawnsSound(batch: seq<Command>, i: nat, sh: Shell, chdir: Chdir)
    requires i <= |batch|
    ensures AllSpawned(batch, i, sh, chdir, Dispatch(batch, i, sh, chdir).spawns)
    decreases |batch| - i
  {
    if i < |batch| && !CdMisuse(batch[i]) {
      var step := RunCommand(batch[i], i, sh, chdir).value;
      DispatchSpawnsSound(batch, i + 1, step.shell, chdir);
      var rest := Dispatch(batch, i + 1, step.shell, chdir).spawns;
      forall n | 0 <= n < |rest|
        ensures Spawned(batch, i, sh, chdir, rest[n])
      {
        assert Spawned(batch, i + 1, step.shell, chdir, rest[n]);
      }
    }
  }

  /** Spawn requests follow the order of the commands in the batch. */
  lemma {:induction false} DispatchSpawnsOrdered(batch: seq<Command>, i: nat, sh: Shell, chdir: Chdir)
    requires i <= |batch|
    ensures InBatchOrder(Dispatch(batch, i, sh, chdir).spawns)
    decreases |batch| - i
  {
    if i < |batch| && !CdMisuse(batch[i]) {
      var step := RunCommand(batch[i], i, sh, chdir).value;
      DispatchSpawnsOrdered(batch, i + 1, step.shell, chdir);
      DispatchSpawnsSound(batch, i + 1, step.shell, chdir);
    }
  }

  /** Putting the request of a non-aborting `batch[i]` in front keeps the coverage. */
  lemma CoversPrepend(batch: seq<Command>, i: nat, head: seq<SpawnRequest>, rest: seq<SpawnRequest>)
    requires i < |batch| && !CdMisuse(batch[i])
    requires CoversReached(batch, i + 1, rest)
    requires IsExternal(batch[i]) ==> |head| == 1 && head[0].index == i
    ensures CoversReached(batch, i, head + rest)
  {
    var all := head + rest;
    forall k | Reached(batch, i, k) && IsExternal(batch[k])
      ensures HasSpawnFor(all, k)
    {
      if k == i {
        assert all[0].index == k;
      } else {
        assert Reached(batch, i + 1, k);
        var n :| 0 <= n < |rest| && rest[n].index == k;
        assert all[|head| + n].index == k;
      }
    }
  }

  /** Every external command the dispatcher reaches is spawned. */
  lemma {:induction false} DispatchSpawnsComplete(batch: seq<Command>, i: nat, sh: Shell, chdir: Chdir)
    requires i <= |batch|
    ensures CoversReached(batch, i, Dispatch(batch, i, sh, chdir).spawns)
    decreases |batch| - i
  {
    if i < |batch| {
      if CdMisuse(batch[i]) {
        assert forall k :: Reached(batch, i, k) ==> k == i;
      } else {
        var step := RunCommand(batch[i], i, sh, chdir).value;
        DispatchSpawnsComplete(batch, i + 1, step.shell, chdir);
        CoversPrepend(batch, i, step.spawned, Dispatch(batch, i + 1, step.shell, chdir).spawns);
      }
    }
  }

  /** A `cd` with a token count other than two spawns nothing from the rest of its batch. */
  lemma CdMisuseStopsBatch(batch: seq<Command>, i: nat, sh: Shell, chdir: Chdir, k: nat)
    requires i <= k < |batch| && CdMisuse(batch[k])
    ensures forall n :: 0 <= n < |Dispatch(batch, i, sh, chdir).spawns| ==>
      Dispatch(batch, i, sh, chdir).spawns[n].index < k
  {
    DispatchSpawnsSound(batch, i, sh, chdir);
  }

  // ---------------------------------------------------------------------------
  // Session state and errors

  /**
   * The batch is cut short exactly when it holds a misused `cd`, and the state
   * left behind is the one the commands before the stopping point produce.
   */
  lemma {:induction false} DispatchStops(batch: seq<Command>, i: nat, sh: Shell, chdir: Chdir)
    requires i <= |batch|
    ensures Dispatch(batch, i, sh, chdir).aborted <==> exists k :: i <= k < |batch| && CdMisuse(batch[k])
    ensures Dispatch(batch, i, sh, chdir).shell ==
      Shell(PathsAt(batch, i, sh.paths, StopAt(batch, i)), CwdAt(batch, i, sh.cwd, chdir, StopAt(batch, i)))
    decreases |batch| - i
  {
    if i < |batch| {
      if CdMisuse(batch[i]) {
        assert StopAt(batch, i) == i;
      } else {
        var step := RunCommand(batch[i], i, sh, chdir).value;
        DispatchStops(batch, i + 1, step.shell, chdir);
        assert StopAt(batch, i) == StopAt(batch, i + 1);
      }
    }
  }

  /** Without a `cd` in the batch the working directory does not change. */
  lemma DispatchKeepsCwd(batch: seq<Command>, i: nat, sh: Shell, chdir: Chdir)
    requires i <= |batch|
    requires forall k :: i <= k < |batch| ==> !IsCdCommand(batch[k])
    ensures Dispatch(batch, i, sh, chdir).shell.cwd == sh.cwd
  {
    DispatchStops(batch, i, sh, chdir);
    CwdAtNoCd(batch, i, sh.cwd, chdir, StopAt(batch, i));
  }

  /** A malformed redirection in a command the dispatcher reaches writes the error message. */
  lemma {:induction false} DispatchReportsRedirErrors(batch: seq<Command>, i: nat, sh: Shell, chdir: Chdir, k: nat)
    requires Reached(batch, i, k) && IsExternal(batch[k]) && ParseRedir(batch[k]).reported
    ensures Dispatch(batch, i, sh, chdir).errors > 0
    decreases k - i
  {
    var step := RunCommand(batch[i], i, sh, chdir).value;
    if i < k {
      DispatchReportsRedirErrors(batch, i + 1, step.shell, chdir, k);
    } else {
      assert step.errors == 1;
    }
  }

  /** A `cd` the dispatcher reaches whose directory change fails writes the error message. */
  lemma {:induction false} DispatchReportsChdirErrors(batch: seq<Command>, i: nat, sh: Shell, chdir: Chdir, k: nat)
    requires Reached(batch, i, k) && ChdirFails(batch[k], CwdAt(batch, i, sh.cwd, chdir, k), chdir)
    ensures Dispatch(batch, i, sh, chdir).errors > 0
    decreases k - i
  {
    var step := RunCommand(batch[i], i, sh, chdir).value;
    if i < k {
      DispatchReportsChdirErrors(batch, i + 1, step.shell, chdir, k);
    } else {
      assert step.errors == 1;
    }
  }

  /**
   * Built-ins never go through redirection extraction: `path > out` makes the
   * search path `>`, `out` without any error.
   */
  lemma PathKeepsRedirToken(sh: Shell, chdir: Chdir)
    ensures Dispatch([NewCommand([PathBuiltin, ">", "out"])], 0, sh, chdir)
      == BatchResult(sh.(paths := [">", "out"]), [], 0, false)
  {
    assert [PathBuiltin, ">", "out"][1..] == [">", "out"];
  }

  // ---------------------------------------------------------------------------
  // Whole lines

  /** Only the exact line `exit` ends the session; it is recognised before any parsing. */
  lemma ExitOnlyExact(line: string, sh: Shell, chdir: Chdir)
    ensures ProcessLine(line, sh, chdir) == Exit <==> line == ExitLine
  {
  }

  /** A line of nothing but spaces and separators changes nothing, spawns nothing and reports nothing. */
  lemma BlankLineIsNoOp(line: string, sh: Shell, chdir: Chdir)
    requires Strip(line) == ""
    ensures ProcessLine(line, sh, chdir) == Continue(BatchResult(sh, [], 0, false))
  {
    if line != "" {
      ParseEmptyIff(line);
      assert line != ExitLine by {
        assert Strip(ExitLine) != "";
      }
    }
  }

  /** A line spawns at most one process per separator, plus one. */
  /**
   * Any line other than the empty one and `exit` is the batch of its parsed
   * commands: its spawn requests are exactly the reached external commands of
   * that batch, in order, and it stops at the first misused `cd` with the
   * search path and directory in force there.
   */
  lemma LineSpawns(line: string, sh: Shell, chdir: Chdir)
    requires line != "" && line != ExitLine
    ensures ProcessLine(line, sh, chdir).Continue?
    ensures AllSpawned(ParseParallel(line), 0, sh, chdir, ProcessLine(line, sh, chdir).result.spawns)
    ensures InBatchOrder(ProcessLine(line, sh, chdir).result.spawns)
    ensures CoversReached(ParseParallel(line), 0, ProcessLine(line, sh, chdir).result.spawns)
    ensures ProcessLine(line, sh, chdir).result.aborted <==>
      exists k :: 0 <= k < |ParseParallel(line)| && CdMisuse(ParseParallel(line)[k])
    ensures ProcessLine(line, sh, chdir).result.shell ==
      Shell(PathsAt(ParseParallel(line), 0, sh.paths, StopAt(ParseParallel(line), 0)),
            CwdAt(ParseParallel(line), 0, sh.cwd, chdir, StopAt(ParseParallel(line), 0)))
  {
    var batch := ParseParallel(line);
    DispatchSpawnsSound(batch, 0, sh, chdir);
    DispatchSpawnsOrdered(batch, 0, sh, chdir);
    DispatchSpawnsComplete(batch, 0, sh, chdir);
    DispatchStops(batch, 0, sh, chdir);
  }

  /**
   * `a b&c d>e` with two external programs `a` and `c` (say `echo x&ls y>out`)
   * spawns both commands, in order, with the current search path and
   * directory; the second writes to `e`. Nothing else changes and nothing is
   * reported.
   */
  lemma ParallelLineExample(a: string, b: string, c: string, d: string, e: string, sh: Shell, chdir: Chdir)
    requires a != "" && Plain(a) && b != "" && Plain(b)
    requires c != "" && Plain(c) && d != "" && Plain(d) && e != "" && Plain(e)
    requires a != PathBuiltin && a != CdBuiltin && c != PathBuiltin && c != CdBuiltin
    ensures ProcessLine(a + [Space] + b + [ParallelChar] + c + [Space] + d + [RedirChar] + e, sh, chdir) ==
      Continue(BatchResult(sh, [SpawnRequest(0, NewCommand([a, b]), sh.paths, sh.cwd),
                                SpawnRequest(1, Command([c, d], e, true), sh.paths, sh.cwd)], 0, false))
  {
    var line := a + [Space] + b + [ParallelChar] + c + [Space] + d + [RedirChar] + e;
    assert line != "" && line != ExitLine by {
      assert line[|a|] == Space;
    }
    var first := NewCommand([a, b]);
    var second := NewCommand([c, d, RedirToken, e]);
    ParallelLineParse(a, b, c, d, e);
    var batch := [first, second];
    assert ParseRedir(first) == RedirResult(first, false) by {
      assert a != RedirToken && b != RedirToken by {
        assert !IsSpecial(a[0]) && !IsSpecial(b[0]);
      }
      assert forall i :: 0 <= i < |first.tokens| ==> first.tokens[i] != RedirToken;
    }
    assert c != RedirToken && d != RedirToken by {
      assert !IsSpecial(c[0]) && !IsSpecial(d[0]);
    }
    assert FirstRedirAt(second.tokens, 2);
    assert ParseRedir(second) == RedirResult(Command([c, d], e, true), false) by {
      assert second.tokens[..2] == [c, d];
    }
    var s1 := RunCommand(first, 0, sh, chdir).value;
    assert s1 == StepResult(sh, [SpawnRequest(0, first, sh.paths, sh.cwd)], 0);
    var s2 := RunCommand(second, 1, sh, chdir).value;
    assert s2 == StepResult(sh, [SpawnRequest(1, Command([c, d], e, true), sh.paths, sh.cwd)], 0);
    assert Dispatch(batch, 2, sh, chdir) == BatchResult(sh, [], 0, false);
    assert Dispatch(batch, 1, sh, chdir) == BatchResult(sh, s2.spawned, 0, false);
  }

  lemma LineSpawnCount(line: string, sh: Shell, chdir: Chdir)
    requires ProcessLine(line, sh, chdir).Continue?
    ensures |ProcessLine(line, sh, chdir).result.spawns| <= Occurrences(line, ParallelChar) + 1
  {
  }

  /**
   * The invariant of a spawned command: no operator token is left, and a
   * recorded redirection has a non-empty target and a non-empty argument list.
   */
  predicate RedirectionSettled(d: Command) {
    && (forall t :: t in d.tokens ==> t != RedirToken)
    && (d.hasRedirection ==> d.redirFile != "" && d.tokens != [])
  }

  /** Every command a batch of freshly parsed commands spawns satisfies the redirection invariant. */
  lemma BatchSpawnsSettled(batch: seq<Command>, sh: Shell, chdir: Chdir)
    requires forall c :: c in batch ==> FreshlyParsed(c)
    ensures forall n :: 0 <= n < |Dispatch(batch, 0, sh, chdir).spawns| ==>
      RedirectionSettled(Dispatch(batch, 0, sh, chdir).spawns[n].command)
  {
    var r := Dispatch(batch, 0, sh, chdir);
    DispatchSpawnsSound(batch, 0, sh, chdir);
    forall n | 0 <= n < |r.spawns|
      ensures RedirectionSettled(r.spawns[n].command)
    {
      assert Spawned(batch, 0, sh, chdir, r.spawns[n]);
      var k := r.spawns[n].index;
      assert batch[k] in batch;
      RedirRemovesOperator(batch[k]);
      RedirTargetNonEmpty(batch[k]);
    }
  }
}
