# wish: a verified model of the shell's command-line front end

This project models the front end of `wish`, a small Unix shell, in Dafny. It
covers four parts:

- the parallel splitter, which turns one input line into commands made of string tokens;
- redirection extraction for a single command;
- executable resolution along the search path;
- the per-line dispatcher, which runs the built-ins `path` and `cd`, spots the
  exact line `exit`, and issues one spawn request per external command.

Every part is a pure function over strings and sequences. The operating-system
checks are parameters:

- `isExec: string -> bool` stands for `access(…, X_OK)` as the spawned
  process sees it, from the directory recorded in its spawn request, so a
  relative search-path entry is resolved there (wish.cpp:57);
- `chdir: (string, string) -> Option<string>` stands for `chdir` (current
  directory and argument give the new directory, or a failure).

Files, one module each:

- `wrappers.dfy`: `Option`.
- `sequences.dfy`: `FirstIndex`, the first-match scan. Both the search for the
  `>` token and the search along the path use it.
- `commands.dfy`: the `Command` record (`tokens`, `redirFile`,
  `hasRedirection`). It also holds the token-shape predicates and `Concat`,
  `Flatten`, `Strip`, `Occurrences`.
- `tokenizer.dfy`: `parseParallel`/`addToken` as a left-to-right fold. `Step`
  is the loop body and `Run` is the loop.
- `redirection.dfy`: `parseRedir`.
- `resolver.dfy`: the search loop of `child`.
- `dispatcher.dfy`: `process_command` and `set_paths`. The session state is
  `Shell(paths, cwd)`. A line yields `Exit` or a `BatchResult` holding:
  - the new state;
  - the spawn requests in order, each with its batch index, its command after
    redirection extraction, and snapshots of the search path and the working
    directory that the new process inherits;
  - the number of error messages written;
  - whether a misused `cd` cut the batch short.

## Model

| member | source | states |
|---|---|---|
| Tokenizer.ParseParallel | wish.cpp:104-133 | no command is empty; every token is `>` alone or a non-empty word without ` `, `&`, `>`; the tokens of all commands, in order, spell the line with spaces and `&` removed; there are at most (number of `&`) + 1 commands; no command carries a redirection yet |
| Tokenizer.RunKeepsWellFormed | wish.cpp:96-127 | the loop keeps its invariant: closed commands non-empty with well-formed tokens, current tokens well formed, the pending token free of ` `, `&`, `>` |
| Tokenizer.RunContent | wish.cpp:109-127 | every character other than ` ` and `&` moves into the tokens in input order; nothing else does |
| Tokenizer.RunCount | wish.cpp:117-131 | only a `&` closes a command during the loop, and the final flush adds at most one more |
| Tokenizer.ParseEmptyIff | wish.cpp:120-131 | a line yields no command exactly when it holds only spaces and `&` |
| Tokenizer.BlankLineHasNoCommands | wish.cpp:110-112 | an empty or all-space line yields no command |
| Tokenizer.ParallelSplit | wish.cpp:117-123 | the commands of `a&b` are those of `a` followed by those of `b`; an `&` with nothing before it adds no command |
| Tokenizer.RedirNeedsNoSpaces | wish.cpp:113-116 | `>` forces token boundaries on both sides: `a>b` parses exactly like `a > b` |
| Tokenizer.SpacesCollapse | wish.cpp:110-112 | two spaces in a row parse exactly like one |
| Tokenizer.OuterSpacesIgnored | wish.cpp:110-112 | a leading or trailing space does not change the commands |
| Tokenizer.WordsFormOneCommand | wish.cpp:109-131 | a space ends a token, `>` is a token of its own and a run of ordinary characters stays one token: any non-empty list of tokens, each `>` or a non-empty word without ` `, `&`, `>`, joined by single spaces, parses as one command whose tokens are exactly that list |
| Tokenizer.SpaceEndsTargetToken | wish.cpp:110-116 | a space after the target of `>` still ends it: `ls > a b` is the four tokens `ls`, `>`, `a`, `b` |
| Tokenizer.SpaceSeparatesWords | wish.cpp:110-112 | `a b` (two such words) is the two tokens `a` and `b` of one command, never a single joined token |
| Tokenizer.RedirLineParse | wish.cpp:109-131 | for any plain words `c`, `d`, `e`, the line `c d>e` is the single command `c`, `d`, `>`, `e` |
| Tokenizer.ParallelLineParse | wish.cpp:104-133 | for any plain words, `a b&c d>e` is the two commands `a b` and `c d > e`, in that order |
| Redirection.ParseRedir | wish.cpp:76-93 | no `>` token: command unchanged, no error; first `>` at `i` with `i != 0` and `i == n-2`: tokens become `tokens[..i]`, target `tokens[i+1]`, flag set, no error; first `>` elsewhere: tokens emptied, error reported |
| Redirection.RedirRemovesOperator | wish.cpp:78-89 | after extraction no `>` token remains in the argument list |
| Redirection.RedirIdempotent | wish.cpp:76-93 | a second extraction changes nothing and reports nothing |
| Redirection.RedirTargetNonEmpty | wish.cpp:84-89 | on a command from the tokenizer, a recorded redirection has a non-empty target and non-empty arguments; otherwise the target stays empty |
| Redirection.RedirReportedIffCleared | wish.cpp:80-83 | on a non-empty command, an error is reported exactly when the argument list is emptied |
| Redirection.SecondOperatorBecomesTarget | wish.cpp:79-89 | only the first `>` is inspected: `ls > >` is accepted with target `>` |
| Resolver.Resolve | wish.cpp:54-63 | returns none exactly when no directory has an executable candidate; otherwise returns `dir + "/" + name` for the first such directory in path order |
| Resolver.ResolveAppend | wish.cpp:55-57 | searching `p1 + p2` gives the result for `p1` if there is one, else the result for `p2` |
| Resolver.Child | wish.cpp:54-66 | fails exactly when no directory matches; otherwise redirects (only when the command asks for it, to its target) and then executes the first match with the full token list; an emptied command is covered when the search path is empty, where it fails |
| Resolver.EmptyPathFindsNothing | wish.cpp:64-65 | with an empty search path every command fails, an emptied one included |
| Dispatcher.RunCommand | wish.cpp:144-170 | only a misused `cd` ends the batch; `path` replaces the search path with its arguments and only a successful two-token `cd` moves the directory; exactly one error is written for a failed `chdir` or a malformed redirection, none otherwise; only an external command produces a request, carrying the command after redirection extraction and the current search path and directory |
| Dispatcher.Dispatch | wish.cpp:143-171 | at most one spawn request per remaining command; a cut-short batch has written an error |
| Dispatcher.PathsAtLastPathCommand | wish.cpp:146-147 | the search path in force at a command is the argument list of the last `path` command before it |
| Dispatcher.PathsAtNoPathCommand | wish.cpp:146-147 | with no `path` command before it, a command sees the search path the line started with |
| Dispatcher.CwdAtAfterCd | wish.cpp:153-155 | after a `cd dir` whose `chdir` succeeds, later commands up to the next `cd` run in the directory it reached |
| Dispatcher.CwdAtNoCd | wish.cpp:148-155 | with no `cd` before it, a command runs in the directory the line started in |
| Dispatcher.DispatchSpawnsSound | wish.cpp:143-170 | every spawn request belongs to an external command that was reached; it carries that command after redirection extraction, and the search path and directory left by the commands before it |
| Dispatcher.DispatchSpawnsOrdered | wish.cpp:143-165 | spawn requests follow the commands' left-to-right order |
| Dispatcher.DispatchSpawnsComplete | wish.cpp:156-165 | every external command that is reached gets a spawn request, including one whose redirection is malformed |
| Dispatcher.CdMisuseStopsBatch | wish.cpp:148-152 | after a `cd` whose token count is not 2, no later command of the batch is spawned |
| Dispatcher.DispatchStops | wish.cpp:146-155 | the batch is cut short exactly when it holds a misused `cd`; the search path and directory left behind are those in force where dispatch stopped |
| Dispatcher.DispatchKeepsCwd | wish.cpp:148-155 | with no `cd` in the batch the working directory is unchanged |
| Dispatcher.DispatchReportsRedirErrors | wish.cpp:156-157 | a malformed redirection in a reached external command makes the line write an error |
| Dispatcher.DispatchReportsChdirErrors | wish.cpp:153-155 | a reached `cd dir` whose directory change fails, from the directory in force at that point, makes the line write an error |
| Dispatcher.PathKeepsRedirToken | wish.cpp:68-74 | built-ins never go through redirection extraction: `path > out` sets the search path to `>`, `out` with no error |
| Dispatcher.LineSpawns | wish.cpp:136-171 | a line other than the empty one and `exit` always continues; its spawn requests are exactly the reached external commands of its parse, each after `parseRedir` with the search path and directory in force, in batch order; it aborts exactly when its parse holds a misused `cd`, leaving the state in force at that command |
| Dispatcher.ParallelLineExample | wish.cpp:136-171 | `a b&c d>e` with external programs `a` and `c` spawns `a b` and then `c d` redirected to `e`, both with the current state, and reports nothing |
| Dispatcher.ExitOnlyExact | wish.cpp:137-138 | a line ends the session exactly when it equals `exit`; this is decided before parsing |
| Dispatcher.BlankLineIsNoOp | wish.cpp:136-140 | a line of only spaces and `&` leaves the state alone, spawns nothing and reports nothing |
| Dispatcher.LineSpawnCount | wish.cpp:140-165 | a line makes at most (number of `&`) + 1 spawn requests |
| Dispatcher.BatchSpawnsSettled | wish.cpp:156-158 | for a batch from the tokenizer, every spawned command has no `>` token left, and a recorded redirection has a non-empty target and arguments |

## Behaviour worth knowing

- A command with two `>` tokens is accepted when the first `>` is
  second-to-last: only the first `>` is inspected, and the last token, even
  `>` itself, becomes the target (`Redirection.SecondOperatorBecomesTarget`).
  When the first `>` is anywhere else (`ls > > x`, `> a >`), the command is
  rejected like any other malformed redirection.
- A command whose redirection is malformed is not skipped. It is emptied and
  still forked (wish.cpp:157-162). The dispatcher issues a spawn request whose
  command has no tokens.

## Left out

- Process and file effects: `fork`, `execv`, `waitpid`, `open`, `dup2`, `close`
  (wish.cpp:40-52, 158-175). A spawn request stands for one `fork` call. A
  failed `fork` is not modelled.
- Waiting: the wait-all loop and the fact that a `cd` arity error returns
  before it (wish.cpp:151, 173-175). Reaping processes is not parser logic.
- The child of an emptied command when the search path is non-empty. It
  builds a candidate from a null first argument (wish.cpp:56), which is
  undefined behaviour. With an empty search path the loop never runs and the
  child fails (wish.cpp:64-65); `Resolver.Child` covers that case.
- Memory handling: `freeMem`, and `new[]`/`delete[]` in `addToken`
  (wish.cpp:30-38, 98). The model uses immutable sequences of strings.
- The null argument terminator (wish.cpp:158): a platform detail of `execv`.
- Input and start-up: `batch_mode`, `interactive_mode`, `main`, the prompt,
  the default search path `/bin` (wish.cpp:181-219). The dispatcher takes the
  session state as input, so a session is one `ProcessLine` per line.
- The error text (wish.cpp:26-28). The model counts how often it is written.
- Integer width: `int tokensEnd` in `parseRedir` (wish.cpp:77). Token counts
  are unbounded here.
- Dispatcher.Dispatch: the batch's total error count is not stated at batch
  level. Each command's count is exact in `Dispatcher.RunCommand`, and
  `Dispatch` adds them up. The batch-level contracts only say that an aborted
  batch, a reached malformed redirection and a reached failing `cd` each
  write at least one error.
- NUL characters and bytes. In the source, tokens become C strings
  (wish.cpp:98-99) and are compared with `strcmp` (wish.cpp:79, 146, 148), so a
  token ends at its first `'\0'`. The model treats `'\0'` as an ordinary
  character. On a line containing NUL the source can store an empty token,
  and can recognise `path\0x` as `path`; the token-shape, content and built-in
  claims here describe NUL-free lines only. Input bytes are modelled as
  `char`; all three special characters are ASCII.
- Concurrency with earlier children. The `chdir` oracle is one fixed function
  of the directory and the argument for the whole line. Processes forked
  earlier in the same line run at the same time and may change the file
  system (`mkdir d & cd d`), so the real outcome of `chdir` can depend on
  timing.
