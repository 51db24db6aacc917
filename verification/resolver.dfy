/**
 * Executable resolution of `wish.cpp` (`child`): the search path is tried in
 * order and the first `dir + "/" + name` that passes the execute-permission
 * check wins. The permission check (`access` with `X_OK`) is the parameter
 * `isExec`. It runs in the spawned process, so `isExec` is the check as seen
 * from that process's directory (the spawn request's `cwd`): a relative
 * search-path entry such as `bin` is resolved there. The redirection and the
 * image replacement that follow a match are described, not performed.
 */
module Resolver {
  import opened Wrappers
  import opened Sequences
  import opened Commands

  /** The candidate file for `name` in directory `dir`. */
  function Candidate(dir: string, name: string): string {
    dir + "/" + name
  }

  /** `i` is the first directory of `paths` holding an executable `name`. */
  ghost predicate FirstMatchAt(paths: seq<string>, name: string, isExec: string -> bool, i: int) {
    && 0 <= i < |paths|
    && isExec(Candidate(paths[i], name))
    && forall j :: 0 <= j < i ==> !isExec(Candidate(paths[j], name))
  }

  /** The first executable candidate for `name` along the search path, if any. */
  function Resolve(paths: seq<string>, name: string, isExec: string -> bool): (r: Option<string>)
    ensures r.None? <==> forall j :: 0 <= j < |paths| ==> !isExec(Candidate(paths[j], name))
    ensures r.Some? ==> exists i :: FirstMatchAt(paths, name, isExec, i) && r.value == Candidate(paths[i], name)
  {
    match FirstIndex(paths, (d: string) => isExec(Candidate(d, name)), 0)
    case None => None
    case Some(i) =>
      assert FirstMatchAt(paths, name, isExec, i);
      Some(Candidate(paths[i], name))
  }

  lemma FirstMatchUnique(paths: seq<string>, name: string, isExec: string -> bool, i: int, k: int)
    requires FirstMatchAt(paths, name, isExec, i) && FirstMatchAt(paths, name, isExec, k)
    ensures i == k
  {
  }

  /**
   * Searching a concatenated path is searching the first part and only then
   * the second: a later directory can never shadow an earlier one.
   */
  lemma ResolveAppend(p1: seq<string>, p2: seq<string>, name: string, isExec: string -> bool)
    ensures Resolve(p1 + p2, name, isExec) ==
      if Resolve(p1, name, isExec).Some? then Resolve(p1, name, isExec) else Resolve(p2, name, isExec)
  {
    var p := p1 + p2;
    var r1 := Resolve(p1, name, isExec);
    var r := Resolve(p, name, isExec);
    if r1.Some? {
      var i :| FirstMatchAt(p1, name, isExec, i) && r1.value == Candidate(p1[i], name);
      assert FirstMatchAt(p, name, isExec, i);
      var k :| FirstMatchAt(p, name, isExec, k) && r.value == Candidate(p[k], name);
      FirstMatchUnique(p, name, isExec, i, k);
    } else {
      var r2 := Resolve(p2, name, isExec);
      assert forall j :: 0 <= j < |p1| ==> p[j] == p1[j];
      assert forall j :: |p1| <= j < |p| ==> p[j] == p2[j - |p1|];
      if r2.Some? {
        var i :| FirstMatchAt(p2, name, isExec, i) && r2.value == Candidate(p2[i], name);
        assert FirstMatchAt(p, name, isExec, |p1| + i);
        var k :| FirstMatchAt(p, name, isExec, k) && r.value == Candidate(p[k], name);
        FirstMatchUnique(p, name, isExec, |p1| + i, k);
      } else {
        assert forall j :: 0 <= j < |p| ==> !isExec(Candidate(p[j], name));
      }
    }
  }

  /** What the spawned process ends up doing. */
  datatype ChildOutcome =
    | Execute(program: string, argv: seq<string>, redirectTo: Option<string>)
      // replaces its image with `program`, after sending both output streams to `redirectTo`
    | NotFound
      // writes the error message and exits with status 1

  /**
   * The spawned process for `cmd`: it applies the redirection only when a
   * match is found, before executing that match with the full token list as
   * arguments; without a match it fails and redirects nothing. A command
   * emptied by a malformed redirection is covered only with an empty search
   * path, where the loop never reads its (null) program name.
   */
  function Child(cmd: Command, paths: seq<string>, isExec: string -> bool): (r: ChildOutcome)
    requires cmd.tokens != [] || paths == []
    ensures r.NotFound? <==> forall j :: 0 <= j < |paths| ==> !isExec(Candidate(paths[j], cmd.tokens[0]))
    ensures r.Execute? ==>
      && (exists i :: FirstMatchAt(paths, cmd.tokens[0], isExec, i) && r.program == Candidate(paths[i], cmd.tokens[0]))
      && r.argv == cmd.tokens
      && (r.redirectTo.Some? <==> cmd.hasRedirection)
      && (cmd.hasRedirection ==> r.redirectTo.value == cmd.redirFile)
  {
    if paths == [] then NotFound
    else
      match Resolve(paths, cmd.tokens[0], isExec)
      case None => NotFound
      case Some(exe) =>
        Execute(exe, cmd.tokens, if cmd.hasRedirection then Some(cmd.redirFile) else None)
  }

  /** With an empty search path every external command fails, an emptied one included. */
  lemma EmptyPathFindsNothing(cmd: Command, isExec: string -> bool)
    ensures Child(cmd, [], isExec) == NotFound
  {
  }
}
