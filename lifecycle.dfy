/**
 * The orchestration of one lifecycle stage (index.js:39-167, 213-344): the
 * package argument, the early skip, the working directory, the script
 * environment, the shell, the classification of a finished process, the
 * decoration of its error and the `force`/`failOk` rule.
 */
module Lifecycle {
  import opened Wrappers
  import opened Text
  import opened Hooks

  // ------------------------------------------------------------------ logid

  /** `logid(pkg, stage)` (index.js:39-41). */
  function LogId(id: string, stage: string): string {
    id + "~" + stage + ":"
  }

  lemma FirstTilde(a: string, b: string, rest: string, rest2: string)
    requires '~' !in a && '~' !in b && a + "~" + rest == b + "~" + rest2
    ensures a == b && rest == rest2
  {
    var x, y := a + "~" + rest, b + "~" + rest2;
    assert x[|a|] == '~' && y[|b|] == '~';
    assert |a| == |b| by {
      if |a| < |b| {
        assert false;
      } else if |b| < |a| {
        assert false;
      }
    }
    assert a == x[..|a|] && b == y[..|b|];
    assert rest == x[|a| + 1..] && rest2 == y[|b| + 1..];
  }

  /** For package ids without `~`, the log id names the package and the stage. */
  lemma LogIdInjective(a: string, s: string, b: string, t: string)
    requires '~' !in a && '~' !in b
    requires LogId(a, s) == LogId(b, t)
    ensures a == b && s == t
  {
    assert LogId(a, s) == a + "~" + (s + ":");
    assert LogId(b, t) == b + "~" + (t + ":");
    FirstTilde(a, b, s + ":", t + ":");
    assert s == (s + ":")[..|s|] && t == (t + ":")[..|t|];
  }

  // -------------------------------------------------------- the package argument

  /** What describes the package to a stage: its `_id`, `name` and `scripts` (`{}` when missing). */
  datatype Package = Package(id: string, name: string, scripts: map<string, string>)

  /** The `pkg` argument: falsy, or an object whose own package is `pkg` and whose `_data` is `data`. */
  datatype PkgArg = Falsy | Object(data: PkgArg, pkg: Package)

  /** `while (pkg && pkg._data) pkg = pkg._data` and the check after it (index.js:59-60). */
  method Unwrap(arg: PkgArg) returns (r: Result<Package, string>)
    ensures r.Err? <==> arg.Falsy?
    ensures r.Err? ==> r.error == "Invalid package data"
    ensures r.Ok? ==> r.value == Innermost(arg)
  {
    var a := arg;
    while a.Object? && a.data.Object?
      invariant a.Falsy? ==> arg.Falsy?
      invariant a.Object? ==> arg.Object? && Innermost(a) == Innermost(arg)
      decreases a
    {
      a := a.data;
    }
    if a.Falsy? {
      return Err("Invalid package data");
    }
    return Ok(a.pkg);
  }

  /** The package of the innermost object of a `_data` chain. */
  function Innermost(a: PkgArg): Package
    requires a.Object?
  {
    if a.data.Object? then Innermost(a.data) else a.pkg
  }

  // ------------------------------------------------------- the early skip

  /** `delete pkg.scripts.prepublish` under `ignorePrepublish` (index.js:65-68). */
  function EffectiveScripts(scripts: map<string, string>, stage: string, ignorePrepublish: bool): (r: map<string, string>)
    ensures stage == "prepublish" && ignorePrepublish ==> "prepublish" !in r
    ensures forall k :: k in r ==> k in scripts && r[k] == scripts[k]
    ensures forall k :: k in scripts && (k != "prepublish" || stage != "prepublish" || !ignorePrepublish) ==> k in r
  {
    if stage == "prepublish" && ignorePrepublish then scripts - {"prepublish"} else scripts
  }

  /**
   * The package as the rest of the stage sees it once the scripts were
   * replaced by the effective ones: `makeEnv(pkg, opts)` at index.js:79
   * runs after the deletion of index.js:67.
   */
  function EffectivePackage(pkg: Package, stage: string, ignorePrepublish: bool): (r: Package)
    ensures r.id == pkg.id && r.name == pkg.name
    ensures stage == "prepublish" && ignorePrepublish ==> "prepublish" !in r.scripts
    ensures forall k :: k in r.scripts <==> k in pkg.scripts && (k != "prepublish" || stage != "prepublish" || !ignorePrepublish)
    ensures forall k :: k in r.scripts ==> r.scripts[k] == pkg.scripts[k]
  {
    pkg.(scripts := EffectiveScripts(pkg.scripts, stage, ignorePrepublish))
  }

  /** `!pkg.scripts[stage]`: no script, or an empty one. */
  predicate NoScript(scripts: map<string, string>, stage: string) {
    stage !in scripts || scripts[stage] == ""
  }

  /** What a stage does: nothing, or run the package script (when planned) and then the hook (when it exists). */
  datatype Plan = Skip | Run(script: Option<string>, hook: bool)

  /** The guard of index.js:73 and the chain of index.js:114-145; `hookFound` is the outcome of the hook's stat. */
  function PlanStage(scripts: map<string, string>, stage: string, hookFound: bool, ignoreScripts: bool): (p: Plan)
    ensures p.Skip? <==> NoScript(scripts, stage) && !hookFound
    ensures p.Run? ==> (p.script.Some? <==> stage in scripts && !ignoreScripts)
    ensures p.Run? && p.script.Some? ==> p.script.value == scripts[stage]
    ensures p.Run? ==> p.hook == hookFound
  {
    if NoScript(scripts, stage) && !hookFound then Skip
    else Run(if stage in scripts && !ignoreScripts then Some(scripts[stage]) else None, hookFound)
  }

  /** The commands a plan runs, in order: the package script before the hook. */
  function Commands(p: Plan, hookPath: string): (r: seq<string>)
    ensures p.Skip? ==> r == []
    ensures p.Run? ==> |r| == (if p.script.Some? then 1 else 0) + (if p.hook then 1 else 0)
    ensures p.Run? && p.script.Some? ==> r[0] == p.script.value
    ensures p.Run? && p.hook ==> r[|r| - 1] == hookPath
  {
    match p
    case Skip => []
    case Run(script, hook) =>
      (if script.Some? then [script.value] else []) + (if hook then [hookPath] else [])
  }

  /**
   * An empty script that is the package's own property still runs when the
   * hook exists: the guard tests truthiness, the chain `hasOwnProperty`.
   */
  lemma EmptyScriptRunsWithHook(scripts: map<string, string>, stage: string)
    requires stage in scripts && scripts[stage] == ""
    ensures PlanStage(scripts, stage, true, false) == Run(Some(""), true)
    ensures PlanStage(scripts, stage, false, false) == Skip
  {
  }

  // ------------------------------------------------------------- validWd

  /**
   * Where POSIX `path.dirname` cuts: the last `/` before the final name,
   * scanning down from `i` to 1; `-1` when there is none.
   */
  function DirEnd(p: string, i: int, matchedSlash: bool): (r: int)
    requires i < |p|
    ensures -1 <= r < |p|
    ensures r != -1 ==> r >= 1 && p[r] == '/'
    decreases i
  {
    if i < 1 then -1
    else if p[i] == '/' then (if !matchedSlash then i else DirEnd(p, i - 1, matchedSlash))
    else DirEnd(p, i - 1, false)
  }

  /** POSIX `path.dirname`. */
  function Dirname(p: string): string {
    if p == [] then "."
    else
      var end := DirEnd(p, |p| - 1, true);
      if end == -1 then (if p[0] == '/' then "/" else ".")
      else if p[0] == '/' && end == 1 then "//"
      else p[..end]
  }

  /** The walk towards the root stops where `dirname` no longer moves; this measure falls on every step. */
  function Height(p: string): nat {
    if p == "." || p == "/" then 0 else |p| + 1
  }

  lemma DirnameClimbs(p: string)
    requires Dirname(p) != p
    ensures Height(Dirname(p)) < Height(p)
  {
    if p != [] {
      var end := DirEnd(p, |p| - 1, true);
      if end != -1 && !(p[0] == '/' && end == 1) {
        assert |p[..end]| == end;
      }
    }
  }

  /** `validWd(d, cb)` (index.js:148-159); `isDir` says whether the stat found a directory. */
  function ValidWd(d: string, isDir: string -> bool): (r: Result<string, string>)
    ensures r.Ok? ==> isDir(r.value)
    ensures r.Err? ==> r.error == "Could not find suitable wd"
    decreases Height(d)
  {
    if isDir(d) then Ok(d)
    else if Dirname(d) == d then Err("Could not find suitable wd")
    else
      DirnameClimbs(d);
      ValidWd(Dirname(d), isDir)
  }

  /** `d` and the directories above it, up to where `dirname` stops moving. */
  function Ancestors(d: string): (r: seq<string>)
    ensures |r| >= 1 && r[0] == d
    decreases Height(d)
  {
    if Dirname(d) == d then [d]
    else
      DirnameClimbs(d);
      [d] + Ancestors(Dirname(d))
  }

  predicate NoDirectory(ds: seq<string>, isDir: string -> bool) {
    forall j :: 0 <= j < |ds| ==> !isDir(ds[j])
  }

  /** One step up: the ancestors of `d` are `d` and those of its parent, and the walk goes on there. */
  lemma ClimbStep(d: string, isDir: string -> bool)
    requires Dirname(d) != d && !isDir(d)
    ensures Ancestors(d) == [d] + Ancestors(Dirname(d))
    ensures ValidWd(d, isDir) == ValidWd(Dirname(d), isDir)
    ensures NoDirectory(Ancestors(d), isDir) <==> NoDirectory(Ancestors(Dirname(d)), isDir)
  {
    var a, b := Ancestors(d), Ancestors(Dirname(d));
    assert a == [d] + b;
    forall j | 0 <= j < |b| ensures a[j + 1] == b[j] { }
    if NoDirectory(b, isDir) {
      forall j | 0 <= j < |a| ensures !isDir(a[j]) {
        if j > 0 { assert a[j] == b[j - 1]; }
      }
    }
  }

  /** `validWd` fails exactly when neither `d` nor any directory above it is a directory. */
  lemma {:induction false} ValidWdFails(d: string, isDir: string -> bool)
    ensures ValidWd(d, isDir).Err? <==> NoDirectory(Ancestors(d), isDir)
    decreases Height(d)
  {
    if !isDir(d) && Dirname(d) != d {
      DirnameClimbs(d);
      ClimbStep(d, isDir);
      ValidWdFails(Dirname(d), isDir);
    }
  }

  /** When `validWd` succeeds, it yields the nearest directory among `d` and its ancestors. */
  lemma {:induction false} ValidWdIsNearest(d: string, isDir: string -> bool)
    requires ValidWd(d, isDir).Ok?
    ensures exists i :: 0 <= i < |Ancestors(d)| && Ancestors(d)[i] == ValidWd(d, isDir).value && NoDirectory(Ancestors(d)[..i], isDir)
    decreases Height(d)
  {
    var a := Ancestors(d);
    if isDir(d) {
      assert a[0] == d && a[..0] == [];
    } else {
      DirnameClimbs(d);
      ClimbStep(d, isDir);
      ValidWdIsNearest(Dirname(d), isDir);
      var b := Ancestors(Dirname(d));
      var i :| 0 <= i < |b| && b[i] == ValidWd(d, isDir).value && NoDirectory(b[..i], isDir);
      assert a[i + 1] == b[i];
      assert a[..i + 1] == [d] + b[..i];
      var pre := a[..i + 1];
      forall j | 0 <= j < i + 1 ensures !isDir(pre[j]) {
        if j > 0 { assert pre[j] == b[..i][j - 1]; }
      }
    }
  }

  /** POSIX `dirname` on a few paths: the parent, the root, the current directory, trailing slashes. */
  lemma DirnameExamples()
    ensures Dirname("/a/b") == "/a"
    ensures Dirname("/a") == "/"
    ensures Dirname("a") == "."
    ensures Dirname("/a/b/") == "/a"
    ensures Dirname("/") == "/"
  {
    assert DirEnd("/a/b", 3, true) == 2;
    assert DirEnd("/a/b/", 4, true) == 2;
  }

  // ----------------------------------------------------------------- the shell

  /** The program, its flag and `windowsVerbatimArguments`. */
  datatype Shell = Shell(sh: string, flag: string, verbatim: bool)

  /** index.js:231-242; an unset `opts.scriptShell` or `comspec` is `""`. */
  function SelectShell(scriptShell: string, win32: bool, comspec: string): (r: Shell)
    ensures scriptShell != "" ==> r == Shell(scriptShell, "-c", false)
    ensures scriptShell == "" && !win32 ==> r == Shell("sh", "-c", false)
    ensures scriptShell == "" && win32 ==> r == Shell(if comspec != "" then comspec else "cmd", "/d /s /c", true)
  {
    if scriptShell != "" then Shell(scriptShell, "-c", false)
    else if win32 then Shell(if comspec != "" then comspec else "cmd", "/d /s /c", true)
    else Shell("sh", "-c", false)
  }

  // ------------------------------------------------- outcomes and their errors

  /** What the stage's promise is rejected with: what a caller reads off the error object. */
  datatype Failure = Failure(message: string, code: string, errno: Option<int>, decoration: Option<Decoration>)

  /** The fields `procError` adds (index.js:312-315). */
  datatype Decoration = Decoration(pkgid: string, stage: string, script: string, pkgname: string)

  /** `PnpmError` prefixes its code with `ERR_PNPM_`. */
  const ChildProcessFailed := "ERR_PNPM_CHILD_PROCESS_FAILED"

  /** The `close` handler (index.js:278-289); signal `""` is none, code 0 or `null` is success. */
  function ClassifyClose(code: int, signal: string): (r: Option<Failure>)
    ensures r.None? <==> signal == "" && code == 0
    ensures signal != "" ==> r == Some(Failure("Command failed with signal \"" + signal + "\"", ChildProcessFailed, None, None))
    ensures signal == "" && code != 0 ==> r == Some(Failure("Exit status " + IntToDecimal(code), ChildProcessFailed, Some(code), None))
  {
    if signal != "" then Some(Failure("Command failed with signal \"" + signal + "\"", ChildProcessFailed, None, None))
    else if code != 0 then Some(Failure("Exit status " + IntToDecimal(code), ChildProcessFailed, Some(code), None))
    else None
  }

  /** The shell emulator's exit code (index.js:263-270): a plain `Error`, which has no code (`""`). */
  function ClassifyEmulator(code: int): (r: Option<Failure>)
    ensures r.None? <==> code == 0
    ensures r.Some? ==> r.value == Failure("Exit status " + IntToDecimal(code), "", Some(code), None)
  {
    if code != 0 then Some(Failure("Exit status " + IntToDecimal(code), "", Some(code), None)) else None
  }

  /** Both classifications put the code in the message as `${code}` renders it, and in `errno`. */
  lemma ExitStatusNamesCode(code: int)
    requires code != 0
    ensures var m := ClassifyClose(code, "").value.message;
      StartsWith(m, "Exit status ") && m[|"Exit status "|..] == IntToDecimal(code) && ClassifyClose(code, "").value.errno == Some(code)
    ensures ClassifyEmulator(code).value.message == ClassifyClose(code, "").value.message
  {
    var m := ClassifyClose(code, "").value.message;
    assert m[..|"Exit status "|] == "Exit status ";
    assert m[|"Exit status "|..] == IntToDecimal(code);
  }

  /** `${pkg._id} ${stage}: \`${cmd}\`\n` */
  function MessagePrefix(id: string, stage: string, cmd: string): string {
    id + " " + stage + ": `" + cmd + "`\n"
  }

  /** `procError` on an error (index.js:300-316). */
  function Decorate(er: Failure, id: string, name: string, stage: string, cmd: string): (r: Failure)
    ensures r.message == MessagePrefix(id, stage, cmd) + er.message
    ensures r.code == (if er.code == "EPERM" then "EPERM" else "ELIFECYCLE")
    ensures r.errno == er.errno
    ensures r.decoration == Some(Decoration(id, stage, cmd, name))
  {
    Failure(MessagePrefix(id, stage, cmd) + er.message, if er.code == "EPERM" then "EPERM" else "ELIFECYCLE", er.errno, Some(Decoration(id, stage, cmd, name)))
  }

  /** `procError(er)`: no error passes through as none. */
  function ProcError(er: Option<Failure>, id: string, name: string, stage: string, cmd: string): (r: Option<Failure>)
    ensures r.Some? <==> er.Some?
  {
    if er.Some? then Some(Decorate(er.value, id, name, stage, cmd)) else None
  }

  /** The original message can be read back after the prefix, and the code is one of two. */
  lemma DecorateKeepsMessage(er: Failure, id: string, name: string, stage: string, cmd: string)
    ensures var r := Decorate(er, id, name, stage, cmd);
      StartsWith(r.message, MessagePrefix(id, stage, cmd)) &&
      r.message[|MessagePrefix(id, stage, cmd)|..] == er.message &&
      (r.code == "EPERM" || r.code == "ELIFECYCLE") && (r.code == "EPERM" <==> er.code == "EPERM")
  {
    var r := Decorate(er, id, name, stage, cmd);
    var pre := MessagePrefix(id, stage, cmd);
    assert r.message[..|pre|] == pre;
    assert r.message[|pre|..] == er.message;
  }

  /** Decorating an already decorated error again stacks a second prefix; the code stays settled. */
  lemma DecorateCodeIdempotent(er: Failure, id: string, name: string, stage: string, cmd: string)
    ensures Decorate(Decorate(er, id, name, stage, cmd), id, name, stage, cmd).code == Decorate(er, id, name, stage, cmd).code
  {
  }

  /** `done(er)` (index.js:126-137): `force` or `failOk` drops the error. */
  function Done(er: Option<Failure>, force: bool, failOk: bool): (r: Option<Failure>)
    ensures r.Some? <==> er.Some? && !force && !failOk
    ensures r.Some? ==> r == er
  {
    if er.Some? && (force || failOk) then None else er
  }

  // ---------------------------------------------------------------- the chain

  /**
   * `chain` of slide over the planned commands (index.js:139-145): each runs
   * after the previous one succeeded; the first error ends the chain.
   */
  method Chain(cmds: seq<string>, run: string -> Option<Failure>) returns (ran: seq<string>, er: Option<Failure>)
    ensures |ran| <= |cmds| && ran == cmds[..|ran|]
    ensures forall i :: 0 <= i < |ran| - 1 ==> run(ran[i]).None?
    ensures er.None? ==> ran == cmds && forall i :: 0 <= i < |ran| ==> run(ran[i]).None?
    ensures er.Some? ==> ran != [] && er == run(ran[|ran| - 1])
    ensures er == FirstFailure(cmds, run)
    ensures ran == RanUntil(cmds, run)
  {
    ran, er := [], None;
    var j := 0;
    while j < |cmds|
      invariant 0 <= j <= |cmds| && ran == cmds[..j]
      invariant forall i :: 0 <= i < j ==> run(cmds[i]).None?
      invariant FirstFailure(cmds, run) == FirstFailure(cmds[j..], run)
      invariant RanUntil(cmds, run) == cmds[..j] + RanUntil(cmds[j..], run)
      invariant er.None?
    {
      ran := ran + [cmds[j]];
      er := run(cmds[j]);
      assert cmds[j..][1..] == cmds[j + 1..];
      assert cmds[..j + 1] == cmds[..j] + [cmds[j]];
      j := j + 1;
      if er.Some? {
        return;
      }
    }
    assert cmds[j..] == [];
  }

  /** The commands the chain starts: all of them up to and including the first that fails. */
  function RanUntil(cmds: seq<string>, run: string -> Option<Failure>): seq<string> {
    if cmds == [] then []
    else if run(cmds[0]).Some? then [cmds[0]]
    else [cmds[0]] + RanUntil(cmds[1..], run)
  }

  /** The error of the first failing command, if any. */
  function FirstFailure(cmds: seq<string>, run: string -> Option<Failure>): Option<Failure> {
    if cmds == [] then None
    else if run(cmds[0]).Some? then run(cmds[0])
    else FirstFailure(cmds[1..], run)
  }

  // ------------------------------------------------------ the script environment

  /** The names and values of the process that the stage reads (index.js:20-37, 81-90). */
  datatype Process = Process(
    execPath: string,           // process.execPath
    bundled: bool,              // process.pkg != null
    mainFile: Option<string>,   // require.main.filename
    cwd: string,                // process.cwd()
    defaultNodeGyp: Option<string>)

  /** The value `opts.extraEnv` gives `k`: its last entry for `k`, if any. */
  function ExtraLast(extra: seq<(string, string)>, k: string): Option<string>
    decreases |extra|
  {
    if extra == [] then None
    else if extra[|extra| - 1].0 == k then Some(extra[|extra| - 1].1)
    else ExtraLast(extra[..|extra| - 1], k)
  }

  predicate Truthy(env: map<string, string>, k: string) {
    k in env && env[k] != ""
  }

  /** `env.NODE || process.execPath` */
  function NodeValue(base: map<string, string>, proc: Process): string {
    if Truthy(base, "NODE") then base["NODE"] else proc.execPath
  }

  /** `require.main ? require.main.filename : process.cwd()`, or the executable when bundled. */
  function NpmExecPath(proc: Process): string {
    if proc.bundled then proc.execPath else if proc.mainFile.Some? then proc.mainFile.value else proc.cwd
  }

  /**
   * What the environment holds at `k` after index.js:79-100, later writes
   * first: `TMPDIR` (unless `unsafePerm`), then `extraEnv`, then the values
   * the stage sets, then what `makeEnv` returned. A node-gyp path that is
   * neither set nor found is `undefined`, which a child process does not see.
   * An `extraEnv` entry for `__proto__` is not stored.
   */
  function StageEnvAt(base: map<string, string>, stage: string, wd: string, proc: Process, extra: seq<(string, string)>, unsafePerm: bool, k: string): Option<string> {
    if k == "TMPDIR" && !unsafePerm then Some(wd)
    else if k != ProtoKey && ExtraLast(extra, k).Some? then ExtraLast(extra, k)
    else FixedEnvAt(base, stage, proc, k)
  }

  /** The environment after index.js:80-91, before `extraEnv`. */
  function FixedEnvAt(base: map<string, string>, stage: string, proc: Process, k: string): Option<string> {
    if k == "npm_config_node_gyp" then (if Truthy(base, k) then Some(base[k]) else proc.defaultNodeGyp)
    else if k == "INIT_CWD" then Some(proc.cwd)
    else if k == "npm_execpath" then Some(NpmExecPath(proc))
    else if k == "NODE" || k == "npm_node_execpath" then Some(NodeValue(base, proc))
    else if k == "npm_lifecycle_event" then Some(stage)
    else if k in base then Some(base[k])
    else None
  }

  /**
   * Assigns the entries of `opts.extraEnv` in order (index.js:92-96); the
   * assignment to `__proto__` stores nothing.
   */
  method AssignEntries(env0: map<string, string>, extra: seq<(string, string)>) returns (env: map<string, string>)
    ensures forall k :: k in env <==> (k != ProtoKey && ExtraLast(extra, k).Some?) || k in env0
    ensures forall k :: k in env ==> env[k] == if k != ProtoKey && ExtraLast(extra, k).Some? then ExtraLast(extra, k).value else env0[k]
  {
    env := env0;
    var j := 0;
    while j < |extra|
      invariant 0 <= j <= |extra|
      invariant forall k :: k in env <==> (k != ProtoKey && ExtraLast(extra[..j], k).Some?) || k in env0
      invariant forall k :: k in env ==> env[k] == if k != ProtoKey && ExtraLast(extra[..j], k).Some? then ExtraLast(extra[..j], k).value else env0[k]
    {
      assert extra[..j + 1][..j] == extra[..j];
      if extra[j].0 != ProtoKey {
        env := env[extra[j].0 := extra[j].1];
      }
      j := j + 1;
    }
    assert extra[..j] == extra;
  }

  /** The assignments of index.js:80-91. */
  method SetStageValues(base: map<string, string>, stage: string, proc: Process) returns (env: map<string, string>)
    ensures forall k :: k in env <==> FixedEnvAt(base, stage, proc, k).Some?
    ensures forall k :: k in env ==> env[k] == FixedEnvAt(base, stage, proc, k).value
  {
    env := base["npm_lifecycle_event" := stage];
    var node := if Truthy(env, "NODE") then env["NODE"] else proc.execPath;
    env := env["NODE" := node];
    env := env["npm_node_execpath" := node];
    if proc.bundled {
      env := env["npm_execpath" := proc.execPath];
    } else {
      env := env["npm_execpath" := if proc.mainFile.Some? then proc.mainFile.value else proc.cwd];
    }
    env := env["INIT_CWD" := proc.cwd];
    if !Truthy(env, "npm_config_node_gyp") {
      if proc.defaultNodeGyp.Some? {
        env := env["npm_config_node_gyp" := proc.defaultNodeGyp.value];
      } else {
        env := env - {"npm_config_node_gyp"};
      }
    }
    forall k ensures (k in env <==> FixedEnvAt(base, stage, proc, k).Some?) && (k in env ==> env[k] == FixedEnvAt(base, stage, proc, k).value) {
      if k == "npm_config_node_gyp" {
      } else if k == "INIT_CWD" || k == "npm_execpath" {
      } else if k == "NODE" || k == "npm_node_execpath" {
      } else if k == "npm_lifecycle_event" {
      } else {
        assert k in env <==> k in base;
      }
    }
  }

  /** The keys `opts.extraEnv` assigns. */
  function ExtraKeys(extra: seq<(string, string)>): set<string> {
    set i | 0 <= i < |extra| :: extra[i].0
  }

  lemma {:induction false} ExtraLastKey(extra: seq<(string, string)>, k: string)
    requires ExtraLast(extra, k).Some?
    ensures k in ExtraKeys(extra)
    decreases |extra|
  {
    if extra[|extra| - 1].0 != k {
      var init := extra[..|extra| - 1];
      ExtraLastKey(init, k);
      var i :| 0 <= i < |init| && init[i].0 == k;
      assert extra[i] == init[i];
    }
  }

  /** The names the stage itself sets (index.js:80-100). */
  const FixedKeys: set<string> := {"TMPDIR", "npm_config_node_gyp", "INIT_CWD", "npm_execpath", "NODE", "npm_node_execpath", "npm_lifecycle_event"}

  /** The environment after index.js:79-100, as a map: `StageEnvAt` at every name. */
  function StageEnv(base: map<string, string>, stage: string, wd: string, proc: Process, extra: seq<(string, string)>, unsafePerm: bool): (r: map<string, string>)
    ensures forall k :: k in r <==> StageEnvAt(base, stage, wd, proc, extra, unsafePerm, k).Some?
    ensures forall k :: k in r ==> r[k] == StageEnvAt(base, stage, wd, proc, extra, unsafePerm, k).value
  {
    var names := base.Keys + ExtraKeys(extra) + FixedKeys;
    forall k | StageEnvAt(base, stage, wd, proc, extra, unsafePerm, k).Some? ensures k in names {
      if ExtraLast(extra, k).Some? { ExtraLastKey(extra, k); }
    }
    map k | k in names && StageEnvAt(base, stage, wd, proc, extra, unsafePerm, k).Some? :: StageEnvAt(base, stage, wd, proc, extra, unsafePerm, k).value
  }

  /** The assignments of index.js:79-100 to the environment `makeEnv` returned. */
  method AssembleEnv(base: map<string, string>, stage: string, wd: string, proc: Process, extra: seq<(string, string)>, unsafePerm: bool)
    returns (env: map<string, string>)
    ensures forall k :: k in env <==> StageEnvAt(base, stage, wd, proc, extra, unsafePerm, k).Some?
    ensures forall k :: k in env ==> env[k] == StageEnvAt(base, stage, wd, proc, extra, unsafePerm, k).value
    ensures env == StageEnv(base, stage, wd, proc, extra, unsafePerm)
  {
    env := SetStageValues(base, stage, proc);
    env := AssignEntries(env, extra);
    if !unsafePerm {
      env := env["TMPDIR" := wd];
    }
    forall k ensures (k in env <==> StageEnvAt(base, stage, wd, proc, extra, unsafePerm, k).Some?) &&
      (k in env ==> env[k] == StageEnvAt(base, stage, wd, proc, extra, unsafePerm, k).value)
    {
    }
    assert env.Keys == StageEnv(base, stage, wd, proc, extra, unsafePerm).Keys;
  }

  /**
   * `extraEnv` overrides every value the stage sets but `TMPDIR`, which wins
   * unless `unsafePerm` is set; an entry for `__proto__` changes nothing.
   */
  lemma ExtraEnvPrecedence(base: map<string, string>, stage: string, wd: string, proc: Process, extra: seq<(string, string)>, unsafePerm: bool, k: string, v: string)
    requires ExtraLast(extra, k) == Some(v)
    ensures StageEnvAt(base, stage, wd, proc, extra, unsafePerm, k) ==
      if k == "TMPDIR" && !unsafePerm then Some(wd)
      else if k == ProtoKey then FixedEnvAt(base, stage, proc, k)
      else Some(v)
  {
  }

  /** An entry of `extraEnv` gives its key the value of the last entry with that key. */
  lemma {:induction false} ExtraLastIsLastEntry(extra: seq<(string, string)>, i: nat)
    requires i < |extra| && forall j :: i < j < |extra| ==> extra[j].0 != extra[i].0
    ensures ExtraLast(extra, extra[i].0) == Some(extra[i].1)
    decreases |extra|
  {
    if i < |extra| - 1 {
      var init := extra[..|extra| - 1];
      assert init[i] == extra[i];
      forall j | i < j < |init| ensures init[j].0 != init[i].0 {
        assert init[j] == extra[j];
      }
      ExtraLastIsLastEntry(init, i);
    }
  }

  // -------------------------------------------------------------- one stage

  /** The options a stage reads; an unset `wd` argument is `""`. */
  datatype StageOptions = StageOptions(
    dir: string,
    ignorePrepublish: bool,
    ignoreScripts: bool,
    unsafePerm: bool,
    extraEnv: seq<(string, string)>,
    force: bool,
    failOk: bool)

  /**
   * What the stage asks of the outside: `fs.stat` of a hook, whether a path
   * is a directory, `path.resolve(opts.dir, pkg.name)`, `makeEnv(pkg, opts)`,
   * `extendPath(wd, env[PATH], ...)` and the classified outcome of running a
   * command with an environment in a directory.
   */
  datatype World = World(
    stat: string -> StatResult,
    isDir: string -> bool,
    resolve: string -> string,
    makeEnv: Package -> map<string, string>,
    extendPath: (string, string) -> string,
    run: (string, map<string, string>, string) -> Option<Failure>)

  datatype Outcome = Resolved | Rejected(reason: Failure)

  /** How the promise settles on what `done` passed on (index.js:126-137, 161-164). */
  function OutcomeOf(er: Option<Failure>): (r: Outcome)
    ensures r.Resolved? <==> er.None?
    ensures r.Rejected? ==> r.reason == er.value
  {
    if er.Some? then Rejected(er.value) else Resolved
  }

  /** The directory the commands run in: `validWd(wd || path.resolve(opts.dir, pkg.name))` (index.js:75). */
  function StageDir(pkg: Package, wd: string, world: World): Result<string, string> {
    ValidWd(if wd != "" then wd else world.resolve(pkg.name), world.isDir)
  }

  /**
   * The environment the commands receive (index.js:78-121): the stage values
   * over what `makeEnv` returned, the extended search path at `pathName`, and
   * `npm_lifecycle_script` when the package's own script runs.
   */
  function CommandEnv(pkg: Package, stage: string, cwd: string, opts: StageOptions, proc: Process, pathName: string, world: World): (r: map<string, string>)
    ensures var at := StageEnvAt(world.makeEnv(EffectivePackage(pkg, stage, opts.ignorePrepublish)), stage, cwd, proc, opts.extraEnv, opts.unsafePerm, pathName);
      pathName in r &&
      (pathName != "npm_lifecycle_script" || !OwnScriptRuns(pkg, stage, opts) ==>
        r[pathName] == world.extendPath(cwd, if at.Some? then at.value else ""))
    ensures OwnScriptRuns(pkg, stage, opts) ==>
      "npm_lifecycle_script" in r && r["npm_lifecycle_script"] == pkg.scripts[stage]
    ensures forall k :: k != pathName && (k != "npm_lifecycle_script" || !OwnScriptRuns(pkg, stage, opts)) ==>
      (k in r <==> StageEnvAt(world.makeEnv(EffectivePackage(pkg, stage, opts.ignorePrepublish)), stage, cwd, proc, opts.extraEnv, opts.unsafePerm, k).Some?) &&
      (k in r ==> r[k] == StageEnvAt(world.makeEnv(EffectivePackage(pkg, stage, opts.ignorePrepublish)), stage, cwd, proc, opts.extraEnv, opts.unsafePerm, k).value)
  {
    var env := StageEnv(world.makeEnv(EffectivePackage(pkg, stage, opts.ignorePrepublish)), stage, cwd, proc, opts.extraEnv, opts.unsafePerm);
    var env := env[pathName := world.extendPath(cwd, if pathName in env then env[pathName] else "")];
    if OwnScriptRuns(pkg, stage, opts) then env["npm_lifecycle_script" := pkg.scripts[stage]] else env
  }

  /** `packageLifecycle` (index.js:114-121): the package has its own script for the stage and scripts are not ignored. */
  predicate OwnScriptRuns(pkg: Package, stage: string, opts: StageOptions) {
    stage in EffectiveScripts(pkg.scripts, stage, opts.ignorePrepublish) && !opts.ignoreScripts
  }

  /** Running one command of the stage and decorating its failure (index.js:139-145, 270-291). */
  function StageRun(world: World, env: map<string, string>, cwd: string, pkg: Package, stage: string): string -> Option<Failure> {
    c => ProcError(world.run(c, env, cwd), pkg.id, pkg.name, stage, c)
  }

  function PlainError(message: string): Failure {
    Failure(message, "", None, None)
  }

  /** The plan of a stage for a package whose hook stat reported `hookStat`. */
  function StagePlan(pkg: Package, stage: string, opts: StageOptions, hookStat: StatResult): Plan {
    PlanStage(EffectiveScripts(pkg.scripts, stage, opts.ignorePrepublish), stage, hookStat.Found?, opts.ignoreScripts)
  }

  /** The assignments of index.js:78-121 that build the commands' environment. */
  method CommandEnvInto(pkg: Package, stage: string, cwd: string, opts: StageOptions, proc: Process, pathName: string, world: World)
    returns (env: map<string, string>)
    ensures env == CommandEnv(pkg, stage, cwd, opts, proc, pathName, world)
  {
    var effective := EffectivePackage(pkg, stage, opts.ignorePrepublish);
    env := world.makeEnv(effective);
    env := AssembleEnv(env, stage, cwd, proc, opts.extraEnv, opts.unsafePerm);
    env := env[pathName := world.extendPath(cwd, if pathName in env then env[pathName] else "")];
    ghost var withPath := env;
    if stage in effective.scripts && !opts.ignoreScripts {
      env := env["npm_lifecycle_script" := effective.scripts[stage]];
    }
    assert env == if OwnScriptRuns(pkg, stage, opts) then withPath["npm_lifecycle_script" := pkg.scripts[stage]] else withPath;
  }

  /** The plan `lifecycle_` follows once the hook's stat reported `hookStat` (index.js:114-124, 161-164). */
  function RunPlan(pkg: Package, stage: string, opts: StageOptions, hookStat: StatResult): (p: Plan)
    ensures p.Run?
  {
    Run(if OwnScriptRuns(pkg, stage, opts) then Some(pkg.scripts[stage]) else None, hookStat.Found?)
  }

  /**
   * `lifecycle_(pkg, stage, wd, opts, env, cb)` (index.js:111-145): the error
   * passed to `cb` and the commands run, in order, in the environment
   * `CommandEnv` describes.
   */
  method RunLifecycle(pkg: Package, stage: string, cwd: string, opts: StageOptions, proc: Process, pathName: string,
                      world: World, hooks: HookCache) returns (er: Option<Failure>, ran: seq<string>)
    modifies hooks
    ensures var (found, after) := Lookup(old(hooks.Snapshot()), HookPath(opts.dir, stage), world.stat);
      var cmds := Commands(RunPlan(pkg, stage, opts, found), HookPath(opts.dir, stage));
      var run := StageRun(world, CommandEnv(pkg, stage, cwd, opts, proc, pathName, world), cwd, pkg, stage);
      hooks.Snapshot() == after &&
      ran == RanUntil(cmds, run) && er == Done(FirstFailure(cmds, run), opts.force, opts.failOk) &&
      |ran| <= |cmds| && ran == cmds[..|ran|] &&
      (er.Some? ==> !opts.force && !opts.failOk && ran != [] && er == run(ran[|ran| - 1])) &&
      (er.None? && !opts.force && !opts.failOk ==> ran == cmds)
  {
    var env := CommandEnvInto(pkg, stage, cwd, opts, proc, pathName, world);
    var scripts := EffectiveScripts(pkg.scripts, stage, opts.ignorePrepublish);
    var packageLifecycle := stage in scripts && !opts.ignoreScripts;
    var hookError := hooks.HookStat(opts.dir, stage, world.stat);
    var plan := Run(if packageLifecycle then Some(scripts[stage]) else None, hookError.Found?);
    var cmds := Commands(plan, HookPath(opts.dir, stage));
    ran, er := Chain(cmds, StageRun(world, env, cwd, pkg, stage));
    er := Done(er, opts.force, opts.failOk);
  }

  /**
   * `lifecycle(pkg, stage, wd, opts)` (index.js:57-109, 161-167, 337-344):
   * the outcome of the promise and the commands run, in order. The run queue
   * is in `Scheduler`.
   */
  method RunStage(arg: PkgArg, stage: string, wd: string, opts: StageOptions, proc: Process, pathName: string,
                  world: World, hooks: HookCache) returns (outcome: Outcome, ran: seq<string>)
    modifies hooks
    ensures arg.Falsy? ==> outcome == Rejected(PlainError("Invalid package data")) && ran == [] && hooks.Snapshot() == old(hooks.Snapshot())
    ensures arg.Object? ==> StageSettles(old(hooks.Snapshot()), hooks.Snapshot(), Innermost(arg), stage, wd, opts, proc, pathName, world, outcome, ran)
  {
    var r := Unwrap(arg);
    if r.Err? {
      return Rejected(PlainError(r.error)), [];
    }
    outcome, ran := RunPackageStage(r.value, stage, wd, opts, proc, pathName, world, hooks);
  }

  /**
   * How the stage of the unwrapped package `pkg` settles: the hook is stated
   * once through the cache, the commands run are a prefix of the plan's, and
   * with a valid working directory they run until the first failure, which
   * rejects the stage unless `force` or `failOk` is set.
   */
  predicate StageSettles(before: CacheState, after: CacheState, pkg: Package, stage: string,
                          wd: string, opts: StageOptions, proc: Process, pathName: string, world: World,
                          outcome: Outcome, ran: seq<string>)
  {
    var hook := HookPath(opts.dir, stage);
    var (found, cached) := Lookup(before, hook, world.stat);
    var plan := StagePlan(pkg, stage, opts, found);
    var cmds := Commands(plan, hook);
    after == cached &&
    |ran| <= |cmds| && ran == cmds[..|ran|] &&
    (plan.Skip? ==> outcome == Resolved) &&
    (ran != [] ==> StageDir(pkg, wd, world).Ok?) &&
    (outcome.Rejected? && outcome.reason.decoration.Some? ==> !opts.force && !opts.failOk && ran != []) &&
    (outcome.Resolved? && !opts.force && !opts.failOk ==> ran == cmds) &&
    (plan.Run? && StageDir(pkg, wd, world).Err? ==>
      outcome == Rejected(PlainError("Could not find suitable wd")) && ran == []) &&
    (plan.Run? && StageDir(pkg, wd, world).Ok? ==>
      var cwd := StageDir(pkg, wd, world).value;
      var run := StageRun(world, CommandEnv(pkg, stage, cwd, opts, proc, pathName, world), cwd, pkg, stage);
      ran == RanUntil(cmds, run) &&
      outcome == OutcomeOf(Done(FirstFailure(cmds, run), opts.force, opts.failOk)) &&
      (opts.force || opts.failOk ==> outcome == Resolved))
  }

  /** The stage of an unwrapped package (index.js:61-109). */
  method RunPackageStage(pkg: Package, stage: string, wd: string, opts: StageOptions, proc: Process, pathName: string,
                         world: World, hooks: HookCache) returns (outcome: Outcome, ran: seq<string>)
    modifies hooks
    ensures StageSettles(old(hooks.Snapshot()), hooks.Snapshot(), pkg, stage, wd, opts, proc, pathName, world, outcome, ran)
  {
    var scripts := EffectiveScripts(pkg.scripts, stage, opts.ignorePrepublish);
    ghost var before := hooks.Snapshot();
    var statError := hooks.HookStat(opts.dir, stage, world.stat);
    ghost var after := hooks.Snapshot();
    if NoScript(scripts, stage) && statError.StatError? {
      SkippedStageSettles(before, after, pkg, stage, wd, opts, proc, pathName, world, statError);
      return Resolved, [];
    }
    var dir := ValidWd(if wd != "" then wd else world.resolve(pkg.name), world.isDir);
    if dir.Err? {
      MissingWdSettles(before, after, pkg, stage, wd, opts, proc, pathName, world, statError);
      return Rejected(PlainError(dir.error)), [];
    }
    // runHookLifecycle asks again; the cache answers as before
    RepeatedLookupIsCached(before, HookPath(opts.dir, stage), world.stat, world.stat);
    var er;
    er, ran := RunLifecycle(pkg, stage, dir.value, opts, proc, pathName, world, hooks);
    outcome := OutcomeOf(er);
    RanStageSettles(before, after, pkg, stage, wd, opts, proc, pathName, world, statError, er, ran);
  }

  lemma SkippedStageSettles(before: CacheState, after: CacheState, pkg: Package, stage: string, wd: string, opts: StageOptions,
                            proc: Process, pathName: string, world: World, found: StatResult)
    requires Lookup(before, HookPath(opts.dir, stage), world.stat) == (found, after)
    requires NoScript(EffectiveScripts(pkg.scripts, stage, opts.ignorePrepublish), stage) && found.StatError?
    ensures StageSettles(before, after, pkg, stage, wd, opts, proc, pathName, world, Resolved, [])
  {
  }

  lemma MissingWdSettles(before: CacheState, after: CacheState, pkg: Package, stage: string, wd: string, opts: StageOptions,
                         proc: Process, pathName: string, world: World, found: StatResult)
    requires Lookup(before, HookPath(opts.dir, stage), world.stat) == (found, after)
    requires !(NoScript(EffectiveScripts(pkg.scripts, stage, opts.ignorePrepublish), stage) && found.StatError?)
    requires StageDir(pkg, wd, world).Err?
    ensures StageSettles(before, after, pkg, stage, wd, opts, proc, pathName, world, Rejected(PlainError("Could not find suitable wd")), [])
  {
  }

  lemma RanStageSettles(before: CacheState, after: CacheState, pkg: Package, stage: string, wd: string, opts: StageOptions,
                        proc: Process, pathName: string, world: World, found: StatResult, er: Option<Failure>, ran: seq<string>)
    requires Lookup(before, HookPath(opts.dir, stage), world.stat) == (found, after)
    requires !(NoScript(EffectiveScripts(pkg.scripts, stage, opts.ignorePrepublish), stage) && found.StatError?)
    requires StageDir(pkg, wd, world).Ok?
    requires var cwd := StageDir(pkg, wd, world).value;
      var cmds := Commands(RunPlan(pkg, stage, opts, found), HookPath(opts.dir, stage));
      var run := StageRun(world, CommandEnv(pkg, stage, cwd, opts, proc, pathName, world), cwd, pkg, stage);
      ran == RanUntil(cmds, run) && er == Done(FirstFailure(cmds, run), opts.force, opts.failOk) &&
      |ran| <= |cmds| && ran == cmds[..|ran|] &&
      (er.Some? ==> !opts.force && !opts.failOk && ran != []) &&
      (er.None? && !opts.force && !opts.failOk ==> ran == cmds)
    ensures StageSettles(before, after, pkg, stage, wd, opts, proc, pathName, world, OutcomeOf(er), ran)
  {
    assert RunPlan(pkg, stage, opts, found) == StagePlan(pkg, stage, opts, found);
  }
}
