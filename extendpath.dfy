/**
 * The PATH of a lifecycle script (lib/extendPath.js): one `node_modules/.bin`
 * directory per package level of the working directory, innermost first,
 * then the bundled node-gyp directory, the extra bin paths, optionally the
 * directory of the running node binary, and the inherited PATH.
 */
module ExtendPath {
  import opened Wrappers
  import opened Text

  // ------------------------------------------ splitting the working directory

  const NodeModules := "node_modules"

  predicate IsSlash(c: char) {
    c == '/' || c == '\\'
  }

  /** `[\\/]node_modules[\\/]` matches the 14 characters of `s` from `i`. */
  predicate MatchAt(s: string, i: nat)
    requires i + 14 <= |s|
  {
    IsSlash(s[i]) && s[i + 1..i + 13] == NodeModules && IsSlash(s[i + 13])
  }

  predicate NoMatch(s: string) {
    forall i: nat :: i + 14 <= |s| ==> !MatchAt(s, i)
  }

  /** `s.split(/[\\/]node_modules[\\/]/)`: cut at the leftmost match, then go on after it. */
  function Split(s: string): (r: seq<string>)
    ensures |r| >= 1
    ensures StartsWith(s, r[0])
    decreases |s|
  {
    if |s| < 14 then [s]
    else if MatchAt(s, 0) then [""] + Split(s[14..])
    else
      var rest := Split(s[1..]);
      [[s[0]] + rest[0]] + rest[1..]
  }

  lemma JoinConsFirst(c: char, parts: seq<string>, sep: string)
    requires |parts| >= 1
    ensures Join([[c] + parts[0]] + parts[1..], sep) == [c] + Join(parts, sep)
  {
    var q := [[c] + parts[0]] + parts[1..];
    assert q[1..] == parts[1..];
  }

  /** On a `/`-separated path the pieces joined with `/node_modules/` give the path back. */
  lemma {:induction false} SplitJoin(s: string)
    requires '\\' !in s
    ensures Join(Split(s), "/" + NodeModules + "/") == s
    decreases |s|
  {
    if |s| >= 14 {
      if MatchAt(s, 0) {
        assert '\\' !in s[14..] by { forall i | 0 <= i < |s| - 14 ensures s[14..][i] == s[i + 14] { } }
        SplitJoin(s[14..]);
        var r := Split(s[14..]);
        assert s[0] != '\\' && s[13] != '\\';
        assert s == [s[0]] + s[1..13] + [s[13]] + s[14..];
        assert ([""] + r)[1..] == r;
      } else {
        assert '\\' !in s[1..] by { forall i | 0 <= i < |s| - 1 ensures s[1..][i] == s[i + 1] { } }
        SplitJoin(s[1..]);
        JoinConsFirst(s[0], Split(s[1..]), "/" + NodeModules + "/");
        assert s == [s[0]] + s[1..];
      }
    }
  }

  lemma MatchSame(a: string, i: nat, b: string, j: nat)
    requires i + 14 <= |a| && j + 14 <= |b| && a[i..i + 14] == b[j..j + 14]
    ensures MatchAt(a, i) == MatchAt(b, j)
  {
    assert a[i] == a[i..i + 14][0] && b[j] == b[j..j + 14][0];
    assert a[i + 13] == a[i..i + 14][13] && b[j + 13] == b[j..j + 14][13];
    var x, y := a[i + 1..i + 13], b[j + 1..j + 13];
    forall k | 0 <= k < 12 ensures x[k] == y[k] {
      assert a[i + 1 + k] == a[i..i + 14][1 + k];
      assert b[j + 1 + k] == b[j..j + 14][1 + k];
    }
    assert x == y;
  }

  /** No piece of a split contains the separator. */
  lemma {:induction false} SplitPiecesNoMatch(s: string)
    ensures forall k :: 0 <= k < |Split(s)| ==> NoMatch(Split(s)[k])
    decreases |s|
  {
    if |s| >= 14 {
      if MatchAt(s, 0) {
        SplitPiecesNoMatch(s[14..]);
        assert forall k :: 1 <= k < |Split(s)| ==> Split(s)[k] == Split(s[14..])[k - 1];
      } else {
        var rest := Split(s[1..]);
        SplitPiecesNoMatch(s[1..]);
        var p := [s[0]] + rest[0];
        assert p == s[..|p|] by {
          assert rest[0] == s[1..][..|rest[0]|];
        }
        forall i: nat | i + 14 <= |p| ensures !MatchAt(p, i) {
          if i == 0 {
            assert p[..14] == s[..14];
            MatchSame(p, 0, s, 0);
          } else {
            assert p[i..i + 14] == rest[0][i - 1..i - 1 + 14];
            MatchSame(p, i, rest[0], i - 1);
          }
        }
        assert forall k :: 1 <= k < |Split(s)| ==> Split(s)[k] == rest[k];
      }
    }
  }

  /**
   * The split cuts at the leftmost match: the first piece runs up to the first
   * match (or is the whole path when there is none), and the rest is the split
   * of what follows that match.
   */
  lemma {:induction false} SplitLeftmost(s: string)
    ensures var r := Split(s);
      (forall i: nat :: i < |r[0]| && i + 14 <= |s| ==> !MatchAt(s, i)) &&
      (|r| == 1 ==> r[0] == s) &&
      (|r| > 1 ==> |r[0]| + 14 <= |s| && MatchAt(s, |r[0]|) && r[1..] == Split(s[|r[0]| + 14..]))
    decreases |s|
  {
    if |s| >= 14 && !MatchAt(s, 0) {
      var rest := Split(s[1..]);
      SplitLeftmost(s[1..]);
      var r := Split(s);
      assert r[0] == [s[0]] + rest[0] && r[1..] == rest[1..];
      NoMatchShifted(s, |rest[0]|);
      if |rest| > 1 {
        MatchShifted(s, |rest[0]|);
      }
    }
  }

  /** No match in the first `n` positions after the first character: none in the first `n + 1`. */
  lemma NoMatchShifted(s: string, n: nat)
    requires |s| >= 14 && !MatchAt(s, 0)
    requires forall i: nat :: i < n && i + 14 <= |s| - 1 ==> !MatchAt(s[1..], i)
    ensures forall i: nat :: i < n + 1 && i + 14 <= |s| ==> !MatchAt(s, i)
  {
    var t := s[1..];
    forall i: nat | i < n + 1 && i + 14 <= |s| ensures !MatchAt(s, i) {
      if i > 0 {
        assert s[i..i + 14] == t[i - 1..i - 1 + 14];
        MatchSame(s, i, t, i - 1);
      }
    }
  }

  /** A match after the first character is a match one position further on. */
  lemma MatchShifted(s: string, m: nat)
    requires |s| >= 1 && m + 14 <= |s| - 1 && MatchAt(s[1..], m)
    ensures MatchAt(s, m + 1) && s[1..][m + 14..] == s[m + 15..]
  {
    var t := s[1..];
    assert s[m + 1..m + 15] == t[m..m + 14];
    MatchSame(s, m + 1, t, m);
  }

  // ------------------------------------------------------- the bin directories

  /** `path.join(dir, 'node_modules', name)`, without normalisation. */
  function Under(dir: string, name: string): string {
    dir + "/" + NodeModules + "/" + name
  }

  function Bin(dir: string): string {
    Under(dir, ".bin")
  }

  /** The directory of the package nested `names` deep below `root`. */
  function Nested(root: string, names: seq<string>): string
    decreases |names|
  {
    if names == [] then root else Under(Nested(root, names[..|names| - 1]), names[|names| - 1])
  }

  /** The `.bin` directories of every level, innermost first (lib/extendPath.js:14-18). */
  function BinDirs(root: string, names: seq<string>): (r: seq<string>)
    ensures |r| == |names| + 1
    ensures r[0] == Bin(Nested(root, names))
    decreases |names|
  {
    if names == [] then [Bin(root)] else [Bin(Nested(root, names))] + BinDirs(root, names[..|names| - 1])
  }

  /** Level `j` of the bin directories is `root` followed by the first `j` nested names. */
  lemma {:induction false} BinDirsLevels(root: string, names: seq<string>)
    ensures forall j :: 0 <= j <= |names| ==> BinDirs(root, names)[|names| - j] == Bin(Nested(root, names[..j]))
    decreases |names|
  {
    if names != [] {
      var init := names[..|names| - 1];
      BinDirsLevels(root, init);
      forall j | 0 <= j <= |names| ensures BinDirs(root, names)[|names| - j] == Bin(Nested(root, names[..j])) {
        if j == |names| {
          assert names[..j] == names;
        } else {
          assert init[..j] == names[..j];
          assert BinDirs(root, names)[|names| - j] == BinDirs(root, init)[|init| - j];
        }
      }
    }
  }

  /** The PATH entries in order (lib/extendPath.js:6-25); an empty `originalPath` is left out. */
  function PathEntries(root: string, names: seq<string>, nodeGyp: string, extraBinPaths: seq<string>, nodeDir: Option<string>, originalPath: string): seq<string> {
    BinDirs(root, names) + [nodeGyp] + extraBinPaths
      + (if nodeDir.Some? then [nodeDir.value] else [])
      + (if originalPath != "" then [originalPath] else [])
  }

  function Separator(win32: bool): string {
    if win32 then ";" else ":"
  }

  // ------------------------------------------------- prepending the node directory

  /** `opts.scriptsPrependNodePath`: `Missing` is `null` or `undefined`. */
  datatype Setting = Missing | Flag(b: bool) | Text(s: string) | OtherValue

  /**
   * What `which.sync` and `fs.realpathSync` report about the node binary on the
   * PATH: found and resolved (the upper-cased real paths differ or not), found
   * but not resolved, or not found.
   */
  datatype Lookup = Resolved(found: string, differs: bool) | RealpathFailed(found: string) | WhichFailed

  /** The two warnings of lib/extendPath.js:49-53. */
  datatype Warning = OtherNodeInPath(found: string) | NoNodeInPath

  /** `isDifferentNodeInPath`: a failed lookup counts as different. */
  predicate IsDifferent(l: Lookup) {
    !l.Resolved? || l.differs
  }

  /** `foundExecPath`; `""` when `which` failed. */
  function FoundPath(l: Lookup): string {
    if l.WhichFailed? then "" else l.found
  }

  datatype Decision = Decision(prepend: bool, warning: Option<Warning>, hasWarned: bool)

  /** `shouldPrependCurrentNodeDirToPATH` with the warned flag before and after (lib/extendPath.js:29-60). */
  function Decide(setting: Setting, l: Lookup, hasWarned: bool): Decision {
    match setting
    case Missing => Decision(false, None, hasWarned)
    case Flag(b) => Decision(b, None, hasWarned)
    case Text(s) =>
      if s == "warn-only" then
        if IsDifferent(l) && !hasWarned then
          Decision(false, Some(if FoundPath(l) != "" then OtherNodeInPath(FoundPath(l)) else NoNodeInPath), true)
        else Decision(false, None, hasWarned)
      else Decision(IsDifferent(l), None, hasWarned)
    case OtherValue => Decision(IsDifferent(l), None, hasWarned)
  }

  /** One call: the setting the script's options carry, and what the node lookup reported. */
  datatype Ask = Ask(setting: Setting, lookup: Lookup)

  /** The warnings of a sequence of calls, each with its own setting. */
  function Warnings(asks: seq<Ask>, hasWarned: bool): seq<Warning>
    decreases |asks|
  {
    if asks == [] then []
    else
      var d := Decide(asks[0].setting, asks[0].lookup, hasWarned);
      (if d.warning.Some? then [d.warning.value] else []) + Warnings(asks[1..], d.hasWarned)
  }

  /** The decision table: when the node directory is appended, and when a warning is due. */
  lemma DecideTable(setting: Setting, l: Lookup, hasWarned: bool)
    ensures var d := Decide(setting, l, hasWarned);
      (d.prepend <==> setting == Flag(true) || ((setting.OtherValue? || (setting.Text? && setting.s != "warn-only")) && IsDifferent(l))) &&
      (d.warning.Some? <==> setting == Text("warn-only") && IsDifferent(l) && !hasWarned) &&
      (d.warning.Some? ==> (d.warning.value.OtherNodeInPath? <==> FoundPath(l) != "")) &&
      d.hasWarned == (hasWarned || d.warning.Some?)
  {
  }

  /**
   * However many scripts run, whatever setting each carries, the process
   * warns at most once, and never once it has warned.
   */
  lemma {:induction false} AtMostOneWarning(asks: seq<Ask>, hasWarned: bool)
    ensures |Warnings(asks, hasWarned)| <= 1
    ensures hasWarned ==> Warnings(asks, hasWarned) == []
    decreases |asks|
  {
    if asks != [] {
      var d := Decide(asks[0].setting, asks[0].lookup, hasWarned);
      AtMostOneWarning(asks[1..], d.hasWarned);
      DecideTable(asks[0].setting, asks[0].lookup, hasWarned);
    }
  }

  lemma JoinAppend(a: seq<string>, b: seq<string>, sep: string)
    requires |a| >= 1 && |b| >= 1
    ensures Join(a + b, sep) == Join(a, sep) + sep + Join(b, sep)
    decreases |a|
  {
    if |a| == 1 {
      assert (a + b)[1..] == b;
    } else {
      assert (a + b)[1..] == a[1..] + b;
      JoinAppend(a[1..], b, sep);
    }
  }

  lemma JoinStartsWithFirst(a: seq<string>, sep: string)
    requires |a| >= 1
    ensures StartsWith(Join(a, sep), a[0])
  {
    assert |a| > 1 ==> Join(a, sep) == a[0] + (sep + Join(a[1..], sep));
  }

  /**
   * The joined PATH starts with all the `.bin` directories and then the
   * bundled node-gyp directory, so `.bin` comes before it
   * (test/extendPath.test.js:4-8).
   */
  lemma BinBeforeNodeGyp(root: string, names: seq<string>, nodeGyp: string, extraBinPaths: seq<string>, nodeDir: Option<string>, originalPath: string, sep: string)
    ensures StartsWith(Join(PathEntries(root, names, nodeGyp, extraBinPaths, nodeDir, originalPath), sep), Join(BinDirs(root, names), sep) + sep + nodeGyp)
    ensures Join(BinDirs(root, names), sep)[|Join(BinDirs(root, names), sep)| - 4..] == ".bin"
  {
    var bins := BinDirs(root, names);
    var rest := [nodeGyp] + extraBinPaths
      + (if nodeDir.Some? then [nodeDir.value] else [])
      + (if originalPath != "" then [originalPath] else []);
    assert PathEntries(root, names, nodeGyp, extraBinPaths, nodeDir, originalPath) == bins + rest;
    JoinAppend(bins, rest, sep);
    JoinStartsWithFirst(rest, sep);
    assert rest[0] == nodeGyp;
    StartsWithAfter(Join(bins, sep) + sep, Join(rest, sep), nodeGyp);
    BinsEndInBin(root, names, sep);
  }

  /** The outermost `.bin` directory is the last entry of the list. */
  lemma {:induction false} BinDirsLast(root: string, names: seq<string>)
    ensures BinDirs(root, names)[|names|] == Bin(root)
    decreases |names|
  {
    if names != [] {
      BinDirsLast(root, names[..|names| - 1]);
    }
  }

  lemma BinsEndInBin(root: string, names: seq<string>, sep: string)
    ensures Join(BinDirs(root, names), sep)[|Join(BinDirs(root, names), sep)| - 4..] == ".bin"
  {
    var bins := BinDirs(root, names);
    var j := Join(bins, sep);
    var last := bins[|bins| - 1];
    JoinEndsWithLast(bins, sep);
    BinDirsLast(root, names);
    assert last == (root + "/" + NodeModules + "/") + ".bin";
    assert last[|last| - 4..] == ".bin";
    assert j[|j| - 4..] == j[|j| - |last|..][|last| - 4..];
  }

  lemma StartsWithAfter(a: string, s: string, p: string)
    requires StartsWith(s, p)
    ensures StartsWith(a + s, a + p)
  {
    assert (a + s)[..|a + p|] == a + s[..|p|];
  }

  lemma {:induction false} JoinEndsWithLast(a: seq<string>, sep: string)
    requires |a| >= 1
    ensures var j := Join(a, sep); |j| >= |a[|a| - 1]| && j[|j| - |a[|a| - 1]|..] == a[|a| - 1]
    decreases |a|
  {
    if |a| > 1 {
      JoinEndsWithLast(a[1..], sep);
      assert a[1..][|a[1..]| - 1] == a[|a| - 1];
    }
  }

  /** The entries after the `.bin` directories, in order. */
  lemma EntriesAfterBins(root: string, names: seq<string>, nodeGyp: string, extraBinPaths: seq<string>, nodeDir: Option<string>, originalPath: string)
    ensures var e := PathEntries(root, names, nodeGyp, extraBinPaths, nodeDir, originalPath);
      var n := |names| + 1;
      var m := n + 1 + |extraBinPaths|;
      e[..n] == BinDirs(root, names) && e[n] == nodeGyp && e[n + 1..m] == extraBinPaths &&
      |e| == m + (if nodeDir.Some? then 1 else 0) + (if originalPath != "" then 1 else 0) &&
      (nodeDir.Some? ==> e[m] == nodeDir.value) &&
      (originalPath != "" ==> e[|e| - 1] == originalPath)
  {
  }

  // ---------------------------------------------------------------- the module

  /**
   * The module's state: the `hasWarned` flag kept on the
   * `shouldPrependCurrentNodeDirToPATH` function object for the whole process.
   */
  class PathComposer {
    var hasWarned: bool

    constructor()
      ensures !hasWarned
    {
      hasWarned := false;
    }

    /** `shouldPrependCurrentNodeDirToPATH(opts)`, the lookup being what `which` and `realpath` report. */
    method ShouldPrepend(setting: Setting, l: Lookup) returns (prepend: bool, warning: Option<Warning>)
      modifies this
      ensures Decision(prepend, warning, hasWarned) == Decide(setting, l, old(hasWarned))
    {
      prepend, warning := false, None;
      if setting.Missing? || setting == Flag(false) {
        return;
      }
      if setting == Flag(true) {
        return true, None;
      }
      var isDifferent := IsDifferent(l);
      if setting == Text("warn-only") {
        if isDifferent && !hasWarned {
          if FoundPath(l) != "" {
            warning := Some(OtherNodeInPath(FoundPath(l)));
          } else {
            warning := Some(NoNodeInPath);
          }
          hasWarned := true;
        }
        return;
      }
      prepend := isDifferent;
    }

    /**
     * The exported function of lib/extendPath.js: `resolve` is `path.resolve`,
     * `execDir` is `path.dirname(process.execPath)`, an unset `originalPath` is `""`.
     */
    method Extend(wd: string, originalPath: string, nodeGyp: string, extraBinPaths: seq<string>, setting: Setting, l: Lookup,
                  win32: bool, execDir: string, resolve: string -> string)
      returns (path: string, warning: Option<Warning>)
      modifies this
      ensures var d := Decide(setting, l, old(hasWarned));
        var p := Split(wd);
        path == Join(PathEntries(resolve(p[0]), p[1..], nodeGyp, extraBinPaths, if d.prepend then Some(execDir) else None, originalPath), Separator(win32)) &&
        warning == d.warning && hasWarned == d.hasWarned
    {
      var p := Split(wd);
      var root := resolve(p[0]);
      var pathArr := [nodeGyp] + extraBinPaths;
      pathArr := UnshiftBinDirs(root, p[1..], pathArr);
      var prepend;
      prepend, warning := ShouldPrepend(setting, l);
      if prepend {
        pathArr := pathArr + [execDir];
      }
      if originalPath != "" {
        pathArr := pathArr + [originalPath];
      }
      assert pathArr == PathEntries(root, p[1..], nodeGyp, extraBinPaths, if prepend then Some(execDir) else None, originalPath);
      path := Join(pathArr, if win32 then ";" else ":");
    }
  }

  /** The `forEach` of lib/extendPath.js:14-18: `unshift` of every level's `.bin` directory. */
  method UnshiftBinDirs(root: string, names: seq<string>, tail: seq<string>) returns (pathArr: seq<string>)
    ensures pathArr == BinDirs(root, names) + tail
  {
    pathArr := tail;
    var acc := root;
    var j := 0;
    while j < |names|
      invariant 0 <= j <= |names|
      invariant acc == Nested(root, names[..j])
      invariant pathArr == BinDirs(root, names[..j])[1..] + tail
    {
      assert names[..j + 1][..j] == names[..j];
      assert BinDirs(root, names[..j + 1])[1..] == BinDirs(root, names[..j]);
      assert [Bin(acc)] + BinDirs(root, names[..j])[1..] == BinDirs(root, names[..j]);
      pathArr := [Bin(acc)] + pathArr;
      acc := Under(acc, names[j]);
      j := j + 1;
    }
    assert names[..j] == names;
    assert [Bin(acc)] + BinDirs(root, names)[1..] == BinDirs(root, names);
    pathArr := [Bin(acc)] + pathArr;
  }

  lemma WarningsFrom(asks: seq<Ask>, j: nat, hasWarned: bool)
    requires j < |asks|
    ensures var d := Decide(asks[j].setting, asks[j].lookup, hasWarned);
      Warnings(asks[j..], hasWarned) == (if d.warning.Some? then [d.warning.value] else []) + Warnings(asks[j + 1..], d.hasWarned)
  {
    assert asks[j..][0] == asks[j] && asks[j..][1..] == asks[j + 1..];
  }

  /** Several scripts asking in turn: their warnings, in order. */
  method AskAll(c: PathComposer, asks: seq<Ask>) returns (warnings: seq<Warning>)
    modifies c
    ensures warnings == Warnings(asks, old(c.hasWarned))
  {
    warnings := [];
    ghost var total := Warnings(asks, c.hasWarned);
    var j := 0;
    while j < |asks|
      invariant 0 <= j <= |asks|
      invariant warnings + Warnings(asks[j..], c.hasWarned) == total
    {
      WarningsFrom(asks, j, c.hasWarned);
      ghost var d := Decide(asks[j].setting, asks[j].lookup, c.hasWarned);
      ghost var rest := Warnings(asks[j + 1..], d.hasWarned);
      var _, w := c.ShouldPrepend(asks[j].setting, asks[j].lookup);
      assert w == d.warning && c.hasWarned == d.hasWarned;
      if w.Some? {
        assert warnings + ([w.value] + rest) == (warnings + [w.value]) + rest;
        warnings := warnings + [w.value];
      } else {
        assert [] + rest == rest;
      }
      j := j + 1;
    }
    assert asks[j..] == [];
  }
}
