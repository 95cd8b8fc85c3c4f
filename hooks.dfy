/**
 * `hookStat` (index.js:43-55): the result of `fs.stat` on
 * `<dir>/.hooks/<stage>` is remembered for the life of the process, a
 * successful stat included.
 */
module Hooks {

  /** What `fs.stat` passes to its callback: `null` (here `Found`) or an error with its code. */
  datatype StatResult = Found | StatError(code: string)

  /** `path.join(dir, '.hooks', stage)`, without normalisation. */
  function HookPath(dir: string, stage: string): string {
    dir + "/.hooks/" + stage
  }

  /** The cache and the paths the file system was asked about, in order. */
  datatype CacheState = CacheState(cache: map<string, StatResult>, stats: seq<string>)

  /** One `hookStat` call against the file system `fs`: its result and the new state. */
  function Lookup(s: CacheState, path: string, fs: string -> StatResult): (StatResult, CacheState) {
    if path in s.cache then (s.cache[path], s)
    else (fs(path), CacheState(s.cache[path := fs(path)], s.stats + [path]))
  }

  /** Every path was asked about once, and exactly the cached paths were. */
  ghost predicate Valid(s: CacheState) {
    (forall i, j :: 0 <= i < j < |s.stats| ==> s.stats[i] != s.stats[j]) &&
    (forall p :: p in s.cache <==> p in s.stats)
  }

  /** Against an unchanging file system, cached results are what it reports. */
  ghost predicate Agrees(s: CacheState, fs: string -> StatResult) {
    forall p :: p in s.cache ==> s.cache[p] == fs(p)
  }

  /**
   * A lookup keeps the state well formed, touches the file system only for a
   * path it has not seen, and (for an unchanging file system) returns what
   * the file system reports.
   */
  lemma LookupKeeps(s: CacheState, path: string, fs: string -> StatResult)
    requires Valid(s) && Agrees(s, fs)
    ensures var (r, t) := Lookup(s, path, fs);
      Valid(t) && Agrees(t, fs) && r == fs(path) &&
      (path in s.cache ==> t == s) &&
      (path !in s.cache ==> t.stats == s.stats + [path])
  {
    if path !in s.cache {
      var t := Lookup(s, path, fs).1;
      forall i, j | 0 <= i < j < |t.stats| ensures t.stats[i] != t.stats[j] {
        if j == |s.stats| {
          assert t.stats[i] == s.stats[i];
        }
      }
    }
  }

  /** A repeated lookup answers as before and asks the file system nothing, whatever it says now. */
  lemma RepeatedLookupIsCached(s: CacheState, path: string, fs: string -> StatResult, later: string -> StatResult)
    ensures var (r, t) := Lookup(s, path, fs);
      Lookup(t, path, later) == (r, t)
  {
  }

  /** The results of a run of lookups, and the state after them. */
  function Lookups(s: CacheState, paths: seq<string>, fs: string -> StatResult): (seq<StatResult>, CacheState)
    decreases |paths|
  {
    if paths == [] then ([], s)
    else
      var (r, t) := Lookup(s, paths[0], fs);
      var (rs, u) := Lookups(t, paths[1..], fs);
      ([r] + rs, u)
  }

  /** However many stages and scripts ask, each hook path is stat'ed at most once. */
  lemma {:induction false} EachHookStatedOnce(s: CacheState, paths: seq<string>, fs: string -> StatResult)
    requires Valid(s) && Agrees(s, fs)
    ensures var (rs, u) := Lookups(s, paths, fs);
      Valid(u) && |rs| == |paths| && (forall i :: 0 <= i < |paths| ==> rs[i] == fs(paths[i]))
    decreases |paths|
  {
    if paths != [] {
      LookupKeeps(s, paths[0], fs);
      var (r, t) := Lookup(s, paths[0], fs);
      EachHookStatedOnce(t, paths[1..], fs);
      var (rs, u) := Lookups(t, paths[1..], fs);
      assert Lookups(s, paths, fs) == ([r] + rs, u);
    }
  }

  /** The module-level `hookStatCache`, with the log of the stats it caused. */
  class HookCache {
    var cache: map<string, StatResult>
    var stats: seq<string>

    function Snapshot(): CacheState
      reads this
    {
      CacheState(cache, stats)
    }

    constructor()
      ensures Snapshot() == CacheState(map[], [])
    {
      cache, stats := map[], [];
    }

    /** `hookStat(dir, stage, cb)`, returning what `cb` receives. */
    method HookStat(dir: string, stage: string, fs: string -> StatResult) returns (statError: StatResult)
      modifies this
      ensures (statError, Snapshot()) == Lookup(old(Snapshot()), HookPath(dir, stage), fs)
    {
      var hook := HookPath(dir, stage);
      if hook in cache {
        return cache[hook];
      }
      statError := fs(hook);
      stats := stats + [hook];
      cache := cache[hook := statError];
    }
  }
}
