/**
 * The config export of `makeEnv` (index.js:400-443): the entries of
 * `opts.config` become `npm_config_*` variables, and those scoped to the
 * package (`<name>:key`, `<name>@<version>:key`) also `npm_package_config_*`.
 */
module ConfigEnv {
  import opened Wrappers
  import opened Text
  import opened EnvKeys
  import opened PackageEnv

  /** The kinds of value a config table holds; `CObject` carries its `JSON.stringify` text. */
  datatype ConfigValue =
    | CString(s: string)
    | CNumber(n: int)
    | CBool(b: bool)
    | CNull
    | CUndefined
    | CArray
    | CStream
    | CObject(json: string)

  datatype ConfigEntry = ConfigEntry(key: string, value: ConfigValue)

  /** Where a kept entry goes besides `npm_config_*`. */
  datatype Scope = Unscoped | NameScoped(sub: string) | VersionScoped(sub: string)

  /**
   * A JavaScript object used as a dictionary: its entries in insertion order,
   * each key once (integer-like keys, which for-in visits first, are not
   * singled out).
   */
  type Table = seq<(string, string)>

  /** Each key at most once, as in an object. */
  predicate Distinct(t: Table) {
    forall i, j :: 0 <= i < j < |t| ==> t[i].0 != t[j].0
  }

  /**
   * `t[k] = v` for a string `v`: a key already present keeps its place, a new
   * key goes last, and the key `__proto__` is not stored at all.
   */
  function Put(t: Table, k: string, v: string): (r: Table)
    ensures Distinct(t) ==> Distinct(r)
    ensures k != ProtoKey ==> (k, v) in r
    ensures k == ProtoKey ==> r == t
    ensures Distinct(t) && k != ProtoKey ==> forall p: (string, string) :: p in r && p.0 == k ==> p == (k, v)
    ensures forall p: (string, string) :: p.0 != k ==> (p in r <==> p in t)
    ensures forall i :: 0 <= i < |r| ==> r[i] == (k, v) || r[i] in t
    decreases |t|
  {
    if k == ProtoKey then t
    else if t == [] then [(k, v)]
    else if t[0].0 == k then [(k, v)] + t[1..]
    else [t[0]] + Put(t[1..], k, v)
  }

  /** The state of the `forEach` pass: the env and the two scoped tables. */
  datatype ConfigState = ConfigState(env: Env, pkgConfig: Table, pkgVerConfig: Table)

  /**
   * Private keys (leading `_` unless followed by `<name>:`) and keys holding
   * `:_` are not exported (index.js:411).
   */
  predicate KeySkipped(key: string, namePref: string) {
    (|key| > 0 && key[0] == '_' && !StartsWith(key, "_" + namePref)) || Contains(key, ":_")
  }

  /** `key.replace(/^_+/, '')` */
  function StripUnderscores(key: string): (r: string)
    ensures |r| <= |key| && (r == [] || r[0] != '_')
    ensures key[|key| - |r|..] == r
    ensures forall i :: 0 <= i < |key| - |r| ==> key[i] == '_'
    decreases |key|
  {
    if key != [] && key[0] == '_' then StripUnderscores(key[1..]) else key
  }

  /**
   * The text exported for a value that is not skipped (index.js:414-423): the
   * `umask` rendering for keys containing "umask", `''` for a falsy value, the
   * number's decimal text, the string itself, or the JSON text; then
   * JSON-quoted when it contains a newline. `None` for streams and arrays.
   */
  function ValueText(key: string, v: ConfigValue, umask: ConfigValue -> string): (r: Option<string>)
    ensures r.None? <==> v.CStream? || v.CArray?
    ensures r.Some? ==> '\n' !in r.value
    ensures r.Some? && Contains(key, "umask") ==> r.value == SingleLine(umask(v))
    ensures !Contains(key, "umask") ==>
      (v.CString? ==> r == Some(SingleLine(v.s))) &&
      (v.CNumber? ==> r == Some(if v.n == 0 then "" else IntToDecimal(v.n))) &&
      (v.CBool? ==> r == Some(if v.b then "true" else "")) &&
      (v.CNull? || v.CUndefined? ==> r == Some("")) &&
      (v.CObject? ==> r == Some(SingleLine(v.json)))
  {
    if v.CStream? || v.CArray? then None
    else
      var text :=
        if Contains(key, "umask") then umask(v)
        else match v
          case CString(s) => s
          case CNumber(n) => if n == 0 then "" else IntToDecimal(n)
          case CBool(b) => if b then "true" else ""
          case CObject(json) => json
          case _ => "";
      Some(SingleLine(text))
  }

  /** Which scoped table a stripped key goes to (index.js:426-432). */
  function ScopeOf(key: string, namePref: string, verPref: string): (r: Scope)
    ensures r.NameScoped? ==> StartsWith(key, namePref) && r.sub == Sanitize(key[|namePref|..])
    ensures r.VersionScoped? ==> !StartsWith(key, namePref) && StartsWith(key, verPref) && r.sub == Sanitize(key[|verPref|..])
    ensures r.Unscoped? <==> !StartsWith(key, namePref) && !StartsWith(key, verPref)
  {
    if StartsWith(key, namePref) then NameScoped(Sanitize(key[|namePref|..]))
    else if StartsWith(key, verPref) then VersionScoped(Sanitize(key[|verPref|..]))
    else Unscoped
  }

  /** The name a kept entry is exported under: `npm_config_` and the sanitised stripped key. */
  function ConfigName(key: string): string {
    Sanitize(ConfigPrefix + StripUnderscores(key))
  }

  /** What a kept entry whose value renders as `t` records (index.js:424-434). */
  function Record(st: ConfigState, key: string, t: string, namePref: string, verPref: string): ConfigState {
    var env := st.env[ConfigName(key) := t];
    match ScopeOf(StripUnderscores(key), namePref, verPref)
    case NameScoped(k) => ConfigState(env, Put(st.pkgConfig, k, t), st.pkgVerConfig)
    case VersionScoped(k) => ConfigState(env, st.pkgConfig, Put(st.pkgVerConfig, k, t))
    case Unscoped => ConfigState(env, st.pkgConfig, st.pkgVerConfig)
  }

  /** One iteration of the `forEach` of index.js:408-435. */
  function Step(st: ConfigState, e: ConfigEntry, namePref: string, verPref: string, umask: ConfigValue -> string): ConfigState {
    if KeySkipped(e.key, namePref) then st
    else match ValueText(e.key, e.value, umask)
      case None => st
      case Some(t) => Record(st, e.key, t, namePref, verPref)
  }

  /** The whole `forEach` pass, entry by entry in table order. */
  function Pass(st: ConfigState, es: seq<ConfigEntry>, namePref: string, verPref: string, umask: ConfigValue -> string): ConfigState
    decreases |es|
  {
    if es == [] then st
    else Step(Pass(st, es[..|es| - 1], namePref, verPref, umask), es[|es| - 1], namePref, verPref, umask)
  }

  /** The `npm_package_config_<k>` writes of one scoped table, in its order (index.js:439-442). */
  function ScopedWrites(t: Table): (r: seq<Write>)
    ensures |r| == |t|
    ensures forall i :: 0 <= i < |t| ==> r[i] == Write(PackageConfigPrefix + t[i].0, t[i].1)
  {
    seq(|t|, i requires 0 <= i < |t| => Write(PackageConfigPrefix + t[i].0, t[i].1))
  }

  /** The environment after the config export of a top-level call (index.js:402-443). */
  function Export(env: Env, config: seq<ConfigEntry>, namePref: string, verPref: string, umask: ConfigValue -> string): Env {
    var st := Pass(ConfigState(env, [], []), config, namePref, verPref, umask);
    Apply(Apply(st.env, ScopedWrites(st.pkgConfig)), ScopedWrites(st.pkgVerConfig))
  }

  /** The for-in loop that writes one scoped table (index.js:439-442). */
  method ScopedInto(env0: Env, t: Table) returns (env: Env)
    ensures env == Apply(env0, ScopedWrites(t))
  {
    env := env0;
    var j := 0;
    while j < |t|
      invariant 0 <= j <= |t|
      invariant env == Apply(env0, ScopedWrites(t)[..j])
    {
      ApplyConcat(env0, ScopedWrites(t)[..j], [ScopedWrites(t)[j]]);
      assert ScopedWrites(t)[..j + 1] == ScopedWrites(t)[..j] + [ScopedWrites(t)[j]];
      env := env[PackageConfigPrefix + t[j].0 := t[j].1];
      j := j + 1;
    }
    assert ScopedWrites(t)[..|t|] == ScopedWrites(t);
  }

  /** One entry of the `forEach` of index.js:408-435. */
  method ExportEntry(env0: Env, pkgConfig0: Table, pkgVerConfig0: Table, e: ConfigEntry, namePref: string, verPref: string, umask: ConfigValue -> string)
    returns (env: Env, pkgConfig: Table, pkgVerConfig: Table)
    ensures ConfigState(env, pkgConfig, pkgVerConfig) == Step(ConfigState(env0, pkgConfig0, pkgVerConfig0), e, namePref, verPref, umask)
  {
    env, pkgConfig, pkgVerConfig := env0, pkgConfig0, pkgVerConfig0;
    if KeySkipped(e.key, namePref) {
      return;
    }
    var value := ValueText(e.key, e.value, umask);
    if value.None? {
      return;
    }
    var i := StripUnderscores(e.key);
    var scope := ScopeOf(i, namePref, verPref);
    if scope.NameScoped? {
      pkgConfig := Put(pkgConfig, scope.sub, value.value);
    } else if scope.VersionScoped? {
      pkgVerConfig := Put(pkgVerConfig, scope.sub, value.value);
    }
    env := env[ConfigName(e.key) := value.value];
  }

  lemma PassSnoc(st: ConfigState, es: seq<ConfigEntry>, j: nat, namePref: string, verPref: string, umask: ConfigValue -> string)
    requires j < |es|
    ensures Pass(st, es[..j + 1], namePref, verPref, umask) == Step(Pass(st, es[..j], namePref, verPref, umask), es[j], namePref, verPref, umask)
  {
    assert es[..j + 1][..j] == es[..j];
  }

  /** The config export of a top-level call, entry by entry and then the scoped tables. */
  method ExportConfig(env0: Env, config: seq<ConfigEntry>, namePref: string, verPref: string, umask: ConfigValue -> string)
    returns (env: Env)
    ensures env == Export(env0, config, namePref, verPref, umask)
  {
    env := env0;
    var pkgConfig, pkgVerConfig := [], [];
    var j := 0;
    while j < |config|
      invariant 0 <= j <= |config|
      invariant ConfigState(env, pkgConfig, pkgVerConfig) == Pass(ConfigState(env0, [], []), config[..j], namePref, verPref, umask)
    {
      PassSnoc(ConfigState(env0, [], []), config, j, namePref, verPref, umask);
      env, pkgConfig, pkgVerConfig := ExportEntry(env, pkgConfig, pkgVerConfig, config[j], namePref, verPref, umask);
      j := j + 1;
    }
    assert config[..|config|] == config;
    env := ScopedInto(env, pkgConfig);
    env := ScopedInto(env, pkgVerConfig);
  }

  // ------------------------------------------------------------ properties

  /** A scoped table whose keys are names and whose values hold no newline. */
  predicate TableOk(t: Table) {
    Distinct(t) && forall i :: 0 <= i < |t| ==> IsEnvName(t[i].0) && t[i].0 != ProtoKey && '\n' !in t[i].1
  }

  predicate StateOk(st: ConfigState) {
    TableOk(st.pkgConfig) && TableOk(st.pkgVerConfig)
  }

  /** `env` keeps every entry of `env0` except some under `prefix`, and adds only names under `prefix`. */
  predicate ExtendsUnder(env0: Env, env: Env, prefix: string) {
    env0.Keys <= env.Keys &&
    forall k :: k in env ==> (k in env0 && env[k] == env0[k]) || (IsEnvName(k) && StartsWith(k, prefix) && '\n' !in env[k])
  }

  lemma ExtendsUnderTrans(a: Env, b: Env, c: Env, prefix: string)
    requires ExtendsUnder(a, b, prefix) && ExtendsUnder(b, c, prefix)
    ensures ExtendsUnder(a, c, prefix)
  {
  }

  /** The name of an exported entry is an environment name under `npm_config_`. */
  lemma ConfigNameUnder(key: string)
    ensures IsEnvName(ConfigName(key)) && StartsWith(ConfigName(key), ConfigPrefix)
  {
    assert IsEnvName(ConfigPrefix) by {
      forall i | 0 <= i < |ConfigPrefix| ensures IsEnvChar(ConfigPrefix[i]) { }
    }
    SanitizeUnderPrefix(ConfigPrefix, StripUnderscores(key));
    assert (ConfigPrefix + Sanitize(StripUnderscores(key)))[..|ConfigPrefix|] == ConfigPrefix;
  }

  /** One entry keeps the tables well formed and changes only `npm_config_*` names (`StepEnvFrame` says which one). */
  lemma StepShape(st: ConfigState, e: ConfigEntry, namePref: string, verPref: string, umask: ConfigValue -> string)
    requires StateOk(st)
    ensures StateOk(Step(st, e, namePref, verPref, umask))
    ensures ExtendsUnder(st.env, Step(st, e, namePref, verPref, umask).env, ConfigPrefix)
  {
    if !KeySkipped(e.key, namePref) {
      var vt := ValueText(e.key, e.value, umask);
      if vt.Some? {
        RecordShape(st, e.key, vt.value, namePref, verPref);
        assert Step(st, e, namePref, verPref, umask) == Record(st, e.key, vt.value, namePref, verPref);
      }
    }
  }

  lemma RecordShape(st: ConfigState, key: string, t: string, namePref: string, verPref: string)
    requires StateOk(st) && '\n' !in t
    ensures StateOk(Record(st, key, t, namePref, verPref))
    ensures ExtendsUnder(st.env, Record(st, key, t, namePref, verPref).env, ConfigPrefix)
  {
    ConfigNameUnder(key);
    match ScopeOf(StripUnderscores(key), namePref, verPref)
    case NameScoped(k) => PutOk(st.pkgConfig, k, t);
    case VersionScoped(k) => PutOk(st.pkgVerConfig, k, t);
    case Unscoped =>
  }

  lemma PutOk(t: Table, k: string, v: string)
    requires TableOk(t) && IsEnvName(k) && '\n' !in v
    ensures TableOk(Put(t, k, v))
  {
    var r := Put(t, k, v);
    forall i | 0 <= i < |r| ensures IsEnvName(r[i].0) && r[i].0 != ProtoKey && '\n' !in r[i].1 {
      if r[i] != (k, v) {
        var j :| 0 <= j < |t| && t[j] == r[i];
      }
    }
  }

  lemma {:induction false} PassShape(st: ConfigState, es: seq<ConfigEntry>, namePref: string, verPref: string, umask: ConfigValue -> string)
    requires StateOk(st)
    ensures StateOk(Pass(st, es, namePref, verPref, umask))
    ensures ExtendsUnder(st.env, Pass(st, es, namePref, verPref, umask).env, ConfigPrefix)
    decreases |es|
  {
    if es != [] {
      var mid := Pass(st, es[..|es| - 1], namePref, verPref, umask);
      PassShape(st, es[..|es| - 1], namePref, verPref, umask);
      StepShape(mid, es[|es| - 1], namePref, verPref, umask);
      ExtendsUnderTrans(st.env, mid.env, Pass(st, es, namePref, verPref, umask).env, ConfigPrefix);
    }
  }

  lemma {:induction false} ApplyUnder(env: Env, ws: seq<Write>, prefix: string)
    requires WritesUnder(ws, prefix)
    ensures ExtendsUnder(env, Apply(env, ws), prefix)
    decreases |ws|
  {
    if ws != [] {
      var e := env[ws[0].key := ws[0].value];
      assert ExtendsUnder(env, e, prefix);
      assert WritesUnder(ws[1..], prefix) by {
        forall i | 0 <= i < |ws[1..]| ensures ws[1..][i] == ws[i + 1] { }
      }
      ApplyUnder(e, ws[1..], prefix);
      ExtendsUnderTrans(env, e, Apply(env, ws), prefix);
    }
  }

  lemma PackageConfigName(k: string)
    requires IsEnvName(k)
    ensures IsEnvName(PackageConfigPrefix + k) && StartsWith(PackageConfigPrefix + k, PackageConfigPrefix)
    ensures (PackageConfigPrefix + k)[|PackageConfigPrefix|..] == k
  {
    assert (PackageConfigPrefix + k)[..|PackageConfigPrefix|] == PackageConfigPrefix;
    forall i | 0 <= i < |PackageConfigPrefix + k| ensures IsEnvChar((PackageConfigPrefix + k)[i]) {
      if i >= |PackageConfigPrefix| {
        assert (PackageConfigPrefix + k)[i] == k[i - |PackageConfigPrefix|];
      }
    }
  }

  lemma ScopedWritesUnder(t: Table)
    requires TableOk(t)
    ensures WritesUnder(ScopedWrites(t), PackageConfigPrefix)
  {
    forall i | 0 <= i < |t| ensures IsEnvName(PackageConfigPrefix + t[i].0) && StartsWith(PackageConfigPrefix + t[i].0, PackageConfigPrefix) {
      PackageConfigName(t[i].0);
    }
  }

  /**
   * The export keeps every inherited variable except those it overwrites, and
   * everything it writes is a valid name under `npm_config_` or
   * `npm_package_config_` holding a single-line value.
   */
  lemma ExportShape(env: Env, config: seq<ConfigEntry>, namePref: string, verPref: string, umask: ConfigValue -> string)
    ensures env.Keys <= Export(env, config, namePref, verPref, umask).Keys
    ensures forall k :: k in Export(env, config, namePref, verPref, umask) ==>
      var v := Export(env, config, namePref, verPref, umask)[k];
      (k in env && v == env[k]) ||
      (IsEnvName(k) && (StartsWith(k, ConfigPrefix) || StartsWith(k, PackageConfigPrefix)) && '\n' !in v)
  {
    var st := Pass(ConfigState(env, [], []), config, namePref, verPref, umask);
    PassShape(ConfigState(env, [], []), config, namePref, verPref, umask);
    ScopedWritesUnder(st.pkgConfig);
    ScopedWritesUnder(st.pkgVerConfig);
    var b := Apply(st.env, ScopedWrites(st.pkgConfig));
    ApplyUnder(st.env, ScopedWrites(st.pkgConfig), PackageConfigPrefix);
    ApplyUnder(b, ScopedWrites(st.pkgVerConfig), PackageConfigPrefix);
    ExtendsUnderTrans(st.env, b, Apply(b, ScopedWrites(st.pkgVerConfig)), PackageConfigPrefix);
  }

  /** Among writes to distinct names, each write's value is the one that stays. */
  lemma {:induction false} ApplyDistinct(env: Env, ws: seq<Write>, i: nat)
    requires i < |ws|
    requires forall a, b :: 0 <= a < b < |ws| ==> ws[a].key != ws[b].key
    ensures ws[i].key in Apply(env, ws) && Apply(env, ws)[ws[i].key] == ws[i].value
    decreases |ws|
  {
    var e := env[ws[0].key := ws[0].value];
    assert forall a, b :: 0 <= a < b < |ws[1..]| ==> ws[1..][a].key != ws[1..][b].key by {
      forall a, b | 0 <= a < b < |ws[1..]| ensures ws[1..][a].key != ws[1..][b].key {
        assert ws[1..][a] == ws[a + 1] && ws[1..][b] == ws[b + 1];
      }
    }
    if i == 0 {
      ApplyFrame(e, ws[1..]);
      assert ws[0].key !in KeysOf(ws[1..]) by {
        forall j | 0 <= j < |ws[1..]| ensures ws[1..][j].key != ws[0].key {
          assert ws[1..][j] == ws[j + 1];
        }
      }
    } else {
      ApplyDistinct(e, ws[1..], i - 1);
      assert ws[1..][i - 1] == ws[i];
    }
  }

  lemma ScopedWritesDistinct(t: Table)
    requires Distinct(t)
    ensures forall a, b :: 0 <= a < b < |ScopedWrites(t)| ==> ScopedWrites(t)[a].key != ScopedWrites(t)[b].key
  {
    forall a, b | 0 <= a < b < |t| ensures PackageConfigPrefix + t[a].0 != PackageConfigPrefix + t[b].0 {
      assert (PackageConfigPrefix + t[a].0)[|PackageConfigPrefix|..] == t[a].0;
      assert (PackageConfigPrefix + t[b].0)[|PackageConfigPrefix|..] == t[b].0;
    }
  }

  /** The value of `k` in a table is what `npm_package_config_<k>` holds after that table is written. */
  lemma ScopedValue(env: Env, t: Table, k: string, v: string)
    requires Distinct(t) && (k, v) in t
    ensures PackageConfigPrefix + k in Apply(env, ScopedWrites(t)) && Apply(env, ScopedWrites(t))[PackageConfigPrefix + k] == v
  {
    var i :| 0 <= i < |t| && t[i] == (k, v);
    ScopedWritesDistinct(t);
    ApplyDistinct(env, ScopedWrites(t), i);
  }

  /**
   * A version-scoped entry wins over a name-scoped one with the same key:
   * the version table is written last (index.js:439-442).
   */
  lemma VersionScopedWins(env: Env, config: seq<ConfigEntry>, namePref: string, verPref: string, umask: ConfigValue -> string, k: string, v: string)
    requires (k, v) in Pass(ConfigState(env, [], []), config, namePref, verPref, umask).pkgVerConfig
    ensures PackageConfigPrefix + k in Export(env, config, namePref, verPref, umask)
    ensures Export(env, config, namePref, verPref, umask)[PackageConfigPrefix + k] == v
  {
    var st := Pass(ConfigState(env, [], []), config, namePref, verPref, umask);
    PassShape(ConfigState(env, [], []), config, namePref, verPref, umask);
    ScopedValue(Apply(st.env, ScopedWrites(st.pkgConfig)), st.pkgVerConfig, k, v);
  }

  /** A name-scoped value stays exported unless the version table holds the same key. */
  lemma NameScopedKept(env: Env, config: seq<ConfigEntry>, namePref: string, verPref: string, umask: ConfigValue -> string, k: string, v: string)
    requires (k, v) in Pass(ConfigState(env, [], []), config, namePref, verPref, umask).pkgConfig
    requires forall p :: p in Pass(ConfigState(env, [], []), config, namePref, verPref, umask).pkgVerConfig ==> p.0 != k
    ensures PackageConfigPrefix + k in Export(env, config, namePref, verPref, umask)
    ensures Export(env, config, namePref, verPref, umask)[PackageConfigPrefix + k] == v
  {
    var st := Pass(ConfigState(env, [], []), config, namePref, verPref, umask);
    PassShape(ConfigState(env, [], []), config, namePref, verPref, umask);
    var b := Apply(st.env, ScopedWrites(st.pkgConfig));
    ScopedValue(st.env, st.pkgConfig, k, v);
    ApplyFrame(b, ScopedWrites(st.pkgVerConfig));
    forall j | 0 <= j < |st.pkgVerConfig| ensures ScopedWrites(st.pkgVerConfig)[j].key != PackageConfigPrefix + k {
      assert st.pkgVerConfig[j] in st.pkgVerConfig;
      assert (PackageConfigPrefix + st.pkgVerConfig[j].0)[|PackageConfigPrefix|..] == st.pkgVerConfig[j].0;
      assert (PackageConfigPrefix + k)[|PackageConfigPrefix|..] == k;
    }
  }

  /**
   * The last entry of the table, when kept, decides the value of its
   * `npm_config_*` name and of its key in the scoped table it belongs to.
   */
  lemma LastEntryDecides(st: ConfigState, es: seq<ConfigEntry>, namePref: string, verPref: string, umask: ConfigValue -> string, t: string)
    requires StateOk(st)
    requires es != [] && !KeySkipped(es[|es| - 1].key, namePref)
    requires ValueText(es[|es| - 1].key, es[|es| - 1].value, umask) == Some(t)
    ensures Pass(st, es, namePref, verPref, umask).env[ConfigName(es[|es| - 1].key)] == t
    ensures var sc := ScopeOf(StripUnderscores(es[|es| - 1].key), namePref, verPref);
      (sc.NameScoped? && sc.sub != ProtoKey ==>
        (sc.sub, t) in Pass(st, es, namePref, verPref, umask).pkgConfig &&
        (forall p :: p in Pass(st, es, namePref, verPref, umask).pkgConfig && p.0 == sc.sub ==> p.1 == t)) &&
      (sc.VersionScoped? && sc.sub != ProtoKey ==>
        (sc.sub, t) in Pass(st, es, namePref, verPref, umask).pkgVerConfig &&
        (forall p :: p in Pass(st, es, namePref, verPref, umask).pkgVerConfig && p.0 == sc.sub ==> p.1 == t))
  {
    var e := es[|es| - 1];
    var mid := Pass(st, es[..|es| - 1], namePref, verPref, umask);
    PassShape(st, es[..|es| - 1], namePref, verPref, umask);
    StepRecords(mid, e, namePref, verPref, umask, t);
    assert Pass(st, es, namePref, verPref, umask) == Record(mid, e.key, t, namePref, verPref);
    RecordDecides(mid, e.key, t, namePref, verPref);
  }

  /**
   * Recording sets the entry's `npm_config_*` name and its sub-key in the
   * table of its scope; an unscoped entry, or one whose sub-key is
   * `__proto__`, leaves both tables as they were.
   */
  lemma RecordDecides(st: ConfigState, key: string, t: string, namePref: string, verPref: string)
    requires StateOk(st)
    ensures Record(st, key, t, namePref, verPref).env[ConfigName(key)] == t
    ensures var sc := ScopeOf(StripUnderscores(key), namePref, verPref);
      (sc.NameScoped? && sc.sub != ProtoKey ==>
        (sc.sub, t) in Record(st, key, t, namePref, verPref).pkgConfig &&
        (forall p :: p in Record(st, key, t, namePref, verPref).pkgConfig && p.0 == sc.sub ==> p.1 == t)) &&
      (sc.VersionScoped? && sc.sub != ProtoKey ==>
        (sc.sub, t) in Record(st, key, t, namePref, verPref).pkgVerConfig &&
        (forall p :: p in Record(st, key, t, namePref, verPref).pkgVerConfig && p.0 == sc.sub ==> p.1 == t))
    ensures var sc := ScopeOf(StripUnderscores(key), namePref, verPref);
      sc.Unscoped? || sc.sub == ProtoKey ==>
        Record(st, key, t, namePref, verPref).pkgConfig == st.pkgConfig &&
        Record(st, key, t, namePref, verPref).pkgVerConfig == st.pkgVerConfig
  {
    var sc := ScopeOf(StripUnderscores(key), namePref, verPref);
    var r := Record(st, key, t, namePref, verPref);
    match sc
    case NameScoped(k) =>
      assert r.pkgConfig == Put(st.pkgConfig, k, t) && r.pkgVerConfig == st.pkgVerConfig;
    case VersionScoped(k) =>
      assert r.pkgVerConfig == Put(st.pkgVerConfig, k, t) && r.pkgConfig == st.pkgConfig;
    case Unscoped =>
  }

  /** The entries the pass keeps, in order. */
  function Kept(es: seq<ConfigEntry>, namePref: string): (r: seq<ConfigEntry>)
    ensures forall i :: 0 <= i < |r| ==> !KeySkipped(r[i].key, namePref) && r[i] in es
    decreases |es|
  {
    if es == [] then []
    else Kept(es[..|es| - 1], namePref) + (if KeySkipped(es[|es| - 1].key, namePref) then [] else [es[|es| - 1]])
  }

  /** Skipped entries change nothing: the pass over the kept entries alone ends in the same state. */
  lemma {:induction false} SkippedEntriesIgnored(st: ConfigState, es: seq<ConfigEntry>, namePref: string, verPref: string, umask: ConfigValue -> string)
    ensures Pass(st, es, namePref, verPref, umask) == Pass(st, Kept(es, namePref), namePref, verPref, umask)
    decreases |es|
  {
    if es != [] {
      var init, e := es[..|es| - 1], es[|es| - 1];
      var mid := Pass(st, init, namePref, verPref, umask);
      SkippedEntriesIgnored(st, init, namePref, verPref, umask);
      assert mid == Pass(st, Kept(init, namePref), namePref, verPref, umask);
      assert Pass(st, es, namePref, verPref, umask) == Step(mid, e, namePref, verPref, umask);
      if KeySkipped(e.key, namePref) {
        assert Kept(es, namePref) == Kept(init, namePref) + [];
        assert Kept(init, namePref) + [] == Kept(init, namePref);
      } else {
        var k := Kept(init, namePref) + [e];
        assert Kept(es, namePref) == k;
        assert k[..|k| - 1] == Kept(init, namePref);
        assert Pass(st, k, namePref, verPref, umask) == Step(mid, e, namePref, verPref, umask);
      }
    }
  }

  // -------------------------------------------- from a config entry to the export

  /** The entry is kept and its value renders. */
  predicate Renders(e: ConfigEntry, namePref: string, umask: ConfigValue -> string) {
    !KeySkipped(e.key, namePref) && ValueText(e.key, e.value, umask).Some?
  }

  /** The entry is kept, renders, and goes to the scoped table `sc` names, under `sc.sub`. */
  predicate Lands(e: ConfigEntry, sc: Scope, namePref: string, verPref: string, umask: ConfigValue -> string) {
    Renders(e, namePref, umask) && ScopeOf(StripUnderscores(e.key), namePref, verPref) == sc
  }

  /** The scoped table a name- or version-scoped key goes to. */
  function TableOf(st: ConfigState, sc: Scope): Table {
    if sc.NameScoped? then st.pkgConfig else st.pkgVerConfig
  }

  lemma StepRecords(st: ConfigState, e: ConfigEntry, namePref: string, verPref: string, umask: ConfigValue -> string, t: string)
    requires !KeySkipped(e.key, namePref) && ValueText(e.key, e.value, umask) == Some(t)
    ensures Step(st, e, namePref, verPref, umask) == Record(st, e.key, t, namePref, verPref)
  {
  }

  lemma StepSkips(st: ConfigState, e: ConfigEntry, namePref: string, verPref: string, umask: ConfigValue -> string)
    requires !Renders(e, namePref, umask)
    ensures Step(st, e, namePref, verPref, umask) == st
  {
  }

  /** One entry leaves every exported name alone but its own. */
  lemma StepEnvFrame(st: ConfigState, e: ConfigEntry, namePref: string, verPref: string, umask: ConfigValue -> string, name: string)
    requires !(Renders(e, namePref, umask) && ConfigName(e.key) == name)
    ensures var r := Step(st, e, namePref, verPref, umask);
      (name in r.env <==> name in st.env) && (name in st.env ==> r.env[name] == st.env[name])
  {
    if Renders(e, namePref, umask) {
      var t := ValueText(e.key, e.value, umask).value;
      StepRecords(st, e, namePref, verPref, umask, t);
      assert Record(st, e.key, t, namePref, verPref).env == st.env[ConfigName(e.key) := t];
    } else {
      StepSkips(st, e, namePref, verPref, umask);
    }
  }

  /** One entry leaves every sub-key of a scoped table alone but the one it lands on. */
  lemma StepTableFrame(st: ConfigState, e: ConfigEntry, namePref: string, verPref: string, umask: ConfigValue -> string, sc: Scope)
    requires !sc.Unscoped? && !Lands(e, sc, namePref, verPref, umask)
    ensures forall v :: (sc.sub, v) in TableOf(Step(st, e, namePref, verPref, umask), sc) <==> (sc.sub, v) in TableOf(st, sc)
  {
    if !Renders(e, namePref, umask) {
      StepSkips(st, e, namePref, verPref, umask);
    } else {
      var t := ValueText(e.key, e.value, umask).value;
      var r := Record(st, e.key, t, namePref, verPref);
      StepRecords(st, e, namePref, verPref, umask, t);
      var here := ScopeOf(StripUnderscores(e.key), namePref, verPref);
      assert here != sc;
      match here
      case NameScoped(k) =>
        assert r.pkgConfig == Put(st.pkgConfig, k, t) && r.pkgVerConfig == st.pkgVerConfig;
      case VersionScoped(k) =>
        assert r.pkgVerConfig == Put(st.pkgVerConfig, k, t) && r.pkgConfig == st.pkgConfig;
      case Unscoped =>
        assert r.pkgConfig == st.pkgConfig && r.pkgVerConfig == st.pkgVerConfig;
    }
  }

  lemma {:induction false} PassAppend(st: ConfigState, a: seq<ConfigEntry>, b: seq<ConfigEntry>, namePref: string, verPref: string, umask: ConfigValue -> string)
    ensures Pass(st, a + b, namePref, verPref, umask) == Pass(Pass(st, a, namePref, verPref, umask), b, namePref, verPref, umask)
    decreases |b|
  {
    if b == [] {
      assert a + b == a;
    } else {
      assert (a + b)[..|a + b| - 1] == a + b[..|b| - 1];
      PassAppend(st, a, b[..|b| - 1], namePref, verPref, umask);
    }
  }

  /** `StepEnvFrame` over a run of entries none of which is exported under `name`. */
  lemma {:induction false} PassEnvFrame(st: ConfigState, es: seq<ConfigEntry>, namePref: string, verPref: string, umask: ConfigValue -> string, name: string)
    requires forall j :: 0 <= j < |es| ==> !(Renders(es[j], namePref, umask) && ConfigName(es[j].key) == name)
    ensures var r := Pass(st, es, namePref, verPref, umask);
      (name in r.env <==> name in st.env) && (name in st.env ==> r.env[name] == st.env[name])
    decreases |es|
  {
    if es != [] {
      var init := es[..|es| - 1];
      forall j | 0 <= j < |init| ensures init[j] == es[j] { }
      PassEnvFrame(st, init, namePref, verPref, umask, name);
      StepEnvFrame(Pass(st, init, namePref, verPref, umask), es[|es| - 1], namePref, verPref, umask, name);
    }
  }

  /** `StepTableFrame` over a run of entries none of which lands on `sc`. */
  lemma {:induction false} PassTableFrame(st: ConfigState, es: seq<ConfigEntry>, namePref: string, verPref: string, umask: ConfigValue -> string, sc: Scope)
    requires !sc.Unscoped?
    requires forall j :: 0 <= j < |es| ==> !Lands(es[j], sc, namePref, verPref, umask)
    ensures forall v :: (sc.sub, v) in TableOf(Pass(st, es, namePref, verPref, umask), sc) <==> (sc.sub, v) in TableOf(st, sc)
    decreases |es|
  {
    if es != [] {
      var init := es[..|es| - 1];
      forall j | 0 <= j < |init| ensures init[j] == es[j] { }
      PassTableFrame(st, init, namePref, verPref, umask, sc);
      StepTableFrame(Pass(st, init, namePref, verPref, umask), es[|es| - 1], namePref, verPref, umask, sc);
    }
  }

  /** A name under `npm_config_` is never one the scoped tables write. */
  lemma ScopedWritesMissConfigNames(t: Table, name: string)
    requires StartsWith(name, ConfigPrefix)
    ensures name !in KeysOf(ScopedWrites(t))
  {
    forall i | 0 <= i < |t| ensures ScopedWrites(t)[i].key != name {
      assert ScopedWrites(t)[i].key[4] == 'p' && name[4] == 'c';
    }
  }

  /**
   * The last config entry that renders and is exported under a name decides
   * that `npm_config_*` variable (index.js:408-435): later entries under other
   * names and the scoped tables do not change it.
   */
  lemma ConfigEntryExported(env: Env, config: seq<ConfigEntry>, namePref: string, verPref: string, umask: ConfigValue -> string, i: nat, t: string)
    requires i < |config| && !KeySkipped(config[i].key, namePref)
    requires ValueText(config[i].key, config[i].value, umask) == Some(t)
    requires forall j :: i < j < |config| ==> !(Renders(config[j], namePref, umask) && ConfigName(config[j].key) == ConfigName(config[i].key))
    ensures ConfigName(config[i].key) in Export(env, config, namePref, verPref, umask)
    ensures Export(env, config, namePref, verPref, umask)[ConfigName(config[i].key)] == t
  {
    var name := ConfigName(config[i].key);
    var st := Pass(ConfigState(env, [], []), config, namePref, verPref, umask);
    PassDecidesName(ConfigState(env, [], []), config, namePref, verPref, umask, i, t);
    ConfigNameUnder(config[i].key);
    ScopedWritesMissConfigNames(st.pkgConfig, name);
    ScopedWritesMissConfigNames(st.pkgVerConfig, name);
    ApplyFrame(st.env, ScopedWrites(st.pkgConfig));
    ApplyFrame(Apply(st.env, ScopedWrites(st.pkgConfig)), ScopedWrites(st.pkgVerConfig));
  }

  lemma PassDecidesName(st0: ConfigState, config: seq<ConfigEntry>, namePref: string, verPref: string, umask: ConfigValue -> string, i: nat, t: string)
    requires i < |config| && !KeySkipped(config[i].key, namePref)
    requires ValueText(config[i].key, config[i].value, umask) == Some(t)
    requires forall j :: i < j < |config| ==> !(Renders(config[j], namePref, umask) && ConfigName(config[j].key) == ConfigName(config[i].key))
    ensures ConfigName(config[i].key) in Pass(st0, config, namePref, verPref, umask).env
    ensures Pass(st0, config, namePref, verPref, umask).env[ConfigName(config[i].key)] == t
  {
    var name := ConfigName(config[i].key);
    var a, b := config[..i + 1], config[i + 1..];
    assert config == a + b;
    PassAppend(st0, a, b, namePref, verPref, umask);
    PassSnoc(st0, config, i, namePref, verPref, umask);
    var mid := Pass(st0, a, namePref, verPref, umask);
    StepRecords(Pass(st0, config[..i], namePref, verPref, umask), config[i], namePref, verPref, umask, t);
    assert mid.env == Pass(st0, config[..i], namePref, verPref, umask).env[name := t];
    forall j | 0 <= j < |b| ensures !(Renders(b[j], namePref, umask) && ConfigName(b[j].key) == name) {
      assert b[j] == config[i + 1 + j];
    }
    PassEnvFrame(mid, b, namePref, verPref, umask, name);
  }

  /**
   * No scoped table ever holds `__proto__`, so the export leaves
   * `npm_package_config___proto__` as the environment had it: the config
   * pass writes only `npm_config_*` names.
   */
  lemma ProtoSubKeyNotExported(env: Env, config: seq<ConfigEntry>, namePref: string, verPref: string, umask: ConfigValue -> string)
    ensures var name := PackageConfigPrefix + ProtoKey;
      (name in Export(env, config, namePref, verPref, umask) <==> name in env) &&
      (name in env ==> Export(env, config, namePref, verPref, umask)[name] == env[name])
  {
    var name := PackageConfigPrefix + ProtoKey;
    var st := Pass(ConfigState(env, [], []), config, namePref, verPref, umask);
    PassShape(ConfigState(env, [], []), config, namePref, verPref, umask);
    assert !StartsWith(name, ConfigPrefix) by {
      assert name[4] == 'p' && ConfigPrefix[4] == 'c';
    }
    ScopedWritesMissProto(st.pkgConfig);
    ScopedWritesMissProto(st.pkgVerConfig);
    var b := Apply(st.env, ScopedWrites(st.pkgConfig));
    ApplyFrame(st.env, ScopedWrites(st.pkgConfig));
    ApplyFrame(b, ScopedWrites(st.pkgVerConfig));
  }

  lemma ScopedWritesMissProto(t: Table)
    requires TableOk(t)
    ensures PackageConfigPrefix + ProtoKey !in KeysOf(ScopedWrites(t))
  {
    forall i | 0 <= i < |t| ensures ScopedWrites(t)[i].key != PackageConfigPrefix + ProtoKey {
      assert (PackageConfigPrefix + t[i].0)[|PackageConfigPrefix|..] == t[i].0;
      assert (PackageConfigPrefix + ProtoKey)[|PackageConfigPrefix|..] == ProtoKey;
    }
  }

  /**
   * A `<name>:key` or `<name>@<version>:key` entry also becomes
   * `npm_package_config_<key>` (index.js:424-442): the last such entry for
   * the sub-key decides it, and a version-scoped one wins over a name-scoped
   * one, since the version table is written last. The sub-key `__proto__` is
   * never stored, so that variable keeps what the environment had.
   */
  lemma ScopedEntryExported(env: Env, config: seq<ConfigEntry>, namePref: string, verPref: string, umask: ConfigValue -> string, i: nat, sc: Scope, t: string)
    requires i < |config| && !sc.Unscoped? && Lands(config[i], sc, namePref, verPref, umask)
    requires ValueText(config[i].key, config[i].value, umask) == Some(t)
    requires forall j :: i < j < |config| ==> !Lands(config[j], sc, namePref, verPref, umask)
    requires sc.NameScoped? ==> forall j :: 0 <= j < |config| ==> !Lands(config[j], VersionScoped(sc.sub), namePref, verPref, umask)
    ensures sc.sub != ProtoKey ==>
      PackageConfigPrefix + sc.sub in Export(env, config, namePref, verPref, umask) &&
      Export(env, config, namePref, verPref, umask)[PackageConfigPrefix + sc.sub] == t
    ensures sc.sub == ProtoKey ==>
      (PackageConfigPrefix + sc.sub in Export(env, config, namePref, verPref, umask) <==> PackageConfigPrefix + sc.sub in env) &&
      (PackageConfigPrefix + sc.sub in env ==> Export(env, config, namePref, verPref, umask)[PackageConfigPrefix + sc.sub] == env[PackageConfigPrefix + sc.sub])
  {
    if sc.sub == ProtoKey {
      ProtoSubKeyNotExported(env, config, namePref, verPref, umask);
      return;
    }
    var st0 := ConfigState(env, [], []);
    var a, b := config[..i + 1], config[i + 1..];
    assert config == a + b;
    PassAppend(st0, a, b, namePref, verPref, umask);
    var before := Pass(st0, config[..i], namePref, verPref, umask);
    PassShape(st0, config[..i], namePref, verPref, umask);
    PassSnoc(st0, config, i, namePref, verPref, umask);
    var mid := Pass(st0, a, namePref, verPref, umask);
    StepRecords(before, config[i], namePref, verPref, umask, t);
    RecordDecides(before, config[i].key, t, namePref, verPref);
    assert (sc.sub, t) in TableOf(mid, sc);
    forall j | 0 <= j < |b| ensures !Lands(b[j], sc, namePref, verPref, umask) {
      assert b[j] == config[i + 1 + j];
    }
    PassTableFrame(mid, b, namePref, verPref, umask, sc);
    var st := Pass(st0, config, namePref, verPref, umask);
    assert (sc.sub, t) in TableOf(st, sc);
    if sc.VersionScoped? {
      VersionScopedWins(env, config, namePref, verPref, umask, sc.sub, t);
    } else {
      PassTableFrame(st0, config, namePref, verPref, umask, VersionScoped(sc.sub));
      NameScopedKept(env, config, namePref, verPref, umask, sc.sub, t);
    }
  }
}
