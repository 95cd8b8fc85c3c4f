/**
 * A top-level `makeEnv(pkg, opts)` call (index.js:346-446): the inherited
 * variables, `NODE_ENV` and `NODE_OPTIONS`, the flattened package and the
 * exported config, in that order.
 */
module ScriptEnv {
  import opened Text
  import opened EnvKeys
  import opened PackageEnv
  import opened ConfigEnv

  /** The options of `makeEnv` that it reads; an unset `nodeOptions` is `""`. */
  datatype EnvOptions = EnvOptions(
    production: bool,
    nodeOptions: string,
    config: seq<ConfigEntry>,
    umask: ConfigValue -> string)

  /** The copy of the process environment, as a value (index.js:349-354). */
  function InheritedEnv(processEnv: Env, pathName: string): (r: Env)
    ensures forall k :: k in r <==> k in processEnv && Inherited(k, pathName)
  {
    map k | k in processEnv && Inherited(k, pathName) :: processEnv[k]
  }

  /** What a template literal makes of a field's value: an object renders as `[object Object]`. */
  function TemplateText(v: Value): string {
    match v
    case Scalar(t) => t
    case Obj(_) => "[object Object]"
  }

  /** `${data.name}:` */
  function NamePrefix(fields: seq<Field>): string {
    TemplateText(Get(fields, "name")) + ":"
  }

  /** `${data.name}@${data.version}:` */
  function VersionPrefix(fields: seq<Field>): string {
    TemplateText(Get(fields, "name")) + "@" + TemplateText(Get(fields, "version")) + ":"
  }

  /** The environment before any package field is written (index.js:348-367). */
  function BaseEnv(processEnv: Env, pathName: string, opts: EnvOptions): Env {
    var inherited := InheritedEnv(processEnv, pathName);
    var withNodeEnv := if opts.production then inherited["NODE_ENV" := "production"] else inherited;
    if opts.nodeOptions != "" then withNodeEnv["NODE_OPTIONS" := opts.nodeOptions] else withNodeEnv
  }

  /** The environment a top-level call returns. */
  function Environment(processEnv: Env, pathName: string, h: Heap, pkg: NodeId, opts: EnvOptions): Env {
    var fields := NodeAt(h, pkg);
    var flat := Apply(BaseEnv(processEnv, pathName, opts), LevelWrites(h, fields, PackagePrefix, {}));
    Export(flat, opts.config, NamePrefix(fields), VersionPrefix(fields), opts.umask)
  }

  /** `makeEnv(pkg, opts)` with no prefix and no environment given. */
  method MakeEnv(processEnv: Env, pathName: string, h: Heap, pkg: NodeId, opts: EnvOptions) returns (env: Env)
    ensures env == Environment(processEnv, pathName, h, pkg, opts)
  {
    env := InheritEnv(processEnv, pathName);
    assert env == InheritedEnv(processEnv, pathName);
    if opts.production {
      env := env["NODE_ENV" := "production"];
    }
    if opts.nodeOptions != "" {
      env := env["NODE_OPTIONS" := opts.nodeOptions];
    }
    var fields := NodeAt(h, pkg);
    env := LevelInto(h, fields, PackagePrefix, {}, env);
    env := ExportConfig(env, opts.config, NamePrefix(fields), VersionPrefix(fields), opts.umask);
  }

  // ------------------------------------------------------------ properties

  lemma NpmPrefixes(k: string)
    ensures StartsWith(k, PackagePrefix) ==> StartsWith(k, "npm_")
    ensures StartsWith(k, ConfigPrefix) ==> StartsWith(k, "npm_")
    ensures StartsWith(k, PackageConfigPrefix) ==> StartsWith(k, "npm_")
  {
    assert PackagePrefix[..4] == "npm_" && ConfigPrefix[..4] == "npm_" && PackageConfigPrefix[..4] == "npm_";
    if StartsWith(k, PackagePrefix) { assert k[..4] == k[..|PackagePrefix|][..4]; }
    if StartsWith(k, ConfigPrefix) { assert k[..4] == k[..|ConfigPrefix|][..4]; }
    if StartsWith(k, PackageConfigPrefix) { assert k[..4] == k[..|PackageConfigPrefix|][..4]; }
  }

  lemma PackagePrefixIsName()
    ensures IsEnvName(PackagePrefix)
  {
    forall i | 0 <= i < |PackagePrefix| ensures IsEnvChar(PackagePrefix[i]) { }
  }

  /** Everything the flattening and the config export write is an `npm_*` name with a single-line value. */
  lemma WrittenUnderNpm(base: Env, h: Heap, fields: seq<Field>, opts: EnvOptions)
    ensures var env := Export(Apply(base, LevelWrites(h, fields, PackagePrefix, {})), opts.config, NamePrefix(fields), VersionPrefix(fields), opts.umask);
      ExtendsUnder(base, env, "npm_")
  {
    var ws := LevelWrites(h, fields, PackagePrefix, {});
    var flat := Apply(base, ws);
    var env := Export(flat, opts.config, NamePrefix(fields), VersionPrefix(fields), opts.umask);
    PackagePrefixIsName();
    LevelWritesShape(h, fields, PackagePrefix, {});
    WritesUnderMembers(ws, PackagePrefix);
    forall i | 0 <= i < |ws| ensures StartsWith(ws[i].key, "npm_") {
      NpmPrefixes(ws[i].key);
    }
    ApplyUnder(base, ws, "npm_");
    ExportShape(flat, opts.config, NamePrefix(fields), VersionPrefix(fields), opts.umask);
    forall k | k in env ensures (k in flat && env[k] == flat[k]) || (IsEnvName(k) && StartsWith(k, "npm_") && '\n' !in env[k]) {
      NpmPrefixes(k);
    }
    ExtendsUnderTrans(base, flat, env, "npm_");
  }

  lemma NotNpm(k: string)
    requires |k| > 0 && k[0] == 'N'
    ensures !StartsWith(k, "npm_")
  {
  }

  /**
   * The returned environment holds every inherited variable unchanged (but
   * `NODE_ENV` and `NODE_OPTIONS` when the options set them), `NODE_ENV` and
   * `NODE_OPTIONS` as set, and otherwise only valid `npm_*` names with
   * single-line values.
   */
  lemma EnvironmentShape(processEnv: Env, pathName: string, h: Heap, pkg: NodeId, opts: EnvOptions)
    ensures var env := Environment(processEnv, pathName, h, pkg, opts);
      (forall k :: k in processEnv && Inherited(k, pathName) && k != "NODE_ENV" && k != "NODE_OPTIONS" ==>
        k in env && env[k] == processEnv[k]) &&
      (opts.production ==> "NODE_ENV" in env && env["NODE_ENV"] == "production") &&
      (opts.nodeOptions != "" ==> "NODE_OPTIONS" in env && env["NODE_OPTIONS"] == opts.nodeOptions) &&
      (!opts.production ==>
        ("NODE_ENV" in env <==> "NODE_ENV" in processEnv && Inherited("NODE_ENV", pathName)) &&
        ("NODE_ENV" in env ==> env["NODE_ENV"] == processEnv["NODE_ENV"])) &&
      (opts.nodeOptions == "" ==>
        ("NODE_OPTIONS" in env <==> "NODE_OPTIONS" in processEnv && Inherited("NODE_OPTIONS", pathName)) &&
        ("NODE_OPTIONS" in env ==> env["NODE_OPTIONS"] == processEnv["NODE_OPTIONS"])) &&
      (forall k :: k in env ==>
        (k in processEnv && Inherited(k, pathName) && env[k] == processEnv[k]) ||
        k == "NODE_ENV" || k == "NODE_OPTIONS" ||
        (IsEnvName(k) && StartsWith(k, "npm_") && '\n' !in env[k]))
  {
    var base := BaseEnv(processEnv, pathName, opts);
    var env := Environment(processEnv, pathName, h, pkg, opts);
    WrittenUnderNpm(base, h, NodeAt(h, pkg), opts);
    NotNpm("NODE_ENV");
    NotNpm("NODE_OPTIONS");
  }
}
